/**
 * The parser itself: one pass over the lines with a stack of child lists that the folders under
 * construction share. Proved to build the tree of Outline.dfy. Source: site/lib/tree.ts, lines 15-57.
 */
module OutlineParser {
  import opened Prelude
  import opened Outline

  datatype Node = PageNode(name: string, href: string) | FolderNode(name: string, list: ChildList)

  /** One `children` array of the source, shared by its folder and a stack entry. */
  class ChildList {
    var items: seq<Node>

    constructor ()
      ensures items == []
    {
      items := [];
    }
  }

  /** A stack entry; the sentinel's indent is below every line's. */
  datatype Frame = Frame(indent: int, list: ChildList)

  const SENTINEL := -2

  datatype Built = Built(index: Option<Tree>, children: ChildList)

  /** A child list on the heap holds this forest, down to the leaves. */
  ghost predicate Shows(list: ChildList, forest: seq<Tree>, lists: set<ChildList>)
    reads lists
    decreases forest
  {
    && list in lists
    && |list.items| == |forest|
    && forall k | 0 <= k < |forest| :: ShowsNode(list.items[k], forest[k], lists)
  }

  ghost predicate ShowsNode(node: Node, t: Tree, lists: set<ChildList>)
    reads lists
    decreases t
  {
    match t
    case Page(name, href) => node == PageNode(name, href)
    case Folder(name, children) => node.FolderNode? && node.name == name && Shows(node.list, children, lists)
  }

  // ---------------------------------------------------------------- the stack

  /** Group j is still open before line i. */
  ghost predicate Open(lines: seq<Line>, j: int, i: nat)
    requires i <= |lines|
  {
    0 <= j < i && lines[j].GroupLine? && forall m | j < m < i :: lines[m].indent > lines[j].indent
  }

  /** The stack is the section and the open groups, outermost first, each with its own child list. */
  ghost predicate StackIs(lines: seq<Line>, own: map<int, ChildList>, stack: seq<Frame>, open: seq<int>, i: nat)
    requires i <= |lines|
  {
    && |stack| == |open| && 1 <= |stack| && open[0] == -1 && -1 in own
    && stack[0] == Frame(SENTINEL, own[-1])
    && (forall t | 0 < t < |open| ::
          && Open(lines, open[t], i) && open[t] in own
          && stack[t] == Frame(lines[open[t]].indent, own[open[t]]))
    && (forall s, t | 0 <= s < t < |open| :: open[s] < open[t])
    && (forall j | Open(lines, j, i) :: j in open)
  }

  lemma IndentsClimb(lines: seq<Line>, own: map<int, ChildList>, stack: seq<Frame>, open: seq<int>, i: nat)
    requires i <= |lines| && StackIs(lines, own, stack, open, i)
    ensures forall s, t | 0 <= s < t < |stack| :: stack[s].indent < stack[t].indent
  {
    forall s, t | 0 <= s < t < |stack|
      ensures stack[s].indent < stack[t].indent
    {
      assert open[s] < open[t] && Open(lines, open[t], i);
      if s > 0 {
        assert Open(lines, open[s], i);
      }
    }
  }

  /** An open group shallower than a line is still on the stack once the deeper ones are popped. */
  lemma KeptIsOpen(lines: seq<Line>, own: map<int, ChildList>, stack: seq<Frame>, open: seq<int>, i: nat, k: nat,
                   j: nat)
    requires i < |lines| && StackIs(lines, own, stack, open, i) && 1 <= k <= |stack|
    requires stack[k - 1].indent < lines[i].indent
    requires k < |stack| ==> stack[k].indent >= lines[i].indent
    ensures Encloses(lines, j, i) <==> j in open[..k]
  {
    IndentsClimb(lines, own, stack, open, i);
    if Encloses(lines, j, i) {
      assert Open(lines, j, i);
      var t :| 0 <= t < |open| && open[t] == j;
      assert stack[t].indent == lines[j].indent;
      assert t < k;
      assert open[..k][t] == j;
    }
    if j in open[..k] {
      var t :| 0 <= t < k && open[..k][t] == j;
      assert open[t] == j && Open(lines, open[t], i) && stack[t].indent <= stack[k - 1].indent;
    }
  }

  /** Popping the entries at or below a line's depth leaves its parent on top. */
  lemma TopIsParent(lines: seq<Line>, own: map<int, ChildList>, stack: seq<Frame>, open: seq<int>, i: nat, k: nat)
    requires i < |lines| && StackIs(lines, own, stack, open, i) && 1 <= k <= |stack|
    requires stack[k - 1].indent < lines[i].indent
    requires k < |stack| ==> stack[k].indent >= lines[i].indent
    ensures open[k - 1] == Parent(lines, i)
    ensures forall j: nat :: Encloses(lines, j, i) <==> j in open[..k]
  {
    forall j: nat
      ensures Encloses(lines, j, i) <==> j in open[..k]
    {
      KeptIsOpen(lines, own, stack, open, i, k, j);
    }
    LastIsParent(lines, open, i, k);
  }

  lemma LastIsParent(lines: seq<Line>, open: seq<int>, i: nat, k: nat)
    requires i < |lines| && 1 <= k <= |open| && open[0] == -1
    requires forall s, t | 0 <= s < t < |open| :: open[s] < open[t]
    requires forall j: nat :: Encloses(lines, j, i) <==> j in open[..k]
    ensures open[k - 1] == Parent(lines, i)
  {
    var p, q := Parent(lines, i), open[k - 1];
    assert open[..k][k - 1] == q;
    if k > 1 {
      assert open[0] < q;
      assert Encloses(lines, q, i);
    }
    if 0 <= p {
      assert p in open[..k];
      var t :| 0 <= t < k && open[..k][t] == p;
      assert open[t] == p && (t < k - 1 ==> open[t] < q);
    }
  }

  lemma StillOpen(lines: seq<Line>, own: map<int, ChildList>, stack: seq<Frame>, open: seq<int>, i: nat, k: nat)
    requires i < |lines| && StackIs(lines, own, stack, open, i) && 1 <= k <= |stack|
    requires forall j: nat :: Encloses(lines, j, i) <==> j in open[..k]
    ensures forall j | Open(lines, j, i + 1) :: (j == i && lines[i].GroupLine?) || j in open[..k]
    ensures forall t | 0 < t < k :: Open(lines, open[t], i + 1)
  {
    forall t | 0 < t < k
      ensures Open(lines, open[t], i + 1)
    {
      assert Open(lines, open[t], i) && open[..k][t] == open[t];
      assert open[t] in open[..k];
      assert Encloses(lines, open[t], i);
    }
    forall j | Open(lines, j, i + 1)
      ensures (j == i && lines[i].GroupLine?) || j in open[..k]
    {
      if j < i {
        assert Encloses(lines, j, i);
      }
    }
  }

  lemma AfterPage(lines: seq<Line>, own: map<int, ChildList>, stack: seq<Frame>, open: seq<int>, i: nat, k: nat)
    requires i < |lines| && StackIs(lines, own, stack, open, i) && 1 <= k <= |stack| && lines[i].PageLine?
    requires forall j: nat :: Encloses(lines, j, i) <==> j in open[..k]
    ensures StackIs(lines, own, stack[..k], open[..k], i + 1)
  {
    StillOpen(lines, own, stack, open, i, k);
  }

  lemma AfterGroup(lines: seq<Line>, own: map<int, ChildList>, stack: seq<Frame>, open: seq<int>, i: nat, k: nat,
                   sub: ChildList)
    requires i < |lines| && StackIs(lines, own, stack, open, i) && 1 <= k <= |stack| && lines[i].GroupLine?
    requires forall j: nat :: Encloses(lines, j, i) <==> j in open[..k]
    ensures StackIs(lines, own[i as int := sub], stack[..k] + [Frame(lines[i].indent, sub)], open[..k] + [i], i + 1)
  {
    StillOpen(lines, own, stack, open, i, k);
  }

  /** The source's `while` loop over the stack. */
  method PopDeeper(stack: seq<Frame>, indent: int) returns (r: seq<Frame>)
    requires stack != [] && stack[0].indent < indent
    ensures 1 <= |r| && r <= stack
    ensures r[|r| - 1].indent < indent
    ensures |r| < |stack| ==> stack[|r|].indent >= indent
  {
    r := stack;
    while r[|r| - 1].indent >= indent
      invariant 1 <= |r| && r <= stack
      invariant |r| < |stack| ==> stack[|r|].indent >= indent
      decreases |r|
    {
      r := r[..|r| - 1];
    }
  }

  // ---------------------------------------------------------------- the child lists

  ghost function NodeOf(lines: seq<Line>, own: map<int, ChildList>, c: nat): Node
    requires c < |lines| && (lines[c].GroupLine? ==> c in own)
  {
    match lines[c]
    case PageLine(_, name, href) => PageNode(name, href)
    case GroupLine(_, name) => FolderNode(name, own[c])
  }

  /** What the list of `o` must hold once lines lo..hi have been read. */
  ghost function ChildNodes(lines: seq<Line>, own: map<int, ChildList>, o: int, lo: nat, hi: nat): seq<Node>
    requires -1 <= o < lo <= hi <= |lines|
    requires forall c: nat | c < hi && lines[c].GroupLine? :: c in own
    decreases hi
  {
    if lo == hi then []
    else
      var c := hi - 1;
      ChildNodes(lines, own, o, lo, c)
      + (if Parent(lines, c) != o || IsIndex(lines[c]) then [] else [NodeOf(lines, own, c)])
  }

  /** The section and each group read so far own one list each, and no two the same one. */
  ghost predicate Owned(lines: seq<Line>, own: map<int, ChildList>, i: nat)
    requires i <= |lines|
  {
    && (forall j :: j in own <==> j == -1 || (0 <= j < i && lines[j].GroupLine?))
    && (forall j, k | j in own && k in own && j != k :: own[j] != own[k])
  }

  ghost predicate ListsAre(lines: seq<Line>, own: map<int, ChildList>, i: nat)
    requires i <= |lines| && Owned(lines, own, i)
    reads own.Values
  {
    forall o | o in own :: own[o].items == ChildNodes(lines, own, o, o + 1, i)
  }

  lemma {:induction false} OwnGrows(lines: seq<Line>, own: map<int, ChildList>, more: map<int, ChildList>, o: int,
                                    lo: nat, hi: nat)
    requires -1 <= o < lo <= hi <= |lines|
    requires forall c: nat | c < hi && lines[c].GroupLine? :: c in own && c in more && more[c] == own[c]
    ensures ChildNodes(lines, own, o, lo, hi) == ChildNodes(lines, more, o, lo, hi)
    decreases hi
  {
    if lo < hi {
      OwnGrows(lines, own, more, o, lo, hi - 1);
    }
  }

  /** Reading a line extends its parent's list, and no other. */
  lemma {:induction false} OneMore(lines: seq<Line>, own: map<int, ChildList>, more: map<int, ChildList>, i: nat,
                                   o: int)
    requires i < |lines| && Owned(lines, own, i) && o in own
    requires lines[i].GroupLine? ==> i in more
    requires more == (if lines[i].GroupLine? then own[i as int := more[i]] else own)
    ensures ChildNodes(lines, more, o, o + 1, i + 1)
         == ChildNodes(lines, own, o, o + 1, i)
            + (if Parent(lines, i) != o || IsIndex(lines[i]) then [] else [NodeOf(lines, more, i)])
  {
    OwnGrows(lines, own, more, o, o + 1, i);
  }

  /** The list a line's entry goes to, once the stack is popped to it. */
  method PopToParent(lines: seq<Line>, i: nat, stack: seq<Frame>, ghost own: map<int, ChildList>, ghost open: seq<int>)
    returns (next: seq<Frame>)
    requires i < |lines| && Owned(lines, own, i) && StackIs(lines, own, stack, open, i)
    ensures 1 <= |next| && next <= stack && Parent(lines, i) in own
    ensures next[|next| - 1].list == own[Parent(lines, i)]
    ensures forall j: nat :: Encloses(lines, j, i) <==> j in open[..|next|]
  {
    next := PopDeeper(stack, lines[i].indent);
    TopIsParent(lines, own, stack, open, i, |next|);
  }

  /** A page's entry goes to its parent's list; the section's own page goes to none. */
  method AttachPage(lines: seq<Line>, i: nat, parent: ChildList, ghost own: map<int, ChildList>)
    requires i < |lines| && Owned(lines, own, i) && ListsAre(lines, own, i) && lines[i].PageLine?
    requires Parent(lines, i) in own && parent == own[Parent(lines, i)]
    modifies own.Values
    ensures Owned(lines, own, i + 1) && ListsAre(lines, own, i + 1)
  {
    if !IsIndex(lines[i]) {
      parent.items := parent.items + [PageNode(lines[i].name, lines[i].href)];
    }
    forall o | o in own
      ensures own[o].items == ChildNodes(lines, own, o, o + 1, i + 1)
    {
      OneMore(lines, own, own, i, o);
      assert old(own[o].items) == ChildNodes(lines, own, o, o + 1, i);
    }
  }

  /** A group's entry goes to its parent's list, with a list of its own. */
  method AttachGroup(lines: seq<Line>, i: nat, parent: ChildList, ghost own: map<int, ChildList>)
    returns (sub: ChildList)
    requires i < |lines| && Owned(lines, own, i) && ListsAre(lines, own, i) && lines[i].GroupLine?
    requires Parent(lines, i) in own && parent == own[Parent(lines, i)]
    modifies own.Values
    ensures fresh(sub)
    ensures var more := own[i as int := sub]; Owned(lines, more, i + 1) && ListsAre(lines, more, i + 1)
  {
    sub := new ChildList();
    parent.items := parent.items + [FolderNode(lines[i].name, sub)];
    ghost var more := own[i as int := sub];
    forall o | o in more
      ensures more[o].items == ChildNodes(lines, more, o, o + 1, i + 1)
    {
      if o in own {
        OneMore(lines, own, more, i, o);
        assert old(own[o].items) == ChildNodes(lines, own, o, o + 1, i);
      }
    }
  }

  /** What is left of the stack over a page, and what is on it after a group. */
  method TakePage(lines: seq<Line>, i: nat, stack: seq<Frame>, ghost own: map<int, ChildList>, ghost open: seq<int>)
    returns (next: seq<Frame>)
    requires i < |lines| && Owned(lines, own, i) && ListsAre(lines, own, i) && StackIs(lines, own, stack, open, i)
    requires lines[i].PageLine?
    modifies own.Values
    ensures Owned(lines, own, i + 1) && ListsAre(lines, own, i + 1)
    ensures |next| <= |open| && StackIs(lines, own, next, open[..|next|], i + 1)
  {
    next := PopToParent(lines, i, stack, own, open);
    AfterPage(lines, own, stack, open, i, |next|);
    assert next == stack[..|next|];
    AttachPage(lines, i, next[|next| - 1].list, own);
  }

  method TakeGroup(lines: seq<Line>, i: nat, stack: seq<Frame>, ghost own: map<int, ChildList>, ghost open: seq<int>)
    returns (next: seq<Frame>, sub: ChildList)
    requires i < |lines| && Owned(lines, own, i) && ListsAre(lines, own, i) && StackIs(lines, own, stack, open, i)
    requires lines[i].GroupLine?
    modifies own.Values
    ensures fresh(sub) && own[i as int := sub].Values <= own.Values + {sub}
    ensures var more := own[i as int := sub];
            && Owned(lines, more, i + 1) && ListsAre(lines, more, i + 1)
            && 1 <= |next| <= |open| + 1
            && StackIs(lines, more, next, open[..|next| - 1] + [i], i + 1)
  {
    next := PopToParent(lines, i, stack, own, open);
    sub := AttachGroup(lines, i, next[|next| - 1].list, own);
    AfterGroup(lines, own, stack, open, i, |next|, sub);
    assert next == stack[..|next|];
    next := next + [Frame(lines[i].indent, sub)];
  }

  /** Where the parser stands before line i: who owns which list, what the lists hold, and the stack. */
  ghost predicate Standing(lines: seq<Line>, own: map<int, ChildList>, stack: seq<Frame>, open: seq<int>, i: nat)
    requires i <= |lines|
    reads own.Values
  {
    Owned(lines, own, i) && ListsAre(lines, own, i) && StackIs(lines, own, stack, open, i)
  }

  /** One line, whichever it is. */
  method TakeLine(lines: seq<Line>, i: nat, stack: seq<Frame>, ghost own: map<int, ChildList>, ghost open: seq<int>)
    returns (next: seq<Frame>, ghost more: map<int, ChildList>, ghost left: seq<int>)
    requires i < |lines| && Standing(lines, own, stack, open, i)
    modifies own.Values
    ensures Standing(lines, more, next, left, i + 1)
    ensures -1 in own && -1 in more && more[-1] == own[-1]
    ensures fresh(more.Values - own.Values)
  {
    if lines[i].PageLine? {
      next := TakePage(lines, i, stack, own, open);
      more, left := own, open[..|next|];
    } else {
      var sub;
      next, sub := TakeGroup(lines, i, stack, own, open);
      more, left := own[i as int := sub], open[..|next| - 1] + [i];
    }
  }

  // ---------------------------------------------------------------- the finished tree

  /** Once every line is read, the list of each owner holds the subtree of that owner. */
  lemma {:induction false} ListShows(lines: seq<Line>, own: map<int, ChildList>, o: int)
    requires Owned(lines, own, |lines|) && ListsAre(lines, own, |lines|) && o in own
    ensures Shows(own[o], Grown(lines, o, o + 1, |lines|), own.Values)
    decreases |lines| - o, |lines| + 1
  {
    NodesShow(lines, own, o, o + 1, |lines|);
  }

  lemma {:induction false} NodesShow(lines: seq<Line>, own: map<int, ChildList>, o: int, lo: nat, hi: nat)
    requires Owned(lines, own, |lines|) && ListsAre(lines, own, |lines|) && -1 <= o < lo <= hi <= |lines|
    ensures |ChildNodes(lines, own, o, lo, hi)| == |Grown(lines, o, lo, hi)|
    ensures forall k | 0 <= k < |Grown(lines, o, lo, hi)| ::
              ShowsNode(ChildNodes(lines, own, o, lo, hi)[k], Grown(lines, o, lo, hi)[k], own.Values)
    decreases |lines| - o, hi
  {
    if lo < hi {
      var c := hi - 1;
      NodesShow(lines, own, o, lo, c);
      if lines[c].GroupLine? {
        ListShows(lines, own, c);
      }
      assert ShowsNode(NodeOf(lines, own, c), Entry(lines, c), own.Values);
    }
  }

  lemma {:induction false} StandingShows(lines: seq<Line>, own: map<int, ChildList>, stack: seq<Frame>, open: seq<int>)
    requires Standing(lines, own, stack, open, |lines|) && -1 in own
    ensures Shows(own[-1], Forest(lines), own.Values)
  {
    ListShows(lines, own, -1);
    ForestFollowsParents(lines);
  }

  lemma NothingRead(lines: seq<Line>, root: ChildList)
    requires root.items == []
    ensures Standing(lines, map[-1 := root], [Frame(SENTINEL, root)], [-1], 0)
  {}

  predicate Broken(line: Line, loaded: set<string>) {
    line.PageLine? && line.href !in loaded
  }

  /** The page that is the section's own, a line further. */
  lemma IndexAdds(lines: seq<Line>, i: nat)
    requires i < |lines|
    ensures Index(lines[..i + 1])
         == if IsIndex(lines[i]) then Some(Page(lines[i].name, lines[i].href)) else Index(lines[..i])
  {
    assert lines[..i + 1][..i] == lines[..i];
  }

  /**
   * A section's lines to its folder on the heap. A link to a page that did not load fails the build, the
   * first such link by name; otherwise the child lists hold exactly the tree the lines mean.
   */
  method ParseSection(lines: seq<Line>, loaded: set<string>)
    returns (r: Result<Built, string>, ghost lists: set<ChildList>)
    ensures r.Err? <==> exists i | 0 <= i < |lines| :: Broken(lines[i], loaded)
    ensures r.Err? ==> exists i | 0 <= i < |lines| :: Broken(lines[i], loaded) && lines[i].href == r.error
                         && forall j | 0 <= j < i :: !Broken(lines[j], loaded)
    ensures r.Ok? ==> r.value.index == Index(lines)
    ensures r.Ok? ==> Shows(r.value.children, Forest(lines), lists) && fresh(lists)
  {
    lists := {};
    var root := new ChildList();
    var stack := [Frame(SENTINEL, root)];
    var index: Option<Tree> := None;
    ghost var own, open := map[-1 := root], [-1];
    NothingRead(lines, root);
    for i := 0 to |lines|
      invariant Standing(lines, own, stack, open, i)
      invariant -1 in own && own[-1] == root && fresh(own.Values)
      invariant index == Index(lines[..i])
      invariant forall j | 0 <= j < i :: !Broken(lines[j], loaded)
    {
      if Broken(lines[i], loaded) {
        return Err(lines[i].href), {};
      }
      IndexAdds(lines, i);
      if IsIndex(lines[i]) {
        index := Some(Page(lines[i].name, lines[i].href));
      }
      assert index == Index(lines[..i + 1]);
      stack, own, open := TakeLine(lines, i, stack, own, open);
    }
    assert lines[..|lines|] == lines;
    StandingShows(lines, own, stack, open);
    lists := own.Values;
    return Ok(Built(index, root)), lists;
  }
}
