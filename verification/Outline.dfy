/**
 * The navigation outline: indented lines to a tree of folders, with a stack of child lists that the
 * tree shares. Source: site/lib/tree.ts, lines 15-57. Depth is half the indent there; comparing
 * indents decides the same.
 */
module Outline {
  import opened Prelude

  /** A line that is an entry: a link to a page, or the bare title of a group. */
  datatype Line = PageLine(indent: nat, name: string, href: string) | GroupLine(indent: nat, name: string)

  datatype Tree = Page(name: string, href: string) | Folder(name: string, children: seq<Tree>)

  /** A section: its own page, if an unindented README is listed, and its entries. */
  datatype Section = Section(index: Option<Tree>, children: seq<Tree>)

  const README := "README.md"

  predicate IsIndex(line: Line) {
    line.PageLine? && line.indent == 0 && line.href == README
  }

  // ---------------------------------------------------------------- what the outline means

  /** Group j is open over line i: every line after j, up to and including i, is deeper than j. */
  ghost predicate Encloses(lines: seq<Line>, j: nat, i: nat)
    requires i < |lines|
  {
    j < i && lines[j].GroupLine? && forall m | j < m <= i :: lines[m].indent > lines[j].indent
  }

  /** A line's parent: the latest group open over it, or -1 for the section itself. */
  ghost function Parent(lines: seq<Line>, i: nat): (p: int)
    requires i < |lines|
    ensures -1 <= p < i
    ensures 0 <= p ==> Encloses(lines, p, i)
    ensures forall j: nat | p < j < i :: !Encloses(lines, j, i)
  {
    LatestEnclosing(lines, i, i)
  }

  ghost function LatestEnclosing(lines: seq<Line>, i: nat, n: nat): (p: int)
    requires n <= i < |lines|
    ensures -1 <= p < n
    ensures 0 <= p ==> Encloses(lines, p, i)
    ensures forall j: nat | p < j < n :: !Encloses(lines, j, i)
  {
    if n == 0 then -1 else if Encloses(lines, n - 1, i) then n - 1 else LatestEnclosing(lines, i, n - 1)
  }

  /** The children of `o` among lines lo..hi, in line order, each with all of its own. */
  ghost function Grown(lines: seq<Line>, o: int, lo: nat, hi: nat): seq<Tree>
    requires -1 <= o < lo <= hi <= |lines|
    decreases |lines| - o, hi - lo
  {
    if lo == hi then []
    else
      var c := hi - 1;
      Grown(lines, o, lo, c) + (if Parent(lines, c) != o || IsIndex(lines[c]) then [] else [Entry(lines, c)])
  }

  ghost function Entry(lines: seq<Line>, c: nat): Tree
    requires c < |lines|
    decreases |lines| - c, |lines| + 1
  {
    match lines[c]
    case PageLine(_, name, href) => Page(name, href)
    case GroupLine(_, name) => Folder(name, Grown(lines, c, c + 1, |lines|))
  }

  // ---------------------------------------------------------------- a recursive reading of the same

  /** How many of the first lines are deeper than `d`. */
  function Extent(lines: seq<Line>, d: nat): (k: nat)
    ensures k <= |lines|
    ensures forall m | 0 <= m < k :: lines[m].indent > d
    ensures k < |lines| ==> lines[k].indent <= d
  {
    if lines == [] || lines[0].indent <= d then 0 else 1 + Extent(lines[1..], d)
  }

  function Forest(lines: seq<Line>): seq<Tree>
    decreases |lines|
  {
    if lines == [] then []
    else if IsIndex(lines[0]) then Forest(lines[1..])
    else
      match lines[0]
      case PageLine(_, name, href) => [Page(name, href)] + Forest(lines[1..])
      case GroupLine(d, name) =>
        var e := 1 + Extent(lines[1..], d);
        [Folder(name, Forest(lines[1..e]))] + Forest(lines[e..])
  }

  function Index(lines: seq<Line>): Option<Tree> {
    if lines == [] then None
    else
      var last := lines[|lines| - 1];
      if IsIndex(last) then Some(Page(last.name, last.href)) else Index(lines[..|lines| - 1])
  }

  function SectionOf(lines: seq<Line>): Section {
    Section(Index(lines), Forest(lines))
  }

  lemma {:induction false} GrownSplits(lines: seq<Line>, o: int, lo: nat, mid: nat, hi: nat)
    requires -1 <= o < lo <= mid <= hi <= |lines|
    ensures Grown(lines, o, lo, hi) == Grown(lines, o, lo, mid) + Grown(lines, o, mid, hi)
    decreases hi
  {
    if mid < hi {
      GrownSplits(lines, o, lo, mid, hi - 1);
    }
  }

  lemma {:induction false} GrownNone(lines: seq<Line>, o: int, lo: nat, hi: nat)
    requires -1 <= o < lo <= hi <= |lines|
    requires forall m | lo <= m < hi :: Parent(lines, m) != o
    ensures Grown(lines, o, lo, hi) == []
    decreases hi
  {
    if lo < hi {
      GrownNone(lines, o, lo, hi - 1);
    }
  }

  /** Lines lo..hi belong to `o`: their parents are `o` or among them, and `o` is closed after them. */
  ghost predicate Belongs(lines: seq<Line>, o: int, lo: nat, hi: nat) {
    && -1 <= o < lo <= hi <= |lines|
    && (0 <= o ==> forall m | lo <= m < hi :: lines[m].indent > lines[o].indent)
    && (forall m | lo <= m < hi :: Parent(lines, m) == o || lo <= Parent(lines, m))
    && (hi < |lines| ==> 0 <= o && lines[hi].indent <= lines[o].indent)
  }

  /** A group's own lines belong to it, and the lines after them still belong to its parent. */
  lemma GroupBelongs(lines: seq<Line>, o: int, lo: nat, hi: nat, e: nat)
    requires Belongs(lines, o, lo, hi) && lo < e <= hi && lines[lo].GroupLine?
    requires forall m | lo < m < e :: lines[m].indent > lines[lo].indent
    requires e < hi ==> lines[e].indent <= lines[lo].indent
    ensures Belongs(lines, lo, lo + 1, e) && Belongs(lines, o, e, hi)
    ensures forall m | e <= m < |lines| :: Parent(lines, m) != lo
    ensures forall m | lo < m < e :: Parent(lines, m) != o
  {
    forall m | lo < m < e
      ensures lo <= Parent(lines, m)
    {
      assert Encloses(lines, lo, m);
    }
    forall m | e <= m < |lines|
      ensures !(lo <= Parent(lines, m) < e)
    {
      var p := Parent(lines, m);
    }
  }

  lemma FirstIsChild(lines: seq<Line>, o: int, lo: nat, hi: nat)
    requires -1 <= o < lo < hi <= |lines| && Parent(lines, lo) == o
    ensures Grown(lines, o, lo, hi)
         == (if IsIndex(lines[lo]) then [] else [Entry(lines, lo)]) + Grown(lines, o, lo + 1, hi)
  {
    GrownSplits(lines, o, lo, lo + 1, hi);
    assert Grown(lines, o, lo, lo) == [];
  }

  /** A group's children are exactly the entries its own lines hold for it. */
  lemma GroupGrows(lines: seq<Line>, o: int, lo: nat, hi: nat, e: nat)
    requires -1 <= o < lo < e <= hi <= |lines| && Parent(lines, lo) == o && lines[lo].GroupLine?
    requires forall m | lo < m < e :: Parent(lines, m) != o
    requires forall m | e <= m < |lines| :: Parent(lines, m) != lo
    ensures Grown(lines, o, lo, hi)
         == [Folder(lines[lo].name, Grown(lines, lo, lo + 1, e))] + Grown(lines, o, e, hi)
  {
    FirstIsChild(lines, o, lo, hi);
    GrownSplits(lines, lo, lo + 1, e, |lines|);
    GrownNone(lines, lo, e, |lines|);
    assert Grown(lines, lo, lo + 1, |lines|) == Grown(lines, lo, lo + 1, e);
    GrownSplits(lines, o, lo + 1, e, hi);
    GrownNone(lines, o, lo + 1, e);
    assert Grown(lines, o, lo + 1, hi) == Grown(lines, o, e, hi);
  }

  /** Where a group's own lines end, in a stretch that starts with it. */
  lemma GroupExtent(lines: seq<Line>, lo: nat, hi: nat) returns (e: nat)
    requires lo < hi <= |lines|
    ensures lo < e <= hi && e == lo + 1 + Extent(lines[lo..hi][1..], lines[lo].indent)
    ensures forall m | lo < m < e :: lines[m].indent > lines[lo].indent
    ensures e < hi ==> lines[e].indent <= lines[lo].indent
  {
    var part := lines[lo..hi];
    e := lo + 1 + Extent(part[1..], part[0].indent);
    assert forall m | lo < m < hi :: lines[m] == part[1..][m - lo - 1];
  }

  /** One group of the recursive reading, by positions in the whole outline. */
  lemma ForestOfGroup(lines: seq<Line>, lo: nat, hi: nat) returns (e: nat)
    requires lo < hi <= |lines| && lines[lo].GroupLine?
    ensures lo < e <= hi
    ensures forall m | lo < m < e :: lines[m].indent > lines[lo].indent
    ensures e < hi ==> lines[e].indent <= lines[lo].indent
    ensures Forest(lines[lo..hi]) == [Folder(lines[lo].name, Forest(lines[lo + 1..e]))] + Forest(lines[e..hi])
  {
    e := GroupExtent(lines, lo, hi);
    SliceOfSlice(lines, lo, hi, lo + 1, e);
    SliceOfSlice(lines, lo, hi, e, hi);
    ForestStarts(lines[lo..hi], e - lo);
  }

  lemma {:induction false} ForestStarts(part: seq<Line>, k: nat)
    requires part != [] && part[0].GroupLine? && k == 1 + Extent(part[1..], part[0].indent)
    ensures Forest(part) == [Folder(part[0].name, Forest(part[1..k]))] + Forest(part[k..])
  {}

  lemma SliceOfSlice<T>(s: seq<T>, lo: nat, hi: nat, a: nat, c: nat)
    requires lo <= a <= c <= hi <= |s|
    ensures s[lo..hi][a - lo..c - lo] == s[a..c]
    ensures c == hi ==> s[lo..hi][a - lo..] == s[a..c]
  {
    var part := s[lo..hi];
    var slice := part[a - lo..c - lo];
    assert |slice| == c - a && forall k | 0 <= k < |slice| :: slice[k] == s[a + k];
    assert slice == s[a..c];
    if c == hi {
      assert part[a - lo..] == slice;
    }
  }

  lemma ForestOfPage(lines: seq<Line>, lo: nat, hi: nat)
    requires lo < hi <= |lines| && lines[lo].PageLine?
    ensures Forest(lines[lo..hi])
         == (if IsIndex(lines[lo]) then [] else [Entry(lines, lo)]) + Forest(lines[lo + 1..hi])
  {
    assert lines[lo..hi][0] == lines[lo] && lines[lo..hi][1..] == lines[lo + 1..hi];
  }

  lemma PageBelongs(lines: seq<Line>, o: int, lo: nat, hi: nat)
    requires Belongs(lines, o, lo, hi) && lo < hi && lines[lo].PageLine?
    ensures Belongs(lines, o, lo + 1, hi) && Parent(lines, lo) == o
  {}

  /** What is left to show of a stretch that starts with a page. */
  lemma AfterPage(lines: seq<Line>, o: int, lo: nat, hi: nat)
    requires Belongs(lines, o, lo, hi) && lo < hi && lines[lo].PageLine?
    ensures Belongs(lines, o, lo + 1, hi)
    ensures Grown(lines, o, lo + 1, hi) == Forest(lines[lo + 1..hi]) ==>
              Grown(lines, o, lo, hi) == Forest(lines[lo..hi])
  {
    PageBelongs(lines, o, lo, hi);
    FirstIsChild(lines, o, lo, hi);
    ForestOfPage(lines, lo, hi);
  }

  /** ... and of one that starts with a group. */
  lemma AfterGroup(lines: seq<Line>, o: int, lo: nat, hi: nat) returns (e: nat)
    requires Belongs(lines, o, lo, hi) && lo < hi && lines[lo].GroupLine?
    ensures lo < e <= hi && Belongs(lines, lo, lo + 1, e) && Belongs(lines, o, e, hi)
    ensures (Grown(lines, lo, lo + 1, e) == Forest(lines[lo + 1..e])
             && Grown(lines, o, e, hi) == Forest(lines[e..hi])) ==>
              Grown(lines, o, lo, hi) == Forest(lines[lo..hi])
  {
    e := ForestOfGroup(lines, lo, hi);
    GroupBelongs(lines, o, lo, hi, e);
    GroupGrows(lines, o, lo, hi, e);
  }

  /** The declarative tree and the recursive reading agree, on every stretch of lines that one owner has. */
  lemma {:induction false} GrownIsForest(lines: seq<Line>, o: int, lo: nat, hi: nat)
    requires Belongs(lines, o, lo, hi)
    ensures Grown(lines, o, lo, hi) == Forest(lines[lo..hi])
    decreases hi - lo, 1
  {
    if lo == hi {
      assert lines[lo..hi] == [];
    } else if lines[lo].PageLine? {
      AfterPage(lines, o, lo, hi);
      GrownIsForest(lines, o, lo + 1, hi);
    } else {
      var e := AfterGroup(lines, o, lo, hi);
      StretchesAreForests(lines, o, lo, e, hi);
    }
  }

  /** A group's own lines, and the lines after them. */
  lemma StretchesAreForests(lines: seq<Line>, o: int, lo: nat, e: nat, hi: nat)
    requires lo < e <= hi && Belongs(lines, lo, lo + 1, e) && Belongs(lines, o, e, hi)
    ensures Grown(lines, lo, lo + 1, e) == Forest(lines[lo + 1..e]) && Grown(lines, o, e, hi) == Forest(lines[e..hi])
    decreases hi - lo, 0
  {
    GrownIsForest(lines, lo, lo + 1, e);
    GrownIsForest(lines, o, e, hi);
  }

  /** The whole section, read recursively, is the tree of the parent relation. */
  lemma {:induction false} ForestFollowsParents(lines: seq<Line>)
    ensures Forest(lines) == Grown(lines, -1, 0, |lines|)
  {
    GrownIsForest(lines, -1, 0, |lines|);
    assert lines[0..|lines|] == lines;
  }

  // ---------------------------------------------------------------- nothing lost, nothing reordered

  datatype Label = PageLabel(name: string, href: string) | GroupLabel(name: string)

  function LabelOf(line: Line): Label {
    match line
    case PageLine(_, name, href) => PageLabel(name, href)
    case GroupLine(_, name) => GroupLabel(name)
  }

  /** The tree, read top to bottom. */
  function Preorder(forest: seq<Tree>): seq<Label> {
    if forest == [] then []
    else LabelsOf(forest[0]) + Preorder(forest[1..])
  }

  function LabelsOf(t: Tree): seq<Label> {
    match t
    case Page(name, href) => [PageLabel(name, href)]
    case Folder(name, children) => [GroupLabel(name)] + Preorder(children)
  }

  /** The lines, without the section's own page. */
  function Entries(lines: seq<Line>): seq<Label> {
    if lines == [] then []
    else (if IsIndex(lines[0]) then [] else [LabelOf(lines[0])]) + Entries(lines[1..])
  }

  lemma {:induction false} EntriesCons(line: Line, rest: seq<Line>)
    ensures Entries([line] + rest) == (if IsIndex(line) then [] else [LabelOf(line)]) + Entries(rest)
  {
    assert ([line] + rest)[1..] == rest;
  }

  lemma {:induction false} EntriesSplit(a: seq<Line>, b: seq<Line>)
    ensures Entries(a + b) == Entries(a) + Entries(b)
  {
    if a == [] {
      assert a + b == b;
    } else {
      EntriesSplit(a[1..], b);
      EntriesCons(a[0], a[1..] + b);
      assert a + b == [a[0]] + (a[1..] + b);
      Associates(if IsIndex(a[0]) then [] else [LabelOf(a[0])], Entries(a[1..]), Entries(b));
    }
  }

  lemma {:induction false} PreorderCons(t: Tree, rest: seq<Tree>)
    ensures Preorder([t] + rest) == LabelsOf(t) + Preorder(rest)
  {
    assert ([t] + rest)[1..] == rest;
  }

  lemma {:induction false} GroupKeepsTheLines(line: Line, inner: seq<Line>, after: seq<Line>)
    requires line.GroupLine?
    requires Preorder(Forest(inner)) == Entries(inner) && Preorder(Forest(after)) == Entries(after)
    ensures Preorder([Folder(line.name, Forest(inner))] + Forest(after)) == Entries([line] + (inner + after))
  {
    PreorderCons(Folder(line.name, Forest(inner)), Forest(after));
    EntriesCons(line, inner + after);
    EntriesSplit(inner, after);
    Associates([GroupLabel(line.name)], Entries(inner), Entries(after));
  }

  /** Every line becomes one entry of the tree, in line order; only the section's own page is set apart. */
  lemma {:induction false} ForestKeepsTheLines(lines: seq<Line>)
    ensures Preorder(Forest(lines)) == Entries(lines)
    decreases |lines|
  {
    if lines != [] {
      if lines[0].PageLine? {
        ForestKeepsTheLines(lines[1..]);
        PreorderCons(Page(lines[0].name, lines[0].href), Forest(lines[1..]));
      } else {
        var e := 1 + Extent(lines[1..], lines[0].indent);
        ForestKeepsTheLines(lines[1..e]);
        ForestKeepsTheLines(lines[e..]);
        GroupKeepsTheLines(lines[0], lines[1..e], lines[e..]);
        assert lines == [lines[0]] + (lines[1..e] + lines[e..]);
        ForestStarts(lines, e);
      }
    }
  }

  // ---------------------------------------------------------------- printing

  /** A tree as SUMMARY.md writes it: two spaces a level. */
  function Print(forest: seq<Tree>, depth: nat): seq<Line> {
    if forest == [] then []
    else
      (match forest[0]
       case Page(name, href) => [PageLine(2 * depth, name, href)]
       case Folder(name, children) => [GroupLine(2 * depth, name)] + Print(children, depth + 1))
      + Print(forest[1..], depth)
  }

  function PrintSection(s: Section): seq<Line> {
    (if s.index.Some? && s.index.value.Page? then [PageLine(0, s.index.value.name, s.index.value.href)] else [])
    + Print(s.children, 0)
  }

  predicate IsReadme(t: Tree) {
    t.Page? && t.href == README
  }

  lemma {:induction false} PrintIndents(forest: seq<Tree>, depth: nat)
    ensures forall m | 0 <= m < |Print(forest, depth)| :: Print(forest, depth)[m].indent >= 2 * depth
    ensures forest != [] ==> Print(forest, depth) != [] && Print(forest, depth)[0].indent == 2 * depth
  {
    if forest != [] {
      PrintIndents(forest[1..], depth);
      if forest[0].Folder? {
        PrintIndents(forest[0].children, depth + 1);
      }
    }
  }

  lemma {:induction false} ExtentIs(a: seq<Line>, b: seq<Line>, d: nat)
    requires forall m | 0 <= m < |a| :: a[m].indent > d
    requires b == [] || b[0].indent <= d
    ensures Extent(a + b, d) == |a|
  {
    if a == [] {
      assert a + b == b;
    } else {
      assert (a + b)[1..] == a[1..] + b;
      ExtentIs(a[1..], b, d);
    }
  }

  /** What printing and reading back keeps of a forest: all of it, but for README pages on top. */
  function Kept(forest: seq<Tree>, depth: nat): seq<Tree> {
    if forest == [] then []
    else (if depth == 0 && IsReadme(forest[0]) then [] else [forest[0]]) + Kept(forest[1..], depth)
  }

  lemma {:induction false} KeptAll(forest: seq<Tree>, depth: nat)
    ensures |Kept(forest, depth)| <= |forest|
    ensures Kept(forest, depth) == forest <==> depth > 0 || forall t | t in forest :: !IsReadme(t)
  {
    if forest != [] {
      KeptAll(forest[1..], depth);
      assert forest == [forest[0]] + forest[1..];
      if depth == 0 && IsReadme(forest[0]) {
        assert |Kept(forest, depth)| < |forest|;
      } else {
        assert Kept(forest, depth)[1..] == Kept(forest[1..], depth);
      }
    }
  }

  lemma {:induction false} GroupReads(d: nat, name: string, inner: seq<Line>, rest: seq<Line>)
    requires forall m | 0 <= m < |inner| :: inner[m].indent > d
    requires rest == [] || rest[0].indent <= d
    ensures Forest([GroupLine(d, name)] + inner + rest) == [Folder(name, Forest(inner))] + Forest(rest)
  {
    var lines := [GroupLine(d, name)] + inner + rest;
    var e := 1 + |inner|;
    assert lines[1..] == inner + rest && lines[1..e] == inner && lines[e..] == rest;
    ExtentIs(inner, rest, d);
  }

  lemma {:induction false} PageReadsBack(forest: seq<Tree>, depth: nat)
    requires forest != [] && forest[0].Page?
    requires Forest(Print(forest[1..], depth)) == Kept(forest[1..], depth)
    ensures Forest(Print(forest, depth)) == Kept(forest, depth)
  {
    var line, rest := PageLine(2 * depth, forest[0].name, forest[0].href), Print(forest[1..], depth);
    assert ([line] + rest)[1..] == rest;
  }

  lemma FolderReadsBack(forest: seq<Tree>, depth: nat)
    requires forest != [] && forest[0].Folder?
    requires Forest(Print(forest[0].children, depth + 1)) == forest[0].children
    requires Forest(Print(forest[1..], depth)) == Kept(forest[1..], depth)
    ensures Forest(Print(forest, depth)) == Kept(forest, depth)
  {
    var name, inner, rest := forest[0].name, Print(forest[0].children, depth + 1), Print(forest[1..], depth);
    PrintIndents(forest[0].children, depth + 1);
    PrintIndents(forest[1..], depth);
    GroupReads(2 * depth, name, inner, rest);
    assert Print(forest, depth) == [GroupLine(2 * depth, name)] + inner + rest;
  }

  lemma {:induction false} ReadsBack(forest: seq<Tree>, depth: nat)
    ensures Forest(Print(forest, depth)) == Kept(forest, depth)
  {
    if forest == [] {
    } else if forest[0].Page? {
      ReadsBack(forest[1..], depth);
      PageReadsBack(forest, depth);
    } else {
      ReadsBack(forest[1..], depth);
      ReadsBack(forest[0].children, depth + 1);
      KeptAll(forest[0].children, depth + 1);
      FolderReadsBack(forest, depth);
    }
  }

  lemma {:induction false} IndexOf(line: Line, rest: seq<Line>)
    requires forall m | 0 <= m < |rest| :: !IsIndex(rest[m])
    ensures Index(rest) == None
    ensures Index([line] + rest) == if IsIndex(line) then Some(Page(line.name, line.href)) else None
    decreases |rest|
  {
    if rest == [] {
      assert ([line] + rest)[..|rest|] == [];
    } else {
      IndexOf(line, rest[..|rest| - 1]);
      assert ([line] + rest)[..|rest|] == [line] + rest[..|rest| - 1];
    }
  }

  lemma {:induction false} PrintsNoIndex(forest: seq<Tree>, depth: nat)
    requires depth > 0 || forall t | t in forest :: !IsReadme(t)
    ensures forall m | 0 <= m < |Print(forest, depth)| :: !IsIndex(Print(forest, depth)[m])
  {
    if forest != [] {
      assert forest[0] in forest && forall t | t in forest[1..] :: t in forest;
      PrintsNoIndex(forest[1..], depth);
      if forest[0].Folder? {
        PrintsNoIndex(forest[0].children, depth + 1);
      }
    }
  }

  /**
   * The round trip: a section printed at two spaces a level reads back as itself, empty groups and
   * its own page included, if and only if none of its top-level entries is a README page, which would
   * read back as the section's own page.
   */
  lemma SectionRoundTrip(s: Section)
    requires s.index.None? || IsReadme(s.index.value)
    ensures SectionOf(PrintSection(s)) == s <==> forall t | t in s.children :: !IsReadme(t)
  {
    var body := Print(s.children, 0);
    ReadsBack(s.children, 0);
    KeptAll(s.children, 0);
    assert s.index.Some? ==> PrintSection(s)[1..] == body;
    assert s.index.None? ==> PrintSection(s) == body;
    assert Forest(PrintSection(s)) == Kept(s.children, 0);
    if forall t | t in s.children :: !IsReadme(t) {
      PrintsNoIndex(s.children, 0);
      IndexOf(if s.index.Some? then PrintSection(s)[0] else GroupLine(0, ""), body);
    }
  }

  /** Two unindented README pages: the last becomes the section's own, and the section does not read back. */
  lemma TwoReadmesKeepOne()
    ensures var one, two := Page("One", README), Page("Two", README);
            SectionOf(PrintSection(Section(Some(one), [two]))) == Section(Some(two), [])
  {
    var one, two := Page("One", README), Page("Two", README);
    var lines := [PageLine(0, "One", README), PageLine(0, "Two", README)];
    assert Print([two], 0) == [PageLine(0, "Two", README)];
    assert PrintSection(Section(Some(one), [two])) == lines;
    assert lines[1..] == [PageLine(0, "Two", README)];
    assert Forest(lines[1..]) == [] && Forest(lines) == [];
  }
}
