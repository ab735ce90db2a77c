/**
 * The changelog: the reader of one version's notes, and the two rewrites a release makes. A changelog is
 * its lines, which hold no line break; line breaks other than "\n" are not modelled.
 * Source: scripts/changelog-section.ts, lines 17-39; scripts/release.ts, lines 88-113.
 */
module Changelog {
  import opened Prelude
  import opened Text
  import opened Blocks

  const NL := '\n'
  const NOTHING_YET := "_Nothing yet._"
  const UNRELEASED := "## Unreleased"

  /** The line starts with `## `. */
  predicate IsHeading(line: string) {
    |line| >= 3 && line[0] == '#' && line[1] == '#' && line[2] == ' '
  }

  lemma HeadingStarts(line: string)
    ensures IsHeading(line) <==> "## " <= line
  {
    assert IsHeading(line) ==> line[..3] == "## ";
  }

  // ---------------------------------------------------------------- the reader

  /** A heading of this version: nothing more on the line, or white space after the version. */
  predicate HeadingOf(line: string, version: string) {
    && IsHeading(line)
    && version <= line[3..]
    && (|line| == 3 + |version| || IsSpace(line[3 + |version|]))
  }

  function HeadsOf(version: string): string -> bool {
    (line: string) => HeadingOf(line, version)
  }

  function Heads(): string -> bool {
    (line: string) => IsHeading(line)
  }

  function Notes(body: seq<string>): string {
    Trim(Join(body, NL))
  }

  /** The notes of one version, or `None` when it has no heading. */
  function Section(lines: seq<string>, version: string): Option<string> {
    match Under(lines, HeadsOf(version), Heads())
    case None => None
    case Some(body) => Some(Notes(body) + "\n")
  }

  /** The source's reader: the first heading of the version, then a loop to the next heading of any. */
  method ChangelogSection(lines: seq<string>, version: string) returns (r: Option<string>)
    ensures r == Section(lines, version)
  {
    var start := Find(lines, HeadsOf(version), 0);
    if start == |lines| {
      return None;
    }
    var end := |lines|;
    var i := start + 1;
    while i < |lines|
      invariant start + 1 <= i <= |lines| && end == |lines|
      invariant forall j | start + 1 <= j < i :: !Heads()(lines[j])
    {
      if IsHeading(lines[i]) {
        end := i;
        break;
      }
      i := i + 1;
    }
    FindIs(lines, Heads(), start + 1, end);
    return Some(Notes(lines[start + 1..end]) + "\n");
  }

  // ---------------------------------------------------------------- the gate before a release

  /** The line `## Unreleased` that a line break follows, or `|lines|`. */
  function FindUnreleased(lines: seq<string>): (u: nat)
    ensures u <= |lines|
    ensures u < |lines| ==> lines[u] == UNRELEASED && u + 1 < |lines|
    ensures forall j | 0 <= j < u && j + 1 < |lines| :: lines[j] != UNRELEASED
  {
    if |lines| < 2 then |lines|
    else if lines[0] == UNRELEASED then 0
    else 1 + FindUnreleased(lines[1..])
  }

  function FirstOf(s: string, c: char): (i: nat)
    ensures i <= |s| && c !in s[..i]
    ensures i < |s| ==> s[i] == c
    ensures i == |s| ==> c !in s
  {
    if s == "" || s[0] == c then 0 else 1 + FirstOf(s[1..], c)
  }

  /** Where the unreleased notes stop: the next heading, or the end. */
  function NotesEnd(lines: seq<string>, u: nat): (e: nat)
    requires u < |lines|
    ensures u < e <= |lines|
    ensures forall j | u < j < e :: !IsHeading(lines[j])
    ensures e < |lines| ==> IsHeading(lines[e])
  {
    Find(lines, Heads(), u + 1)
  }

  /**
   * The notes the gate finds. Its pattern ends them at the next heading or at a capital Z, whichever
   * comes first, and finds none when there is neither.
   */
  function Captured(lines: seq<string>, u: nat): Option<string>
    requires u < |lines|
  {
    var e := NotesEnd(lines, u);
    var text := Join(lines[u + 1..e], NL);
    var z := FirstOf(text, 'Z');
    if z < |text| then Some(Trim(text[..z]))
    else if e < |lines| then Some(Trim(text))
    else None
  }

  /** The notes a release goes ahead with, or `None` when it is refused. */
  function Gate(lines: seq<string>): Option<string> {
    var u := FindUnreleased(lines);
    if u == |lines| then None
    else
      var body := Captured(lines, u);
      if body.None? || body.value == "" || body.value == NOTHING_YET then None else body
  }

  // ---------------------------------------------------------------- the two rewrites

  function Dated(version: string, date: string): string {
    "## " + version + " \U{2014} " + date
  }

  /**
   * A stable release dates the notes and leaves an empty Unreleased section above them: the heading it
   * matches is written back, and the block goes in after it.
   */
  function Stable(lines: seq<string>, version: string, date: string): seq<string> {
    var u := FindUnreleased(lines);
    if u == |lines| then lines
    else lines[..u + 1] + StableBlock(version, date) + lines[u + 1..]
  }

  function StableBlock(version: string, date: string): seq<string> {
    ["", NOTHING_YET, "", Dated(version, date)]
  }

  /** A pre-release copies the notes under its own heading, after the unreleased ones. */
  function Pilot(lines: seq<string>, version: string, date: string, body: string): seq<string> {
    var u := FindUnreleased(lines);
    if u == |lines| then lines
    else
      var e := NotesEnd(lines, u);
      lines[..e] + PilotBlock(version, date, Copy(lines, body), e < |lines|) + lines[e..]
  }

  /** The lines that the notes are copied as. */
  function Copy(lines: seq<string>, body: string): (r: seq<string>)
    requires FindUnreleased(lines) < |lines|
    ensures r != []
  {
    var u := FindUnreleased(lines);
    Split(Expand(body, lines, u, NotesEnd(lines, u)), NL)
  }

  /** Before a next heading the block is set off by an empty line; at the end of the file it is not. */
  function PilotBlock(version: string, date: string, copy: seq<string>, next: bool): seq<string> {
    Fence(next) + [Dated(version, date)] + Copied(copy, next)
  }

  function Fence(next: bool): seq<string> {
    if next then [""] else []
  }

  function Copied(copy: seq<string>, next: bool): seq<string> {
    [""] + copy + Trailer(next)
  }

  function Trailer(next: bool): seq<string> {
    if next then [""] else ["", ""]
  }

  /**
   * The replacement text is a pattern, so `$` in the notes is not plain: `$$` is one dollar, `$&` and `$1`
   * the whole match, and the two quote marks what is before and after it.
   */
  function Expand(body: string, lines: seq<string>, u: nat, e: nat): string
    requires u < e <= |lines|
  {
    Substitute(body, Matched(lines, u, e), Before(lines, u), Join(lines[e..], NL))
  }

  function Before(lines: seq<string>, u: nat): string
    requires u <= |lines|
  {
    if u == 0 then "" else Join(lines[..u], NL) + "\n"
  }

  function Matched(lines: seq<string>, u: nat, e: nat): string
    requires u < e <= |lines|
  {
    Join(lines[u..e], NL) + (if e < |lines| then "\n" else "")
  }

  function Substitute(t: string, matched: string, before: string, after: string): string {
    if |t| < 2 then t
    else if t[0] != '$' then [t[0]] + Substitute(t[1..], matched, before, after)
    else if t[1] == '$' then "$" + Substitute(t[2..], matched, before, after)
    else if t[1] == '&' || t[1] == '1' then matched + Substitute(t[2..], matched, before, after)
    else if t[1] == '0' && |t| > 2 && t[2] == '1' then matched + Substitute(t[3..], matched, before, after)
    else if t[1] == '`' then before + Substitute(t[2..], matched, before, after)
    else if t[1] == '\'' then after + Substitute(t[2..], matched, before, after)
    else "$" + Substitute(t[1..], matched, before, after)
  }

  /** The text starts with a replacement pattern. */
  predicate PatternFirst(t: string) {
    && |t| >= 2 && t[0] == '$'
    && (t[1] in {'$', '&', '1', '`', '\''} || (t[1] == '0' && |t| > 2 && t[2] == '1'))
  }

  ghost predicate HasPattern(t: string) {
    exists i | 0 <= i < |t| :: PatternFirst(t[i..])
  }

  lemma PatternStep(t: string)
    requires t != ""
    ensures HasPattern(t) <==> PatternFirst(t) || HasPattern(t[1..])
  {
    assert t[0..] == t;
    if i :| 0 <= i < |t| && PatternFirst(t[i..]) {
      assert i > 0 ==> t[1..][i - 1..] == t[i..];
    }
    if i :| 0 <= i < |t[1..]| && PatternFirst(t[1..][i..]) {
      assert t[1..][i..] == t[i + 1..];
    }
  }

  lemma {:induction false} NoPatternIsPlain(t: string, matched: string, before: string, after: string)
    requires !HasPattern(t)
    ensures Substitute(t, matched, before, after) == t
  {
    if |t| >= 2 {
      PatternStep(t);
      NoPatternIsPlain(t[1..], matched, before, after);
      assert t == [t[0]] + t[1..];
    }
  }

  /** The line breaks and number signs of a text; no replacement pattern holds one. */
  function Marks(s: string): nat {
    if s == "" then 0 else (if s[0] == NL || s[0] == '#' then 1 else 0) + Marks(s[1..])
  }

  lemma {:induction false} MarksAppend(s: string, t: string)
    ensures Marks(s + t) == Marks(s) + Marks(t)
  {
    if s == "" {
      assert s + t == t;
    } else {
      MarksAppend(s[1..], t);
      assert (s + t)[1..] == s[1..] + t;
    }
  }

  /** A pattern either puts marks in or makes the text shorter, so a text that has one does not stay as it is. */
  lemma {:induction false} PatternsShow(t: string, matched: string, before: string, after: string)
    requires Marks(matched) > 0 && (before == "" || Marks(before) > 0) && (after == "" || Marks(after) > 0)
    ensures var r := Substitute(t, matched, before, after);
            Marks(r) > Marks(t) || (Marks(r) == Marks(t) && |r| <= |t| && (HasPattern(t) ==> |r| < |t|))
  {
    if |t| >= 2 {
      PatternStep(t);
      var n := if !PatternFirst(t) then 1 else if t[1] == '0' then 3 else 2;
      var put := if t[0] != '$' then [t[0]]
                 else if !PatternFirst(t) || t[1] == '$' then "$"
                 else if t[1] == '`' then before
                 else if t[1] == '\'' then after
                 else matched;
      PatternsShow(t[n..], matched, before, after);
      MarksAppend(put, Substitute(t[n..], matched, before, after));
      MarksAppend(t[..n], t[n..]);
      assert t == t[..n] + t[n..];
      MarksOfPattern(t, n, put);
    }
  }

  lemma MarksOfPattern(t: string, n: nat, put: string)
    requires |t| >= 2 && n == (if !PatternFirst(t) then 1 else if t[1] == '0' then 3 else 2)
    ensures PatternFirst(t) ==> Marks(t[..n]) == 0
    ensures !PatternFirst(t) ==> t[..n] == [t[0]]
    ensures Marks("$") == 0
  {
    assert Marks([t[0]]) == if t[0] == NL || t[0] == '#' then 1 else 0;
    if PatternFirst(t) {
      if n == 2 {
        assert t[..2] == [t[0]] + [t[1]];
        MarksAppend([t[0]], [t[1]]);
      } else {
        assert t[..3] == [t[0]] + [t[1]] + [t[2]];
        MarksAppend([t[0]] + [t[1]], [t[2]]);
        MarksAppend([t[0]], [t[1]]);
      }
    }
  }

  lemma {:induction false} HeadingMarks(lines: seq<string>)
    requires lines != [] && IsHeading(lines[0])
    ensures Marks(Join(lines, NL)) > 0
  {
    var text := Join(lines, NL);
    assert text[0] == '#';
  }

  /** A pre-release copies the notes it captured letter by letter if and only if they hold no pattern. */
  lemma CopiedVerbatim(body: string, lines: seq<string>, u: nat, e: nat)
    requires u < e <= |lines| && IsHeading(lines[u]) && (e < |lines| ==> IsHeading(lines[e]))
    ensures Expand(body, lines, u, e) == body <==> !HasPattern(body)
  {
    var matched, before, after := Matched(lines, u, e), Before(lines, u), Join(lines[e..], NL);
    if HasPattern(body) {
      HeadingMarks(lines[u..e]);
      MarksAppend(Join(lines[u..e], NL), if e < |lines| then "\n" else "");
      if u > 0 {
        MarksAppend(Join(lines[..u], NL), "\n");
        assert Marks("\n") == 1;
      }
      if e < |lines| {
        HeadingMarks(lines[e..]);
      }
      PatternsShow(body, matched, before, after);
    } else {
      NoPatternIsPlain(body, matched, before, after);
    }
  }

  // ---------------------------------------------------------------- headings

  predicate Plain(version: string) {
    forall i | 0 <= i < |version| :: !IsSpace(version[i])
  }

  /** A heading whose first word is `x` is a heading of `x` and of no other version. */
  lemma HeadingWord(x: string, rest: string, w: string)
    requires Plain(x) && Plain(w) && (rest == "" || IsSpace(rest[0]))
    ensures HeadingOf("## " + x + rest, w) <==> x == w
    ensures IsHeading("## " + x + rest)
  {
    var line := "## " + x + rest;
    assert line[3..] == x + rest;
    if |w| < |x| {
      assert line[3 + |w|] == x[|w|];
    } else if |w| == |x| {
      assert (x + rest)[..|w|] == x;
      assert rest != "" ==> line[3 + |w|] == rest[0];
    } else if rest != "" {
      assert (x + rest)[|x|] == rest[0];
    }
  }

  lemma NotHeading(line: string, w: string)
    requires line == "" || line[0] != '#'
    ensures !HeadingOf(line, w) && !IsHeading(line)
  {}

  lemma UnreleasedWord(w: string)
    requires Plain(w)
    ensures HeadingOf(UNRELEASED, w) <==> w == "Unreleased"
    ensures IsHeading(UNRELEASED)
  {
    assert UNRELEASED == "## " + "Unreleased" + "";
    HeadingWord("Unreleased", "", w);
  }

  lemma DatedWord(version: string, date: string, w: string)
    requires Plain(version) && Plain(w)
    ensures HeadingOf(Dated(version, date), w) <==> version == w
    ensures IsHeading(Dated(version, date))
  {
    var rest := " \U{2014} " + date;
    assert Dated(version, date) == "## " + version + rest;
    HeadingWord(version, rest, w);
  }

  lemma AllHeadingsStop(lines: seq<string>, w: string)
    ensures forall j | 0 <= j < |lines| :: HeadsOf(w)(lines[j]) ==> Heads()(lines[j])
  {
  }

  // ---------------------------------------------------------------- after a stable release

  /** The new version has no notes yet, and the writer and the reader mean the same Unreleased line. */
  ghost predicate Agreed(lines: seq<string>, version: string) {
    var u := FindUnreleased(lines);
    && u < |lines|
    && u == Find(lines, HeadsOf("Unreleased"), 0)
    && Plain(version) && version != "Unreleased"
    && forall j | 0 <= j < u :: !HeadsOf(version)(lines[j])
  }

  function Unreleased(lines: seq<string>): string
    requires FindUnreleased(lines) < |lines|
  {
    Join(lines[FindUnreleased(lines) + 1..NotesEnd(lines, FindUnreleased(lines))], NL)
  }

  lemma UnreleasedNotes(lines: seq<string>, version: string)
    requires Agreed(lines, version)
    ensures Section(lines, "Unreleased") == Some(Trim(Unreleased(lines)) + "\n")
  {}

  lemma NothingYetTrims()
    ensures Notes(["", NOTHING_YET, ""]) == NOTHING_YET
  {
    var body := ["", NOTHING_YET, ""];
    assert body[1..] == [NOTHING_YET, ""] && body[1..][1..] == [""];
    assert Join([NOTHING_YET, ""], NL) == NOTHING_YET + "\n" + "";
    assert Join(body, NL) == "\n" + NOTHING_YET + "\n";
    TrimIs("\n", NOTHING_YET, "\n");
  }

  /** The block of a stable release holds one heading, its last line, and that is the new version's. */
  lemma StableBlockHeads(version: string, date: string, w: string)
    requires Plain(version) && Plain(w)
    ensures |StableBlock(version, date)| == 4
    ensures forall j | 0 <= j < 4 :: Heads()(StableBlock(version, date)[j]) <==> j == 3
    ensures forall j | 0 <= j < 4 :: HeadsOf(w)(StableBlock(version, date)[j]) <==> j == 3 && w == version
  {
    DatedWord(version, date, w);
    NotHeading("", w);
    NotHeading(NOTHING_YET, w);
  }

  lemma {:induction false} StableInserts(lines: seq<string>, version: string, date: string)
    requires FindUnreleased(lines) < |lines|
    ensures InsertedAt(lines, FindUnreleased(lines) + 1, StableBlock(version, date), Stable(lines, version, date))
  {
    Inserting(lines, FindUnreleased(lines) + 1, StableBlock(version, date));
  }

  /** The last line of the block heads the notes that Unreleased headed before. */
  lemma BlockHeadsNotes(lines: seq<string>, u: nat, block: seq<string>, version: string, after: seq<string>)
    requires u < |lines| && InsertedAt(lines, u + 1, block, after) && |block| == 4
    requires forall j | 0 <= j < 4 :: Heads()(block[j]) <==> j == 3
    requires forall j | 0 <= j < 4 :: HeadsOf(version)(block[j]) <==> j == 3
    requires forall j | 0 <= j <= u :: !HeadsOf(version)(lines[j])
    ensures Under(after, HeadsOf(version), Heads()) == Some(lines[u + 1..Find(lines, Heads(), u + 1)])
  {
    InsertedSection(lines, u + 1, block, after, 3, HeadsOf(version), Heads());
    assert block[4..] == [];
    assert [] + lines[u + 1..Find(lines, Heads(), u + 1)] == lines[u + 1..Find(lines, Heads(), u + 1)];
  }

  /** A section that ends above the inserted block reads as it did. */
  lemma {:induction false} AboveStays(lines: seq<string>, u: nat, p: nat, block: seq<string>, after: seq<string>,
                                      w: string)
    requires u < p && u < |lines| && InsertedAt(lines, p, block, after) && IsHeading(lines[u])
    requires Find(lines, HeadsOf(w), 0) < u
    ensures Section(after, w) == Section(lines, w)
  {
    UnderBefore(lines, after, HeadsOf(w), Heads(), u);
  }

  lemma {:induction false} BlockReadsMoved(lines: seq<string>, u: nat, block: seq<string>, version: string,
                                           after: seq<string>)
    requires u < |lines| && lines[u] == UNRELEASED && InsertedAt(lines, u + 1, block, after) && |block| == 4
    requires forall j | 0 <= j < 4 :: Heads()(block[j]) <==> j == 3
    requires forall j | 0 <= j < 4 :: HeadsOf(version)(block[j]) <==> j == 3
    requires Plain(version) && version != "Unreleased"
    ensures Section(after, version)
         == if Find(lines, HeadsOf(version), 0) < u then Section(lines, version)
            else Some(Notes(lines[u + 1..Find(lines, Heads(), u + 1)]) + "\n")
  {
    UnreleasedWord(version);
    if Find(lines, HeadsOf(version), 0) < u {
      AboveStays(lines, u, u + 1, block, after, version);
    } else {
      BlockHeadsNotes(lines, u, block, version, after);
    }
  }

  /**
   * A stable release moves the notes: they read under the new version, unless it has a heading above Unreleased
   * already, whose section is then what reads ...
   */
  lemma {:induction false} StableMovesNotes(lines: seq<string>, version: string, date: string)
    requires FindUnreleased(lines) < |lines| && Plain(version) && version != "Unreleased"
    ensures Section(Stable(lines, version, date), version)
         == if Find(lines, HeadsOf(version), 0) < FindUnreleased(lines) then Section(lines, version)
            else Some(Trim(Unreleased(lines)) + "\n")
    ensures Agreed(lines, version) ==> Section(Stable(lines, version, date), version) == Section(lines, "Unreleased")
  {
    StableInserts(lines, version, date);
    StableBlockHeads(version, date, version);
    BlockReadsMoved(lines, FindUnreleased(lines), StableBlock(version, date), version, Stable(lines, version, date));
    if Agreed(lines, version) {
      UnreleasedNotes(lines, version);
    }
  }

  lemma {:induction false} BlockEndsNotes(lines: seq<string>, u: nat, block: seq<string>, after: seq<string>)
    requires u < |lines| && InsertedAt(lines, u + 1, block, after) && |block| == 4
    requires forall j | 0 <= j < 4 :: Heads()(block[j]) <==> j == 3
    requires Find(lines, HeadsOf("Unreleased"), 0) == u
    ensures Under(after, HeadsOf("Unreleased"), Heads()) == Some(block[..3])
  {
    SectionBefore(lines, u, u + 1, block, after, 3, HeadsOf("Unreleased"), Heads());
    assert lines[u + 1..u + 1] + block[..3] == block[..3];
  }

  /**
   * ... and Unreleased reads as having nothing yet, unless the reader finds another heading of it further up ...
   */
  lemma {:induction false} StableEmptiesUnreleased(lines: seq<string>, version: string, date: string)
    requires FindUnreleased(lines) < |lines| && Plain(version)
    ensures Section(Stable(lines, version, date), "Unreleased")
         == if Find(lines, HeadsOf("Unreleased"), 0) < FindUnreleased(lines) then Section(lines, "Unreleased")
            else Some(NOTHING_YET + "\n")
  {
    var u, block := FindUnreleased(lines), StableBlock(version, date);
    StableInserts(lines, version, date);
    StableBlockHeads(version, date, version);
    UnreleasedWord("Unreleased");
    if Find(lines, HeadsOf("Unreleased"), 0) < u {
      AboveStays(lines, u, u + 1, block, Stable(lines, version, date), "Unreleased");
    } else {
      BlockEndsNotes(lines, u, block, Stable(lines, version, date));
      assert block[..3] == ["", NOTHING_YET, ""];
      NothingYetTrims();
    }
  }

  lemma NoHeadKeeps(lines: seq<string>, u: nat, block: seq<string>, after: seq<string>, w: string)
    requires u < |lines| && lines[u] == UNRELEASED && InsertedAt(lines, u + 1, block, after)
    requires Plain(w) && w != "Unreleased" && forall j | 0 <= j < |block| :: !HeadsOf(w)(block[j])
    ensures Section(after, w) == Section(lines, w)
  {
    AllHeadingsStop(lines, w);
    UnreleasedWord(w);
    InsertKeeps(lines, u, u + 1, block, after, HeadsOf(w), Heads());
  }

  /** ... and every other version reads as it did. */
  lemma {:induction false} StableKeepsOthers(lines: seq<string>, version: string, date: string, w: string)
    requires FindUnreleased(lines) < |lines| && Plain(version)
    requires Plain(w) && w != version && w != "Unreleased"
    ensures Section(Stable(lines, version, date), w) == Section(lines, w)
  {
    var u := FindUnreleased(lines);
    StableInserts(lines, version, date);
    StableBlockHeads(version, date, w);
    NoHeadKeeps(lines, u, StableBlock(version, date), Stable(lines, version, date), w);
  }

  // ---------------------------------------------------------------- after a pre-release

  /** No line of the text but perhaps its first is a heading. */
  ghost predicate BreakFree(s: string) {
    forall i | 0 <= i < |s| && s[i] == NL :: !IsHeading(s[i + 1..])
  }

  lemma BreakFreeStep(s: string)
    requires s != ""
    ensures BreakFree(s) <==> BreakFree(s[1..]) && (s[0] == NL ==> !IsHeading(s[1..]))
  {
    var t := s[1..];
    if BreakFree(s) {
      forall i | 0 <= i < |t| && t[i] == NL
        ensures !IsHeading(t[i + 1..])
      {
        assert s[i + 1] == NL && s[i + 1 + 1..] == t[i + 1..];
      }
    }
    if BreakFree(t) && (s[0] == NL ==> !IsHeading(t)) {
      forall i | 0 <= i < |s| && s[i] == NL
        ensures !IsHeading(s[i + 1..])
      {
        assert i > 0 ==> t[i - 1] == NL && s[i + 1..] == t[i - 1 + 1..];
      }
    }
  }

  /** No piece but perhaps the first is a heading. */
  ghost predicate TailFree(pieces: seq<string>) {
    forall j | 1 <= j < |pieces| :: !IsHeading(pieces[j])
  }

  lemma TailFreeStep(pieces: seq<string>, x: string)
    requires pieces != []
    ensures TailFree([x] + pieces) <==> TailFree(pieces) && !IsHeading(pieces[0])
    ensures TailFree([x] + pieces[1..]) <==> TailFree(pieces)
  {
    assert forall j | 1 <= j <= |pieces| :: ([x] + pieces)[j] == pieces[j - 1];
    assert forall j | 0 <= j < |pieces| :: pieces[j] == ([x] + pieces)[j + 1];
    assert forall j | 1 <= j < |pieces| :: ([x] + pieces[1..])[j] == pieces[j];
  }

  lemma {:induction false} SplitFree(s: string)
    ensures BreakFree(s) <==> TailFree(Split(s, NL))
  {
    if s != "" {
      var t := s[1..];
      SplitFree(t);
      BreakFreeStep(s);
      FirstPieceStarts("## ", t, NL);
      HeadingStarts(t);
      HeadingStarts(Split(t, NL)[0]);
      TailFreeStep(Split(t, NL), if s[0] == NL then "" else [s[0]] + Split(t, NL)[0]);
    }
  }

  lemma PartFree(s: string, a: nat, c: nat)
    requires BreakFree(s) && a <= c <= |s|
    ensures BreakFree(s[a..c])
  {
    var t := s[a..c];
    forall i | 0 <= i < |t| && t[i] == NL
      ensures !IsHeading(t[i + 1..])
    {
      assert s[a + i] == NL;
      assert t[i + 1..] == s[a + i + 1..][..c - a - i - 1];
    }
  }

  lemma FenceHeads(next: bool, w: string)
    ensures forall x | x in Fence(next) :: !HeadsOf(w)(x) && !Heads()(x)
  {
    NotHeading("", w);
  }

  lemma BlankTail(s: string)
    ensures Trim(s + "\n") == Trim(s)
  {
    var a, c := TrimSplits(s);
    var tail := s[c..] + "\n";
    assert forall j | 0 <= j < |tail| :: tail[j] == if j < |s| - c then s[c + j] else '\n';
    assert Blank(s[..a]) && Blank(tail);
    assert s + "\n" == s[..a] + s[a..c] + tail;
    TrimIs(s[..a], s[a..c], tail);
  }

  /** The notes read the same with one more empty line at their end. */
  lemma EmptyLineTrims(body: seq<string>)
    ensures Notes(body + [""]) == Notes(body)
  {
    if body == [] {
      assert body + [""] == [""];
    } else {
      JoinAppend(body, [""], NL);
      BlankTail(Join(body, NL));
      assert Join(body, NL) + [NL] + "" == Join(body, NL) + "\n";
    }
  }

  lemma BlankLead(s: string)
    ensures Trim("\n" + s) == Trim(s)
  {
    var a, c := TrimSplits(s);
    var lead := "\n" + s[..a];
    assert forall j | 0 <= j < |lead| :: lead[j] == if j == 0 then '\n' else s[j - 1];
    assert Blank(lead) && Blank(s[c..]);
    assert "\n" + s == lead + s[a..c] + s[c..];
    TrimIs(lead, s[a..c], s[c..]);
  }

  /** The notes read the same with one more empty line in front. */
  lemma LeadLineTrims(body: seq<string>)
    ensures Notes([""] + body) == Notes(body)
  {
    if body == [] {
      assert [""] + body == [""];
    } else {
      JoinAppend([""], body, NL);
      BlankLead(Join(body, NL));
      assert "" + [NL] + Join(body, NL) == "\n" + Join(body, NL);
    }
  }

  lemma TrailerTrims(body: seq<string>, next: bool)
    ensures Notes(body + Trailer(next)) == Notes(body)
  {
    EmptyLineTrims(body);
    if !next {
      EmptyLineTrims(body + [""]);
      assert body + ["", ""] == body + [""] + [""];
    }
  }

  // What the gate found, when it let the release through.

  /** The lines of a file: none of them holds a line break. */
  ghost predicate Lines(lines: seq<string>) {
    forall i | 0 <= i < |lines| :: NL !in lines[i]
  }

  lemma {:induction false} JoinedFree(part: seq<string>)
    requires forall i | 0 <= i < |part| :: NL !in part[i] && !IsHeading(part[i])
    ensures BreakFree(Join(part, NL))
  {
    if part != [] {
      SplitFree(Join(part, NL));
      SplitJoin(part, NL);
    }
  }

  lemma StretchFree(lines: seq<string>, lo: nat, hi: nat)
    requires Lines(lines) && lo <= hi <= |lines| && forall j | lo <= j < hi :: !IsHeading(lines[j])
    ensures BreakFree(Join(lines[lo..hi], NL))
  {
    JoinedFree(lines[lo..hi]);
  }

  lemma NotesFree(lines: seq<string>, u: nat)
    requires Lines(lines) && u < |lines|
    ensures BreakFree(Join(lines[u + 1..NotesEnd(lines, u)], NL))
  {
    StretchFree(lines, u + 1, NotesEnd(lines, u));
  }

  /** The unreleased notes hold no heading after a line break. */
  lemma {:induction false} UnreleasedFree(lines: seq<string>)
    requires Lines(lines) && FindUnreleased(lines) < |lines|
    ensures BreakFree(Unreleased(lines))
  {
    NotesFree(lines, FindUnreleased(lines));
  }

  lemma TrimFree(s: string)
    requires BreakFree(s)
    ensures BreakFree(Trim(s))
  {
    var a, c := TrimSplits(s);
    PartFree(s, a, c);
  }

  /** What the gate returns: the notes, trimmed, or the trimmed notes before their first capital Z. */
  lemma {:induction false} GateFinds(lines: seq<string>, body: string)
    requires Lines(lines) && Gate(lines) == Some(body)
    ensures FindUnreleased(lines) < |lines| && Trimmed(body) && body != ""
    ensures BreakFree(body)
    ensures 'Z' !in Unreleased(lines) ==> body == Trim(Unreleased(lines))
    ensures 'Z' in Unreleased(lines) ==> |body| < |Trim(Unreleased(lines))|
  {
    var text := Unreleased(lines);
    var z := FirstOf(text, 'Z');
    UnreleasedFree(lines);
    if z < |text| {
      PartFree(text, 0, z);
      TrimFree(text[..z]);
      CutIsShorter(text, z);
    } else {
      TrimFree(text);
    }
  }

  /** Notes cut before a character that is not white space trim to less than the whole does. */
  lemma CutIsShorter(s: string, z: nat)
    requires z < |s| && !IsSpace(s[z]) && Trim(s[..z]) != ""
    ensures |Trim(s[..z])| < |Trim(s)|
  {
    var a, c := TrimSplits(s[..z]);
    assert s[..z][a] == s[a] && Trim(s[..z])[0] == s[a];
    TrimKeeps(s, a, z);
  }

  /** The copy has a heading exactly when the notes, trimmed, start with one. */
  lemma {:induction false} CopyHeads(body: string)
    requires BreakFree(body)
    ensures IsHeading(Split(body, NL)[0]) <==> IsHeading(body)
    ensures TailFree(Split(body, NL))
  {
    FirstPieceStarts("## ", body, NL);
    HeadingStarts(body);
    HeadingStarts(Split(body, NL)[0]);
    SplitFree(body);
  }

  lemma {:induction false} PilotInserts(lines: seq<string>, version: string, date: string, body: string)
    requires FindUnreleased(lines) < |lines|
    ensures var e := NotesEnd(lines, FindUnreleased(lines));
            InsertedAt(lines, e, PilotBlock(version, date, Copy(lines, body), e < |lines|),
                       Pilot(lines, version, date, body))
  {
    var e := NotesEnd(lines, FindUnreleased(lines));
    Inserting(lines, e, PilotBlock(version, date, Copy(lines, body), e < |lines|));
  }

  /** Notes without a replacement pattern are copied as their own lines. */
  lemma {:induction false} PlainCopy(lines: seq<string>, body: string)
    requires FindUnreleased(lines) < |lines| && !HasPattern(body)
    ensures Copy(lines, body) == Split(body, NL)
  {
    var u := FindUnreleased(lines);
    var e := NotesEnd(lines, u);
    NoPatternIsPlain(body, Matched(lines, u, e), Before(lines, u), Join(lines[e..], NL));
  }

  /** Up to the block of a pre-release there is no heading of its version, and none of any after Unreleased. */
  lemma {:induction false} NoneBefore(lines: seq<string>, version: string)
    requires FindUnreleased(lines) < |lines| && Plain(version) && version != "Unreleased"
    requires forall j | 0 <= j < FindUnreleased(lines) :: !HeadsOf(version)(lines[j])
    ensures forall j | 0 <= j < NotesEnd(lines, FindUnreleased(lines)) :: !HeadsOf(version)(lines[j])
    ensures var e := NotesEnd(lines, FindUnreleased(lines)); Find(lines, Heads(), e) == e
  {
    UnreleasedWord(version);
    AllHeadingsStop(lines, version);
    var u := FindUnreleased(lines);
    assert forall j | u < j < NotesEnd(lines, u) :: !Heads()(lines[j]);
  }

  /** The copy up to its first heading, with the empty lines around it, trims to that stretch. */
  lemma {:induction false} CopiedCut(copy: seq<string>, next: bool)
    ensures Notes(Copied(copy, next)[..Find(Copied(copy, next), Heads(), 0)]) == Notes(copy[..Find(copy, Heads(), 0)])
  {
    var rest, h := Copied(copy, next), Find(copy, Heads(), 0);
    assert forall j | 0 <= j < |rest| ::
        rest[j] == if j == 0 then "" else if j <= |copy| then copy[j - 1] else Trailer(next)[j - 1 - |copy|];
    NotHeading("", "");
    if h < |copy| {
      FindIs(rest, Heads(), 0, h + 1);
      assert rest[..h + 1] == [""] + copy[..h];
      LeadLineTrims(copy[..h]);
    } else {
      FindIs(rest, Heads(), 0, |rest|);
      assert rest[..|rest|] == rest && copy[..h] == copy;
      TrailerTrims([""] + copy, next);
      LeadLineTrims(copy);
    }
  }

  lemma BlockAnnounces(version: string, date: string, copy: seq<string>, next: bool)
    requires Plain(version)
    ensures Under(PilotBlock(version, date, copy, next), HeadsOf(version), Heads())
         == Some(Copied(copy, next)[..Find(Copied(copy, next), Heads(), 0)])
  {
    FenceHeads(next, version);
    DatedWord(version, date, version);
    Associates(Fence(next), [Dated(version, date)], Copied(copy, next));
    UnderPrefix(Fence(next), [Dated(version, date)] + Copied(copy, next), HeadsOf(version), Heads());
    UnderHead(Dated(version, date), Copied(copy, next), HeadsOf(version), Heads());
  }

  /** The section the block announces reads as the copy up to its first heading. */
  lemma {:induction false} BlockReads(lines: seq<string>, e: nat, version: string, date: string, copy: seq<string>,
                                      after: seq<string>)
    requires InsertedAt(lines, e, PilotBlock(version, date, copy, e < |lines|), after) && Plain(version)
    requires (forall j | 0 <= j < e :: !HeadsOf(version)(lines[j])) && Find(lines, Heads(), e) == e
    ensures Section(after, version) == Some(Notes(copy[..Find(copy, Heads(), 0)]) + "\n")
  {
    var block := PilotBlock(version, date, copy, e < |lines|);
    BlockAnnounces(version, date, copy, e < |lines|);
    InsertedUnder(lines, e, block, after, HeadsOf(version), Heads());
    CopiedCut(copy, e < |lines|);
  }

  lemma {:induction false} AnnouncedAfter(lines: seq<string>, u: nat, e: nat, next: bool, version: string, date: string,
                                          copy: seq<string>, after: seq<string>, head: string -> bool)
    requires InsertedAt(lines, e, PilotBlock(version, date, copy, next), after) && Plain(version)
    requires u < e && Find(lines, head, 0) == u && forall j | u < j < e :: !Heads()(lines[j])
    ensures Under(after, head, Heads()) == Some(lines[u + 1..e] + Fence(next))
  {
    FenceHeads(next, version);
    DatedWord(version, date, version);
    BeforeAnnounced(lines, u, e, Fence(next), Dated(version, date), Copied(copy, next), after, head, Heads());
  }

  /**
   * What the pre-release's own version reads as, for any notes: the copy up to its first heading, unless it has a
   * heading above Unreleased already, whose section is then what reads.
   */
  lemma {:induction false} PilotReads(lines: seq<string>, version: string, date: string, body: string)
    requires FindUnreleased(lines) < |lines| && Plain(version) && version != "Unreleased"
    ensures var copy := Copy(lines, body);
            Section(Pilot(lines, version, date, body), version)
            == if Find(lines, HeadsOf(version), 0) < FindUnreleased(lines) then Section(lines, version)
               else Some(Notes(copy[..Find(copy, Heads(), 0)]) + "\n")
  {
    var u, copy, after := FindUnreleased(lines), Copy(lines, body), Pilot(lines, version, date, body);
    var e := NotesEnd(lines, u);
    PilotInserts(lines, version, date, body);
    UnreleasedWord(version);
    if Find(lines, HeadsOf(version), 0) < u {
      AboveStays(lines, u, e, PilotBlock(version, date, copy, e < |lines|), after, version);
    } else {
      NoneBefore(lines, version);
      BlockReads(lines, e, version, date, copy, after);
    }
  }

  lemma {:induction false} PlainCut(body: string)
    requires Trimmed(body) && BreakFree(body)
    ensures Notes(Split(body, NL)[..Find(Split(body, NL), Heads(), 0)]) == if IsHeading(body) then "" else body
  {
    var copy := Split(body, NL);
    CopyHeads(body);
    if IsHeading(body) {
      FindIs(copy, Heads(), 0, 0);
    } else {
      FindIs(copy, Heads(), 0, |copy|);
      assert copy[..|copy|] == copy;
      JoinSplit(body, NL);
      TrimmedStays(body);
    }
  }

  /** Notes without a pattern read as they are, unless they start as a heading does. */
  lemma PilotReadsPlain(lines: seq<string>, version: string, date: string, body: string)
    requires Agreed(lines, version) && !HasPattern(body) && Trimmed(body) && BreakFree(body)
    ensures Section(Pilot(lines, version, date, body), version)
         == Some((if IsHeading(body) then "" else body) + "\n")
  {
    PilotReads(lines, version, date, body);
    PlainCopy(lines, body);
    PlainCut(body);
  }

  lemma FenceTrims(part: seq<string>, next: bool)
    ensures Notes(part + Fence(next)) == Notes(part)
  {
    EmptyLineTrims(part);
    assert part + [] == part;
  }

  lemma BlockKeepsUnreleased(lines: seq<string>, u: nat, e: nat, version: string, date: string, copy: seq<string>,
                             after: seq<string>)
    requires u < |lines| && Find(lines, HeadsOf("Unreleased"), 0) == u && e == Find(lines, Heads(), u + 1)
    requires InsertedAt(lines, e, PilotBlock(version, date, copy, e < |lines|), after) && Plain(version)
    ensures Section(after, "Unreleased") == Section(lines, "Unreleased")
  {
    AnnouncedAfter(lines, u, e, e < |lines|, version, date, copy, after, HeadsOf("Unreleased"));
    FenceTrims(lines[u + 1..e], e < |lines|);
    UnderIs(lines, HeadsOf("Unreleased"), Heads(), u, e);
  }

  lemma CopiedOthers(copy: seq<string>, next: bool, w: string)
    requires forall j | 0 <= j < |copy| :: !HeadingOf(copy[j], w)
    ensures forall x | x in Copied(copy, next) :: !HeadsOf(w)(x)
  {
    forall x | x in Copied(copy, next)
      ensures !HeadsOf(w)(x)
    {
      assert x in copy || x == "";
      NotHeading("", w);
    }
  }

  lemma {:induction false} BlockKeepsOthers(lines: seq<string>, u: nat, e: nat, version: string, date: string,
                                            copy: seq<string>, after: seq<string>, w: string)
    requires u < |lines| && lines[u] == UNRELEASED && e == Find(lines, Heads(), u + 1)
    requires InsertedAt(lines, e, PilotBlock(version, date, copy, e < |lines|), after) && Plain(version)
    requires Plain(w) && w != version && w != "Unreleased" && forall j | 0 <= j < |copy| :: !HeadingOf(copy[j], w)
    ensures Section(after, w) == Section(lines, w)
  {
    var next := e < |lines|;
    FenceHeads(next, w);
    CopiedOthers(copy, next, w);
    DatedWord(version, date, w);
    AllHeadingsStop(lines, w);
    UnreleasedWord(w);
    AnnouncedElsewhere(lines, u, e, Fence(next), Dated(version, date), Copied(copy, next), after, HeadsOf(w), Heads());
  }

  lemma BlockUnder(version: string, date: string, copy: seq<string>, next: bool, w: string)
    requires Plain(version) && Plain(w) && w != version
    ensures Under(PilotBlock(version, date, copy, next), HeadsOf(w), Heads())
         == Under(copy + Trailer(next), HeadsOf(w), Heads())
  {
    var lead := Fence(next) + [Dated(version, date)] + [""];
    FenceHeads(next, w);
    DatedWord(version, date, w);
    NotHeading("", w);
    BlockIs(version, date, copy, next);
    UnderPrefix(lead, copy + Trailer(next), HeadsOf(w), Heads());
  }

  lemma {:induction false} TrailedUnder(copy: seq<string>, next: bool, w: string)
    requires Find(copy, HeadsOf(w), 0) < |copy|
    ensures var under := Under(copy + Trailer(next), HeadsOf(w), Heads());
            under.Some? && Some(Notes(under.value) + "\n") == Section(copy, w)
  {
    var i := Find(copy, HeadsOf(w), 0);
    var part := copy[i + 1..Find(copy, Heads(), i + 1)];
    NotHeading("", w);
    UnderSuffix(copy, Trailer(next), HeadsOf(w), Heads());
    TrailerTrims(part, next);
    assert part + [] == part;
  }

  /** A version whose first heading is in the copy reads as it does there. */
  lemma {:induction false} BlockTakesOver(lines: seq<string>, e: nat, version: string, date: string, copy: seq<string>,
                                          after: seq<string>, w: string)
    requires InsertedAt(lines, e, PilotBlock(version, date, copy, e < |lines|), after)
    requires Plain(version) && Plain(w) && w != version && Find(lines, Heads(), e) == e
    requires (forall j | 0 <= j < e :: !HeadsOf(w)(lines[j])) && Find(copy, HeadsOf(w), 0) < |copy|
    ensures Section(after, w) == Section(copy, w)
  {
    var block := PilotBlock(version, date, copy, e < |lines|);
    BlockUnder(version, date, copy, e < |lines|, w);
    TrailedUnder(copy, e < |lines|, w);
    assert Find(block, HeadsOf(w), 0) < |block|;
    InsertedUnder(lines, e, block, after, HeadsOf(w), Heads());
  }

  lemma BlockIs(version: string, date: string, copy: seq<string>, next: bool)
    ensures PilotBlock(version, date, copy, next)
         == Fence(next) + [Dated(version, date)] + [""] + (copy + Trailer(next))
  {}

  lemma {:induction false} BlockOthers(lines: seq<string>, u: nat, e: nat, version: string, date: string,
                                       copy: seq<string>, after: seq<string>, w: string)
    requires u < |lines| && lines[u] == UNRELEASED && e == Find(lines, Heads(), u + 1)
    requires InsertedAt(lines, e, PilotBlock(version, date, copy, e < |lines|), after) && Plain(version)
    requires Plain(w) && w != version && w != "Unreleased"
    ensures Section(after, w)
         == if Find(lines, HeadsOf(w), 0) < u || Section(copy, w).None? then Section(lines, w) else Section(copy, w)
  {
    AllHeadingsStop(lines, w);
    UnreleasedWord(w);
    if Find(lines, HeadsOf(w), 0) < u {
      UnderBefore(lines, after, HeadsOf(w), Heads(), u);
    } else if Find(copy, HeadsOf(w), 0) == |copy| {
      BlockKeepsOthers(lines, u, e, version, date, copy, after, w);
    } else {
      FindIs(lines, Heads(), e, e);
      assert forall j | u < j < e :: !Heads()(lines[j]);
      BlockTakesOver(lines, e, version, date, copy, after, w);
    }
  }

  lemma {:induction false} BlockLeavesUnreleased(lines: seq<string>, u: nat, e: nat, version: string, date: string,
                                                 copy: seq<string>, after: seq<string>)
    requires u < |lines| && lines[u] == UNRELEASED && e == Find(lines, Heads(), u + 1)
    requires InsertedAt(lines, e, PilotBlock(version, date, copy, e < |lines|), after) && Plain(version)
    ensures Section(after, "Unreleased") == Section(lines, "Unreleased")
  {
    UnreleasedWord("Unreleased");
    if Find(lines, HeadsOf("Unreleased"), 0) < u {
      AboveStays(lines, u, e, PilotBlock(version, date, copy, e < |lines|), after, "Unreleased");
    } else {
      BlockKeepsUnreleased(lines, u, e, version, date, copy, after);
    }
  }

  /** A pre-release leaves the unreleased notes where they are, whatever it copies. */
  lemma {:induction false} PilotKeepsUnreleased(lines: seq<string>, version: string, date: string, body: string)
    requires FindUnreleased(lines) < |lines| && Plain(version)
    ensures Section(Pilot(lines, version, date, body), "Unreleased") == Section(lines, "Unreleased")
  {
    var u := FindUnreleased(lines);
    PilotInserts(lines, version, date, body);
    BlockLeavesUnreleased(lines, u, NotesEnd(lines, u), version, date, Copy(lines, body),
                          Pilot(lines, version, date, body));
  }

  lemma LastDropped(s: string, t: string)
    ensures s + "\n" == t + "\n" <==> s == t
  {
    assert (s + "\n")[..|s|] == s && (t + "\n")[..|t|] == t;
  }

  lemma ReadsInFull(body: string, full: string, cut: bool)
    requires body != "" && (if cut then |body| < |full| else body == full)
    ensures (if IsHeading(body) then "" else body) + "\n" == full + "\n" <==> !cut && !IsHeading(full)
  {
    LastDropped(if IsHeading(body) then "" else body, full);
  }

  lemma CopyReadsInFull(lines: seq<string>, version: string, date: string, body: string)
    requires Lines(lines) && Agreed(lines, version) && Gate(lines) == Some(body) && !HasPattern(body)
    ensures Section(Pilot(lines, version, date, body), version) == Section(lines, "Unreleased")
            <==> 'Z' !in Unreleased(lines) && !IsHeading(Trim(Unreleased(lines)))
  {
    GateFinds(lines, body);
    UnreleasedNotes(lines, version);
    PilotReadsPlain(lines, version, date, body);
    ReadsInFull(body, Trim(Unreleased(lines)), 'Z' in Unreleased(lines));
  }

  /**
   * A pre-release copies the notes. Its own section reads as the unreleased notes if and only if the copy, up
   * to its first heading, trims to them. For notes without a replacement pattern that is: they hold no capital
   * Z and do not, once trimmed, start as a heading does. The comment in the source promises it without condition.
   */
  lemma PilotCopiesNotes(lines: seq<string>, version: string, date: string, body: string)
    requires Lines(lines) && Agreed(lines, version) && Gate(lines) == Some(body)
    ensures var copy := Copy(lines, body);
            && (Section(Pilot(lines, version, date, body), version) == Section(lines, "Unreleased")
                <==> Notes(copy[..Find(copy, Heads(), 0)]) == Trim(Unreleased(lines)))
            && (!HasPattern(body) ==>
                  (Section(Pilot(lines, version, date, body), version) == Section(lines, "Unreleased")
                   <==> 'Z' !in Unreleased(lines) && !IsHeading(Trim(Unreleased(lines)))))
  {
    var copy := Copy(lines, body);
    PilotReads(lines, version, date, body);
    UnreleasedNotes(lines, version);
    LastDropped(Notes(copy[..Find(copy, Heads(), 0)]), Trim(Unreleased(lines)));
    if !HasPattern(body) {
      CopyReadsInFull(lines, version, date, body);
    }
  }

  /**
   * ... and any other version reads as it did if and only if its first heading stands above Unreleased, or the
   * copy has no heading of it, or its section in the copy is the same. Otherwise the copy's section takes over.
   */
  lemma {:induction false} PilotKeepsOthers(lines: seq<string>, version: string, date: string, body: string, w: string)
    requires FindUnreleased(lines) < |lines| && Plain(version)
    requires Plain(w) && w != version && w != "Unreleased"
    ensures var above, copied := Find(lines, HeadsOf(w), 0) < FindUnreleased(lines), Section(Copy(lines, body), w);
            && (Section(Pilot(lines, version, date, body), w)
                == if above || copied.None? then Section(lines, w) else copied)
            && (Section(Pilot(lines, version, date, body), w) == Section(lines, w)
                <==> above || copied.None? || copied == Section(lines, w))
  {
    var u := FindUnreleased(lines);
    PilotInserts(lines, version, date, body);
    BlockOthers(lines, u, NotesEnd(lines, u), version, date, Copy(lines, body), Pilot(lines, version, date, body), w);
  }

  // ---------------------------------------------------------------- when the gate refuses notes that are there

  /** The notes before their first capital Z. */
  function BeforeZ(text: string): string {
    Trim(text[..FirstOf(text, 'Z')])
  }

  /**
   * Notes that are there and not the placeholder are refused if and only if they hold no capital Z and no
   * heading follows them, or nothing but white space or the placeholder stands before their first capital Z.
   */
  lemma {:induction false} GateRefuses(lines: seq<string>)
    requires FindUnreleased(lines) < |lines|
    requires Trim(Unreleased(lines)) != "" && Trim(Unreleased(lines)) != NOTHING_YET
    ensures var text := Unreleased(lines);
            Gate(lines) == None <==>
              if 'Z' in text then BeforeZ(text) == "" || BeforeZ(text) == NOTHING_YET
              else NotesEnd(lines, FindUnreleased(lines)) == |lines|
  {
    CapturedIs(lines, FindUnreleased(lines), Unreleased(lines));
  }

  lemma CapturedIs(lines: seq<string>, u: nat, text: string)
    requires u < |lines| && text == Join(lines[u + 1..NotesEnd(lines, u)], NL)
    ensures Captured(lines, u)
         == if 'Z' in text then Some(BeforeZ(text)) else if NotesEnd(lines, u) < |lines| then Some(Trim(text)) else None
  {
    assert FirstOf(text, 'Z') < |text| <==> 'Z' in text;
  }

  // ---------------------------------------------------------------- changelogs that copy badly

  /** A changelog with one line of notes. */
  function OneNote(note: string): seq<string> {
    [UNRELEASED, note, "## 1"]
  }

  lemma OneNoteIs(note: string)
    requires !IsHeading(note)
    ensures FindUnreleased(OneNote(note)) == 0 && NotesEnd(OneNote(note), 0) == 2 && Unreleased(OneNote(note)) == note
  {
    var lines := OneNote(note);
    assert IsHeading("## 1");
    FindIs(lines, Heads(), 1, 2);
    assert lines[1..2] == [note];
    assert Join([note], NL) == note;
  }

  /** Notes with a capital Z are copied only up to it. */
  lemma CapitalZCutsTheCopy()
    ensures Gate(OneNote("aZb")) == Some("a") && Unreleased(OneNote("aZb")) == "aZb"
  {
    OneNoteIs("aZb");
    assert FirstOf("aZb", 'Z') == 1;
    assert "aZb"[..1] == "a";
    TrimmedStays("a");
  }

  lemma {:induction false} TwoDollars(matched: string, before: string, after: string)
    ensures Substitute("a$$", matched, before, after) == "a$"
  {
    assert "a$$"[1..] == "$$" && "$$"[2..] == "";
    assert Substitute("$$", matched, before, after) == "$" + Substitute("", matched, before, after);
  }

  /** Notes with two dollar signs in a row are copied with one. */
  lemma DollarsAreLost()
    ensures Gate(OneNote("a$$")) == Some("a$$") && Expand("a$$", OneNote("a$$"), 0, 2) == "a$"
  {
    var lines := OneNote("a$$");
    OneNoteIs("a$$");
    assert FirstOf("a$$", 'Z') == 3;
    TrimmedStays("a$$");
    TwoDollars(Matched(lines, 0, 2), Before(lines, 0), Join(lines[2..], NL));
  }

  /** Notes that start with a capital Z are refused as if there were none ... */
  lemma LeadingZIsRefused()
    ensures Unreleased(OneNote("Zebra")) == "Zebra" && Gate(OneNote("Zebra")) == None
  {
    OneNoteIs("Zebra");
    assert FirstOf("Zebra", 'Z') == 0;
    TrimmedStays("");
  }

  /** ... and so are the notes of a first release, which no heading follows. */
  lemma FirstReleaseIsRefused()
    ensures Gate([UNRELEASED, "a"]) == None
  {
    var lines := [UNRELEASED, "a"];
    FindIs(lines, Heads(), 1, 2);
    assert lines[1..2] == ["a"];
    assert Join(["a"], NL) == "a";
    assert FirstOf("a", 'Z') == 1;
  }

  lemma NoDollar(t: string)
    requires '$' !in t
    ensures !HasPattern(t)
  {
    forall i | 0 <= i < |t|
      ensures !PatternFirst(t[i..])
    {
      assert t[i..][0] == t[i] && t[i] in t;
    }
  }

  lemma OneNoteAgrees(note: string, version: string)
    requires !IsHeading(note) && Plain(version) && version != "Unreleased"
    ensures Agreed(OneNote(note), version)
  {
    OneNoteIs(note);
    UnreleasedWord("Unreleased");
    FindIs(OneNote(note), HeadsOf("Unreleased"), 0, 0);
  }

  /** Notes that start with an indented heading give a version without notes a section of its own. */
  lemma IndentedHeadingAddsSection(version: string, date: string)
    requires Plain(version) && version != "Unreleased" && version != "3"
    ensures var lines := OneNote(" ## 3");
            && Gate(lines) == Some("## 3") && Section(lines, "3") == None
            && Section(Pilot(lines, version, date, "## 3"), "3") == Some("\n")
  {
    var lines := OneNote(" ## 3");
    OneNoteAgrees(" ## 3", version);
    IndentedIsCaptured(" ## 3");
    SectionOfThree();
    NoDollar("## 3");
    PlainCopy(lines, "## 3");
    PilotKeepsOthers(lines, version, date, "## 3", "3");
  }

  lemma IndentedIsCaptured(note: string)
    requires note == " ## 3"
    ensures Gate(OneNote(note)) == Some("## 3")
  {
    OneNoteIs(note);
    assert FirstOf(note, 'Z') == 5;
    assert " " + "## 3" + "" == note;
    TrimIs(" ", "## 3", "");
  }

  /** A list of one heading has one section, without notes. */
  lemma {:induction false} LoneHeading(line: string, w: string)
    requires HeadingOf(line, w) && NL !in line
    ensures Section(Split(line, NL), w) == Some("\n")
  {
    var copy := [line];
    SplitPiece(line, NL, "");
    FindIs(copy, HeadsOf(w), 0, 0);
    assert copy[1..Find(copy, Heads(), 1)] == [];
    TrimmedStays("");
    assert "" + "\n" == "\n";
  }

  lemma NoSection(lines: seq<string>, w: string)
    requires forall j | 0 <= j < |lines| :: !HeadingOf(lines[j], w)
    ensures Section(lines, w) == None
  {
    FindIs(lines, HeadsOf(w), 0, |lines|);
  }

  lemma SectionOfThree()
    ensures Section(OneNote(" ## 3"), "3") == None
    ensures Section(Split("## 3", NL), "3") == Some("\n")
  {
    UnreleasedWord("3");
    HeadingWord("1", "", "3");
    HeadingWord("3", "", "3");
    assert "## " + "1" + "" == "## 1" && "## " + "3" + "" == "## 3";
    NotHeading(" ## 3", "3");
    NoSection(OneNote(" ## 3"), "3");
    LoneHeading("## 3", "3");
  }

  const QUOTED := "$`"

  lemma {:induction false} QuotedExpands(matched: string, before: string, after: string)
    ensures Substitute(QUOTED, matched, before, after) == before
  {
    assert QUOTED[2..] == "";
    assert Substitute("", matched, before, after) == "";
    assert before + "" == before;
  }

  lemma {:induction false} QuotedCopy(lines: seq<string>)
    requires lines == [QUOTED, UNRELEASED, QUOTED, "## 1"]
    ensures FindUnreleased(lines) == 1 && Copy(lines, QUOTED) == [QUOTED, ""]
  {
    assert lines[1..][0] == UNRELEASED;
    assert lines[..1] == [QUOTED] && Join([QUOTED], NL) == QUOTED;
    QuotedExpands(Matched(lines, 1, NotesEnd(lines, 1)), Before(lines, 1), Join(lines[NotesEnd(lines, 1)..], NL));
    SplitPiece(QUOTED, NL, "");
    assert QUOTED + [NL] + "" == QUOTED + "\n";
    assert [QUOTED] + [""] == [QUOTED, ""];
  }

  /** A pattern alone does not decide: here the notes are one, and what stands above them is put in for it. */
  lemma PatternCanReadBack(lines: seq<string>)
    requires lines == [QUOTED, UNRELEASED, QUOTED, "## 1"]
    ensures HasPattern(QUOTED) && Trim(Unreleased(lines)) == QUOTED
    ensures Notes(Copy(lines, QUOTED)[..Find(Copy(lines, QUOTED), Heads(), 0)]) == QUOTED
  {
    QuotedCopy(lines);
    assert PatternFirst(QUOTED[0..]);
    assert IsHeading("## 1");
    FindIs(lines, Heads(), 2, 3);
    assert lines[2..3] == [QUOTED] && Join([QUOTED], NL) == QUOTED;
    TrimmedStays(QUOTED);
    var copy := [QUOTED, ""];
    FindIs(copy, Heads(), 0, 2);
    assert copy[..2] == copy && copy == [QUOTED] + [""];
    EmptyLineTrims([QUOTED]);
  }
}
