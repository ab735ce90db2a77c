/** The string operations of the source's runtime that the other modules rely on. */
module Text {

  /** The characters JavaScript's `trim` and `\s` count as white space. */
  predicate IsSpace(c: char) {
    var n := c as int;
    || 9 <= n <= 13
    || n == 0x20 || n == 0xA0 || n == 0x1680
    || 0x2000 <= n <= 0x200A
    || n == 0x2028 || n == 0x2029 || n == 0x202F || n == 0x205F || n == 0x3000 || n == 0xFEFF
  }

  predicate IsDigit(c: char) {
    '0' <= c <= '9'
  }

  predicate Blank(s: string) {
    forall i | 0 <= i < |s| :: IsSpace(s[i])
  }

  /** Neither end is white space; this is what `s.trim() === s` says. */
  predicate Trimmed(s: string) {
    s == "" || (!IsSpace(s[0]) && !IsSpace(s[|s| - 1]))
  }

  /** Where the text starts once white space from `i` on is skipped. */
  function Lead(s: string, i: nat): (a: nat)
    requires i <= |s|
    ensures i <= a <= |s|
    ensures forall j | i <= j < a :: IsSpace(s[j])
    ensures a < |s| ==> !IsSpace(s[a])
    decreases |s| - i
  {
    if i < |s| && IsSpace(s[i]) then Lead(s, i + 1) else i
  }

  /** Where the text from `a` on ends once white space before `n` is dropped. */
  function Tail(s: string, a: nat, n: nat): (c: nat)
    requires a <= n <= |s|
    ensures a <= c <= n
    ensures forall j | c <= j < n :: IsSpace(s[j])
    ensures a < c ==> !IsSpace(s[c - 1])
  {
    if a < n && IsSpace(s[n - 1]) then Tail(s, a, n - 1) else n
  }

  /** JavaScript's `trim`. */
  function Trim(s: string): (r: string)
    ensures Trimmed(r)
  {
    var a := Lead(s, 0);
    s[a..Tail(s, a, |s|)]
  }

  /** Trimming is determined by any split of the text into blank, trimmed core, blank. */
  lemma TrimIs(lead: string, core: string, tail: string)
    requires Blank(lead) && Blank(tail) && Trimmed(core)
    ensures Trim(lead + core + tail) == core
  {
    var s := lead + core + tail;
    assert forall j | 0 <= j < |lead| :: s[j] == lead[j];
    assert forall j | |lead| + |core| <= j < |s| :: s[j] == tail[j - |lead| - |core|];
    if core != "" {
      assert s[|lead|] == core[0] && s[|lead| + |core| - 1] == core[|core| - 1];
      assert Lead(s, 0) == |lead|;
      assert Tail(s, |lead|, |s|) == |lead| + |core|;
      assert s[|lead|..|lead| + |core|] == core;
    } else {
      BlankTrims(s);
    }
  }

  lemma TrimmedStays(s: string)
    requires Trimmed(s)
    ensures Trim(s) == s
  {
    if s != "" {
      assert Lead(s, 0) == 0 && Tail(s, 0, |s|) == |s|;
    }
  }

  lemma BlankTrims(s: string)
    requires Blank(s)
    ensures Trim(s) == ""
  {}

  /** Every text is blank, trimmed core, blank. */
  lemma TrimSplits(s: string) returns (a: nat, c: nat)
    ensures a <= c <= |s| && Trim(s) == s[a..c]
    ensures forall j | 0 <= j < a || c <= j < |s| :: IsSpace(s[j])
  {
    a := Lead(s, 0);
    c := Tail(s, a, |s|);
  }

  /** Trimming keeps everything from one character that is not white space to another. */
  lemma TrimKeeps(s: string, i: nat, j: nat)
    requires i <= j < |s| && !IsSpace(s[i]) && !IsSpace(s[j])
    ensures |Trim(s)| >= j - i + 1
  {
    var a, c := TrimSplits(s);
  }

  lemma TrimDrops(s: string)
    requires s != "" && IsSpace(s[0])
    ensures |Trim(s)| < |s|
  {
    var a, c := TrimSplits(s);
    assert Trim(s) == "" || Trim(s)[0] == s[a];
  }

  // ---------------------------------------------------------------- split and join

  /** The pieces between separators; there is always at least one. */
  function Split(s: string, sep: char): (r: seq<string>)
    ensures r != []
    ensures forall i | 0 <= i < |r| :: sep !in r[i]
  {
    if s == "" then [""]
    else
      var rest := Split(s[1..], sep);
      if s[0] == sep then [""] + rest else [[s[0]] + rest[0]] + rest[1..]
  }

  function Join(parts: seq<string>, sep: char): string {
    if parts == [] then ""
    else if |parts| == 1 then parts[0]
    else parts[0] + [sep] + Join(parts[1..], sep)
  }

  lemma {:induction false} JoinSplit(s: string, sep: char)
    ensures Join(Split(s, sep), sep) == s
  {
    if s != "" {
      JoinSplit(s[1..], sep);
      var rest := Split(s[1..], sep);
      assert s == [s[0]] + s[1..];
      if s[0] == sep {
        assert ([""] + rest)[1..] == rest;
      } else {
        var r := [[s[0]] + rest[0]] + rest[1..];
        assert r[1..] == rest[1..];
        if |rest| > 1 {
          var tail := Join(rest[1..], sep);
          assert [s[0]] + (rest[0] + [sep] + tail) == [s[0]] + rest[0] + [sep] + tail;
        }
      }
    }
  }

  lemma {:induction false} SplitPiece(piece: string, sep: char, rest: string)
    requires sep !in piece
    ensures Split(piece + [sep] + rest, sep) == [piece] + Split(rest, sep)
    ensures Split(piece, sep) == [piece]
  {
    if piece == "" {
      assert (piece + [sep] + rest)[1..] == rest;
    } else {
      SplitPiece(piece[1..], sep, rest);
      assert (piece + [sep] + rest)[1..] == piece[1..] + [sep] + rest;
      assert piece == [piece[0]] + piece[1..];
      assert ([piece[1..]] + Split(rest, sep))[1..] == Split(rest, sep);
    }
  }

  lemma {:induction false} SplitJoin(parts: seq<string>, sep: char)
    requires parts != [] && forall i | 0 <= i < |parts| :: sep !in parts[i]
    ensures Split(Join(parts, sep), sep) == parts
  {
    if |parts| == 1 {
      SplitPiece(parts[0], sep, "");
    } else {
      SplitJoin(parts[1..], sep);
      SplitPiece(parts[0], sep, Join(parts[1..], sep));
      assert parts == [parts[0]] + parts[1..];
    }
  }

  lemma {:induction false} JoinAppend(a: seq<string>, b: seq<string>, sep: char)
    requires a != [] && b != []
    ensures Join(a + b, sep) == Join(a, sep) + [sep] + Join(b, sep)
  {
    if |a| == 1 {
      assert (a + b)[1..] == b && (a + b)[0] == a[0];
    } else {
      assert (a + b)[0] == a[0] && (a + b)[1..] == a[1..] + b;
      JoinAppend(a[1..], b, sep);
      Regroup(a[0], [sep], Join(a[1..], sep), [sep], Join(b, sep));
    }
  }

  lemma Regroup(a: string, b: string, c: string, d: string, e: string)
    ensures a + b + (c + d + e) == (a + b + c) + d + e
  {}

  /** A text starts with something that holds no separator exactly when its first piece does. */
  lemma {:induction false} FirstPieceStarts(p: string, s: string, sep: char)
    requires sep !in p
    ensures p <= s <==> p <= Split(s, sep)[0]
  {
    if p != "" && s != "" {
      if s[0] != sep {
        FirstPieceStarts(p[1..], s[1..], sep);
        StartsWith(p, s);
        StartsWith(p, Split(s, sep)[0]);
        assert Split(s, sep)[0][1..] == Split(s[1..], sep)[0];
      }
    }
  }

  lemma StartsWith(p: string, s: string)
    requires p != "" && s != ""
    ensures p <= s <==> p[0] == s[0] && p[1..] <= s[1..]
  {
    if p[0] == s[0] && p[1..] <= s[1..] {
      assert p == [p[0]] + p[1..];
      assert s[..|p|] == [s[0]] + s[1..][..|p| - 1];
    }
  }
}
