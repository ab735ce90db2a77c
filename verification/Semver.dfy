/**
 * Release versions: the comparison, the precedence it implements (section 11 of Semantic Versioning
 * 2.0.0), and the gate that lets a release follow only an older one.
 * Source: scripts/semver.ts; scripts/release.ts, lines 54-76.
 */
module Semver {
  import opened Prelude
  import Text

  /** A parsed version; identifiers are non-empty and made of ASCII letters, digits and hyphens. */
  datatype Version = Version(major: nat, minor: nat, patch: nat, pre: seq<string>)

  predicate IdentifierChar(c: char) {
    Text.IsDigit(c) || 'A' <= c <= 'Z' || 'a' <= c <= 'z' || c == '-'
  }

  predicate Identifier(s: string) {
    s != "" && forall i | 0 <= i < |s| :: IdentifierChar(s[i])
  }

  predicate Wellformed(v: Version) {
    forall i | 0 <= i < |v.pre| :: Identifier(v.pre[i])
  }

  predicate Numeric(s: string) {
    s != "" && forall i | 0 <= i < |s| :: Text.IsDigit(s[i])
  }

  function NumberOf(s: string): nat
    requires forall i | 0 <= i < |s| :: Text.IsDigit(s[i])
  {
    if s == "" then 0
    else
      assert Text.IsDigit(s[|s| - 1]);
      10 * NumberOf(s[..|s| - 1]) + (s[|s| - 1] as int - '0' as int)
  }

  function Sign(n: int): int {
    if n < 0 then -1 else if n > 0 then 1 else 0
  }

  /** Lexical order by code, as `<` on strings; a proper prefix comes first. */
  function CompareText(x: string, y: string): (d: int)
    ensures -1 <= d <= 1
  {
    if x == "" || y == "" then Sign(|x| - |y|)
    else if x[0] != y[0] then Sign(x[0] as int - y[0] as int)
    else CompareText(x[1..], y[1..])
  }

  // ---------------------------------------------------------------- the comparison

  function CompareIdentifiers(x: string, y: string): int {
    if Numeric(x) && Numeric(y) then Sign(NumberOf(x) - NumberOf(y))
    else if Numeric(x) != Numeric(y) then (if Numeric(x) then -1 else 1)
    else CompareText(x, y)
  }

  /** Identifier by identifier; when all of the shorter list are equal, the longer list is greater. */
  function ComparePre(a: seq<string>, b: seq<string>): int {
    if a == [] || b == [] then Sign(|a| - |b|)
    else
      var d := CompareIdentifiers(a[0], b[0]);
      if d != 0 then d else ComparePre(a[1..], b[1..])
  }

  /** Precedence, as section 11 states it: the core, then a release above its pre-releases, then those. */
  function Precedence(a: Version, b: Version): int {
    if a.major != b.major then Sign(a.major - b.major)
    else if a.minor != b.minor then Sign(a.minor - b.minor)
    else if a.patch != b.patch then Sign(a.patch - b.patch)
    else if a.pre == [] || b.pre == [] then Sign(|b.pre| - |a.pre|)
    else ComparePre(a.pre, b.pre)
  }

  function CorePart(v: Version, i: nat): nat
    requires i < 3
  {
    if i == 0 then v.major else if i == 1 then v.minor else v.patch
  }

  /** The source's loop over the pre-release identifiers, from one position on. */
  method ComparePreFrom(a: seq<string>, b: seq<string>) returns (d: int)
    requires a != [] && b != []
    ensures Sign(d) == ComparePre(a, b)
  {
    var i := 0;
    while i < |a| || i < |b|
      invariant i <= |a| && i <= |b|
      invariant ComparePre(a, b) == ComparePre(a[i..], b[i..])
      decreases |a| + |b| - i
    {
      if i >= |a| {
        return -1;
      }
      if i >= |b| {
        return 1;
      }
      var x, y := a[i], b[i];
      assert a[i..][0] == x && b[i..][0] == y;
      assert a[i..][1..] == a[i + 1..] && b[i..][1..] == b[i + 1..];
      if Numeric(x) && Numeric(y) {
        if NumberOf(x) != NumberOf(y) {
          return NumberOf(x) - NumberOf(y);
        }
      } else if Numeric(x) != Numeric(y) {
        return if Numeric(x) then -1 else 1;
      } else if x != y {
        TextTies(x, y);
        return if CompareText(x, y) < 0 then -1 else 1;
      } else {
        TextTies(x, y);
      }
      i := i + 1;
    }
    return 0;
  }

  /** `compareVersions`: negative, zero or positive, as precedence says. */
  method CompareVersions(a: Version, b: Version) returns (d: int)
    ensures Sign(d) == Precedence(a, b)
  {
    for i := 0 to 3
      invariant forall j: nat | j < i :: CorePart(a, j) == CorePart(b, j)
    {
      assert i > 0 ==> CorePart(a, 0) == CorePart(b, 0);
      assert i > 1 ==> CorePart(a, 1) == CorePart(b, 1);
      d := CorePart(a, i) - CorePart(b, i);
      if d != 0 {
        return;
      }
    }
    assert CorePart(a, 0) == CorePart(b, 0) && CorePart(a, 1) == CorePart(b, 1) && CorePart(a, 2) == CorePart(b, 2);
    if a.pre == [] || b.pre == [] {
      return |b.pre| - |a.pre|;
    }
    d := ComparePreFrom(a.pre, b.pre);
  }

  // ---------------------------------------------------------------- a total preorder

  lemma {:induction false} TextTies(x: string, y: string)
    ensures CompareText(x, y) == 0 <==> x == y
  {
    if x != "" && y != "" {
      assert x == [x[0]] + x[1..] && y == [y[0]] + y[1..];
      TextTies(x[1..], y[1..]);
    }
  }

  lemma {:induction false} TextFlips(x: string, y: string)
    ensures CompareText(y, x) == -CompareText(x, y)
  {
    if x != "" && y != "" {
      TextFlips(x[1..], y[1..]);
    }
  }

  lemma {:induction false} TextChains(x: string, y: string, z: string)
    requires CompareText(x, y) <= 0 && CompareText(y, z) <= 0
    ensures CompareText(x, z) <= 0
    ensures CompareText(x, y) < 0 || CompareText(y, z) < 0 ==> CompareText(x, z) < 0
  {
    if x != "" && y != "" && z != "" && x[0] == y[0] == z[0] {
      TextChains(x[1..], y[1..], z[1..]);
    }
  }

  lemma IdentifiersFlip(x: string, y: string)
    ensures CompareIdentifiers(y, x) == -CompareIdentifiers(x, y)
  {
    TextFlips(x, y);
  }

  lemma IdentifiersChain(x: string, y: string, z: string)
    requires CompareIdentifiers(x, y) <= 0 && CompareIdentifiers(y, z) <= 0
    ensures CompareIdentifiers(x, z) <= 0
    ensures CompareIdentifiers(x, y) < 0 || CompareIdentifiers(y, z) < 0 ==> CompareIdentifiers(x, z) < 0
  {
    if !Numeric(x) && !Numeric(y) && !Numeric(z) {
      TextChains(x, y, z);
    }
  }

  lemma {:induction false} PreFlips(a: seq<string>, b: seq<string>)
    ensures ComparePre(b, a) == -ComparePre(a, b)
  {
    if a != [] && b != [] {
      IdentifiersFlip(a[0], b[0]);
      PreFlips(a[1..], b[1..]);
    }
  }

  lemma {:induction false} PreChains(a: seq<string>, b: seq<string>, c: seq<string>)
    requires ComparePre(a, b) <= 0 && ComparePre(b, c) <= 0
    ensures ComparePre(a, c) <= 0
    ensures ComparePre(a, b) < 0 || ComparePre(b, c) < 0 ==> ComparePre(a, c) < 0
  {
    if a != [] && b != [] && c != [] {
      IdentifiersChain(a[0], b[0], c[0]);
      IdentifiersFlip(a[0], c[0]);
      if CompareIdentifiers(a[0], b[0]) == 0 && CompareIdentifiers(b[0], c[0]) == 0 {
        IdentifiersFlip(a[0], b[0]);
        IdentifiersFlip(b[0], c[0]);
        IdentifiersChain(c[0], b[0], a[0]);
        PreChains(a[1..], b[1..], c[1..]);
      }
    }
  }

  /** Precedence is sign-antisymmetric and transitive, strictly where either step is strict. */
  lemma PrecedenceIsTotalPreorder(a: Version, b: Version, c: Version)
    ensures Precedence(b, a) == -Precedence(a, b)
    ensures Precedence(a, a) == 0
    ensures Precedence(a, b) <= 0 && Precedence(b, c) <= 0 ==> Precedence(a, c) <= 0
    ensures Precedence(a, b) <= 0 && Precedence(b, c) <= 0 && (Precedence(a, b) < 0 || Precedence(b, c) < 0)
            ==> Precedence(a, c) < 0
  {
    PreFlips(a.pre, b.pre);
    PreFlips(a.pre, a.pre);
    if ComparePre(a.pre, b.pre) <= 0 && ComparePre(b.pre, c.pre) <= 0 {
      PreChains(a.pre, b.pre, c.pre);
    }
  }

  /** A release outranks every pre-release of the same core. */
  lemma ReleaseOutranks(release: Version, pilot: Version)
    requires release.major == pilot.major && release.minor == pilot.minor && release.patch == pilot.patch
    requires release.pre == [] && pilot.pre != []
    ensures Precedence(pilot, release) < 0 < Precedence(release, pilot)
  {}

  // ---------------------------------------------------------------- ties

  /** A numeric identifier without its leading zeros, and any other identifier as it is. */
  function Canonical(s: string): string {
    if Numeric(s) && |s| > 1 && s[0] == '0' then Canonical(s[1..]) else s
  }

  lemma {:induction false} LeadingZero(s: string)
    requires forall i | 0 <= i < |s| :: Text.IsDigit(s[i])
    ensures NumberOf("0" + s) == NumberOf(s)
  {
    if s == "" {
      assert "0"[..0] == "";
    } else {
      LeadingZero(s[..|s| - 1]);
      assert ("0" + s)[..|s|] == "0" + s[..|s| - 1];
    }
  }

  lemma {:induction false} CanonicalKeepsNumber(s: string)
    requires Numeric(s)
    ensures Numeric(Canonical(s)) && NumberOf(Canonical(s)) == NumberOf(s)
    ensures |Canonical(s)| > 1 ==> Canonical(s)[0] != '0'
  {
    if |s| > 1 && s[0] == '0' {
      assert s == "0" + s[1..];
      LeadingZero(s[1..]);
      CanonicalKeepsNumber(s[1..]);
    }
  }

  /** Without leading zeros, equal numbers have equal digits. */
  lemma {:induction false} DigitsAreUnique(s: string, t: string)
    requires Numeric(s) && Numeric(t) && NumberOf(s) == NumberOf(t)
    requires (|s| > 1 ==> s[0] != '0') && (|t| > 1 ==> t[0] != '0')
    ensures s == t
    decreases |s|
  {
    var a, b := s[..|s| - 1], t[..|t| - 1];
    LastDigit(NumberOf(a), s[|s| - 1] as int - '0' as int, NumberOf(b), t[|t| - 1] as int - '0' as int);
    assert s == a + [s[|s| - 1]] && t == b + [t[|t| - 1]];
    if a != "" && b != "" {
      DigitsAreUnique(a, b);
    } else if a != "" {
      Positive(a);
    } else if b != "" {
      Positive(b);
    }
  }

  lemma LastDigit(m: nat, x: int, n: nat, y: int)
    requires 0 <= x < 10 && 0 <= y < 10 && 10 * m + x == 10 * n + y
    ensures m == n && x == y
  {}

  lemma {:induction false} Positive(s: string)
    requires Numeric(s) && s[0] != '0'
    ensures NumberOf(s) > 0
  {
    if |s| > 1 {
      Positive(s[..|s| - 1]);
    }
  }

  lemma {:induction false} IdentifierTies(x: string, y: string)
    ensures CompareIdentifiers(x, y) == 0 <==> Canonical(x) == Canonical(y)
  {
    if Numeric(x) && Numeric(y) {
      CanonicalKeepsNumber(x);
      CanonicalKeepsNumber(y);
      if NumberOf(x) == NumberOf(y) {
        DigitsAreUnique(Canonical(x), Canonical(y));
      }
    } else if Numeric(x) {
      CanonicalKeepsNumber(x);
    } else if Numeric(y) {
      CanonicalKeepsNumber(y);
    } else {
      TextTies(x, y);
    }
  }

  function CanonicalPre(pre: seq<string>): (r: seq<string>)
    ensures |r| == |pre|
  {
    if pre == [] then [] else [Canonical(pre[0])] + CanonicalPre(pre[1..])
  }

  lemma {:induction false} PreTies(a: seq<string>, b: seq<string>)
    ensures ComparePre(a, b) == 0 <==> CanonicalPre(a) == CanonicalPre(b)
  {
    if a != [] && b != [] {
      IdentifierTies(a[0], b[0]);
      PreTies(a[1..], b[1..]);
      var x, y := CanonicalPre(a), CanonicalPre(b);
      assert x[1..] == CanonicalPre(a[1..]) && y[1..] == CanonicalPre(b[1..]);
      assert x == [x[0]] + x[1..] && y == [y[0]] + y[1..];
    }
  }

  /** Two versions tie exactly when they are equal up to leading zeros of numeric identifiers. */
  lemma Ties(a: Version, b: Version)
    ensures Precedence(a, b) == 0 <==> a.(pre := CanonicalPre(a.pre)) == b.(pre := CanonicalPre(b.pre))
  {
    PreTies(a.pre, b.pre);
  }

  // ---------------------------------------------------------------- the release gate

  /** Each release was let through: it compared greater than the version it replaced. */
  ghost predicate Released(versions: seq<Version>) {
    forall i | 0 < i < |versions| :: Precedence(versions[i], versions[i - 1]) > 0
  }

  /** Versions only go up: over any run of releases each is greater than all before, so none is reused. */
  lemma {:induction false} ReleasesGoUp(versions: seq<Version>, i: nat, j: nat)
    requires Released(versions) && i < j < |versions|
    ensures Precedence(versions[j], versions[i]) > 0 && versions[i] != versions[j]
    decreases j - i
  {
    PrecedenceIsTotalPreorder(versions[j - 1], versions[j], versions[j]);
    if i < j - 1 {
      ReleasesGoUp(versions, i, j - 1);
      PrecedenceIsTotalPreorder(versions[i], versions[j - 1], versions[j]);
    }
    PrecedenceIsTotalPreorder(versions[i], versions[j], versions[j]);
  }

  // ---------------------------------------------------------------- reading and writing a version

  /** The length of the run of digits a text starts with. */
  function Digits(text: string): (n: nat)
    ensures n <= |text|
    ensures forall i | 0 <= i < n :: Text.IsDigit(text[i])
    ensures n < |text| ==> !Text.IsDigit(text[n])
  {
    if text == "" || !Text.IsDigit(text[0]) then 0 else 1 + Digits(text[1..])
  }

  /** A number at the start of a text, and what follows it. */
  function ReadNumber(text: string): Option<(nat, string)> {
    var n := Digits(text);
    if n == 0 then None else Some((NumberOf(text[..n]), text[n..]))
  }

  /** A number and the dot after it. */
  function ReadDotted(text: string): Option<(nat, string)> {
    match ReadNumber(text)
    case None => None
    case Some((n, rest)) => if rest == "" || rest[0] != '.' then None else Some((n, rest[1..]))
  }

  /** `X.Y.Z`, or that and a hyphen and identifiers separated by dots; nothing else is a version. */
  function ParseVersion(text: string): (r: Option<Version>)
    ensures r.Some? ==> Wellformed(r.value)
  {
    var major := ReadDotted(text);
    if major.None? then None
    else
      var minor := ReadDotted(major.value.1);
      if minor.None? then None
      else
        var patch := ReadNumber(minor.value.1);
        if patch.None? then None
        else
          var tail := patch.value.1;
          if tail == "" then Some(Version(major.value.0, minor.value.0, patch.value.0, []))
          else if tail[0] != '-' then None
          else
            var v := Version(major.value.0, minor.value.0, patch.value.0, Text.Split(tail[1..], '.'));
            if Wellformed(v) then Some(v) else None
  }

  function Decimal(n: nat): (s: string)
    ensures Numeric(s)
  {
    var digit := [('0' as int + n % 10) as char];
    if n < 10 then digit else Decimal(n / 10) + digit
  }

  function Show(v: Version): string {
    Decimal(v.major) + "." + (Decimal(v.minor) + "." + (Decimal(v.patch) + ShowPre(v.pre)))
  }

  function ShowPre(pre: seq<string>): string {
    if pre == [] then "" else "-" + Text.Join(pre, '.')
  }

  lemma {:induction false} DecimalReads(n: nat)
    ensures NumberOf(Decimal(n)) == n
  {
    var digit := [('0' as int + n % 10) as char];
    if n < 10 {
      assert Decimal(n)[..0] == "";
    } else {
      DecimalReads(n / 10);
      assert Decimal(n)[..|Decimal(n)| - 1] == Decimal(n / 10);
    }
  }

  lemma {:induction false} DigitsOfRun(run: string, rest: string)
    requires forall i | 0 <= i < |run| :: Text.IsDigit(run[i])
    requires rest == "" || !Text.IsDigit(rest[0])
    ensures Digits(run + rest) == |run|
  {
    if run == "" {
      assert run + rest == rest;
    } else {
      DigitsOfRun(run[1..], rest);
      assert (run + rest)[1..] == run[1..] + rest;
    }
  }

  lemma {:induction false} NumberReads(n: nat, rest: string)
    requires rest == "" || !Text.IsDigit(rest[0])
    ensures ReadNumber(Decimal(n) + rest) == Some((n, rest))
  {
    DecimalReads(n);
    DigitsOfRun(Decimal(n), rest);
    var text := Decimal(n) + rest;
    assert text[..|Decimal(n)|] == Decimal(n) && text[|Decimal(n)|..] == rest;
  }

  lemma {:induction false} DottedReads(n: nat, rest: string)
    ensures ReadDotted(Decimal(n) + "." + rest) == Some((n, rest))
  {
    NumberReads(n, "." + rest);
    assert Decimal(n) + ("." + rest) == Decimal(n) + "." + rest;
    assert ("." + rest)[1..] == rest;
  }

  /** A written version reads back as itself. */
  lemma VersionRoundTrip(v: Version)
    requires Wellformed(v)
    ensures ParseVersion(Show(v)) == Some(v)
  {
    var third := Decimal(v.patch) + ShowPre(v.pre);
    DottedReads(v.major, Decimal(v.minor) + "." + third);
    DottedReads(v.minor, third);
    NumberReads(v.patch, ShowPre(v.pre));
    if v.pre != [] {
      forall i | 0 <= i < |v.pre|
        ensures '.' !in v.pre[i]
      {
        assert Identifier(v.pre[i]);
      }
      Text.SplitJoin(v.pre, '.');
      assert ShowPre(v.pre)[1..] == Text.Join(v.pre, '.');
    }
  }
}
