/**
 Database versions, dblift/db/version.py: printing, ordering, finding the first dotted number
 in a banner, and matching against a version or a minimum.
 */
module Version {
  import opened Basics
  import opened Decimals

  /** `build` is what stands in parentheses; a parsed version keeps the whole text instead. */
  datatype DatabaseVersion = DatabaseVersion(
    major: nat, minor: nat, patch: nat, build: Option<string>, fullVersion: Option<string>)

  // ---------------------------------------------------------------- printing and ordering

  function BuildText(v: DatabaseVersion): string {
    if v.build.Some? && v.build.value != "" then " (" + v.build.value + ")" else ""
  }

  /** The dotted numbers alone. */
  function Core(v: DatabaseVersion): string {
    Decimal(v.major) + "." + Decimal(v.minor) + if v.patch > 0 then "." + Decimal(v.patch) else ""
  }

  /** `__str__`. */
  function Print(v: DatabaseVersion): string {
    Core(v) + BuildText(v)
  }

  /** `__ge__`. */
  predicate AtLeast(a: DatabaseVersion, b: DatabaseVersion) {
    if a.major != b.major then a.major >= b.major
    else if a.minor != b.minor then a.minor >= b.minor
    else a.patch >= b.patch
  }

  function Components(v: DatabaseVersion): seq<nat> {
    [v.major, v.minor, v.patch]
  }

  /** The lexicographic order of any two sequences of one length. */
  predicate Precedes(a: seq<nat>, b: seq<nat>) {
    exists i :: 0 <= i < |a| && i < |b| && a[..i] == b[..i] && a[i] < b[i]
  }

  lemma AtLeastIsLexicographic(a: DatabaseVersion, b: DatabaseVersion)
    ensures AtLeast(a, b) <==> !Precedes(Components(a), Components(b))
  {
    var x, y := Components(a), Components(b);
    if !AtLeast(a, b) {
      var i := if a.major != b.major then 0 else if a.minor != b.minor then 1 else 2;
      assert x[..i] == y[..i] && x[i] < y[i];
    }
    if Precedes(x, y) {
      var i :| 0 <= i < |x| && i < |y| && x[..i] == y[..i] && x[i] < y[i];
      if i > 0 {
        assert x[..i][0] == y[..i][0];
      }
      if i > 1 {
        assert x[..i][1] == y[..i][1];
      }
    }
  }

  // ---------------------------------------------------------------- parsing

  /** The end of the digits that start at `i`. */
  function Run(s: string, i: nat): (r: nat)
    requires i <= |s|
    ensures i <= r <= |s| && Digits(s[i..r]) && (r < |s| ==> !Digit(s[r]))
    decreases |s| - i
  {
    if i < |s| && Digit(s[i]) then
      var r := Run(s, i + 1);
      assert s[i..r] == [s[i]] + s[i + 1..r];
      r
    else i
  }

  /** `major` ends at `j`, `minor` at `k`, and `patch`, if there is one, at `l`. */
  datatype Match = Match(j: nat, k: nat, l: nat)

  /** A way for the pattern `(\d+)\.(\d+)(?:\.(\d+))?` to match from `i` on. */
  predicate Fits(s: string, i: nat, m: Match) {
    && i < m.j < |s| && Digits(s[i..m.j]) && s[m.j] == '.'
    && m.j + 1 < m.k <= |s| && Digits(s[m.j + 1..m.k])
    && (m.l == m.k ||
        (m.k < |s| && s[m.k] == '.' && m.k + 1 < m.l <= |s| && Digits(s[m.k + 1..m.l])))
  }

  /** The greedy match from `i` on. */
  function MatchAt(s: string, i: nat): (r: Option<Match>)
    requires i <= |s|
  {
    var j := Run(s, i);
    if j == i || j == |s| || s[j] != '.' then None
    else
      var k := Run(s, j + 1);
      if k == j + 1 then None
      else
        var l := if k < |s| && s[k] == '.' then Run(s, k + 1) else k;
        Some(Match(j, k, if l > k + 1 then l else k))
  }

  lemma RunIsLongest(s: string, i: nat, e: nat)
    requires i <= e <= |s| && Digits(s[i..e])
    ensures e <= Run(s, i) && (e < |s| && !Digit(s[e]) ==> e == Run(s, i))
  {
    var r := Run(s, i);
    assert forall k :: i <= k < e ==> s[k] == s[i..e][k - i];
    assert forall k :: i <= k < r ==> s[k] == s[i..r][k - i];
  }

  /** It is a match, there is one whenever there is any, and none goes further. */
  lemma MatchAtIsGreedy(s: string, i: nat)
    requires i <= |s|
    ensures MatchAt(s, i).Some? ==> Fits(s, i, MatchAt(s, i).value)
    ensures forall m :: Fits(s, i, m) ==>
      MatchAt(s, i).Some? && m.j == MatchAt(s, i).value.j && m.k <= MatchAt(s, i).value.k &&
      (m.k == MatchAt(s, i).value.k ==> m.l <= MatchAt(s, i).value.l)
  {
    forall m | Fits(s, i, m)
      ensures MatchAt(s, i).Some? && m.j == MatchAt(s, i).value.j && m.k <= MatchAt(s, i).value.k
      ensures m.k == MatchAt(s, i).value.k ==> m.l <= MatchAt(s, i).value.l
    {
      FitsNoFurther(s, i, m);
    }
  }

  lemma FitsNoFurther(s: string, i: nat, m: Match)
    requires i <= |s| && Fits(s, i, m)
    ensures MatchAt(s, i).Some? && m.j == MatchAt(s, i).value.j && m.k <= MatchAt(s, i).value.k
    ensures m.k == MatchAt(s, i).value.k ==> m.l <= MatchAt(s, i).value.l
  {
    RunIsLongest(s, i, m.j);
    RunIsLongest(s, m.j + 1, m.k);
    if m.l > m.k {
      RunIsLongest(s, m.k + 1, m.l);
    }
  }

  /** The leftmost position with a match. */
  function Search(s: string, i: nat): (r: Option<nat>)
    requires i <= |s|
    decreases |s| - i
  {
    if MatchAt(s, i).Some? then Some(i) else if i < |s| then Search(s, i + 1) else None
  }

  lemma {:induction false} SearchIsLeftmost(s: string, i: nat)
    requires i <= |s|
    ensures Search(s, i).Some? ==> i <= Search(s, i).value <= |s| && MatchAt(s, Search(s, i).value).Some?
    ensures forall p :: i <= p <= |s| && (Search(s, i).Some? ==> p < Search(s, i).value) ==> MatchAt(s, p).None?
    decreases |s| - i
  {
    if MatchAt(s, i).None? && i < |s| {
      SearchIsLeftmost(s, i + 1);
    }
  }

  /** `parse_version`; the empty text and a missing one give nothing. */
  function Parse(s: string): Option<DatabaseVersion> {
    match Search(s, 0)
    case None => None
    case Some(i) => Read(s, i)
  }

  function Read(s: string, i: nat): Option<DatabaseVersion> {
    if i > |s| || MatchAt(s, i).None? then None
    else
      MatchAtIsGreedy(s, i);
      var m := MatchAt(s, i).value;
      Some(DatabaseVersion(Number(s[i..m.j]), Number(s[m.j + 1..m.k]),
                           if m.l > m.k then Number(s[m.k + 1..m.l]) else 0, None, Some(s)))
  }

  // ---------------------------------------------------------------- banners

  /** The text does not carry the numbers on. */
  predicate EndsNumbers(v: DatabaseVersion, tail: string) {
    && (tail != "" ==> !Digit(tail[0]))
    && (v.patch == 0 && |tail| >= 2 ==> !(tail[0] == '.' && Digit(tail[1])))
  }

  lemma RunEnds(s: string, i: nat, e: nat)
    requires i <= e <= |s| && Digits(s[i..e]) && (e < |s| ==> !Digit(s[e]))
    ensures Run(s, i) == e
  {
    RunIsLongest(s, i, e);
    assert forall k :: i <= k < e ==> s[k] == s[i..e][k - i];
  }

  lemma Peel(s: string, i: nat, a: string, b: string)
    requires i <= |s| && s[i..] == a + b
    ensures i + |a| <= |s| && s[i..i + |a|] == a && s[i + |a|..] == b
  {
    assert |s| == i + |a + b|;
    assert s[i..i + |a|] == s[i..][..|a|] == a;
    assert s[i + |a|..] == s[i..][|a|..] == b;
  }

  /** The text from the end of the minor number on. */
  function AfterMinor(v: DatabaseVersion, tail: string): string {
    if v.patch > 0 then "." + (Decimal(v.patch) + tail) else tail
  }

  lemma CoreShape(v: DatabaseVersion, tail: string)
    ensures Core(v) + tail == Decimal(v.major) + ("." + (Decimal(v.minor) + AfterMinor(v, tail)))
  {
    var major, minor, patch := Decimal(v.major), Decimal(v.minor), Decimal(v.patch);
    assert major + "." + minor + ("." + patch) + tail == major + ("." + (minor + ("." + (patch + tail))));
    assert major + "." + minor + "" + tail == major + ("." + (minor + tail));
  }

  /** Where the major number ends in the numbers of `v` at `i`, and where the minor one does. */
  function MajorEnd(v: DatabaseVersion, i: nat): nat {
    i + |Decimal(v.major)|
  }

  function MinorEnd(v: DatabaseVersion, i: nat): nat {
    MajorEnd(v, i) + 1 + |Decimal(v.minor)|
  }

  lemma CoreStands(s: string, i: nat, v: DatabaseVersion, tail: string)
    requires i <= |s| && s[i..] == Core(v) + tail
    ensures var j, k := MajorEnd(v, i), MinorEnd(v, i);
      && k <= |s| && s[i..j] == Decimal(v.major) && s[j] == '.'
      && s[j + 1..k] == Decimal(v.minor) && s[k..] == AfterMinor(v, tail)
  {
    CoreShape(v, tail);
    var minor, rest := Decimal(v.minor), AfterMinor(v, tail);
    var j := MajorEnd(v, i);
    Peel(s, i, Decimal(v.major), "." + (minor + rest));
    Peel(s, j, ".", minor + rest);
    assert s[j] == s[j..j + 1][0];
    Peel(s, j + 1, minor, rest);
  }

  lemma PatchStands(s: string, k: nat, v: DatabaseVersion, tail: string)
    requires k <= |s| && s[k..] == AfterMinor(v, tail) && v.patch > 0
    ensures var l := k + 1 + |Decimal(v.patch)|;
      l <= |s| && s[k] == '.' && s[k + 1..l] == Decimal(v.patch) && s[l..] == tail
  {
    Peel(s, k, ".", Decimal(v.patch) + tail);
    assert s[k] == s[k..k + 1][0];
    Peel(s, k + 1, Decimal(v.patch), tail);
  }

  /** What the greedy match gives once it is known where the runs of digits end. */
  lemma ReadRuns(s: string, i: nat, j: nat, k: nat, l: nat)
    requires i < j < |s| && Run(s, i) == j && s[j] == '.' && j + 1 < k <= |s| && Run(s, j + 1) == k
    requires
      if l == k then k < |s| && s[k] == '.' ==> Run(s, k + 1) == k + 1
      else k < |s| && s[k] == '.' && k + 1 < l && Run(s, k + 1) == l
    ensures MatchAt(s, i) == Some(Match(j, k, l))
    ensures Read(s, i) == Some(DatabaseVersion(Number(s[i..j]), Number(s[j + 1..k]),
                                               if l > k then Number(s[k + 1..l]) else 0, None, Some(s)))
  {
  }

  /** The greedy match reads the components wherever the numbers stand. */
  lemma ReadCore(s: string, i: nat, v: DatabaseVersion, tail: string)
    requires i <= |s| && s[i..] == Core(v) + tail && EndsNumbers(v, tail)
    ensures MatchAt(s, i).Some?
    ensures Read(s, i) == Some(DatabaseVersion(v.major, v.minor, v.patch, None, Some(s)))
  {
    var j, k := MajorEnd(v, i), MinorEnd(v, i);
    CoreStands(s, i, v, tail);
    MinorRunEnds(s, k, v, tail);
    BothRuns(s, i, j, k, v);
    if v.patch > 0 {
      PatchRun(s, k, v, tail);
    }
    ReadNumbers(s, i, j, k, if v.patch > 0 then k + 1 + |Decimal(v.patch)| else k, v);
  }

  lemma ReadNumbers(s: string, i: nat, j: nat, k: nat, l: nat, v: DatabaseVersion)
    requires i < j < |s| && Run(s, i) == j && s[j] == '.' && j + 1 < k <= |s| && Run(s, j + 1) == k
    requires
      if l == k then k < |s| && s[k] == '.' ==> Run(s, k + 1) == k + 1
      else k < |s| && s[k] == '.' && k + 1 < l && Run(s, k + 1) == l
    requires s[i..j] == Decimal(v.major) && s[j + 1..k] == Decimal(v.minor)
    requires if l == k then v.patch == 0 else s[k + 1..l] == Decimal(v.patch)
    ensures MatchAt(s, i).Some?
    ensures Read(s, i) == Some(DatabaseVersion(v.major, v.minor, v.patch, None, Some(s)))
  {
    ReadRuns(s, i, j, k, l);
    NumberIs(s[i..j], v.major);
    NumberIs(s[j + 1..k], v.minor);
    if l > k {
      NumberIs(s[k + 1..l], v.patch);
    }
  }

  lemma NumberIs(digits: string, n: nat)
    requires digits == Decimal(n)
    ensures Digits(digits) && Number(digits) == n
  {
    DecimalRoundTrip(n);
  }

  lemma BothRuns(s: string, i: nat, j: nat, k: nat, v: DatabaseVersion)
    requires i <= j < k <= |s| && s[i..j] == Decimal(v.major) && s[j] == '.'
    requires s[j + 1..k] == Decimal(v.minor) && (k < |s| ==> !Digit(s[k]))
    ensures Run(s, i) == j && Run(s, j + 1) == k
  {
    RunIs(s, i, j, v.major);
    RunIs(s, j + 1, k, v.minor);
  }

  lemma RunIs(s: string, i: nat, e: nat, n: nat)
    requires i <= e <= |s| && s[i..e] == Decimal(n) && (e < |s| ==> !Digit(s[e]))
    ensures Run(s, i) == e
  {
    RunEnds(s, i, e);
  }

  lemma PatchRun(s: string, k: nat, v: DatabaseVersion, tail: string)
    requires k <= |s| && s[k..] == AfterMinor(v, tail) && v.patch > 0 && EndsNumbers(v, tail)
    ensures var l := k + 1 + |Decimal(v.patch)|;
      l <= |s| && s[k] == '.' && s[k + 1..l] == Decimal(v.patch) && Run(s, k + 1) == l
  {
    PatchStands(s, k, v, tail);
    var l := k + 1 + |Decimal(v.patch)|;
    if l < |s| {
      assert s[l] == s[l..][0];
    }
    RunIs(s, k + 1, l, v.patch);
  }

  lemma MinorRunEnds(s: string, k: nat, v: DatabaseVersion, tail: string)
    requires k <= |s| && s[k..] == AfterMinor(v, tail) && EndsNumbers(v, tail)
    ensures k < |s| ==> !Digit(s[k])
    ensures v.patch == 0 && k < |s| && s[k] == '.' ==> Run(s, k + 1) == k + 1
  {
    var rest := AfterMinor(v, tail);
    assert k < |s| ==> s[k] == rest[0];
    assert k + 1 < |s| ==> s[k + 1] == rest[1];
  }

  /** The numbers are found in any banner: after text without digits, before any that does not carry them on. */
  lemma ParseBanner(head: string, v: DatabaseVersion, tail: string)
    requires forall k :: 0 <= k < |head| ==> !Digit(head[k])
    requires EndsNumbers(v, tail)
    ensures var s := head + Core(v) + tail;
      Parse(s) == Some(DatabaseVersion(v.major, v.minor, v.patch, None, Some(s)))
  {
    var s := head + Core(v) + tail;
    assert s[|head|..] == Core(v) + tail;
    ReadCore(s, |head|, v, tail);
    FoundAt(s, |head|);
  }

  lemma FoundAt(s: string, i: nat)
    requires i <= |s| && MatchAt(s, i).Some?
    requires forall k :: 0 <= k < i ==> !Digit(s[k])
    ensures Search(s, 0) == Some(i)
  {
    SearchIsLeftmost(s, 0);
    forall p: nat | p < i ensures MatchAt(s, p).None? {
      assert !Digit(s[p]);
    }
  }

  /** Printing a version and parsing it back gives the same components, whatever the build text. */
  lemma PrintRoundTrip(v: DatabaseVersion)
    ensures Parse(Print(v)) == Some(DatabaseVersion(v.major, v.minor, v.patch, None, Some(Print(v))))
  {
    BuildEnds(v);
    ParseBanner("", v, BuildText(v));
    assert "" + Core(v) == Core(v);
  }

  lemma BuildEnds(v: DatabaseVersion)
    ensures EndsNumbers(v, BuildText(v))
  {
    assert BuildText(v) != "" ==> BuildText(v)[0] == ' ';
  }

  // ---------------------------------------------------------------- matching

  /** `version_matches_spec` for a parsed version. */
  predicate MatchesSpec(actual: Option<DatabaseVersion>, spec: string) {
    if actual.None? then false
    else if spec != "" && spec[|spec| - 1] == '+' then
      var minimum := Parse(spec[..|spec| - 1]);
      minimum.Some? && AtLeast(actual.value, minimum.value)
    else
      var exact := Parse(spec);
      exact.Some? && Components(actual.value) == Components(exact.value)
  }

  /**
   Against any text: one that ends with a plus is met by what does not precede the version before the
   plus, any other by the same components; and nothing is met where either side cannot be read.
   */
  lemma SpecMeans(actual: Option<DatabaseVersion>, text: string)
    ensures MatchesSpec(actual, text + "+") <==>
      actual.Some? && Parse(text).Some? && !Precedes(Components(actual.value), Components(Parse(text).value))
    ensures text == "" || text[|text| - 1] != '+' ==>
      (MatchesSpec(actual, text) <==>
        actual.Some? && Parse(text).Some? && Components(actual.value) == Components(Parse(text).value))
  {
    var spec := text + "+";
    assert spec[..|spec| - 1] == text;
    if actual.Some? && Parse(text).Some? {
      AtLeastIsLexicographic(actual.value, Parse(text).value);
    }
  }

  /** Versions as they are printed. */
  lemma PrintedVersions()
    ensures Print(DatabaseVersion(16, 2, 0, None, None)) == "16.2"
    ensures Print(DatabaseVersion(8, 0, 36, Some(""), None)) == "8.0.36"
    ensures Print(DatabaseVersion(9, 0, 1, Some("Ubuntu"), None)) == "9.0.1 (Ubuntu)"
  {
    PrintedMinor();
    PrintedPatch();
    PrintedBuild();
  }

  lemma PrintedMinor()
    ensures Print(DatabaseVersion(16, 2, 0, None, None)) == "16.2"
  {
    assert Decimal(16) == Decimal(1) + "6";
  }

  lemma PrintedPatch()
    ensures Print(DatabaseVersion(8, 0, 36, Some(""), None)) == "8.0.36"
  {
    assert Decimal(36) == Decimal(3) + "6";
  }

  lemma PrintedBuild()
    ensures Print(DatabaseVersion(9, 0, 1, Some("Ubuntu"), None)) == "9.0.1 (Ubuntu)"
  {
    assert Core(DatabaseVersion(9, 0, 1, Some("Ubuntu"), None)) == "9.0.1";
  }

  /** A printed version meets a printed minimum exactly when it does not precede it. */
  lemma MinimumMeans(v: DatabaseVersion, minimum: DatabaseVersion)
    ensures MatchesSpec(Parse(Print(v)), Print(minimum) + "+") <==> !Precedes(Components(v), Components(minimum))
  {
    PrintRoundTrip(v);
    PrintRoundTrip(minimum);
    var spec := Print(minimum) + "+";
    assert spec[..|spec| - 1] == Print(minimum);
    AtLeastIsLexicographic(Parse(Print(v)).value, Parse(Print(minimum)).value);
  }

  /** And a printed version as the specification exactly when the components are the same. */
  lemma ExactMeans(v: DatabaseVersion, exact: DatabaseVersion)
    ensures MatchesSpec(Parse(Print(v)), Print(exact)) <==> Components(v) == Components(exact)
  {
    PrintRoundTrip(v);
    PrintRoundTrip(exact);
    PrintEnds(exact);
  }

  lemma PrintEnds(v: DatabaseVersion)
    ensures var s := Print(v);
      s != "" && s[|s| - 1] != '+'
  {
    var s, build := Print(v), BuildText(v);
    if build != "" {
      assert s[|s| - 1] == build[|build| - 1];
    } else {
      var last := if v.patch > 0 then Decimal(v.patch) else Decimal(v.minor);
      assert s[|s| - 1] == last[|last| - 1];
    }
  }
}
