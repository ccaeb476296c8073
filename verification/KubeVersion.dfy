/** Kube-aware version ordering, on the version texts themselves. */
module KubeVersion {
  import opened Prelude

  /** Alphabetical comparison: negative, zero or positive. */
  function LexCompare(a: string, b: string): int {
    if a == [] && b == [] then 0
    else if a == [] then -1
    else if b == [] then 1
    else if a[0] < b[0] then -1
    else if a[0] > b[0] then 1
    else LexCompare(a[1..], b[1..])
  }

  lemma {:induction false} LexFlips(a: string, b: string)
    ensures LexCompare(a, b) == -LexCompare(b, a)
  {
    if a != [] && b != [] && a[0] == b[0] {
      LexFlips(a[1..], b[1..]);
    }
  }

  lemma {:induction false} LexTransitive(a: string, b: string, c: string)
    requires LexCompare(a, b) <= 0 && LexCompare(b, c) <= 0
    ensures LexCompare(a, c) <= 0
  {
    if a != [] && b != [] && c != [] && a[0] == b[0] == c[0] {
      LexTransitive(a[1..], b[1..], c[1..]);
    }
  }

  /** The order of texts, character by character. */
  ghost predicate AlphaBefore(a: string, b: string) {
    exists i: nat :: i <= |a| && i < |b| && a[..i] == b[..i] && (i == |a| || a[i] < b[i])
  }

  lemma {:induction false} LexMeans(a: string, b: string)
    ensures LexCompare(a, b) < 0 <==> AlphaBefore(a, b)
    ensures LexCompare(a, b) == 0 <==> a == b
  {
    if a == [] || b == [] {
      if b != [] {
        assert a[..0] == b[..0];
      }
    } else {
      LexMeans(a[1..], b[1..]);
      if a[0] == b[0] {
        assert a == [a[0]] + a[1..] && b == [b[0]] + b[1..];
        if AlphaBefore(a[1..], b[1..]) {
          var i: nat :| i <= |a[1..]| && i < |b[1..]| && a[1..][..i] == b[1..][..i] && (i == |a[1..]| || a[1..][i] < b[1..][i]);
          assert a[..i + 1] == [a[0]] + a[1..][..i] && b[..i + 1] == [b[0]] + b[1..][..i];
        }
        if AlphaBefore(a, b) {
          var i: nat :| i <= |a| && i < |b| && a[..i] == b[..i] && (i == |a| || a[i] < b[i]);
          assert a[1..][..i - 1] == a[..i][1..] && b[1..][..i - 1] == b[..i][1..];
        }
      } else {
        assert a[..0] == b[..0];
        if AlphaBefore(a, b) {
          var i: nat :| i <= |a| && i < |b| && a[..i] == b[..i] && (i == |a| || a[i] < b[i]);
          assert forall j | 0 <= j < i :: a[..i][j] == a[j] && b[..i][j] == b[j];
        }
      }
    }
  }

  // ------------------------------------------------------------- parsing

  datatype Kind = Alpha | Beta | Ga

  datatype Parsed = Parsed(major: nat, kind: Kind, minor: nat)

  predicate IsDigit(c: char) {
    '0' <= c <= '9'
  }

  function DigitsEnd(s: string, i: nat): (r: nat)
    requires i <= |s|
    ensures i <= r <= |s|
    decreases |s| - i
  {
    if i < |s| && IsDigit(s[i]) then DigitsEnd(s, i + 1) else i
  }

  function DigitsValue(s: string): nat {
    if s == [] then 0 else 10 * DigitsValue(s[..|s| - 1]) + if IsDigit(s[|s| - 1]) then s[|s| - 1] as int - '0' as int else 0
  }

  /** A non-empty run of digits that fits an `i64`. */
  function ParseNumber(s: string): Option<nat> {
    if s == [] || DigitsEnd(s, 0) != |s| || DigitsValue(s) > I64_MAX then None else Some(DigitsValue(s))
  }

  /** `parse_kube_version`: `v<major>`, `v<major>alpha<minor>` or
      `v<major>beta<minor>`. */
  function ParseKubeVersion(v: string): Option<Parsed> {
    if v == [] || v[0] != 'v' then None
    else
      var rest := v[1..];
      var end := DigitsEnd(rest, 0);
      var major, tail := ParseNumber(rest[..end]), rest[end..];
      if major.None? then None
      else if tail == "" then Some(Parsed(major.value, Ga, 0))
      else
        var alpha := "alpha" <= tail;
        if !alpha && !("beta" <= tail) then None
        else
          var minor := ParseNumber(if alpha then tail[5..] else tail[4..]);
          if minor.None? then None else Some(Parsed(major.value, if alpha then Alpha else Beta, minor.value))
  }

  function Rank(k: Kind): int {
    match k case Alpha => 0 case Beta => 1 case Ga => 2
  }

  /** `compare_kube_aware_version_strings` */
  function Compare(v1: string, v2: string): int {
    if v1 == v2 then 0
    else
      match (ParseKubeVersion(v1), ParseKubeVersion(v2))
      case (None, None) => LexCompare(v2, v1)
      case (None, Some(_)) => -1
      case (Some(_), None) => 1
      case (Some(a), Some(b)) =>
        if a.kind != b.kind then Rank(a.kind) - Rank(b.kind)
        else if a.major != b.major then a.major - b.major
        else a.minor - b.minor
  }

  /** The comparison is a total preorder over all texts: every two versions
      compare one way or the other, consistently, and "at least as high" is
      transitive. */
  lemma CompareIsPreorder(a: string, b: string, c: string)
    ensures Compare(a, b) == -Compare(b, a)
    ensures Compare(a, b) >= 0 && Compare(b, c) >= 0 ==> Compare(a, c) >= 0
  {
    LexFlips(a, b);
    if LexCompare(b, a) >= 0 && LexCompare(c, b) >= 0 {
      LexFlips(b, a);
      LexFlips(c, b);
      LexTransitive(a, b, c);
      LexFlips(a, c);
    }
  }

  // --------------------------------------------- what the versions are

  /** Digits for `n`, which fits an `i64`; leading zeros are allowed. */
  predicate Numeral(s: string, n: nat) {
    s != "" && (forall k | 0 <= k < |s| :: IsDigit(s[k])) && DigitsValue(s) == n <= I64_MAX
  }

  function Suffix(kind: Kind): string {
    match kind case Alpha => "alpha" case Beta => "beta" case Ga => ""
  }

  /** `s` is `v<major>`, or `v<major>alpha<minor>` or `v<major>beta<minor>`. */
  ghost predicate Spells(s: string, v: Parsed) {
    exists major, minor ::
      && Numeral(major, v.major)
      && (if v.kind.Ga? then minor == "" && v.minor == 0 else Numeral(minor, v.minor))
      && s == "v" + major + (Suffix(v.kind) + minor)
  }

  function Printed(v: Parsed): string {
    "v" + Decimal(v.major) + (Suffix(v.kind) + if v.kind.Ga? then "" else Decimal(v.minor))
  }

  lemma {:induction false} DecimalValue(n: nat)
    ensures DigitsValue(Decimal(n)) == n
  {
    var s := Decimal(n);
    if n >= 10 {
      assert s[..|s| - 1] == Decimal(n / 10);
      DecimalValue(n / 10);
    } else {
      assert s[..0] == [];
    }
  }

  lemma {:induction false} DigitsRun(s: string, i: nat)
    requires i <= |s|
    ensures var r := DigitsEnd(s, i); (forall k | i <= k < r :: IsDigit(s[k])) && (r < |s| ==> !IsDigit(s[r]))
    decreases |s| - i
  {
    if i < |s| && IsDigit(s[i]) {
      DigitsRun(s, i + 1);
    }
  }

  lemma NumberIsNumeral(s: string, n: nat)
    ensures ParseNumber(s) == Some(n) <==> Numeral(s, n)
  {
    DigitsRun(s, 0);
  }

  /** A run of digits ends where something else starts. */
  lemma {:induction false} RunEnds(digits: string, tail: string)
    requires (forall k | 0 <= k < |digits| :: IsDigit(digits[k])) && (tail == "" || !IsDigit(tail[0]))
    ensures DigitsEnd(digits + tail, 0) == |digits|
  {
    var s := digits + tail;
    DigitsRun(s, 0);
    assert forall k | 0 <= k < |digits| :: s[k] == digits[k];
    assert tail != "" ==> s[|digits|] == tail[0];
  }

  /** Exactly the spellings of a version parse to it. */
  lemma ParsesExactly(s: string, v: Parsed)
    ensures ParseKubeVersion(s) == Some(v) <==> Spells(s, v)
  {
    if Spells(s, v) {
      SpellingParses(s, v);
    }
    if ParseKubeVersion(s) == Some(v) {
      ParsedSpells(s, v);
    }
  }

  lemma SpellingParses(s: string, v: Parsed)
    requires Spells(s, v)
    ensures ParseKubeVersion(s) == Some(v)
  {
    var major, minor :|
      && Numeral(major, v.major)
      && (if v.kind.Ga? then minor == "" && v.minor == 0 else Numeral(minor, v.minor))
      && s == "v" + major + (Suffix(v.kind) + minor);
    var tail := Suffix(v.kind) + minor;
    HeadParses(s, major, tail);
    NumberIsNumeral(major, v.major);
    if !v.kind.Ga? {
      NumberIsNumeral(minor, v.minor);
      TailParses(v.kind, minor);
    }
  }

  lemma HeadParses(s: string, major: string, tail: string)
    requires s == "v" + major + tail
    requires (forall k | 0 <= k < |major| :: IsDigit(major[k])) && (tail == "" || !IsDigit(tail[0]))
    ensures s[0] == 'v' && DigitsEnd(s[1..], 0) == |major| && s[1..][..|major|] == major && s[1..][|major|..] == tail
  {
    assert s[1..] == major + tail;
    RunEnds(major, tail);
  }

  lemma TailParses(kind: Kind, minor: string)
    requires kind != Ga
    ensures var tail := Suffix(kind) + minor;
            Suffix(kind) <= tail && tail[|Suffix(kind)|..] == minor && ("alpha" <= tail <==> kind == Alpha)
  {
    assert (Suffix(kind) + minor)[0] == Suffix(kind)[0];
  }

  lemma ParsedSpells(s: string, v: Parsed)
    requires ParseKubeVersion(s) == Some(v)
    ensures Spells(s, v)
  {
    var rest := s[1..];
    var end := DigitsEnd(rest, 0);
    var major, tail := rest[..end], rest[end..];
    NumberIsNumeral(major, v.major);
    assert s == "v" + major + tail;
    var minor := if v.kind.Ga? then "" else tail[|Suffix(v.kind)|..];
    if v.kind.Ga? {
      assert tail == Suffix(v.kind) + minor;
    } else {
      NumberIsNumeral(minor, v.minor);
      assert tail == Suffix(v.kind) + minor;
    }
  }

  /** Printing a version and parsing the text gives it back. */
  lemma PrintedParses(v: Parsed)
    requires v.major <= I64_MAX && v.minor <= I64_MAX && (v.kind.Ga? ==> v.minor == 0)
    ensures ParseKubeVersion(Printed(v)) == Some(v)
  {
    DecimalValue(v.major);
    DecimalValue(v.minor);
    assert Numeral(Decimal(v.major), v.major);
    assert Spells(Printed(v), v);
    ParsesExactly(Printed(v), v);
  }

  /** GA is above beta and beta above alpha, whatever the numbers; within a kind
      the higher major is above, then the higher minor. */
  lemma VersionsRank(a: string, v: Parsed, b: string, w: Parsed)
    requires Spells(a, v) && Spells(b, w)
    ensures v.kind == Ga && w.kind == Beta ==> Compare(a, b) > 0
    ensures v.kind == Ga && w.kind == Alpha ==> Compare(a, b) > 0
    ensures v.kind == Beta && w.kind == Alpha ==> Compare(a, b) > 0
    ensures v.kind == w.kind && v.major > w.major ==> Compare(a, b) > 0
    ensures v.kind == w.kind && v.major == w.major && v.minor > w.minor ==> Compare(a, b) > 0
    ensures v == w ==> Compare(a, b) == 0
  {
    ParsesExactly(a, v);
    ParsesExactly(b, w);
  }

  /** A version is above every other text, and other texts come in reverse
      alphabetical order. */
  lemma OthersRank(a: string, b: string)
    requires forall w :: !Spells(b, w)
    ensures (exists v :: Spells(a, v)) ==> Compare(a, b) > 0
    ensures (forall v :: !Spells(a, v)) ==> (Compare(a, b) > 0 <==> AlphaBefore(a, b))
  {
    if ParseKubeVersion(b).Some? {
      ParsesExactly(b, ParseKubeVersion(b).value);
    }
    if v :| Spells(a, v) {
      ParsesExactly(a, v);
    } else {
      if ParseKubeVersion(a).Some? {
        ParsesExactly(a, ParseKubeVersion(a).value);
      }
      LexMeans(a, b);
      LexFlips(a, b);
      LexFlips(b, a);
    }
  }
}
