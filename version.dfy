/**
 * Firmware version checks: `is_a_version` matches `\d+\.\d+\.\d+` at the
 * start of the text, `is_supported_version` takes the leading `\d+\.\d+`
 * and looks it up in the list of supported major.minor versions.
 */
module Version {
  import opened Wrappers
  import opened Text

  /** The major.minor versions this library talks to. */
  const SupportVersions: seq<string> := ["0.9"]

  /** Python's `re.match(...).group()` on a failed match: `None.group()`. */
  datatype VersionError = AttributeError

  /** End of the run of digits that starts at `i`. */
  function DigitRunEnd(s: string, i: nat): (r: nat)
    requires i <= |s|
    ensures i <= r <= |s|
    ensures forall k :: i <= k < r ==> IsDigit(s[k])
    ensures r < |s| ==> !IsDigit(s[r])
    decreases |s| - i
  {
    if i < |s| && IsDigit(s[i]) then DigitRunEnd(s, i + 1) else i
  }

  /** A digit run that ends at a non-digit is found by DigitRunEnd. */
  lemma {:induction false} DigitRunEndAt(s: string, i: nat, j: nat)
    requires i <= j <= |s|
    requires forall k :: i <= k < j ==> IsDigit(s[k])
    requires j == |s| || !IsDigit(s[j])
    ensures DigitRunEnd(s, i) == j
    decreases j - i
  {
    if i < j {
      DigitRunEndAt(s, i + 1, j);
    }
  }

  /** Where the match of `\d+\.\d+` at the start of `s` ends, if it matches.
      The two digit runs meet a `.` and a non-digit, so the greedy match is
      the only one. */
  function MajorMinorEnd(s: string): (r: Option<nat>)
    ensures r.Some? ==> r.value <= |s|
  {
    var a := DigitRunEnd(s, 0);
    if 0 < a < |s| && s[a] == '.' then
      var b := DigitRunEnd(s, a + 1);
      if b > a + 1 then Some(b) else None
    else None
  }

  /** `is_a_version`: `\d+\.\d+\.\d+` matches at the start (anything may follow). */
  predicate IsAVersion(v: string) {
    match MajorMinorEnd(v)
    case None => false
    case Some(b) => b < |v| && v[b] == '.' && DigitRunEnd(v, b + 1) > b + 1
  }

  /** `is_supported_version`: the leading major.minor is in SupportVersions. */
  function IsSupportedVersion(v: string): Result<bool, VersionError>
  {
    match MajorMinorEnd(v)
    case None => Err(AttributeError)
    case Some(b) => Ok(Listed(SupportVersions, v[..b]))
  }

  /** The scan over the list, returning at the first equal entry. */
  function Listed(versions: seq<string>, major: string): bool
  {
    if versions == [] then false
    else if versions[0] == major then true
    else Listed(versions[1..], major)
  }

  lemma {:induction false} ListedIsMembership(versions: seq<string>, major: string)
    ensures Listed(versions, major) <==> major in versions
  {
    if versions != [] && versions[0] != major {
      ListedIsMembership(versions[1..], major);
      assert versions == [versions[0]] + versions[1..];
    }
  }

  /** Digits, a dot, digits, a dot, digits: the prefix `v[..c]` with the dots
      at `a` and `b`. */
  ghost predicate VersionPrefixAt(v: string, a: nat, b: nat, c: nat) {
    0 < a && a + 1 < b && b + 1 < c <= |v|
    && v[a] == '.' && v[b] == '.'
    && (forall k :: 0 <= k < a ==> IsDigit(v[k]))
    && (forall k :: a < k < b ==> IsDigit(v[k]))
    && (forall k :: b < k < c ==> IsDigit(v[k]))
  }

  /** `is_a_version` accepts exactly the texts that begin with
      digits.digits.digits, whatever follows. */
  lemma IsAVersionIff(v: string)
    ensures IsAVersion(v) <==> exists a: nat, b: nat, c: nat :: VersionPrefixAt(v, a, b, c)
  {
    if IsAVersion(v) {
      var a := DigitRunEnd(v, 0);
      var b := MajorMinorEnd(v).value;
      assert VersionPrefixAt(v, a, b, b + 2);
    }
    if exists a: nat, b: nat, c: nat :: VersionPrefixAt(v, a, b, c) {
      var a: nat, b: nat, c: nat :| VersionPrefixAt(v, a, b, c);
      DigitRunEndAt(v, 0, a);
      DigitRunEndAt(v, a + 1, b);
      assert MajorMinorEnd(v) == Some(b);
    }
  }

  /** A text `is_a_version` accepts never makes `is_supported_version` fail. */
  lemma VersionHasMajorMinor(v: string)
    requires IsAVersion(v)
    ensures IsSupportedVersion(v).Ok?
  {
  }

  /** The major.minor taken is the longest: digits, a dot, digits, and then
      the text ends or a non-digit follows. */
  lemma MajorMinorIsLongest(v: string)
    requires MajorMinorEnd(v).Some?
    ensures var b := MajorMinorEnd(v).value;
      exists a :: 0 < a < b - 1 && v[a] == '.'
        && (forall k :: 0 <= k < b && k != a ==> IsDigit(v[k]))
        && (b == |v| || !IsDigit(v[b]))
  {
    var a := DigitRunEnd(v, 0);
    assert 0 < a < MajorMinorEnd(v).value - 1 && v[a] == '.';
  }

  /** The text begins with digits, a dot at `a` and a digit after it. */
  ghost predicate LeadingMajorMinor(v: string, a: nat) {
    0 < a && a + 1 < |v| && v[a] == '.' && IsDigit(v[a + 1])
    && (forall k :: 0 <= k < a ==> IsDigit(v[k]))
  }

  /** The match exists exactly when the text begins with digits.digits, so
      `is_supported_version` fails exactly when it does not. */
  lemma MajorMinorFoundIff(v: string)
    ensures MajorMinorEnd(v).Some? <==> exists a: nat :: LeadingMajorMinor(v, a)
    ensures IsSupportedVersion(v).Err? <==> !exists a: nat :: LeadingMajorMinor(v, a)
  {
    if MajorMinorEnd(v).Some? {
      assert LeadingMajorMinor(v, DigitRunEnd(v, 0));
    }
    if exists a: nat :: LeadingMajorMinor(v, a) {
      var a: nat :| LeadingMajorMinor(v, a);
      DigitRunEndAt(v, 0, a);
      assert DigitRunEnd(v, a + 1) > a + 1;
    }
  }

  /** With the list ["0.9"]: a version is supported exactly when it starts
      with "0.9" and no further digit follows the 9. */
  lemma SupportedIff(v: string)
    ensures IsSupportedVersion(v) == Ok(true) <==>
      StartsWith(v, "0.9") && (|v| == 3 || !IsDigit(v[3]))
  {
    ListedIsMembership(SupportVersions, "0.9");
    if StartsWith(v, "0.9") && (|v| == 3 || !IsDigit(v[3])) {
      DigitRunEndAt(v, 0, 1);
      DigitRunEndAt(v, 2, 3);
      assert MajorMinorEnd(v) == Some(3);
      assert v[..3] == "0.9";
    }
    if IsSupportedVersion(v) == Ok(true) {
      var b := MajorMinorEnd(v).value;
      ListedIsMembership(SupportVersions, v[..b]);
      assert v[..b] == "0.9";
      assert |v[..b]| == 3;
      assert v[..3] == "0.9";
    }
  }

  /** The current firmware line is accepted. */
  lemma SupportedExampleCurrent()
    ensures IsAVersion("0.9.3") && IsSupportedVersion("0.9.3") == Ok(true)
  {
    IsAVersionIff("0.9.3");
    assert VersionPrefixAt("0.9.3", 1, 3, 5);
    SupportedIff("0.9.3");
  }

  /** "0.95" is a different major.minor from "0.9". */
  lemma SupportedExampleLongerMinor()
    ensures IsAVersion("0.95.1") && IsSupportedVersion("0.95.1") == Ok(false)
  {
    IsAVersionIff("0.95.1");
    assert VersionPrefixAt("0.95.1", 1, 4, 6);
    SupportedIff("0.95.1");
  }

  lemma SupportedExampleNewerMajor()
    ensures IsAVersion("1.0.0") && IsSupportedVersion("1.0.0") == Ok(false)
  {
    IsAVersionIff("1.0.0");
    assert VersionPrefixAt("1.0.0", 1, 3, 5);
    SupportedIff("1.0.0");
  }

  /** Two parts are not a version, yet they are supported. */
  lemma SupportedExampleTwoParts()
    ensures !IsAVersion("0.9") && IsSupportedVersion("0.9") == Ok(true)
  {
    SupportedIff("0.9");
    DigitRunEndAt("0.9", 2, 3);
  }

  /** A text not starting with a digit makes `is_supported_version` fail. */
  lemma SupportedExampleNoDigits()
    ensures IsSupportedVersion("v0.9.3") == Err(AttributeError)
  {
    assert DigitRunEnd("v0.9.3", 0) == 0;
  }
}
