/**
 * Exported entry-point names: `_MIST_PLUGIN_<index>_<version>_MAIN`, both
 * numbers in decimal without leading zeros. A plugin may export one symbol
 * per supported API version.
 */
module EntrySymbols {

  import opened Optional

  const Prefix: string := "_MIST_PLUGIN_"
  const Suffix: string := "_MAIN"

  predicate IsDigit(c: char) {
    '0' <= c <= '9'
  }

  function DigitChar(d: nat): (c: char)
    requires d < 10
    ensures IsDigit(c)
  {
    ('0' as int + d) as char
  }

  function DigitValue(c: char): nat
    requires IsDigit(c)
  {
    c as int - '0' as int
  }

  /** Decimal rendering of `n`. */
  function Decimal(n: nat): (s: string)
    ensures |s| > 0
    ensures forall k :: 0 <= k < |s| ==> IsDigit(s[k])
  {
    if n < 10 then [DigitChar(n)] else Decimal(n / 10) + [DigitChar(n % 10)]
  }

  /** The value of a string of decimal digits. */
  function DigitsValue(s: string): nat
    requires forall k :: 0 <= k < |s| ==> IsDigit(s[k])
  {
    if |s| == 0 then 0 else DigitsValue(s[..|s| - 1]) * 10 + DigitValue(s[|s| - 1])
  }

  /** A non-empty digit string with no leading zero (other than "0" itself). */
  predicate Canonical(s: string) {
    && |s| > 0
    && (forall k :: 0 <= k < |s| ==> IsDigit(s[k]))
    && (s[0] == '0' ==> |s| == 1)
  }

  function ParseDecimal(s: string): Option<nat> {
    if Canonical(s) then Some(DigitsValue(s)) else None
  }

  lemma {:induction false} DecimalNoLeadingZero(n: nat)
    ensures Decimal(n)[0] == '0' <==> n == 0
  {
    if n >= 10 {
      DecimalNoLeadingZero(n / 10);
    }
  }

  lemma {:induction false} DecimalValue(n: nat)
    ensures DigitsValue(Decimal(n)) == n
  {
    if n >= 10 {
      var s := Decimal(n);
      assert s[..|s| - 1] == Decimal(n / 10);
      DecimalValue(n / 10);
    }
  }

  /** Parsing the decimal rendering of `n` gives `n` back. */
  lemma DecimalRoundTrip(n: nat)
    ensures ParseDecimal(Decimal(n)) == Some(n)
  {
    DecimalNoLeadingZero(n);
    DecimalValue(n);
  }

  /** The name of the entry point of plugin `index` for API version `version`. */
  function EntrySymbol(index: nat, version: nat): string {
    Prefix + Decimal(index) + "_" + Decimal(version) + Suffix
  }

  /** Position of the first `c` in `s`. */
  function IndexOf(s: string, c: char): (r: Option<nat>)
    ensures r.Some? ==> r.value < |s| && s[r.value] == c
    ensures r.Some? ==> forall k :: 0 <= k < r.value ==> s[k] != c
    ensures r.None? ==> forall k :: 0 <= k < |s| ==> s[k] != c
  {
    if |s| == 0 then None
    else if s[0] == c then Some(0)
    else match IndexOf(s[1..], c)
      case None => None
      case Some(k) => Some(k + 1)
  }

  /** Recover plugin index and API version from an exported name. */
  function ParseEntrySymbol(s: string): Option<(nat, nat)> {
    if |s| < |Prefix| + |Suffix| || s[..|Prefix|] != Prefix || s[|s| - |Suffix|..] != Suffix then None
    else
      var middle := s[|Prefix|..|s| - |Suffix|];
      match IndexOf(middle, '_')
      case None => None
      case Some(k) =>
        match (ParseDecimal(middle[..k]), ParseDecimal(middle[k + 1..]))
        case (Some(index), Some(version)) => Some((index, version))
        case _ => None
  }

  /** The exported name determines the plugin index and the API version. */
  lemma EntrySymbolRoundTrip(index: nat, version: nat)
    ensures ParseEntrySymbol(EntrySymbol(index, version)) == Some((index, version))
  {
    var d1, d2 := Decimal(index), Decimal(version);
    var s := EntrySymbol(index, version);
    assert s == Prefix + (d1 + "_" + d2) + Suffix;
    var middle := d1 + "_" + d2;
    assert s[..|Prefix|] == Prefix;
    assert s[|s| - |Suffix|..] == Suffix;
    assert s[|Prefix|..|s| - |Suffix|] == middle;
    assert IndexOf(middle, '_') == Some(|d1|) by {
      assert forall k :: 0 <= k < |d1| ==> middle[k] == d1[k] && IsDigit(middle[k]);
      assert middle[|d1|] == '_';
    }
    assert middle[..|d1|] == d1;
    assert middle[|d1| + 1..] == d2;
    DecimalRoundTrip(index);
    DecimalRoundTrip(version);
  }

  /** Distinct (index, version) pairs get distinct names. */
  lemma EntrySymbolInjective(i1: nat, v1: nat, i2: nat, v2: nat)
    requires EntrySymbol(i1, v1) == EntrySymbol(i2, v2)
    ensures i1 == i2 && v1 == v2
  {
    EntrySymbolRoundTrip(i1, v1);
    EntrySymbolRoundTrip(i2, v2);
  }

  /** The names the three sample plugins export. */
  lemma SampleSymbols()
    ensures EntrySymbol(0, 0) == "_MIST_PLUGIN_0_0_MAIN"
    ensures EntrySymbol(1, 0) == "_MIST_PLUGIN_1_0_MAIN"
  {
  }
}
