/**
 * The cache keys of the locations views and the decimal rendering of a
 * primary key that the f-strings `f"location_{pk}"` perform.
 */
module CacheKeys {
  import opened Wrappers

  /** The fixed key of the unfiltered location list. */
  const LocationsListKey: string := "locations_list"

  const KeyPrefix: string := "location_"

  predicate IsDigit(c: char) {
    '0' <= c <= '9'
  }

  predicate AllDigits(t: string) {
    forall i :: 0 <= i < |t| ==> IsDigit(t[i])
  }

  function DigitChar(d: nat): (c: char)
    requires d < 10
    ensures IsDigit(c) && c as int - '0' as int == d
  {
    ('0' as int + d) as char
  }

  /** Decimal text of a primary key, as Python's `str(int)` gives it: no sign, no leading zeros. */
  function DecimalString(n: nat): (r: string)
    ensures |r| > 0 && AllDigits(r)
    ensures |r| > 1 ==> r[0] != '0'
    decreases n
  {
    if n < 10 then [DigitChar(n)] else DecimalString(n / 10) + [DigitChar(n % 10)]
  }

  /** Value of a non-empty string of decimal digits (leading zeros allowed). */
  function DecimalValue(t: string): nat
    requires AllDigits(t)
    decreases |t|
  {
    if |t| == 0 then 0
    else DecimalValue(t[..|t| - 1]) * 10 + (t[|t| - 1] as int - '0' as int)
  }

  /** Reads a URL path segment as a primary key; `None` when it is not a run of decimal digits. */
  function ParseDecimal(t: string): (r: Option<nat>)
    ensures r.Some? <==> |t| > 0 && AllDigits(t)
  {
    if |t| > 0 && AllDigits(t) then Some(DecimalValue(t)) else None
  }

  /** Parsing the decimal text of a key gives the key back. */
  lemma {:induction false} ParseDecimalString(n: nat)
    ensures ParseDecimal(DecimalString(n)) == Some(n)
    decreases n
  {
    var r := DecimalString(n);
    if n < 10 {
      assert r[..|r| - 1] == [];
    } else {
      ParseDecimalString(n / 10);
      assert r[..|r| - 1] == DecimalString(n / 10);
      assert DecimalValue(r) == (n / 10) * 10 + n % 10;
    }
  }

  /** Two keys have the same decimal text only when they are equal. */
  lemma DecimalStringInjective(a: nat, b: nat)
    ensures DecimalString(a) == DecimalString(b) <==> a == b
  {
    ParseDecimalString(a);
    ParseDecimalString(b);
  }

  /** `f"location_{pk}"`: the key of one location's detail payload. */
  function LocationKey(id: nat): string {
    KeyPrefix + DecimalString(id)
  }

  /** `f"location_{id}_reviews"`: the key of one location's review rows. */
  function ReviewsKey(id: nat): string {
    KeyPrefix + DecimalString(id) + "_reviews"
  }

  /** `f"location_{id}_likes"`: the key of one location's like rows. */
  function LikesKey(id: nat): string {
    KeyPrefix + DecimalString(id) + "_likes"
  }

  /** A detail key is `location_` followed by text that parses back to the location's id. */
  lemma LocationKeyShape(id: nat)
    ensures var k := LocationKey(id);
      |k| > |KeyPrefix| && k[..|KeyPrefix|] == KeyPrefix && ParseDecimal(k[|KeyPrefix|..]) == Some(id)
  {
    ParseDecimalString(id);
    assert LocationKey(id)[|KeyPrefix|..] == DecimalString(id);
  }

  /** A review-rows key is `location_`, text that parses back to the id, then `_reviews`. */
  lemma ReviewsKeyShape(id: nat)
    ensures var k := ReviewsKey(id);
      && |k| > |KeyPrefix| + 8 && k[..|KeyPrefix|] == KeyPrefix && k[|k| - 8..] == "_reviews"
      && ParseDecimal(k[|KeyPrefix|..|k| - 8]) == Some(id)
  {
    ParseDecimalString(id);
    var k := ReviewsKey(id);
    assert k[|KeyPrefix|..|k| - 8] == DecimalString(id);
  }

  /** A like-rows key is `location_`, text that parses back to the id, then `_likes`. */
  lemma LikesKeyShape(id: nat)
    ensures var k := LikesKey(id);
      && |k| > |KeyPrefix| + 6 && k[..|KeyPrefix|] == KeyPrefix && k[|k| - 6..] == "_likes"
      && ParseDecimal(k[|KeyPrefix|..|k| - 6]) == Some(id)
  {
    ParseDecimalString(id);
    var k := LikesKey(id);
    assert k[|KeyPrefix|..|k| - 6] == DecimalString(id);
  }

  /** Detail keys of different locations never collide. */
  lemma LocationKeyInjective(a: nat, b: nat)
    ensures LocationKey(a) == LocationKey(b) <==> a == b
  {
    if LocationKey(a) == LocationKey(b) {
      assert DecimalString(a) == LocationKey(a)[|KeyPrefix|..];
      assert DecimalString(b) == LocationKey(b)[|KeyPrefix|..];
      DecimalStringInjective(a, b);
    }
  }

  /** A key made of the prefix followed by text that is not all digits is no detail key. */
  lemma {:induction false} NotALocationKey(t: string, id: nat)
    requires !AllDigits(t)
    ensures KeyPrefix + t != LocationKey(id)
  {
    var i :| 0 <= i < |t| && !IsDigit(t[i]);
    if |KeyPrefix + t| == |LocationKey(id)| {
      assert (KeyPrefix + t)[|KeyPrefix| + i] == t[i];
      assert LocationKey(id)[|KeyPrefix| + i] == DecimalString(id)[i];
    }
  }

  /**
   * The keys the views use are pairwise distinct: the list key differs from
   * every per-location key, and the `_reviews` and `_likes` keys of a
   * location are never the detail key of any location.
   */
  lemma {:induction false} KeyKindsDistinct(a: nat, b: nat)
    ensures LocationKey(a) != LocationsListKey
    ensures ReviewsKey(a) != LocationsListKey
    ensures LikesKey(a) != LocationsListKey
    ensures ReviewsKey(a) != LocationKey(b)
    ensures LikesKey(a) != LocationKey(b)
  {
    assert LocationKey(a)[8] == '_' && LocationsListKey[8] == 's';
    assert ReviewsKey(a)[8] == '_';
    assert LikesKey(a)[8] == '_';
    var d := DecimalString(a);
    assert ReviewsKey(a) == KeyPrefix + (d + "_reviews");
    assert LikesKey(a) == KeyPrefix + (d + "_likes");
    assert (d + "_reviews")[|d|] == '_';
    assert (d + "_likes")[|d|] == '_';
    NotALocationKey(d + "_reviews", b);
    NotALocationKey(d + "_likes", b);
  }
}
