/**
 * The seventeen Korean education-office areas of the HCS client and their two
 * fixed lookup tables: the numeric location code sent to the school search, and
 * the three-letter subdomain prefix of the area's own API host.
 *
 * An `Area` is a plain integer in the client, numbered from 1 (Seoul) to 17
 * (Jeju); indexing a table with any other value panics, so every lookup here
 * requires `IsArea`.
 */
module Areas {
  import opened Wrappers

  type Area = int

  const SEOUL: Area := 1
  const BUSAN: Area := 2
  const DAEGU: Area := 3
  const INCHEON: Area := 4
  const GWANGJU: Area := 5
  const DAEJEON: Area := 6
  const ULSAN: Area := 7
  const SEJONG: Area := 8
  const GYEONGGI: Area := 9
  const GANGWON: Area := 10
  const CHUNGBUK: Area := 11
  const CHUNGNAM: Area := 12
  const JEONBUK: Area := 13
  const JEONNAM: Area := 14
  const GYEONGBUK: Area := 15
  const GYEONGNAM: Area := 16
  const JEJ: Area := 17

  /** The areas the tables are defined for. */
  predicate IsArea(area: int) {
    SEOUL <= area <= JEJ
  }

  /** Location codes, one per area in area order; the remote numbering has no 9. */
  const AreaCodeTable: seq<int> := [1, 2, 3, 4, 5, 6, 7, 8, 10, 11, 12, 13, 14, 15, 16, 17, 18]

  /** Subdomain prefixes, one per area in area order. */
  const AreaURLTable: seq<string> :=
    ["sen", "pen", "dge", "ice", "gen", "dje", "use", "sje", "goe",
     "kwe", "cbe", "cne", "jbe", "jne", "gbe", "gne", "jje"]

  /** No value occurs twice in `s`. */
  predicate Distinct<T(==)>(s: seq<T>) {
    forall i, j :: 0 <= i < |s| && 0 <= j < |s| && i != j ==> s[i] != s[j]
  }

  /** The position of the first occurrence of `x` in `s`, if any. */
  function IndexOf<T(==)>(s: seq<T>, x: T): (r: Option<nat>)
    ensures r.Some? ==> r.value < |s| && s[r.value] == x
    ensures r.Some? ==> forall k :: 0 <= k < r.value ==> s[k] != x
    ensures r.None? <==> x !in s
  {
    if |s| == 0 then None
    else if s[0] == x then Some(0)
    else match IndexOf(s[1..], x)
      case None => None
      case Some(k) => Some(k + 1)
  }

  /** In a table without repeats, looking up the entry at `i` finds `i`. */
  lemma IndexOfDistinct<T>(s: seq<T>, i: nat)
    requires Distinct(s) && i < |s|
    ensures IndexOf(s, s[i]) == Some(i)
  {
    assert s[i] in s;
  }

  /**
   * The location code of an area: the area number itself up to Sejong (8), one
   * more from Gyeonggi (9) on, so the code is never 9 and stays within 1..18.
   */
  function GetAreaCode(area: Area): (code: int)
    requires IsArea(area)
    ensures code == if area <= SEJONG then area else area + 1
    ensures 1 <= code <= 18 && code != 9
  {
    AreaCodeTable[area - 1]
  }

  /** A larger area number always has a larger location code. */
  lemma AreaCodeIncreasing(a: Area, b: Area)
    requires IsArea(a) && IsArea(b) && a < b
    ensures GetAreaCode(a) < GetAreaCode(b)
  {
  }

  /** The codes of all areas are exactly 1..18 without 9. */
  lemma AreaCodeImage()
    ensures (set a | SEOUL <= a <= JEJ :: GetAreaCode(a))
         == {1, 2, 3, 4, 5, 6, 7, 8, 10, 11, 12, 13, 14, 15, 16, 17, 18}
  {
    var image := set a | SEOUL <= a <= JEJ :: GetAreaCode(a);
    forall c | c in {1, 2, 3, 4, 5, 6, 7, 8, 10, 11, 12, 13, 14, 15, 16, 17, 18}
      ensures c in image
    {
      var a := if c <= 8 then c else c - 1;
      assert GetAreaCode(a) == c;
    }
  }

  /** The area whose location code is `code`, found by searching the code table. */
  function AreaOfCode(code: int): (area: Option<Area>)
    ensures area.Some? ==> IsArea(area.value) && GetAreaCode(area.value) == code
  {
    match IndexOf(AreaCodeTable, code)
    case None => None
    case Some(i) =>
      assert i < |AreaCodeTable| == 17;
      Some(i + 1)
  }

  /** Every area is recovered from its code, so `GetAreaCode` is injective. */
  lemma AreaOfCodeRoundTrip(area: Area)
    requires IsArea(area)
    ensures AreaOfCode(GetAreaCode(area)) == Some(area)
  {
    assert Distinct(AreaCodeTable) by {
      forall i, j | 0 <= i < j < |AreaCodeTable|
        ensures AreaCodeTable[i] < AreaCodeTable[j]
      {
        AreaCodeIncreasing(i + 1, j + 1);
      }
    }
    IndexOfDistinct(AreaCodeTable, area - 1);
  }

  /** Exactly the codes 1..18 other than 9 belong to an area. */
  lemma AreaOfCodeDomain(code: int)
    ensures AreaOfCode(code).Some? <==> 1 <= code <= 18 && code != 9
  {
    if 1 <= code <= 18 && code != 9 {
      var area := if code <= SEJONG then code else code - 1;
      assert GetAreaCode(area) == code;
      AreaOfCodeRoundTrip(area);
    }
  }

  /** `word` is made of lower-case ASCII letters only, as a DNS label prefix. */
  predicate LowerWord(word: string) {
    forall k :: 0 <= k < |word| ==> 'a' <= word[k] <= 'z'
  }

  /** Every prefix in the table is three lower-case letters. */
  lemma AreaURLTableShape(i: nat)
    requires i < |AreaURLTable|
    ensures |AreaURLTable[i]| == 3 && LowerWord(AreaURLTable[i])
  {
  }

  /** No prefix in the table equals the one at row `i`. */
  lemma AreaURLTableRow(i: nat)
    requires i < |AreaURLTable|
    ensures forall j :: 0 <= j < |AreaURLTable| && j != i ==> AreaURLTable[i] != AreaURLTable[j]
  {
  }

  /** The subdomain prefix of an area: three lower-case letters. */
  function GetAreaURL(area: Area): (prefix: string)
    requires IsArea(area)
    ensures |prefix| == 3 && LowerWord(prefix)
  {
    AreaURLTableShape(area - 1);
    AreaURLTable[area - 1]
  }

  /** The area whose prefix is `prefix`, found by searching the prefix table. */
  function AreaOfURL(prefix: string): (area: Option<Area>)
    ensures area.Some? ==> IsArea(area.value) && GetAreaURL(area.value) == prefix
  {
    match IndexOf(AreaURLTable, prefix)
    case None => None
    case Some(i) =>
      assert i < |AreaURLTable| == 17;
      Some(i + 1)
  }

  /** Every area is recovered from its prefix. */
  lemma AreaOfURLRoundTrip(area: Area)
    requires IsArea(area)
    ensures AreaOfURL(GetAreaURL(area)) == Some(area)
  {
    assert Distinct(AreaURLTable) by {
      forall i | 0 <= i < |AreaURLTable|
        ensures forall j :: 0 <= j < |AreaURLTable| && j != i ==> AreaURLTable[i] != AreaURLTable[j]
      {
        AreaURLTableRow(i);
      }
    }
    IndexOfDistinct(AreaURLTable, area - 1);
  }

  /** The seventeen prefixes are pairwise distinct. */
  lemma AreaURLInjective(a: Area, b: Area)
    requires IsArea(a) && IsArea(b) && GetAreaURL(a) == GetAreaURL(b)
    ensures a == b
  {
    AreaOfURLRoundTrip(a);
    AreaOfURLRoundTrip(b);
  }
}
