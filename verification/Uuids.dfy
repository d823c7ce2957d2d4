/** The texts that name a tenant: what the cast of `app.tenant_id` accepts, and when two texts name the same one. */
module Uuids {
  import opened Wrappers
  import opened Text
  import opened TenantTables

  predicate HexChar(c: char) {
    c in {'0', '1', '2', '3', '4', '5', '6', '7', '8', '9', 'a', 'b', 'c', 'd', 'e', 'f', 'A', 'B', 'C', 'D', 'E', 'F'}
  }

  predicate Hex(s: string) {
    forall i :: 0 <= i < |s| ==> HexChar(s[i])
  }

  /** Five groups of 8, 4, 4, 4 and 12 hexadecimal digits. */
  datatype Groups = Groups(a: string, b: string, c: string, d: string, e: string)

  predicate WellGrouped(g: Groups) {
    && |g.a| == 8 && |g.b| == 4 && |g.c| == 4 && |g.d| == 4 && |g.e| == 12
    && Hex(g.a) && Hex(g.b) && Hex(g.c) && Hex(g.d) && Hex(g.e)
  }

  function Written(g: Groups): string {
    g.a + "-" + g.b + "-" + g.c + "-" + g.d + "-" + g.e
  }

  function FoldedDigit(c: char): char {
    if c == 'A' then 'a' else if c == 'B' then 'b' else if c == 'C' then 'c'
    else if c == 'D' then 'd' else if c == 'E' then 'e' else if c == 'F' then 'f' else c
  }

  function Folded(s: string): (r: string)
    ensures |r| == |s| && forall i :: 0 <= i < |s| ==> r[i] == FoldedDigit(s[i])
  {
    seq(|s|, i requires 0 <= i < |s| => FoldedDigit(s[i]))
  }

  lemma DigitExactly(c: char)
    ensures HexDigit(c) <==> HexChar(c)
    ensures HexDigit(c) || c == '-' ==> LowerChar(c) == FoldedDigit(c)
    ensures HexChar(c) ==> HexChar(FoldedDigit(c))
  {
  }

  predicate PlaceFits(text: string, j: nat)
    requires j < |text|
  {
    if j == 8 || j == 13 || j == 18 || j == 23 then text[j] == '-' else HexChar(text[j])
  }

  lemma {:induction false} PlaceByPlace(text: string, i: nat)
    requires |text| == 36 && i <= 36
    ensures CanonicalFrom(text, i) <==> forall j :: i <= j < 36 ==> PlaceFits(text, j)
    decreases 36 - i
  {
    if i < 36 {
      DigitExactly(text[i]);
      hide HexChar, HexDigit;
      PlaceByPlace(text, i + 1);
      assert (forall j :: i <= j < 36 ==> PlaceFits(text, j)) <==>
             PlaceFits(text, i) && forall j :: i + 1 <= j < 36 ==> PlaceFits(text, j);
    }
  }

  lemma WrittenPlaces(g: Groups)
    requires WellGrouped(g)
    ensures |Written(g)| == 36 && forall j :: 0 <= j < 36 ==> PlaceFits(Written(g), j)
  {
    hide PlaceFits;
    forall j | 0 <= j < 36
      ensures PlaceFits(Written(g), j)
    {
      WrittenPlace(g, j);
    }
  }

  lemma WrittenPlace(g: Groups, j: nat)
    requires WellGrouped(g) && j < 36
    ensures |Written(g)| == 36
    ensures Written(g)[j] == if j < 8 then g.a[j] else if j == 8 || j == 13 || j == 18 || j == 23 then '-'
                             else if j < 13 then g.b[j - 9] else if j < 18 then g.c[j - 14]
                             else if j < 23 then g.d[j - 19] else g.e[j - 24]
    ensures PlaceFits(Written(g), j)
  {
  }

  lemma HexSlice(x: string, lo: nat, hi: nat)
    requires lo <= hi <= |x| && forall j :: lo <= j < hi ==> HexChar(x[j])
    ensures Hex(x[lo..hi])
  {
    hide HexChar;
  }

  lemma HexBetween(x: string, lo: nat, hi: nat)
    requires lo <= hi <= 36 == |x| && forall j :: 0 <= j < 36 ==> PlaceFits(x, j)
    requires !(lo <= 8 < hi) && !(lo <= 13 < hi) && !(lo <= 18 < hi) && !(lo <= 23 < hi)
    ensures Hex(x[lo..hi])
  {
    hide HexChar;
    forall j | lo <= j < hi
      ensures HexChar(x[j])
    {
      assert PlaceFits(x, j);
    }
    HexSlice(x, lo, hi);
  }

  lemma Regrouped(x: string) returns (g: Groups)
    requires |x| == 36 && forall j :: 0 <= j < 36 ==> PlaceFits(x, j)
    ensures WellGrouped(g) && Written(g) == x
  {
    g := Groups(x[..8], x[9..13], x[14..18], x[19..23], x[24..36]);
    HexBetween(x, 0, 8);
    HexBetween(x, 9, 13);
    HexBetween(x, 14, 18);
    HexBetween(x, 19, 23);
    HexBetween(x, 24, 36);
    hide Hex, HexChar;
    assert x[0..8] == x[..8];
    assert PlaceFits(x, 8) && PlaceFits(x, 13) && PlaceFits(x, 18) && PlaceFits(x, 23);
    assert x == x[..8] + [x[8]] + x[9..13] + [x[13]] + x[14..18] + [x[18]] + x[19..23] + [x[23]] + x[24..36];
  }

  /** Five groups of hexadecimal digits name the tenant with their letters in lower case. */
  lemma WrittenUuidIsATenant(g: Groups)
    requires WellGrouped(g)
    ensures ParseUuid(Written(g)) == Some(Written(Groups(Folded(g.a), Folded(g.b), Folded(g.c), Folded(g.d), Folded(g.e))))
  {
    var x := Written(g);
    var h := Groups(Folded(g.a), Folded(g.b), Folded(g.c), Folded(g.d), Folded(g.e));
    WrittenPlaces(g);
    PlaceByPlace(x, 0);
    FoldedIsGrouped(g);
    forall j | 0 <= j < 36
      ensures Lower(x)[j] == Written(h)[j]
    {
      WrittenPlace(g, j);
      WrittenPlace(h, j);
      DigitExactly(x[j]);
      hide LowerChar, HexDigit;
    }
    assert |Written(h)| == 36 by { WrittenPlace(h, 0); }
    assert Lower(x) == Written(h);
  }

  lemma FoldedIsGrouped(g: Groups)
    requires WellGrouped(g)
    ensures WellGrouped(Groups(Folded(g.a), Folded(g.b), Folded(g.c), Folded(g.d), Folded(g.e)))
  {
    FoldedIsHex(g.a);
    FoldedIsHex(g.b);
    FoldedIsHex(g.c);
    FoldedIsHex(g.d);
    FoldedIsHex(g.e);
    hide Hex;
  }

  lemma FoldedIsHex(s: string)
    requires Hex(s)
    ensures Hex(Folded(s))
  {
    forall i | 0 <= i < |s|
      ensures HexChar(Folded(s)[i])
    {
      DigitExactly(s[i]);
    }
    hide HexChar;
  }

  /** No other text names a tenant. */
  lemma TenantTextsExactly(x: string)
    ensures ParseUuid(x).Some? <==> exists g :: WellGrouped(g) && x == Written(g)
  {
    hide Written, WellGrouped, PlaceFits;
    if ParseUuid(x).Some? {
      PlaceByPlace(x, 0);
      var g := Regrouped(x);
    }
    if exists g :: WellGrouped(g) && x == Written(g) {
      var g :| WellGrouped(g) && x == Written(g);
      WrittenUuidIsATenant(g);
    }
  }

  /** Two of them name the same tenant exactly when they differ in the case of their letters at most. */
  lemma SameTenantExactly(x: string, y: string)
    requires ParseUuid(x).Some? && ParseUuid(y).Some?
    ensures ParseUuid(x) == ParseUuid(y) <==> Folded(x) == Folded(y)
  {
    PlaceByPlace(x, 0);
    PlaceByPlace(y, 0);
    forall j | 0 <= j < 36
      ensures LowerChar(x[j]) == Folded(x)[j] && LowerChar(y[j]) == Folded(y)[j]
    {
      assert PlaceFits(x, j) && PlaceFits(y, j);
      DigitExactly(x[j]);
      DigitExactly(y[j]);
      hide LowerChar, HexDigit, FoldedDigit;
    }
    hide LowerChar, FoldedDigit;
    assert Folded(x) == Lower(x) && Folded(y) == Lower(y);
  }
}
