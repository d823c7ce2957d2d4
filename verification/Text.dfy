/** The string operations that the parsers use. Case folding is ASCII only. */
module Text {

  predicate Letter(c: char) { 'a' <= c <= 'z' || 'A' <= c <= 'Z' }

  predicate Digit(c: char) { '0' <= c <= '9' }

  function LowerChar(c: char): char {
    if 'A' <= c <= 'Z' then c + ' ' else c
  }

  /** str.lower */
  function Lower(s: string): (r: string)
    ensures |r| == |s| && forall i :: 0 <= i < |s| ==> r[i] == LowerChar(s[i])
  {
    seq(|s|, i requires 0 <= i < |s| => LowerChar(s[i]))
  }

  /** str.isspace on one character */
  predicate Space(c: char) {
    '\t' <= c <= '\r' || '\U{1c}' <= c <= ' ' || c == '\U{85}' || c == '\U{a0}' || c == '\U{1680}'
    || '\U{2000}' <= c <= '\U{200a}' || c == '\U{2028}' || c == '\U{2029}' || c == '\U{202f}' || c == '\U{205f}'
    || c == '\U{3000}'
  }

  function LStrip(s: string): string {
    if s != [] && Space(s[0]) then LStrip(s[1..]) else s
  }

  function RStrip(s: string): string {
    if s != [] && Space(s[|s| - 1]) then RStrip(s[..|s| - 1]) else s
  }

  /** str.strip */
  function Strip(s: string): string {
    RStrip(LStrip(s))
  }

  /** str.rstrip(".") */
  function RStripDots(s: string): string {
    if s != [] && s[|s| - 1] == '.' then RStripDots(s[..|s| - 1]) else s
  }

  /** The text before the first of the stop characters, or all of it. */
  function Before(s: string, stops: set<char>): (r: string)
    ensures |r| <= |s|
  {
    if s == [] || s[0] in stops then [] else [s[0]] + Before(s[1..], stops)
  }

  /** The text after the last `c`, or all of it: str.rpartition(c)[2]. */
  function AfterLast(s: string, c: char): string {
    if s == [] || s[|s| - 1] == c then [] else AfterLast(s[..|s| - 1], c) + [s[|s| - 1]]
  }

  predicate Avoids(s: string, stops: set<char>) {
    forall i :: 0 <= i < |s| ==> s[i] !in stops
  }

  function Dots(n: nat): (r: string)
    ensures |r| == n && forall i :: 0 <= i < n ==> r[i] == '.'
  {
    seq(n, i requires 0 <= i < n => '.')
  }

  // ---- Facts ---------------------------------------------------------------------

  lemma {:induction false} BeforeIsPrefix(s: string, stops: set<char>)
    ensures Before(s, stops) <= s && Avoids(Before(s, stops), stops)
    ensures |Before(s, stops)| < |s| ==> s[|Before(s, stops)|] in stops
  {
    if s != [] && s[0] !in stops {
      BeforeIsPrefix(s[1..], stops);
    }
  }

  lemma {:induction false} BeforeStops(a: string, b: string, stops: set<char>)
    requires Avoids(a, stops) && (b == [] || b[0] in stops)
    ensures Before(a + b, stops) == a
  {
    if a == [] {
      assert a + b == b;
    } else {
      assert (a + b)[1..] == a[1..] + b;
      BeforeStops(a[1..], b, stops);
    }
  }

  lemma {:induction false} AfterLastAvoids(s: string, c: char, stops: set<char>)
    requires Avoids(s, stops)
    ensures Avoids(AfterLast(s, c), {c}) && Avoids(AfterLast(s, c), stops)
  {
    if s != [] && s[|s| - 1] != c {
      AfterLastAvoids(s[..|s| - 1], c, stops);
    }
  }

  lemma {:induction false} AfterLastWithout(s: string, c: char)
    requires Avoids(s, {c})
    ensures AfterLast(s, c) == s
  {
    if s != [] {
      AfterLastWithout(s[..|s| - 1], c);
    }
  }

  lemma {:induction false} AfterLastWith(a: string, c: char, b: string)
    requires Avoids(b, {c})
    ensures AfterLast(a + [c] + b, c) == b
  {
    var s := a + [c] + b;
    if b == [] {
      assert s[|s| - 1] == c;
    } else {
      assert s[..|s| - 1] == a + [c] + b[..|b| - 1];
      AfterLastWith(a, c, b[..|b| - 1]);
    }
  }

  lemma {:induction false} RStripAppend(a: string, b: string)
    requires a != [] && !Space(a[|a| - 1])
    ensures RStrip(a + b) == a + RStrip(b)
  {
    if b != [] && Space(b[|b| - 1]) {
      assert (a + b)[..|a + b| - 1] == a + b[..|b| - 1];
      RStripAppend(a, b[..|b| - 1]);
    } else {
      assert b == [] ==> a + b == a;
    }
  }

  lemma {:induction false} RStripIsPrefix(s: string)
    ensures RStrip(s) <= s
    ensures s != [] && !Space(s[0]) ==> RStrip(s) != []
  {
    if s != [] && Space(s[|s| - 1]) {
      RStripIsPrefix(s[..|s| - 1]);
    }
  }

  predicate Blank(s: string) {
    forall i :: 0 <= i < |s| ==> Space(s[i])
  }

  lemma {:induction false} RStripBlank(s: string)
    ensures RStrip(s) == "" <==> Blank(s)
  {
    if s != [] && Space(s[|s| - 1]) {
      RStripBlank(s[..|s| - 1]);
    }
  }

  /** Stripping leaves nothing exactly of text that is all whitespace. */
  lemma {:induction false} StripBlank(s: string)
    ensures Strip(s) == "" <==> Blank(s)
  {
    if s != [] && Space(s[0]) {
      StripBlank(s[1..]);
      assert s == [s[0]] + s[1..];
    } else {
      RStripBlank(s);
    }
  }

  lemma {:induction false} RStripDotsShape(s: string)
    ensures RStripDots(s) <= s
    ensures RStripDots(s) != [] ==> RStripDots(s)[|RStripDots(s)| - 1] != '.'
    ensures RStripDots(s) == [] <==> forall i :: 0 <= i < |s| ==> s[i] == '.'
  {
    if s != [] && s[|s| - 1] == '.' {
      RStripDotsShape(s[..|s| - 1]);
    }
  }

  lemma {:induction false} RStripDotsAppend(a: string, n: nat)
    requires a == [] || a[|a| - 1] != '.'
    ensures RStripDots(a + Dots(n)) == a
  {
    if n == 0 {
      assert a + Dots(0) == a;
    } else {
      var s := a + Dots(n);
      assert s[..|s| - 1] == a + Dots(n - 1);
      RStripDotsAppend(a, n - 1);
    }
  }

  // ---- What case folding and stripping mean --------------------------------------

  const UPPER := "ABCDEFGHIJKLMNOPQRSTUVWXYZ"
  const LOWER := "abcdefghijklmnopqrstuvwxyz"

  /** Capitals become the letters below them; everything else stays. */
  lemma LowerExactly(c: char)
    ensures forall i :: 0 <= i < 26 ==> LowerChar(UPPER[i]) == LOWER[i]
    ensures c !in UPPER ==> LowerChar(c) == c
  {
    if 'A' <= c <= 'Z' {
      assert UPPER[c as int - 'A' as int] == c;
    }
  }

  /** The characters that str.isspace accepts, by code point. */
  lemma SpaceExactly(c: char)
    ensures Space(c) <==> c as int in {
              9, 10, 11, 12, 13, 28, 29, 30, 31, 32, 0x85, 0xa0, 0x1680, 0x2000, 0x2001, 0x2002, 0x2003, 0x2004, 0x2005,
              0x2006, 0x2007, 0x2008, 0x2009, 0x200a, 0x2028, 0x2029, 0x202f, 0x205f, 0x3000}
  {
  }

  /** No whitespace at either end. */
  predicate Trim(s: string) {
    s != "" ==> !Space(s[0]) && !Space(s[|s| - 1])
  }

  lemma {:induction false} LStripSplits(s: string) returns (left: string)
    ensures Blank(left) && s == left + LStrip(s) && (LStrip(s) != "" ==> !Space(LStrip(s)[0]))
  {
    if s != "" && Space(s[0]) {
      left := LStripSplits(s[1..]);
      left := [s[0]] + left;
      assert s == [s[0]] + s[1..];
    } else {
      left := "";
    }
  }

  lemma {:induction false} RStripSplits(s: string) returns (right: string)
    ensures Blank(right) && s == RStrip(s) + right && (RStrip(s) != "" ==> !Space(RStrip(s)[|RStrip(s)| - 1]))
  {
    if s != "" && Space(s[|s| - 1]) {
      right := RStripSplits(s[..|s| - 1]);
      right := right + [s[|s| - 1]];
      assert s == s[..|s| - 1] + [s[|s| - 1]];
    } else {
      right := "";
    }
  }

  lemma {:induction false} LStripLeft(left: string, r: string)
    requires Blank(left)
    ensures LStrip(left + r) == LStrip(r)
  {
    if left == "" {
      assert left + r == r;
    } else {
      assert (left + r)[1..] == left[1..] + r;
      LStripLeft(left[1..], r);
    }
  }

  predicate Padded(s: string, left: string, r: string, right: string) {
    Blank(left) && Blank(right) && s == left + r + right
  }

  /** Stripping takes the whitespace off both ends and nothing else. */
  lemma StripExactly(s: string, r: string)
    ensures Strip(s) == r <==> Trim(r) && exists left, right :: Padded(s, left, r, right)
  {
    if Strip(s) == r {
      var left, right := StripPads(s);
    }
    if Trim(r) && exists left, right :: Padded(s, left, r, right) {
      var left, right :| Padded(s, left, r, right);
      PaddedStrips(s, left, r, right);
    }
    hide Strip, Trim, Padded;
  }

  lemma StripPads(s: string) returns (left: string, right: string)
    ensures Trim(Strip(s)) && Padded(s, left, Strip(s), right)
  {
    left := LStripSplits(s);
    right := RStripSplits(LStrip(s));
    hide Space, LStrip, RStrip;
    RStripIsPrefix(LStrip(s));
    var r := Strip(s);
    assert s == left + r + right;
    assert r != "" ==> r[0] == LStrip(s)[0];
  }

  lemma PaddedStrips(s: string, left: string, r: string, right: string)
    requires Trim(r) && Padded(s, left, r, right)
    ensures Strip(s) == r
  {
    hide Space;
    assert s == left + (r + right);
    LStripLeft(left, r + right);
    if r == "" {
      assert r + right == right && right + "" == right;
      LStripLeft(right, "");
    } else {
      assert (r + right)[0] == r[0];
      RStripAppend(r, right);
      RStripBlank(right);
      assert r + "" == r;
    }
  }
}
