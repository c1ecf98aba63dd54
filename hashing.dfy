/**
 * The string spellings of a column hash and of a tile key (Drawable.getHash,
 * Drawable.key, and the worker's getHash), built from the decimal rendering of
 * the rounded coordinates. The lemmas show that the strings identify exactly the
 * pair (or triple) they were built from, which is why the rest of the model may key
 * its column maps by the pair `ColumnKey` itself.
 */
module Hashing {
  import opened Terrain

  predicate IsDigit(c: char) {
    '0' <= c <= '9'
  }

  predicate AllDigits(s: string) {
    forall i :: 0 <= i < |s| ==> IsDigit(s[i])
  }

  /** The characters String(n) uses for an integer: digits and the minus sign. */
  predicate Numeral(s: string) {
    forall i :: 0 <= i < |s| ==> IsDigit(s[i]) || s[i] == '-'
  }

  function DigitChar(d: nat): (c: char)
    requires d < 10
    ensures IsDigit(c) && c as int - '0' as int == d
  {
    (48 + d) as char
  }

  /** String(n) for a non-negative integer. */
  function NatToDecimal(n: nat): (s: string)
    ensures |s| > 0 && AllDigits(s)
  {
    if n < 10 then [DigitChar(n)] else NatToDecimal(n / 10) + [DigitChar(n % 10)]
  }

  /** The value of a string of decimal digits. */
  function DecimalValue(s: string): nat
    requires AllDigits(s)
  {
    if s == [] then 0
    else
      assert AllDigits(s[..|s| - 1]);
      DecimalValue(s[..|s| - 1]) * 10 + (s[|s| - 1] as int - '0' as int)
  }

  lemma {:induction false} DecimalRoundTrip(n: nat)
    ensures DecimalValue(NatToDecimal(n)) == n
  {
    if n >= 10 {
      var s := NatToDecimal(n);
      assert s[..|s| - 1] == NatToDecimal(n / 10);
      DecimalRoundTrip(n / 10);
    }
  }

  /** String(i) for an integer (no exponent form: the model's integers are small). */
  function IntToString(i: int): (s: string)
    ensures |s| > 0 && Numeral(s)
    ensures IsDigit(s[0]) <==> i >= 0
  {
    if i < 0 then "-" + NatToDecimal(-i) else NatToDecimal(i)
  }

  lemma IntToStringInjective(a: int, b: int)
    requires IntToString(a) == IntToString(b)
    ensures a == b
  {
    if a >= 0 {
      DecimalRoundTrip(a);
      DecimalRoundTrip(b);
    } else {
      assert IntToString(a)[1..] == NatToDecimal(-a);
      assert IntToString(b)[1..] == NatToDecimal(-b);
      DecimalRoundTrip(-a);
      DecimalRoundTrip(-b);
    }
  }

  /** String(Math.round(10 * y)): the tenths, or "NaN". */
  function HeightToString(h: Height): (s: string)
    ensures |s| > 0
  {
    match h
    case Tenths(v) => IntToString(v)
    case NaN => "NaN"
  }

  lemma HeightToStringInjective(a: Height, b: Height)
    requires HeightToString(a) == HeightToString(b)
    ensures a == b
  {
    if a.Tenths? && b.Tenths? {
      IntToStringInjective(a.v, b.v);
    }
  }

  /** A separator that neither prefix contains splits both strings at the same place. */
  lemma SplitAtSeparator(p: string, q: string, p': string, q': string, sep: char)
    requires p + [sep] + q == p' + [sep] + q'
    requires forall i :: 0 <= i < |p| ==> p[i] != sep
    requires forall i :: 0 <= i < |p'| ==> p'[i] != sep
    ensures p == p' && q == q'
  {
    var w := p + [sep] + q;
    var w' := p' + [sep] + q';
    SeparatorPosition(p, sep, q);
    SeparatorPosition(p', sep, q');
    if |p| < |p'| {
      assert false;
    } else if |p'| < |p| {
      assert false;
    } else {
      assert p == w[..|p|] && p' == w'[..|p'|];
      assert q == w[|p| + 1..] && q' == w'[|p'| + 1..];
    }
  }

  lemma SeparatorPosition(p: string, sep: char, q: string)
    ensures (p + [sep] + q)[|p|] == sep
    ensures forall i :: 0 <= i < |p| ==> (p + [sep] + q)[i] == p[i]
  {
  }

  lemma DropFirst(c: char, r: string)
    ensures ([c] + r)[1..] == r
  {
  }

  /** Drawable.getHash(x, z) for a lattice point: "x" + round(10x) + "z" + round(10z). */
  function ColumnHash(hx: int, hz: int): string {
    "x" + IntToString(5 * hx) + "z" + IntToString(5 * hz)
  }

  /** The worker's getHash(x, z): round(10x) + "|" + round(10z). */
  function WorkerHash(hx: int, hz: int): string {
    IntToString(5 * hx) + "|" + IntToString(5 * hz)
  }

  /** Drawable.key: "x" + round(10x) + "y" + round(10y) + "z" + round(10z). */
  function TileKeyString(hx: int, y: Height, hz: int): string {
    "x" + IntToString(5 * hx) + "y" + HeightAndZ(y, hz)
  }

  /** The tail of a tile key: round(10y) + "z" + round(10z). */
  function HeightAndZ(y: Height, hz: int): string {
    HeightToString(y) + "z" + IntToString(5 * hz)
  }

  /** Column hashes name columns: equal hashes exactly when the columns are equal. */
  lemma ColumnHashIdentifiesColumn(a: int, b: int, c: int, d: int)
    ensures ColumnHash(a, b) == ColumnHash(c, d) <==> KeyOf(a, b) == KeyOf(c, d)
  {
    if ColumnHash(a, b) == ColumnHash(c, d) {
      var s, u := IntToString(5 * a), IntToString(5 * b);
      var s', u' := IntToString(5 * c), IntToString(5 * d);
      assert ColumnHash(a, b) == ['x'] + (s + ['z'] + u);
      assert ColumnHash(c, d) == ['x'] + (s' + ['z'] + u');
      DropFirst('x', s + ['z'] + u);
      DropFirst('x', s' + ['z'] + u');
      SplitAtSeparator(s, u, s', u', 'z');
      IntToStringInjective(5 * a, 5 * c);
      IntToStringInjective(5 * b, 5 * d);
    }
  }

  lemma WorkerHashIdentifiesColumn(a: int, b: int, c: int, d: int)
    ensures WorkerHash(a, b) == WorkerHash(c, d) <==> KeyOf(a, b) == KeyOf(c, d)
  {
    if WorkerHash(a, b) == WorkerHash(c, d) {
      SplitAtSeparator(IntToString(5 * a), IntToString(5 * b), IntToString(5 * c), IntToString(5 * d), '|');
      IntToStringInjective(5 * a, 5 * c);
      IntToStringInjective(5 * b, 5 * d);
    }
  }

  lemma NoSeparatorInHeight(h: Height, sep: char)
    requires sep != '-' && !IsDigit(sep) && sep != 'N' && sep != 'a'
    ensures forall i :: 0 <= i < |HeightToString(h)| ==> HeightToString(h)[i] != sep
  {
    if h.Tenths? {
      assert Numeral(HeightToString(h));
    }
  }

  /**
   * Tile keys name tiles: equal keys exactly when position and height are equal. So two
   * tiles stacked in one column share their column hash but have distinct keys.
   */
  lemma TileKeyIdentifiesTile(a: int, y: Height, b: int, c: int, y': Height, d: int)
    ensures TileKeyString(a, y, b) == TileKeyString(c, y', d) <==> (a == c && y == y' && b == d)
  {
    if TileKeyString(a, y, b) == TileKeyString(c, y', d) {
      TileKeyTail(a, y, b);
      TileKeyTail(c, y', d);
      SplitAtSeparator(IntToString(5 * a), HeightAndZ(y, b), IntToString(5 * c), HeightAndZ(y', d), 'y');
      IntToStringInjective(5 * a, 5 * c);
      HeightAndColumnTail(y, b, y', d);
    }
  }

  lemma TileKeyTail(a: int, y: Height, b: int)
    ensures TileKeyString(a, y, b)[1..] == IntToString(5 * a) + ['y'] + HeightAndZ(y, b)
  {
    var s, r := IntToString(5 * a), HeightAndZ(y, b);
    assert TileKeyString(a, y, b) == ['x'] + (s + ['y'] + r);
    DropFirst('x', s + ['y'] + r);
  }

  lemma HeightAndColumnTail(y: Height, b: int, y': Height, d: int)
    requires HeightAndZ(y, b) == HeightAndZ(y', d)
    ensures y == y' && b == d
  {
    NoSeparatorInHeight(y, 'z');
    NoSeparatorInHeight(y', 'z');
    SplitAtSeparator(HeightToString(y), IntToString(5 * b), HeightToString(y'), IntToString(5 * d), 'z');
    HeightToStringInjective(y, y');
    IntToStringInjective(5 * b, 5 * d);
  }
}
