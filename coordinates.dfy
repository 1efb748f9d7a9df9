/**
 * The cell identifier a click carries: a string "y-x" (row, then column),
 * split on '-' and turned into two numbers.
 */
module Coordinates {

  datatype Option<T> = None | Some(value: T)

  /** The separator between the row and the column of a coordinate. */
  const Separator: char := '-'

  /** Joins non-empty lists of parts with `sep` between neighbours: the inverse of Split. */
  function Join(parts: seq<string>, sep: char): string
    requires |parts| >= 1
  {
    if |parts| == 1 then parts[0] else parts[0] + [sep] + Join(parts[1..], sep)
  }

  /**
   * String.prototype.split with a one-character separator: the pieces between
   * separators, including empty ones; the empty string gives one empty piece.
   */
  function Split(s: string, sep: char): (parts: seq<string>)
    ensures |parts| >= 1
    ensures forall k :: 0 <= k < |parts| ==> sep !in parts[k]
    ensures Join(parts, sep) == s
  {
    if s == [] then [[]]
    else
      var rest := Split(s[1..], sep);
      if s[0] == sep then
        [[]] + rest
      else
        assert [s[0]] + s[1..] == s;
        [[s[0]] + rest[0]] + rest[1..]
  }

  /** A string without the separator is split into itself alone. */
  lemma {:induction false} SplitWhole(s: string, sep: char)
    requires sep !in s
    ensures Split(s, sep) == [s]
  {
    if s != [] {
      SplitWhole(s[1..], sep);
      assert [s[0]] + s[1..] == s;
    }
  }

  /** A leading piece without the separator is split off on its own. */
  lemma {:induction false} SplitLeading(a: string, rest: string, sep: char)
    requires sep !in a
    ensures Split(a + [sep] + rest, sep) == [a] + Split(rest, sep)
  {
    if a != [] {
      var s := a + [sep] + rest;
      assert s[1..] == a[1..] + [sep] + rest;
      SplitLeading(a[1..], rest, sep);
      assert [a[0]] + a[1..] == a;
    } else {
      assert a + [sep] + rest == [sep] + rest;
      assert ([sep] + rest)[1..] == rest;
    }
  }

  /** Splitting undoes joining, when no part holds the separator. */
  lemma {:induction false} SplitJoin(parts: seq<string>, sep: char)
    requires |parts| >= 1
    requires forall k :: 0 <= k < |parts| ==> sep !in parts[k]
    ensures Split(Join(parts, sep), sep) == parts
  {
    if |parts| == 1 {
      SplitWhole(parts[0], sep);
    } else {
      SplitJoin(parts[1..], sep);
      SplitLeading(parts[0], Join(parts[1..], sep), sep);
      assert [parts[0]] + parts[1..] == parts;
    }
  }

  predicate IsDigit(c: char) {
    '0' <= c <= '9'
  }

  predicate AllDigits(s: string) {
    forall k :: 0 <= k < |s| ==> IsDigit(s[k])
  }

  /** The value of a string of decimal digits, most significant first; "" is 0, as for Number(""). */
  function DecimalValue(s: string): nat
    requires AllDigits(s)
  {
    if s == [] then 0
    else DecimalValue(s[..|s| - 1]) * 10 + (s[|s| - 1] - '0') as nat
  }

  /** The decimal text of a natural number, without leading zeros. */
  function Decimal(n: nat): (s: string)
    ensures |s| >= 1 && AllDigits(s)
  {
    if n < 10 then ['0' + n as char]
    else Decimal(n / 10) + ['0' + (n % 10) as char]
  }

  /** Reading the decimal text of a number gives the number back. */
  lemma {:induction false} DecimalRoundTrip(n: nat)
    ensures DecimalValue(Decimal(n)) == n
  {
    var s := Decimal(n);
    if n >= 10 {
      DecimalRoundTrip(n / 10);
      assert s[..|s| - 1] == Decimal(n / 10);
    }
  }

  /**
   * Number() on one piece of the split. Only plain decimal digit strings are
   * modelled; every other string gives None, standing for NaN or for the
   * other conversions Number() performs, which this model leaves out.
   * The value is exact: the rounding of a double above 2^53 is not modelled.
   */
  function Number(s: string): (r: Option<nat>)
    ensures r.None? <==> exists k | 0 <= k < |s| :: !IsDigit(s[k])
    ensures s == [] ==> r == Some(0)
  {
    if AllDigits(s) then Some(DecimalValue(s)) else None
  }

  /** Number() reads the decimal text of any natural number back as that number. */
  lemma NumberOfDecimal(n: nat)
    ensures Number(Decimal(n)) == Some(n)
  {
    DecimalRoundTrip(n);
  }

  /**
   * `let [y, x] = coord.split('-').map(Number)`: the first two pieces give the
   * row and the column, further pieces are ignored; None when there are fewer
   * than two pieces or either of the first two is not a digit string.
   */
  function ParseCoord(coord: string): (r: Option<(nat, nat)>)
    ensures r.Some? ==> Separator in coord
    ensures r.Some? ==> AllDigits(Split(coord, Separator)[0]) && AllDigits(Split(coord, Separator)[1])
  {
    var parts := Split(coord, Separator);
    if |parts| < 2 then None
    else
      match (Number(parts[0]), Number(parts[1]))
      case (Some(y), Some(x)) => Some((y, x))
      case _ => None
  }

  /** The identifier a cell for row y, column x would carry. */
  function EncodeCoord(y: nat, x: nat): (coord: string)
    ensures Split(coord, Separator) == [Decimal(y), Decimal(x)]
  {
    var coord := Decimal(y) + [Separator] + Decimal(x);
    SplitJoin([Decimal(y), Decimal(x)], Separator);
    assert Join([Decimal(y), Decimal(x)], Separator) == coord;
    coord
  }

  /** Pieces joined with '-' parse to the values of the first two pieces. */
  lemma ParseCoordOfParts(parts: seq<string>)
    requires |parts| >= 2
    requires forall k :: 0 <= k < |parts| ==> Separator !in parts[k]
    requires AllDigits(parts[0]) && AllDigits(parts[1])
    ensures ParseCoord(Join(parts, Separator)) == Some((DecimalValue(parts[0]), DecimalValue(parts[1])))
  {
    SplitJoin(parts, Separator);
  }

  /** For digit strings a and b, "a-b" parses to (value of a, value of b). */
  lemma ParseCoordOfPair(a: string, b: string)
    requires AllDigits(a) && AllDigits(b)
    ensures ParseCoord(a + [Separator] + b) == Some((DecimalValue(a), DecimalValue(b)))
  {
    assert Join([a, b], Separator) == a + [Separator] + b;
    ParseCoordOfParts([a, b]);
  }

  /** Parsing the identifier of a cell gives back its row and column. */
  lemma ParseEncodeRoundTrip(y: nat, x: nat)
    ensures ParseCoord(EncodeCoord(y, x)) == Some((y, x))
  {
    DecimalRoundTrip(y);
    DecimalRoundTrip(x);
  }
}
