/** Cells of the student table and JavaScript's unary `+` applied to them.

    The delimited-file loader hands every script an array of row objects whose
    cells are all text.  The load callbacks then overwrite some cells with
    numbers, and the statistics read cells back through `+`, `<`, `===` and the
    d3 reducers.  This module fixes what a cell can hold and what `+` makes of it. */
module Values {

  datatype Option<T> = None | Some(value: T) {
    /** The value, or `default` when there is none. */
    function GetOr(default: T): T {
      match this
      case Some(v) => v
      case None => default
    }
  }

  /** A cell as the scripts see it: loader text, a number written back by a
      coercion pass, the NaN that `+` produces on text that is not a number,
      or `undefined`, which is what reading a column the row lacks yields. */
  datatype Value = Str(text: string) | Num(x: real) | NaN | Undefined

  /** A row object: column name to cell.  Assigning `d.col = v` is a map update. */
  type Row = map<string, Value>

  /** `d[column]`: the cell, or `undefined` when the row has no such column. */
  function Lookup(r: Row, column: string): Value {
    if column in r then r[column] else Undefined
  }

  predicate IsDigit(c: char) {
    '0' <= c <= '9'
  }

  /** The white space that `+` ignores around a number: JavaScript's white
      space and line terminators (tab, line feed, vertical tab, form feed,
      carriage return, space, no-break space, the byte-order mark, the
      line and paragraph separators and the other space separators). */
  predicate IsSpace(c: char) {
    || c == '\t' || c == '\n' || c == '\U{000B}' || c == '\U{000C}' || c == '\r' || c == ' '
    || c == '\U{00A0}' || c == '\U{1680}' || '\U{2000}' <= c <= '\U{200A}'
    || c == '\U{2028}' || c == '\U{2029}' || c == '\U{202F}' || c == '\U{205F}'
    || c == '\U{3000}' || c == '\U{FEFF}'
  }

  predicate AllDigits(s: string) {
    |s| > 0 && forall i :: 0 <= i < |s| ==> IsDigit(s[i])
  }

  function DigitValue(c: char): nat
    requires IsDigit(c)
  {
    c as int - '0' as int
  }

  function DigitChar(d: nat): char
    requires d < 10
  {
    ('0' as int + d) as char
  }

  /** The number written in decimal by the digits of `s`. */
  function DigitsValue(s: string): nat
    requires forall i :: 0 <= i < |s| ==> IsDigit(s[i])
  {
    if s == [] then 0 else 10 * DigitsValue(s[..|s| - 1]) + DigitValue(s[|s| - 1])
  }

  function TrimStart(s: string): string {
    if |s| > 0 && IsSpace(s[0]) then TrimStart(s[1..]) else s
  }

  function TrimEnd(s: string): string {
    if |s| > 0 && IsSpace(s[|s| - 1]) then TrimEnd(s[..|s| - 1]) else s
  }

  function Trim(s: string): string {
    TrimEnd(TrimStart(s))
  }

  /** `+text`: blank text is 0, an optionally signed run of decimal digits is
      its value, anything else is NaN (None). */
  function ParseNumber(s: string): Option<real> {
    var t := Trim(s);
    if t == [] then Some(0.0)
    else if AllDigits(t) then Some(DigitsValue(t) as real)
    else if (t[0] == '-' || t[0] == '+') && AllDigits(t[1..]) then
      Some(if t[0] == '-' then -(DigitsValue(t[1..]) as real) else DigitsValue(t[1..]) as real)
    else None
  }

  /** `+v`: the number a cell denotes, None where JavaScript yields NaN.  A
      number is itself, NaN and `undefined` are NaN, blank text is 0, and the
      text of a whole number is that number. */
  function ToNumber(v: Value): (n: Option<real>)
    ensures v.Num? ==> n == Some(v.x)
    ensures v.NaN? || v.Undefined? ==> n.None?
    ensures v.Str? && Trim(v.text) == [] ==> n == Some(0.0)
    ensures v.Str? && AllDigits(Trim(v.text)) ==> n == Some(DigitsValue(Trim(v.text)) as real)
  {
    match v
    case Str(s) => ParseNumber(s)
    case Num(x) => Some(x)
    case NaN => None
    case Undefined => None
  }

  /** The total of a sequence of numbers, added up from the left. */
  function Sum(xs: seq<real>): real {
    if xs == [] then 0.0 else Sum(xs[..|xs| - 1]) + xs[|xs| - 1]
  }

  /** Decimal text of a natural number, most significant digit first. */
  function NatToString(n: nat): (s: string)
    ensures AllDigits(s)
  {
    if n < 10 then [DigitChar(n)] else NatToString(n / 10) + [DigitChar(n % 10)]
  }

  /** Decimal text of an integer as it appears in the data file. */
  function IntToString(i: int): string {
    if i < 0 then "-" + NatToString(-i) else NatToString(i)
  }

  lemma {:induction false} DigitsOfNat(n: nat)
    ensures DigitsValue(NatToString(n)) == n
  {
    if n >= 10 {
      DigitsOfNat(n / 10);
      var s := NatToString(n);
      assert s[..|s| - 1] == NatToString(n / 10);
    }
  }

  lemma TrimKeepsDigits(s: string)
    requires AllDigits(s)
    ensures Trim(s) == s
  {
    assert !IsSpace(s[0]);
    assert !IsSpace(s[|s| - 1]);
  }

  /** `+` reads back every integer written in decimal: the loader's text for a
      numeric column parses to the number it spells. */
  lemma ParseIntToString(i: int)
    ensures ToNumber(Str(IntToString(i))) == Some(i as real)
  {
    var s := IntToString(i);
    if i < 0 {
      var d := NatToString(-i);
      DigitsOfNat(-i);
      assert s[1..] == d;
      assert !IsDigit(s[0]);
      assert !IsSpace(s[0]) && !IsSpace(s[|s| - 1]);
      assert Trim(s) == s;
      assert !AllDigits(s);
    } else {
      DigitsOfNat(i);
      TrimKeepsDigits(s);
    }
  }

  /** How a load callback writes a coerced cell back: `+x` as it is, or
      `isNaN(+x) ? 0 : +x`. */
  datatype Mode = Plain | ZeroIfNaN

  /** The value a coercion pass stores.  It is always a number, or NaN under
      plain `+`; NaN exactly when `+` fails and there is no zero fallback; and
      reading it back with `+` gives the parsed number (or 0, or NaN). */
  function Coerce(v: Value, mode: Mode): (w: Value)
    ensures w.Num? || w.NaN?
    ensures w.NaN? <==> mode.Plain? && ToNumber(v).None?
    ensures ToNumber(w) == if mode.ZeroIfNaN? then Some(ToNumber(v).GetOr(0.0)) else ToNumber(v)
  {
    match ToNumber(v)
    case Some(x) => Num(x)
    case None => if mode.ZeroIfNaN? then Num(0.0) else NaN
  }

  /** Coercing twice is coercing once: a number is left as it is. */
  lemma CoerceIdempotent(v: Value, mode: Mode)
    ensures Coerce(Coerce(v, mode), mode) == Coerce(v, mode)
  {
  }
}
