/** JavaScript runtime values as the converters observe them: optional fields,
    thrown exceptions, JSON scalars with their truthiness and String() form,
    and the integral part of IEEE numbers (NaN and the two infinities that
    Math.min/Math.max and arithmetic on undefined produce). */
module Js {

  datatype Option<+T> = None | Some(value: T)

  /** The outcome of a JavaScript computation that may throw: a value, or an
      exception carrying its `message`. */
  datatype Result<+T> = Ok(value: T) | Throw(message: string) {
    predicate IsFailure() { Throw? }
    function PropagateFailure<U>(): Result<U> requires Throw? { Throw(message) }
    function Extract(): T requires Ok? { value }
  }

  /** A JSON scalar read from a node property; `Undefined` is a missing property. */
  datatype Value = Undefined | Null | Bool(b: bool) | Num(n: int) | Str(s: string)

  /** JavaScript truthiness (`if (v)`, `v || d`). */
  predicate Truthy(v: Value)
  {
    match v
    case Undefined => false
    case Null => false
    case Bool(b) => b
    case Num(n) => n != 0
    case Str(s) => s != ""
  }

  /** `String(v)`. */
  function ToText(v: Value): (r: string)
    ensures v.Str? ==> r == v.s
    ensures v.Num? ==> r == IntText(v.n)
  {
    match v
    case Undefined => "undefined"
    case Null => "null"
    case Bool(b) => if b then "true" else "false"
    case Num(n) => IntText(n)
    case Str(s) => s
  }

  // ---------------------------------------------------------------------------
  // Decimal rendering of integers (Number.prototype.toString for integral values)

  predicate IsDigit(c: char) { '0' <= c <= '9' }

  function DigitChar(d: nat): (c: char)
    requires d < 10
    ensures IsDigit(c) && c as int - '0' as int == d
  {
    (d + '0' as int) as char
  }

  function DigitValue(c: char): (d: nat)
    requires IsDigit(c)
    ensures d < 10
  {
    c as int - '0' as int
  }

  function NatText(n: nat): (r: string)
    ensures 1 <= |r|
    ensures forall i :: 0 <= i < |r| ==> IsDigit(r[i])
    ensures r[0] == '0' <==> n == 0
    decreases n
  {
    if n < 10 then [DigitChar(n)] else NatText(n / 10) + [DigitChar(n % 10)]
  }

  function IntText(i: int): (r: string)
    ensures 1 <= |r|
    ensures i < 0 <==> r[0] == '-'
  {
    if i < 0 then "-" + NatText(-i) else NatText(i)
  }

  /** Value of a string of decimal digits (most significant first). */
  function DigitsValue(s: string): nat
    requires forall i :: 0 <= i < |s| ==> IsDigit(s[i])
  {
    if s == [] then 0 else 10 * DigitsValue(s[..|s| - 1]) + DigitValue(s[|s| - 1])
  }

  /** Reading the digits back gives the number: the decimal rendering is faithful. */
  lemma {:induction false} NatTextRoundTrip(n: nat)
    ensures DigitsValue(NatText(n)) == n
    decreases n
  {
    if n >= 10 {
      NatTextRoundTrip(n / 10);
      var r := NatText(n);
      assert r[..|r| - 1] == NatText(n / 10);
    }
  }

  // ---------------------------------------------------------------------------
  // Numbers

  /** The JavaScript numbers the drawing code can produce from integer
      coordinates: NaN (arithmetic on `undefined`), the two infinities (the
      start values of a min/max scan) and finite integers. */
  datatype Number = NaN | NegInf | PosInf | Finite(i: int)

  /** `Math.min(a, b)`: NaN if either is NaN. */
  function Min(a: Number, b: Number): (r: Number)
    ensures (a.NaN? || b.NaN?) <==> r.NaN?
    ensures a.Finite? && b.Finite? ==> r == Finite(if a.i <= b.i then a.i else b.i)
    ensures a == PosInf && !b.NaN? ==> r == b
  {
    match (a, b)
    case (NaN, _) => NaN
    case (_, NaN) => NaN
    case (NegInf, _) => NegInf
    case (_, NegInf) => NegInf
    case (PosInf, _) => b
    case (_, PosInf) => a
    case (Finite(x), Finite(y)) => Finite(if x <= y then x else y)
  }

  /** `Math.max(a, b)`: NaN if either is NaN. */
  function Max(a: Number, b: Number): (r: Number)
    ensures (a.NaN? || b.NaN?) <==> r.NaN?
    ensures a.Finite? && b.Finite? ==> r == Finite(if a.i >= b.i then a.i else b.i)
    ensures a == NegInf && !b.NaN? ==> r == b
  {
    match (a, b)
    case (NaN, _) => NaN
    case (_, NaN) => NaN
    case (PosInf, _) => PosInf
    case (_, PosInf) => PosInf
    case (NegInf, _) => b
    case (_, NegInf) => a
    case (Finite(x), Finite(y)) => Finite(if x >= y then x else y)
  }

  function Neg(a: Number): Number
  {
    match a
    case NaN => NaN
    case NegInf => PosInf
    case PosInf => NegInf
    case Finite(x) => Finite(-x)
  }

  /** `a + b`; Infinity + -Infinity is NaN. */
  function Add(a: Number, b: Number): (r: Number)
    ensures a.Finite? && b.Finite? ==> r == Finite(a.i + b.i)
    ensures (a.NaN? || b.NaN?) ==> r.NaN?
  {
    match (a, b)
    case (NaN, _) => NaN
    case (_, NaN) => NaN
    case (PosInf, NegInf) => NaN
    case (NegInf, PosInf) => NaN
    case (PosInf, _) => PosInf
    case (NegInf, _) => NegInf
    case (_, PosInf) => PosInf
    case (_, NegInf) => NegInf
    case (Finite(x), Finite(y)) => Finite(x + y)
  }

  /** `a - b`. */
  function Sub(a: Number, b: Number): (r: Number)
    ensures a.Finite? && b.Finite? ==> r == Finite(a.i - b.i)
  {
    Add(a, Neg(b))
  }

  /** `a > b`; every comparison with NaN is false. */
  predicate Greater(a: Number, b: Number)
  {
    match (a, b)
    case (NaN, _) => false
    case (_, NaN) => false
    case (PosInf, PosInf) => false
    case (PosInf, _) => true
    case (NegInf, _) => false
    case (Finite(_), NegInf) => true
    case (Finite(_), PosInf) => false
    case (Finite(x), Finite(y)) => x > y
  }

  /** A property that holds a number, or `undefined` when it is absent. */
  function OptNumber(v: Option<int>): (r: Number)
    ensures r.NaN? <==> v.None?
  {
    if v.Some? then Finite(v.value) else NaN
  }

  /** `String(n)` for the numbers above (magnitudes below 1e21). */
  function NumberText(n: Number): string
  {
    match n
    case NaN => "NaN"
    case NegInf => "-Infinity"
    case PosInf => "Infinity"
    case Finite(x) => IntText(x)
  }

  /** `String(n / 2)` for a finite or non-finite `n`: halving an integer is
      exact in binary, so the text is the integer or its `.5` form. */
  function HalfText(n: Number): (r: string)
    ensures n.Finite? && n.i % 2 == 0 ==> r == IntText(n.i / 2)
  {
    match n
    case Finite(x) =>
      if x % 2 == 0 then IntText(x / 2)
      else if x < 0 then "-" + NatText((-x) / 2) + ".5"
      else NatText(x / 2) + ".5"
    case _ => NumberText(n)
  }

  /** `String(k / 100)` for an integer `k`: the shortest decimal, trailing zeros
      removed (exact for |k| below 10^15). */
  function HundredthsText(k: int): (r: string)
    ensures k % 100 == 0 ==> r == IntText(k / 100)
  {
    var m: nat := if k < 0 then -k else k;
    var sign := if k < 0 then "-" else "";
    var frac := m % 100;
    if frac == 0 then IntText(k / 100)
    else if frac % 10 == 0 then sign + NatText(m / 100) + "." + [DigitChar(frac / 10)]
    else sign + NatText(m / 100) + "." + [DigitChar(frac / 10), DigitChar(frac % 10)]
  }

  /** `String(k / 10)` written as the exact decimal. */
  function TenthsText(k: int): (r: string)
    ensures k % 10 == 0 ==> r == IntText(k / 10)
  {
    var m: nat := if k < 0 then -k else k;
    if k % 10 == 0 then IntText(k / 10)
    else (if k < 0 then "-" else "") + NatText(m / 10) + "." + [DigitChar(m % 10)]
  }

  // ---------------------------------------------------------------------------
  // Accumulating strings

  /** `xs.forEach(x => out += f(x))`, or `xs.map(f).join('')`, where `f` may
      throw: the pieces concatenated in order, or the first exception. */
  function ConcatMap<T>(xs: seq<T>, f: T -> Result<string>): Result<string>
  {
    if xs == [] then Ok("")
    else
      var head :- ConcatMap(xs[..|xs| - 1], f);
      var last :- f(xs[|xs| - 1]);
      Ok(head + last)
  }

  /** One more element: its piece is appended, or its exception ends the run. */
  lemma ConcatMapSnoc<T>(xs: seq<T>, i: nat, f: T -> Result<string>)
    requires i < |xs| && ConcatMap(xs[..i], f).Ok?
    ensures f(xs[i]).Throw? ==> ConcatMap(xs[..i + 1], f) == Throw(f(xs[i]).message)
    ensures f(xs[i]).Ok? ==> ConcatMap(xs[..i + 1], f) == Ok(ConcatMap(xs[..i], f).value + f(xs[i]).value)
  {
    assert xs[..i + 1][..i] == xs[..i];
  }

  /** After an exception nothing else runs: the whole run fails with it. */
  lemma {:induction false} ConcatMapKeepsThrow<T>(xs: seq<T>, k: nat, f: T -> Result<string>)
    requires k <= |xs| && ConcatMap(xs[..k], f).Throw?
    ensures ConcatMap(xs, f) == ConcatMap(xs[..k], f)
    decreases |xs| - k
  {
    if k < |xs| {
      assert xs[..k + 1][..k] == xs[..k];
      assert ConcatMap(xs[..k + 1], f) == ConcatMap(xs[..k], f);
      ConcatMapKeepsThrow(xs, k + 1, f);
    } else {
      assert xs[..k] == xs;
    }
  }

  /** The pieces of a concatenation are the pieces of its parts, in order. */
  lemma {:induction false} ConcatMapAppend<T>(a: seq<T>, b: seq<T>, f: T -> Result<string>)
    requires ConcatMap(a, f).Ok? && ConcatMap(b, f).Ok?
    ensures ConcatMap(a + b, f) == Ok(ConcatMap(a, f).value + ConcatMap(b, f).value)
    decreases |b|
  {
    if b == [] {
      assert a + b == a;
      assert ConcatMap(a, f).value + "" == ConcatMap(a, f).value;
    } else {
      var b0 := b[..|b| - 1];
      assert (a + b)[..|a + b| - 1] == a + b0;
      assert (a + b)[|a + b| - 1] == b[|b| - 1];
      ConcatMapAppend(a, b0, f);
      assert ConcatMap(a, f).value + ConcatMap(b0, f).value + f(b[|b| - 1]).value
        == ConcatMap(a, f).value + (ConcatMap(b0, f).value + f(b[|b| - 1]).value);
    }
  }

  /** The run succeeds exactly when every piece does. */
  lemma {:induction false} ConcatMapOk<T>(xs: seq<T>, f: T -> Result<string>)
    ensures ConcatMap(xs, f).Ok? <==> forall i :: 0 <= i < |xs| ==> f(xs[i]).Ok?
    decreases |xs|
  {
    if xs != [] {
      var init := xs[..|xs| - 1];
      ConcatMapOk(init, f);
      assert forall i :: 0 <= i < |init| ==> init[i] == xs[i];
    }
  }

  /** When every piece that fails fails with the same message, so does the
      run. */
  lemma {:induction false} ConcatMapThrowMessage<T>(xs: seq<T>, f: T -> Result<string>, m: string)
    requires forall i :: 0 <= i < |xs| && f(xs[i]).Throw? ==> f(xs[i]).message == m
    ensures ConcatMap(xs, f).Throw? ==> ConcatMap(xs, f).message == m
    decreases |xs|
  {
    if xs != [] {
      var init := xs[..|xs| - 1];
      assert forall i :: 0 <= i < |init| ==> init[i] == xs[i];
      ConcatMapThrowMessage(init, f, m);
    }
  }
}
