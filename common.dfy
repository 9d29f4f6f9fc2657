/** Shapes shared by every service: results of operations that may throw, outcomes of calls into
    code outside the model, Java's 32-bit `int`, and the decimal rendering used in messages. */
module Common {

  datatype Option<+T> = None | Some(value: T)

  /** What a service operation yields: a value, or the message of the exception it throws. */
  datatype Result<+T> = Ok(value: T) | Err(message: string)

  /** The outcome of a call into another service whose answer is used. */
  datatype Call<+T> = Returns(value: T) | Throws(message: string)

  /** The outcome of a call whose answer is ignored (a remote call, a save, a publish). */
  datatype Step = Completes | Fails(message: string)

  const MinInt32: int := -0x8000_0000
  const MaxInt32: int := 0x7fff_ffff

  /** Java's `int` (and the value of an `Integer`). */
  type Int32 = x: int | -0x8000_0000 <= x <= 0x7fff_ffff

  /** Two's-complement truncation of a mathematical integer to 32 bits, as Java's `int` arithmetic does. */
  function Wrap32(x: int): (r: Int32)
    ensures MinInt32 <= x <= MaxInt32 ==> r == x
    ensures MaxInt32 < x <= MaxInt32 + 0x1_0000_0000 ==> r == x - 0x1_0000_0000
    ensures MinInt32 - 0x1_0000_0000 <= x < MinInt32 ==> r == x + 0x1_0000_0000
    ensures (x - r) % 0x1_0000_0000 == 0
  {
    (x + 0x8000_0000) % 0x1_0000_0000 - 0x8000_0000
  }

  /** Java's `a + b` on `int`. */
  function AddInt32(a: Int32, b: Int32): Int32 {
    Wrap32(a + b)
  }

  /** Java's `a - b` on `int`. */
  function SubInt32(a: Int32, b: Int32): Int32 {
    Wrap32(a - b)
  }

  /** Two values of Int32 that agree modulo 2^32 are equal. */
  lemma {:induction false} CongruentInt32AreEqual(a: Int32, b: Int32)
    requires (a - b) % 0x1_0000_0000 == 0
    ensures a == b
  {
  }

  /** Subtracting and then adding the same amount gives back the original value, overflow or not:
      both operations wrap modulo 2^32. */
  lemma {:induction false} AddUndoesSub(a: Int32, b: Int32)
    ensures AddInt32(SubInt32(a, b), b) == a
  {
    var s := SubInt32(a, b);
    var t := AddInt32(s, b);
    assert (a - b - s) % 0x1_0000_0000 == 0;
    assert (s + b - t) % 0x1_0000_0000 == 0;
    assert (t - a) % 0x1_0000_0000 == 0 by {
      ModSum(a - b - s, s + b - t);
    }
    CongruentInt32AreEqual(t, a);
  }

  /** The sum of two multiples of 2^32, negated, is one. */
  lemma {:induction false} ModSum(x: int, y: int)
    requires x % 0x1_0000_0000 == 0 && y % 0x1_0000_0000 == 0
    ensures (-(x + y)) % 0x1_0000_0000 == 0
  {
    var m := 0x1_0000_0000;
    var i := x / m;
    var j := y / m;
    assert x == m * i;
    assert y == m * j;
    assert -(x + y) == m * (-(i + j));
  }

  function Digit(d: nat): char
    requires d < 10
  {
    "0123456789"[d]
  }

  function NatToString(n: nat): string
    decreases n
  {
    if n < 10 then [Digit(n)] else NatToString(n / 10) + [Digit(n % 10)]
  }

  /** Java's decimal rendering of a `long`, as string concatenation uses it. */
  function IntToString(n: int): string {
    if n < 0 then "-" + NatToString(-n) else NatToString(n)
  }
}
