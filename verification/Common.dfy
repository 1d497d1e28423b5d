/** Error kinds and the failure-compatible result type shared by every crate of the proxy. */
module Common {

  /** The kinds of `ProxyError` this model distinguishes; messages are not modelled. */
  datatype ErrorKind = InvalidInput | FeatureNotSupported | AmbiguousWrite | Dependency | Database

  datatype Option<+T> = None | Some(value: T)

  datatype Result<+T> = Ok(value: T) | Err(kind: ErrorKind) {
    predicate IsFailure() { Err? }

    function PropagateFailure<U>(): Result<U>
      requires Err?
    {
      Err(kind)
    }

    function Extract(): T
      requires Ok?
    {
      value
    }
  }

  /** The payload of a statement that only succeeds or fails. */
  datatype Unit = Unit

  type I32 = i: int | -0x8000_0000 <= i < 0x8000_0000
  type I64 = i: int | -0x8000_0000_0000_0000 <= i < 0x8000_0000_0000_0000

  const MAX_USIZE: nat := 0xFFFF_FFFF_FFFF_FFFF

  /** An IEEE double up to rounding: every finite value is a real number, and the two
      zeroes are told apart because the audit log treats them differently. */
  datatype Float64 = NaN | Infinite(negative: bool) | NegativeZero | Finite(value: real)

  predicate IsFinite(x: Float64) { x.NegativeZero? || x.Finite? }

  function RealOf(x: Float64): real
    requires IsFinite(x)
  {
    if x.Finite? then x.value else 0.0
  }

  /** IEEE `<`: false whenever an operand is NaN. */
  predicate FloatLess(x: Float64, y: Float64)
  {
    if x.NaN? || y.NaN? then false
    else if x.Infinite? then x.negative && !(y.Infinite? && y.negative)
    else if y.Infinite? then !y.negative
    else RealOf(x) < RealOf(y)
  }

  /** IEEE `==`, except that NaN equals itself, as it does in a MongoDB filter. */
  predicate FloatSame(x: Float64, y: Float64)
  {
    if IsFinite(x) && IsFinite(y) then RealOf(x) == RealOf(y) else x == y
  }

  /** The order of doubles: that of the real numbers with both zeroes equal, between the two
      infinities, and nothing about NaN. */
  lemma FloatOrder(x: Float64, y: Float64)
    ensures x.Finite? && y.Finite? ==> (FloatLess(x, y) <==> x.value < y.value) && (FloatSame(x, y) <==> x == y)
    ensures x.NegativeZero? ==>
            FloatLess(x, y) == FloatLess(Finite(0.0), y) && FloatSame(x, y) == FloatSame(Finite(0.0), y)
    ensures y.NegativeZero? ==>
            FloatLess(x, y) == FloatLess(x, Finite(0.0)) && FloatSame(x, y) == FloatSame(x, Finite(0.0))
    ensures x.Infinite? ==> (FloatLess(x, y) <==> x.negative && !y.NaN? && y != x)
    ensures y.Infinite? ==> (FloatLess(x, y) <==> !y.negative && !x.NaN? && x != y)
    ensures x.Infinite? || y.Infinite? || x.NaN? || y.NaN? ==> (FloatSame(x, y) <==> x == y)
    ensures x.NaN? || y.NaN? ==> !FloatLess(x, y)
  {
  }
}
