/** Heap integers in the style of Go's big.Int: the receiver of an operation is overwritten in place. */
module BigIntegers {
  import opened Words

  /** Division truncating toward zero. */
  function Truncated(x: int, y: int): int
    requires y != 0
  {
    var magnitude := (if x < 0 then -x else x) / (if y < 0 then -y else y);
    if (x < 0) == (y < 0) then magnitude else -magnitude
  }

  class BigInt {
    var value: int

    constructor (v: int)
      ensures value == v
    {
      value := v;
    }

    function Sign(): int
      reads this
    {
      if value < 0 then -1 else if value == 0 then 0 else 1
    }

    function Cmp(y: BigInt): int
      reads this, y
    {
      if value < y.value then -1 else if value == y.value then 0 else 1
    }

    method Set(x: BigInt)
      modifies this
      ensures value == old(x.value)
    {
      value := x.value;
    }

    method Add(x: BigInt, y: BigInt)
      modifies this
      ensures value == old(x.value) + old(y.value)
    {
      value := x.value + y.value;
    }

    method Sub(x: BigInt, y: BigInt)
      modifies this
      ensures value == old(x.value) - old(y.value)
    {
      value := x.value - y.value;
    }

    method Mul(x: BigInt, y: BigInt)
      modifies this
      ensures value == old(x.value) * old(y.value)
    {
      value := x.value * y.value;
    }

    method Quo(x: BigInt, y: BigInt)
      requires y.value != 0
      modifies this
      ensures value == Truncated(old(x.value), old(y.value))
    {
      value := Truncated(x.value, y.value);
    }

    method Neg(x: BigInt)
      modifies this
      ensures value == -old(x.value)
    {
      value := -x.value;
    }
  }

  /** A non-nil value of at most 256 bits and nonnegative sign. */
  predicate Uint256(v: BigInt?)
    reads v
  {
    v != null && v.Sign() >= 0 && BitLen(v.value) <= 256
  }
}
