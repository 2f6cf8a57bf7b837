/** The fixed-width integers of the two sides: Solidity's uint256 and int256, Go's uint64 and int64. */
module Words {
  const TWO_63: int := 0x8000_0000_0000_0000
  const TWO_64: int := 0x1_0000_0000_0000_0000
  const TWO_255: int := 0x80000000_00000000_00000000_00000000_00000000_00000000_00000000_00000000
  const TWO_256: int := 0x1_00000000_00000000_00000000_00000000_00000000_00000000_00000000_00000000

  type uint8 = x: int | 0 <= x < 256
  type int64 = x: int | -TWO_63 <= x < TWO_63
  type uint64 = x: int | 0 <= x < TWO_64
  type uint256 = x: int | 0 <= x < TWO_256

  predicate IsUint256(v: int) {
    0 <= v < TWO_256
  }

  function Power(base: int, exponent: nat): int {
    if exponent == 0 then 1 else base * Power(base, exponent - 1)
  }

  lemma {:induction false} PowerAdds(base: int, a: nat, b: nat)
    ensures Power(base, a + b) == Power(base, a) * Power(base, b)
  {
    if a != 0 {
      PowerAdds(base, a - 1, b);
      assert base * (Power(base, a - 1) * Power(base, b)) == base * Power(base, a - 1) * Power(base, b);
    }
  }

  lemma {:induction false} PowerOfTenGrows(a: nat, b: nat)
    requires a <= b
    ensures 1 <= Power(10, a) <= Power(10, b)
    decreases b
  {
    if a < b {
      PowerOfTenGrows(a, b - 1);
    } else if a != 0 {
      PowerOfTenGrows(a - 1, a - 1);
    }
  }

  /** The precision 10^decimals of every admissible asset is a nonzero uint256. */
  lemma AssetPrecisionIsUint256(decimals: nat)
    requires decimals <= 77
    ensures 1 <= Power(10, decimals) < TWO_256
  {
    assert Power(10, 7) == 10_000_000;
    var seven := 7;
    PowerAdds(10, seven, seven);
    PowerAdds(10, 2 * seven, seven);
    assert Power(10, 3 * seven) == 1_000_000_000_000_000_000_000;
    PowerAdds(10, 3 * seven, 3 * seven);
    PowerAdds(10, 6 * seven, 3 * seven);
    assert Power(10, 9 * seven) == 1_000_000_000_000_000_000_000_000_000_000_000_000_000_000_000_000_000_000_000_000_000;
    PowerAdds(10, 9 * seven, 2 * seven);
    PowerOfTenGrows(decimals, 77);
  }

  /** The number of bits of |v|, zero for zero. */
  function BitLen(v: int): nat
    decreases if v < 0 then -v else v
  {
    if v == 0 then 0 else 1 + BitLen((if v < 0 then -v else v) / 2)
  }

  lemma {:induction false} BitLenBounds(v: int, bits: nat)
    ensures BitLen(v) <= bits <==> -Power(2, bits) < v < Power(2, bits)
    decreases bits
  {
    var magnitude := if v < 0 then -v else v;
    if v == 0 {
      PowerOfTwoIsPositive(bits);
    } else if bits != 0 {
      BitLenBounds(magnitude / 2, bits - 1);
      PowerOfTwoIsPositive(bits - 1);
    }
  }

  lemma {:induction false} PowerOfTwoIsPositive(bits: nat)
    ensures Power(2, bits) > 0
  {
    if bits != 0 {
      PowerOfTwoIsPositive(bits - 1);
    }
  }

  lemma WordPowers()
    ensures Power(2, 255) == TWO_255 && Power(2, 256) == TWO_256
  {
    assert Power(2, 7) == 128;
    PowerAdds(2, 1, 7);
    PowerAdds(2, 8, 7);
    PowerAdds(2, 8, 8);
    PowerAdds(2, 16, 15);
    PowerAdds(2, 16, 16);
    PowerAdds(2, 32, 31);
    PowerAdds(2, 32, 32);
    PowerAdds(2, 64, 63);
    PowerAdds(2, 64, 64);
    PowerAdds(2, 128, 127);
    PowerAdds(2, 1, 255);
  }

  /** Go's width tests by bit length are the interval tests used everywhere else. */
  lemma BitLenIsWordWidth(v: int)
    ensures v >= 0 && BitLen(v) <= 256 <==> IsUint256(v)
    ensures BitLen(v) > 255 <==> v <= -TWO_255 || TWO_255 <= v
  {
    WordPowers();
    BitLenBounds(v, 256);
    BitLenBounds(v, 255);
  }
}
