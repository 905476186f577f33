/** The value of a bond lot, independently of the order in which the program multiplies. */
module LiquidityValuation {
  import opened Numbers
  import opened Results
  import opened LiquidityTypes

  const SCALE := PAR * PRICE_SCALE * INDEX_SCALE * BPS

  lemma ProductGrows(n: nat, factor: nat)
    requires factor > 0
    ensures n <= n * factor
  {
  }

  /** A checked product fails exactly when the whole product does not fit, wherever the overflow occurs. */
  lemma CheckedProductExact(face: nat, price: nat, index: nat, rate: nat)
    requires price > 0 && index > 0 && rate > 0
    ensures CheckedProduct(face, [price, index, rate])
         == if face * price * index * rate <= U128_MAX then Success(face * price * index * rate)
            else Failure(ArithmeticOverflow)
  {
    var a, b, c := face * price, face * price * index, face * price * index * rate;
    ProductGrows(a, index);
    ProductGrows(b, rate);
    assert [price, index, rate][1..] == [index, rate];
    assert [index, rate][1..] == [rate];
    assert [rate][1..] == [];
    assert CheckedProduct(c, []) == Success(c);
    assert CheckedProduct(b, [rate]) == if c > U128_MAX then Failure(ArithmeticOverflow) else Success(c);
  }

  /**
   A lot has a value exactly when all four factors are present, the haircut is at most par and the
   128-bit product fits; the value is then face x price x index x rate, scaled and rounded down.
   */
  lemma LotValueExact(lot: Lot)
    ensures var n := lot.face * lot.price * lot.index * lot.rate;
      && (LotValue(lot).Success? <==>
            lot.face != 0 && lot.price != 0 && lot.index != 0 && 0 < lot.rate <= BPS
            && n <= U128_MAX && n < (U64_MAX + 1) * SCALE)
      && (LotValue(lot).Success? ==> LotWorth(lot) * SCALE <= n < (LotWorth(lot) + 1) * SCALE)
  {
    if lot.face != 0 && lot.price != 0 && lot.index != 0 && 0 < lot.rate <= BPS {
      CheckedProductExact(lot.face, lot.price, lot.index, lot.rate);
    }
  }
}
