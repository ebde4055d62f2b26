/** Amounts of money. Prices are reals; a price times a whole quantity is `Times`, defined by
    repeated addition so that reasoning about cart totals stays within linear arithmetic. */
module Money {

  /** price * n for a whole number n. */
  function Times(price: real, n: int): real
    decreases if n < 0 then -n else n
  {
    if n == 0 then 0.0
    else if n > 0 then Times(price, n - 1) + price
    else Times(price, n + 1) - price
  }

  /** Times is real multiplication. */
  lemma {:induction false} TimesIsProduct(price: real, n: int)
    ensures Times(price, n) == price * (n as real)
    decreases if n < 0 then -n else n
  {
    if n > 0 {
      TimesIsProduct(price, n - 1);
      assert price * ((n - 1) as real) + price == price * (n as real);
    } else if n < 0 {
      TimesIsProduct(price, n + 1);
      assert price * ((n + 1) as real) - price == price * (n as real);
    }
  }

  lemma TimesSucc(price: real, n: int)
    ensures Times(price, n + 1) == Times(price, n) + price
  {
  }

  /** Times distributes over a sum of quantities. */
  lemma {:induction false} TimesAdd(price: real, a: int, b: int)
    ensures Times(price, a + b) == Times(price, a) + Times(price, b)
    decreases if b < 0 then -b else b
  {
    if b > 0 {
      TimesAdd(price, a, b - 1);
      TimesSucc(price, a + b - 1);
      TimesSucc(price, b - 1);
    } else if b < 0 {
      TimesAdd(price, a, b + 1);
      TimesSucc(price, a + b);
      TimesSucc(price, b);
    }
  }

  /** Times distributes over a difference of prices. */
  lemma {:induction false} TimesSub(p1: real, p2: real, n: int)
    ensures Times(p1, n) - Times(p2, n) == Times(p1 - p2, n)
    decreases if n < 0 then -n else n
  {
    if n > 0 {
      TimesSub(p1, p2, n - 1);
    } else if n < 0 {
      TimesSub(p1, p2, n + 1);
    }
  }
}
