/**
 The constant-product pool: integer arithmetic with a floor and a 0.3% fee that stays in
 the pool.  `a` is the reserve of TUSDC, `b` that of DRB.
 */
module Amm {
  import opened Common

  const FEE_BPS: nat := 30
  const KEPT: nat := 10_000 - FEE_BPS

  datatype Token = TUSDC | DRB

  datatype Pool = Pool(a: int, b: int) {
    predicate Positive() {
      a > 0 && b > 0
    }

    function In(token: Token): int {
      if token.TUSDC? then a else b
    }

    function Out(token: Token): int {
      if token.TUSDC? then b else a
    }

    /** The pool after it took `x` of `token` and gave `out` of the other. */
    function Moved(token: Token, x: int, out: int): Pool {
      if token.TUSDC? then Pool(a + x, b - out) else Pool(a - out, b + x)
    }
  }

  /** Python's floor division, defined for either sign of a non-zero divisor. */
  function FloorDiv(n: int, d: int): int
    requires d != 0
  {
    if d > 0 then n / d else (-n) / (-d)
  }

  lemma {:induction false} FloorDivFloors(n: int, d: int)
    requires d != 0
    ensures d > 0 ==> d * FloorDiv(n, d) <= n < d * FloorDiv(n, d) + d
    ensures d < 0 ==> d * FloorDiv(n, d) >= n > d * FloorDiv(n, d) + d
  {
    if d < 0 {
      assert (-d) * ((-n) / (-d)) <= -n < (-d) * ((-n) / (-d)) + (-d);
    }
  }

  function Divisor(pool: Pool, token: Token, x: int): int {
    pool.In(token) * 10_000 + x * KEPT
  }

  function Quote(pool: Pool, token: Token, x: int): int
    requires Divisor(pool, token, x) != 0
  {
    FloorDiv(x * KEPT * pool.Out(token), Divisor(pool, token, x))
  }

  datatype SwapError = Slippage | DivisionByZero

  function Swap(pool: Pool, token: Token, x: int, minOut: int): (r: Result<(Pool, int), SwapError>) {
    if Divisor(pool, token, x) == 0 then Err(DivisionByZero)
    else
      var out := Quote(pool, token, x);
      if out < minOut then Err(Slippage) else Ok((pool.Moved(token, x, out), out))
  }

  class ConstantProductAMM {
    var a: int
    var b: int

    ghost function View(): Pool
      reads this
    {
      Pool(a, b)
    }

    constructor (reserveA: int, reserveB: int)
      requires reserveA > 0 && reserveB > 0
      ensures View() == Pool(reserveA, reserveB)
    {
      a, b := reserveA, reserveB;
    }

    method SwapTokens(token: Token, amountIn: int, minOut: int) returns (r: Result<int, SwapError>)
      modifies this
      ensures Swap(old(View()), token, amountIn, minOut).Err? ==>
                View() == old(View()) && r == Err(Swap(old(View()), token, amountIn, minOut).error)
      ensures Swap(old(View()), token, amountIn, minOut).Ok? ==>
                (View(), r) == (Swap(old(View()), token, amountIn, minOut).value.0,
                                Ok(Swap(old(View()), token, amountIn, minOut).value.1))
      ensures r.Err? ==> a == old(a) && b == old(b)
      ensures r.Ok? ==> minOut <= r.value
      ensures r.Ok? && token == TUSDC ==> a == old(a) + amountIn && b == old(b) - r.value
      ensures r.Ok? && token == DRB ==> b == old(b) + amountIn && a == old(a) - r.value
    {
      if Divisor(Pool(a, b), token, amountIn) == 0 {
        return Err(DivisionByZero);
      }
      var out := Quote(Pool(a, b), token, amountIn);
      if out < minOut {
        return Err(Slippage);
      }
      if token.TUSDC? {
        a := a + amountIn;
        b := b - out;
      } else {
        b := b + amountIn;
        a := a - out;
      }
      return Ok(out);
    }
  }

  // ---------- one swap ----------

  /** The quote is the largest integer whose payment the fee-reduced input covers. */
  lemma {:induction false} QuoteIsLargest(pool: Pool, token: Token, x: nat, o: nat)
    requires pool.Positive()
    ensures Divisor(pool, token, x) > 0 && Quote(pool, token, x) >= 0
    ensures o <= Quote(pool, token, x) <==> o * Divisor(pool, token, x) <= x * KEPT * pool.Out(token)
  {
    DivIsLargest(x * KEPT * pool.Out(token), Divisor(pool, token, x), o);
  }

  /** In numbers: 9970 of every 10000 units of the input count, whichever token is sold. */
  lemma {:induction false} QuoteInNumbers(pool: Pool, x: nat, o: nat)
    requires pool.Positive()
    ensures Divisor(pool, TUSDC, x) > 0 && Divisor(pool, DRB, x) > 0
    ensures o <= Quote(pool, TUSDC, x) <==> o * (pool.a * 10_000 + x * 9_970) <= x * 9_970 * pool.b
    ensures o <= Quote(pool, DRB, x) <==> o * (pool.b * 10_000 + x * 9_970) <= x * 9_970 * pool.a
  {
    QuoteIsLargest(pool, TUSDC, x, o);
    QuoteIsLargest(pool, DRB, x, o);
    assert Divisor(pool, TUSDC, x) == pool.a * 10_000 + x * 9_970;
    assert Divisor(pool, DRB, x) == pool.b * 10_000 + x * 9_970;
    hide Quote, Divisor;
  }

  lemma {:induction false} DivIsLargest(n: nat, d: nat, o: nat)
    requires d > 0
    ensures o <= n / d <==> o * d <= n
    ensures n / d >= 0
  {
    var q := n / d;
    assert d * q <= n < d * q + d;
    MulMonotone(d, o, q);
    MulMonotone(d, q + 1, o);
  }

  lemma {:induction false} KeyInequality(rin: nat, rout: nat, x: nat, o: nat)
    requires rin > 0 && rout > 0 && o * (rin * 10_000 + x * KEPT) <= x * KEPT * rout
    ensures o < rout
    ensures o * rin * 10_000 <= x * KEPT * (rout - o)
    ensures o * (rin + x) <= x * rout
  {
    var d := rin * 10_000 + x * KEPT;
    assert d * rout == rout * rin * 10_000 + x * KEPT * rout && rout * rin > 0;
    MulMonotone(d, rout, o);
    assert o * (rin * 10_000 + x * KEPT) == o * rin * 10_000 + x * KEPT * o;
    assert x * KEPT * (rout - o) == x * KEPT * rout - x * KEPT * o;
    assert o * rin * 10_000 <= x * (rout - o) * 10_000 by {
      assert x * KEPT * (rout - o) == x * (rout - o) * KEPT;
      assert x * (rout - o) >= 0;
    }
    assert o * (rin + x) == o * rin + x * o;
    assert x * (rout - o) == x * rout - x * o;
  }

  /** A swap of a non-negative amount pays out less than the reserve, leaves both reserves
      positive and never lowers their product. */
  lemma {:induction false} SwapKeepsProduct(pool: Pool, token: Token, x: nat)
    requires pool.Positive()
    ensures Divisor(pool, token, x) > 0
    ensures 0 <= Quote(pool, token, x) < pool.Out(token)
    ensures var after := pool.Moved(token, x, Quote(pool, token, x));
            after.Positive() && after.a * after.b >= pool.a * pool.b
  {
    QuoteIsLargest(pool, token, x, 0);
    var o, rin, rout := Quote(pool, token, x), pool.In(token), pool.Out(token);
    QuoteIsLargest(pool, token, x, o);
    KeyInequality(rin, rout, x, o);
    assert (rin + x) * (rout - o) == rin * rout + x * rout - o * (rin + x);
    var after := pool.Moved(token, x, o);
    assert after.a * after.b == (rin + x) * (rout - o);
    assert pool.a * pool.b == rin * rout;
  }

  function Other(token: Token): Token {
    if token.TUSDC? then DRB else TUSDC
  }

  /** Selling back exactly what a swap bought returns strictly less than was paid. */
  lemma {:induction false} RoundTripLoses(pool: Pool, token: Token, x: nat)
    requires pool.Positive() && x > 0
    ensures Divisor(pool, token, x) > 0
    ensures var out := Quote(pool, token, x);
            var after := pool.Moved(token, x, out);
            out >= 0 && after.Positive() && Divisor(after, Other(token), out) > 0
            && Quote(after, Other(token), out) < x
  {
    SwapKeepsProduct(pool, token, x);
    var o, rin, rout := Quote(pool, token, x), pool.In(token), pool.Out(token);
    QuoteIsLargest(pool, token, x, o);
    KeyInequality(rin, rout, x, o);
    var after := pool.Moved(token, x, o);
    QuoteIsLargest(after, Other(token), o, x);
    RoundTripArithmetic(rin, rout, x, o);
  }

  lemma {:induction false} RoundTripArithmetic(rin: nat, rout: nat, x: nat, o: nat)
    requires x > 0 && o < rout && o * rin * 10_000 <= x * KEPT * (rout - o)
    ensures x * ((rout - o) * 10_000 + o * KEPT) > o * KEPT * (rin + x)
  {
    var left := x * (rout - o);
    assert left > 0;
    assert x * KEPT * (rout - o) == left * KEPT;
    assert x * ((rout - o) * 10_000 + o * KEPT) == left * 10_000 + x * o * KEPT;
    assert o * KEPT * (rin + x) == o * rin * KEPT + x * o * KEPT;
    assert o * rin * KEPT < left * 10_000;
  }

  // ---------- splitting ----------

  function Total(xs: seq<nat>): nat {
    if xs == [] then 0 else xs[0] + Total(xs[1..])
  }

  /** What a trader receives for swapping the inputs one after another. */
  function SplitOutput(pool: Pool, token: Token, xs: seq<nat>): int
    requires pool.Positive()
    decreases |xs|
  {
    if xs == [] then 0
    else
      SwapKeepsProduct(pool, token, xs[0]);
      var out := Quote(pool, token, xs[0]);
      out + SplitOutput(pool.Moved(token, xs[0], out), token, xs[1..])
  }

  lemma {:induction false} SplitArithmetic(rin: nat, rout: nat, x: nat, y: nat, o: nat, p: nat)
    requires o <= rout
    requires o * (rin * 10_000 + x * KEPT) <= x * KEPT * rout
    requires p * ((rin + x) * 10_000 + y * KEPT) <= y * KEPT * (rout - o)
    ensures (o + p) * (rin * 10_000 + (x + y) * KEPT) <= (x + y) * KEPT * rout
  {
    var d := rin * 10_000 + (x + y) * KEPT;
    assert p * d <= p * ((rin + x) * 10_000 + y * KEPT) by {
      assert d <= (rin + x) * 10_000 + y * KEPT;
    }
    assert o * d == o * (rin * 10_000 + x * KEPT) + y * KEPT * o;
    assert y * KEPT * (rout - o) == y * KEPT * rout - y * KEPT * o;
    assert (o + p) * d == o * d + p * d;
    assert (x + y) * KEPT * rout == x * KEPT * rout + y * KEPT * rout;
  }

  lemma {:induction false} SplitInTwo(pool: Pool, token: Token, x: nat, y: nat)
    requires pool.Positive() && Divisor(pool, token, x) > 0
    requires pool.Moved(token, x, Quote(pool, token, x)).Positive()
    ensures Divisor(pool.Moved(token, x, Quote(pool, token, x)), token, y) > 0 && Divisor(pool, token, x + y) > 0
    ensures Quote(pool, token, x) + Quote(pool.Moved(token, x, Quote(pool, token, x)), token, y)
         <= Quote(pool, token, x + y)
  {
    SwapKeepsProduct(pool, token, x);
    var o := Quote(pool, token, x);
    var after := pool.Moved(token, x, o);
    SwapKeepsProduct(after, token, y);
    var p := Quote(after, token, y);
    QuoteIsLargest(pool, token, x, o);
    QuoteIsLargest(after, token, y, p);
    SplitArithmetic(pool.In(token), pool.Out(token), x, y, o, p);
    QuoteIsLargest(pool, token, x + y, o + p);
  }

  /** Splitting never pays: any list of same-direction inputs yields at most the one quote
      on their sum, floors included. */
  lemma {:induction false} SplittingNeverPays(pool: Pool, token: Token, xs: seq<nat>)
    requires pool.Positive()
    ensures Divisor(pool, token, Total(xs)) > 0
    ensures SplitOutput(pool, token, xs) <= Quote(pool, token, Total(xs))
    decreases |xs|
  {
    SwapKeepsProduct(pool, token, Total(xs));
    if xs != [] {
      var x := xs[0];
      SwapKeepsProduct(pool, token, x);
      SplittingNeverPays(pool.Moved(token, x, Quote(pool, token, x)), token, xs[1..]);
      SplitInTwo(pool, token, x, Total(xs[1..]));
    }
  }

  // ---------- sequences of swaps ----------

  datatype Trade = Trade(token: Token, amount: nat)

  function Traded(pool: Pool, trades: seq<Trade>): (r: Pool)
    requires pool.Positive()
    ensures r.Positive() && r.a * r.b >= pool.a * pool.b
    decreases |trades|
  {
    if trades == [] then pool
    else
      var t := trades[0];
      SwapKeepsProduct(pool, t.token, t.amount);
      Traded(pool.Moved(t.token, t.amount, Quote(pool, t.token, t.amount)), trades[1..])
  }

  /**
   Front-running, back-running, or both, in any number of trades either way: around an
   executed swap of v with floor minOut, trades that put no own amount of the bought token into
   the pool earn at most P of the sold one, with (in + v - P) * (out - minOut) >= in * out.
   */
  lemma {:induction false} SandwichBound(pool: Pool, token: Token, front: seq<Trade>, v: nat, minOut: nat, back: seq<Trade>)
    requires pool.Positive()
    requires Swap(Traded(pool, front), token, v, minOut).Ok?
    requires var before, (after, out) := Traded(pool, front), Swap(Traded(pool, front), token, v, minOut).value;
             after.Positive()
             && (before.Out(token) - pool.Out(token)) + (Traded(after, back).Out(token) - after.Out(token)) <= 0
    ensures var before, (after, out) := Traded(pool, front), Swap(Traded(pool, front), token, v, minOut).value;
            var profit := (pool.In(token) - before.In(token)) + (after.In(token) - Traded(after, back).In(token));
            (pool.In(token) + v - profit) * (pool.Out(token) - minOut) >= pool.In(token) * pool.Out(token)
  {
    var before := Traded(pool, front);
    var (after, out) := Swap(before, token, v, minOut).value;
    SwapKeepsProduct(before, token, v);
    var final := Traded(after, back);
    Product(pool, token);
    Product(final, token);
    var rin, rout := final.In(token), final.Out(token);
    assert rin == pool.In(token) + v - ((pool.In(token) - before.In(token)) + (after.In(token) - rin));
    assert rout <= pool.Out(token) - minOut;
    hide Pool.In, Pool.Out, Traded, Swap, Quote;
    MulMonotone(rin, rout, pool.Out(token) - minOut);
  }

  lemma {:induction false} Product(pool: Pool, token: Token)
    ensures pool.In(token) * pool.Out(token) == pool.a * pool.b
  {}

  lemma {:induction false} MulMonotone(x: nat, y: int, z: int)
    ensures y <= z ==> x * y <= x * z
  {}
}
