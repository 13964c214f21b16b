/**
 The in-process ledger: two tokens, one pool, and blocks that execute a mempool.
 Token supply is conserved and the pool account always holds the pool's reserves.
 */
module LocalChain {
  import opened Common
  import opened Amm

  type Balances = map<string, int>

  const POOL: string := "amm:pool"

  datatype Action =
    | Transfer(to: Option<string>, asset: Token, amount: int)
    | SwapOf(tokenIn: Token, tokenOut: Token, amountIn: int, minOut: int)

  datatype Tx = Tx(sender: string, action: Action)

  datatype Failure = RuleRejected | RecipientMissing | NonPositive | InsufficientFunds | SlippageExceeded

  datatype Receipt = Settled(tx: Tx, amountOut: int) | Reverted(tx: Tx, failure: Failure)

  // ---------- tokens ----------

  function Balance(m: Balances, who: string): int {
    Get(m, who, 0)
  }

  function Moved(m: Balances, from: string, to: string, amount: int): (r: Result<Balances, Failure>) {
    if amount <= 0 then Err(NonPositive)
    else if Balance(m, from) < amount then Err(InsufficientFunds)
    else
      var debited := m[from := Balance(m, from) - amount];
      Ok(debited[to := Balance(debited, to) + amount])
  }

  ghost function SumOver(m: Balances, keys: set<string>): int
    requires keys <= m.Keys
  {
    if keys == {} then 0
    else
      var k :| k in keys;
      m[k] + SumOver(m, keys - {k})
  }

  ghost function Supply(m: Balances): int {
    SumOver(m, m.Keys)
  }

  lemma {:induction false} SumOverRemove(m: Balances, keys: set<string>, k: string)
    requires keys <= m.Keys && k in keys
    ensures SumOver(m, keys) == m[k] + SumOver(m, keys - {k})
  {
    var j :| j in keys && SumOver(m, keys) == m[j] + SumOver(m, keys - {j});
    if j != k {
      SumOverRemove(m, keys - {j}, k);
      SumOverRemove(m, keys - {k}, j);
      assert keys - {j} - {k} == keys - {k} - {j};
    }
  }

  lemma {:induction false} SumOverAgrees(m: Balances, n: Balances, keys: set<string>)
    requires keys <= m.Keys && keys <= n.Keys && forall k | k in keys :: m[k] == n[k]
    ensures SumOver(m, keys) == SumOver(n, keys)
  {
    if keys != {} {
      var k :| k in keys;
      SumOverAgrees(m, n, keys - {k});
      SumOverRemove(m, keys, k);
      SumOverRemove(n, keys, k);
    }
  }

  lemma {:induction false} SupplyUpdate(m: Balances, who: string, v: int)
    ensures Supply(m[who := v]) == Supply(m) - Balance(m, who) + v
  {
    var n := m[who := v];
    var rest := m.Keys - {who};
    assert n.Keys - {who} == rest;
    SumOverRemove(n, n.Keys, who);
    SumOverAgrees(m, n, rest);
    if who in m {
      SumOverRemove(m, m.Keys, who);
    } else {
      assert rest == m.Keys;
    }
  }

  ghost predicate NonNegative(m: Balances) {
    forall k | k in m :: m[k] >= 0
  }

  lemma {:induction false} TransferConserves(m: Balances, from: string, to: string, amount: int)
    requires NonNegative(m) && Moved(m, from, to, amount).Ok?
    ensures var n := Moved(m, from, to, amount).value;
            && Supply(n) == Supply(m) && NonNegative(n)
            && forall k :: Balance(n, k) == Balance(m, k) - (if k == from then amount else 0)
                                            + (if k == to then amount else 0)
  {
    SupplyUpdate(m, from, Balance(m, from) - amount);
    var debited := m[from := Balance(m, from) - amount];
    SupplyUpdate(debited, to, Balance(debited, to) + amount);
  }

  class TestToken {
    var balances: Balances

    constructor ()
      ensures balances == map[]
    {
      balances := map[];
    }

    method Mint(who: string, amount: int)
      modifies this
      ensures balances == old(balances)[who := Balance(old(balances), who) + amount]
      ensures Supply(balances) == Supply(old(balances)) + amount
    {
      SupplyUpdate(balances, who, Balance(balances, who) + amount);
      balances := balances[who := Balance(balances, who) + amount];
    }

    method TransferTokens(from: string, to: string, amount: int) returns (r: Option<Failure>)
      modifies this
      ensures Moved(old(balances), from, to, amount).Err? ==>
                balances == old(balances) && r == Some(Moved(old(balances), from, to, amount).error)
      ensures Moved(old(balances), from, to, amount).Ok? ==>
                balances == Moved(old(balances), from, to, amount).value && r == None
    {
      if amount <= 0 {
        return Some(NonPositive);
      }
      if Balance(balances, from) < amount {
        return Some(InsufficientFunds);
      }
      balances := balances[from := Balance(balances, from) - amount];
      balances := balances[to := Balance(balances, to) + amount];
      return None;
    }
  }

  // ---------- executing one transaction ----------

  datatype Ledger = Ledger(tusdc: Balances, drb: Balances, pool: Pool) {
    function Of(token: Token): Balances {
      if token.TUSDC? then tusdc else drb
    }

    function With(token: Token, m: Balances): Ledger {
      if token.TUSDC? then this.(tusdc := m) else this.(drb := m)
    }

    function Reserve(token: Token): int {
      if token.TUSDC? then pool.a else pool.b
    }
  }

  /** A ledger with the receipt, or with None when the pool's division by zero escapes. */
  type Outcome = (Ledger, Option<Receipt>)

  function ExecuteTransfer(l: Ledger, tx: Tx): (r: Outcome)
    requires tx.action.Transfer?
  {
    var Transfer(to, asset, amount) := tx.action;
    if to.None? then (l, Some(Reverted(tx, RecipientMissing)))
    else
      match Moved(l.Of(asset), tx.sender, to.value, amount)
      case Err(failure) => (l, Some(Reverted(tx, failure)))
      case Ok(m) => (l.With(asset, m), Some(Settled(tx, 0)))
  }

  function ExecuteSwap(l: Ledger, tx: Tx): (r: Outcome)
    requires tx.action.SwapOf?
  {
    var SwapOf(tokenIn, tokenOut, amountIn, minOut) := tx.action;
    if Balance(l.Of(tokenIn), tx.sender) < amountIn then (l, Some(Reverted(tx, InsufficientFunds)))
    else
      match Swap(l.pool, tokenIn, amountIn, minOut)
      case Err(DivisionByZero) => (l, None)
      case Err(Slippage) => (l, Some(Reverted(tx, SlippageExceeded)))
      case Ok((pool, out)) =>
        var swapped := l.(pool := pool);
        match Moved(l.Of(tokenIn), tx.sender, POOL, amountIn)
        case Err(failure) => (swapped, Some(Reverted(tx, failure)))
        case Ok(taken) =>
          var received := swapped.With(tokenIn, taken);
          match Moved(received.Of(tokenOut), POOL, tx.sender, out)
          case Err(failure) => (received, Some(Reverted(tx, failure)))
          case Ok(paid) => (received.With(tokenOut, paid), Some(Settled(tx, out)))
  }

  /** `rejects` is the contract-wallet rule hook of the sender. */
  function Execute(l: Ledger, tx: Tx, rejects: Tx -> bool): (r: Outcome) {
    if rejects(tx) then (l, Some(Reverted(tx, RuleRejected)))
    else if tx.action.Transfer? then ExecuteTransfer(l, tx)
    else ExecuteSwap(l, tx)
  }

  /** The block: transactions in order; a crash ends it without a block. */
  function ExecuteAll(l: Ledger, txs: seq<Tx>, rejects: Tx -> bool): (r: (Ledger, Option<seq<Receipt>>))
    decreases |txs|
  {
    if txs == [] then (l, Some([]))
    else
      var n := |txs| - 1;
      var (before, receipts) := ExecuteAll(l, txs[..n], rejects);
      if receipts.None? then (before, None)
      else
        var (after, receipt) := Execute(before, txs[n], rejects);
        (after, if receipt.None? then None else Some(receipts.value + [receipt.value]))
  }

  // ---------- what every transaction keeps ----------

  ghost predicate Backed(l: Ledger) {
    && l.pool.Positive() && NonNegative(l.tusdc) && NonNegative(l.drb)
    && Balance(l.tusdc, POOL) >= l.pool.a && Balance(l.drb, POOL) >= l.pool.b
  }

  ghost predicate SameSupply(l: Ledger, k: Ledger) {
    Supply(l.tusdc) == Supply(k.tusdc) && Supply(l.drb) == Supply(k.drb)
  }

  /** Not sent by the pool account; swaps exchange the two tokens and offer no negative amount. */
  predicate Ordinary(tx: Tx) {
    && tx.sender != POOL
    && (tx.action.SwapOf? ==> tx.action.tokenIn != tx.action.tokenOut && tx.action.amountIn >= 0)
  }

  lemma {:induction false} TransferKeepsBacking(l: Ledger, tx: Tx)
    requires Backed(l) && Ordinary(tx) && tx.action.Transfer?
    ensures Backed(ExecuteTransfer(l, tx).0) && SameSupply(l, ExecuteTransfer(l, tx).0)
  {
    var Transfer(to, asset, amount) := tx.action;
    if to.Some? && Moved(l.Of(asset), tx.sender, to.value, amount).Ok? {
      TransferConserves(l.Of(asset), tx.sender, to.value, amount);
    }
  }

  /** The swap once its checks have passed: the input moves, and a positive quote is paid. */
  lemma {:induction false} FundedSwap(l: Ledger, tx: Tx, out: int)
    requires Backed(l) && Ordinary(tx) && tx.action.SwapOf?
    requires 0 < tx.action.amountIn <= Balance(l.Of(tx.action.tokenIn), tx.sender)
    requires 0 <= out < l.Reserve(tx.action.tokenOut)
    requires Swap(l.pool, tx.action.tokenIn, tx.action.amountIn, tx.action.minOut)
          == Ok((l.pool.Moved(tx.action.tokenIn, tx.action.amountIn, out), out))
    ensures Backed(ExecuteSwap(l, tx).0) && SameSupply(l, ExecuteSwap(l, tx).0)
    ensures ExecuteSwap(l, tx).1 == if out == 0 then Some(Reverted(tx, NonPositive)) else Some(Settled(tx, out))
  {
    var SwapOf(tokenIn, tokenOut, amountIn, minOut) := tx.action;
    TransferConserves(l.Of(tokenIn), tx.sender, POOL, amountIn);
    if out > 0 {
      TransferConserves(l.Of(tokenOut), POOL, tx.sender, out);
    }
  }

  /** The payout of a swap never lacks funds: after the checks only a zero input or a zero
      quote makes it fail. */
  lemma {:induction false} SwapKeepsBacking(l: Ledger, tx: Tx)
    requires Backed(l) && Ordinary(tx) && tx.action.SwapOf?
    ensures Backed(ExecuteSwap(l, tx).0) && SameSupply(l, ExecuteSwap(l, tx).0)
    ensures ExecuteSwap(l, tx).1.Some? && Divisor(l.pool, tx.action.tokenIn, tx.action.amountIn) > 0
    ensures var SwapOf(tokenIn, tokenOut, amountIn, minOut) := tx.action;
            var out := Quote(l.pool, tokenIn, amountIn);
            ExecuteSwap(l, tx).1 ==
              if Balance(l.Of(tokenIn), tx.sender) < amountIn then Some(Reverted(tx, InsufficientFunds))
              else if out < minOut then Some(Reverted(tx, SlippageExceeded))
              else if amountIn == 0 || out == 0 then Some(Reverted(tx, NonPositive))
              else Some(Settled(tx, out))
  {
    var SwapOf(tokenIn, tokenOut, amountIn, minOut) := tx.action;
    SwapKeepsProduct(l.pool, tokenIn, amountIn);
    var out := Quote(l.pool, tokenIn, amountIn);
    if amountIn == 0 {
      assert out == 0 && l.pool.Moved(tokenIn, 0, 0) == l.pool;
    } else if Balance(l.Of(tokenIn), tx.sender) >= amountIn && out >= minOut {
      FundedSwap(l, tx, out);
    }
  }

  lemma {:induction false} ExecuteKeepsBacking(l: Ledger, tx: Tx, rejects: Tx -> bool)
    requires Backed(l) && Ordinary(tx)
    ensures Backed(Execute(l, tx, rejects).0) && SameSupply(l, Execute(l, tx, rejects).0)
    ensures Execute(l, tx, rejects).1.Some?
  {
    if tx.action.Transfer? {
      TransferKeepsBacking(l, tx);
    } else {
      SwapKeepsBacking(l, tx);
    }
  }

  /** Conservation and backing over any block of ordinary transactions, one receipt each. */
  lemma {:induction false} BlockKeepsBacking(l: Ledger, txs: seq<Tx>, rejects: Tx -> bool)
    requires Backed(l) && forall tx | tx in txs :: Ordinary(tx)
    ensures Backed(ExecuteAll(l, txs, rejects).0) && SameSupply(l, ExecuteAll(l, txs, rejects).0)
    ensures ExecuteAll(l, txs, rejects).1.Some? && |ExecuteAll(l, txs, rejects).1.value| == |txs|
    decreases |txs|
  {
    if txs != [] {
      var n := |txs| - 1;
      BlockKeepsBacking(l, txs[..n], rejects);
      ExecuteKeepsBacking(ExecuteAll(l, txs[..n], rejects).0, txs[n], rejects);
    }
  }

  // ---------- what a receipt says ----------

  function Holding(l: Ledger, token: Token, who: string): int {
    Get(match token { case TUSDC => l.tusdc case DRB => l.drb }, who, 0)
  }

  function ReserveOf(l: Ledger, token: Token): int {
    match token
    case TUSDC => l.pool.a
    case DRB => l.pool.b
  }

  /** The amount if the account is the one meant. */
  function To(who: string, account: string, amount: int): int {
    if who == account then amount else 0
  }

  /** What the receipt took from or gave to an account: a settled transfer moves its asset from the sender to the
      recipient; a settled swap moves the input to the pool account and the output back; a swap that failed for
      a zero output has moved its input all the same. */
  function Effect(receipt: Receipt, token: Token, who: string): int {
    match receipt
    case Settled(Tx(sender, Transfer(Some(to), asset, amount)), _) =>
      if token == asset then To(who, to, amount) - To(who, sender, amount) else 0
    case Settled(Tx(sender, SwapOf(tokenIn, _, amountIn, _)), amountOut) =>
      if token == tokenIn then To(who, POOL, amountIn) - To(who, sender, amountIn)
      else To(who, sender, amountOut) - To(who, POOL, amountOut)
    case Reverted(Tx(sender, SwapOf(tokenIn, _, amountIn, _)), NonPositive) =>
      if token == tokenIn then To(who, POOL, amountIn) - To(who, sender, amountIn) else 0
    case _ => 0
  }

  /** What the receipt did to the pool's reserve: only swaps change it. */
  function ReserveEffect(receipt: Receipt, token: Token): int {
    match receipt
    case Settled(Tx(_, SwapOf(tokenIn, _, amountIn, _)), amountOut) => if token == tokenIn then amountIn else -amountOut
    case Reverted(Tx(_, SwapOf(tokenIn, _, amountIn, _)), NonPositive) => if token == tokenIn then amountIn else 0
    case _ => 0
  }

  ghost predicate Says(l: Ledger, after: Ledger, receipt: Receipt, token: Token, who: string) {
    && Holding(after, token, who) == Holding(l, token, who) + Effect(receipt, token, who)
    && ReserveOf(after, token) == ReserveOf(l, token) + ReserveEffect(receipt, token)
  }

  /** A transfer settles exactly when no hook rejects it, it has a recipient, and the sender holds the positive
      amount; then, or if it fails, the balances are what the receipt says and the pool is as it was. */
  lemma {:induction false} TransferEffects(l: Ledger, tx: Tx, rejects: Tx -> bool, token: Token, who: string)
    requires tx.action.Transfer?
    ensures Execute(l, tx, rejects).1.Some? && Execute(l, tx, rejects).1.value.tx == tx
    ensures Execute(l, tx, rejects).1.value.Settled? <==>
            !rejects(tx) && tx.action.to.Some? && 0 < tx.action.amount <= Holding(l, tx.action.asset, tx.sender)
    ensures Says(l, Execute(l, tx, rejects).0, Execute(l, tx, rejects).1.value, token, who)
    ensures Execute(l, tx, rejects).0.pool == l.pool
  {
    var Transfer(to, asset, amount) := tx.action;
    if to.Some? && Moved(l.Of(asset), tx.sender, to.value, amount).Ok? {
      MovedTo(l.Of(asset), tx.sender, to.value, amount, who);
    }
  }

  lemma {:induction false} FundedSwapEffects(l: Ledger, tx: Tx, out: int, token: Token, who: string)
    requires Backed(l) && Ordinary(tx) && tx.action.SwapOf?
    requires 0 < tx.action.amountIn <= Balance(l.Of(tx.action.tokenIn), tx.sender)
    requires 0 <= out < l.Reserve(tx.action.tokenOut)
    requires Swap(l.pool, tx.action.tokenIn, tx.action.amountIn, tx.action.minOut)
          == Ok((l.pool.Moved(tx.action.tokenIn, tx.action.amountIn, out), out))
    ensures ExecuteSwap(l, tx).1.Some? && Says(l, ExecuteSwap(l, tx).0, ExecuteSwap(l, tx).1.value, token, who)
  {
    var SwapOf(tokenIn, tokenOut, amountIn, minOut) := tx.action;
    FundedSwap(l, tx, out);
    FundedSwapLedger(l, tx, out);
    MovedTo(l.Of(tokenIn), tx.sender, POOL, amountIn, who);
    if out > 0 {
      MovedTo(l.Of(tokenOut), POOL, tx.sender, out, who);
    }
    hide Swap, Backed, SameSupply, ExecuteSwap, Moved;
  }

  lemma {:induction false} MovedTo(m: Balances, from: string, to: string, amount: int, who: string)
    requires Moved(m, from, to, amount).Ok?
    ensures Get(Moved(m, from, to, amount).value, who, 0) == Get(m, who, 0) + To(who, to, amount) - To(who, from, amount)
  {}

  lemma {:induction false} FundedSwapLedger(l: Ledger, tx: Tx, out: int)
    requires Backed(l) && Ordinary(tx) && tx.action.SwapOf?
    requires 0 < tx.action.amountIn <= Balance(l.Of(tx.action.tokenIn), tx.sender)
    requires 0 <= out < l.Reserve(tx.action.tokenOut)
    requires Swap(l.pool, tx.action.tokenIn, tx.action.amountIn, tx.action.minOut)
          == Ok((l.pool.Moved(tx.action.tokenIn, tx.action.amountIn, out), out))
    ensures var SwapOf(tokenIn, tokenOut, amountIn, _) := tx.action;
            var taken := Moved(l.Of(tokenIn), tx.sender, POOL, amountIn);
            var paid := Moved(l.Of(tokenOut), POOL, tx.sender, out);
            var swapped := l.(pool := l.pool.Moved(tokenIn, amountIn, out));
            && taken.Ok? && (out > 0 ==> paid.Ok?)
            && ExecuteSwap(l, tx).0 == if out == 0 then swapped.With(tokenIn, taken.value)
                                       else swapped.With(tokenIn, taken.value).With(tokenOut, paid.value)
  {
    hide Swap, Supply;
  }

  /** A swap settles exactly when no hook rejects it, the sender holds the positive input, and the quote is positive
      and not below the floor; it pays the quote, and the balances and reserves are what the receipt says. */
  lemma {:induction false} SwapEffects(l: Ledger, tx: Tx, rejects: Tx -> bool, token: Token, who: string)
    requires Backed(l) && Ordinary(tx) && tx.action.SwapOf?
    ensures Execute(l, tx, rejects).1.Some? && Execute(l, tx, rejects).1.value.tx == tx
    ensures Divisor(l.pool, tx.action.tokenIn, tx.action.amountIn) > 0
    ensures var out := Quote(l.pool, tx.action.tokenIn, tx.action.amountIn);
            && (Execute(l, tx, rejects).1.value.Settled? <==>
                && !rejects(tx) && 0 < tx.action.amountIn <= Holding(l, tx.action.tokenIn, tx.sender)
                && 0 < out && tx.action.minOut <= out)
            && (Execute(l, tx, rejects).1.value.Settled? ==> Execute(l, tx, rejects).1.value.amountOut == out)
    ensures Says(l, Execute(l, tx, rejects).0, Execute(l, tx, rejects).1.value, token, who)
  {
    SwapKeepsBacking(l, tx);
    var SwapOf(tokenIn, tokenOut, amountIn, minOut) := tx.action;
    SwapKeepsProduct(l.pool, tokenIn, amountIn);
    var out := Quote(l.pool, tokenIn, amountIn);
    if !rejects(tx) && Balance(l.Of(tokenIn), tx.sender) >= amountIn && out >= minOut {
      if amountIn > 0 {
        FundedSwapEffects(l, tx, out, token, who);
      } else {
        assert out == 0 && l.pool.Moved(tokenIn, 0, 0) == l.pool;
      }
    }
    hide Quote, Divisor, Backed, Supply;
  }

  /** Every ordinary transaction does exactly what its receipt says, to every account, in both tokens, and to the pool. */
  lemma {:induction false} ExecuteEffects(l: Ledger, tx: Tx, rejects: Tx -> bool, token: Token, who: string)
    requires Backed(l) && Ordinary(tx)
    ensures Execute(l, tx, rejects).1.Some? && Execute(l, tx, rejects).1.value.tx == tx
    ensures Says(l, Execute(l, tx, rejects).0, Execute(l, tx, rejects).1.value, token, who)
  {
    hide Execute, Says, Backed;
    if tx.action.Transfer? {
      TransferEffects(l, tx, rejects, token, who);
    } else {
      SwapEffects(l, tx, rejects, token, who);
    }
  }

  function TotalEffect(receipts: seq<Receipt>, n: nat, token: Token, who: string): int
    requires n <= |receipts|
  {
    if n == 0 then 0 else TotalEffect(receipts, n - 1, token, who) + Effect(receipts[n - 1], token, who)
  }

  function TotalReserveEffect(receipts: seq<Receipt>, n: nat, token: Token): int
    requires n <= |receipts|
  {
    if n == 0 then 0 else TotalReserveEffect(receipts, n - 1, token) + ReserveEffect(receipts[n - 1], token)
  }

  lemma {:induction false} TotalsGrow(receipts: seq<Receipt>, r: Receipt, n: nat, token: Token, who: string)
    requires n <= |receipts|
    ensures TotalEffect(receipts + [r], n, token, who) == TotalEffect(receipts, n, token, who)
    ensures TotalReserveEffect(receipts + [r], n, token) == TotalReserveEffect(receipts, n, token)
  {
    if n > 0 {
      TotalsGrow(receipts, r, n - 1, token, who);
    }
  }

  ghost predicate SaysAll(l: Ledger, after: Ledger, receipts: seq<Receipt>, token: Token, who: string) {
    && Holding(after, token, who) == Holding(l, token, who) + TotalEffect(receipts, |receipts|, token, who)
    && ReserveOf(after, token) == ReserveOf(l, token) + TotalReserveEffect(receipts, |receipts|, token)
  }

  lemma {:induction false} OneMoreReceipt(l: Ledger, before: Ledger, after: Ledger, receipts: seq<Receipt>, r: Receipt,
                                          token: Token, who: string)
    requires SaysAll(l, before, receipts, token, who) && Says(before, after, r, token, who)
    ensures SaysAll(l, after, receipts + [r], token, who)
  {
    TotalsGrow(receipts, r, |receipts|, token, who);
    hide Effect, ReserveEffect, Holding, ReserveOf;
  }

  /** Over a block of ordinary transactions: one receipt for each, in order, and every balance and both reserves are the
      old ones plus what the receipts say. */
  lemma {:induction false} BlockEffects(l: Ledger, txs: seq<Tx>, rejects: Tx -> bool, token: Token, who: string)
    requires Backed(l) && forall tx | tx in txs :: Ordinary(tx)
    ensures ExecuteAll(l, txs, rejects).1.Some?
    ensures var (after, receipts) := ExecuteAll(l, txs, rejects);
            && |receipts.value| == |txs| && (forall i | 0 <= i < |txs| :: receipts.value[i].tx == txs[i])
            && SaysAll(l, after, receipts.value, token, who)
    decreases |txs|
  {
    if txs != [] {
      hide Execute, Backed, Says, SaysAll, Ordinary;
      var n := |txs| - 1;
      BlockKeepsBacking(l, txs[..n], rejects);
      BlockEffects(l, txs[..n], rejects, token, who);
      var (before, receipts) := ExecuteAll(l, txs[..n], rejects);
      ExecuteEffects(before, txs[n], rejects, token, who);
      var (after, receipt) := Execute(before, txs[n], rejects);
      OneMoreReceipt(l, before, after, receipts.value, receipt.value, token, who);
    }
  }

  /** One receipt for each transaction, in order, and they say how every balance and both reserves changed. */
  ghost predicate Mined(l: Ledger, after: Ledger, txs: seq<Tx>, receipts: seq<Receipt>) {
    && |receipts| == |txs| && (forall i | 0 <= i < |txs| :: receipts[i].tx == txs[i])
    && forall token, who :: SaysAll(l, after, receipts, token, who)
  }

  lemma {:induction false} BlockSays(l: Ledger, txs: seq<Tx>, rejects: Tx -> bool)
    requires Backed(l) && forall tx | tx in txs :: Ordinary(tx)
    ensures ExecuteAll(l, txs, rejects).1.Some?
    ensures Mined(l, ExecuteAll(l, txs, rejects).0, txs, ExecuteAll(l, txs, rejects).1.value)
  {
    hide ExecuteAll, SaysAll, Backed;
    BlockEffects(l, txs, rejects, TUSDC, POOL);
    forall token, who
      ensures SaysAll(l, ExecuteAll(l, txs, rejects).0, ExecuteAll(l, txs, rejects).1.value, token, who)
    {
      BlockEffects(l, txs, rejects, token, who);
    }
  }

  /** A failed receipt is not always a no-op: a dust swap has already taken its input. */
  lemma {:induction false} DustSwapTakesInput(l: Ledger, tx: Tx)
    requires Backed(l) && Ordinary(tx) && tx.action.SwapOf? && tx.action.minOut <= 0
    requires 0 < tx.action.amountIn <= Balance(l.Of(tx.action.tokenIn), tx.sender)
    requires Divisor(l.pool, tx.action.tokenIn, tx.action.amountIn) > 0
    requires Quote(l.pool, tx.action.tokenIn, tx.action.amountIn) == 0
    ensures ExecuteSwap(l, tx).1 == Some(Reverted(tx, NonPositive))
    ensures Balance(ExecuteSwap(l, tx).0.Of(tx.action.tokenIn), tx.sender)
         == Balance(l.Of(tx.action.tokenIn), tx.sender) - tx.action.amountIn
  {
    SwapKeepsBacking(l, tx);
    TransferConserves(l.Of(tx.action.tokenIn), tx.sender, POOL, tx.action.amountIn);
  }

  /** The sender offers too little to be quoted anything, and no floor or hook stops it. */
  predicate Dust(l: Ledger, tx: Tx, rejects: Tx -> bool)
    requires l.pool.Positive() && Ordinary(tx)
  {
    && !rejects(tx) && tx.action.SwapOf? && tx.action.minOut <= 0
    && 0 < tx.action.amountIn <= Balance(l.Of(tx.action.tokenIn), tx.sender)
    && (SwapKeepsProduct(l.pool, tx.action.tokenIn, tx.action.amountIn);
        Quote(l.pool, tx.action.tokenIn, tx.action.amountIn) == 0)
  }

  /** Exactly the dust swaps leave a mark although they failed. */
  lemma {:induction false} FailedIsNoOpExactly(l: Ledger, tx: Tx, rejects: Tx -> bool)
    requires Backed(l) && Ordinary(tx) && Execute(l, tx, rejects).1.Some? && Execute(l, tx, rejects).1.value.Reverted?
    ensures Execute(l, tx, rejects).0 == l <==> !Dust(l, tx, rejects)
  {
    if !rejects(tx) && tx.action.SwapOf? {
      SwapKeepsBacking(l, tx);
      SwapKeepsProduct(l.pool, tx.action.tokenIn, tx.action.amountIn);
      if Dust(l, tx, rejects) {
        DustSwapTakesInput(l, tx);
      }
    }
  }

  /** It happens: one unit against a pool of a hundred to one is taken, and the receipt says failed. */
  lemma {:induction false} DustIsTaken()
    ensures var l := Ledger(map[POOL := 100, "anyone" := 1], map[POOL := 1], Pool(100, 1));
            var tx := Tx("anyone", SwapOf(TUSDC, DRB, 1, 0));
            && Backed(l) && ExecuteSwap(l, tx).1 == Some(Reverted(tx, NonPositive))
            && Balance(ExecuteSwap(l, tx).0.tusdc, "anyone") == 0
  {
    var l := Ledger(map[POOL := 100, "anyone" := 1], map[POOL := 1], Pool(100, 1));
    assert "anyone"[1] != POOL[1];
    DustSwapTakesInput(l, Tx("anyone", SwapOf(TUSDC, DRB, 1, 0)));
  }

  /**
   Why negative inputs are excluded: the pool is updated before the transfer refuses them.
   The backing survives exactly when the floor stops the swap, or when the reserve sold stays
   positive and the pool account holds enough beyond the other reserve to cover its growth.
   */
  lemma {:induction false} NegativeSwapKeepsBackingExactly(l: Ledger, tx: Tx)
    requires Backed(l) && tx.sender != POOL && tx.action.SwapOf? && tx.action.amountIn < 0
    requires Divisor(l.pool, tx.action.tokenIn, tx.action.amountIn) != 0
    ensures var SwapOf(tokenIn, _, x, minOut) := tx.action;
            var out := Quote(l.pool, tokenIn, x);
            Backed(ExecuteSwap(l, tx).0) <==>
            out < minOut || (l.pool.In(tokenIn) + x > 0
                             && Balance(l.Of(Other(tokenIn)), POOL) - l.pool.Out(tokenIn) >= -out)
  {
    var SwapOf(tokenIn, tokenOut, x, minOut) := tx.action;
    assert Balance(l.Of(tokenIn), tx.sender) >= 0;
    var out := Quote(l.pool, tokenIn, x);
    if out >= minOut {
      assert ExecuteSwap(l, tx).0 == l.(pool := l.pool.Moved(tokenIn, x, out));
      NegativeQuote(l.pool, tokenIn, x);
    }
  }

  /** What a new chain holds. */
  function Fresh(ammA: int, ammB: int): Ledger {
    Ledger(map[POOL := ammA], map[POOL := ammB], Pool(ammA, ammB))
  }

  /** It happens: the first block of a new chain, with one swap of minus one, loses the backing. */
  lemma {:induction false} NegativeSwapOnFreshChain()
    ensures var tx := Tx("anyone", SwapOf(TUSDC, DRB, -1, -2));
            Backed(Fresh(10, 10)) && !Backed(ExecuteAll(Fresh(10, 10), [tx], _ => false).0)
  {
    var l, tx := Fresh(10, 10), Tx("anyone", SwapOf(TUSDC, DRB, -1, -2));
    assert "anyone"[1] != POOL[1];
    assert Quote(l.pool, TUSDC, -1) == -2;
    NegativeSwapKeepsBackingExactly(l, tx);
    assert [tx][..0] == [];
    assert ExecuteAll(l, [], _ => false) == (l, Some([]));
  }

  lemma {:induction false} NegativeQuote(pool: Pool, token: Token, x: int)
    requires pool.Positive() && x < 0 && Divisor(pool, token, x) != 0
    ensures Quote(pool, token, x) < 0 || pool.In(token) + x <= 0
  {
    var n, d := x * KEPT * pool.Out(token), Divisor(pool, token, x);
    assert n < 0;
  }

  // ---------- the chain object ----------

  class Chain {
    const tusdc: TestToken
    const drb: TestToken
    const amm: ConstantProductAMM
    const rejects: Tx -> bool
    var mempool: seq<Tx>
    var blocks: seq<seq<Receipt>>
    var clock: int

    ghost predicate Valid() {
      tusdc != drb
    }

    ghost function View(): Ledger
      reads tusdc, drb, amm
    {
      Ledger(tusdc.balances, drb.balances, amm.View())
    }

    /** The pool account is funded with exactly the reserves, so the chain starts backed. */
    constructor (ammA: int, ammB: int, rejects: Tx -> bool)
      requires ammA > 0 && ammB > 0
      ensures Valid() && fresh(tusdc) && fresh(drb) && fresh(amm)
      ensures View() == Fresh(ammA, ammB) && Backed(View())
      ensures mempool == [] && blocks == [] && clock == 0 && this.rejects == rejects
    {
      var t := new TestToken();
      var d := new TestToken();
      t.Mint(POOL, ammA);
      d.Mint(POOL, ammB);
      var p := new ConstantProductAMM(ammA, ammB);
      tusdc, drb, amm := t, d, p;
      this.rejects := rejects;
      mempool, blocks, clock := [], [], 0;
    }

    method ExecuteTx(tx: Tx) returns (receipt: Option<Receipt>)
      requires Valid()
      modifies tusdc, drb, amm
      ensures (View(), receipt) == Execute(old(View()), tx, rejects)
      ensures old(Backed(View())) && Ordinary(tx) ==>
                && receipt.Some? && receipt.value.tx == tx
                && forall token, who :: Says(old(View()), View(), receipt.value, token, who)
    {
      if Backed(View()) && Ordinary(tx) {
        forall token, who
          ensures Execute(View(), tx, rejects).1.Some? && Execute(View(), tx, rejects).1.value.tx == tx
          ensures Says(View(), Execute(View(), tx, rejects).0, Execute(View(), tx, rejects).1.value, token, who)
        {
          ExecuteEffects(View(), tx, rejects, token, who);
        }
      }
      hide Says, Backed;
      if rejects(tx) {
        return Some(Reverted(tx, RuleRejected));
      }
      match tx.action
      case Transfer(to, asset, amount) =>
        if to.None? {
          return Some(Reverted(tx, RecipientMissing));
        }
        var token := if asset.TUSDC? then tusdc else drb;
        var failure := token.TransferTokens(tx.sender, to.value, amount);
        return if failure.Some? then Some(Reverted(tx, failure.value)) else Some(Settled(tx, 0));
      case SwapOf(tokenIn, tokenOut, amountIn, minOut) =>
        receipt := SwapTx(tx, tokenIn, tokenOut, amountIn, minOut);
    }

    method SwapTx(tx: Tx, tokenIn: Token, tokenOut: Token, amountIn: int, minOut: int)
      returns (receipt: Option<Receipt>)
      requires Valid() && tx.action == SwapOf(tokenIn, tokenOut, amountIn, minOut)
      modifies tusdc, drb, amm
      ensures (View(), receipt) == ExecuteSwap(old(View()), tx)
    {
      var source := if tokenIn.TUSDC? then tusdc else drb;
      var target := if tokenOut.TUSDC? then tusdc else drb;
      if Balance(source.balances, tx.sender) < amountIn {
        return Some(Reverted(tx, InsufficientFunds));
      }
      var out := amm.SwapTokens(tokenIn, amountIn, minOut);
      if out.Err? {
        return if out.error.DivisionByZero? then None else Some(Reverted(tx, SlippageExceeded));
      }
      var failure := source.TransferTokens(tx.sender, POOL, amountIn);
      if failure.Some? {
        return Some(Reverted(tx, failure.value));
      }
      failure := target.TransferTokens(POOL, tx.sender, out.value);
      if failure.Some? {
        return Some(Reverted(tx, failure.value));
      }
      return Some(Settled(tx, out.value));
    }

    /** Executes the whole mempool as one block; over ordinary transactions it conserves
        both supplies, keeps the pool backed and gives every transaction its receipt. */
    method MineBlock() returns (r: Option<seq<Receipt>>)
      requires Valid()
      modifies this, tusdc, drb, amm
      ensures Valid() && mempool == []
      ensures (View(), r) == ExecuteAll(old(View()), old(mempool), rejects)
      ensures blocks == if r.Some? then old(blocks) + [r.value] else old(blocks)
      ensures clock == if r.Some? then old(clock) + 1 else old(clock)
      ensures old(Backed(View())) && (forall tx | tx in old(mempool) :: Ordinary(tx)) ==>
                && Backed(View()) && SameSupply(old(View()), View())
                && r.Some? && Mined(old(View()), View(), old(mempool), r.value)
    {
      if Backed(View()) && forall tx | tx in mempool :: Ordinary(tx) {
        BlockKeepsBacking(View(), mempool, rejects);
        BlockSays(View(), mempool, rejects);
      }
      hide Backed, SameSupply, Ordinary, Mined, Execute;
      var receipts: seq<Receipt> := [];
      var pending := mempool;
      mempool := [];
      for i := 0 to |pending|
        invariant (View(), Some(receipts)) == ExecuteAll(old(View()), pending[..i], rejects)
        invariant mempool == [] && blocks == old(blocks) && clock == old(clock)
      {
        assert pending[..i + 1][..i] == pending[..i];
        var receipt := ExecuteTx(pending[i]);
        if receipt.None? {
          CrashPropagates(old(View()), pending, i + 1, rejects);
          return None;
        }
        receipts := receipts + [receipt.value];
      }
      assert pending[..|pending|] == pending;
      blocks := blocks + [receipts];
      clock := clock + 1;
      return Some(receipts);
    }
  }

  lemma {:induction false} CrashPropagates(l: Ledger, txs: seq<Tx>, n: nat, rejects: Tx -> bool)
    requires n <= |txs| && ExecuteAll(l, txs[..n], rejects).1.None?
    ensures ExecuteAll(l, txs, rejects) == (ExecuteAll(l, txs[..n], rejects).0, None)
    decreases |txs|
  {
    if n < |txs| {
      var front := txs[..|txs| - 1];
      assert front[..n] == txs[..n];
      CrashPropagates(l, front, n, rejects);
    } else {
      assert txs[..n] == txs;
    }
  }
}
