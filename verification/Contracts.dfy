/** Proposals, policies and the proposal lifecycle: already-validated records, raw bytes for hex. */
module Contracts {
  import opened Common

  type Address = Bytes

  /** `NATIVE:<chain>` is the only asset name the code looks inside. */
  datatype Asset = Native(chainId: nat) | Symbol(name: string)

  datatype Intent =
    | TransferIntent(recipient: Address)
    | SwapIntent(contract: Address, selector: Bytes, calldata: Bytes, minimumOutput: nat, outputAsset: Asset)

  datatype Proposal = Proposal(
    proposalId: Uuid,
    principalId: string,
    wallet: Address,
    chainId: nat,
    asset: Asset,
    amount: nat,
    intent: Intent,
    deadline: int,
    idempotencyKey: string,
    mandateId: Option<Uuid>,
    quoteReference: Option<string>)
  {
    function ScopeOf(): Scope {
      Scope(principalId, wallet, chainId, asset)
    }
  }

  /** What a budget is kept for. */
  datatype Scope = Scope(principalId: string, wallet: Address, chainId: nat, asset: Asset)

  datatype RollingCap = RollingCap(windowSeconds: nat, amount: nat)

  datatype Policy = Policy(
    enabledWallets: set<Address>,
    enabledPrincipals: set<string>,
    enabledChains: set<nat>,
    enabledAssets: set<Asset>,
    allowedRecipients: set<Address>,
    contractRules: set<(Address, Bytes)>,
    perTransactionCap: nat,
    rollingCaps: seq<RollingCap>,
    maximumTransactionsPerHour: nat,
    mandateRequiredAbove: nat,
    denyOnMissingQuote: bool,
    emergencyStop: bool)

  datatype LifecycleState = PROPOSED | RESERVED | SIGNED | SUBMITTED | SETTLED | DENIED | REVERTED | EXPIRED

  function AllowedTransitions(current: LifecycleState): set<LifecycleState> {
    match current
    case PROPOSED => {RESERVED, DENIED, EXPIRED}
    case RESERVED => {SIGNED, EXPIRED}
    case SIGNED => {SUBMITTED, EXPIRED}
    case SUBMITTED => {SETTLED, REVERTED}
    case _ => {}
  }

  /** Progress along the lifecycle; terminal states come last. */
  function Rank(s: LifecycleState): nat {
    match s
    case PROPOSED => 0
    case RESERVED => 1
    case SIGNED => 2
    case SUBMITTED => 3
    case _ => 4
  }

  predicate Terminal(s: LifecycleState) {
    s in {SETTLED, DENIED, REVERTED, EXPIRED}
  }

  predicate Path(states: seq<LifecycleState>) {
    forall i | 0 < i < |states| :: states[i] in AllowedTransitions(states[i - 1])
  }

  /** A record changes state at most four times, never revisits a state, and only a terminal
      state ends its path for good. */
  lemma {:induction false} LifecycleIsShort(states: seq<LifecycleState>)
    requires Path(states) && states != []
    ensures |states| <= 5 - Rank(states[0])
    ensures forall i, j | 0 <= i < j < |states| :: Rank(states[i]) < Rank(states[j])
    ensures AllowedTransitions(states[0]) == {} <==> Terminal(states[0])
  {
    assert states[0].PROPOSED? ==> DENIED in AllowedTransitions(states[0]);
    assert states[0].RESERVED? ==> SIGNED in AllowedTransitions(states[0]);
    assert states[0].SIGNED? ==> SUBMITTED in AllowedTransitions(states[0]);
    assert states[0].SUBMITTED? ==> SETTLED in AllowedTransitions(states[0]);
    if |states| > 1 {
      var rest := states[1..];
      assert Path(rest) by {
        assert forall i | 0 < i < |rest| :: rest[i] == states[i + 1] && rest[i - 1] == states[i];
      }
      LifecycleIsShort(rest);
      assert states[1] in AllowedTransitions(states[0]);
      assert forall i | 0 < i < |states| :: states[i] == rest[i - 1];
    }
  }

  /** The whole table. */
  lemma {:induction false} TransitionsAre(current: LifecycleState, target: LifecycleState)
    ensures target in AllowedTransitions(current) <==>
            (current, target) in {(PROPOSED, RESERVED), (PROPOSED, DENIED), (PROPOSED, EXPIRED), (RESERVED, SIGNED),
                                  (RESERVED, EXPIRED), (SIGNED, SUBMITTED), (SIGNED, EXPIRED), (SUBMITTED, SETTLED),
                                  (SUBMITTED, REVERTED)}
  {}
}
