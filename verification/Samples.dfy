/** One small proposal and policy, for runs that show where a property ends. */
module Samples {
  import opened Common
  import opened Contracts
  import opened StateStore

  const AGENT: string := "agent"

  function Wallet(): (r: Address)
    ensures |r| == 20
  {
    [1, 1, 1, 1, 1, 1, 1, 1, 1, 1, 1, 1, 1, 1, 1, 1, 1, 1, 1, 1]
  }

  /** A transfer of the native asset of chain 1. */
  function Transfer(id: Uuid, key: string, amount: nat): Proposal {
    Proposal(id, AGENT, Wallet(), 1, Native(1), amount, TransferIntent(Wallet()), 10, key, None, None)
  }

  /** One transfer of at most `cap` an hour. */
  function OneAnHour(cap: nat): Policy {
    Policy({Wallet()}, {AGENT}, {1}, {Native(1)}, {Wallet()}, {}, cap, [RollingCap(HOUR, cap)], 1, cap, true, false)
  }

  const AT_ZERO: Clock := Clock(0, 0, 0)

  lemma {:induction false} DeadWeighNothing(rs: seq<Reservation>, n: nat, q: Query)
    requires n <= |rs| && q.kind == LiveOnes && forall i | 0 <= i < |rs| :: !rs[i].Live()
    ensures Total(rs, n, q) == 0
  {
    if n > 0 {
      DeadWeighNothing(rs, n - 1, q);
    }
  }

  /** The policy grants the transfer as long as no reservation is live. */
  lemma {:induction false} Granted(rs: seq<Reservation>, id: Uuid, key: string, cap: nat)
    requires forall i | 0 <= i < |rs| :: !rs[i].Live()
    ensures Reasons(rs, Transfer(id, key, cap), OneAnHour(cap), AT_ZERO) == []
  {
    var p, policy := Transfer(id, key, cap), OneAnHour(cap);
    DeadWeighNothing(rs, |rs|, Recent(p.ScopeOf(), false, HOUR, 0));
    DeadWeighNothing(rs, |rs|, Recent(p.ScopeOf(), true, HOUR, 0));
    assert StaticReasons(p, policy, 0) == [];
    assert !SomeCapExceeded(rs, p, policy, 0);
  }
}
