/** At-most-once signing and one set of bytes per proposal, in every interleaving with crashes. */
module CrashSafety {
  import opened Common
  import opened Contracts
  import opened SigningGate
  import opened ReplayFile
  import opened Execution

  /** A signature the signer produced. */
  datatype Grant = Grant(request: Request, raw: Bytes)

  datatype World = World(
    signer: Signer,
    grants: seq<Grant>,
    artifacts: Artifacts,
    replies: set<Grant>,
    broadcasts: seq<(Uuid, Bytes)>)

  const BEGIN: World := World(STARTED, [], Artifacts(map[], map[]), {}, [])

  /** One atomic step of `submit`, `execute` or the signer, or a crash.  Any number of service
      workers may be between their steps; a lost reply is a reply never stored. */
  datatype Event =
    | DecisionIssued(id: Uuid, decision: Decision)
    | SignCall(request: Request, write: Write, raw: Bytes)
    | ReplyStored(grant: Grant)
    | Broadcast(id: Uuid)
    | SubmissionMarked(id: Uuid, at: int)
    | SignerRestart(choice: nat)
    | ServiceRestart

  /** The service asks only with the decision it stored for the proposal. */
  predicate Asked(w: World, r: Request) {
    r.proposal.proposalId in w.artifacts.decisions && w.artifacts.decisions[r.proposal.proposalId] == r.decision
  }

  function After(w: World, durable: bool, e: Event): World {
    match e
    case DecisionIssued(id, d) => w.(artifacts := PutDecision(w.artifacts, id, d))
    case SignCall(r, write, raw) =>
      if !Asked(w, r) then w
      else
        var (signer, error) := Sign(w.signer, durable, r, write);
        if error.Some? then w.(signer := signer)
        else w.(signer := signer, grants := w.grants + [Grant(r, raw)], replies := w.replies + {Grant(r, raw)})
    case ReplyStored(g) =>
      if g !in w.replies then w
      else w.(artifacts := PutExecution(w.artifacts, g.request.proposal.proposalId, Stored(g.request, g.raw, None)),
              replies := w.replies - {g})
    case Broadcast(id) =>
      if id !in w.artifacts.executions then w
      else w.(broadcasts := w.broadcasts + [(id, w.artifacts.executions[id].raw)])
    case SubmissionMarked(id, at) => w.(artifacts := MarkSubmitted(w.artifacts, id, at))
    case SignerRestart(choice) => w.(signer := Restarted(w.signer, choice))
    case ServiceRestart => w.(replies := {})
  }

  function RunFrom(w: World, durable: bool, events: seq<Event>): World
    decreases |events|
  {
    if events == [] then w
    else After(RunFrom(w, durable, events[..|events| - 1]), durable, events[|events| - 1])
  }

  function Run(durable: bool, events: seq<Event>): World {
    RunFrom(BEGIN, durable, events)
  }

  // ---------- the invariant ----------

  /** The replay state refuses every request granted so far. */
  predicate CoversAt(replay: Replay, g: Grant) {
    && g.request.decision.decisionNonce in replay.used
    && g.request.walletNonce < Get(replay.next, g.request.Account(), 0)
  }

  ghost predicate Covers(replay: Replay, grants: seq<Grant>) {
    forall i | 0 <= i < |grants| :: CoversAt(replay, grants[i])
  }

  /** If the signer starts from this file, then with a state that covers the grants. */
  ghost predicate FileCovers(file: Option<File>, grants: seq<Grant>) {
    Load(file).Some? ==> Covers(Load(file).value, grants)
  }

  ghost predicate SignerSafe(s: Signer, grants: seq<Grant>) {
    && Covers(s.memory, grants)
    && forall i | 0 <= i < |s.file| :: FileCovers(s.file[i], grants)
  }

  /** No decision nonce twice, and wallet nonces strictly increasing on each account. */
  predicate Apart(g: Grant, h: Grant) {
    && g.request.decision.decisionNonce != h.request.decision.decisionNonce
    && (g.request.Account() == h.request.Account() ==> g.request.walletNonce < h.request.walletNonce)
  }

  ghost predicate AtMostOnce(grants: seq<Grant>) {
    forall i, j | 0 <= i < j < |grants| :: Apart(grants[i], grants[j])
  }

  /** Grants were made for the stored decision; executions and broadcasts carry granted bytes. */
  ghost predicate Traceable(w: World) {
    && (forall i | 0 <= i < |w.grants| :: Asked(w, w.grants[i].request))
    && (forall g | g in w.replies :: g in w.grants)
    && (forall id | id in w.artifacts.executions ::
          && w.artifacts.executions[id].request.proposal.proposalId == id
          && Grant(w.artifacts.executions[id].request, w.artifacts.executions[id].raw) in w.grants)
    && (forall i | 0 <= i < |w.broadcasts| ::
          && w.broadcasts[i].0 in w.artifacts.executions
          && w.artifacts.executions[w.broadcasts[i].0].raw == w.broadcasts[i].1)
  }

  lemma {:induction false} UpdateCovers(replay: Replay, grants: seq<Grant>, g: Grant)
    requires Covers(replay, grants) && Refusal(replay, g.request).None?
    ensures Covers(Updated(replay, g.request), grants + [g])
    ensures forall i | 0 <= i < |grants| :: Apart(grants[i], g)
  {
    forall i | 0 <= i < |grants|
      ensures CoversAt(Updated(replay, g.request), grants[i]) && Apart(grants[i], g)
    {
      assert CoversAt(replay, grants[i]);
    }
  }

  lemma {:induction false} CoversFewer(replay: Replay, grants: seq<Grant>, g: Grant)
    requires Covers(replay, grants + [g])
    ensures Covers(replay, grants)
  {
    forall i | 0 <= i < |grants|
      ensures CoversAt(replay, grants[i])
    {
      assert (grants + [g])[i] == grants[i];
    }
  }

  lemma {:induction false} SignKeepsSafe(s: Signer, grants: seq<Grant>, g: Grant, write: Write)
    requires SignerSafe(s, grants)
    ensures var (after, error) := Sign(s, true, g.request, write);
            && (error.Some? ==> SignerSafe(after, grants))
            && (error.None? ==> SignerSafe(after, grants + [g]) && forall i | 0 <= i < |grants| :: Apart(grants[i], g))
  {
    hide Covers, Apart, Updated, Persist, Load, Size;
    if Refusal(s.memory, g.request).None? {
      UpdateCovers(s.memory, grants, g);
      CoversFewer(Updated(s.memory, g.request), grants, g);
      LoadUndoesPersist(Updated(s.memory, g.request));
    }
  }

  ghost predicate Safe(w: World) {
    SignerSafe(w.signer, w.grants) && AtMostOnce(w.grants) && Traceable(w)
  }

  lemma {:induction false} SignCallKeepsSafe(w: World, e: Event)
    requires Safe(w) && e.SignCall?
    ensures Safe(After(w, true, e))
  {
    hide SignerSafe, Apart, Sign;
    var g, after := Grant(e.request, e.raw), After(w, true, e);
    SignKeepsSafe(w.signer, w.grants, g, e.write);
    if Asked(w, e.request) && Sign(w.signer, true, e.request, e.write).1.None? {
      assert after.grants == w.grants + [g] && after.artifacts == w.artifacts;
      forall h | h in w.grants || h == g
        ensures h in after.grants && Asked(after, h.request)
      {
        assert after.grants[|w.grants|] == g;
      }
    }
  }

  lemma {:induction false} RestartKeepsSafe(w: World, e: Event)
    requires Safe(w) && e.SignerRestart?
    ensures Safe(After(w, true, e))
  {
    hide Covers, Apart, Load;
  }

  lemma {:induction false} ServiceKeepsSafe(w: World, e: Event)
    requires Safe(w) && !e.SignCall? && !e.SignerRestart?
    ensures Safe(After(w, true, e))
  {
    hide SignerSafe, Apart;
  }

  lemma {:induction false} RunKeepsSafe(start: World, events: seq<Event>)
    requires Safe(start)
    ensures Safe(RunFrom(start, true, events))
    decreases |events|
  {
    if events != [] {
      hide Safe, After;
      var n := |events| - 1;
      RunKeepsSafe(start, events[..n]);
      var w := RunFrom(start, true, events[..n]);
      if events[n].SignCall? {
        SignCallKeepsSafe(w, events[n]);
      } else if events[n].SignerRestart? {
        RestartKeepsSafe(w, events[n]);
      } else {
        ServiceKeepsSafe(w, events[n]);
      }
    }
  }

  lemma {:induction false} RunIsSafe(events: seq<Event>)
    ensures Safe(Run(true, events))
  {
    RunKeepsSafe(BEGIN, events);
  }

  lemma {:induction false} OneMoreEvent(w: World, durable: bool, events: seq<Event>, e: Event)
    ensures RunFrom(w, durable, events + [e]) == After(RunFrom(w, durable, events), durable, e)
  {
    assert (events + [e])[..|events|] == events;
  }

  lemma {:induction false} RunsCompose(w: World, durable: bool, first: seq<Event>, second: seq<Event>)
    ensures RunFrom(RunFrom(w, durable, first), durable, second) == RunFrom(w, durable, first + second)
    decreases |second|
  {
    hide After;
    if second == [] {
      assert first + second == first;
    } else {
      var n := |second| - 1;
      RunsCompose(w, durable, first, second[..n]);
      OneMoreEvent(w, durable, first + second[..n], second[n]);
      assert first + second[..n] + [second[n]] == first + second;
    }
  }

  // ---------- the theorems ----------

  lemma {:induction false} OneGrantPerProposal(w: World, m: nat, k: nat)
    requires Safe(w) && m < |w.grants| && k < |w.grants|
    requires w.grants[m].request.proposal.proposalId == w.grants[k].request.proposal.proposalId
    ensures m == k
  {
    assert Asked(w, w.grants[m].request) && Asked(w, w.grants[k].request);
    assert m < k ==> Apart(w.grants[m], w.grants[k]);
    assert k < m ==> Apart(w.grants[k], w.grants[m]);
  }

  /** In every run with a replay file, each decision nonce and each (wallet, chain, nonce) is
      granted at most once, and so is each proposal. */
  lemma {:induction false} GrantedAtMostOnce(events: seq<Event>, i: nat, j: nat)
    requires i < j < |Run(true, events).grants|
    ensures var g, h := Run(true, events).grants[i].request, Run(true, events).grants[j].request;
            && g.decision.decisionNonce != h.decision.decisionNonce
            && (g.Account(), g.walletNonce) != (h.Account(), h.walletNonce)
            && g.proposal.proposalId != h.proposal.proposalId
  {
    RunIsSafe(events);
    var w := Run(true, events);
    assert Apart(w.grants[i], w.grants[j]);
    assert Asked(w, w.grants[i].request) && Asked(w, w.grants[j].request);
  }

  /** Whatever is broadcast for a proposal is the one raw transaction ever signed for it. */
  lemma {:induction false} BroadcastsAreTheSignedBytes(events: seq<Event>, i: nat, k: nat)
    requires i < |Run(true, events).broadcasts| && k < |Run(true, events).grants|
    requires Run(true, events).grants[k].request.proposal.proposalId == Run(true, events).broadcasts[i].0
    ensures Run(true, events).broadcasts[i].1 == Run(true, events).grants[k].raw
  {
    RunIsSafe(events);
    var w := Run(true, events);
    var id := w.broadcasts[i].0;
    var e := w.artifacts.executions[id];
    var m :| 0 <= m < |w.grants| && w.grants[m] == Grant(e.request, e.raw);
    OneGrantPerProposal(w, m, k);
  }

  /** Any two broadcasts for a proposal carry the same bytes, and those bytes were granted. */
  lemma {:induction false} BroadcastsAgree(events: seq<Event>, i: nat, j: nat)
    requires i < |Run(true, events).broadcasts| && j < |Run(true, events).broadcasts|
    requires Run(true, events).broadcasts[i].0 == Run(true, events).broadcasts[j].0
    ensures Run(true, events).broadcasts[i].1 == Run(true, events).broadcasts[j].1
    ensures exists g :: g in Run(true, events).grants && g.raw == Run(true, events).broadcasts[i].1
                        && g.request.proposal.proposalId == Run(true, events).broadcasts[i].0
  {
    RunIsSafe(events);
    var w := Run(true, events);
    var e := w.artifacts.executions[w.broadcasts[i].0];
    assert Grant(e.request, e.raw) in w.grants;
  }

  predicate NextAtMost(replay: Replay, account: (Address, nat), n: nat) {
    Get(replay.next, account, 0) <= n
  }

  ghost predicate SmallNext(s: Signer, account: (Address, nat), n: nat) {
    && NextAtMost(s.memory, account, n)
    && forall f | f in s.file && Load(f).Some? :: NextAtMost(Load(f).value, account, n)
  }

  lemma {:induction false} SignStep(s: Signer, durable: bool, r: Request, write: Write, account: (Address, nat), n: nat)
    requires SmallNext(s, account, n)
    ensures SmallNext(Sign(s, durable, r, write).0, account, n + 1)
  {
    LoadUndoesPersist(Updated(s.memory, r));
    hide Persist, Load, Size;
    if Refusal(s.memory, r).None? {
      assert NextAtMost(Updated(s.memory, r), account, n + 1);
    }
    hide Updated;
  }

  lemma {:induction false} NonceStep(w: World, durable: bool, e: Event, account: (Address, nat), n: nat)
    requires SmallNext(w.signer, account, n)
    ensures SmallNext(After(w, durable, e).signer, account, n + 1)
  {
    if e.SignCall? {
      SignStep(w.signer, durable, e.request, e.write, account, n);
      hide SmallNext, Sign;
    } else {
      hide Load;
    }
  }

  /** A nonce the signer will hand out next, now or after any restart, is at most the number of steps
      so far, so the 64-bit increment cannot wrap before that many. */
  lemma {:induction false} NoncesStaySmall(durable: bool, events: seq<Event>, account: (Address, nat))
    ensures SmallNext(Run(durable, events).signer, account, |events|)
  {
    if events != [] {
      var n := |events| - 1;
      NoncesStaySmall(durable, events[..n], account);
      NonceStep(Run(durable, events[..n]), durable, events[n], account, n);
      hide After, SmallNext;
    }
  }

  /** Without a replay file one restart is enough to sign the same decision twice. */
  lemma {:induction false} RestartWithoutFileForgets(r: Request, raw: Bytes)
    requires r.walletNonce == 0
    ensures var events := [DecisionIssued(r.proposal.proposalId, r.decision), SignCall(r, Written, raw), SignerRestart(0),
                           SignCall(r, Written, raw)];
            Run(false, events).grants == [Grant(r, raw), Grant(r, raw)] && !AtMostOnce(Run(false, events).grants)
  {
    var e0, e1, e2 := DecisionIssued(r.proposal.proposalId, r.decision), SignCall(r, Written, raw), SignerRestart(0);
    var issued := After(BEGIN, false, e0);
    var signed := After(issued, false, e1);
    var restarted := After(signed, false, e2);
    OneMoreEvent(BEGIN, false, [], e0);
    OneMoreEvent(BEGIN, false, [e0], e1);
    OneMoreEvent(BEGIN, false, [e0, e1], e2);
    OneMoreEvent(BEGIN, false, [e0, e1, e2], e1);
    assert [] + [e0] == [e0] && [e0] + [e1] == [e0, e1] && [e0, e1] + [e2] == [e0, e1, e2];
    assert [e0, e1, e2] + [e1] == [e0, e1, e2, e1];
    assert signed.grants == [Grant(r, raw)];
    var last := After(restarted, false, e1);
    assert last.grants == [Grant(r, raw), Grant(r, raw)];
    assert !Apart(last.grants[0], last.grants[1]);
  }

  /** Every run signs each nonce at most once exactly when a replay file is configured. */
  lemma {:induction false} SafeExactlyWithFile(durable: bool, r: Request)
    requires r.walletNonce == 0
    ensures (forall events :: AtMostOnce(Run(durable, events).grants)) <==> durable
  {
    if durable {
      forall events
        ensures AtMostOnce(Run(durable, events).grants)
      {
        RunIsSafe(events);
      }
    } else {
      RestartWithoutFileForgets(r, []);
    }
  }
}
