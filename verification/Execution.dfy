/**
 Signing and broadcasting across crashes.  The signer keeps its replay state in memory and
 in a file; the service keeps decisions and executions in durable, first-writer-wins
 stores.  Either process may stop between any two steps.
 */
module Execution {
  import opened Common
  import opened SigningGate
  import opened ReplayFile

  // ---------- the signer's replay state ----------

  datatype SignError = DecisionReplayed | NotMonotonic | PersistenceFailed

  /** A failed write may or may not have reached the file. */
  datatype Write = Written | Failed

  function Refusal(replay: Replay, r: Request): Option<SignError> {
    if r.decision.decisionNonce in replay.used then Some(DecisionReplayed)
    else if r.walletNonce != Get(replay.next, r.Account(), 0) then Some(NotMonotonic)
    else None
  }

  function Updated(replay: Replay, r: Request): Replay {
    Replay(replay.used + {r.decision.decisionNonce}, replay.next[r.Account() := r.walletNonce + 1])
  }

  /** Memory, and everything the next start may find on disk. */
  datatype Signer = Signer(memory: Replay, file: seq<Option<File>>)

  const STARTED: Signer := Signer(DEFAULT, [None])

  /** The locked section: check, persist if a file is configured, then commit. */
  function Sign(s: Signer, durable: bool, r: Request, write: Write): (result: (Signer, Option<SignError>)) {
    var refusal := Refusal(s.memory, r);
    if refusal.Some? then (s, refusal)
    else
      var updated := Updated(s.memory, r);
      if !durable then (s.(memory := updated), None)
      else if write == Failed then (s.(file := s.file + [Some(Persist(updated))]), Some(PersistenceFailed))
      else (Signer(updated, [Some(Persist(updated))]), None)
  }

  function Restarted(s: Signer, choice: nat): Signer {
    if choice < |s.file| && Load(s.file[choice]).Some? then s.(memory := Load(s.file[choice]).value) else s
  }

  class SignerService {
    const durable: bool
    var replay: Replay
    var file: seq<Option<File>>

    ghost function View(): Signer
      reads this
    {
      Signer(replay, file)
    }

    constructor (durable: bool)
      ensures View() == STARTED && this.durable == durable
    {
      this.durable, replay, file := durable, DEFAULT, [None];
    }

    /** After success a restart reads the new state or, if that has outgrown the file's limit, nothing; after a
        failure it reads the new state or one that was possible before. */
    method PersistReplayState(updated: Replay, write: Write) returns (ok: bool)
      modifies this`file
      ensures ok == write.Written?
      ensures file == if ok then [Some(Persist(updated))] else old(file) + [Some(Persist(updated))]
      ensures forall f | f in file && Load(f).Some? :: Load(f) == Some(updated) || (!ok && f in old(file))
      ensures ok ==> (Load(file[0]).Some? <==> Size(Persist(updated)) <= SIZE_LIMIT)
    {
      LoadUndoesPersist(updated);
      var persisted := Persist(updated);
      if write.Failed? {
        file := file + [Some(persisted)];
        return false;
      }
      file := [Some(persisted)];
      return true;
    }

    /** A restart: whatever is on disk is loaded, or the signer does not start. */
    method Restart(choice: nat) returns (started: bool)
      requires choice < |file|
      modifies this`replay
      ensures started <==> Load(file[choice]).Some?
      ensures if started then Load(file[choice]) == Some(replay) else replay == old(replay)
      ensures View() == Restarted(old(View()), choice)
    {
      var loaded := LoadReplayState(file[choice]);
      if loaded.None? {
        return false;
      }
      replay := loaded.value;
      return true;
    }

    method SignAuthorizedTransaction(r: Request, write: Write) returns (error: Option<SignError>)
      modifies this
      ensures (View(), error) == Sign(old(View()), durable, r, write)
      ensures error.None? <==>
              && r.decision.decisionNonce !in old(replay.used) && (durable ==> write == Written)
              && r.walletNonce == if (r.proposal.wallet, r.chainId) in old(replay.next)
                                  then old(replay.next)[(r.proposal.wallet, r.chainId)] else 0
      ensures error.Some? ==> replay == old(replay)
      ensures error.None? ==>
                replay == Replay(old(replay.used) + {r.decision.decisionNonce},
                                 old(replay.next)[(r.proposal.wallet, r.chainId) := r.walletNonce + 1])
      ensures error.None? && durable ==> file == [Some(Persist(replay))]
      ensures error == Some(DecisionReplayed) <==> r.decision.decisionNonce in old(replay.used)
      ensures !durable || error in {Some(DecisionReplayed), Some(NotMonotonic)} ==> file == old(file)
    {
      hide Persist, Load, Size;
      if r.decision.decisionNonce in replay.used {
        return Some(DecisionReplayed);
      }
      var expected := if r.Account() in replay.next then replay.next[r.Account()] else 0;
      if r.walletNonce != expected {
        return Some(NotMonotonic);
      }
      var updated := Replay(replay.used + {r.decision.decisionNonce}, replay.next[r.Account() := r.walletNonce + 1]);
      if durable {
        var ok := PersistReplayState(updated, write);
        if !ok {
          return Some(PersistenceFailed);
        }
      }
      replay := updated;
      return None;
    }
  }

  // ---------- the artifact store ----------

  datatype Stored = Stored(request: Request, raw: Bytes, submittedAt: Option<int>)

  datatype Artifacts = Artifacts(decisions: map<Uuid, Decision>, executions: map<Uuid, Stored>)

  function PutDecision(a: Artifacts, id: Uuid, d: Decision): Artifacts {
    if id in a.decisions then a else a.(decisions := a.decisions[id := d])
  }

  function PutExecution(a: Artifacts, id: Uuid, e: Stored): Artifacts {
    if id in a.executions then a else a.(executions := a.executions[id := e])
  }

  function MarkSubmitted(a: Artifacts, id: Uuid, at: int): Artifacts {
    if id !in a.executions || a.executions[id].submittedAt.Some? then a
    else a.(executions := a.executions[id := a.executions[id].(submittedAt := Some(at))])
  }

  class MemoryAuthorizationArtifactStore {
    var decisions: map<Uuid, Decision>
    var executions: map<Uuid, Stored>

    ghost function View(): Artifacts
      reads this
    {
      Artifacts(decisions, executions)
    }

    constructor ()
      ensures View() == Artifacts(map[], map[])
    {
      decisions, executions := map[], map[];
    }

    /** The first decision stored for a proposal is the one every caller gets. */
    method PutDecisionOnce(id: Uuid, d: Decision) returns (stored: Decision, created: bool)
      modifies this
      ensures View() == PutDecision(old(View()), id, d)
      ensures id in decisions && stored == decisions[id]
      ensures created <==> id !in old(decisions)
      ensures executions == old(executions) && decisions == if created then old(decisions)[id := d] else old(decisions)
    {
      if id in decisions {
        return decisions[id], false;
      }
      decisions := decisions[id := d];
      return d, true;
    }

    method PutExecutionOnce(id: Uuid, e: Stored) returns (stored: Stored, created: bool)
      modifies this
      ensures View() == PutExecution(old(View()), id, e)
      ensures id in executions && stored == executions[id]
      ensures created <==> id !in old(executions)
      ensures decisions == old(decisions) && executions == if created then old(executions)[id := e] else old(executions)
    {
      if id in executions {
        return executions[id], false;
      }
      executions := executions[id := e];
      return e, true;
    }

    /** Only the first submission time is kept, and nothing else of the execution changes. */
    method MarkAsSubmitted(id: Uuid, at: int) returns (stored: Option<Stored>)
      modifies this
      ensures View() == MarkSubmitted(old(View()), id, at)
      ensures stored == if id in executions then Some(executions[id]) else None
      ensures decisions == old(decisions)
      ensures executions == if id in old(executions) && old(executions[id].submittedAt.None?)
                            then old(executions)[id := old(executions[id]).(submittedAt := Some(at))] else old(executions)
    {
      if id !in executions {
        return None;
      }
      var execution := executions[id];
      if execution.submittedAt.None? {
        execution := execution.(submittedAt := Some(at));
        executions := executions[id := execution];
      }
      return Some(execution);
    }
  }
}
