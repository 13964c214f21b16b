/**
 The append-only audit journal: a hash chain of events, checkpoints over it and the
 trust-independent verifier.  SHA-256 and RFC 8785 canonical JSON stay uninterpreted.
 */
module Journal {
  import opened Common
  import opened Merkle

  /** Everything in an event but its hash, which is what the hash covers. */
  datatype Body = Body(
    sequence: int,
    eventId: Uuid,
    eventType: string,
    aggregateId: Option<Uuid>,
    occurredAt: int,
    actor: string,
    payload: string,
    previousHash: Digest)

  datatype Event = Event(body: Body, eventHash: Digest)

  datatype Checkpoint = Checkpoint(
    checkpointId: Uuid,
    firstSequence: int,
    lastSequence: int,
    eventCount: int,
    merkleRoot: Digest,
    headHash: Digest,
    createdAt: int)

  datatype JournalError = EmptyJournal | BeyondJournal | HistoryMismatch

  datatype VerifyError =
    | CountMismatch
    | FirstSequenceMismatch
    | LastSequenceMismatch
    | UnexpectedSequence(position: int)
    | PreviousHashMismatch(sequence: int)
    | EventHashMismatch(sequence: int)
    | HeadMismatch
    | RootMismatch

  datatype Verification = Verification(valid: bool, checkedEvents: nat, errors: seq<VerifyError>)

  /** The uninterpreted primitives: the hash and the canonical serialisation. */
  datatype Crypto = Crypto(hash: Hash, canonical: Body -> Bytes) {
    function EventHash(body: Body): Digest {
      hash(canonical(body))
    }

    /** Different records have different canonical forms. */
    ghost predicate Unambiguous() {
      forall x, y :: canonical(x) == canonical(y) ==> x == y
    }
  }

  function Hashes(events: seq<Event>): (r: seq<Digest>) {
    seq(|events|, i requires 0 <= i < |events| => events[i].eventHash)
  }

  /** The hash event i must name as its predecessor's. */
  function Previous(events: seq<Event>, i: nat): Digest
    requires i <= |events|
  {
    if i == 0 then GENESIS else events[i - 1].eventHash
  }

  function Head(events: seq<Event>): Digest {
    Previous(events, |events|)
  }

  /** Event i is numbered i + 1, names its predecessor and hashes its own body. */
  predicate Linked(c: Crypto, events: seq<Event>, i: nat)
    requires i < |events|
  {
    && events[i].body.sequence == i + 1
    && events[i].body.previousHash == Previous(events, i)
    && events[i].eventHash == c.EventHash(events[i].body)
  }

  ghost predicate Chained(c: Crypto, events: seq<Event>) {
    forall i | 0 <= i < |events| :: Linked(c, events, i)
  }

  // ---------- the journal ----------

  function Next(c: Crypto, events: seq<Event>, draft: Body): Event {
    var body := draft.(sequence := |events| + 1, previousHash := Head(events));
    Event(body, c.EventHash(body))
  }

  /** The body says what the draft said; the journal fills in only the sequence number and the previous hash. */
  predicate Records(body: Body, draft: Body) {
    && body.eventId == draft.eventId && body.eventType == draft.eventType && body.aggregateId == draft.aggregateId
    && body.occurredAt == draft.occurredAt && body.actor == draft.actor && body.payload == draft.payload
  }

  /** Every history the journal can have: the events appended for some drafts. */
  function Appended(c: Crypto, drafts: seq<Body>): (r: seq<Event>) {
    if drafts == [] then []
    else
      var before := Appended(c, drafts[..|drafts| - 1]);
      before + [Next(c, before, drafts[|drafts| - 1])]
  }

  function Snapshot(c: Crypto, events: seq<Event>, id: Uuid, now: int): (r: Result<Checkpoint, JournalError>) {
    if events == [] then Err(EmptyJournal)
    else Ok(Checkpoint(id, 1, |events|, |events|, Root(c.hash, Hashes(events)), Head(events), now))
  }

  function AnchorError(c: Crypto, events: seq<Event>, cp: Checkpoint): (r: Option<JournalError>)
    requires cp.eventCount > 0
  {
    if cp.eventCount > |events| then Some(BeyondJournal)
    else
      var anchored := events[..cp.eventCount];
      if || cp.lastSequence != anchored[|anchored| - 1].body.sequence
         || cp.headHash != Head(anchored)
         || cp.merkleRoot != Root(c.hash, Hashes(anchored))
      then Some(HistoryMismatch)
      else None
  }

  class AuditJournal {
    const crypto: Crypto
    var events: seq<Event>
    var lastAnchorCount: nat
    var lastAnchorAt: int

    ghost predicate Valid()
      reads this
    {
      Chained(crypto, events) && lastAnchorCount <= |events|
    }

    constructor (crypto: Crypto, now: int)
      ensures Valid() && this.crypto == crypto
      ensures events == [] && lastAnchorCount == 0 && lastAnchorAt == now
    {
      this.crypto := crypto;
      events, lastAnchorCount, lastAnchorAt := [], 0, now;
    }

    method Append(draft: Body) returns (event: Event)
      requires Valid()
      modifies this`events
      ensures Valid()
      ensures event == Next(crypto, old(events), draft) && events == old(events) + [event]
      ensures Records(event.body, draft) && event.body.sequence == |events|
      ensures event.body.previousHash == if old(events) == [] then Digest(seq(32, _ => 0)) else old(events[|events| - 1].eventHash)
      ensures event.eventHash == crypto.hash(crypto.canonical(event.body))
    {
      var previous := if events != [] then events[|events| - 1].eventHash else GENESIS;
      var body := draft.(sequence := |events| + 1, previousHash := previous);
      event := Event(body, crypto.EventHash(body));
      AppendKeepsChain(crypto, events, draft);
      events := events + [event];
    }

    method SnapshotCheckpoint(id: Uuid, now: int) returns (r: Result<Checkpoint, JournalError>)
      requires Valid()
      ensures r == Snapshot(crypto, events, id, now)
      ensures r.Err? <==> events == []
      ensures r.Ok? ==> Accepts(crypto, events, r.value) && r.value.checkpointId == id && r.value.createdAt == now
    {
      if events == [] {
        return Err(EmptyJournal);
      }
      var root := MerkleRoot(crypto.hash, Hashes(events));
      r := Ok(Checkpoint(id, 1, |events|, |events|, root, events[|events| - 1].eventHash, now));
    }

    method MarkAnchored(cp: Checkpoint) returns (r: Option<JournalError>)
      requires Valid() && cp.eventCount > 0
      modifies this`lastAnchorCount, this`lastAnchorAt
      ensures Valid()
      ensures r == AnchorError(crypto, events, cp)
      ensures r == Some(BeyondJournal) <==> cp.eventCount > |events|
      ensures r.None? <==>
              && cp.eventCount <= |events| && cp.lastSequence == cp.eventCount
              && cp.headHash == events[cp.eventCount - 1].eventHash
              && cp.merkleRoot == Root(crypto.hash, Hashes(events[..cp.eventCount]))
      ensures r.Some? ==> lastAnchorCount == old(lastAnchorCount) && lastAnchorAt == old(lastAnchorAt)
      ensures r.None? ==> lastAnchorAt == cp.createdAt
                          && lastAnchorCount == if old(lastAnchorCount) >= cp.eventCount then old(lastAnchorCount)
                                                else cp.eventCount
    {
      if cp.eventCount > |events| {
        return Some(BeyondJournal);
      }
      var anchored := events[..cp.eventCount];
      assert Linked(crypto, events, cp.eventCount - 1);
      var root := MerkleRoot(crypto.hash, Hashes(anchored));
      var last := anchored[|anchored| - 1];
      if cp.lastSequence != last.body.sequence || cp.headHash != last.eventHash || cp.merkleRoot != root {
        return Some(HistoryMismatch);
      }
      if lastAnchorCount < cp.eventCount {
        lastAnchorCount := cp.eventCount;
      }
      lastAnchorAt := cp.createdAt;
      r := None;
    }
  }

  lemma {:induction false} AppendKeepsChain(c: Crypto, events: seq<Event>, draft: Body)
    requires Chained(c, events)
    ensures Chained(c, events + [Next(c, events, draft)])
  {
    var longer := events + [Next(c, events, draft)];
    forall i | 0 <= i < |longer|
      ensures Linked(c, longer, i)
    {
      assert i < |events| ==> Linked(c, events, i);
    }
  }

  lemma {:induction false} AppendedIsChained(c: Crypto, drafts: seq<Body>)
    ensures Chained(c, Appended(c, drafts))
  {
    if drafts != [] {
      var front := drafts[..|drafts| - 1];
      AppendedIsChained(c, front);
      AppendKeepsChain(c, Appended(c, front), drafts[|drafts| - 1]);
    }
  }

  /** Later appends never touch what is already there. */
  lemma {:induction false} AppendedOnlyGrows(c: Crypto, drafts: seq<Body>, more: seq<Body>)
    ensures |Appended(c, drafts)| == |drafts|
    ensures Appended(c, drafts) <= Appended(c, drafts + more)
    decreases |drafts| + |more|, |more|
  {
    if more != [] {
      var all := drafts + more;
      assert all[..|all| - 1] == drafts + more[..|more| - 1];
      AppendedOnlyGrows(c, drafts, more[..|more| - 1]);
    } else {
      assert drafts + more == drafts;
      if drafts != [] {
        AppendedOnlyGrows(c, drafts[..|drafts| - 1], []);
      }
    }
  }

  /** Over every history, the events record the drafts, in order. */
  lemma {:induction false} AppendedRecordDrafts(c: Crypto, drafts: seq<Body>)
    ensures |Appended(c, drafts)| == |drafts|
    ensures forall i | 0 <= i < |drafts| :: Records(Appended(c, drafts)[i].body, drafts[i])
  {
    if drafts != [] {
      AppendedRecordDrafts(c, drafts[..|drafts| - 1]);
    }
  }

  // ---------- the verifier ----------

  function CheckEvent(c: Crypto, position: nat, previous: Digest, event: Event): (r: seq<VerifyError>) {
    (if event.body.sequence != position then [UnexpectedSequence(position)] else [])
    + (if event.body.previousHash != previous then [PreviousHashMismatch(event.body.sequence)] else [])
    + (if event.eventHash != c.EventHash(event.body) then [EventHashMismatch(event.body.sequence)] else [])
  }

  /** The errors of the first n events. */
  function CheckChain(c: Crypto, events: seq<Event>, n: nat): (r: seq<VerifyError>)
    requires n <= |events|
  {
    if n == 0 then []
    else CheckChain(c, events, n - 1) + CheckEvent(c, n, Previous(events, n - 1), events[n - 1])
  }

  /** What a trusted checkpoint accepts, said without the verifier's order of work. */
  ghost predicate Accepts(c: Crypto, events: seq<Event>, cp: Checkpoint) {
    && |events| == cp.eventCount
    && (events != [] ==> cp.firstSequence == 1 && cp.lastSequence == |events|)
    && Chained(c, events)
    && cp.headHash == Head(events)
    && cp.merkleRoot == Root(c.hash, Hashes(events))
  }

  lemma {:induction false} CheckChainMeans(c: Crypto, events: seq<Event>, n: nat)
    requires n <= |events|
    ensures CheckChain(c, events, n) == [] <==> forall i | 0 <= i < n :: Linked(c, events, i)
  {
    if n > 0 {
      CheckChainMeans(c, events, n - 1);
      assert CheckEvent(c, n, Previous(events, n - 1), events[n - 1]) == [] <==> Linked(c, events, n - 1);
    }
  }

  function CheckRange(events: seq<Event>, cp: Checkpoint): (r: seq<VerifyError>) {
    (if |events| != cp.eventCount then [CountMismatch] else [])
    + (if events != [] && events[0].body.sequence != cp.firstSequence then [FirstSequenceMismatch] else [])
    + (if events != [] && events[|events| - 1].body.sequence != cp.lastSequence then [LastSequenceMismatch] else [])
  }

  function CheckSummary(head: Digest, root: Digest, cp: Checkpoint): (r: seq<VerifyError>) {
    (if head != cp.headHash then [HeadMismatch] else [])
    + (if root != cp.merkleRoot then [RootMismatch] else [])
  }

  lemma {:induction false} NoErrorsMeansAccepts(c: Crypto, events: seq<Event>, cp: Checkpoint)
    ensures Accepts(c, events, cp) <==>
            && CheckRange(events, cp) == []
            && CheckChain(c, events, |events|) == []
            && CheckSummary(Head(events), Root(c.hash, Hashes(events)), cp) == []
  {
    CheckChainMeans(c, events, |events|);
    if events != [] && Chained(c, events) {
      assert Linked(c, events, 0) && Linked(c, events, |events| - 1);
    }
  }

  /** What each error reports. */
  ghost predicate Reports(c: Crypto, events: seq<Event>, cp: Checkpoint, e: VerifyError) {
    match e
    case CountMismatch => |events| != cp.eventCount
    case FirstSequenceMismatch => events != [] && events[0].body.sequence != cp.firstSequence
    case LastSequenceMismatch => events != [] && events[|events| - 1].body.sequence != cp.lastSequence
    case UnexpectedSequence(k) => 1 <= k <= |events| && events[k - 1].body.sequence != k
    case PreviousHashMismatch(s) =>
      exists i | 0 <= i < |events| :: events[i].body.sequence == s && events[i].body.previousHash != Previous(events, i)
    case EventHashMismatch(s) =>
      exists i | 0 <= i < |events| :: events[i].body.sequence == s && events[i].eventHash != c.hash(c.canonical(events[i].body))
    case HeadMismatch => cp.headHash != Previous(events, |events|)
    case RootMismatch => cp.merkleRoot != Root(c.hash, Hashes(events))
  }

  /** What the check of event i reports. */
  predicate ReportsAt(c: Crypto, events: seq<Event>, i: nat, e: VerifyError)
    requires i < |events|
  {
    var event := events[i];
    || (e == UnexpectedSequence(i + 1) && event.body.sequence != i + 1)
    || (e == PreviousHashMismatch(event.body.sequence) && event.body.previousHash != Previous(events, i))
    || (e == EventHashMismatch(event.body.sequence) && event.eventHash != c.hash(c.canonical(event.body)))
  }

  lemma {:induction false} CheckEventReports(c: Crypto, events: seq<Event>, i: nat, e: VerifyError)
    requires i < |events|
    ensures e in CheckEvent(c, i + 1, Previous(events, i), events[i]) <==> ReportsAt(c, events, i, e)
  {}

  lemma {:induction false} CheckChainReports(c: Crypto, events: seq<Event>, n: nat, e: VerifyError)
    requires n <= |events|
    ensures e in CheckChain(c, events, n) <==> exists i | 0 <= i < n :: ReportsAt(c, events, i, e)
  {
    hide CheckEvent, ReportsAt;
    if n > 0 {
      CheckChainReports(c, events, n - 1, e);
      CheckEventReports(c, events, n - 1, e);
      var before, last := CheckChain(c, events, n - 1), CheckEvent(c, n, Previous(events, n - 1), events[n - 1]);
      InThree(before, last, [], e);
      assert before + last + [] == CheckChain(c, events, n);
    }
  }

  /** Some event's check reports the error exactly when what it says is so. */
  lemma {:induction false} SomeEventReports(c: Crypto, events: seq<Event>, cp: Checkpoint, e: VerifyError)
    ensures (exists i | 0 <= i < |events| :: ReportsAt(c, events, i, e)) <==>
            (e.UnexpectedSequence? || e.PreviousHashMismatch? || e.EventHashMismatch?) && Reports(c, events, cp, e)
  {
    match e {
      case UnexpectedSequence(k) =>
        if Reports(c, events, cp, e) {
          assert ReportsAt(c, events, k - 1, e);
        }
      case PreviousHashMismatch(s) =>
        if Reports(c, events, cp, e) {
          var i: nat :| i < |events| && events[i].body.sequence == s && events[i].body.previousHash != Previous(events, i);
          assert ReportsAt(c, events, i, e);
        }
      case EventHashMismatch(s) =>
        if Reports(c, events, cp, e) {
          var i: nat :| i < |events| && events[i].body.sequence == s
                        && events[i].eventHash != c.hash(c.canonical(events[i].body));
          assert ReportsAt(c, events, i, e);
        }
      case _ =>
    }
  }

  lemma {:induction false} EndsReport(c: Crypto, events: seq<Event>, cp: Checkpoint, root: Digest, e: VerifyError)
    requires root == Root(c.hash, Hashes(events))
    ensures e in CheckRange(events, cp) || e in CheckSummary(Head(events), root, cp) <==>
            !(e.UnexpectedSequence? || e.PreviousHashMismatch? || e.EventHashMismatch?) && Reports(c, events, cp, e)
  {
    hide Root;
  }

  lemma {:induction false} InThree(a: seq<VerifyError>, b: seq<VerifyError>, d: seq<VerifyError>, e: VerifyError)
    ensures e in a + b + d <==> e in a || e in b || e in d
  {}

  /** An error is reported exactly when what it says is so. */
  lemma {:induction false} ReportedExactly(c: Crypto, events: seq<Event>, cp: Checkpoint, e: VerifyError)
    ensures e in CheckRange(events, cp) + CheckChain(c, events, |events|)
                 + CheckSummary(Head(events), Root(c.hash, Hashes(events)), cp)
            <==> Reports(c, events, cp, e)
  {
    hide CheckChain, CheckRange, CheckSummary, Root, Reports, ReportsAt;
    CheckChainReports(c, events, |events|, e);
    SomeEventReports(c, events, cp, e);
    EndsReport(c, events, cp, Root(c.hash, Hashes(events)), e);
    InThree(CheckRange(events, cp), CheckChain(c, events, |events|),
            CheckSummary(Head(events), Root(c.hash, Hashes(events)), cp), e);
  }

  /** The verdict is exactly `Accepts`; the report lists every failed check in order. */
  method VerifyJournal(c: Crypto, events: seq<Event>, cp: Checkpoint) returns (r: Verification)
    ensures r.valid <==> Accepts(c, events, cp)
    ensures r.checkedEvents == |events|
    ensures forall e :: e in r.errors <==> Reports(c, events, cp, e)
    ensures r.errors == CheckRange(events, cp) + CheckChain(c, events, |events|)
                        + CheckSummary(Head(events), Root(c.hash, Hashes(events)), cp)
  {
    var errors := CheckRange(events, cp);
    var previous := GENESIS;
    for i := 0 to |events|
      invariant previous == Previous(events, i)
      invariant errors == CheckRange(events, cp) + CheckChain(c, events, i)
    {
      errors := errors + CheckEvent(c, i + 1, previous, events[i]);
      previous := events[i].eventHash;
    }
    var root := MerkleRoot(c.hash, Hashes(events));
    errors := errors + CheckSummary(previous, root, cp);
    NoErrorsMeansAccepts(c, events, cp);
    forall e
      ensures e in CheckRange(events, cp) + CheckChain(c, events, |events|)
                   + CheckSummary(Head(events), Root(c.hash, Hashes(events)), cp)
              <==> Reports(c, events, cp, e)
    {
      ReportedExactly(c, events, cp, e);
    }
    hide Reports, CheckChain, CheckRange, CheckSummary, Root;
    r := Verification(errors == [], |events|, errors);
  }

  // ---------- completeness ----------

  /** A journal built by appends verifies against its own snapshot, and that snapshot is
      still accepted as an anchor after any further appends. */
  lemma {:induction false} SnapshotsStayAnchored(c: Crypto, drafts: seq<Body>, more: seq<Body>, id: Uuid, now: int)
    requires drafts != []
    ensures var events := Appended(c, drafts);
            && Snapshot(c, events, id, now).Ok?
            && Accepts(c, events, Snapshot(c, events, id, now).value)
            && AnchorError(c, Appended(c, drafts + more), Snapshot(c, events, id, now).value) == None
  {
    AppendedIsChained(c, drafts);
    AppendedOnlyGrows(c, drafts, more);
    var events, later := Appended(c, drafts), Appended(c, drafts + more);
    assert later[..|events|] == events;
  }

  // ---------- soundness ----------

  ghost function Canonicals(c: Crypto, events: seq<Event>): seq<Bytes> {
    seq(|events|, i requires 0 <= i < |events| => c.canonical(events[i].body))
  }

  /** The strings hashed for these events: canonical bodies and Merkle pairs. */
  ghost function Strings(c: Crypto, events: seq<Event>): seq<Bytes> {
    Canonicals(c, events) + Hashed(c.hash, Hashes(events))
  }

  ghost predicate SameRecords(c: Crypto, a: seq<Event>, b: seq<Event>) {
    |a| == |b| && forall i | 0 <= i < |a| ::
      a[i].eventHash == b[i].eventHash && c.canonical(a[i].body) == c.canonical(b[i].body)
  }

  lemma {:induction false} SameHashesSameRecords(c: Crypto, a: seq<Event>, b: seq<Event>)
    requires Chained(c, a) && Chained(c, b) && Hashes(a) == Hashes(b)
    ensures SameRecords(c, a, b) || Collision(c.hash, Strings(c, a), Strings(c, b))
  {
    assert |a| == |Hashes(a)| == |b|;
    if !Collision(c.hash, Strings(c, a), Strings(c, b)) {
      forall i | 0 <= i < |a|
        ensures a[i].eventHash == b[i].eventHash && c.canonical(a[i].body) == c.canonical(b[i].body)
      {
        assert Hashes(a)[i] == Hashes(b)[i] && Linked(c, a, i) && Linked(c, b, i);
        assert Strings(c, a)[i] == c.canonical(a[i].body) && Strings(c, b)[i] == c.canonical(b[i].body);
      }
    }
  }

  lemma {:induction false} CollisionGrows(h: Hash, s: seq<Bytes>, t: seq<Bytes>, s': seq<Bytes>, t': seq<Bytes>)
    requires Collision(h, s, t)
    requires forall x | x in s :: x in s'
    requires forall y | y in t :: y in t'
    ensures Collision(h, s', t')
  {
    var x, y :| x in s && y in t && x != y && h(x) == h(y);
    assert x in s' && y in t';
  }

  /** Whatever the verifier accepts against a snapshot is the snapshotted history, record
      by record, or two of the strings hashed on the way collide. */
  lemma {:induction false} AcceptedIsHistory(c: Crypto, journal: seq<Event>, claimed: seq<Event>, id: Uuid, now: int)
    requires Chained(c, journal) && Snapshot(c, journal, id, now).Ok?
    requires Accepts(c, claimed, Snapshot(c, journal, id, now).value)
    ensures SameRecords(c, claimed, journal) || Collision(c.hash, Strings(c, claimed), Strings(c, journal))
    ensures c.Unambiguous() ==>
              claimed == journal || Collision(c.hash, Strings(c, claimed), Strings(c, journal))
  {
    RootBinding(c.hash, Hashes(claimed), Hashes(journal));
    if Hashes(claimed) == Hashes(journal) {
      SameHashesSameRecords(c, claimed, journal);
    } else {
      CollisionGrows(c.hash, Hashed(c.hash, Hashes(claimed)), Hashed(c.hash, Hashes(journal)),
                     Strings(c, claimed), Strings(c, journal));
    }
  }

  /** The head hash binds even without the count: two chains with one head are one chain. */
  lemma {:induction false} HeadBinding(c: Crypto, a: seq<Event>, b: seq<Event>)
    requires c.Unambiguous() && Chained(c, a) && Chained(c, b) && a != [] && b != [] && Head(a) == Head(b)
    ensures a == b || Collision(c.hash, Canonicals(c, a), Canonicals(c, b))
  {
    PrefixBinding(c, a, b, |a|, |b|);
    assert a[..|a|] == a && b[..|b|] == b;
  }

  lemma {:induction false} PrefixBinding(c: Crypto, a: seq<Event>, b: seq<Event>, m: nat, n: nat)
    requires c.Unambiguous() && Chained(c, a) && Chained(c, b)
    requires 0 < m <= |a| && 0 < n <= |b| && Previous(a, m) == Previous(b, n)
    ensures a[..m] == b[..n] || Collision(c.hash, Canonicals(c, a), Canonicals(c, b))
  {
    var x, y := a[m - 1], b[n - 1];
    assert Linked(c, a, m - 1) && Linked(c, b, n - 1);
    var s, t := Canonicals(c, a), Canonicals(c, b);
    assert s[m - 1] == c.canonical(x.body) && t[n - 1] == c.canonical(y.body);
    if s[m - 1] != t[n - 1] {
      assert Collision(c.hash, s, t);
    } else if m > 1 {
      PrefixBinding(c, a, b, m - 1, n - 1);
      assert a[..m] == a[..m - 1] + [x] && b[..n] == b[..n - 1] + [y];
    }
  }
}
