/**
 Fixed-window request limiting.  Time is an input in microseconds.  A window opens with
 the first request after the previous one has run out, so `limit` requests can end one
 window and `limit` more open the next: the bound over a sliding window is 2 * limit - 1.
 */
module RateLimit {
  import opened Common

  datatype Window = Window(startedAt: int, count: nat)

  type Windows = map<string, Window>

  datatype Verdict = Invalid | Denied | Admitted

  /** The window a request at `now` is counted in. */
  function Current(ws: Windows, subject: string, seconds: int, now: int): (w: Window) {
    var w := Get(ws, subject, Window(now, 0));
    if now - w.startedAt >= seconds * MICROS then Window(now, 0) else w
  }

  function Consume(ws: Windows, subject: string, limit: int, seconds: int, now: int): (r: (Windows, Verdict)) {
    if limit < 1 || seconds < 1 then (ws, Invalid)
    else
      var w := Current(ws, subject, seconds, now);
      if w.count >= limit then (ws, Denied)
      else (ws[subject := w.(count := w.count + 1)], Admitted)
  }

  class MemoryRateLimiter {
    var windows: Windows

    constructor ()
      ensures windows == map[]
    {
      windows := map[];
    }

    method ConsumeOne(subject: string, limit: int, seconds: int, now: int) returns (r: Verdict)
      modifies this
      ensures (windows, r) == Consume(old(windows), subject, limit, seconds, now)
      ensures r == Invalid <==> limit < 1 || seconds < 1
      ensures r != Invalid ==>
                var running := subject in old(windows) && now - old(windows[subject].startedAt) < seconds * 1_000_000;
                && (r == Denied <==> running && old(windows[subject].count) >= limit)
                && (r == Admitted ==>
                      windows == old(windows)
                                 [subject := if running
                                             then Window(old(windows[subject].startedAt), old(windows[subject].count) + 1)
                                             else Window(now, 1)])
      ensures r != Admitted ==> windows == old(windows)
    {
      if limit < 1 || seconds < 1 {
        return Invalid;
      }
      var w := Get(windows, subject, Window(now, 0));
      if now - w.startedAt >= seconds * MICROS {
        w := Window(now, 0);
      }
      if w.count >= limit {
        return Denied;
      }
      windows := windows[subject := Window(w.startedAt, w.count + 1)];
      return Admitted;
    }
  }

  // ---------- runs ----------

  datatype Request = Request(subject: string, at: int)

  /** What is watched during a run: the admissions of one subject at times in one interval. */
  datatype Watch = Watch(subject: string, limit: int, seconds: int, from: int) {
    predicate Covers(r: Request) {
      r.subject == subject && from <= r.at < from + seconds * MICROS
    }

    predicate Legal() {
      limit >= 1 && seconds >= 1
    }
  }

  datatype Tally = Tally(windows: Windows, admitted: nat)

  function Step(t: Tally, r: Request, w: Watch): (t': Tally) {
    var (windows, verdict) := Consume(t.windows, r.subject, w.limit, w.seconds, r.at);
    Tally(windows, t.admitted + if verdict.Admitted? && w.Covers(r) then 1 else 0)
  }

  function Run(t: Tally, requests: seq<Request>, w: Watch): (t': Tally)
    decreases |requests|
  {
    if requests == [] then t else Run(Step(t, requests[0], w), requests[1..], w)
  }

  /** The number of requests of the subject admitted in the interval, from an empty limiter. */
  function AdmittedIn(requests: seq<Request>, w: Watch): nat {
    Run(Tally(map[], 0), requests, w).admitted
  }

  ghost predicate Monotone(requests: seq<Request>) {
    forall i, j | 0 <= i < j < |requests| :: requests[i].at <= requests[j].at
  }

  /** What the subject's window says about the admissions so far, the clock having reached `now`. */
  predicate Accounts(t: Tally, w: Watch, now: int) {
    && (now < w.from ==> t.admitted == 0)
    && if w.subject !in t.windows then t.admitted == 0
       else
         var own := t.windows[w.subject];
         && own.startedAt <= now && 1 <= own.count <= w.limit
         && (own.startedAt < w.from ==> t.admitted <= own.count - 1)
         && (w.from <= own.startedAt < w.from + w.seconds * MICROS ==> t.admitted <= w.limit - 1 + own.count)
         && t.admitted <= 2 * w.limit - 1
  }

  lemma {:induction false} StepAccounts(t: Tally, w: Watch, now: int, r: Request)
    requires w.Legal() && now <= r.at && Accounts(t, w, now)
    ensures Accounts(Step(t, r, w), w, r.at)
  {}

  lemma {:induction false} RunAccounts(t: Tally, requests: seq<Request>, w: Watch, now: int)
    requires w.Legal() && Monotone(requests) && Accounts(t, w, now)
    requires requests != [] ==> now <= requests[0].at
    ensures Run(t, requests, w).admitted <= 2 * w.limit - 1
    decreases |requests|
  {
    if requests != [] {
      StepAccounts(t, w, now, requests[0]);
      RunAccounts(Step(t, requests[0], w), requests[1..], w, requests[0].at);
    }
  }

  /** At most 2 * limit - 1 requests of a subject are admitted in any interval of one window's length. */
  lemma {:induction false} LimiterBound(requests: seq<Request>, w: Watch)
    requires w.Legal() && Monotone(requests)
    ensures AdmittedIn(requests, w) <= 2 * w.limit - 1
  {
    if requests != [] {
      RunAccounts(Tally(map[], 0), requests, w, requests[0].at);
    }
  }

  /** A request at least a full window after the window's start is always admitted. */
  lemma {:induction false} ElapsedIsAdmitted(ws: Windows, subject: string, limit: int, seconds: int, now: int)
    requires limit >= 1 && seconds >= 1
    requires subject in ws ==> now - ws[subject].startedAt >= seconds * MICROS
    ensures Consume(ws, subject, limit, seconds, now) == (ws[subject := Window(now, 1)], Admitted)
  {}

  // ---------- the bound is tight ----------

  function Repeat(r: Request, n: nat): (rs: seq<Request>)
    ensures |rs| == n && forall i | 0 <= i < n :: rs[i] == r
  {
    if n == 0 then [] else [r] + Repeat(r, n - 1)
  }

  /** One request at 0, limit - 1 just before the window runs out, limit right after. */
  function Burst(subject: string, limit: nat, seconds: nat): (r: seq<Request>)
    requires limit >= 1
  {
    [Request(subject, 0)] + (Repeat(Request(subject, seconds * MICROS - 1), limit - 1)
                             + Repeat(Request(subject, seconds * MICROS), limit))
  }

  lemma {:induction false} RunConcat(t: Tally, a: seq<Request>, b: seq<Request>, w: Watch)
    ensures Run(t, a + b, w) == Run(Run(t, a, w), b, w)
    decreases |a|
  {
    if a == [] {
      assert a + b == b;
    } else {
      assert (a + b)[1..] == a[1..] + b;
      RunConcat(Step(t, a[0], w), a[1..], b, w);
    }
  }

  /** n requests of one instant, all admitted while the window has room. */
  lemma {:induction false} RepeatAdmits(t: Tally, r: Request, n: nat, w: Watch)
    requires w.Legal() && r.subject == w.subject && r.subject in t.windows
    requires r.at - t.windows[r.subject].startedAt < w.seconds * MICROS
    requires t.windows[r.subject].count + n <= w.limit
    ensures var own := t.windows[r.subject];
            Run(t, Repeat(r, n), w)
            == Tally(t.windows[r.subject := own.(count := own.count + n)], t.admitted + if w.Covers(r) then n else 0)
    decreases n
  {
    if n > 0 {
      assert Repeat(r, n)[1..] == Repeat(r, n - 1);
      RepeatAdmits(Step(t, r, w), r, n - 1, w);
    } else {
      assert t.windows[r.subject := t.windows[r.subject]] == t.windows;
    }
  }

  /** A full burst opening a new window. */
  lemma {:induction false} FreshBurst(t: Tally, r: Request, w: Watch)
    requires w.Legal() && r.subject == w.subject && r.subject in t.windows && w.Covers(r)
    requires r.at - t.windows[r.subject].startedAt >= w.seconds * MICROS
    ensures Run(t, Repeat(r, w.limit), w).admitted == t.admitted + w.limit
  {
    var next := Step(t, r, w);
    ElapsedIsAdmitted(t.windows, r.subject, w.limit, w.seconds, r.at);
    assert Repeat(r, w.limit)[1..] == Repeat(r, w.limit - 1);
    RepeatAdmits(next, r, w.limit - 1, w);
  }

  /** For every limit some run reaches the bound. */
  lemma {:induction false} BoundIsTight(subject: string, limit: nat, seconds: nat)
    requires limit >= 1 && seconds >= 1
    ensures Monotone(Burst(subject, limit, seconds))
    ensures AdmittedIn(Burst(subject, limit, seconds), Watch(subject, limit, seconds, seconds * MICROS - 1))
         == 2 * limit - 1
  {
    var end := seconds * MICROS;
    var w := Watch(subject, limit, seconds, end - 1);
    var t := Step(Tally(map[], 0), Request(subject, 0), w);
    assert t == Tally(map[subject := Window(0, 1)], 0);
    var late, next := Repeat(Request(subject, end - 1), limit - 1), Repeat(Request(subject, end), limit);
    assert Burst(subject, limit, seconds)[1..] == late + next;
    RunConcat(t, late, next, w);
    RepeatAdmits(t, Request(subject, end - 1), limit - 1, w);
    FreshBurst(Run(t, late, w), Request(subject, end), w);
  }
}
