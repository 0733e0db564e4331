/** The check queue (`CCheckQueue`) as a state machine. A step is one critical section, one executed
    check, one wake-up, or one notification; any thread may take the next step at any time. */
module CheckQueues {

  import opened Basics

  type Error = nat

  /** A check, and what it returns when run: nothing, or an error. */
  datatype Check = Check(id: nat, error: Option<Error>)

  /** Where a thread is: outside of `Loop`, about to enter it, waiting on its condition variable, or
      holding a batch of which it executed the first `pos` checks. */
  datatype Where =
    | Outside
    | Entering
    | Waiting(notified: bool)
    | Working(batch: seq<Check>, pos: nat, doWork: bool)

  /** A thread, with its `local_result`, which outlives batches and sessions. */
  datatype Thread = Thread(at: Where, localResult: Option<Error>)

  /** What is guarded by the mutex. */
  datatype Shared = Shared(queue: seq<Check>, nIdle: int, nTotal: int, result: Option<Error>, nTodo: int)

  /** What a call of `Complete` returned, with the checks of its session and those that were run. */
  datatype Outcome = Outcome(returned: Option<Error>, added: multiset<Check>, ran: multiset<Check>)

  /** What happened in the current session, and the outcomes of all earlier ones. */
  datatype History = History(added: multiset<Check>, accounted: multiset<Check>, ran: multiset<Check>, outcomes: seq<Outcome>)

  /** Thread 0 is the master. `pending` is the notification that `Add` still owes: none, one, or all. */
  datatype Pending = Nobody | One | All

  datatype System = System(batchSize: nat, shared: Shared, threads: seq<Thread>, pending: Pending, history: History)

  const MASTER: nat := 0

  // ---------- Steps ----------

  datatype Step =
    | Add(checks: seq<Check>)
    | Notify(worker: Option<nat>)
    | Complete
    | Wake(thread: nat)
    | Run(thread: nat)
    | Lock(thread: nat)

  predicate Failed(t: Thread) {
    t.at.Working? && 0 < t.at.pos <= |t.at.batch| && t.at.batch[t.at.pos - 1].error.Some?
  }

  /** Done with its batch: nothing to do, all executed, or stopped at an error. */
  predicate Finished(t: Thread) {
    t.at.Working? && (!t.at.doWork || t.at.pos >= |t.at.batch| || Failed(t))
  }

  predicate Enabled(s: System, step: Step) {
    s.threads != [] &&
    match step
    case Add(checks) => checks != [] && s.threads[MASTER].at.Outside? && s.pending.Nobody?
    case Notify(worker) =>
      && !s.pending.Nobody?
      && (worker.Some? ==> s.pending.One? && 0 < worker.value < |s.threads| && s.threads[worker.value].at.Waiting?)
      // With nobody waiting there is nobody to choose.
      && (worker.None? && s.pending.One? ==> forall i :: 0 < i < |s.threads| ==> !s.threads[i].at.Waiting?)
    case Complete => s.threads[MASTER].at.Outside? && s.pending.Nobody?
    case Wake(i) => i < |s.threads| && s.threads[i].at.Waiting?
    case Run(i) => i < |s.threads| && s.threads[i].at.Working? && !Finished(s.threads[i])
    case Lock(i) =>
      i < |s.threads| && (s.threads[i].at.Entering? || Finished(s.threads[i]) || (s.threads[i].at.Waiting? && s.threads[i].at.notified))
  }

  function Notified(t: Thread): Thread {
    if t.at.Waiting? then t.(at := Waiting(true)) else t
  }

  function AllNotified(ts: seq<Thread>): (r: seq<Thread>)
    ensures |r| == |ts| && forall i :: 0 <= i < |ts| ==> r[i] == if i == MASTER then ts[i] else Notified(ts[i])
  {
    if ts == [] then [] else
      var n := |ts| - 1;
      AllNotified(ts[..n]) + [if n == MASTER then ts[n] else Notified(ts[n])]
  }

  /** The start of a critical section: account for the batch that was executed, or count the thread in. */
  function CleanUp(s: System, i: nat): System
    requires i < |s.threads|
  {
    var t, q := s.threads[i], s.shared;
    match t.at
    case Outside => s
    case Waiting(_) => s.(shared := q.(nIdle := q.nIdle - 1))
    case Entering => s.(shared := q.(nTotal := q.nTotal + 1))
    case Working(batch, _, _) =>
      var swap := t.localResult.Some? && q.result.None?;
      var nTodo := q.nTodo - |batch|;
      var q1 := q.(result := if swap then t.localResult else q.result, nTodo := nTodo);
      var ts := s.threads[i := t.(localResult := if swap then q.result else t.localResult)];
      var ts1 := if nTodo == 0 && i != MASTER then ts[MASTER := Notified(ts[MASTER])] else ts;
      s.(shared := q1, threads := ts1, history := s.history.(accounted := s.history.accounted + multiset(batch)))
  }

  lemma {:induction false} QuotientBound(n: nat, d: int)
    requires d >= 1
    ensures 0 <= n / d <= n
  {
    assert n / d * d <= n;
  }

  lemma {:induction false} Fewer(a: nat, b: nat, d: int)
    requires d >= 1
    ensures a <= b ==> a * d <= b * d
  {
  }

  lemma {:induction false} QuotientIs(n: int, d: int)
    requires d >= 1
    ensures n / d * d <= n < (n / d + 1) * d
  {
  }

  /** How many checks a thread takes: as many as leave their share to all threads, but at least one, and not more than a
      batch. */
  function BatchCount(batchSize: nat, q: Shared): (nNow: nat)
    requires q.nTotal + q.nIdle >= 0 && q.queue != []
    ensures 1 <= nNow <= |q.queue|
    ensures nNow > 1 ==> nNow <= batchSize && nNow * (q.nTotal + q.nIdle + 1) <= |q.queue|
    ensures nNow < batchSize ==> (nNow + 1) * (q.nTotal + q.nIdle + 1) > |q.queue|
  {
    QuotientBound(|q.queue|, q.nTotal + q.nIdle + 1);
    QuotientIs(|q.queue|, q.nTotal + q.nIdle + 1);
    Fewer(batchSize, |q.queue| / (q.nTotal + q.nIdle + 1), q.nTotal + q.nIdle + 1);
    Max(1, Min(batchSize, |q.queue| / (q.nTotal + q.nIdle + 1)))
  }

  /** The rest of the critical section: take a batch; or, for the master without work left, return; or wait. */
  function Proceed(s: System, i: nat): System
    requires i < |s.threads| && s.shared.nTotal + s.shared.nIdle >= 0
  {
    var t, q, h := s.threads[i], s.shared, s.history;
    if q.queue != [] then
      var start := |q.queue| - BatchCount(s.batchSize, q);
      s.(shared := q.(queue := q.queue[..start]),
         threads := s.threads[i := t.(at := Working(q.queue[start..], 0, q.result.None?))])
    else if i == MASTER && q.nTodo == 0 then
      s.(shared := q.(nTotal := q.nTotal - 1, result := None),
         threads := s.threads[i := t.(at := Outside)],
         history := History(multiset{}, multiset{}, multiset{}, h.outcomes + [Outcome(q.result, h.added, h.ran)]))
    else
      s.(shared := q.(nIdle := q.nIdle + 1), threads := s.threads[i := t.(at := Waiting(false))])
  }

  /** The step makes no counter negative. */
  predicate NoUnderflow(s: System, step: Step)
    requires Enabled(s, step)
  {
    s.shared.nTotal >= 0 && s.shared.nIdle >= 0 && (step.Lock? && s.threads[step.thread].at.Waiting? ==> s.shared.nIdle > 0)
  }

  /** What a step does. */
  function After(s: System, step: Step): System
    requires Enabled(s, step) && NoUnderflow(s, step)
  {
    var q, h := s.shared, s.history;
    match step
    case Add(checks) =>
      s.(shared := q.(queue := q.queue + checks, nTodo := q.nTodo + |checks|),
         pending := if |checks| == 1 then One else All, history := h.(added := h.added + multiset(checks)))
    case Notify(worker) =>
      s.(pending := Nobody,
         threads := if s.pending.All? then AllNotified(s.threads)
                    else if worker.Some? then s.threads[worker.value := Notified(s.threads[worker.value])] else s.threads)
    case Complete => s.(threads := s.threads[MASTER := Thread(Entering, None)])
    case Wake(i) => s.(threads := s.threads[i := Notified(s.threads[i])])
    case Run(i) =>
      var t := s.threads[i];
      var check := t.at.batch[t.at.pos];
      s.(threads := s.threads[i := Thread(t.at.(pos := t.at.pos + 1), check.error)], history := h.(ran := h.ran + multiset{check}))
    case Lock(i) => Proceed(CleanUp(s, i), i)
  }

  // ---------- Sums over threads ----------

  function Held(t: Thread): seq<Check> {
    if t.at.Working? then t.at.batch else []
  }

  function Executed(t: Thread): seq<Check> {
    if t.at.Working? && t.at.pos <= |t.at.batch| then t.at.batch[..t.at.pos] else []
  }

  ghost function AllHeld(ts: seq<Thread>): multiset<Check> {
    if ts == [] then multiset{} else AllHeld(ts[..|ts| - 1]) + multiset(Held(ts[|ts| - 1]))
  }

  ghost function AllExecuted(ts: seq<Thread>): multiset<Check> {
    if ts == [] then multiset{} else AllExecuted(ts[..|ts| - 1]) + multiset(Executed(ts[|ts| - 1]))
  }

  ghost function Count(ts: seq<Thread>, waiting: bool): nat {
    if ts == [] then 0 else
      var t := ts[|ts| - 1];
      Count(ts[..|ts| - 1], waiting) + if t.at.Waiting? || (!waiting && t.at.Working?) then 1 else 0
  }

  lemma {:induction false} Regroup(a: multiset<Check>, b: multiset<Check>, c: multiset<Check>, d: multiset<Check>, e: multiset<Check>)
    requires a + b == c + d
    ensures (a + e) + b == (c + e) + d
  {
    assert (a + e) + b == (a + b) + e && (c + e) + d == (c + d) + e;
  }

  lemma {:induction false} HeldUpdate(ts: seq<Thread>, i: nat, t: Thread)
    requires i < |ts|
    ensures AllHeld(ts[i := t]) + multiset(Held(ts[i])) == AllHeld(ts) + multiset(Held(t))
    decreases |ts|
  {
    var n := |ts| - 1;
    var us := ts[i := t];
    if i == n {
      assert us[..n] == ts[..n];
      Regroup(multiset(Held(t)), multiset(Held(ts[i])), multiset(Held(ts[i])), multiset(Held(t)), AllHeld(ts[..n]));
    } else {
      HeldUpdate(ts[..n], i, t);
      assert us[..n] == ts[..n][i := t];
      Regroup(AllHeld(us[..n]), multiset(Held(ts[i])), AllHeld(ts[..n]), multiset(Held(t)), multiset(Held(ts[n])));
    }
  }

  lemma {:induction false} ExecutedUpdate(ts: seq<Thread>, i: nat, t: Thread)
    requires i < |ts|
    ensures AllExecuted(ts[i := t]) + multiset(Executed(ts[i])) == AllExecuted(ts) + multiset(Executed(t))
    decreases |ts|
  {
    var n := |ts| - 1;
    var us := ts[i := t];
    if i == n {
      assert us[..n] == ts[..n];
      Regroup(multiset(Executed(t)), multiset(Executed(ts[i])), multiset(Executed(ts[i])), multiset(Executed(t)), AllExecuted(ts[..n]));
    } else {
      ExecutedUpdate(ts[..n], i, t);
      assert us[..n] == ts[..n][i := t];
      Regroup(AllExecuted(us[..n]), multiset(Executed(ts[i])), AllExecuted(ts[..n]), multiset(Executed(t)), multiset(Executed(ts[n])));
    }
  }

  lemma {:induction false} CountUpdate(ts: seq<Thread>, i: nat, t: Thread, waiting: bool)
    requires i < |ts|
    ensures Count(ts[i := t], waiting) + (if ts[i].at.Waiting? || (!waiting && ts[i].at.Working?) then 1 else 0) ==
            Count(ts, waiting) + (if t.at.Waiting? || (!waiting && t.at.Working?) then 1 else 0)
    decreases |ts|
  {
    var n := |ts| - 1;
    var us := ts[i := t];
    if i == n {
      assert us[..n] == ts[..n];
    } else {
      CountUpdate(ts[..n], i, t, waiting);
      assert us[..n] == ts[..n][i := t];
    }
  }

  lemma {:induction false} SumsSame(ts: seq<Thread>, us: seq<Thread>)
    requires |us| == |ts| && forall i :: 0 <= i < |ts| ==> us[i] == ts[i] || us[i] == Notified(ts[i])
    ensures AllHeld(us) == AllHeld(ts) && AllExecuted(us) == AllExecuted(ts)
    ensures Count(us, true) == Count(ts, true) && Count(us, false) == Count(ts, false)
    decreases |ts|
  {
    if ts != [] {
      SumsSame(ts[..|ts| - 1], us[..|ts| - 1]);
    }
  }

  lemma {:induction false} HeldPart(ts: seq<Thread>, i: nat)
    requires i < |ts|
    ensures multiset(Held(ts[i])) <= AllHeld(ts) && |Held(ts[i])| <= |AllHeld(ts)|
    decreases |ts|
  {
    var n := |ts| - 1;
    if i < n {
      HeldPart(ts[..n], i);
      assert ts[..n][i] == ts[i];
    }
  }

  // ---------- The invariant ----------

  /** What holds of a thread: its batch, and that a result which may be merged comes from its batch. */
  ghost predicate ThreadOk(q: Shared, ran: multiset<Check>, t: Thread) {
    t.at.Working? ==>
      && t.at.batch != [] && t.at.pos <= |t.at.batch|
      && (if t.at.doWork then t.at.pos > 0 ==> t.localResult == t.at.batch[t.at.pos - 1].error
          else t.at.pos == 0 && q.result.Some?)
      && (forall k :: 0 <= k < t.at.pos - 1 ==> t.at.batch[k].error.None?)
      && (Failed(t) ==> t.at.batch[t.at.pos - 1] in ran)
  }

  ghost predicate ThreadsOk(s: System) {
    forall i {:trigger ThreadOk(s.shared, s.history.ran, s.threads[i])} ::
      0 <= i < |s.threads| ==> ThreadOk(s.shared, s.history.ran, s.threads[i])
  }

  /** Every added check is queued, held by a thread, or accounted for, and `nTodo` counts the first two. */
  ghost predicate Conserved(s: System) {
    && s.history.added == multiset(s.shared.queue) + AllHeld(s.threads) + s.history.accounted
    && s.shared.nTodo == |s.shared.queue| + |AllHeld(s.threads)|
  }

  ghost predicate AllPass(cs: multiset<Check>) {
    forall c :: c in cs ==> c.error.None?
  }

  ghost predicate SomeFails(cs: multiset<Check>, e: Error) {
    exists c :: c in cs && c.error == Some(e)
  }

  /** No result: what was accounted for was run, and passed. A result: it is that of a check that was run
      in this session. */
  ghost predicate ResultOk(s: System) {
    match s.shared.result
    case None => AllPass(s.history.accounted) && s.history.ran == s.history.accounted + AllExecuted(s.threads)
    case Some(e) => SomeFails(s.history.ran, e)
  }

  ghost predicate CountsOk(s: System) {
    s.shared.nIdle == Count(s.threads, true) && s.shared.nTotal == Count(s.threads, false)
  }

  /** A master that waits has nothing queued, and is notified unless some check is still to be done. */
  ghost predicate MasterOk(s: System) {
    && s.threads != []
    && (s.threads[MASTER].at.Waiting? ==> s.shared.queue == [] && (s.threads[MASTER].at.notified || s.shared.nTodo > 0))
    && (s.threads[MASTER].at.Outside? || s.pending.Nobody?)
    && (forall i :: 0 < i < |s.threads| ==> !s.threads[i].at.Outside?)
  }

  /** What `Complete` promises: nothing returned if and only if every check that was run passed, and then
      all checks of the session were run; otherwise an error of a check run in the session. */
  ghost predicate OutcomeOk(o: Outcome) {
    && (o.returned.None? <==> AllPass(o.ran))
    && (o.returned.None? ==> o.ran == o.added)
    && (o.returned.Some? ==> SomeFails(o.ran, o.returned.value))
  }

  ghost predicate OutcomesOk(s: System) {
    forall k :: 0 <= k < |s.history.outcomes| ==> OutcomeOk(s.history.outcomes[k])
  }

  ghost predicate Inv(s: System) {
    ThreadsOk(s) && Conserved(s) && ResultOk(s) && CountsOk(s) && MasterOk(s) && OutcomesOk(s)
  }
}
