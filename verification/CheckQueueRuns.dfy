/** Every step of the check queue keeps its invariant, so it holds in every interleaving. */
module CheckQueueRuns {
  import opened Basics
  import opened CheckQueues

  lemma {:induction false} Cancel(a: multiset<Check>, b: multiset<Check>, x: multiset<Check>)
    requires a + x == b + x
    ensures a == b
  {
    forall c ensures a[c] == b[c] {
      assert (a + x)[c] == a[c] + x[c] && (b + x)[c] == b[c] + x[c];
    }
  }

  lemma {:induction false} KeepAdd(s: System, checks: seq<Check>)
    requires Inv(s) && Enabled(s, Add(checks))
    ensures Inv(After(s, Add(checks)))
  {
    var r := After(s, Add(checks));
    assert multiset(s.shared.queue + checks) == multiset(s.shared.queue) + multiset(checks);
    forall i | 0 <= i < |r.threads| ensures ThreadOk(r.shared, r.history.ran, r.threads[i]) {
      assert ThreadOk(s.shared, s.history.ran, s.threads[i]);
    }
  }

  /** Notified threads are as before in everything else. */
  lemma {:induction false} KeepThreads(s: System, us: seq<Thread>, pending: Pending)
    requires Inv(s) && |us| == |s.threads| && (s.threads[MASTER].at.Outside? || pending.Nobody?)
    requires forall i :: 0 <= i < |us| ==> us[i] == s.threads[i] || us[i] == Notified(s.threads[i])
    ensures Inv(s.(threads := us, pending := pending))
  {
    var r := s.(threads := us, pending := pending);
    SumsSame(s.threads, us);
    forall i | 0 <= i < |us| ensures ThreadOk(r.shared, r.history.ran, us[i]) {
      assert ThreadOk(s.shared, s.history.ran, s.threads[i]);
    }
  }

  lemma {:induction false} KeepNotify(s: System, worker: Option<nat>)
    requires Inv(s) && Enabled(s, Notify(worker))
    ensures Inv(After(s, Notify(worker)))
  {
    KeepThreads(s, After(s, Notify(worker)).threads, Nobody);
  }

  lemma {:induction false} KeepWake(s: System, i: nat)
    requires Inv(s) && Enabled(s, Wake(i))
    ensures Inv(After(s, Wake(i)))
  {
    KeepThreads(s, After(s, Wake(i)).threads, s.pending);
  }

  lemma {:induction false} KeepComplete(s: System)
    requires Inv(s) && Enabled(s, Complete)
    ensures Inv(After(s, Complete))
  {
    var t := Thread(Entering, None);
    var r := After(s, Complete);
    ReplaceThread(s, MASTER, t);
    forall i | 0 <= i < |r.threads| ensures ThreadOk(r.shared, r.history.ran, r.threads[i]) {
      assert ThreadOk(s.shared, s.history.ran, s.threads[i]);
    }
  }

  /** What depends on sums only. */
  lemma {:induction false} SumsKeep(s: System, r: System)
    requires Conserved(s) && ResultOk(s) && AllHeld(r.threads) == AllHeld(s.threads) && AllExecuted(r.threads) == AllExecuted(s.threads)
    requires r.shared.queue == s.shared.queue && r.shared.nTodo == s.shared.nTodo && r.shared.result == s.shared.result && r.history == s.history
    ensures Conserved(r) && ResultOk(r)
  {
  }

  /** The sums when a thread without a batch is replaced by another one without a batch. */
  lemma {:induction false} ReplaceThread(s: System, i: nat, t: Thread)
    requires i < |s.threads| && !s.threads[i].at.Working? && !t.at.Working?
    ensures AllHeld(s.threads[i := t]) == AllHeld(s.threads) && AllExecuted(s.threads[i := t]) == AllExecuted(s.threads)
    ensures Count(s.threads[i := t], true) == Count(s.threads, true) + (if t.at.Waiting? then 1 else 0) - (if s.threads[i].at.Waiting? then 1 else 0)
    ensures Count(s.threads[i := t], false) == Count(s.threads, false) + (if t.at.Waiting? then 1 else 0) - (if s.threads[i].at.Waiting? then 1 else 0)
  {
    HeldUpdate(s.threads, i, t);
    Cancel(AllHeld(s.threads[i := t]), AllHeld(s.threads), multiset([]));
    ExecutedUpdate(s.threads, i, t);
    Cancel(AllExecuted(s.threads[i := t]), AllExecuted(s.threads), multiset([]));
    CountUpdate(s.threads, i, t, true);
    CountUpdate(s.threads, i, t, false);
  }

  lemma {:induction false} KeepRun(s: System, i: nat)
    requires Inv(s) && Enabled(s, Run(i))
    ensures Inv(After(s, Run(i)))
  {
    var r := After(s, Run(i));
    assert ThreadOk(s.shared, s.history.ran, s.threads[i]);
    assert r.threads == s.threads[i := r.threads[i]];
    RunSums(s, i, r.threads[i]);
    RanOne(s, r, s.threads[i], r.threads[i], s.threads[i].at.batch[s.threads[i].at.pos]);
    RunThreads(s, i);
  }

  lemma {:induction false} RunSums(s: System, i: nat, u: Thread)
    requires i < |s.threads| && s.threads[i].at.Working? && s.threads[i].at.pos < |s.threads[i].at.batch|
    requires u.at == s.threads[i].at.(pos := s.threads[i].at.pos + 1)
    ensures AllHeld(s.threads[i := u]) == AllHeld(s.threads)
    ensures Count(s.threads[i := u], true) == Count(s.threads, true) && Count(s.threads[i := u], false) == Count(s.threads, false)
    ensures AllExecuted(s.threads[i := u]) + multiset(Executed(s.threads[i])) == AllExecuted(s.threads) + multiset(Executed(u))
    ensures Executed(u) == Executed(s.threads[i]) + [s.threads[i].at.batch[s.threads[i].at.pos]]
  {
    RanNext(s.threads[i].at.batch, s.threads[i].at.pos);
    RunHeld(s.threads, i, u);
    CountUpdate(s.threads, i, u, true);
    CountUpdate(s.threads, i, u, false);
    ExecutedUpdate(s.threads, i, u);
  }

  lemma {:induction false} RanNext(batch: seq<Check>, pos: nat)
    requires pos < |batch|
    ensures batch[..pos + 1] == batch[..pos] + [batch[pos]]
  {
  }

  lemma {:induction false} RunHeld(ts: seq<Thread>, i: nat, u: Thread)
    requires i < |ts| && Held(u) == Held(ts[i])
    ensures AllHeld(ts[i := u]) == AllHeld(ts)
  {
    HeldUpdate(ts, i, u);
    Cancel(AllHeld(ts[i := u]), AllHeld(ts), multiset(Held(u)));
  }

  lemma {:induction false} RunThreads(s: System, i: nat)
    requires ThreadsOk(s) && Enabled(s, Run(i)) && NoUnderflow(s, Run(i))
    ensures ThreadsOk(After(s, Run(i)))
  {
    var r := After(s, Run(i));
    forall k | 0 <= k < |r.threads| ensures ThreadOk(r.shared, r.history.ran, r.threads[k]) {
      assert ThreadOk(s.shared, s.history.ran, s.threads[k]);
    }
  }

  lemma {:induction false} RanOne(s: System, r: System, t: Thread, u: Thread, check: Check)
    requires ResultOk(s) && r.shared == s.shared && r.history == s.history.(ran := s.history.ran + multiset{check})
    requires AllExecuted(r.threads) + multiset(Executed(t)) == AllExecuted(s.threads) + multiset(Executed(u))
    requires Executed(u) == Executed(t) + [check]
    ensures ResultOk(r)
  {
    var x := multiset(Executed(t));
    assert multiset(Executed(u)) == x + multiset{check};
    assert AllExecuted(s.threads) + (x + multiset{check}) == (AllExecuted(s.threads) + multiset{check}) + x;
    Cancel(AllExecuted(r.threads), AllExecuted(s.threads) + multiset{check}, x);
    match s.shared.result {
      case None =>
        assert s.history.accounted + AllExecuted(s.threads) + multiset{check} == s.history.accounted + (AllExecuted(s.threads) + multiset{check});
      case Some(e) =>
        var c :| c in s.history.ran && c.error == Some(e);
        assert c in r.history.ran;
    }
  }

  // ---------- Critical sections ----------

  /** Thread `i` holding the lock, with its batch accounted for. */
  function Neutral(s: System, i: nat): System
    requires i < |s.threads|
  {
    s.(threads := s.threads[i := s.threads[i].(at := Entering)])
  }

  ghost predicate MidInv(s: System, i: nat) {
    && i < |s.threads| && s.threads[i].at.Entering?
    && ThreadsOk(s) && Conserved(s) && ResultOk(s) && OutcomesOk(s)
    && s.shared.nIdle == Count(s.threads, true) && s.shared.nTotal == Count(s.threads, false) + 1
    && MasterOk(s)
  }

  lemma {:induction false} CleanWaiting(s: System, i: nat)
    requires Inv(s) && i < |s.threads| && (s.threads[i].at.Waiting? || s.threads[i].at.Entering?)
    ensures MidInv(Neutral(CleanUp(s, i), i), i)
  {
    var r := Neutral(CleanUp(s, i), i);
    assert r.threads == s.threads[i := s.threads[i].(at := Entering)];
    ReplaceThread(s, i, s.threads[i].(at := Entering));
    SumsKeep(s, r);
    TakenThreads(s, i, r);
  }

  /** A finished thread: a result to merge is that of a check of its batch; otherwise all its checks
      passed, or a result is there already. */
  lemma {:induction false} FinishedBatch(q: Shared, ran: multiset<Check>, t: Thread)
    requires ThreadOk(q, ran, t) && Finished(t) && q.result.None?
    ensures t.localResult.Some? ==> SomeFails(ran, t.localResult.value)
    ensures t.localResult.None? ==> AllPass(multiset(t.at.batch)) && Executed(t) == t.at.batch
  {
    if t.localResult.Some? {
      assert Failed(t);
    } else {
      assert t.at.pos == |t.at.batch|;
      assert t.at.batch[..t.at.pos] == t.at.batch;
    }
  }

  /** The threads after thread `i` gave up its batch. */
  function Released(s: System, i: nat): seq<Thread>
    requires i < |s.threads|
  {
    s.threads[i := s.threads[i].(at := Entering)]
  }

  lemma {:induction false} ReleasedSums(s: System, i: nat, us: seq<Thread>)
    requires i < |s.threads| == |us| && s.threads[i].at.Working?
    requires us[i].at.Entering? && forall k :: 0 <= k < |us| && k != i ==> us[k] == s.threads[k] || us[k] == Notified(s.threads[k])
    ensures AllHeld(us) + multiset(s.threads[i].at.batch) == AllHeld(s.threads)
    ensures AllExecuted(us) + multiset(Executed(s.threads[i])) == AllExecuted(s.threads)
    ensures Count(us, true) == Count(s.threads, true) && Count(us, false) == Count(s.threads, false) - 1
  {
    var vs := Released(s, i);
    HeldUpdate(s.threads, i, vs[i]);
    ExecutedUpdate(s.threads, i, vs[i]);
    CountUpdate(s.threads, i, vs[i], true);
    CountUpdate(s.threads, i, vs[i], false);
    assert AllHeld(s.threads) + multiset([]) == AllHeld(s.threads);
    assert AllExecuted(s.threads) + multiset([]) == AllExecuted(s.threads);
    var ws := us[i := vs[i]];
    SumsSame(vs, ws);
    HeldUpdate(us, i, vs[i]);
    Cancel(AllHeld(ws), AllHeld(us), multiset([]));
    ExecutedUpdate(us, i, vs[i]);
    Cancel(AllExecuted(ws), AllExecuted(us), multiset([]));
    CountUpdate(us, i, vs[i], true);
    CountUpdate(us, i, vs[i], false);
  }

  lemma {:induction false} CleanWorking(s: System, i: nat)
    requires Inv(s) && i < |s.threads| && Finished(s.threads[i])
    ensures MidInv(Neutral(CleanUp(s, i), i), i)
  {
    var r := Neutral(CleanUp(s, i), i);
    var t := s.threads[i];
    assert ThreadOk(s.shared, s.history.ran, t);
    ReleasedSums(s, i, r.threads);
    CleanResult(s, i, r);
    CleanConserved(s, r, t.at.batch);
    HeldPart(s.threads, i);
    CleanThreads(s, i);
    CleanMaster(s, i);
  }

  lemma {:induction false} CleanThreads(s: System, i: nat)
    requires ThreadsOk(s) && i < |s.threads| && s.threads[i].at.Working?
    ensures ThreadsOk(Neutral(CleanUp(s, i), i))
  {
    var r := Neutral(CleanUp(s, i), i);
    forall k | 0 <= k < |r.threads| ensures ThreadOk(r.shared, r.history.ran, r.threads[k]) {
      assert ThreadOk(s.shared, s.history.ran, s.threads[k]);
    }
  }

  lemma {:induction false} CleanMaster(s: System, i: nat)
    requires MasterOk(s) && i < |s.threads| && s.threads[i].at.Working? && s.shared.nTodo >= |s.threads[i].at.batch|
    ensures MasterOk(Neutral(CleanUp(s, i), i))
  {
  }

  lemma {:induction false} CleanConserved(s: System, r: System, batch: seq<Check>)
    requires Conserved(s) && r.shared.queue == s.shared.queue && r.shared.nTodo == s.shared.nTodo - |batch|
    requires r.history == s.history.(accounted := s.history.accounted + multiset(batch))
    requires AllHeld(r.threads) + multiset(batch) == AllHeld(s.threads)
    ensures Conserved(r)
  {
    var q, h, a, b := multiset(s.shared.queue), AllHeld(r.threads), s.history.accounted, multiset(batch);
    assert q + (h + b) + a == q + h + (a + b);
  }

  lemma {:induction false} CleanResult(s: System, i: nat, r: System)
    requires ResultOk(s) && i < |s.threads| && ThreadOk(s.shared, s.history.ran, s.threads[i]) && Finished(s.threads[i])
    requires r.shared.result == (if s.threads[i].localResult.Some? && s.shared.result.None? then s.threads[i].localResult else s.shared.result)
    requires r.history == s.history.(accounted := s.history.accounted + multiset(s.threads[i].at.batch))
    requires AllExecuted(r.threads) + multiset(Executed(s.threads[i])) == AllExecuted(s.threads)
    ensures ResultOk(r)
  {
    if s.shared.result.None? {
      FinishedBatch(s.shared, s.history.ran, s.threads[i]);
      if s.threads[i].localResult.None? {
        var e, a, b := AllExecuted(r.threads), s.history.accounted, multiset(s.threads[i].at.batch);
        assert a + (e + b) == (a + b) + e;
      }
    }
  }

  lemma {:induction false} ExecutedWithin(ts: seq<Thread>)
    ensures AllExecuted(ts) <= AllHeld(ts)
    decreases |ts|
  {
    if ts != [] {
      var t := ts[|ts| - 1];
      ExecutedWithin(ts[..|ts| - 1]);
      if t.at.Working? && t.at.pos <= |t.at.batch| {
        assert t.at.batch == t.at.batch[..t.at.pos] + t.at.batch[t.at.pos..];
        assert multiset(t.at.batch) == multiset(t.at.batch[..t.at.pos]) + multiset(t.at.batch[t.at.pos..]);
      }
    }
  }

  lemma {:induction false} TakeBatch(m: System, i: nat)
    requires MidInv(m, i) && m.shared.queue != []
    ensures Inv(Proceed(m, i))
  {
    var r, q := Proceed(m, i), m.shared.queue;
    var start := |q| - BatchCount(m.batchSize, m.shared);
    assert r.threads == m.threads[i := r.threads[i]];
    TakenSums(m.threads, i, r.threads[i]);
    TakenConserved(m, r, q[..start], q[start..]);
    TakenThreads(m, i, r);
  }

  lemma {:induction false} TakenSums(ts: seq<Thread>, i: nat, u: Thread)
    requires i < |ts| && ts[i].at.Entering? && u.at.Working? && u.at.pos == 0
    ensures AllHeld(ts[i := u]) == AllHeld(ts) + multiset(u.at.batch) && AllExecuted(ts[i := u]) == AllExecuted(ts)
    ensures Count(ts[i := u], true) == Count(ts, true) && Count(ts[i := u], false) == Count(ts, false) + 1
  {
    HeldUpdate(ts, i, u);
    assert AllHeld(ts[i := u]) + multiset([]) == AllHeld(ts[i := u]);
    ExecutedUpdate(ts, i, u);
    assert Executed(u) == [];
    Cancel(AllExecuted(ts[i := u]), AllExecuted(ts), multiset([]));
    CountUpdate(ts, i, u, true);
    CountUpdate(ts, i, u, false);
  }

  lemma {:induction false} TakenThreads(m: System, i: nat, r: System)
    requires ThreadsOk(m) && i < |m.threads| == |r.threads| && r.threads == m.threads[i := r.threads[i]]
    requires r.shared.result == m.shared.result && r.history == m.history && ThreadOk(r.shared, r.history.ran, r.threads[i])
    ensures ThreadsOk(r)
  {
    forall k | 0 <= k < |r.threads| ensures ThreadOk(r.shared, r.history.ran, r.threads[k]) {
      assert ThreadOk(m.shared, m.history.ran, m.threads[k]);
    }
  }

  lemma {:induction false} TakenConserved(m: System, r: System, left: seq<Check>, batch: seq<Check>)
    requires Conserved(m) && r.history == m.history && r.shared == m.shared.(queue := left)
    requires m.shared.queue == left + batch && AllHeld(r.threads) == AllHeld(m.threads) + multiset(batch)
    ensures Conserved(r)
  {
    var l, b, h, a := multiset(left), multiset(batch), AllHeld(m.threads), m.history.accounted;
    assert multiset(left + batch) == l + b;
    assert (l + b) + h + a == l + (h + b) + a;
  }

  lemma {:induction false} GoWaiting(m: System, i: nat)
    requires MidInv(m, i) && m.shared.queue == [] && !(i == MASTER && m.shared.nTodo == 0)
    ensures Inv(Proceed(m, i))
  {
    var r := Proceed(m, i);
    var u := m.threads[i].(at := Waiting(false));
    assert r.threads == m.threads[i := u];
    ReplaceThread(m, i, u);
    SumsKeep(m, r);
    TakenThreads(m, i, r);
  }

  lemma {:induction false} NothingLeft(m: System)
    requires ThreadsOk(m) && Conserved(m) && m.shared.nTodo == 0
    ensures m.shared.queue == [] && AllHeld(m.threads) == multiset{} && AllExecuted(m.threads) == multiset{}
    ensures m.history.added == m.history.accounted
    ensures forall k :: 0 <= k < |m.threads| ==> !m.threads[k].at.Working?
  {
    assert AllHeld(m.threads) == multiset{};
    ExecutedWithin(m.threads);
    forall k | 0 <= k < |m.threads| ensures !m.threads[k].at.Working? {
      assert ThreadOk(m.shared, m.history.ran, m.threads[k]);
      HeldPart(m.threads, k);
    }
  }

  /** The master returns: the outcome is as promised, and nothing of the session is left. */
  lemma {:induction false} MasterReturns(m: System)
    requires MidInv(m, MASTER) && m.shared.queue == [] && m.shared.nTodo == 0
    ensures Inv(Proceed(m, MASTER))
  {
    var r := Proceed(m, MASTER);
    var u := m.threads[MASTER].(at := Outside);
    assert r.threads == m.threads[MASTER := u];
    NothingLeft(m);
    ReplaceThread(m, MASTER, u);
    var o := Outcome(m.shared.result, m.history.added, m.history.ran);
    assert OutcomeOk(o);
    assert r.history.outcomes == m.history.outcomes + [o];
    forall k | 0 <= k < |r.threads| ensures ThreadOk(r.shared, r.history.ran, r.threads[k]) {}
  }

  lemma {:induction false} CleanKeeps(s: System, i: nat)
    requires Inv(s) && Enabled(s, Lock(i))
    ensures MidInv(Neutral(CleanUp(s, i), i), i)
    ensures s.threads[i].at.Waiting? ==> s.shared.nIdle > 0
  {
    if Finished(s.threads[i]) {
      CleanWorking(s, i);
    } else {
      CleanWaiting(s, i);
      CountUpdate(s.threads, i, s.threads[i].(at := Entering), true);
    }
  }

  lemma {:induction false} ProceedKeeps(m: System, i: nat)
    requires MidInv(m, i)
    ensures Inv(Proceed(m, i))
  {
    if m.shared.queue != [] {
      TakeBatch(m, i);
    } else if i == MASTER && m.shared.nTodo == 0 {
      MasterReturns(m);
    } else {
      GoWaiting(m, i);
    }
  }

  lemma {:induction false} KeepLock(s: System, i: nat)
    requires Inv(s) && Enabled(s, Lock(i))
    ensures s.threads[i].at.Waiting? ==> s.shared.nIdle > 0
    ensures Inv(After(s, Lock(i)))
  {
    CleanKeeps(s, i);
    ProceedKeeps(Neutral(CleanUp(s, i), i), i);
    SameProceed(CleanUp(s, i), i);
  }

  lemma {:induction false} SameProceed(s: System, i: nat)
    requires i < |s.threads| && s.shared.nTotal + s.shared.nIdle >= 0
    ensures Proceed(Neutral(s, i), i) == Proceed(s, i)
  {
    var t := s.threads[i];
    forall a: Where ensures Neutral(s, i).threads[i := Neutral(s, i).threads[i].(at := a)] == s.threads[i := t.(at := a)] {}
  }

  // ---------- Runs ----------

  /** Nothing queued, the master outside, the workers about to start. */
  ghost predicate Initial(s: System) {
    && s.shared == Shared([], 0, 0, None, 0) && s.threads != [] && s.threads[MASTER].at.Outside? && s.pending.Nobody?
    && (forall i :: 0 < i < |s.threads| ==> s.threads[i].at.Entering?)
    && s.history == History(multiset{}, multiset{}, multiset{}, [])
  }

  lemma {:induction false} IdleSums(ts: seq<Thread>)
    requires forall i :: 0 <= i < |ts| ==> ts[i].at.Outside? || ts[i].at.Entering?
    ensures AllHeld(ts) == multiset{} && AllExecuted(ts) == multiset{} && Count(ts, true) == Count(ts, false) == 0
    decreases |ts|
  {
    if ts != [] {
      IdleSums(ts[..|ts| - 1]);
    }
  }

  lemma {:induction false} InitialInv(s: System)
    requires Initial(s)
    ensures Inv(s)
  {
    IdleSums(s.threads);
    forall i | 0 <= i < |s.threads| ensures ThreadOk(s.shared, s.history.ran, s.threads[i]) {}
  }

  /** Every step that can be taken keeps the invariant. */
  lemma {:induction false} StepKeepsInv(s: System, step: Step)
    requires Inv(s) && Enabled(s, step)
    ensures NoUnderflow(s, step) && Inv(After(s, step))
  {
    match step {
      case Add(checks) => KeepAdd(s, checks);
      case Notify(worker) => KeepNotify(s, worker);
      case Complete => KeepComplete(s);
      case Wake(i) => KeepWake(s, i);
      case Run(i) => KeepRun(s, i);
      case Lock(i) => KeepLock(s, i);
    }
  }

  ghost predicate IsStep(s: System, r: System) {
    exists step :: Enabled(s, step) && NoUnderflow(s, step) && r == After(s, step)
  }

  /** Any steps of any threads, in any order. */
  ghost predicate IsRun(run: seq<System>) {
    run != [] && Initial(run[0]) && forall k {:trigger StepAt(run, k)} :: 0 <= k < |run| - 1 ==> StepAt(run, k)
  }

  ghost predicate StepAt(run: seq<System>, k: nat)
    requires k < |run| - 1
  {
    IsStep(run[k], run[k + 1])
  }

  /** In every interleaving the invariant always holds. */
  lemma {:induction false} RunsKeepInv(run: seq<System>, k: nat)
    requires IsRun(run) && k < |run|
    ensures Inv(run[k])
  {
    if k == 0 {
      InitialInv(run[0]);
    } else {
      RunsKeepInv(run, k - 1);
      assert StepAt(run, k - 1);
      KeepsInv(run[k - 1], run[k]);
    }
  }

  lemma {:induction false} KeepsInv(s: System, r: System)
    requires Inv(s) && IsStep(s, r)
    ensures Inv(r)
  {
    var step :| Enabled(s, step) && NoUnderflow(s, step) && r == After(s, step);
    StepKeepsInv(s, step);
  }

  /** Whenever `Complete` returned in a run, it returned nothing if and only if all checks of its session
      that were run passed, and then all were run; otherwise it returned an error of one of them. */
  lemma {:induction false} CompleteIsRight(run: seq<System>, k: nat, o: Outcome)
    requires IsRun(run) && k < |run| && o in run[k].history.outcomes
    ensures o.returned.None? <==> AllPass(o.ran)
    ensures o.returned.None? ==> o.ran == o.added && AllPass(o.added)
    ensures o.returned.Some? ==> SomeFails(o.ran, o.returned.value)
  {
    RunsKeepInv(run, k);
    assert OutcomeOk(o);
  }

  /** In a run, the master never waits with nothing left to be done, unless it was notified. */
  lemma {:induction false} NoLostWakeup(run: seq<System>, k: nat)
    requires IsRun(run) && k < |run| && run[k].threads != [] && run[k].threads[MASTER].at == Waiting(false)
    ensures run[k].shared.nTodo > 0 && exists i :: 0 < i < |run[k].threads| && run[k].threads[i].at.Working?
  {
    RunsKeepInv(run, k);
    var i := SomeHolder(run[k].threads);
  }

  // ---------- Progress ----------

  /** Some thread holds a batch if some check is to be done and nothing is queued. */
  lemma {:induction false} SomeHolder(ts: seq<Thread>) returns (i: nat)
    requires |AllHeld(ts)| > 0
    ensures i < |ts| && ts[i].at.Working?
    decreases |ts|
  {
    var n := |ts| - 1;
    if ts[n].at.Working? {
      i := n;
    } else {
      assert AllHeld(ts) == AllHeld(ts[..n]) + multiset(Held(ts[n]));
      i := SomeHolder(ts[..n]);
    }
  }

  /** While the master is in `Complete`, some thread can go on without a spurious wake-up. */
  lemma {:induction false} NeverStuck(s: System) returns (step: Step)
    requires Inv(s) && !s.threads[MASTER].at.Outside?
    ensures Enabled(s, step) && (step.Run? || step.Lock?)
  {
    var at := s.threads[MASTER].at;
    var i := MASTER;
    if at.Waiting? && !at.notified {
      i := SomeHolder(s.threads);
    }
    step := if s.threads[i].at.Working? && !Finished(s.threads[i]) then Run(i) else Lock(i);
  }

  function Weight(t: Thread): nat {
    match t.at
    case Outside => 0
    case Entering => 1
    case Waiting(notified) => if notified then 1 else 0
    case Working(batch, pos, _) => 3 + if pos <= |batch| then |batch| - pos else 0
  }

  ghost function Weights(ts: seq<Thread>): nat {
    if ts == [] then 0 else Weights(ts[..|ts| - 1]) + Weight(ts[|ts| - 1])
  }

  lemma {:induction false} WeightsUpdate(ts: seq<Thread>, i: nat, t: Thread)
    requires i < |ts|
    ensures Weights(ts[i := t]) + Weight(ts[i]) == Weights(ts) + Weight(t)
    decreases |ts|
  {
    var n := |ts| - 1;
    var us := ts[i := t];
    if i == n {
      assert us[..n] == ts[..n];
    } else {
      WeightsUpdate(ts[..n], i, t);
      assert us[..n] == ts[..n][i := t];
    }
  }

  /** The work that is left. */
  ghost function Measure(s: System): nat {
    5 * |s.shared.queue| + Weights(s.threads)
  }

  lemma {:induction false} CleanMeasure(s: System, i: nat)
    requires i < |s.threads| && Enabled(s, Lock(i)) && s.shared.nTodo >= |Held(s.threads[i])| && (s.threads[i].at.Working? ==> s.threads[i].at.pos <= |s.threads[i].at.batch|)
    ensures Weights(Neutral(CleanUp(s, i), i).threads) <= Weights(s.threads)
    ensures s.threads[i].at.Working? ==> Weights(Neutral(CleanUp(s, i), i).threads) < Weights(s.threads)
    ensures CleanUp(s, i).shared.queue == s.shared.queue
  {
    var c := CleanUp(s, i);
    var t := c.threads[i];
    if s.threads[i].at.Working? {
      var ts := s.threads[i := t];
      WeightsUpdate(s.threads, i, t);
      if c.threads != ts {
        WeightsUpdate(ts, MASTER, Notified(ts[MASTER]));
      }
    }
    WeightsUpdate(c.threads, i, t.(at := Entering));
  }

  lemma {:induction false} ProceedMeasure(m: System, i: nat)
    requires i < |m.threads| && m.threads[i].at.Entering? && m.shared.nTotal + m.shared.nIdle >= 0
    ensures Measure(Proceed(m, i)) < Measure(m)
  {
    var r := Proceed(m, i);
    assert r.threads == m.threads[i := r.threads[i]];
    WeightsUpdate(m.threads, i, r.threads[i]);
  }

  lemma {:induction false} RunMeasure(s: System, i: nat)
    requires Enabled(s, Run(i)) && NoUnderflow(s, Run(i))
    ensures Measure(After(s, Run(i))) < Measure(s)
  {
    WeightsUpdate(s.threads, i, After(s, Run(i)).threads[i]);
  }

  lemma {:induction false} CleanReady(s: System, i: nat)
    requires Inv(s) && Enabled(s, Lock(i))
    ensures s.shared.nTodo >= |Held(s.threads[i])| && (s.threads[i].at.Working? ==> s.threads[i].at.pos <= |s.threads[i].at.batch|)
    ensures var c := CleanUp(s, i); i < |c.threads| && c.shared.nTotal + c.shared.nIdle >= 0
  {
    HeldPart(s.threads, i);
    CleanKeeps(s, i);
    assert ThreadOk(s.shared, s.history.ran, s.threads[i]);
  }

  lemma {:induction false} LockMeasure(s: System, i: nat)
    requires Inv(s) && Enabled(s, Lock(i)) && NoUnderflow(s, Lock(i))
    ensures Measure(After(s, Lock(i))) < Measure(s)
  {
    CleanReady(s, i);
    CleanMeasure(s, i);
    ProceedMeasure(Neutral(CleanUp(s, i), i), i);
    SameProceed(CleanUp(s, i), i);
  }

  /** Every executed check and every critical section leaves less work. */
  lemma {:induction false} LessWork(s: System, step: Step)
    requires Inv(s) && Enabled(s, step) && (step.Run? || step.Lock?)
    ensures NoUnderflow(s, step) && Measure(After(s, step)) < Measure(s)
  {
    StepKeepsInv(s, step);
    if step.Run? {
      RunMeasure(s, step.thread);
    } else {
      LockMeasure(s, step.thread);
    }
  }

  /** A thread executes a check, or passes through its critical section. */
  ghost predicate Works(s: System, r: System) {
    exists step :: Enabled(s, step) && (step.Run? || step.Lock?) && NoUnderflow(s, step) && r == After(s, step)
  }

  /** Any such steps of any threads, in any order, from any state. */
  ghost predicate WorkRun(run: seq<System>) {
    run != [] && forall k {:trigger WorkAt(run, k)} :: 0 <= k < |run| - 1 ==> WorkAt(run, k)
  }

  ghost predicate WorkAt(run: seq<System>, k: nat)
    requires k < |run| - 1
  {
    Works(run[k], run[k + 1])
  }

  lemma {:induction false} WorkLeft(s: System, r: System)
    requires Inv(s) && Works(s, r)
    ensures Inv(r) && Measure(r) < Measure(s)
  {
    var step :| Enabled(s, step) && (step.Run? || step.Lock?) && NoUnderflow(s, step) && r == After(s, step);
    StepKeepsInv(s, step);
    LessWork(s, step);
  }

  lemma {:induction false} WorkShorter(run: seq<System>, n: nat)
    requires WorkRun(run) && 0 < n <= |run|
    ensures WorkRun(run[..n])
  {
    forall k | 0 <= k < n - 1 ensures WorkAt(run[..n], k) {
      assert WorkAt(run, k);
    }
  }

  lemma {:induction false} WorkLonger(run: seq<System>, r: System)
    requires WorkRun(run) && Works(run[|run| - 1], r)
    ensures WorkRun(run + [r])
  {
    var next := run + [r];
    forall k | 0 <= k < |next| - 1 ensures WorkAt(next, k) {
      assert k < |run| - 1 ==> WorkAt(run, k);
    }
  }

  /** No run is longer than the work there is to do. */
  lemma {:induction false} WorkBounded(run: seq<System>)
    requires WorkRun(run) && Inv(run[0])
    ensures Inv(run[|run| - 1]) && Measure(run[|run| - 1]) + |run| - 1 <= Measure(run[0])
    decreases |run|
  {
    if |run| > 1 {
      var n := |run| - 1;
      WorkShorter(run, n);
      WorkBounded(run[..n]);
      assert WorkAt(run, n - 1);
      WorkLeft(run[n - 1], run[n]);
    }
  }

  ghost predicate Returned(s: System) {
    s.threads != [] && s.threads[MASTER].at.Outside?
  }

  /** While the master is in `Complete`, some thread can work. */
  lemma {:induction false} WorkGoesOn(s: System) returns (r: System)
    requires Inv(s) && !Returned(s)
    ensures Works(s, r)
  {
    var step := NeverStuck(s);
    StepKeepsInv(s, step);
    r := After(s, step);
  }

  /** A run that goes on from another one, no longer than the work at its start, to the return of the master. */
  ghost predicate RunsOut(run: seq<System>, longer: seq<System>) {
    run != [] && WorkRun(longer) && run <= longer && |longer| - 1 <= Measure(run[0]) && Returned(longer[|longer| - 1])
  }

  lemma {:induction false} RunsOutBefore(run: seq<System>, r: System, longer: seq<System>)
    requires run != [] && RunsOut(run + [r], longer)
    ensures RunsOut(run, longer)
  {
    assert (run + [r])[0] == run[0];
    assert run <= run + [r];
  }

  /** `Complete` returns: every run can be continued until the master is outside, and whatever the threads do, that takes no
      more steps altogether than the work there was at the start. */
  lemma {:induction false} CompleteReturns(run: seq<System>) returns (longer: seq<System>)
    requires WorkRun(run) && Inv(run[0])
    ensures RunsOut(run, longer)
    decreases Measure(run[0]) + 1 - |run|
  {
    WorkBounded(run);
    if Returned(run[|run| - 1]) {
      longer := run;
    } else {
      var r := WorkGoesOn(run[|run| - 1]);
      WorkLonger(run, r);
      WorkBounded(run + [r]);
      longer := CompleteReturns(run + [r]);
      RunsOutBefore(run, r, longer);
    }
  }
}
