/** Concurrent_Queue (src/core/receiver/concurrent_queue.h) as an interleaving of the steps of any
    number of threads that push, try_pop, wait_and_pop and timed_wait_and_pop: locking, the
    queue operation, unlocking, notifying, blocking, waking (notified, timed out or spuriously)
    and locking again. */
module ConcurrentQueue {
  import opened Collections

  /** Where a thread stands in the queue's operations. */
  datatype Pc<D> =
    | Outside
    | PushLocked(data: D)          // push, mutex held
    | PushDone                     // pushed, mutex held
    | PushUnlocked                 // mutex released, notify_one still to come
    | TryLocked                    // try_pop, mutex held
    | Testing(timed: bool)         // a waiting pop before its first test, mutex held
    | Sleeping(timed: bool)        // blocked on the condition variable
    | Woken(timed: bool)           // woken, the mutex not yet acquired again
    | Retesting(timed: bool)       // woken, mutex held
    | Returning(result: Option<D>) // finished, mutex still held

  predicate Holds<D>(p: Pc<D>) {
    p.PushLocked? || p.PushDone? || p.TryLocked? || p.Testing? || p.Retesting? || p.Returning?
  }

  /** Shared state, the threads, and the history of pushed and popped values. */
  datatype State<D> = State(
    queue: seq<D>, mutex: Option<nat>, threads: seq<Pc<D>>, pushed: seq<D>, popped: seq<D>)

  function Initial<D>(n: nat): State<D> {
    State([], None, seq(n, _ => Outside), [], [])
  }

  datatype Step<D> =
    | CallPush(t: nat, data: D)
    | CallTry(t: nat)
    | CallWait(t: nat, timed: bool)
    | Push(t: nat)
    | Unlock(t: nat)
    | Notify(t: nat, woken: Option<nat>)
    | Test(t: nat)
    | Wake(t: nat)
    | Relock(t: nat)
    | Return(t: nat)

  predicate Asleep<D>(s: State<D>, t: nat) {
    t < |s.threads| && s.threads[t].Sleeping?
  }

  /** May the step happen?  Locking needs a free mutex; notify_one wakes some sleeper if there is
      one; a sleeper may wake at any time, since condition variables wake spuriously and timed
      waits expire. */
  ghost predicate Enabled<D>(s: State<D>, x: Step<D>) {
    && x.t < |s.threads|
    && var p := s.threads[x.t];
       match x
       case CallPush(_, _) => p.Outside? && s.mutex.None?
       case CallTry(_) => p.Outside? && s.mutex.None?
       case CallWait(_, _) => p.Outside? && s.mutex.None?
       case Push(_) => p.PushLocked?
       case Unlock(_) => p.PushDone?
       case Notify(_, w) =>
         && p.PushUnlocked?
         && (match w
             case Some(u) => Asleep(s, u)
             case None => forall u :: !Asleep(s, u))
       case Test(_) => p.TryLocked? || p.Testing? || p.Retesting?
       case Wake(_) => p.Sleeping?
       case Relock(_) => p.Woken? && s.mutex.None?
       case Return(_) => p.Returning?
  }

  function Goto<D>(s: State<D>, t: nat, p: Pc<D>): State<D>
    requires t < |s.threads|
  {
    s.(threads := s.threads[t := p])
  }

  /** The test of emptiness under the mutex: pop if there is a value; otherwise try_pop and a timed
      wait that already slept give up, and any other wait blocks and releases the mutex. */
  function TestQueue<D>(s: State<D>, t: nat): State<D>
    requires t < |s.threads|
  {
    var p := s.threads[t];
    if s.queue != [] then
      Goto(s, t, Returning(Some(s.queue[0]))).(queue := s.queue[1..], popped := s.popped + [s.queue[0]])
    else if p.TryLocked? || (p.Retesting? && p.timed) then Goto(s, t, Returning(None))
    else Goto(s, t, Sleeping(if p.Testing? || p.Retesting? then p.timed else false)).(mutex := None)
  }

  function Next<D>(s: State<D>, x: Step<D>): State<D>
    requires Enabled(s, x)
  {
    var p := s.threads[x.t];
    match x
    case CallPush(t, d) => Goto(s, t, PushLocked(d)).(mutex := Some(t))
    case CallTry(t) => Goto(s, t, TryLocked).(mutex := Some(t))
    case CallWait(t, timed) => Goto(s, t, Testing(timed)).(mutex := Some(t))
    case Push(t) => Goto(s, t, PushDone).(queue := s.queue + [p.data], pushed := s.pushed + [p.data])
    case Unlock(t) => Goto(s, t, PushUnlocked).(mutex := None)
    case Notify(t, w) =>
      var done := Goto(s, t, Outside);
      if w.Some? then Goto(done, w.value, Woken(s.threads[w.value].timed)) else done
    case Test(t) => TestQueue(s, t)
    case Wake(t) => Goto(s, t, Woken(p.timed))
    case Relock(t) => Goto(s, t, Retesting(p.timed)).(mutex := Some(t))
    case Return(t) => Goto(s, t, Outside).(mutex := None)
  }

  ghost predicate Leads<D>(r: State<D>, x: Step<D>, s: State<D>) {
    Enabled(r, x) && s == Next(r, x)
  }

  /** `s` is reached from the start by the steps `xs`, each enabled when taken. */
  ghost predicate Reaches<D(!new)>(n: nat, xs: seq<Step<D>>, s: State<D>) {
    if xs == [] then s == Initial(n)
    else
      var before, last := xs[..|xs| - 1], xs[|xs| - 1];
      exists r: State<D> :: Reaches(n, before, r) && Leads(r, last, s)
  }

  // ---------------------------------------------------------------- sums over threads

  function Sum<D>(threads: seq<Pc<D>>, f: Pc<D> -> nat): nat {
    if threads == [] then 0 else Sum(threads[..|threads| - 1], f) + f(threads[|threads| - 1])
  }

  lemma {:induction false} SumUpdate<D>(threads: seq<Pc<D>>, t: nat, p: Pc<D>, f: Pc<D> -> nat)
    requires t < |threads|
    ensures Sum(threads[t := p], f) == Sum(threads, f) - f(threads[t]) + f(p)
  {
    var n := |threads| - 1;
    var r := threads[t := p];
    if t == n {
      assert r[..n] == threads[..n];
    } else {
      assert r[..n] == threads[..n][t := p];
      SumUpdate(threads[..n], t, p, f);
    }
  }

  lemma {:induction false} SumAtLeast<D>(threads: seq<Pc<D>>, t: nat, f: Pc<D> -> nat)
    requires t < |threads|
    ensures Sum(threads, f) >= f(threads[t])
  {
    if t < |threads| - 1 {
      SumAtLeast(threads[..|threads| - 1], t, f);
    }
  }

  lemma {:induction false} SumZero<D>(threads: seq<Pc<D>>, f: Pc<D> -> nat)
    requires Sum(threads, f) > 0
    ensures exists t :: 0 <= t < |threads| && f(threads[t]) > 0
  {
    var n := |threads| - 1;
    if f(threads[n]) == 0 {
      SumZero(threads[..n], f);
      var t :| 0 <= t < n && f(threads[..n][t]) > 0;
      assert f(threads[t]) > 0;
    }
  }

  /** A thread that has pushed and not yet notified. */
  function Pending<D>(p: Pc<D>): nat {
    if p.PushDone? || p.PushUnlocked? then 1 else 0
  }

  /** A thread that was woken and has not yet looked at the queue again. */
  function Awake<D>(p: Pc<D>): nat {
    if p.Woken? || p.Retesting? then 1 else 0
  }

  ghost function Credit<D>(s: State<D>): nat {
    Sum(s.threads, Pending) + Sum(s.threads, Awake)
  }

  // ---------------------------------------------------------------- the invariant

  ghost predicate Exclusive<D>(s: State<D>) {
    forall t :: 0 <= t < |s.threads| ==> (Holds(s.threads[t]) <==> s.mutex == Some(t))
  }

  ghost predicate SomeoneSleeps<D>(s: State<D>) {
    exists t :: Asleep(s, t)
  }

  /** Mutual exclusion, first-in first-out with nothing lost or repeated, and no lost wake-up:
      while a waiter sleeps, every queued value is matched by a notification still to come or a
      waiter already woken. */
  ghost predicate Inv<D>(s: State<D>) {
    && Exclusive(s)
    && s.pushed == s.popped + s.queue
    && (SomeoneSleeps(s) ==> |s.queue| <= Credit(s))
  }

  lemma GotoCredit<D>(s: State<D>, t: nat, p: Pc<D>)
    requires t < |s.threads|
    ensures Credit(Goto(s, t, p)) == Credit(s) - Pending(s.threads[t]) - Awake(s.threads[t]) + Pending(p) + Awake(p)
  {
    SumUpdate(s.threads, t, p, Pending);
    SumUpdate(s.threads, t, p, Awake);
  }

  lemma GotoSleepers<D>(s: State<D>, r: State<D>, t: nat, p: Pc<D>)
    requires t < |s.threads| && r.threads == s.threads[t := p] && !p.Sleeping? && SomeoneSleeps(r)
    ensures SomeoneSleeps(s)
  {
    var u :| Asleep(r, u);
    assert Asleep(s, u);
  }

  /** Every step except the emptiness test and the notification. */
  lemma SimpleStepKeeps<D>(s: State<D>, x: Step<D>)
    requires Inv(s) && Enabled(s, x) && !x.Test? && !x.Notify?
    ensures Inv(Next(s, x))
  {
    var r := Next(s, x);
    GotoCredit(s, x.t, r.threads[x.t]);
    assert r.threads == s.threads[x.t := r.threads[x.t]];
    if SomeoneSleeps(r) {
      GotoSleepers(s, r, x.t, r.threads[x.t]);
    }
    assert x.Push? ==> s.pushed + [s.threads[x.t].data] == s.popped + (s.queue + [s.threads[x.t].data]);
  }

  lemma TestKeeps<D>(s: State<D>, x: Step<D>)
    requires Inv(s) && Enabled(s, x) && x.Test?
    ensures Inv(Next(s, x))
  {
    var r := Next(s, x);
    GotoCredit(s, x.t, r.threads[x.t]);
    if s.queue != [] {
      assert s.popped + s.queue == (s.popped + [s.queue[0]]) + s.queue[1..];
      if SomeoneSleeps(r) {
        GotoSleepers(s, r, x.t, r.threads[x.t]);
      }
    }
  }

  lemma NotifyKeeps<D>(s: State<D>, x: Step<D>)
    requires Inv(s) && Enabled(s, x) && x.Notify?
    ensures Inv(Next(s, x))
  {
    var done := Goto(s, x.t, Outside);
    GotoCredit(s, x.t, Outside);
    if w :| x.woken == Some(w) {
      var p := Woken(s.threads[w].timed);
      GotoCredit(done, w, p);
      assert SomeoneSleeps(s);
    } else {
      var r := Next(s, x);
      assert forall u :: Asleep(r, u) ==> Asleep(s, u);
    }
  }

  lemma StepKeeps<D>(s: State<D>, x: Step<D>)
    requires Inv(s) && Enabled(s, x)
    ensures Inv(Next(s, x))
  {
    if x.Test? {
      TestKeeps(s, x);
    } else if x.Notify? {
      NotifyKeeps(s, x);
    } else {
      SimpleStepKeeps(s, x);
    }
  }

  lemma {:induction false} ReachableInv<D(!new)>(n: nat, xs: seq<Step<D>>, s: State<D>)
    requires Reaches(n, xs, s)
    ensures Inv(s)
  {
    if xs != [] {
      var r: State<D> :| Reaches(n, xs[..|xs| - 1], r) && Leads(r, xs[|xs| - 1], s);
      ReachableInv(n, xs[..|xs| - 1], r);
      StepKeeps(r, xs[|xs| - 1]);
    }
  }

  // ---------------------------------------------------------------- theorems

  /** Queue safety over all interleavings: the popped values are a prefix of the pushed values in
      push order, and what is queued is exactly the rest. */
  lemma FirstInFirstOut<D(!new)>(n: nat, xs: seq<Step<D>>, s: State<D>)
    requires Reaches(n, xs, s)
    ensures s.popped <= s.pushed && s.pushed[|s.popped|..] == s.queue
    ensures forall t, u :: 0 <= t < |s.threads| && 0 <= u < |s.threads| ==>
              Holds(s.threads[t]) && Holds(s.threads[u]) ==> t == u
  {
    ReachableInv(n, xs, s);
  }

  /** A pop returns the oldest value that has been pushed and not yet popped. */
  lemma PopReturnsOldest<D(!new)>(n: nat, xs: seq<Step<D>>, s: State<D>, x: Step<D>)
    requires Reaches(n, xs, s) && Enabled(s, x) && x.Test? && s.queue != []
    ensures |s.popped| < |s.pushed|
    ensures Next(s, x).threads[x.t] == Returning(Some(s.pushed[|s.popped|]))
    ensures Next(s, x).popped == s.popped + [s.pushed[|s.popped|]]
  {
    ReachableInv(n, xs, s);
  }

  // ---------------------------------------------------------------- how each call can end

  /** The last call that thread `t` made. */
  function LastCall<D>(xs: seq<Step<D>>, t: nat): Option<Step<D>> {
    if xs == [] then None
    else
      var x := xs[|xs| - 1];
      if x.t == t && (x.CallPush? || x.CallTry? || x.CallWait?) then Some(x) else LastCall(xs[..|xs| - 1], t)
  }

  /** How often thread `t` has been woken since its last call. */
  function Wakes<D>(xs: seq<Step<D>>, t: nat): nat {
    if xs == [] then 0
    else
      var x, before := xs[|xs| - 1], Wakes(xs[..|xs| - 1], t);
      if x.t == t && (x.CallPush? || x.CallTry? || x.CallWait?) then 0
      else if x == Wake(t) || (x.Notify? && x.woken == Some(t)) then before + 1
      else before
  }

  /** Where a thread can stand, given its last call and its wake-ups since then: a push never waits, a
      try_pop never sleeps, a wait without time limit never returns empty-handed, and one with a
      time limit sleeps once. */
  ghost predicate Fits<D>(call: Option<Step<D>>, wakes: nat, p: Pc<D>) {
    p.Outside? ||
    (call.Some? &&
     match call.value
     case CallPush(_, _) => p.PushLocked? || p.PushDone? || p.PushUnlocked?
     case CallTry(_) => p.TryLocked? || p.Returning?
     case CallWait(_, false) =>
       p == Testing(false) || p == Sleeping(false) || p == Woken(false) || p == Retesting(false) ||
       (p.Returning? && p.result.Some?)
     case CallWait(_, true) =>
       || ((p == Testing(true) || p == Sleeping(true)) && wakes == 0)
       || ((p == Woken(true) || p == Retesting(true)) && wakes == 1)
       || (p.Returning? && wakes <= 1)
     case _ => false)
  }

  lemma StepFits<D>(s: State<D>, x: Step<D>, t: nat, call: Option<Step<D>>, wakes: nat)
    requires Enabled(s, x) && t < |s.threads| && Fits(call, wakes, s.threads[t])
    ensures if x.t == t && (x.CallPush? || x.CallTry? || x.CallWait?) then Fits(Some(x), 0, Next(s, x).threads[t])
            else if x == Wake(t) || (x.Notify? && x.woken == Some(t)) then Fits(call, wakes + 1, Next(s, x).threads[t])
            else Fits(call, wakes, Next(s, x).threads[t])
  {
  }

  lemma {:induction false} ReachedFits<D(!new)>(n: nat, xs: seq<Step<D>>, s: State<D>, t: nat)
    requires Reaches(n, xs, s) && t < n
    ensures |s.threads| == n && Fits(LastCall(xs, t), Wakes(xs, t), s.threads[t])
  {
    if xs != [] {
      var r: State<D> :| Reaches(n, xs[..|xs| - 1], r) && Leads(r, xs[|xs| - 1], s);
      ReachedFits(n, xs[..|xs| - 1], r, t);
      NextFits(r, s, t, xs);
    }
  }

  lemma {:induction false} NextFits<D>(r: State<D>, s: State<D>, t: nat, xs: seq<Step<D>>)
    requires xs != [] && Leads(r, xs[|xs| - 1], s) && t < |r.threads|
    requires Fits(LastCall(xs[..|xs| - 1], t), Wakes(xs[..|xs| - 1], t), r.threads[t])
    ensures |s.threads| == |r.threads| && Fits(LastCall(xs, t), Wakes(xs, t), s.threads[t])
  {
    StepFits(r, xs[|xs| - 1], t, LastCall(xs[..|xs| - 1], t), Wakes(xs[..|xs| - 1], t));
  }

  /** In every interleaving: wait_and_pop returns only with a value; try_pop never sleeps; a timed wait
      is woken at most once and does not sleep again. */
  lemma CallsEndAsTheyShould<D(!new)>(n: nat, xs: seq<Step<D>>, s: State<D>, t: nat)
    requires Reaches(n, xs, s) && t < n
    ensures |s.threads| == n
    ensures LastCall(xs, t) == Some(CallWait(t, false)) && s.threads[t].Returning? ==> s.threads[t].result.Some?
    ensures LastCall(xs, t) == Some(CallTry(t)) ==> !s.threads[t].Sleeping? && !s.threads[t].Woken?
    ensures LastCall(xs, t) == Some(CallWait(t, true)) && !s.threads[t].Outside? ==>
              Wakes(xs, t) <= 1 && (s.threads[t].Sleeping? ==> Wakes(xs, t) == 0)
  {
    ReachedFits(n, xs, s, t);
  }

  /** A call ends empty-handed only by a test that finds the queue empty. */
  lemma EmptyHandedMeansEmpty<D>(s: State<D>, x: Step<D>, t: nat)
    requires Enabled(s, x) && t < |s.threads|
    requires Next(s, x).threads[t] == Returning(None) && s.threads[t] != Returning(None)
    ensures x == Test(t) && s.queue == [] && Next(s, x).queue == []
  {
  }

  /** No wake-up is lost: once every notification has been delivered and every woken thread has
      looked, no waiter sleeps beside a queued value. */
  lemma NoLostWakeup<D(!new)>(n: nat, xs: seq<Step<D>>, s: State<D>)
    requires Reaches(n, xs, s) && SomeoneSleeps(s)
    ensures |s.queue| <= Sum(s.threads, Pending) + Sum(s.threads, Awake)
    ensures (forall t :: 0 <= t < |s.threads| ==> Pending(s.threads[t]) == 0 && Awake(s.threads[t]) == 0) ==> s.queue == []
  {
    ReachableInv(n, xs, s);
    if s.queue != [] {
      if Sum(s.threads, Pending) > 0 {
        SumZero(s.threads, Pending);
      } else {
        SumZero(s.threads, Awake);
      }
    }
  }

  // ---------------------------------------------------------------- progress

  /** Steps that a running thread takes by itself: no new call, and no spurious or timed-out wake. */
  predicate IsInternal<D>(x: Step<D>) {
    !x.CallPush? && !x.CallTry? && !x.CallWait? && !x.Wake?
  }

  lemma HolderCanStep<D>(s: State<D>, h: nat) returns (x: Step<D>)
    requires h < |s.threads| && Holds(s.threads[h])
    ensures IsInternal(x) && Enabled(s, x)
  {
    match s.threads[h]
    case PushLocked(_) => x := Push(h);
    case PushDone => x := Unlock(h);
    case TryLocked => x := Test(h);
    case Testing(_) => x := Test(h);
    case Retesting(_) => x := Test(h);
    case Returning(_) => x := Return(h);
  }

  lemma BusyCanStep<D>(s: State<D>, t: nat) returns (x: Step<D>)
    requires Inv(s) && t < |s.threads| && (Pending(s.threads[t]) > 0 || Awake(s.threads[t]) > 0)
    requires s.mutex.Some? ==> s.mutex.value < |s.threads|
    ensures IsInternal(x) && Enabled(s, x)
  {
    if s.mutex.Some? {
      x := HolderCanStep(s, s.mutex.value);
    } else if s.threads[t].PushUnlocked? {
      if u :| Asleep(s, u) {
        x := Notify(t, Some(u));
      } else {
        x := Notify(t, None);
      }
    } else {
      x := Relock(t);
    }
  }

  lemma HolderStep<D(!new)>(r: State<D>, x: Step<D>, s: State<D>)
    requires Leads(r, x, s) && (r.mutex.Some? ==> r.mutex.value < |r.threads|)
    ensures s.mutex.Some? ==> s.mutex.value < |s.threads|
  {
  }

  lemma {:induction false} MutexHolderExists<D(!new)>(n: nat, xs: seq<Step<D>>, s: State<D>)
    requires Reaches(n, xs, s)
    ensures s.mutex.Some? ==> s.mutex.value < |s.threads|
  {
    if xs != [] {
      var r: State<D> :| Reaches(n, xs[..|xs| - 1], r) && Leads(r, xs[|xs| - 1], s);
      MutexHolderExists(n, xs[..|xs| - 1], r);
      HolderStep(r, xs[|xs| - 1], s);
    }
  }

  /** The queue never gets stuck: beside a queued value and a sleeping waiter some thread can take
      a step of its own. */
  lemma NeverStuck<D(!new)>(n: nat, xs: seq<Step<D>>, s: State<D>) returns (x: Step<D>)
    requires Reaches(n, xs, s) && SomeoneSleeps(s) && s.queue != []
    ensures IsInternal(x) && Enabled(s, x)
  {
    ReachableInv(n, xs, s);
    MutexHolderExists(n, xs, s);
    var t: nat;
    if Sum(s.threads, Pending) > 0 {
      SumZero(s.threads, Pending);
      t :| 0 <= t < |s.threads| && Pending(s.threads[t]) > 0;
    } else {
      SumZero(s.threads, Awake);
      t :| 0 <= t < |s.threads| && Awake(s.threads[t]) > 0;
    }
    x := BusyCanStep(s, t);
  }

  /** Steps a thread may still take by itself, counting the waiter its notification wakes. */
  function Weight<D>(p: Pc<D>): nat {
    match p
    case Outside => 0
    case Sleeping(_) => 0
    case Returning(_) => 1
    case TryLocked => 2
    case Testing(_) => 2
    case Retesting(_) => 2
    case Woken(_) => 3
    case PushUnlocked => 4
    case PushDone => 5
    case PushLocked(_) => 6
  }

  /** Every step of a thread's own decreases the total weight. */
  lemma InternalStepsTerminate<D>(s: State<D>, x: Step<D>)
    requires Enabled(s, x) && IsInternal(x)
    ensures Sum(Next(s, x).threads, Weight) < Sum(s.threads, Weight)
  {
    var r := Next(s, x);
    if x.Notify? && x.woken.Some? {
      var done := Goto(s, x.t, Outside);
      SumUpdate(s.threads, x.t, Outside, Weight);
      SumUpdate(done.threads, x.woken.value, Woken(s.threads[x.woken.value].timed), Weight);
    } else {
      SumUpdate(s.threads, x.t, r.threads[x.t], Weight);
      assert r.threads == s.threads[x.t := r.threads[x.t]];
    }
  }

  /** A schedule of own steps from `s` to `r`. */
  ghost predicate OwnSteps<D>(s: State<D>, xs: seq<Step<D>>, r: State<D>)
    decreases |xs|
  {
    if xs == [] then r == s
    else IsInternal(xs[0]) && Enabled(s, xs[0]) && OwnSteps(Next(s, xs[0]), xs[1..], r)
  }

  lemma ReachesOneMore<D(!new)>(n: nat, xs: seq<Step<D>>, s: State<D>, x: Step<D>)
    requires Reaches(n, xs, s) && Enabled(s, x)
    ensures Reaches(n, xs + [x], Next(s, x))
  {
    var all := xs + [x];
    assert all[..|all| - 1] == xs && all[|all| - 1] == x;
    assert Leads(s, x, Next(s, x));
  }

  /** Without new calls and spurious or timed-out wakes every schedule is finite, bounded by the
      weight of the state it starts in, and one that cannot be continued ends with the queue
      empty or no waiter asleep. */
  lemma {:induction false} OwnStepsServeWaiters<D(!new)>(n: nat, past: seq<Step<D>>, s: State<D>, xs: seq<Step<D>>, r: State<D>)
    requires Reaches(n, past, s) && OwnSteps(s, xs, r)
    ensures |xs| <= Sum(s.threads, Weight)
    ensures (forall x: Step<D> :: IsInternal(x) ==> !Enabled(r, x)) ==> r.queue == [] || !SomeoneSleeps(r)
    decreases |xs|
  {
    if xs == [] {
      if r.queue != [] && SomeoneSleeps(r) {
        var x := NeverStuck(n, past, r);
      }
    } else {
      InternalStepsTerminate(s, xs[0]);
      ReachesOneMore(n, past, s, xs[0]);
      OwnStepsServeWaiters(n, past + [xs[0]], Next(s, xs[0]), xs[1..], r);
    }
  }
}
