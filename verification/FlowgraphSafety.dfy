/** What every run of the acquisition scheduler keeps: the lists stay well formed, the
    acquisition counter stays within its limit, and no satellite is lost. */
module FlowgraphSafety {
  import opened Signals
  import opened FlowgraphModel

  // ---------------------------------------------------------------- invariants

  ghost predicate GoodLists(lists: map<Band, seq<Signal>>) {
    forall b: Band :: GoodList(ListOf(lists, b), b)
  }

  /** Lists are duplicate-free and hold only their own band, every channel carries a signal of
      its band, pinned channels carry their satellite, and the counter respects the limit. */
  ghost predicate Inv(cfg: Config, st: State) {
    && Sized(cfg, st)
    && GoodLists(st.lists)
    && (forall c :: 0 <= c < |cfg.bands| ==> st.signal[c].band == cfg.bands[c])
    && (forall c :: 0 <= c < |cfg.bands| && cfg.pinned[c] != 0 ==> st.signal[c].prn == cfg.pinned[c])
    && 0 <= st.count <= cfg.limit
  }

  /** Some acquiring or tracking channel works on `s`. */
  ghost predicate Held(st: State, s: Signal)
    requires |st.phase| == |st.signal|
  {
    exists c :: 0 <= c < |st.phase| && !st.phase[c].Idle? && st.signal[c] == s
  }

  /** Every signal of `pool` waits in its list or is held, except those in `pending`. */
  ghost predicate Kept(st: State, pool: set<Signal>, pending: set<Signal>)
    requires |st.phase| == |st.signal|
  {
    forall s :: s in pool && s !in pending ==> s in ListOf(st.lists, s.band) || Held(st, s)
  }

  ghost predicate IsPinned(cfg: Config, s: Signal)
    requires |cfg.pinned| == |cfg.bands|
  {
    exists c :: 0 <= c < |cfg.bands| && cfg.pinned[c] != 0 && s == Signal(cfg.bands[c], cfg.pinned[c])
  }

  /** A pool of signals none of which is pinned to a channel. */
  ghost predicate FreePool(cfg: Config, pool: set<Signal>)
    requires |cfg.pinned| == |cfg.bands|
  {
    forall s :: s in pool ==> !IsPinned(cfg, s)
  }

  // ---------------------------------------------------------------- the search

  /** What a search that finds signal `s` and leaves `rest` has done to the list `l`. */
  ghost predicate TookOne(l: seq<Signal>, b: Band, pop: bool, s: Signal, rest: seq<Signal>) {
    && s in l && s.band == b && GoodList(rest, b)
    && (forall x :: x in rest <==> x in l && (pop ==> x != s))
  }

  /** A successful search takes exactly one signal, of the list's band, and keeps the rest. */
  lemma SearchTakesOne(cfg: Config, l: seq<Signal>, b: Band, pop: bool, reports: seq<Report>)
    requires GoodList(l, b)
    ensures l != [] <==> SearchNext(cfg, l, b, pop, reports).Hit?
    ensures match SearchNext(cfg, l, b, pop, reports)
            case Underflow => true
            case Hit(s, rest, assisted) => TookOne(l, b, pop, s, rest) && (assisted ==> IsAssisted(b))
  {
    match SearchNext(cfg, l, b, pop, reports)
    case Underflow =>
    case Hit(s, rest, assisted) =>
      if assisted {
        var k := AssistedIndex(l, AssistingBand(b), reports);
        RestAfterErase(l, k, b);
      } else {
        RestAfterErase(l, 0, b);
        RotateKeeps(l, b);
        assert l[..0] + l[0 + 1..] == l[1..];
      }
  }

  lemma RotateKeeps(l: seq<Signal>, b: Band)
    requires l != [] && GoodList(l, b)
    ensures GoodList(l[1..] + [l[0]], b)
    ensures forall x :: x in l[1..] + [l[0]] <==> x in l
  {
    assert l == [l[0]] + l[1..];
  }

  lemma RestAfterErase(l: seq<Signal>, k: nat, b: Band)
    requires k < |l| && GoodList(l, b)
    ensures GoodList(l[..k] + l[k + 1..], b)
    ensures forall x :: x in l[..k] + l[k + 1..] <==> x in l && x != l[k]
  {
    var r := l[..k] + l[k + 1..];
    assert forall i :: 0 <= i < |r| ==> r[i] == if i < k then l[i] else l[i + 1];
    forall x | x in l && x != l[k] ensures x in r {
      var i :| 0 <= i < |l| && l[i] == x;
      assert if i < k then r[i] == x else r[i - 1] == x;
    }
  }

  // ---------------------------------------------------------------- primitives

  /** Pushing back puts the signal at the end of its own list and touches no other. */
  lemma PushBackKeeps(st: State, s: Signal)
    requires GoodLists(st.lists)
    ensures GoodLists(PushBack(st, s).lists)
    ensures forall b :: b != s.band ==> ListOf(PushBack(st, s).lists, b) == ListOf(st.lists, b)
    ensures forall x :: x in ListOf(PushBack(st, s).lists, s.band) <==> x in ListOf(st.lists, s.band) || x == s
  {
    RemoveFromGoodList(ListOf(st.lists, s.band), s);
    var r := PushBack(st, s).lists;
    assert forall b :: ListOf(r, b) == if b == s.band then Remove(ListOf(st.lists, b), s) + [s] else ListOf(st.lists, b);
  }

  lemma RemoveKeeps(st: State, s: Signal)
    requires GoodLists(st.lists)
    ensures GoodLists(RemoveSignal(st, s).lists)
    ensures forall b :: b != s.band ==> ListOf(RemoveSignal(st, s).lists, b) == ListOf(st.lists, b)
    ensures forall x :: x in ListOf(RemoveSignal(st, s).lists, s.band) <==> x in ListOf(st.lists, s.band) && x != s
  {
    RemoveFromGoodList(ListOf(st.lists, s.band), s);
    var r := RemoveSignal(st, s).lists;
    assert forall b :: ListOf(r, b) == if b == s.band then Remove(ListOf(st.lists, b), s) else ListOf(st.lists, b);
  }

  lemma TakeKeeps(cfg: Config, st: State, c: nat, s: Signal, rest: seq<Signal>)
    requires Inv(cfg, st) && c < |cfg.bands| && cfg.pinned[c] == 0 && st.phase[c].Idle?
    requires s.band == cfg.bands[c] && GoodList(rest, s.band)
    requires forall x :: x in rest <==> x in ListOf(st.lists, s.band) && x != s
    ensures Inv(cfg, Take(st, c, s, rest))
    ensures forall x :: x != s && x in ListOf(st.lists, x.band) ==> x in ListOf(Take(st, c, s, rest).lists, x.band)
    ensures forall x :: Held(st, x) ==> Held(Take(st, c, s, rest), x)
  {
    var t := Take(st, c, s, rest);
    forall x | Held(st, x) ensures Held(t, x) {
      var d :| 0 <= d < |st.phase| && !st.phase[d].Idle? && st.signal[d] == x;
      assert t.signal[d] == x;
    }
    assert forall b: Band :: ListOf(t.lists, b) == if b == s.band then rest else ListOf(st.lists, b);
  }

  // ---------------------------------------------------------------- the acquisition manager

  lemma StartKeepsHeld(st: State, c: nat, s: Signal)
    requires |st.phase| == |st.signal| && c < |st.phase| && Held(st, s)
    ensures Held(StartAcquisition(st, c), s)
  {
    var d :| 0 <= d < |st.phase| && !st.phase[d].Idle? && st.signal[d] == s;
    assert !StartAcquisition(st, c).phase[d].Idle?;
  }

  /** One visit keeps the invariant and loses nothing. */
  lemma VisitKeeps(cfg: Config, st: State, c: nat, reports: seq<Report>, pool: set<Signal>, pending: set<Signal>)
    requires Inv(cfg, st) && c < |cfg.bands| && Kept(st, pool, pending)
    ensures Inv(cfg, Visit(cfg, st, c, reports))
    ensures Kept(Visit(cfg, st, c, reports), pool, pending)
  {
    if st.count < cfg.limit && st.phase[c].Idle? {
      if cfg.pinned[c] != 0 {
        forall s | Held(st, s) ensures Held(StartAcquisition(st, c), s) {
          StartKeepsHeld(st, c, s);
        }
      } else {
        var b := st.signal[c].band;
        SearchTakesOne(cfg, ListOf(st.lists, b), b, true, reports);
        match SearchNext(cfg, ListOf(st.lists, b), b, true, reports)
        case Underflow =>
          var r := st.(underflow := true);
          assert forall s :: Held(st, s) ==> Held(r, s);
        case Hit(s, rest, assisted) =>
          TakeKeeps(cfg, st, c, s, rest);
          var t := Take(st, c, s, rest);
          if Starts(cfg, b, assisted) {
            var r := StartAcquisition(t, c);
            forall x | Held(t, x) ensures Held(r, x) {
              StartKeepsHeld(t, c, x);
            }
            assert r.signal[c] == s && !r.phase[c].Idle?;
            assert Held(r, s);
          } else {
            PushBackKeeps(t, s);
            assert forall x :: Held(t, x) ==> Held(PushBack(t, s), x);
          }
      }
    }
  }

  lemma {:induction false} ManagerKeeps(cfg: Config, st: State, who: nat, reports: seq<seq<Report>>, i: nat,
                                        pool: set<Signal>, pending: set<Signal>)
    requires Inv(cfg, st) && Kept(st, pool, pending) && (i > 0 ==> |cfg.bands| > 0)
    ensures Inv(cfg, ManagerAfter(cfg, st, who, reports, i))
    ensures Kept(ManagerAfter(cfg, st, who, reports, i), pool, pending)
  {
    if i > 0 {
      ManagerKeeps(cfg, st, who, reports, i - 1, pool, pending);
      VisitKeeps(cfg, ManagerAfter(cfg, st, who, reports, i - 1), Visited(|cfg.bands|, who, i - 1),
                 ReportsAt(reports, i - 1), pool, pending);
    }
  }

  lemma ManagerInv(cfg: Config, st: State, who: nat, reports: seq<seq<Report>>, i: nat)
    requires Inv(cfg, st) && (i > 0 ==> |cfg.bands| > 0)
    ensures Inv(cfg, ManagerAfter(cfg, st, who, reports, i))
  {
    ManagerKeeps(cfg, st, who, reports, i, {}, {});
  }

  // ---------------------------------------------------------------- actions

  lemma FailedKeeps(cfg: Config, st: State, who: nat, reports: seq<seq<Report>>, pool: set<Signal>)
    requires Inv(cfg, st) && who < |cfg.bands| && FreePool(cfg, pool) && Kept(st, pool, {})
    ensures Inv(cfg, AcquisitionFailed(cfg, st, who, reports))
    ensures Kept(AcquisitionFailed(cfg, st, who, reports), pool, {})
  {
    var gs := st.signal[who];
    var freed := FreeChannel(cfg, st, who, pool);
    var managed := Manager(cfg, freed, who, reports);
    ManagerKeeps(cfg, freed, who, reports, |cfg.bands|, pool, {gs});
    PushBackKeeps(managed, gs);
    var pushed := PushBack(managed, gs);
    assert forall x :: Held(managed, x) ==> Held(pushed, x);
    if PinOf(cfg, who) != 0 {
      assert IsPinned(cfg, gs);
    }
  }

  /** Freeing a channel leaves at most its own signal unaccounted for. */
  lemma FreeChannel(cfg: Config, st: State, who: nat, pool: set<Signal>) returns (freed: State)
    requires Inv(cfg, st) && who < |cfg.bands| && Kept(st, pool, {})
    ensures freed == st.(phase := st.phase[who := Idle], count := Decrement(st.count))
    ensures Inv(cfg, freed) && Kept(freed, pool, {st.signal[who]})
  {
    freed := st.(phase := st.phase[who := Idle], count := Decrement(st.count));
    forall s | Held(st, s) && s != st.signal[who] ensures Held(freed, s) {
      var d :| 0 <= d < |st.phase| && !st.phase[d].Idle? && st.signal[d] == s;
      assert !freed.phase[d].Idle?;
    }
  }

  /** Removing a channel's signal from its list and tracking it loses nothing. */
  lemma TrackChannel(cfg: Config, st: State, who: nat, pool: set<Signal>) returns (tracking: State)
    requires Inv(cfg, st) && who < |cfg.bands| && Kept(st, pool, {})
    ensures tracking == RemoveSignal(st, st.signal[who]).(phase := st.phase[who := Tracking], count := Decrement(st.count))
    ensures Inv(cfg, tracking) && Kept(tracking, pool, {})
  {
    var gs := st.signal[who];
    RemoveKeeps(st, gs);
    tracking := RemoveSignal(st, gs).(phase := st.phase[who := Tracking], count := Decrement(st.count));
    forall s | Held(st, s) || s == gs ensures Held(tracking, s) {
      if s == gs {
        assert !tracking.phase[who].Idle? && tracking.signal[who] == s;
      } else {
        var d :| 0 <= d < |st.phase| && !st.phase[d].Idle? && st.signal[d] == s;
        assert !tracking.phase[d].Idle? && tracking.signal[d] == s;
      }
    }
  }

  lemma SucceededKeeps(cfg: Config, st: State, who: nat, reports: seq<seq<Report>>, pool: set<Signal>)
    requires Inv(cfg, st) && who < |cfg.bands| && Kept(st, pool, {})
    ensures Inv(cfg, AcquisitionSucceeded(cfg, st, who, reports))
    ensures Kept(AcquisitionSucceeded(cfg, st, who, reports), pool, {})
  {
    var tracking := TrackChannel(cfg, st, who, pool);
    ManagerKeeps(cfg, tracking, who, reports, |cfg.bands|, pool, {});
  }

  lemma LostKeeps(cfg: Config, st: State, who: nat, pool: set<Signal>)
    requires Inv(cfg, st) && who < |cfg.bands| && FreePool(cfg, pool) && Kept(st, pool, {})
    ensures Inv(cfg, TrackingLost(cfg, st, who))
    ensures Kept(TrackingLost(cfg, st, who), pool, {})
  {
    var gs := st.signal[who];
    if st.count < cfg.limit {
      forall s | Held(st, s) ensures Held(StartAcquisition(st, who), s) {
        StartKeepsHeld(st, who, s);
      }
    } else {
      var idle := st.(phase := st.phase[who := Idle]);
      var freed := FreeChannel(cfg, st, who, pool);
      assert forall s :: Held(freed, s) ==> Held(idle, s);
      PushBackKeeps(idle, gs);
      assert forall x :: Held(idle, x) ==> Held(PushBack(idle, gs), x);
      if PinOf(cfg, who) != 0 {
        assert IsPinned(cfg, gs);
      }
    }
  }

  lemma StandbyOneKeeps(cfg: Config, st: State, c: nat, pool: set<Signal>)
    requires Inv(cfg, st) && Kept(st, pool, {}) && c < |cfg.bands|
    ensures Inv(cfg, StandbyOne(st, c)) && Kept(StandbyOne(st, c), pool, {})
  {
    if st.phase[c].Idle? {
      return;
    }
    var freed := FreeChannel(cfg, st, c, pool);
    var gs := st.signal[c];
    PushBackKeeps(st, gs);
    var r := PushBack(st, gs).(phase := st.phase[c := Idle]);
    assert forall x :: Held(freed, x) ==> Held(r, x);
  }

  /** The invariant and the accounting for a pool, as one property of a state. */
  ghost predicate Safe(cfg: Config, st: State, pool: set<Signal>) {
    Inv(cfg, st) && Kept(st, pool, {})
  }

  lemma StandbyOneSafe(cfg: Config, st: State, c: nat, pool: set<Signal>, r: State)
    requires Safe(cfg, st, pool) && c < |cfg.bands| && r == StandbyOne(st, c)
    ensures Safe(cfg, r, pool)
  {
    StandbyOneKeeps(cfg, st, c, pool);
  }

  lemma {:induction false} StandbyKeeps(cfg: Config, st: State, k: nat, pool: set<Signal>)
    requires Safe(cfg, st, pool) && k <= |cfg.bands|
    ensures Safe(cfg, StandbyAfter(cfg, st, k), pool)
  {
    if k > 0 {
      StandbyKeeps(cfg, st, k - 1, pool);
      StandbyOneSafe(cfg, StandbyAfter(cfg, st, k - 1), k - 1, pool, StandbyAfter(cfg, st, k));
    }
  }

  // ---------------------------------------------------------------- prioritisation

  lemma ToFrontKeeps(l: seq<Signal>, s: Signal)
    requires GoodList(l, s.band)
    ensures GoodList(ToFront(l, s), s.band)
    ensures forall x :: x in ToFront(l, s) <==> x in l
  {
    RemoveFromGoodList(l, s);
    RemoveShrinks(l, s);
  }

  lemma {:induction false} RemoveShrinks(l: seq<Signal>, s: Signal)
    requires GoodList(l, s.band)
    ensures |Remove(l, s)| == |l| - if s in l then 1 else 0
  {
    if l != [] {
      assert l == [l[0]] + l[1..];
      if SameSatellite(l[0], s) {
        RemoveFromGoodList(l[1..], s);
      } else {
        RemoveShrinks(l[1..], s);
      }
    }
  }

  lemma {:induction false} PrioritiseListKeeps(l: seq<Signal>, b: Band, visible: seq<Satellite>)
    requires GoodList(l, b)
    ensures GoodList(PrioritiseList(l, b, visible), b)
    ensures forall x :: x in PrioritiseList(l, b, visible) <==> x in l
  {
    if visible != [] {
      var n := |visible| - 1;
      PrioritiseListKeeps(l, b, visible[..n]);
      ToFrontKeeps(PrioritiseList(l, b, visible[..n]), Signal(b, visible[n].prn));
    }
  }

  lemma PrioritiseKeeps(cfg: Config, st: State, visible: seq<Satellite>, pool: set<Signal>)
    requires Inv(cfg, st) && Kept(st, pool, {})
    ensures Inv(cfg, Prioritise(st, visible)) && Kept(Prioritise(st, visible), pool, {})
  {
    var r := Prioritise(st, visible);
    forall b: Band
      ensures GoodList(ListOf(r.lists, b), b) && forall x :: x in ListOf(r.lists, b) <==> x in ListOf(st.lists, b)
    {
      if b in st.lists {
        PrioritiseListKeeps(ListOf(st.lists, b), b, visible);
      }
    }
    assert forall x :: Held(st, x) ==> Held(r, x);
  }

  // ---------------------------------------------------------------- every run

  lemma StepKeeps(cfg: Config, st: State, e: Event, pool: set<Signal>)
    requires Inv(cfg, st) && Possible(cfg, e) && FreePool(cfg, pool) && Kept(st, pool, {})
    ensures Inv(cfg, Step(cfg, st, e)) && Kept(Step(cfg, st, e), pool, {})
  {
    match e
    case Action(who, what, reports) =>
      if what == 0 {
        FailedKeeps(cfg, st, who, reports, pool);
      } else if what == 1 {
        SucceededKeeps(cfg, st, who, reports, pool);
      } else if what == 2 {
        LostKeeps(cfg, st, who, pool);
      } else if what == 10 {
        StandbyKeeps(cfg, st, |cfg.bands|, pool);
        var s := StandbyAfter(cfg, st, |cfg.bands|);
        var r := EnterStandby(cfg, st);
        assert forall b: Band :: ListOf(r.lists, b) == ListOf(s.lists, b);
        assert forall x :: !Held(s, x);
      }
    case Manage(who, reports) =>
      ManagerKeeps(cfg, st, who, reports, |cfg.bands|, pool, {});
    case Prioritisation(visible) =>
      PrioritiseKeeps(cfg, st, visible, pool);
  }

  lemma {:induction false} RunKeeps(cfg: Config, st: State, es: seq<Event>, pool: set<Signal>)
    requires Inv(cfg, st) && AllPossible(cfg, es) && FreePool(cfg, pool) && Kept(st, pool, {})
    ensures Inv(cfg, Run(cfg, st, es)) && Kept(Run(cfg, st, es), pool, {})
  {
    if es != [] {
      RunKeeps(cfg, st, es[..|es| - 1], pool);
      StepKeeps(cfg, Run(cfg, st, es[..|es| - 1]), es[|es| - 1], pool);
    }
  }

  // ---------------------------------------------------------------- the initial state

  /** Initialisation keeps the lists well formed, and every free signal stays in its list. */
  ghost predicate Assigned(cfg: Config, st: State, pool: set<Signal>, done: seq<nat>) {
    && Sized(cfg, st) && GoodLists(st.lists)
    && (forall c :: 0 <= c < |cfg.bands| ==> st.signal[c].band == cfg.bands[c])
    && (forall c :: 0 <= c < |cfg.bands| && c in done && cfg.pinned[c] != 0 ==> st.signal[c].prn == cfg.pinned[c])
    && st.count == cfg.limit
    && (forall s :: s in pool ==> s in ListOf(st.lists, s.band))
  }

  lemma AssignKeeps(cfg: Config, st: State, c: nat, reports: seq<Report>, pool: set<Signal>, done: seq<nat>)
    requires Sized(cfg, st) && Assigned(cfg, st, pool, done) && FreePool(cfg, pool) && c < |cfg.bands|
    ensures Assigned(cfg, Assign(cfg, st, c, reports), pool, done + [c])
  {
    var b := st.signal[c].band;
    if cfg.pinned[c] != 0 {
      var s := Signal(b, cfg.pinned[c]);
      RemoveKeeps(st, s);
      assert IsPinned(cfg, s);
    } else {
      SearchTakesOne(cfg, ListOf(st.lists, b), b, false, reports);
      match SearchNext(cfg, ListOf(st.lists, b), b, false, reports)
      case Underflow =>
      case Hit(s, rest, _) =>
        var lists := st.lists[b := rest];
        assert forall d :: ListOf(lists, d) == if d == b then rest else ListOf(st.lists, d);
    }
  }

  lemma {:induction false} AssignAllKeeps(cfg: Config, st: State, order: seq<nat>, reports: seq<seq<Report>>, pool: set<Signal>)
    requires Sized(cfg, st) && Assigned(cfg, st, pool, []) && FreePool(cfg, pool)
    requires forall i :: 0 <= i < |order| ==> order[i] < |cfg.bands|
    ensures Assigned(cfg, AssignAll(cfg, st, order, reports), pool, order)
  {
    if order != [] {
      var n := |order| - 1;
      var done := order[..n];
      AssignAllKeeps(cfg, st, done, reports, pool);
      var before := AssignAll(cfg, st, done, reports);
      AssignKeeps(cfg, before, order[n], ReportsAt(reports, n), pool, done);
      assert done + [order[n]] == order;
      assert AssignAll(cfg, st, order, reports) == Assign(cfg, before, order[n], ReportsAt(reports, n));
    }
  }

  lemma InitialKeeps(cfg: Config, lists: map<Band, seq<Signal>>, reports: seq<seq<Report>>, pool: set<Signal>)
    requires GoodConfig(cfg) && GoodLists(lists) && FreePool(cfg, pool)
    requires forall s :: s in pool ==> s in ListOf(lists, s.band)
    ensures Inv(cfg, Initial(cfg, lists, reports)) && Kept(Initial(cfg, lists, reports), pool, {})
  {
    AssignAllKeeps(cfg, Unassigned(cfg, lists), AssignOrder(cfg, |cfg.pinned|), reports, pool);
    AssignOrderComplete(cfg, |cfg.pinned|);
  }

  /** No satellite is ever lost.  From the start, after any sequence of channel events, standby
      commands, manager calls and prioritisations, in any order and however the channels
      behave: every list is duplicate-free and of its own band, the acquisition counter lies
      between 0 and its limit, and each configured signal that is not pinned to a channel waits
      in its list or is held by an acquiring or tracking channel. */
  lemma NoSatelliteLost(cfg: Config, lists: map<Band, seq<Signal>>, reports: seq<seq<Report>>, es: seq<Event>)
    requires GoodConfig(cfg) && GoodLists(lists) && AllPossible(cfg, es)
    ensures var st := Run(cfg, Initial(cfg, lists, reports), es);
            && GoodLists(st.lists)
            && 0 <= st.count <= cfg.limit
            && forall b, s :: s in ListOf(lists, b) && !IsPinned(cfg, s) ==> s in ListOf(st.lists, b) || Held(st, s)
  {
    var pool := set b: Band, s | s in ListOf(lists, b) && !IsPinned(cfg, s) :: s;
    InitialKeeps(cfg, lists, reports, pool);
    RunKeeps(cfg, Initial(cfg, lists, reports), es, pool);
    var st := Run(cfg, Initial(cfg, lists, reports), es);
    forall b, s | s in ListOf(lists, b) && !IsPinned(cfg, s)
      ensures s in ListOf(st.lists, b) || Held(st, s)
    {
      assert s in pool && s.band == b;
    }
  }
}
