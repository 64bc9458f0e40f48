/** Under well-behaved channel events the acquisition counter is exact, and tracking stays
    exclusive as long as no channel succeeds with a signal that another busy channel has. */
module FlowgraphExclusive {
  import opened Signals
  import opened FlowgraphModel
  import opened FlowgraphSafety

  // ---------------------------------------------------------------- the counter is exact

  ghost predicate Exact(st: State) {
    st.count == multiset(st.phase)[Acquiring]
  }

  /** What a manager visit leaves alone: channels that are not idle keep phase and signal, and
      nobody starts tracking. */
  ghost predicate Undisturbed(st: State, r: State) {
    && |r.phase| == |st.phase| && |r.signal| == |st.signal| && |st.phase| == |st.signal|
    && (forall d :: 0 <= d < |st.phase| && !st.phase[d].Idle? ==> r.phase[d] == st.phase[d] && r.signal[d] == st.signal[d])
    && (forall d :: 0 <= d < |st.phase| && r.phase[d].Tracking? ==> st.phase[d].Tracking?)
  }

  lemma VisitUndisturbed(cfg: Config, st: State, c: nat, reports: seq<Report>)
    requires Sized(cfg, st) && c < |cfg.bands|
    ensures Undisturbed(st, Visit(cfg, st, c, reports))
  {
  }

  lemma VisitExact(cfg: Config, st: State, c: nat, reports: seq<Report>)
    requires Sized(cfg, st) && c < |cfg.bands| && Exact(st)
    ensures Exact(Visit(cfg, st, c, reports))
  {
    AcquiringCount(st.phase, c);
  }

  lemma VisitUndisturbedFrom(a: State, cfg: Config, st: State, c: nat, reports: seq<Report>)
    requires Sized(cfg, st) && c < |cfg.bands| && Undisturbed(a, st)
    ensures Undisturbed(a, Visit(cfg, st, c, reports))
  {
    VisitUndisturbed(cfg, st, c, reports);
  }

  lemma {:induction false} ManagerUndisturbed(cfg: Config, st: State, who: nat, reports: seq<seq<Report>>, i: nat)
    requires Sized(cfg, st) && (i > 0 ==> |cfg.bands| > 0)
    ensures Undisturbed(st, ManagerAfter(cfg, st, who, reports, i))
  {
    if i > 0 {
      ManagerUndisturbed(cfg, st, who, reports, i - 1);
      var before := ManagerAfter(cfg, st, who, reports, i - 1);
      VisitUndisturbedFrom(st, cfg, before, Visited(|cfg.bands|, who, i - 1), ReportsAt(reports, i - 1));
    }
  }

  lemma {:induction false} ManagerExact(cfg: Config, st: State, who: nat, reports: seq<seq<Report>>, i: nat)
    requires Sized(cfg, st) && (i > 0 ==> |cfg.bands| > 0) && Exact(st)
    ensures Exact(ManagerAfter(cfg, st, who, reports, i))
  {
    if i > 0 {
      ManagerExact(cfg, st, who, reports, i - 1);
      VisitExact(cfg, ManagerAfter(cfg, st, who, reports, i - 1), Visited(|cfg.bands|, who, i - 1),
                 ReportsAt(reports, i - 1));
    }
  }

  lemma AcquiringCount(phase: seq<Phase>, c: nat)
    requires c < |phase|
    ensures phase[c].Acquiring? ==> multiset(phase)[Acquiring] >= 1
    ensures multiset(phase[c := Idle])[Acquiring] ==
            multiset(phase)[Acquiring] - if phase[c].Acquiring? then 1 else 0
    ensures multiset(phase[c := Tracking])[Acquiring] ==
            multiset(phase)[Acquiring] - if phase[c].Acquiring? then 1 else 0
    ensures multiset(phase[c := Acquiring])[Acquiring] ==
            multiset(phase)[Acquiring] + if phase[c].Acquiring? then 0 else 1
  {
    assert phase[c] in multiset(phase);
  }

  lemma FailedExact(cfg: Config, st: State, who: nat, reports: seq<seq<Report>>)
    requires Sized(cfg, st) && who < |cfg.bands| && st.phase[who].Acquiring? && Exact(st)
    ensures Exact(AcquisitionFailed(cfg, st, who, reports))
  {
    AcquiringCount(st.phase, who);
    ManagerExact(cfg, st.(phase := st.phase[who := Idle], count := Decrement(st.count)), who, reports, |cfg.bands|);
  }

  lemma SucceededExact(cfg: Config, st: State, who: nat, reports: seq<seq<Report>>)
    requires Sized(cfg, st) && who < |cfg.bands| && st.phase[who].Acquiring? && Exact(st)
    ensures Exact(AcquisitionSucceeded(cfg, st, who, reports))
  {
    AcquiringCount(st.phase, who);
    var removed := RemoveSignal(st, st.signal[who]);
    ManagerExact(cfg, removed.(phase := removed.phase[who := Tracking], count := Decrement(removed.count)),
                 who, reports, |cfg.bands|);
  }

  lemma StepExact(cfg: Config, st: State, e: Event)
    requires Sized(cfg, st) && Possible(cfg, e) && WellBehaved(cfg, st, e) && Exact(st)
    ensures Exact(Step(cfg, st, e))
  {
    match e
    case Action(who, what, reports) =>
      if what == 0 {
        FailedExact(cfg, st, who, reports);
      } else if what == 1 {
        SucceededExact(cfg, st, who, reports);
      } else if what == 2 {
        AcquiringCount(st.phase, who);
      } else if what == 10 {
        assert Acquiring !in EnterStandby(cfg, st).phase;
      }
    case Manage(who, reports) =>
      ManagerExact(cfg, st, who, reports, |cfg.bands|);
    case Prioritisation(visible) =>
  }

  lemma {:induction false} RunExact(cfg: Config, st: State, es: seq<Event>)
    requires Sized(cfg, st) && AllPossible(cfg, es) && WellBehavedRun(cfg, st, es) && Exact(st)
    ensures Exact(Run(cfg, st, es))
  {
    if es != [] {
      RunExact(cfg, st, es[..|es| - 1]);
      StepExact(cfg, Run(cfg, st, es[..|es| - 1]), es[|es| - 1]);
    }
  }

  lemma {:induction false} FirstAcquire(n: nat, limit: nat)
    requires limit <= n
    ensures multiset(seq(n, i => if i < limit then Acquiring else Idle))[Acquiring] == limit
  {
    var s := seq(n, i => if i < limit then Acquiring else Idle);
    if n > 0 {
      var m := n - 1;
      var t := seq(m, i => if i < limit then Acquiring else Idle);
      assert s == t + [s[m]];
      if limit <= m {
        FirstAcquire(m, limit);
      } else {
        FirstAcquire(m, m);
        assert t == seq(m, i => if i < m then Acquiring else Idle);
      }
    }
  }

  lemma {:induction false} AssignLeavesPhases(cfg: Config, st: State, order: seq<nat>, reports: seq<seq<Report>>)
    requires Sized(cfg, st) && forall i :: 0 <= i < |order| ==> order[i] < |cfg.bands|
    ensures AssignAll(cfg, st, order, reports).phase == st.phase
    ensures AssignAll(cfg, st, order, reports).count == st.count
    ensures AssignAll(cfg, st, order, reports).picks == st.picks
  {
    if order != [] {
      AssignLeavesPhases(cfg, st, order[..|order| - 1], reports);
    }
  }

  lemma InitialExact(cfg: Config, lists: map<Band, seq<Signal>>, reports: seq<seq<Report>>)
    requires GoodConfig(cfg)
    ensures Exact(Initial(cfg, lists, reports))
  {
    AssignLeavesPhases(cfg, Unassigned(cfg, lists), AssignOrder(cfg, |cfg.pinned|), reports);
    FirstAcquire(|cfg.bands|, cfg.limit);
  }

  /** Acquisition throttle: under well-behaved events the counter is the number of acquiring
      channels, so never more than the configured number acquire at once. */
  lemma AcquisitionThrottle(cfg: Config, lists: map<Band, seq<Signal>>, reports: seq<seq<Report>>, es: seq<Event>)
    requires GoodConfig(cfg) && GoodLists(lists) && AllPossible(cfg, es)
    requires WellBehavedRun(cfg, Initial(cfg, lists, reports), es)
    ensures var st := Run(cfg, Initial(cfg, lists, reports), es);
            st.count == multiset(st.phase)[Acquiring] <= cfg.limit
  {
    InitialExact(cfg, lists, reports);
    RunExact(cfg, Initial(cfg, lists, reports), es);
    NoSatelliteLost(cfg, lists, reports, es);
  }

  // ---------------------------------------------------------------- exclusive tracking

  /** A tracked signal is absent from its list, and no other busy channel has it. */
  ghost predicate TracksExclusively(st: State)
    requires |st.phase| == |st.signal|
  {
    forall c :: 0 <= c < |st.phase| && st.phase[c].Tracking? ==>
      && st.signal[c] !in ListOf(st.lists, st.signal[c].band)
      && forall d :: 0 <= d < |st.phase| && d != c && !st.phase[d].Idle? ==> st.signal[d] != st.signal[c]
  }

  ghost predicate Exclusive(cfg: Config, st: State) {
    Inv(cfg, st) && Exact(st) && TracksExclusively(st)
  }

  /** No channel tracks `s`. */
  ghost predicate Untracked(st: State, s: Signal)
    requires |st.phase| == |st.signal|
  {
    forall c :: 0 <= c < |st.phase| && st.phase[c].Tracking? ==> st.signal[c] != s
  }

  lemma ListedIsUntracked(cfg: Config, st: State, s: Signal)
    requires Exclusive(cfg, st) && s in ListOf(st.lists, s.band)
    ensures Untracked(st, s)
  {
  }

  lemma PushUntracked(cfg: Config, st: State, s: Signal)
    requires Exclusive(cfg, st) && Untracked(st, s)
    ensures Exclusive(cfg, PushBack(st, s))
  {
    PushBackKeeps(st, s);
  }

  lemma TakeExclusive(cfg: Config, st: State, c: nat, s: Signal, rest: seq<Signal>)
    requires Exclusive(cfg, st) && c < |cfg.bands| && cfg.pinned[c] == 0 && st.phase[c].Idle?
    requires s.band == cfg.bands[c] && TookOne(ListOf(st.lists, s.band), s.band, true, s, rest)
    ensures Exclusive(cfg, Take(st, c, s, rest)) && Untracked(Take(st, c, s, rest), s)
  {
    ListedIsUntracked(cfg, st, s);
    TakeKeeps(cfg, st, c, s, rest);
    var t := Take(st, c, s, rest);
    assert forall b: Band :: ListOf(t.lists, b) == if b == s.band then rest else ListOf(st.lists, b);
  }

  lemma VisitExclusive(cfg: Config, st: State, c: nat, reports: seq<Report>)
    requires Unpinned(cfg) && Exclusive(cfg, st) && c < |cfg.bands|
    ensures Exclusive(cfg, Visit(cfg, st, c, reports))
  {
    VisitKeeps(cfg, st, c, reports, {}, {});
    VisitExact(cfg, st, c, reports);
    if st.count < cfg.limit && st.phase[c].Idle? {
      var b := st.signal[c].band;
      SearchTakesOne(cfg, ListOf(st.lists, b), b, true, reports);
      match SearchNext(cfg, ListOf(st.lists, b), b, true, reports)
      case Underflow =>
      case Hit(s, rest, assisted) =>
        var t := Take(st, c, s, rest);
        TakeExclusive(cfg, st, c, s, rest);
        PushUntracked(cfg, t, s);
        StartTracksExclusively(t, c);
    }
  }

  lemma StartTracksExclusively(t: State, c: nat)
    requires c < |t.phase| == |t.signal| && TracksExclusively(t) && !t.phase[c].Tracking? && Untracked(t, t.signal[c])
    ensures TracksExclusively(StartAcquisition(t, c))
  {
  }

  lemma {:induction false} ManagerExclusive(cfg: Config, st: State, who: nat, reports: seq<seq<Report>>, i: nat)
    requires Unpinned(cfg) && Exclusive(cfg, st) && (i > 0 ==> |cfg.bands| > 0)
    ensures Exclusive(cfg, ManagerAfter(cfg, st, who, reports, i))
  {
    if i > 0 {
      ManagerExclusive(cfg, st, who, reports, i - 1);
      VisitExclusive(cfg, ManagerAfter(cfg, st, who, reports, i - 1), Visited(|cfg.bands|, who, i - 1),
                     ReportsAt(reports, i - 1));
    }
  }

  lemma FreedExclusive(cfg: Config, st: State, who: nat) returns (freed: State)
    requires Exclusive(cfg, st) && who < |cfg.bands| && st.phase[who].Acquiring?
    ensures freed == st.(phase := st.phase[who := Idle], count := Decrement(st.count))
    ensures Exclusive(cfg, freed) && Untracked(freed, st.signal[who])
  {
    freed := FreeChannel(cfg, st, who, {});
    AcquiringCount(st.phase, who);
  }

  lemma UntrackedStays(st: State, r: State, s: Signal)
    requires Undisturbed(st, r) && Untracked(st, s)
    ensures Untracked(r, s)
  {
  }

  lemma FailedExclusive(cfg: Config, st: State, who: nat, reports: seq<seq<Report>>)
    requires Unpinned(cfg) && Exclusive(cfg, st) && who < |cfg.bands| && st.phase[who].Acquiring?
    ensures Exclusive(cfg, AcquisitionFailed(cfg, st, who, reports))
  {
    var gs := st.signal[who];
    var freed := FreedExclusive(cfg, st, who);
    var managed := Manager(cfg, freed, who, reports);
    ManagerExclusive(cfg, freed, who, reports, |cfg.bands|);
    ManagerUndisturbed(cfg, freed, who, reports, |cfg.bands|);
    UntrackedStays(freed, managed, gs);
    PushUntracked(cfg, managed, gs);
  }

  /** The signal of channel `who` is no other busy channel's. */
  ghost predicate Apart(st: State, who: nat)
    requires who < |st.phase| == |st.signal|
  {
    forall d :: 0 <= d < |st.phase| && d != who && !st.phase[d].Idle? ==> st.signal[d] != st.signal[who]
  }

  /** The one step that can break exclusivity: the signal acquired must be no other channel's. */
  lemma SucceededExclusive(cfg: Config, st: State, who: nat, reports: seq<seq<Report>>)
    requires Unpinned(cfg) && Exclusive(cfg, st) && who < |cfg.bands| && st.phase[who].Acquiring? && Apart(st, who)
    ensures Exclusive(cfg, AcquisitionSucceeded(cfg, st, who, reports))
  {
    var tracking := TrackChannel(cfg, st, who, {});
    RemoveKeeps(st, st.signal[who]);
    AcquiringCount(st.phase, who);
    assert Exclusive(cfg, tracking);
    ManagerExclusive(cfg, tracking, who, reports, |cfg.bands|);
  }

  lemma ReacquireExclusive(cfg: Config, st: State, who: nat)
    requires Exclusive(cfg, st) && who < |cfg.bands| && st.phase[who].Tracking? && st.count < cfg.limit
    ensures Exclusive(cfg, StartAcquisition(st, who))
  {
    AcquiringCount(st.phase, who);
  }

  lemma GiveUpExclusive(cfg: Config, st: State, who: nat)
    requires Exclusive(cfg, st) && who < |cfg.bands| && st.phase[who].Tracking?
    ensures Exclusive(cfg, st.(phase := st.phase[who := Idle]))
    ensures Untracked(st.(phase := st.phase[who := Idle]), st.signal[who])
  {
    AcquiringCount(st.phase, who);
  }

  lemma LostExclusive(cfg: Config, st: State, who: nat)
    requires Exclusive(cfg, st) && who < |cfg.bands| && st.phase[who].Tracking?
    ensures Exclusive(cfg, TrackingLost(cfg, st, who))
  {
    if st.count < cfg.limit {
      ReacquireExclusive(cfg, st, who);
    } else {
      GiveUpExclusive(cfg, st, who);
      PushUntracked(cfg, st.(phase := st.phase[who := Idle]), st.signal[who]);
    }
  }

  lemma StepExclusive(cfg: Config, st: State, e: Event)
    requires Unpinned(cfg) && Exclusive(cfg, st) && Possible(cfg, e) && WellBehaved(cfg, st, e)
    requires e.Action? && e.what == 1 ==> Apart(st, e.who)
    ensures Exclusive(cfg, Step(cfg, st, e))
  {
    match e
    case Action(who, what, reports) =>
      if what == 0 {
        FailedExclusive(cfg, st, who, reports);
      } else if what == 1 {
        SucceededExclusive(cfg, st, who, reports);
      } else if what == 2 {
        LostExclusive(cfg, st, who);
      } else if what == 10 {
        StepKeeps(cfg, st, e, {});
        StepExact(cfg, st, e);
      }
    case Manage(who, reports) =>
      ManagerExclusive(cfg, st, who, reports, |cfg.bands|);
    case Prioritisation(visible) =>
      PrioritiseKeeps(cfg, st, visible, {});
      SameMembers(st, visible);
  }

  lemma SameMembers(st: State, visible: seq<Satellite>)
    requires GoodLists(st.lists)
    ensures forall b, x :: x in ListOf(Prioritise(st, visible).lists, b) <==> x in ListOf(st.lists, b)
  {
    forall b ensures forall x :: x in ListOf(Prioritise(st, visible).lists, b) <==> x in ListOf(st.lists, b) {
      if b in st.lists {
        PrioritiseListKeeps(ListOf(st.lists, b), b, visible);
      }
    }
  }

  lemma InitialExclusive(cfg: Config, lists: map<Band, seq<Signal>>, reports: seq<seq<Report>>)
    requires GoodConfig(cfg) && GoodLists(lists)
    ensures Exclusive(cfg, Initial(cfg, lists, reports))
  {
    InitialKeeps(cfg, lists, reports, {});
    InitialExact(cfg, lists, reports);
    AssignLeavesPhases(cfg, Unassigned(cfg, lists), AssignOrder(cfg, |cfg.pinned|), reports);
  }
}
