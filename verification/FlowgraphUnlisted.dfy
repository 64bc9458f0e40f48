/** Channels that only work on signals taken from the lists never share one: the signal of a busy
    channel is then in no list and on no other busy channel.  The initial assignment is what
    breaks this, because it leaves the assigned signals in the lists. */
module FlowgraphUnlisted {
  import opened Signals
  import opened FlowgraphModel
  import opened FlowgraphSafety
  import opened FlowgraphExclusive

  /** The signal of channel `c` is in no list and on no other busy channel. */
  ghost predicate Sole(st: State, c: nat)
    requires c < |st.phase| == |st.signal|
  {
    st.signal[c] !in ListOf(st.lists, st.signal[c].band) && Apart(st, c)
  }

  /** Every busy channel of a band in `bs` has its signal to itself. */
  ghost predicate Unlisted(st: State, bs: set<Band>)
    requires |st.phase| == |st.signal|
  {
    forall c :: 0 <= c < |st.phase| && st.signal[c].band in bs && !st.phase[c].Idle? ==> Sole(st, c)
  }

  /** `s` is in no list and on no busy channel. */
  ghost predicate Gone(st: State, s: Signal)
    requires |st.phase| == |st.signal|
  {
    s !in ListOf(st.lists, s.band) && !Held(st, s)
  }

  // ---------------------------------------------------------------- the manager

  lemma StartUnlisted(cfg: Config, st: State, c: nat, s: Signal, rest: seq<Signal>, bs: set<Band>)
    requires Inv(cfg, st) && Unlisted(st, bs) && c < |cfg.bands| && st.phase[c].Idle?
    requires s.band == cfg.bands[c] && TookOne(ListOf(st.lists, s.band), s.band, true, s, rest)
    ensures Unlisted(StartAcquisition(Take(st, c, s, rest), c), bs)
  {
    var t := Take(st, c, s, rest);
    assert forall b: Band :: ListOf(t.lists, b) == if b == s.band then rest else ListOf(st.lists, b);
    forall d | 0 <= d < |st.phase| && StartAcquisition(t, c).signal[d].band in bs && !StartAcquisition(t, c).phase[d].Idle?
      ensures Sole(StartAcquisition(t, c), d)
    {
      if d != c {
        assert Sole(st, d);
      }
    }
  }

  lemma RefuseUnlisted(cfg: Config, st: State, c: nat, s: Signal, rest: seq<Signal>, bs: set<Band>)
    requires Inv(cfg, st) && Unlisted(st, bs) && c < |cfg.bands| && cfg.pinned[c] == 0 && st.phase[c].Idle?
    requires s.band == cfg.bands[c] && TookOne(ListOf(st.lists, s.band), s.band, true, s, rest)
    ensures Unlisted(PushBack(Take(st, c, s, rest), s), bs)
  {
    var t := Take(st, c, s, rest);
    TakeKeeps(cfg, st, c, s, rest);
    PushBackKeeps(t, s);
    assert forall b: Band :: ListOf(t.lists, b) == if b == s.band then rest else ListOf(st.lists, b);
    var r := PushBack(t, s);
    assert forall b, x :: x in ListOf(r.lists, b) <==> x in ListOf(st.lists, b);
    forall d | 0 <= d < |st.phase| && r.signal[d].band in bs && !r.phase[d].Idle? ensures Sole(r, d) {
      assert Sole(st, d);
    }
  }

  lemma VisitUnlisted(cfg: Config, st: State, c: nat, reports: seq<Report>, bs: set<Band>)
    requires Unpinned(cfg) && Inv(cfg, st) && Unlisted(st, bs) && c < |cfg.bands|
    ensures Unlisted(Visit(cfg, st, c, reports), bs)
  {
    if st.count < cfg.limit && st.phase[c].Idle? {
      var b := st.signal[c].band;
      SearchTakesOne(cfg, ListOf(st.lists, b), b, true, reports);
      match SearchNext(cfg, ListOf(st.lists, b), b, true, reports)
      case Underflow =>
        var r := st.(underflow := true);
        assert forall d :: 0 <= d < |st.phase| && Sole(st, d) ==> Sole(r, d);
      case Hit(s, rest, assisted) =>
        StartUnlisted(cfg, st, c, s, rest, bs);
        RefuseUnlisted(cfg, st, c, s, rest, bs);
    }
  }

  lemma {:induction false} ManagerUnlisted(cfg: Config, st: State, who: nat, reports: seq<seq<Report>>, i: nat, bs: set<Band>)
    requires Unpinned(cfg) && Inv(cfg, st) && Unlisted(st, bs) && (i > 0 ==> |cfg.bands| > 0)
    ensures Unlisted(ManagerAfter(cfg, st, who, reports, i), bs)
  {
    if i > 0 {
      ManagerUnlisted(cfg, st, who, reports, i - 1, bs);
      ManagerInv(cfg, st, who, reports, i - 1);
      VisitUnlisted(cfg, ManagerAfter(cfg, st, who, reports, i - 1), Visited(|cfg.bands|, who, i - 1),
                    ReportsAt(reports, i - 1), bs);
    }
  }

  /** A signal that is gone stays gone: searches only hand out listed signals. */
  lemma VisitGone(cfg: Config, st: State, c: nat, reports: seq<Report>, x: Signal)
    requires Unpinned(cfg) && Inv(cfg, st) && Gone(st, x) && c < |cfg.bands|
    ensures Gone(Visit(cfg, st, c, reports), x)
  {
    if st.count < cfg.limit && st.phase[c].Idle? {
      var b := st.signal[c].band;
      SearchTakesOne(cfg, ListOf(st.lists, b), b, true, reports);
      match SearchNext(cfg, ListOf(st.lists, b), b, true, reports)
      case Underflow =>
      case Hit(s, rest, assisted) =>
        var t := Take(st, c, s, rest);
        TakeKeeps(cfg, st, c, s, rest);
        PushBackKeeps(t, s);
    }
  }

  lemma {:induction false} ManagerGone(cfg: Config, st: State, who: nat, reports: seq<seq<Report>>, i: nat, x: Signal)
    requires Unpinned(cfg) && Inv(cfg, st) && Gone(st, x) && (i > 0 ==> |cfg.bands| > 0)
    ensures Gone(ManagerAfter(cfg, st, who, reports, i), x)
  {
    if i > 0 {
      ManagerGone(cfg, st, who, reports, i - 1, x);
      ManagerInv(cfg, st, who, reports, i - 1);
      VisitGone(cfg, ManagerAfter(cfg, st, who, reports, i - 1), Visited(|cfg.bands|, who, i - 1),
                ReportsAt(reports, i - 1), x);
    }
  }

  // ---------------------------------------------------------------- actions

  /** A signal that may be pushed back: no channel has it, or its band does not matter. */
  ghost predicate Returnable(st: State, bs: set<Band>, s: Signal)
    requires |st.phase| == |st.signal|
  {
    Gone(st, s) || s.band !in bs
  }

  lemma PushUnlisted(cfg: Config, st: State, bs: set<Band>, s: Signal)
    requires Inv(cfg, st) && Unlisted(st, bs) && Returnable(st, bs, s)
    ensures Unlisted(PushBack(st, s), bs)
  {
    PushBackKeeps(st, s);
    var r := PushBack(st, s);
    forall d | 0 <= d < |st.phase| && r.signal[d].band in bs && !r.phase[d].Idle? ensures Sole(r, d) {
      assert Sole(st, d);
      if Gone(st, s) {
        assert st.signal[d] != s;
      }
    }
  }

  lemma StoppedUnlisted(cfg: Config, st: State, r: State, who: nat, bs: set<Band>)
    requires Inv(cfg, st) && Unlisted(st, bs) && who < |cfg.bands| && !st.phase[who].Idle?
    requires r.phase == st.phase[who := Idle] && r.signal == st.signal && r.lists == st.lists
    ensures Unlisted(r, bs) && Returnable(r, bs, st.signal[who])
  {
    forall d | 0 <= d < |st.phase| && r.signal[d].band in bs && !r.phase[d].Idle? ensures Sole(r, d) {
      assert Sole(st, d);
    }
    if st.signal[who].band in bs {
      assert Sole(st, who);
      assert Gone(r, st.signal[who]);
    }
  }

  lemma FailedUnlisted(cfg: Config, st: State, who: nat, reports: seq<seq<Report>>, bs: set<Band>)
    requires Unpinned(cfg) && Inv(cfg, st) && Unlisted(st, bs)
    requires who < |cfg.bands| && st.phase[who].Acquiring?
    ensures Unlisted(AcquisitionFailed(cfg, st, who, reports), bs)
  {
    var gs := st.signal[who];
    var freed := FreeChannel(cfg, st, who, {});
    var managed := Manager(cfg, freed, who, reports);
    StoppedUnlisted(cfg, st, freed, who, bs);
    ManagerUnlisted(cfg, freed, who, reports, |cfg.bands|, bs);
    ManagerInv(cfg, freed, who, reports, |cfg.bands|);
    if Gone(freed, gs) {
      ManagerGone(cfg, freed, who, reports, |cfg.bands|, gs);
    }
    PushUnlisted(cfg, managed, bs, gs);
  }

  lemma SucceededUnlisted(cfg: Config, st: State, who: nat, reports: seq<seq<Report>>, bs: set<Band>)
    requires Unpinned(cfg) && Inv(cfg, st) && Unlisted(st, bs)
    requires who < |cfg.bands| && st.phase[who].Acquiring?
    ensures Unlisted(AcquisitionSucceeded(cfg, st, who, reports), bs)
  {
    RemoveKeeps(st, st.signal[who]);
    var tracking := TrackChannel(cfg, st, who, {});
    forall d | 0 <= d < |st.phase| && tracking.signal[d].band in bs && !tracking.phase[d].Idle? ensures Sole(tracking, d) {
      assert Sole(st, d);
    }
    ManagerUnlisted(cfg, tracking, who, reports, |cfg.bands|, bs);
  }

  lemma LostUnlisted(cfg: Config, st: State, who: nat, bs: set<Band>)
    requires Unpinned(cfg) && Inv(cfg, st) && Unlisted(st, bs)
    requires who < |cfg.bands| && st.phase[who].Tracking?
    ensures Unlisted(TrackingLost(cfg, st, who), bs)
  {
    if st.count < cfg.limit {
      var r := StartAcquisition(st, who);
      forall d | 0 <= d < |st.phase| && r.signal[d].band in bs && !r.phase[d].Idle? ensures Sole(r, d) {
        assert Sole(st, d);
      }
    } else {
      var idle := st.(phase := st.phase[who := Idle]);
      StoppedUnlisted(cfg, st, idle, who, bs);
      PushUnlisted(cfg, idle, bs, st.signal[who]);
    }
  }

  lemma PrioritiseUnlisted(st: State, visible: seq<Satellite>, bs: set<Band>)
    requires |st.phase| == |st.signal| && GoodLists(st.lists) && Unlisted(st, bs)
    ensures Unlisted(Prioritise(st, visible), bs)
  {
    SameMembers(st, visible);
    var r := Prioritise(st, visible);
    forall d | 0 <= d < |st.phase| && r.signal[d].band in bs && !r.phase[d].Idle? ensures Sole(r, d) {
      assert Sole(st, d);
    }
  }

  /** Every well-behaved step keeps the busy channels of the bands unlisted. */
  lemma StepUnlisted(cfg: Config, st: State, e: Event, bs: set<Band>)
    requires Unpinned(cfg) && Inv(cfg, st) && Unlisted(st, bs)
    requires Possible(cfg, e) && WellBehaved(cfg, st, e)
    ensures Unlisted(Step(cfg, st, e), bs)
  {
    match e
    case Action(who, what, reports) =>
      if what == 0 {
        FailedUnlisted(cfg, st, who, reports, bs);
      } else if what == 1 {
        SucceededUnlisted(cfg, st, who, reports, bs);
      } else if what == 2 {
        LostUnlisted(cfg, st, who, bs);
      }
    case Manage(who, reports) =>
      ManagerUnlisted(cfg, st, who, reports, |cfg.bands|, bs);
    case Prioritisation(visible) =>
      PrioritiseUnlisted(st, visible, bs);
  }
}
