/** How far the supply guarantee reaches.  On unpinned channels that start without assistance,
    having strictly more satellites than channels is not only sufficient for searches never to
    meet an empty list but also necessary, for every number of channels in acquisition. */
module FlowgraphTight {
  import opened Collections
  import opened Signals
  import opened FlowgraphModel
  import opened FlowgraphSafety
  import opened FlowgraphSupply
  import opened FlowgraphExclusive
  import opened FlowgraphUnlisted
  import opened FlowgraphFairness

  /** No channel is pinned, and every channel starts whatever signal it finds. */
  predicate Willing(cfg: Config) {
    Unpinned(cfg) && forall c :: 0 <= c < |cfg.bands| ==> !Reluctant(cfg, cfg.bands[c])
  }

  // ---------------------------------------------------------------- signals come from the lists

  /** Every waiting signal, and every signal a channel carries, was configured. */
  ghost predicate Drawn(cfg: Config, lists: map<Band, seq<Signal>>, st: State) {
    && Inv(cfg, st)
    && (forall b, x :: x in ListOf(st.lists, b) ==> x in ListOf(lists, b))
    && (forall c :: 0 <= c < |cfg.bands| ==> st.signal[c] in ListOf(lists, cfg.bands[c]))
  }

  lemma VisitDrawn(cfg: Config, lists: map<Band, seq<Signal>>, st: State, c: nat, reports: seq<Report>)
    requires Drawn(cfg, lists, st) && c < |cfg.bands|
    ensures Drawn(cfg, lists, Visit(cfg, st, c, reports))
  {
    VisitKeeps(cfg, st, c, reports, {}, {});
    if st.count < cfg.limit && st.phase[c].Idle? && cfg.pinned[c] == 0 {
      var b := st.signal[c].band;
      SearchTakesOne(cfg, ListOf(st.lists, b), b, true, reports);
      match SearchNext(cfg, ListOf(st.lists, b), b, true, reports)
      case Underflow =>
      case Hit(s, rest, assisted) =>
        TakeKeeps(cfg, st, c, s, rest);
        var t := Take(st, c, s, rest);
        assert forall d :: ListOf(t.lists, d) == if d == b then rest else ListOf(st.lists, d);
        PushBackKeeps(t, s);
    }
  }

  lemma {:induction false} ManagerDrawn(cfg: Config, lists: map<Band, seq<Signal>>, st: State, who: nat, reports: seq<seq<Report>>, i: nat)
    requires Drawn(cfg, lists, st) && (i > 0 ==> |cfg.bands| > 0)
    ensures Drawn(cfg, lists, ManagerAfter(cfg, st, who, reports, i))
  {
    if i > 0 {
      ManagerDrawn(cfg, lists, st, who, reports, i - 1);
      VisitDrawn(cfg, lists, ManagerAfter(cfg, st, who, reports, i - 1), Visited(|cfg.bands|, who, i - 1), ReportsAt(reports, i - 1));
    }
  }

  lemma SucceededDrawn(cfg: Config, lists: map<Band, seq<Signal>>, st: State, who: nat)
    requires Drawn(cfg, lists, st) && who < |cfg.bands|
    ensures Drawn(cfg, lists, AcquisitionSucceeded(cfg, st, who, []))
  {
    RemoveKeeps(st, st.signal[who]);
    var tracking := TrackChannel(cfg, st, who, {});
    assert Drawn(cfg, lists, tracking);
    ManagerDrawn(cfg, lists, tracking, who, [], |cfg.bands|);
  }

  /** After a complete initialisation every channel carries a configured signal. */
  ghost predicate DrawnSoFar(cfg: Config, lists: map<Band, seq<Signal>>, st: State, done: seq<nat>) {
    && Assigned(cfg, st, {}, done)
    && (forall b, x :: x in ListOf(st.lists, b) ==> x in ListOf(lists, b))
    && (!st.underflow ==> forall c :: 0 <= c < |cfg.bands| && c in done ==> st.signal[c] in ListOf(lists, cfg.bands[c]))
  }

  lemma AssignDrawn(cfg: Config, lists: map<Band, seq<Signal>>, st: State, c: nat, reports: seq<Report>, done: seq<nat>)
    requires DrawnSoFar(cfg, lists, st, done) && c < |cfg.bands| && cfg.pinned[c] == 0
    ensures DrawnSoFar(cfg, lists, Assign(cfg, st, c, reports), done + [c])
  {
    var b := st.signal[c].band;
    AssignKeeps(cfg, st, c, reports, {}, done);
    SearchTakesOne(cfg, ListOf(st.lists, b), b, false, reports);
    match SearchNext(cfg, ListOf(st.lists, b), b, false, reports)
    case Underflow =>
    case Hit(s, rest, _) =>
      var r := Assign(cfg, st, c, reports);
      assert forall d :: ListOf(r.lists, d) == if d == b then rest else ListOf(st.lists, d);
  }

  lemma {:induction false} AssignAllDrawn(cfg: Config, lists: map<Band, seq<Signal>>, st: State, order: seq<nat>, reports: seq<seq<Report>>)
    requires Unpinned(cfg) && |cfg.pinned| == |cfg.bands| && DrawnSoFar(cfg, lists, st, [])
    requires forall i :: 0 <= i < |order| ==> order[i] < |cfg.bands|
    ensures DrawnSoFar(cfg, lists, AssignAll(cfg, st, order, reports), order)
  {
    if order != [] {
      var n := |order| - 1;
      var done := order[..n];
      AssignAllDrawn(cfg, lists, st, done, reports);
      AssignDrawn(cfg, lists, AssignAll(cfg, st, done, reports), order[n], ReportsAt(reports, n), done);
      assert done + [order[n]] == order;
    }
  }

  lemma InitialDrawn(cfg: Config, lists: map<Band, seq<Signal>>, reports: seq<seq<Report>>)
    requires GoodConfig(cfg) && GoodLists(lists) && Unpinned(cfg) && !Initial(cfg, lists, reports).underflow
    ensures Drawn(cfg, lists, Initial(cfg, lists, reports))
  {
    AssignAllDrawn(cfg, lists, Unassigned(cfg, lists), AssignOrder(cfg, |cfg.pinned|), reports);
    AssignOrderComplete(cfg, |cfg.pinned|);
    InitialKeeps(cfg, lists, reports, {});
  }

  // ---------------------------------------------------------------- driving every channel to tracking

  ghost function Untracking(st: State): set<nat> {
    set c: nat | c < |st.phase| && !st.phase[c].Tracking?
  }

  lemma TracksIfNot(st: State, c: nat)
    requires c < |st.phase| && c !in Untracking(st)
    ensures st.phase[c].Tracking?
  {
    assert c in Untracking(st) <==> !st.phase[c].Tracking?;
  }

  /** One channel acquires unless all track. */
  ghost predicate Busy(st: State) {
    Acquiring in st.phase || Untracking(st) == {}
  }

  ghost function AllBands(cfg: Config): set<Band> {
    set b | b in cfg.bands
  }

  /** Every busy channel has a configured signal, and has it to itself. */
  ghost predicate Clean(cfg: Config, lists: map<Band, seq<Signal>>, st: State) {
    Drawn(cfg, lists, st) && Exact(st) && Unlisted(st, AllBands(cfg))
  }

  lemma ManagerBusy(cfg: Config, st: State, who: nat)
    requires Willing(cfg) && cfg.limit > 0 && Inv(cfg, st) && Exact(st)
    ensures var r := Manager(cfg, st, who, []); r.underflow || Busy(r)
  {
    var r := Manager(cfg, st, who, []);
    ManagerExact(cfg, st, who, [], |cfg.bands|);
    if !r.underflow && r.count < cfg.limit && Acquiring !in r.phase {
      forall c | 0 <= c < |cfg.bands| ensures r.phase[c].Tracking? {
        OnlyReluctantStayIdle(cfg, st, who, [], c);
        assert r.phase[c] in r.phase;
      }
      assert Untracking(r) == {};
    } else if !r.underflow && r.count >= cfg.limit {
      assert Acquiring in multiset(r.phase);
    }
  }

  /** A success keeps the state clean and leaves fewer channels to drive. */
  lemma SucceededClean(cfg: Config, lists: map<Band, seq<Signal>>, st: State, who: nat)
    requires Willing(cfg) && cfg.limit > 0 && Clean(cfg, lists, st) && who < |cfg.bands| && st.phase[who].Acquiring?
    ensures var r := AcquisitionSucceeded(cfg, st, who, []);
            Clean(cfg, lists, r) && Untracking(r) < Untracking(st) && (r.underflow || Busy(r))
  {
    var tracking := TrackChannel(cfg, st, who, {});
    var r := Manager(cfg, tracking, who, []);
    AcquiringCount(st.phase, who);
    ManagerUndisturbed(cfg, tracking, who, [], |cfg.bands|);
    ManagerBusy(cfg, tracking, who);
    SucceededDrawn(cfg, lists, st, who);
    SucceededExact(cfg, st, who, []);
    SucceededUnlisted(cfg, st, who, [], AllBands(cfg));
    FewerUntracking(st, tracking, r, who);
  }

  lemma FewerUntracking(st: State, tracking: State, r: State, who: nat)
    requires who < |st.phase| && !st.phase[who].Tracking? && tracking.phase == st.phase[who := Tracking]
    requires Undisturbed(tracking, r)
    ensures Untracking(r) < Untracking(st)
  {
    assert who in Untracking(st) && who !in Untracking(r);
    assert Untracking(r) <= Untracking(st);
  }

  /** Reporting success for an acquiring channel again and again ends in an underflow or with
      every channel tracking. */
  lemma DriveToTracking(cfg: Config, lists: map<Band, seq<Signal>>, st: State, es: seq<Event>) returns (more: seq<Event>)
    requires Willing(cfg) && cfg.limit > 0 && Sized(cfg, st) && AllPossible(cfg, es) && WellBehavedRun(cfg, st, es)
    requires var s := Run(cfg, st, es); Clean(cfg, lists, s) && (s.underflow || Busy(s))
    ensures AllPossible(cfg, more) && WellBehavedRun(cfg, st, more)
    ensures var r := Run(cfg, st, more); r.underflow || (Clean(cfg, lists, r) && Untracking(r) == {})
    decreases |Untracking(Run(cfg, st, es))|
  {
    var s := Run(cfg, st, es);
    if s.underflow || Untracking(s) == {} {
      more := es;
    } else {
      var who :| 0 <= who < |s.phase| && s.phase[who].Acquiring?;
      var next := WellBehavedSnoc(cfg, st, es, Action(who, 1, []));
      SucceededClean(cfg, lists, s, who);
      ProperSubsetSize(Untracking(AcquisitionSucceeded(cfg, s, who, [])), Untracking(s));
      more := DriveToTracking(cfg, lists, st, next);
    }
  }

  lemma ProperSubsetSize(a: set<nat>, b: set<nat>)
    requires a < b
    ensures |a| < |b|
  {
    var x :| x in b && x !in a;
    SubsetSize(a, b - {x});
  }

  // ---------------------------------------------------------------- the list is empty then

  lemma {:induction false} DistinctSignals(signal: seq<Signal>, cs: set<nat>)
    requires forall c :: c in cs ==> c < |signal|
    requires forall c, d :: c in cs && d in cs && c != d ==> signal[c] != signal[d]
    ensures |SignalsOf(signal, cs)| == |cs|
  {
    if cs != {} {
      var c :| c in cs;
      DistinctSignals(signal, cs - {c});
      assert SignalsOf(signal, cs) == SignalsOf(signal, cs - {c}) + {signal[c]};
    }
  }

  lemma AllTrack(st: State)
    requires Untracking(st) == {}
    ensures forall c :: 0 <= c < |st.phase| ==> st.phase[c].Tracking?
  {
    forall c: nat | c < |st.phase| ensures st.phase[c].Tracking? {
      TracksIfNot(st, c);
    }
  }

  /** Channels of one band that all track carry distinct configured signals that do not wait. */
  lemma TrackedSignals(cfg: Config, lists: map<Band, seq<Signal>>, st: State, b: Band, tracked: set<Signal>)
    requires Clean(cfg, lists, st) && Untracking(st) == {}
    requires tracked == SignalsOf(st.signal, Channels(cfg, b))
    ensures |tracked| == |Channels(cfg, b)|
    ensures forall s :: s in tracked ==> s in ListOf(lists, b) && s !in ListOf(st.lists, b)
  {
    AllTrack(st);
    forall c | c in Channels(cfg, b) ensures Sole(st, c) {
      assert cfg.bands[c] in AllBands(cfg);
    }
    DistinctSignals(st.signal, Channels(cfg, b));
  }

  lemma NoneWaiting(all: set<Signal>, tracked: set<Signal>, waiting: set<Signal>)
    requires tracked <= all && waiting <= all && tracked !! waiting && |all| <= |tracked|
    ensures waiting == {}
  {
    SubsetSize(tracked + waiting, all);
  }

  /** When all channels track and the band has no more satellites than channels, its list is empty. */
  lemma AllTrackedEmpties(cfg: Config, lists: map<Band, seq<Signal>>, st: State, b: Band)
    requires Clean(cfg, lists, st) && GoodLists(lists) && Untracking(st) == {}
    requires |ListOf(lists, b)| <= |Channels(cfg, b)|
    ensures ListOf(st.lists, b) == []
  {
    var tracked := SignalsOf(st.signal, Channels(cfg, b));
    TrackedSignals(cfg, lists, st, b, tracked);
    DistinctSize(ListOf(lists, b));
    var l := ListOf(st.lists, b);
    var waiting := set s | s in l;
    NoneWaiting((set s | s in ListOf(lists, b)), tracked, waiting);
    DistinctSize(l);
  }

  /** Losing a tracked satellite and then failing to reacquire it searches the empty list. */
  lemma LoseAndFailUnderflows(cfg: Config, st: State, c: nat)
    requires Inv(cfg, st) && Exact(st) && Unpinned(cfg) && cfg.limit > 0 && Untracking(st) == {} && c < |cfg.bands|
    requires ListOf(st.lists, cfg.bands[c]) == []
    ensures TrackingLost(cfg, st, c).phase[c].Acquiring?
    ensures AcquisitionFailed(cfg, TrackingLost(cfg, st, c), c, []).underflow
  {
    AllTrack(st);
    assert Acquiring !in multiset(st.phase);
    var lost := TrackingLost(cfg, st, c);
    LastIdleUnderflows(cfg, lost.(phase := lost.phase[c := Idle], count := Decrement(lost.count)), c);
  }

  /** The only idle channel searches its empty list. */
  lemma LastIdleUnderflows(cfg: Config, st: State, c: nat)
    requires Sized(cfg, st) && c < |cfg.bands| && st.count < cfg.limit && st.phase[c].Idle? && Starved(cfg, st, c)
    requires forall d :: 0 <= d < |cfg.bands| && d != c ==> !st.phase[d].Idle?
    ensures Manager(cfg, st, c, []).underflow
  {
    var i := VisitsEachChannelOnce(|cfg.bands|, c, c);
    QuietUntil(cfg, st, c, c, i);
    StarvedVisit(cfg, st, c, []);
    UnderflowStays(cfg, st, c, [], i + 1, |cfg.bands|);
  }

  lemma {:induction false} QuietUntil(cfg: Config, st: State, who: nat, c: nat, i: nat)
    requires Sized(cfg, st) && who < |cfg.bands| && i <= |cfg.bands|
    requires forall d :: 0 <= d < |cfg.bands| && d != c ==> !st.phase[d].Idle?
    requires forall j :: 0 <= j < i ==> Visited(|cfg.bands|, who, j) != c
    ensures ManagerAfter(cfg, st, who, [], i) == st
  {
    if i > 0 {
      QuietUntil(cfg, st, who, c, i - 1);
    }
  }

  /** Standby returns every signal, so that the searches after it start from complete lists. */
  lemma StandbyClean(cfg: Config, lists: map<Band, seq<Signal>>, st: State)
    requires Drawn(cfg, lists, st)
    ensures Clean(cfg, lists, EnterStandby(cfg, st))
  {
    StandbyDrawn(cfg, lists, st, |cfg.bands|);
    assert Acquiring !in EnterStandby(cfg, st).phase;
  }

  lemma {:induction false} StandbyDrawn(cfg: Config, lists: map<Band, seq<Signal>>, st: State, k: nat)
    requires Drawn(cfg, lists, st) && k <= |cfg.bands|
    ensures Drawn(cfg, lists, StandbyAfter(cfg, st, k))
  {
    StandbyKeeps(cfg, st, k, {});
    if k > 0 {
      StandbyDrawn(cfg, lists, st, k - 1);
      var before := StandbyAfter(cfg, st, k - 1);
      PushBackKeeps(before, before.signal[k - 1]);
    }
  }

  /** Restarting all channels after standby: clean, and busy unless a search underflowed. */
  lemma Restarted(cfg: Config, lists: map<Band, seq<Signal>>, st: State)
    requires Willing(cfg) && cfg.limit > 0 && Drawn(cfg, lists, st)
    ensures var r := Manager(cfg, EnterStandby(cfg, st), 0, []);
            Clean(cfg, lists, r) && (r.underflow || Busy(r))
  {
    var idle := EnterStandby(cfg, st);
    StandbyClean(cfg, lists, st);
    ManagerDrawn(cfg, lists, idle, 0, [], |cfg.bands|);
    ManagerExact(cfg, idle, 0, [], |cfg.bands|);
    ManagerUnlisted(cfg, idle, 0, [], |cfg.bands|, AllBands(cfg));
    ManagerBusy(cfg, idle, 0);
  }

  /** A band with no more satellites than channels has a well-behaved run that searches its empty
      list: restart from standby, let every channel track, then lose one and fail to reacquire it. */
  lemma ScarceBandUnderflows(cfg: Config, lists: map<Band, seq<Signal>>, reports: seq<seq<Report>>, b: Band) returns (es: seq<Event>)
    requires GoodConfig(cfg) && GoodLists(lists) && Willing(cfg) && cfg.limit > 0
    requires Channels(cfg, b) != {} && |ListOf(lists, b)| <= |Channels(cfg, b)|
    ensures AllPossible(cfg, es) && WellBehavedRun(cfg, Initial(cfg, lists, reports), es)
    ensures Run(cfg, Initial(cfg, lists, reports), es).underflow
  {
    var st := Initial(cfg, lists, reports);
    es := [];
    if !st.underflow {
      InitialDrawn(cfg, lists, reports);
      es := WellBehavedSnoc(cfg, st, es, Action(0, 10, []));
      es := WellBehavedSnoc(cfg, st, es, Manage(0, []));
      Restarted(cfg, lists, st);
      es := DriveToTracking(cfg, lists, st, es);
      var s := Run(cfg, st, es);
      if !s.underflow {
        var c :| c in Channels(cfg, b);
        AllTrackedEmpties(cfg, lists, s, b);
        LoseAndFailUnderflows(cfg, s, c);
        TracksIfNot(s, c);
        es := WellBehavedSnoc(cfg, st, es, Action(c, 2, []));
        es := WellBehavedSnoc(cfg, st, es, Action(c, 0, []));
      }
    }
  }

  /** The exact condition: on unpinned channels that start without assistance, with any number of
      them in acquisition, no well-behaved run searches an empty list if and only if every band
      with channels has strictly more satellites than channels. */
  lemma SupplyConditionIsExact(cfg: Config, lists: map<Band, seq<Signal>>, reports: seq<seq<Report>>)
    requires GoodConfig(cfg) && GoodLists(lists) && Willing(cfg) && cfg.limit > 0
    ensures MoreSatellitesThanChannels(cfg, lists) <==>
            forall es :: AllPossible(cfg, es) && WellBehavedRun(cfg, Initial(cfg, lists, reports), es)
              ==> !Run(cfg, Initial(cfg, lists, reports), es).underflow
  {
    if MoreSatellitesThanChannels(cfg, lists) {
      forall es | AllPossible(cfg, es) && WellBehavedRun(cfg, Initial(cfg, lists, reports), es)
        ensures !Run(cfg, Initial(cfg, lists, reports), es).underflow
      {
        SearchNeverUnderflows(cfg, lists, reports, es);
      }
    } else {
      var b :| Channels(cfg, b) != {} && |Channels(cfg, b)| >= |ListOf(lists, b)|;
      var es := ScarceBandUnderflows(cfg, lists, reports, b);
    }
  }
}
