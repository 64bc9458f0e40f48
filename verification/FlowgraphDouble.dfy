/** The other half of exclusive tracking: on channels that are not separate, some well-behaved run
    makes two channels work on one satellite while one of them tracks it.  All channels but one
    are driven into tracking; then another channel of its band retries until it is handed the
    signal that the first is still acquiring. */
module FlowgraphDouble {
  import opened Modular
  import opened Signals
  import opened FlowgraphModel
  import opened FlowgraphSafety
  import opened FlowgraphSupply
  import opened FlowgraphExclusive
  import opened FlowgraphFairness
  import opened FlowgraphShared
  import opened FlowgraphTight

  // ---------------------------------------------------------------- a signal that is acquired and listed

  /** Channel `c` is acquiring a signal that another channel can still take, or has taken. */
  ghost predicate Baited(st: State, c: nat)
    requires c < |st.phase| == |st.signal|
  {
    st.phase[c].Acquiring? && (st.signal[c] in ListOf(st.lists, st.signal[c].band) || !Apart(st, c))
  }

  /** If another busy channel has its signal too, the success of `c` ends exclusivity. */
  lemma SuccessDoubles(cfg: Config, st: State, c: nat)
    requires Sized(cfg, st) && c < |cfg.bands| && !Apart(st, c)
    ensures !TracksExclusively(AcquisitionSucceeded(cfg, st, c, []))
  {
    var tracking := RemoveSignal(st, st.signal[c]).(phase := st.phase[c := Tracking], count := Decrement(st.count));
    var r := Manager(cfg, tracking, c, []);
    ManagerUndisturbed(cfg, tracking, c, [], |cfg.bands|);
    var d :| 0 <= d < |st.phase| && d != c && !st.phase[d].Idle? && st.signal[d] == st.signal[c];
    assert r.signal[d] == r.signal[c] && !r.phase[d].Idle? && r.phase[c].Tracking?;
  }

  lemma StillDoubled(st: State, r: State, c: nat)
    requires c < |st.phase| && Undisturbed(st, r) && !st.phase[c].Idle? && !Apart(st, c)
    ensures !Apart(r, c)
  {
    var d :| 0 <= d < |st.phase| && d != c && !st.phase[d].Idle? && st.signal[d] == st.signal[c];
    assert r.signal[d] == r.signal[c] && !r.phase[d].Idle?;
  }

  lemma VisitBaited(cfg: Config, st: State, e: nat, reports: seq<Report>, c: nat)
    requires Unpinned(cfg) && Inv(cfg, st) && e < |cfg.bands| && c < |cfg.bands| && Baited(st, c)
    ensures Baited(Visit(cfg, st, e, reports), c)
  {
    var r := Visit(cfg, st, e, reports);
    VisitUndisturbed(cfg, st, e, reports);
    if !Apart(st, c) {
      StillDoubled(st, r, c);
    } else if st.count < cfg.limit && st.phase[e].Idle? {
      var b := st.signal[e].band;
      SearchTakesOne(cfg, ListOf(st.lists, b), b, true, reports);
      match SearchNext(cfg, ListOf(st.lists, b), b, true, reports)
      case Underflow =>
      case Hit(s, rest, assisted) =>
        var t := Take(st, e, s, rest);
        TakeKeeps(cfg, st, e, s, rest);
        PushBackKeeps(t, s);
        if s == st.signal[c] && Starts(cfg, b, assisted) {
          assert r.signal[e] == r.signal[c] && !r.phase[e].Idle?;
        }
    }
  }

  lemma {:induction false} ManagerBaited(cfg: Config, st: State, who: nat, reports: seq<seq<Report>>, i: nat, c: nat)
    requires Unpinned(cfg) && Inv(cfg, st) && c < |cfg.bands| && Baited(st, c)
    ensures Baited(ManagerAfter(cfg, st, who, reports, i), c)
  {
    if i > 0 {
      ManagerBaited(cfg, st, who, reports, i - 1, c);
      ManagerInv(cfg, st, who, reports, i - 1);
      VisitBaited(cfg, ManagerAfter(cfg, st, who, reports, i - 1), Visited(|cfg.bands|, who, i - 1),
                  ReportsAt(reports, i - 1), c);
    }
  }

  // ---------------------------------------------------------------- driving the other channels to tracking

  /** Below the limit only channels that need assistance are idle. */
  ghost predicate Resting(cfg: Config, st: State) {
    Sized(cfg, st) &&
    (st.count == cfg.limit || forall e :: 0 <= e < |cfg.bands| && st.phase[e].Idle? ==> Reluctant(cfg, cfg.bands[e]))
  }

  ghost predicate Hooked(cfg: Config, st: State, c: nat) {
    Inv(cfg, st) && Exact(st) && Resting(cfg, st) && c < |cfg.bands| && Baited(st, c)
  }

  lemma ManagerRests(cfg: Config, st: State, who: nat)
    requires Inv(cfg, st) && !Manager(cfg, st, who, []).underflow
    ensures Resting(cfg, Manager(cfg, st, who, []))
  {
    var r := Manager(cfg, st, who, []);
    ManagerInv(cfg, st, who, [], |cfg.bands|);
    if r.count < cfg.limit {
      forall e | 0 <= e < |cfg.bands| && r.phase[e].Idle? ensures Reluctant(cfg, cfg.bands[e]) {
        if !Reluctant(cfg, cfg.bands[e]) {
          OnlyReluctantStayIdle(cfg, st, who, [], e);
        }
      }
    }
  }

  lemma SucceededHooked(cfg: Config, st: State, who: nat, c: nat)
    requires Unpinned(cfg) && Hooked(cfg, st, c) && Apart(st, c)
    requires who < |cfg.bands| && who != c && st.phase[who].Acquiring?
    requires !AcquisitionSucceeded(cfg, st, who, []).underflow
    ensures var r := AcquisitionSucceeded(cfg, st, who, []);
            Hooked(cfg, r, c) && Untracking(r) < Untracking(st)
  {
    var tracking := TrackChannel(cfg, st, who, {});
    RemoveKeeps(st, st.signal[who]);
    var r := Manager(cfg, tracking, who, []);
    SucceededKeeps(cfg, st, who, [], {});
    SucceededExact(cfg, st, who, []);
    ManagerRests(cfg, tracking, who);
    ManagerBaited(cfg, tracking, who, [], |cfg.bands|, c);
    ManagerUndisturbed(cfg, tracking, who, [], |cfg.bands|);
    FewerUntracking(st, tracking, r, who);
  }

  ghost predicate AcquiresAlone(st: State, c: nat) {
    forall d :: 0 <= d < |st.phase| && d != c ==> !st.phase[d].Acquiring?
  }

  /** One more success of another channel. */
  lemma DriveOne(cfg: Config, lists: map<Band, seq<Signal>>, reports: seq<seq<Report>>, es: seq<Event>, c: nat)
      returns (next: seq<Event>)
    requires GoodConfig(cfg) && GoodLists(lists) && Unpinned(cfg) && MoreSatellitesThanChannels(cfg, lists)
    requires AllPossible(cfg, es) && WellBehavedRun(cfg, Initial(cfg, lists, reports), es)
    requires var s := Run(cfg, Initial(cfg, lists, reports), es); Hooked(cfg, s, c) && Apart(s, c) && !AcquiresAlone(s, c)
    ensures AllPossible(cfg, next) && WellBehavedRun(cfg, Initial(cfg, lists, reports), next)
    ensures var s, r := Run(cfg, Initial(cfg, lists, reports), es), Run(cfg, Initial(cfg, lists, reports), next);
            Hooked(cfg, r, c) && |Untracking(r)| < |Untracking(s)|
  {
    var s := Run(cfg, Initial(cfg, lists, reports), es);
    var d :| 0 <= d < |s.phase| && d != c && s.phase[d].Acquiring?;
    next := WellBehavedSnoc(cfg, Initial(cfg, lists, reports), es, Action(d, 1, []));
    SearchNeverUnderflows(cfg, lists, reports, next);
    SucceededHooked(cfg, s, d, c);
    ProperSubsetSize(Untracking(AcquisitionSucceeded(cfg, s, d, [])), Untracking(s));
  }

  /** Let every other channel succeed, until its signal is taken or `c` alone is acquiring. */
  lemma DriveOthers(cfg: Config, lists: map<Band, seq<Signal>>, reports: seq<seq<Report>>, es: seq<Event>, c: nat)
      returns (more: seq<Event>)
    requires GoodConfig(cfg) && GoodLists(lists) && Unpinned(cfg) && MoreSatellitesThanChannels(cfg, lists)
    requires AllPossible(cfg, es) && WellBehavedRun(cfg, Initial(cfg, lists, reports), es)
    requires Hooked(cfg, Run(cfg, Initial(cfg, lists, reports), es), c)
    ensures AllPossible(cfg, more) && WellBehavedRun(cfg, Initial(cfg, lists, reports), more)
    ensures var r := Run(cfg, Initial(cfg, lists, reports), more);
            Hooked(cfg, r, c) && (Apart(r, c) ==> AcquiresAlone(r, c))
    decreases |Untracking(Run(cfg, Initial(cfg, lists, reports), es))|
  {
    var s := Run(cfg, Initial(cfg, lists, reports), es);
    more := es;
    if Apart(s, c) && !AcquiresAlone(s, c) {
      var next := DriveOne(cfg, lists, reports, es, c);
      more := DriveOthers(cfg, lists, reports, next, c);
    }
  }

  // ---------------------------------------------------------------- visits that start nothing

  /** Only the lists of bands that need assistance have been rotated. */
  ghost predicate Calm(cfg: Config, st: State, r: State) {
    && Inv(cfg, st) && Inv(cfg, r) && r.phase == st.phase && r.count == st.count
    && (forall c :: 0 <= c < |cfg.bands| && !st.phase[c].Idle? ==> r.signal[c] == st.signal[c])
    && (forall b, x :: x in ListOf(r.lists, b) <==> x in ListOf(st.lists, b))
    && (forall b :: !Reluctant(cfg, b) ==> ListOf(r.lists, b) == ListOf(st.lists, b))
  }

  lemma QuietVisit(cfg: Config, st: State, e: nat)
    requires Unpinned(cfg) && Inv(cfg, st) && e < |cfg.bands| && (st.phase[e].Idle? ==> Reluctant(cfg, cfg.bands[e]))
    ensures Calm(cfg, st, Visit(cfg, st, e, []))
  {
    VisitKeeps(cfg, st, e, [], {}, {});
    if st.count < cfg.limit && st.phase[e].Idle? {
      var b := st.signal[e].band;
      SearchTakesOne(cfg, ListOf(st.lists, b), b, true, []);
      match SearchNext(cfg, ListOf(st.lists, b), b, true, [])
      case Underflow =>
      case Hit(s, rest, assisted) =>
        TakeKeeps(cfg, st, e, s, rest);
        var t := Take(st, e, s, rest);
        assert forall d :: ListOf(t.lists, d) == if d == b then rest else ListOf(st.lists, d);
        PushBackKeeps(t, s);
    }
  }

  lemma QuietNext(cfg: Config, a: State, st: State, e: nat, d: nat, r: State)
    requires Unpinned(cfg) && Calm(cfg, a, st) && e < |cfg.bands| && e != d && OthersReluctant(cfg, a, d)
    requires r == Visit(cfg, st, e, [])
    ensures Calm(cfg, a, r)
  {
    QuietVisit(cfg, st, e);
  }

  /** Every other channel is visited before the one that calls the manager. */
  lemma CallerLast(n: nat, d: nat)
    requires d < n
    ensures Visited(n, d, n - 1) == d
    ensures forall j :: 0 <= j < n - 1 ==> Visited(n, d, j) != d
  {
    ModIs(n - 1 + d + 1, 1, d, n);
    var i := VisitsEachChannelOnce(n, d, d);
  }

  ghost predicate OthersReluctant(cfg: Config, st: State, d: nat)
    requires Sized(cfg, st)
  {
    forall e :: 0 <= e < |cfg.bands| && e != d && st.phase[e].Idle? ==> Reluctant(cfg, cfg.bands[e])
  }

  lemma {:induction false} QuietManager(cfg: Config, st: State, d: nat, reports: seq<seq<Report>>, i: nat)
    requires Unpinned(cfg) && Inv(cfg, st) && d < |cfg.bands| && i < |cfg.bands| && OthersReluctant(cfg, st, d)
    requires forall j :: 0 <= j < i ==> ReportsAt(reports, j) == []
    ensures Calm(cfg, st, ManagerAfter(cfg, st, d, reports, i))
  {
    if i > 0 {
      QuietManager(cfg, st, d, reports, i - 1);
      CallerLast(|cfg.bands|, d);
      QuietNext(cfg, st, ManagerAfter(cfg, st, d, reports, i - 1), Visited(|cfg.bands|, d, i - 1), d,
                ManagerAfter(cfg, st, d, reports, i));
    }
  }

  /** The manager called for idle channel `d` then only visits `d`. */
  lemma OnlyCaller(cfg: Config, st: State, d: nat, reports: seq<seq<Report>>) returns (before: State)
    requires Unpinned(cfg) && Inv(cfg, st) && d < |cfg.bands| && OthersReluctant(cfg, st, d)
    requires forall j :: 0 <= j < |cfg.bands| - 1 ==> ReportsAt(reports, j) == []
    ensures Calm(cfg, st, before)
    ensures Manager(cfg, st, d, reports) == Visit(cfg, before, d, ReportsAt(reports, |cfg.bands| - 1))
  {
    before := ManagerAfter(cfg, st, d, reports, |cfg.bands| - 1);
    QuietManager(cfg, st, d, reports, |cfg.bands| - 1);
    CallerLast(|cfg.bands|, d);
  }

  // ---------------------------------------------------------------- taking the bait

  /** Status reports that assist a search for `s` in the last visit. */
  ghost function Hint(n: nat, s: Signal): seq<seq<Report>>
    requires n > 0
  {
    seq(n - 1, _ => []) + [[Report(AssistingBand(s.band), s.prn)]]
  }

  lemma {:induction false} FindsPrn(l: seq<Signal>, s: Signal)
    requires AllOfBand(l, s.band) && s in l
    ensures FindPrn(l, s.prn) < |l| && l[FindPrn(l, s.prn)] == s
  {
    if l[0].prn != s.prn {
      FindsPrn(l[1..], s);
    }
  }

  lemma HintedSearch(cfg: Config, l: seq<Signal>, s: Signal)
    requires GoodList(l, s.band) && s in l && Helped(cfg, s.band)
    ensures var r := SearchNext(cfg, l, s.band, true, [Report(AssistingBand(s.band), s.prn)]);
            r.Hit? && r.signal == s && r.assisted
  {
    FindsPrn(l, s);
  }

  /** In a band that reports can assist, one hinted call of the manager hands `d` the signal. */
  lemma TakesHint(cfg: Config, st: State, c: nat, d: nat)
    requires Unpinned(cfg) && Inv(cfg, st) && c < |cfg.bands| && d < |cfg.bands| && c != d && cfg.bands[c] == cfg.bands[d]
    requires st.phase[d].Idle? && st.phase[c].Acquiring? && st.count < cfg.limit && OthersReluctant(cfg, st, d)
    requires Helped(cfg, cfg.bands[c]) && st.signal[c] in ListOf(st.lists, cfg.bands[c])
    ensures !Apart(Manager(cfg, st, d, Hint(|cfg.bands|, st.signal[c])), c)
    ensures Manager(cfg, st, d, Hint(|cfg.bands|, st.signal[c])).phase[c].Acquiring?
  {
    var s := st.signal[c];
    var hint := Hint(|cfg.bands|, s);
    var before := OnlyCaller(cfg, st, d, hint);
    HintedSearch(cfg, ListOf(before.lists, s.band), s);
    var r := Manager(cfg, st, d, hint);
    assert r.signal[d] == s == r.signal[c] && !r.phase[d].Idle?;
  }

  /** In a band that starts unassisted, `d` is handed the front of the list. */
  lemma TakesFront(cfg: Config, st: State, d: nat)
    requires Unpinned(cfg) && Inv(cfg, st) && d < |cfg.bands| && st.phase[d].Idle? && st.count < cfg.limit
    requires OthersReluctant(cfg, st, d) && !Reluctant(cfg, cfg.bands[d]) && ListOf(st.lists, cfg.bands[d]) != []
    ensures var r, l := Manager(cfg, st, d, []), ListOf(st.lists, cfg.bands[d]);
            && r.phase == st.phase[d := Acquiring] && r.signal[d] == l[0] && ListOf(r.lists, cfg.bands[d]) == l[1..]
            && (forall c :: 0 <= c < |cfg.bands| && !st.phase[c].Idle? ==> r.signal[c] == st.signal[c])
  {
    var before := OnlyCaller(cfg, st, d, []);
  }

  // ---------------------------------------------------------------- retrying until the signal is handed out

  /** `c` and `d`, of one band, are acquiring; every idle channel needs assistance. */
  ghost predicate Pair(cfg: Config, st: State, c: nat, d: nat) {
    && Inv(cfg, st) && Exact(st) && c < |cfg.bands| && d < |cfg.bands| && c != d && cfg.bands[c] == cfg.bands[d]
    && st.phase[c].Acquiring? && st.phase[d].Acquiring? && OthersReluctant(cfg, st, d)
    && (st.signal[c] in ListOf(st.lists, cfg.bands[c]) || !Apart(st, c))
  }

  lemma BelowLimit(cfg: Config, st: State, c: nat, d: nat)
    requires Pair(cfg, st, c, d)
    ensures Decrement(st.count) < cfg.limit
  {
    TwoAcquiringCount(st.phase, c, d);
  }

  /** What a failure of `d` leaves: `d` has the front of the list, its old signal is at the end. */
  lemma RetryOutcome(cfg: Config, st: State, c: nat, d: nat)
    requires Unpinned(cfg) && Pair(cfg, st, c, d) && Apart(st, c) && !Reluctant(cfg, cfg.bands[d])
    ensures var r, l := AcquisitionFailed(cfg, st, d, []), ListOf(st.lists, cfg.bands[c]);
            && Inv(cfg, r) && Exact(r) && r.phase == st.phase && r.signal[c] == st.signal[c] && r.signal[d] == l[0]
            && ListOf(r.lists, cfg.bands[c]) == Remove(l[1..], st.signal[d]) + [st.signal[d]]
  {
    var freed := FreeChannel(cfg, st, d, {});
    BelowLimit(cfg, st, c, d);
    TakesFront(cfg, freed, d);
    FailedExact(cfg, st, d, []);
    FailedKeeps(cfg, st, d, [], {});
  }

  /** Taking the front of the list and pushing another signal back moves `s` forward. */
  lemma RetryMoves(l: seq<Signal>, s: Signal, gs: Signal)
    requires GoodList(l, s.band) && gs.band == s.band && s in l && l[0] != s && s != gs
    ensures s in Remove(l[1..], gs) + [gs] && Position(Remove(l[1..], gs) + [gs], s) < Position(l, s)
  {
    PositionAfterFront(l, s);
    RemovePosition(l[1..], gs, s);
    PositionInPrefix(Remove(l[1..], gs), [gs], s);
  }

  /** A failure of `d` hands it the next signal: that of `c`, or `c`'s moves one place forward. */
  lemma RetryUnassisted(cfg: Config, st: State, c: nat, d: nat)
    requires Unpinned(cfg) && Pair(cfg, st, c, d) && Apart(st, c) && !Reluctant(cfg, cfg.bands[d])
    ensures var r := AcquisitionFailed(cfg, st, d, []);
            && Pair(cfg, r, c, d) && r.signal[c] == st.signal[c]
            && (Apart(r, c) ==> Position(ListOf(r.lists, cfg.bands[c]), st.signal[c]) <
                                Position(ListOf(st.lists, cfg.bands[c]), st.signal[c]))
  {
    RetryOutcome(cfg, st, c, d);
    RetryPair(cfg, st, AcquisitionFailed(cfg, st, d, []), c, d);
  }

  lemma RetryPair(cfg: Config, st: State, r: State, c: nat, d: nat)
    requires Pair(cfg, st, c, d) && Apart(st, c) && Inv(cfg, r) && Exact(r)
    requires r.phase == st.phase && r.signal[c] == st.signal[c] && r.signal[d] == ListOf(st.lists, cfg.bands[c])[0]
    requires ListOf(r.lists, cfg.bands[c]) == Remove(ListOf(st.lists, cfg.bands[c])[1..], st.signal[d]) + [st.signal[d]]
    ensures Pair(cfg, r, c, d)
    ensures Apart(r, c) ==> Position(ListOf(r.lists, cfg.bands[c]), st.signal[c]) <
                            Position(ListOf(st.lists, cfg.bands[c]), st.signal[c])
  {
    var l, s := ListOf(st.lists, cfg.bands[c]), st.signal[c];
    if l[0] == s {
      assert r.signal[d] == r.signal[c];
    } else {
      RetryMoves(l, s, st.signal[d]);
    }
  }

  lemma RetryUntilDoubled(cfg: Config, st: State, es: seq<Event>, c: nat, d: nat) returns (more: seq<Event>)
    requires Unpinned(cfg) && Sized(cfg, st) && AllPossible(cfg, es) && WellBehavedRun(cfg, st, es)
    requires Pair(cfg, Run(cfg, st, es), c, d) && !Reluctant(cfg, cfg.bands[d])
    ensures AllPossible(cfg, more) && WellBehavedRun(cfg, st, more)
    ensures c < |cfg.bands| && Run(cfg, st, more).phase[c].Acquiring? && !Apart(Run(cfg, st, more), c)
    decreases var s := Run(cfg, st, es);
              if Apart(s, c) then 1 + Position(ListOf(s.lists, cfg.bands[c]), s.signal[c]) else 0
  {
    var s := Run(cfg, st, es);
    more := es;
    if Apart(s, c) {
      var next := WellBehavedSnoc(cfg, st, es, Action(d, 0, []));
      RetryUnassisted(cfg, s, c, d);
      more := RetryUntilDoubled(cfg, st, next, c, d);
    }
  }

  lemma RetryHinted(cfg: Config, st: State, c: nat, d: nat)
    requires Unpinned(cfg) && Pair(cfg, st, c, d) && Apart(st, c) && Helped(cfg, cfg.bands[c])
    ensures var r := AcquisitionFailed(cfg, st, d, Hint(|cfg.bands|, st.signal[c]));
            r.phase[c].Acquiring? && !Apart(r, c)
  {
    var freed := FreeChannel(cfg, st, d, {});
    BelowLimit(cfg, st, c, d);
    TakesHint(cfg, freed, c, d);
    var managed := Manager(cfg, freed, d, Hint(|cfg.bands|, st.signal[c]));
    var e :| 0 <= e < |managed.phase| && e != c && !managed.phase[e].Idle? && managed.signal[e] == managed.signal[c];
    var r := PushBack(managed, st.signal[d]);
    assert !r.phase[e].Idle? && r.signal[e] == r.signal[c];
  }

  // ---------------------------------------------------------------- the run

  /** When only `c` is acquiring, a channel of its band can be made to take its signal. */
  lemma TakeFromLast(cfg: Config, st: State, es: seq<Event>, c: nat, d: nat) returns (more: seq<Event>)
    requires Unpinned(cfg) && Sized(cfg, st) && AllPossible(cfg, es) && WellBehavedRun(cfg, st, es) && cfg.limit > 1
    requires var s := Run(cfg, st, es);
             Hooked(cfg, s, c) && Apart(s, c) && AcquiresAlone(s, c)
    requires d < |cfg.bands| && d != c && cfg.bands[d] == cfg.bands[c] && Searchable(cfg, cfg.bands[c])
    ensures AllPossible(cfg, more) && WellBehavedRun(cfg, st, more)
    ensures c < |cfg.bands| && Run(cfg, st, more).phase[c].Acquiring? && !Apart(Run(cfg, st, more), c)
  {
    var s := Run(cfg, st, es);
    var hint := Hint(|cfg.bands|, s.signal[c]);
    OneAcquires(s.phase, c);
    if s.phase[d].Idle? {
      TakesHint(cfg, s, c, d);
      more := WellBehavedSnoc(cfg, st, es, Manage(d, hint));
    } else {
      LosePair(cfg, s, c, d);
      more := WellBehavedSnoc(cfg, st, es, Action(d, 2, []));
      if Reluctant(cfg, cfg.bands[d]) {
        RetryHinted(cfg, StartAcquisition(s, d), c, d);
        more := WellBehavedSnoc(cfg, st, more, Action(d, 0, hint));
      } else {
        more := RetryUntilDoubled(cfg, st, more, c, d);
      }
    }
  }

  lemma OneAcquires(phase: seq<Phase>, c: nat)
    requires c < |phase| && phase[c].Acquiring? && forall e :: 0 <= e < |phase| && e != c ==> !phase[e].Acquiring?
    ensures multiset(phase)[Acquiring] == 1
  {
    AcquiringCount(phase, c);
    assert Acquiring !in phase[c := Idle];
  }

  lemma LosePair(cfg: Config, st: State, c: nat, d: nat)
    requires Hooked(cfg, st, c) && Apart(st, c) && d < |cfg.bands| && d != c && cfg.bands[d] == cfg.bands[c]
    requires st.phase[d].Tracking? && st.count < cfg.limit
    ensures TrackingLost(cfg, st, d) == StartAcquisition(st, d)
    ensures Pair(cfg, StartAcquisition(st, d), c, d) && Apart(StartAcquisition(st, d), c)
  {
    AcquiringCount(st.phase, d);
  }

  lemma InitialHooked(cfg: Config, lists: map<Band, seq<Signal>>, reports: seq<seq<Report>>, c: nat)
    requires GoodConfig(cfg) && GoodLists(lists) && Unpinned(cfg) && MoreSatellitesThanChannels(cfg, lists) && c < cfg.limit
    ensures Hooked(cfg, Initial(cfg, lists, reports), c)
  {
    SearchNeverUnderflows(cfg, lists, reports, []);
    InitialExact(cfg, lists, reports);
    AssignLeavesPhases(cfg, Unassigned(cfg, lists), AssignOrder(cfg, |cfg.pinned|), reports);
    InitialListed(cfg, lists, reports, c);
  }

  /** The signals that the assignment hands out stay in their lists. */
  lemma InitialListed(cfg: Config, lists: map<Band, seq<Signal>>, reports: seq<seq<Report>>, c: nat)
    requires GoodConfig(cfg) && GoodLists(lists) && Unpinned(cfg) && !Initial(cfg, lists, reports).underflow && c < |cfg.bands|
    ensures var st := Initial(cfg, lists, reports);
            Inv(cfg, st) && st.signal[c] in ListOf(st.lists, st.signal[c].band)
  {
    var pool := set b: Band, s | s in ListOf(lists, b) :: s;
    InitialDrawn(cfg, lists, reports);
    AssignAllKeeps(cfg, Unassigned(cfg, lists), AssignOrder(cfg, |cfg.pinned|), reports, pool);
    assert Initial(cfg, lists, reports).signal[c] in pool;
  }

  /** For every configuration that is not separate, some well-behaved run ends exclusivity. */
  lemma DoubleTracking(cfg: Config, lists: map<Band, seq<Signal>>, reports: seq<seq<Report>>) returns (es: seq<Event>)
    requires GoodConfig(cfg) && GoodLists(lists) && Unpinned(cfg) && MoreSatellitesThanChannels(cfg, lists)
    requires !Separate(cfg)
    ensures AllPossible(cfg, es) && WellBehavedRun(cfg, Initial(cfg, lists, reports), es)
    ensures !TracksExclusively(Run(cfg, Initial(cfg, lists, reports), es))
  {
    var st := Initial(cfg, lists, reports);
    var c: nat :| c < cfg.limit && c < |cfg.bands| && Shares(cfg, c) && Searchable(cfg, cfg.bands[c]);
    var d: nat :| d < |cfg.bands| && d != c && cfg.bands[d] == cfg.bands[c];
    InitialHooked(cfg, lists, reports, c);
    es := DriveOthers(cfg, lists, reports, [], c);
    if Apart(Run(cfg, st, es), c) {
      es := TakeFromLast(cfg, st, es, c, d);
    }
    SuccessDoubles(cfg, Run(cfg, st, es), c);
    es := WellBehavedSnoc(cfg, st, es, Action(c, 1, []));
  }

  /** The exact condition: on unpinned channels with more satellites than channels, every well-behaved
      run tracks exclusively if and only if the channels are separate. */
  lemma SeparateExactly(cfg: Config, lists: map<Band, seq<Signal>>, reports: seq<seq<Report>>)
    requires GoodConfig(cfg) && GoodLists(lists) && Unpinned(cfg) && MoreSatellitesThanChannels(cfg, lists)
    ensures Separate(cfg) <==>
            forall es :: AllPossible(cfg, es) && WellBehavedRun(cfg, Initial(cfg, lists, reports), es)
              ==> TracksExclusively(Run(cfg, Initial(cfg, lists, reports), es))
  {
    if Separate(cfg) {
      forall es | AllPossible(cfg, es) && WellBehavedRun(cfg, Initial(cfg, lists, reports), es)
        ensures TracksExclusively(Run(cfg, Initial(cfg, lists, reports), es))
      {
        ExclusiveTracking(cfg, lists, reports, es);
      }
    } else {
      var es := DoubleTracking(cfg, lists, reports);
    }
  }
}
