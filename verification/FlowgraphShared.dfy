/** Exactly when tracking is exclusive.  The initial assignment leaves the assigned signals in the
    lists, so another channel of the band can take the signal that a channel is acquiring.  On
    unpinned channels this is the only way for two channels to come to track one satellite. */
module FlowgraphShared {
  import opened Collections
  import opened Signals
  import opened FlowgraphModel
  import opened FlowgraphSafety
  import opened FlowgraphSupply
  import opened FlowgraphExclusive
  import opened FlowgraphUnlisted

  /** Another channel works on the same band. */
  predicate Shares(cfg: Config, c: nat)
    requires c < |cfg.bands|
  {
    exists d :: 0 <= d < |cfg.bands| && d != c && cfg.bands[d] == cfg.bands[c]
  }

  /** At most one channel acquires at a time, or no channel that acquires from the start shares its
      band, unless it is a band in which the manager starts no channel. */
  predicate Separate(cfg: Config) {
    cfg.limit <= 1 ||
    forall c :: 0 <= c < cfg.limit && c < |cfg.bands| && Shares(cfg, c) ==> !Searchable(cfg, cfg.bands[c])
  }

  // ---------------------------------------------------------------- bands that the manager cannot start

  /** Busy channels of a band in which the manager starts no channel have different signals. */
  ghost predicate StuckApart(cfg: Config, st: State)
    requires |st.phase| == |st.signal|
  {
    forall c :: 0 <= c < |st.phase| && !st.phase[c].Idle? && !Searchable(cfg, st.signal[c].band) ==> Apart(st, c)
  }

  /** Such channels start nothing new. */
  ghost predicate NoneStarted(cfg: Config, st: State, r: State) {
    && |r.phase| == |r.signal| == |st.phase| == |st.signal|
    && (forall c :: 0 <= c < |st.phase| ==> r.signal[c].band == st.signal[c].band)
    && (forall c :: 0 <= c < |st.phase| && !Searchable(cfg, st.signal[c].band) && !r.phase[c].Idle? ==>
          !st.phase[c].Idle? && r.signal[c] == st.signal[c])
  }

  lemma VisitStartsNone(cfg: Config, a: State, st: State, c: nat, reports: seq<Report>) returns (r: State)
    requires Unpinned(cfg) && Inv(cfg, st) && NoneStarted(cfg, a, st) && c < |cfg.bands|
    ensures r == Visit(cfg, st, c, reports) && NoneStarted(cfg, a, r)
  {
    var b := st.signal[c].band;
    SearchTakesOne(cfg, ListOf(st.lists, b), b, true, reports);
    r := Visit(cfg, st, c, reports);
  }

  lemma {:induction false} ManagerStartsNone(cfg: Config, a: State, st: State, who: nat, reports: seq<seq<Report>>, i: nat)
    requires Unpinned(cfg) && Inv(cfg, st) && NoneStarted(cfg, a, st) && (i > 0 ==> |cfg.bands| > 0)
    ensures NoneStarted(cfg, a, ManagerAfter(cfg, st, who, reports, i))
  {
    if i > 0 {
      ManagerStartsNone(cfg, a, st, who, reports, i - 1);
      ManagerInv(cfg, st, who, reports, i - 1);
      var r := VisitStartsNone(cfg, a, ManagerAfter(cfg, st, who, reports, i - 1), Visited(|cfg.bands|, who, i - 1),
                               ReportsAt(reports, i - 1));
    }
  }

  lemma StepStartsNone(cfg: Config, st: State, e: Event)
    requires Unpinned(cfg) && Inv(cfg, st) && Possible(cfg, e) && WellBehaved(cfg, st, e)
    ensures NoneStarted(cfg, st, Step(cfg, st, e))
  {
    match e
    case Action(who, what, reports) =>
      if what == 0 {
        var freed := FreeChannel(cfg, st, who, {});
        ManagerStartsNone(cfg, st, freed, who, reports, |cfg.bands|);
      } else if what == 1 {
        var tracking := TrackChannel(cfg, st, who, {});
        ManagerStartsNone(cfg, st, tracking, who, reports, |cfg.bands|);
      }
    case Manage(who, reports) =>
      ManagerStartsNone(cfg, st, st, who, reports, |cfg.bands|);
    case Prioritisation(visible) =>
  }

  // ---------------------------------------------------------------- the initial assignment

  ghost function ChannelsBelow(cfg: Config, b: Band, k: nat): set<nat> {
    set c | c in Channels(cfg, b) && c < k
  }

  /** The signals of the first `k` channels that are in band `b` differ, and are among the last `m`
      of the list `l`. */
  ghost predicate AtEnd(bands: seq<Band>, signal: seq<Signal>, l: seq<Signal>, b: Band, k: nat, m: nat)
    requires |bands| == |signal|
  {
    && k <= |bands| && m <= |l| && Distinct(l)
    && (forall c :: 0 <= c < k && bands[c] == b ==> signal[c] !in l[..|l| - m])
    && (forall c, d :: 0 <= c < d < k && bands[c] == b && bands[d] == b ==> signal[c] != signal[d])
  }

  /** Assigning the front of the list and moving it to the end. */
  lemma RotateAtEnd(bands: seq<Band>, signal: seq<Signal>, l: seq<Signal>, b: Band, k: nat, m: nat)
    requires |bands| == |signal| && AtEnd(bands, signal, l, b, k, m) && k < |bands| && m < |l|
    ensures AtEnd(bands, signal[k := l[0]], l[1..] + [l[0]], b, k + 1, m + 1)
  {
    var n := |l| - m;
    assert l[..n] == [l[0]] + l[1..n];
    assert (l[1..] + [l[0]])[..n - 1] == l[1..n];
    assert l[0] !in l[1..n];
  }

  ghost predicate RotatedTo(cfg: Config, st: State, b: Band, k: nat, size: nat) {
    && Sized(cfg, st) && k <= |cfg.bands|
    && (forall c :: 0 <= c < |cfg.bands| ==> st.signal[c].band == cfg.bands[c])
    && GoodLists(st.lists) && |ListOf(st.lists, b)| == size
    && AtEnd(cfg.bands, st.signal, ListOf(st.lists, b), b, k, |ChannelsBelow(cfg, b, k)|)
  }

  lemma BelowNext(cfg: Config, b: Band, k: nat)
    requires k < |cfg.bands|
    ensures |ChannelsBelow(cfg, b, k + 1)| == |ChannelsBelow(cfg, b, k)| + if cfg.bands[k] == b then 1 else 0
    ensures |ChannelsBelow(cfg, b, k + 1)| <= |Channels(cfg, b)|
  {
    var below, next := ChannelsBelow(cfg, b, k), ChannelsBelow(cfg, b, k + 1);
    SubsetSize(next, Channels(cfg, b));
    assert k in Channels(cfg, b) <==> cfg.bands[k] == b;
    if cfg.bands[k] == b {
      assert k in next && k !in below;
      assert next - {k} == below;
    } else {
      assert next == below;
    }
  }

  /** The search of an unassisted band assigns the front and moves it to the end. */
  lemma AssignFront(cfg: Config, st: State, k: nat, reports: seq<Report>)
    requires Sized(cfg, st) && k < |cfg.bands| && cfg.pinned[k] == 0 && !Helped(cfg, st.signal[k].band)
    requires ListOf(st.lists, st.signal[k].band) != []
    ensures var r, l := Assign(cfg, st, k, reports), ListOf(st.lists, st.signal[k].band);
            ListOf(r.lists, st.signal[k].band) == l[1..] + [l[0]] && r.signal == st.signal[k := l[0]]
  {
  }

  lemma AssignElsewhere(cfg: Config, st: State, k: nat, reports: seq<Report>, b: Band)
    requires Sized(cfg, st) && k < |cfg.bands| && cfg.pinned[k] == 0 && st.signal[k].band != b
    ensures var r := Assign(cfg, st, k, reports);
            ListOf(r.lists, b) == ListOf(st.lists, b) && forall c :: 0 <= c < |cfg.bands| && c != k ==> r.signal[c] == st.signal[c]
  {
  }

  lemma AssignRotates(cfg: Config, st: State, b: Band, k: nat, size: nat, reports: seq<Report>)
    requires RotatedTo(cfg, st, b, k, size) && k < |cfg.bands| && cfg.pinned[k] == 0 && !Helped(cfg, b)
    requires |Channels(cfg, b)| <= size
    ensures RotatedTo(cfg, Assign(cfg, st, k, reports), b, k + 1, size)
  {
    BelowNext(cfg, b, k);
    AssignGood(cfg, st, k, reports);
    if cfg.bands[k] == b {
      AssignFront(cfg, st, k, reports);
      RotateAtEnd(cfg.bands, st.signal, ListOf(st.lists, b), b, k, |ChannelsBelow(cfg, b, k)|);
    } else {
      AssignElsewhere(cfg, st, k, reports, b);
    }
  }

  lemma AssignGood(cfg: Config, st: State, k: nat, reports: seq<Report>)
    requires Sized(cfg, st) && GoodLists(st.lists) && k < |cfg.bands| && cfg.pinned[k] == 0
    ensures GoodLists(Assign(cfg, st, k, reports).lists)
    ensures forall c :: 0 <= c < |cfg.bands| ==> Assign(cfg, st, k, reports).signal[c].band == st.signal[c].band
  {
    var b := st.signal[k].band;
    SearchTakesOne(cfg, ListOf(st.lists, b), b, false, reports);
    match SearchNext(cfg, ListOf(st.lists, b), b, false, reports)
    case Underflow =>
    case Hit(s, rest, _) =>
      var lists := st.lists[b := rest];
      assert forall d :: ListOf(lists, d) == if d == b then rest else ListOf(st.lists, d);
  }

  lemma {:induction false} InOrder(cfg: Config, k: nat)
    requires Unpinned(cfg) && k <= |cfg.pinned|
    ensures |AssignOrder(cfg, k)| == k && forall i :: 0 <= i < k ==> AssignOrder(cfg, k)[i] == i
  {
    if k > 0 {
      InOrder(cfg, k - 1);
    }
  }

  lemma {:induction false} AssignedApart(cfg: Config, u: State, reports: seq<seq<Report>>, b: Band, order: seq<nat>, size: nat)
    requires Unpinned(cfg) && !Helped(cfg, b) && |Channels(cfg, b)| <= size && RotatedTo(cfg, u, b, 0, size)
    requires |order| <= |cfg.bands| && forall i :: 0 <= i < |order| ==> order[i] == i
    ensures RotatedTo(cfg, AssignAll(cfg, u, order, reports), b, |order|, size)
  {
    if order != [] {
      var n := |order| - 1;
      AssignedApart(cfg, u, reports, b, order[..n], size);
      AssignRotates(cfg, AssignAll(cfg, u, order[..n], reports), b, n, size, ReportsAt(reports, n));
    }
  }

  lemma NothingAssigned(cfg: Config, lists: map<Band, seq<Signal>>, b: Band)
    requires GoodConfig(cfg) && GoodLists(lists)
    ensures RotatedTo(cfg, Unassigned(cfg, lists), b, 0, |ListOf(lists, b)|)
  {
    assert ChannelsBelow(cfg, b, 0) == {};
  }

  lemma InitialApart(cfg: Config, lists: map<Band, seq<Signal>>, reports: seq<seq<Report>>)
    requires GoodConfig(cfg) && GoodLists(lists) && Unpinned(cfg) && MoreSatellitesThanChannels(cfg, lists)
    ensures StuckApart(cfg, Initial(cfg, lists, reports))
  {
    var st, order := Initial(cfg, lists, reports), AssignOrder(cfg, |cfg.pinned|);
    InitialKeeps(cfg, lists, reports, {});
    InOrder(cfg, |cfg.pinned|);
    forall c | 0 <= c < |cfg.bands| && !Searchable(cfg, cfg.bands[c]) ensures Apart(st, c) {
      assert c in Channels(cfg, cfg.bands[c]);
      NothingAssigned(cfg, lists, cfg.bands[c]);
      AssignedApart(cfg, Unassigned(cfg, lists), reports, cfg.bands[c], order, |ListOf(lists, cfg.bands[c])|);
    }
  }

  // ---------------------------------------------------------------- separate channels track exclusively

  /** The bands with several channels that the manager can start. */
  ghost function Contested(cfg: Config): set<Band> {
    set c | 0 <= c < |cfg.bands| && Shares(cfg, c) && Searchable(cfg, cfg.bands[c]) :: cfg.bands[c]
  }

  /** With several acquisitions at a time: busy channels of contested bands have their signals to
      themselves, and those that the manager cannot start have different ones. */
  ghost predicate Guarded(cfg: Config, st: State)
    requires |st.phase| == |st.signal|
  {
    cfg.limit <= 1 || (Unlisted(st, Contested(cfg)) && StuckApart(cfg, st))
  }

  lemma TwoAcquiringCount(phase: seq<Phase>, c: nat, d: nat)
    requires c < |phase| && d < |phase| && c != d && phase[c].Acquiring? && phase[d].Acquiring?
    ensures multiset(phase)[Acquiring] >= 2
  {
    AcquiringCount(phase, c);
    AcquiringCount(phase[c := Idle], d);
  }

  /** A channel that acquires has a signal that no other busy channel has. */
  lemma AcquiresApart(cfg: Config, st: State, who: nat)
    requires Exclusive(cfg, st) && Guarded(cfg, st) && who < |cfg.bands| && st.phase[who].Acquiring?
    ensures Apart(st, who)
  {
    forall d | 0 <= d < |st.phase| && d != who && !st.phase[d].Idle? ensures st.signal[d] != st.signal[who] {
      if cfg.limit <= 1 && st.phase[d].Acquiring? {
        TwoAcquiringCount(st.phase, who, d);
      } else if cfg.limit > 1 && cfg.bands[d] == cfg.bands[who] {
        assert Shares(cfg, who);
        assert Searchable(cfg, cfg.bands[who]) ==> cfg.bands[who] in Contested(cfg);
        assert Searchable(cfg, cfg.bands[who]) ==> Sole(st, who);
      }
    }
  }

  lemma StepGuarded(cfg: Config, st: State, e: Event)
    requires Unpinned(cfg) && Exclusive(cfg, st) && Guarded(cfg, st) && Possible(cfg, e) && WellBehaved(cfg, st, e)
    ensures Exclusive(cfg, Step(cfg, st, e)) && Guarded(cfg, Step(cfg, st, e))
  {
    if e.Action? && e.what == 1 {
      AcquiresApart(cfg, st, e.who);
    }
    StepExclusive(cfg, st, e);
    if cfg.limit > 1 {
      StepUnlisted(cfg, st, e, Contested(cfg));
      StepStartsNone(cfg, st, e);
    }
  }

  lemma {:induction false} RunGuarded(cfg: Config, st: State, es: seq<Event>)
    requires Unpinned(cfg) && Exclusive(cfg, st) && Guarded(cfg, st) && AllPossible(cfg, es) && WellBehavedRun(cfg, st, es)
    ensures Exclusive(cfg, Run(cfg, st, es)) && Guarded(cfg, Run(cfg, st, es))
  {
    if es != [] {
      RunGuarded(cfg, st, es[..|es| - 1]);
      StepGuarded(cfg, Run(cfg, st, es[..|es| - 1]), es[|es| - 1]);
    }
  }

  lemma InitialGuarded(cfg: Config, lists: map<Band, seq<Signal>>, reports: seq<seq<Report>>)
    requires GoodConfig(cfg) && GoodLists(lists) && Unpinned(cfg) && Separate(cfg)
    requires cfg.limit <= 1 || MoreSatellitesThanChannels(cfg, lists)
    ensures Guarded(cfg, Initial(cfg, lists, reports))
  {
    if cfg.limit > 1 {
      var st := Initial(cfg, lists, reports);
      InitialApart(cfg, lists, reports);
      InitialKeeps(cfg, lists, reports, {});
      AssignLeavesPhases(cfg, Unassigned(cfg, lists), AssignOrder(cfg, |cfg.pinned|), reports);
      forall c | 0 <= c < |st.phase| && st.signal[c].band in Contested(cfg) ensures st.phase[c].Idle? {
        var d :| 0 <= d < |cfg.bands| && Shares(cfg, d) && Searchable(cfg, cfg.bands[d]) && cfg.bands[d] == cfg.bands[c];
        assert Shares(cfg, c);
      }
    }
  }

  /** Exclusive tracking: on separate unpinned channels, whatever the bands, in every reachable state
      of every well-behaved run a tracked signal is absent from its list and differs from the signal
      of every other acquiring or tracking channel. */
  lemma ExclusiveTracking(cfg: Config, lists: map<Band, seq<Signal>>, reports: seq<seq<Report>>, es: seq<Event>)
    requires GoodConfig(cfg) && GoodLists(lists) && Unpinned(cfg) && Separate(cfg)
    requires cfg.limit <= 1 || MoreSatellitesThanChannels(cfg, lists)
    requires AllPossible(cfg, es) && WellBehavedRun(cfg, Initial(cfg, lists, reports), es)
    ensures TracksExclusively(Run(cfg, Initial(cfg, lists, reports), es))
  {
    InitialExclusive(cfg, lists, reports);
    InitialGuarded(cfg, lists, reports);
    RunGuarded(cfg, Initial(cfg, lists, reports), es);
  }
}
