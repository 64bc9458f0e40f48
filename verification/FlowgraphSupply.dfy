/** With strictly more satellites than channels in each band, no search ever takes the front of
    an empty list, even while a failed signal still waits to be pushed back. */
module FlowgraphSupply {
  import opened Collections
  import opened Signals
  import opened FlowgraphModel
  import opened FlowgraphSafety

  ghost function Channels(cfg: Config, b: Band): set<nat> {
    set c: nat | c < |cfg.bands| && cfg.bands[c] == b
  }

  ghost function FreeChannels(cfg: Config, b: Band): set<nat>
    requires |cfg.pinned| == |cfg.bands|
  {
    set c: nat | c < |cfg.bands| && cfg.bands[c] == b && cfg.pinned[c] == 0
  }

  ghost function OfBand(pool: set<Signal>, b: Band): set<Signal> {
    set s | s in pool && s.band == b
  }

  /** Each band with free channels has more free signals than free channels. */
  ghost predicate Enough(cfg: Config, pool: set<Signal>)
    requires |cfg.pinned| == |cfg.bands|
  {
    forall b :: FreeChannels(cfg, b) != {} ==> |FreeChannels(cfg, b)| < |OfBand(pool, b)|
  }

  // ---------------------------------------------------------------- counting

  ghost function SignalsOf(signal: seq<Signal>, cs: set<nat>): set<Signal>
    requires forall c :: c in cs ==> c < |signal|
  {
    set c | c in cs :: signal[c]
  }

  lemma {:induction false} SignalsOfBound(signal: seq<Signal>, cs: set<nat>)
    requires forall c :: c in cs ==> c < |signal|
    ensures |SignalsOf(signal, cs)| <= |cs|
  {
    if cs != {} {
      var c :| c in cs;
      SignalsOfBound(signal, cs - {c});
      assert SignalsOf(signal, cs) <= SignalsOf(signal, cs - {c}) + {signal[c]};
      SubsetSize(SignalsOf(signal, cs), SignalsOf(signal, cs - {c}) + {signal[c]});
    }
  }

  lemma {:induction false} SubsetSize<T>(a: set<T>, b: set<T>)
    requires a <= b
    ensures |a| <= |b|
  {
    if a != {} {
      var x :| x in a;
      SubsetSize(a - {x}, b - {x});
    }
  }

  /** A free signal that does not wait and is not pending is held by another free channel. */
  lemma MissingIsHeld(cfg: Config, st: State, c: nat, pool: set<Signal>, pending: set<Signal>, s: Signal)
    requires Inv(cfg, st) && FreePool(cfg, pool) && Kept(st, pool, pending)
    requires c < |cfg.bands| && st.phase[c].Idle?
    requires s in pool && s !in pending && s !in ListOf(st.lists, s.band)
    ensures s in SignalsOf(st.signal, FreeChannels(cfg, s.band) - {c})
  {
    var d :| 0 <= d < |st.phase| && !st.phase[d].Idle? && st.signal[d] == s;
    HolderIsFree(cfg, st, d);
    assert d in FreeChannels(cfg, s.band) - {c};
  }

  lemma SomeLeft(all: set<Signal>, held: set<Signal>, pending: set<Signal>, waiting: set<Signal>)
    requires all <= held + pending + waiting && |held| + |pending| < |all|
    ensures waiting != {}
  {
    SubsetSize(all, held + pending + waiting);
  }

  /** While a free channel is idle, its list cannot be empty: every missing signal is held by
      another free channel of the band or is the one pending. */
  lemma ListNotEmpty(cfg: Config, st: State, c: nat, pool: set<Signal>, pending: set<Signal>)
    requires Inv(cfg, st) && FreePool(cfg, pool) && Enough(cfg, pool)
    requires Kept(st, pool, pending) && |pending| <= 1
    requires c < |cfg.bands| && cfg.pinned[c] == 0 && st.phase[c].Idle?
    ensures ListOf(st.lists, cfg.bands[c]) != []
  {
    var b := cfg.bands[c];
    var free := FreeChannels(cfg, b);
    var held := SignalsOf(st.signal, free - {c});
    var waiting := set s | s in ListOf(st.lists, b);
    forall s | s in OfBand(pool, b) ensures s in held + pending + waiting {
      if s !in pending && s !in waiting {
        MissingIsHeld(cfg, st, c, pool, pending, s);
      }
    }
    SignalsOfBound(st.signal, free - {c});
    assert c in free && |free - {c}| == |free| - 1;
    SomeLeft(OfBand(pool, b), held, pending, waiting);
  }

  lemma HolderIsFree(cfg: Config, st: State, d: nat)
    requires Inv(cfg, st) && d < |cfg.bands| && !IsPinned(cfg, st.signal[d])
    ensures cfg.pinned[d] == 0
  {
  }

  // ---------------------------------------------------------------- steps

  lemma VisitSupplied(cfg: Config, st: State, c: nat, reports: seq<Report>, pool: set<Signal>, pending: set<Signal>)
    requires Inv(cfg, st) && FreePool(cfg, pool) && Enough(cfg, pool)
    requires Kept(st, pool, pending) && |pending| <= 1 && c < |cfg.bands|
    ensures Visit(cfg, st, c, reports).underflow == st.underflow
  {
    if st.count < cfg.limit && st.phase[c].Idle? && cfg.pinned[c] == 0 {
      ListNotEmpty(cfg, st, c, pool, pending);
      SearchTakesOne(cfg, ListOf(st.lists, st.signal[c].band), st.signal[c].band, true, reports);
    }
  }

  lemma {:induction false} ManagerSupplied(cfg: Config, st: State, who: nat, reports: seq<seq<Report>>, i: nat,
                                           pool: set<Signal>, pending: set<Signal>)
    requires Inv(cfg, st) && FreePool(cfg, pool) && Enough(cfg, pool)
    requires Kept(st, pool, pending) && |pending| <= 1 && (i > 0 ==> |cfg.bands| > 0)
    ensures ManagerAfter(cfg, st, who, reports, i).underflow == st.underflow
  {
    if i > 0 {
      ManagerSupplied(cfg, st, who, reports, i - 1, pool, pending);
      ManagerKeeps(cfg, st, who, reports, i - 1, pool, pending);
      var before := ManagerAfter(cfg, st, who, reports, i - 1);
      VisitSupplied(cfg, before, Visited(|cfg.bands|, who, i - 1),
                    ReportsAt(reports, i - 1), pool, pending);
    }
  }

  lemma {:induction false} StandbySupplied(cfg: Config, st: State, k: nat)
    requires Sized(cfg, st) && k <= |cfg.bands|
    ensures StandbyAfter(cfg, st, k).underflow == st.underflow
  {
    if k > 0 {
      StandbySupplied(cfg, st, k - 1);
    }
  }

  lemma StepSupplied(cfg: Config, st: State, e: Event, pool: set<Signal>)
    requires Inv(cfg, st) && Possible(cfg, e) && FreePool(cfg, pool) && Enough(cfg, pool) && Kept(st, pool, {})
    ensures Step(cfg, st, e).underflow == st.underflow
  {
    match e
    case Action(who, what, reports) =>
      if what == 0 {
        var freed := FreeChannel(cfg, st, who, pool);
        ManagerSupplied(cfg, freed, who, reports, |cfg.bands|, pool, {st.signal[who]});
      } else if what == 1 {
        var tracking := TrackChannel(cfg, st, who, pool);
        ManagerSupplied(cfg, tracking, who, reports, |cfg.bands|, pool, {});
      } else if what == 10 {
        StandbySupplied(cfg, st, |cfg.bands|);
      }
    case Manage(who, reports) =>
      ManagerSupplied(cfg, st, who, reports, |cfg.bands|, pool, {});
    case Prioritisation(visible) =>
  }

  lemma {:induction false} RunSupplied(cfg: Config, st: State, es: seq<Event>, pool: set<Signal>)
    requires Inv(cfg, st) && AllPossible(cfg, es) && FreePool(cfg, pool) && Enough(cfg, pool) && Kept(st, pool, {})
    ensures Run(cfg, st, es).underflow == st.underflow
  {
    if es != [] {
      var init := es[..|es| - 1];
      RunSupplied(cfg, st, init, pool);
      RunKeeps(cfg, st, init, pool);
      StepSupplied(cfg, Run(cfg, st, init), es[|es| - 1], pool);
    }
  }

  lemma {:induction false} AssignSupplied(cfg: Config, st: State, order: seq<nat>, reports: seq<seq<Report>>, pool: set<Signal>)
    requires Sized(cfg, st) && Assigned(cfg, st, pool, []) && FreePool(cfg, pool) && Enough(cfg, pool)
    requires forall i :: 0 <= i < |order| ==> order[i] < |cfg.bands|
    ensures AssignAll(cfg, st, order, reports).underflow == st.underflow
  {
    if order != [] {
      var n := |order| - 1;
      var done, c := order[..n], order[n];
      AssignSupplied(cfg, st, done, reports, pool);
      AssignAllKeeps(cfg, st, done, reports, pool);
      var before := AssignAll(cfg, st, done, reports);
      var b := before.signal[c].band;
      if cfg.pinned[c] == 0 {
        assert c in FreeChannels(cfg, b);
        assert OfBand(pool, b) != {};
        var s :| s in OfBand(pool, b);
        assert s in ListOf(before.lists, b);
        SearchTakesOne(cfg, ListOf(before.lists, b), b, false, ReportsAt(reports, n));
      }
    }
  }

  // ---------------------------------------------------------------- the theorem

  /** Each band with channels has strictly more satellites configured than channels. */
  ghost predicate MoreSatellitesThanChannels(cfg: Config, lists: map<Band, seq<Signal>>) {
    forall b :: Channels(cfg, b) != {} ==> |Channels(cfg, b)| < |ListOf(lists, b)|
  }

  ghost function Configured(cfg: Config, lists: map<Band, seq<Signal>>): set<Signal>
    requires |cfg.pinned| == |cfg.bands|
  {
    set b: Band, s | s in ListOf(lists, b) && !IsPinned(cfg, s) :: s
  }

  /** The satellites that channels are pinned to, by channel. */
  ghost function PinSignals(cfg: Config): (r: seq<Signal>)
    requires |cfg.pinned| == |cfg.bands|
    ensures |r| == |cfg.bands|
  {
    seq(|cfg.bands|, i requires 0 <= i < |cfg.bands| => Signal(cfg.bands[i], cfg.pinned[i]))
  }

  lemma FreeOrPinned(cfg: Config, lists: map<Band, seq<Signal>>, b: Band, s: Signal)
    requires |cfg.pinned| == |cfg.bands| && GoodLists(lists) && s in ListOf(lists, b)
    ensures s in OfBand(Configured(cfg, lists), b) + SignalsOf(PinSignals(cfg), Channels(cfg, b) - FreeChannels(cfg, b))
  {
    if IsPinned(cfg, s) {
      var c: nat :| c < |cfg.bands| && cfg.pinned[c] != 0 && s == Signal(cfg.bands[c], cfg.pinned[c]);
      assert c in Channels(cfg, b) - FreeChannels(cfg, b) && PinSignals(cfg)[c] == s;
    }
  }

  lemma EnoughConfigured(cfg: Config, lists: map<Band, seq<Signal>>)
    requires |cfg.pinned| == |cfg.bands| && GoodLists(lists) && MoreSatellitesThanChannels(cfg, lists)
    ensures Enough(cfg, Configured(cfg, lists))
  {
    forall b | FreeChannels(cfg, b) != {} ensures |FreeChannels(cfg, b)| < |OfBand(Configured(cfg, lists), b)| {
      EnoughInBand(cfg, lists, b);
    }
  }

  lemma EnoughInBand(cfg: Config, lists: map<Band, seq<Signal>>, b: Band)
    requires |cfg.pinned| == |cfg.bands| && GoodLists(lists) && |Channels(cfg, b)| < |ListOf(lists, b)|
    ensures |FreeChannels(cfg, b)| < |OfBand(Configured(cfg, lists), b)|
  {
    var all := set s | s in ListOf(lists, b);
    var free, pins := FreeChannels(cfg, b), Channels(cfg, b) - FreeChannels(cfg, b);
    var open, taken := OfBand(Configured(cfg, lists), b), SignalsOf(PinSignals(cfg), pins);
    DistinctSize(ListOf(lists, b));
    SignalsOfBound(PinSignals(cfg), pins);
    forall s | s in all ensures s in open + taken {
      FreeOrPinned(cfg, lists, b, s);
    }
    SubsetSize(all, open + taken);
    assert Channels(cfg, b) == free + pins;
  }

  /** The search never takes the front of an empty list: with strictly more satellites than
      channels in every band that has channels, no run of any events underflows. */
  lemma SearchNeverUnderflows(cfg: Config, lists: map<Band, seq<Signal>>, reports: seq<seq<Report>>, es: seq<Event>)
    requires GoodConfig(cfg) && GoodLists(lists) && AllPossible(cfg, es)
    requires MoreSatellitesThanChannels(cfg, lists)
    ensures !Run(cfg, Initial(cfg, lists, reports), es).underflow
  {
    var pool := Configured(cfg, lists);
    EnoughConfigured(cfg, lists);
    InitialKeeps(cfg, lists, reports, pool);
    AssignSupplied(cfg, Unassigned(cfg, lists), AssignOrder(cfg, |cfg.pinned|), reports, pool);
    RunSupplied(cfg, Initial(cfg, lists, reports), es, pool);
  }
}
