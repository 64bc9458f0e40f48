/** The acquisition manager serves every channel and every satellite: it visits each channel
    exactly once, leaves no channel idle without cause, and a waiting satellite of a primary
    band is searched again before the satellites behind it. */
module FlowgraphFairness {
  import opened Modular
  import opened Signals
  import opened FlowgraphModel
  import opened FlowgraphSafety
  import opened FlowgraphExclusive

  // ---------------------------------------------------------------- one visit per channel

  /** Every channel is visited in exactly one iteration of the manager's loop. */
  lemma VisitsEachChannelOnce(n: nat, who: nat, c: nat) returns (i: nat)
    requires c < n
    ensures i < n && Visited(n, who, i) == c
    ensures forall j :: 0 <= j < n && Visited(n, who, j) == c ==> j == i
  {
    var d := c - who - 1;
    i := d % n;
    var q := d / n;
    assert d == q * n + i;
    assert i + who + 1 == (-q) * n + c;
    ModIs(i + who + 1, -q, c, n);
    forall j | 0 <= j < n && Visited(n, who, j) == c ensures j == i {
      var p := (j + who + 1) / n;
      assert j + who + 1 == p * n + c;
      assert j - i == (p + q) * n;
      SmallMultiple(p + q, n, j - i);
    }
  }

  // ---------------------------------------------------------------- work conservation

  /** Why a visited idle channel below the limit stays idle: it found a signal of a secondary
      band that no report assists, and unassisted secondary acquisition is switched off. */
  ghost predicate Refused(cfg: Config, st: State, c: nat, reports: seq<Report>)
    requires Sized(cfg, st) && c < |cfg.bands|
  {
    var b := st.signal[c].band;
    && cfg.pinned[c] == 0 && !IsPrimary(b) && cfg.assistDual
    && SearchNext(cfg, ListOf(st.lists, b), b, true, reports).Hit?
    && !SearchNext(cfg, ListOf(st.lists, b), b, true, reports).assisted
  }

  /** ... or it searched an empty list. */
  ghost predicate Starved(cfg: Config, st: State, c: nat)
    requires Sized(cfg, st) && c < |cfg.bands|
  {
    cfg.pinned[c] == 0 && ListOf(st.lists, st.signal[c].band) == []
  }

  lemma VisitOutcome(cfg: Config, st: State, c: nat, reports: seq<Report>)
    requires Sized(cfg, st) && c < |cfg.bands|
    ensures var r := Visit(cfg, st, c, reports);
            && st.count <= r.count
            && (st.count < cfg.limit && r.phase[c].Idle? ==> Refused(cfg, st, c, reports) || Starved(cfg, st, c))
  {
  }

  lemma {:induction false} ManagerFrom(cfg: Config, st: State, who: nat, reports: seq<seq<Report>>, i: nat, j: nat)
    requires Sized(cfg, st) && i <= j && (j > 0 ==> |cfg.bands| > 0)
    ensures Undisturbed(ManagerAfter(cfg, st, who, reports, i), ManagerAfter(cfg, st, who, reports, j))
  {
    if i < j {
      ManagerFrom(cfg, st, who, reports, i, j - 1);
      VisitUndisturbedFrom(ManagerAfter(cfg, st, who, reports, i), cfg, ManagerAfter(cfg, st, who, reports, j - 1),
                           Visited(|cfg.bands|, who, j - 1), ReportsAt(reports, j - 1));
    }
  }

  lemma {:induction false} CountGrows(cfg: Config, st: State, who: nat, reports: seq<seq<Report>>, i: nat, j: nat)
    requires Sized(cfg, st) && i <= j && (j > 0 ==> |cfg.bands| > 0)
    ensures ManagerAfter(cfg, st, who, reports, i).count <= ManagerAfter(cfg, st, who, reports, j).count
  {
    if i < j {
      CountGrows(cfg, st, who, reports, i, j - 1);
      VisitOutcome(cfg, ManagerAfter(cfg, st, who, reports, j - 1), Visited(|cfg.bands|, who, j - 1), ReportsAt(reports, j - 1));
    }
  }

  /** The state in which the manager visits channel `c` in iteration `i`. */
  ghost predicate KeptIdleAt(cfg: Config, st: State, who: nat, reports: seq<seq<Report>>, c: nat, i: nat)
    requires Sized(cfg, st) && c < |cfg.bands| && i < |cfg.bands|
  {
    var s := ManagerAfter(cfg, st, who, reports, i);
    Visited(|cfg.bands|, who, i) == c && (Refused(cfg, s, c, ReportsAt(reports, i)) || Starved(cfg, s, c))
  }

  /** Work conservation: when the manager returns below the acquisition limit, each channel
      still idle was refused at its visit as an unassisted secondary frequency, or found its
      list empty. */
  lemma ManagerWorkConserving(cfg: Config, st: State, who: nat, reports: seq<seq<Report>>, c: nat) returns (i: nat)
    requires Sized(cfg, st) && c < |cfg.bands|
    requires Manager(cfg, st, who, reports).count < cfg.limit
    requires Manager(cfg, st, who, reports).phase[c].Idle?
    ensures i < |cfg.bands| && KeptIdleAt(cfg, st, who, reports, c, i)
  {
    var n := |cfg.bands|;
    i := VisitsEachChannelOnce(n, who, c);
    CountGrows(cfg, st, who, reports, i, n);
    ManagerFrom(cfg, st, who, reports, i + 1, n);
    IdleSinceVisit(cfg, ManagerAfter(cfg, st, who, reports, i), c, ReportsAt(reports, i),
                   ManagerAfter(cfg, st, who, reports, i + 1), Manager(cfg, st, who, reports));
  }

  /** A channel that is idle at the end, below the limit, was left idle by its visit. */
  lemma IdleSinceVisit(cfg: Config, st: State, c: nat, reports: seq<Report>, r: State, end: State)
    requires Sized(cfg, st) && c < |cfg.bands| && r == Visit(cfg, st, c, reports) && Undisturbed(r, end)
    requires st.count <= end.count < cfg.limit && end.phase[c].Idle?
    ensures Refused(cfg, st, c, reports) || Starved(cfg, st, c)
  {
    VisitOutcome(cfg, st, c, reports);
  }

  /** Unless some search met an empty list, a channel stays idle below the limit only if its band
      is a secondary one that starts with assistance alone; a primary channel never does. */
  lemma OnlyReluctantStayIdle(cfg: Config, st: State, who: nat, reports: seq<seq<Report>>, c: nat)
    requires Inv(cfg, st) && c < |cfg.bands| && !Reluctant(cfg, cfg.bands[c])
    requires !Manager(cfg, st, who, reports).underflow
    requires Manager(cfg, st, who, reports).count < cfg.limit
    ensures !Manager(cfg, st, who, reports).phase[c].Idle?
  {
    if Manager(cfg, st, who, reports).phase[c].Idle? {
      var i := ManagerWorkConserving(cfg, st, who, reports, c);
      ManagerKeeps(cfg, st, who, reports, i, {}, {});
      StarvedUnderflows(cfg, st, who, reports, c, i);
      assert false;
    }
  }

  lemma {:induction false} UnderflowStays(cfg: Config, st: State, who: nat, reports: seq<seq<Report>>, i: nat, j: nat)
    requires Sized(cfg, st) && i <= j && (j > 0 ==> |cfg.bands| > 0)
    requires ManagerAfter(cfg, st, who, reports, i).underflow
    ensures ManagerAfter(cfg, st, who, reports, j).underflow
  {
    if i < j {
      UnderflowStays(cfg, st, who, reports, i, j - 1);
    }
  }

  /** A channel that starts without assistance can only stay idle by searching an empty list. */
  lemma StarvedUnderflows(cfg: Config, st: State, who: nat, reports: seq<seq<Report>>, c: nat, i: nat)
    requires Sized(cfg, st) && c < |cfg.bands| && i < |cfg.bands|
    requires KeptIdleAt(cfg, st, who, reports, c, i)
    requires Inv(cfg, ManagerAfter(cfg, st, who, reports, i)) && !Reluctant(cfg, cfg.bands[c])
    requires Manager(cfg, st, who, reports).count < cfg.limit
    requires Manager(cfg, st, who, reports).phase[c].Idle?
    ensures Manager(cfg, st, who, reports).underflow
  {
    var before := ManagerAfter(cfg, st, who, reports, i);
    assert before.count < cfg.limit && before.phase[c].Idle? by {
      CountGrows(cfg, st, who, reports, i, |cfg.bands|);
      ManagerFrom(cfg, st, who, reports, i, |cfg.bands|);
    }
    StarvedVisit(cfg, before, c, ReportsAt(reports, i));
    UnderflowStays(cfg, st, who, reports, i + 1, |cfg.bands|);
  }

  lemma StarvedVisit(cfg: Config, st: State, c: nat, reports: seq<Report>)
    requires Sized(cfg, st) && c < |cfg.bands| && Starved(cfg, st, c) && st.count < cfg.limit && st.phase[c].Idle?
    ensures Visit(cfg, st, c, reports).underflow
  {
  }

  // ---------------------------------------------------------------- bounded overtaking

  /** The picks of one band, in order. */
  function BandPicks(picks: seq<Signal>, b: Band): seq<Signal> {
    if picks == [] then []
    else
      var n := |picks| - 1;
      BandPicks(picks[..n], b) + if picks[n].band == b then [picks[n]] else []
  }

  /** `s` waits in its list and no busy channel has it. */
  ghost predicate Waits(st: State, s: Signal)
    requires |st.phase| == |st.signal|
  {
    s in ListOf(st.lists, s.band) && !Held(st, s)
  }

  /** Since the history had length `k`, `s` was among the first p+1 picks of its band. */
  ghost predicate PickedSoon(st: State, k: nat, p: nat, s: Signal) {
    && k <= |st.picks|
    && var picked := BandPicks(st.picks[k..], s.band);
       exists i :: 0 <= i <= p && i < |picked| && picked[i] == s
  }

  /** It still waits, and each pick of its band has moved it forward by one. */
  ghost predicate WaitsCloser(st: State, k: nat, p: nat, s: Signal)
    requires |st.phase| == |st.signal|
  {
    k <= |st.picks| && Waits(st, s) &&
    Position(ListOf(st.lists, s.band), s) + |BandPicks(st.picks[k..], s.band)| <= p
  }

  ghost predicate Progress(st: State, k: nat, p: nat, s: Signal)
    requires |st.phase| == |st.signal|
  {
    PickedSoon(st, k, p, s) || WaitsCloser(st, k, p, s)
  }

  lemma NextPick(picks: seq<Signal>, k: nat, s: Signal, b: Band)
    requires k <= |picks|
    ensures BandPicks((picks + [s])[k..], b) == BandPicks(picks[k..], b) + if s.band == b then [s] else []
  {
    assert (picks + [s])[k..] == picks[k..] + [s];
    assert (picks[k..] + [s])[..|picks| - k] == picks[k..];
  }

  lemma PickedStays(st: State, r: State, k: nat, p: nat, s: Signal)
    requires PickedSoon(st, k, p, s) && st.picks <= r.picks
    ensures PickedSoon(r, k, p, s)
  {
    BandPicksGrow(st.picks[k..], r.picks[k..], s.band);
  }

  lemma {:induction false} BandPicksGrow(a: seq<Signal>, c: seq<Signal>, b: Band)
    requires a <= c
    ensures BandPicks(a, b) <= BandPicks(c, b)
  {
    if |a| < |c| {
      BandPicksGrow(a, c[..|c| - 1], b);
    } else {
      assert a == c;
    }
  }

  lemma PushBackPosition(st: State, gs: Signal, s: Signal)
    requires GoodLists(st.lists) && s in ListOf(st.lists, s.band) && s != gs
    ensures s in ListOf(PushBack(st, gs).lists, s.band)
    ensures Position(ListOf(PushBack(st, gs).lists, s.band), s) <= Position(ListOf(st.lists, s.band), s)
  {
    if gs.band == s.band {
      var l := ListOf(st.lists, s.band);
      RemovePosition(l, gs, s);
      PositionInPrefix(Remove(l, gs), [gs], s);
    }
  }

  /** A change that gives `s` to no further channel leaves it unheld. */
  lemma StaysUnheld(st: State, r: State, s: Signal)
    requires |st.phase| == |st.signal| == |r.phase| == |r.signal| && !Held(st, s)
    requires forall d :: 0 <= d < |r.phase| && !r.phase[d].Idle? && r.signal[d] == s ==> !st.phase[d].Idle? && st.signal[d] == s
    ensures !Held(r, s)
  {
  }

  lemma PositionAfterFront(l: seq<Signal>, s: Signal)
    requires s in l && l[0] != s
    ensures s in l[1..] && Position(l[1..], s) == Position(l, s) - 1
  {
    assert l == [l[0]] + l[1..];
  }

  /** Taking the front of its list selects `s` or moves it forward by one. */
  lemma TakeFront(st: State, c: nat, k: nat, p: nat, s: Signal)
    requires |st.phase| == |st.signal| && c < |st.phase| && st.signal[c].band == s.band && st.phase[c].Idle?
    requires GoodLists(st.lists) && WaitsCloser(st, k, p, s)
    ensures var l := ListOf(st.lists, s.band);
            Progress(StartAcquisition(Take(st, c, l[0], l[1..]), c), k, p, s)
  {
    var l := ListOf(st.lists, s.band);
    var r := StartAcquisition(Take(st, c, l[0], l[1..]), c);
    var picked := BandPicks(st.picks[k..], s.band);
    NextPick(st.picks, k, l[0], s.band);
    var picked' := BandPicks(r.picks[k..], s.band);
    if l[0] == s {
      assert picked'[|picked|] == s;
      assert PickedSoon(r, k, p, s);
    } else {
      StaysUnheld(st, r, s);
      PositionAfterFront(l, s);
      assert WaitsCloser(r, k, p, s);
    }
  }

  /** Taking from a list of another band leaves it alone. */
  lemma TakeOther(st: State, c: nat, x: Signal, rest: seq<Signal>, k: nat, p: nat, s: Signal)
    requires |st.phase| == |st.signal| && c < |st.phase| && st.signal[c].band == x.band != s.band && st.phase[c].Idle?
    requires GoodLists(st.lists) && WaitsCloser(st, k, p, s)
    ensures WaitsCloser(StartAcquisition(Take(st, c, x, rest), c), k, p, s)
    ensures WaitsCloser(PushBack(Take(st, c, x, rest), x), k, p, s)
  {
    var t := Take(st, c, x, rest);
    NextPick(st.picks, k, x, s.band);
    StaysUnheld(st, StartAcquisition(t, c), s);
    StaysUnheld(st, PushBack(t, x), s);
  }

  lemma QuietProgress(st: State, r: State, k: nat, p: nat, s: Signal)
    requires |st.phase| == |st.signal| == |r.phase| == |r.signal| && r.picks == st.picks && r.lists == st.lists
    requires WaitsCloser(st, k, p, s)
    requires forall d :: 0 <= d < |r.phase| && !r.phase[d].Idle? && r.signal[d] == s ==> !st.phase[d].Idle? && st.signal[d] == s
    ensures WaitsCloser(r, k, p, s)
  {
    StaysUnheld(st, r, s);
  }

  lemma PinnedDiffers(cfg: Config, st: State, c: nat, s: Signal)
    requires Inv(cfg, st) && c < |cfg.bands| && cfg.pinned[c] != 0 && !IsPinned(cfg, s)
    ensures st.signal[c] != s
  {
    assert st.signal[c] == Signal(cfg.bands[c], cfg.pinned[c]);
  }

  /** One visit keeps the progress of an unpinned signal of a primary band. */
  lemma VisitProgress(cfg: Config, st: State, c: nat, reports: seq<Report>, k: nat, p: nat, s: Signal)
    requires Inv(cfg, st) && c < |cfg.bands| && IsPrimary(s.band) && !IsPinned(cfg, s) && Progress(st, k, p, s)
    ensures Progress(Visit(cfg, st, c, reports), k, p, s)
  {
    if PickedSoon(st, k, p, s) {
      PickedStays(st, Visit(cfg, st, c, reports), k, p, s);
    } else if st.count < cfg.limit && st.phase[c].Idle? {
      StartProgress(cfg, st, c, reports, k, p, s);
    }
  }

  lemma StartProgress(cfg: Config, st: State, c: nat, reports: seq<Report>, k: nat, p: nat, s: Signal)
    requires Inv(cfg, st) && c < |cfg.bands| && IsPrimary(s.band) && !IsPinned(cfg, s) && WaitsCloser(st, k, p, s)
    requires st.count < cfg.limit && st.phase[c].Idle?
    ensures Progress(Visit(cfg, st, c, reports), k, p, s)
  {
    var b := st.signal[c].band;
    if cfg.pinned[c] != 0 {
      PinnedDiffers(cfg, st, c, s);
      QuietProgress(st, StartAcquisition(st, c), k, p, s);
    } else if ListOf(st.lists, b) == [] {
      QuietProgress(st, st.(underflow := true), k, p, s);
    } else if b == s.band {
      TakeFront(st, c, k, p, s);
    } else {
      SearchTakesOne(cfg, ListOf(st.lists, b), b, true, reports);
      var hit := SearchNext(cfg, ListOf(st.lists, b), b, true, reports);
      TakeOther(st, c, hit.signal, hit.rest, k, p, s);
    }
  }

  lemma {:induction false} ManagerProgress(cfg: Config, st: State, who: nat, reports: seq<seq<Report>>, i: nat,
                                           k: nat, p: nat, s: Signal)
    requires Inv(cfg, st) && IsPrimary(s.band) && !IsPinned(cfg, s) && (i > 0 ==> |cfg.bands| > 0)
    requires Progress(st, k, p, s)
    ensures Progress(ManagerAfter(cfg, st, who, reports, i), k, p, s)
    decreases i
  {
    if i > 0 {
      var c := Visited(|cfg.bands|, who, i - 1);
      ManagerProgress(cfg, st, who, reports, i - 1, k, p, s);
      ManagerInv(cfg, st, who, reports, i - 1);
      VisitProgress(cfg, ManagerAfter(cfg, st, who, reports, i - 1), c, ReportsAt(reports, i - 1), k, p, s);
    }
  }

  lemma PushBackProgress(st: State, gs: Signal, k: nat, p: nat, s: Signal)
    requires |st.phase| == |st.signal| && GoodLists(st.lists) && Progress(st, k, p, s) && s != gs
    ensures Progress(PushBack(st, gs), k, p, s)
  {
    if !PickedSoon(st, k, p, s) {
      PushBackPosition(st, gs, s);
      StaysUnheld(st, PushBack(st, gs), s);
      assert WaitsCloser(PushBack(st, gs), k, p, s);
    }
  }

  lemma RemoveProgress(st: State, gs: Signal, k: nat, p: nat, s: Signal)
    requires |st.phase| == |st.signal| && GoodLists(st.lists) && WaitsCloser(st, k, p, s) && s != gs
    ensures WaitsCloser(RemoveSignal(st, gs), k, p, s)
  {
    if gs.band == s.band {
      RemovePosition(ListOf(st.lists, s.band), gs, s);
    }
    StaysUnheld(st, RemoveSignal(st, gs), s);
  }

  // ---------------------------------------------------------------- progress of every step

  lemma StepGrowsPicks(cfg: Config, st: State, e: Event)
    requires Sized(cfg, st) && Possible(cfg, e)
    ensures st.picks <= Step(cfg, st, e).picks
  {
    match e
    case Action(who, what, reports) =>
      if what == 0 {
        ManagerGrowsPicks(cfg, st.(phase := st.phase[who := Idle], count := Decrement(st.count)), who, reports, |cfg.bands|);
      } else if what == 1 {
        var removed := RemoveSignal(st, st.signal[who]);
        ManagerGrowsPicks(cfg, removed.(phase := removed.phase[who := Tracking], count := Decrement(removed.count)),
                          who, reports, |cfg.bands|);
      }
    case Manage(who, reports) => ManagerGrowsPicks(cfg, st, who, reports, |cfg.bands|);
    case Prioritisation(_) =>
  }

  lemma BusySignalDiffers(st: State, who: nat, s: Signal)
    requires |st.phase| == |st.signal| && who < |st.phase| && !st.phase[who].Idle? && !Held(st, s)
    ensures st.signal[who] != s
  {
  }

  lemma FailedProgress(cfg: Config, st: State, who: nat, reports: seq<seq<Report>>, k: nat, p: nat, s: Signal)
    requires Inv(cfg, st) && who < |cfg.bands| && st.phase[who].Acquiring?
    requires IsPrimary(s.band) && !IsPinned(cfg, s) && WaitsCloser(st, k, p, s)
    ensures Progress(AcquisitionFailed(cfg, st, who, reports), k, p, s)
  {
    BusySignalDiffers(st, who, s);
    var freed := FreeChannel(cfg, st, who, {});
    QuietProgress(st, freed, k, p, s);
    ManagerProgress(cfg, freed, who, reports, |cfg.bands|, k, p, s);
    ManagerKeeps(cfg, freed, who, reports, |cfg.bands|, {}, {});
    PushBackProgress(Manager(cfg, freed, who, reports), st.signal[who], k, p, s);
  }

  lemma SucceededProgress(cfg: Config, st: State, who: nat, reports: seq<seq<Report>>, k: nat, p: nat, s: Signal)
    requires Inv(cfg, st) && who < |cfg.bands| && st.phase[who].Acquiring?
    requires IsPrimary(s.band) && !IsPinned(cfg, s) && WaitsCloser(st, k, p, s)
    ensures Progress(AcquisitionSucceeded(cfg, st, who, reports), k, p, s)
  {
    BusySignalDiffers(st, who, s);
    var tracking := TrackChannel(cfg, st, who, {});
    RemoveProgress(st, st.signal[who], k, p, s);
    QuietProgress(RemoveSignal(st, st.signal[who]), tracking, k, p, s);
    ManagerProgress(cfg, tracking, who, reports, |cfg.bands|, k, p, s);
  }

  lemma LostProgress(cfg: Config, st: State, who: nat, k: nat, p: nat, s: Signal)
    requires Inv(cfg, st) && who < |cfg.bands| && st.phase[who].Tracking? && WaitsCloser(st, k, p, s)
    ensures Progress(TrackingLost(cfg, st, who), k, p, s)
  {
    BusySignalDiffers(st, who, s);
    if st.count < cfg.limit {
      QuietProgress(st, StartAcquisition(st, who), k, p, s);
    } else {
      var idle := st.(phase := st.phase[who := Idle]);
      QuietProgress(st, idle, k, p, s);
      PushBackProgress(idle, st.signal[who], k, p, s);
    }
  }

  lemma StandbyOneProgress(cfg: Config, m: State, c: nat, k: nat, p: nat, s: Signal)
    requires Inv(cfg, m) && c < |cfg.bands| && !m.phase[c].Idle? && WaitsCloser(m, k, p, s)
    ensures WaitsCloser(PushBack(m, m.signal[c]).(phase := m.phase[c := Idle]), k, p, s)
  {
    var gs := m.signal[c];
    BusySignalDiffers(m, c, s);
    PushBackPosition(m, gs, s);
    StaysUnheld(m, PushBack(m, gs), s);
    QuietProgress(PushBack(m, gs), PushBack(m, gs).(phase := m.phase[c := Idle]), k, p, s);
  }

  lemma {:induction false} StandbyProgress(cfg: Config, st: State, j: nat, k: nat, p: nat, s: Signal)
    requires Inv(cfg, st) && j <= |cfg.bands| && WaitsCloser(st, k, p, s)
    ensures WaitsCloser(StandbyAfter(cfg, st, j), k, p, s)
    ensures Inv(cfg, StandbyAfter(cfg, st, j))
  {
    StandbyKeeps(cfg, st, j, {});
    if j > 0 {
      StandbyProgress(cfg, st, j - 1, k, p, s);
      var m := StandbyAfter(cfg, st, j - 1);
      if !m.phase[j - 1].Idle? {
        StandbyOneProgress(cfg, m, j - 1, k, p, s);
      }
    }
  }

  lemma StepProgress(cfg: Config, st: State, e: Event, k: nat, p: nat, s: Signal)
    requires Inv(cfg, st) && Possible(cfg, e) && WellBehaved(cfg, st, e) && !e.Prioritisation?
    requires IsPrimary(s.band) && !IsPinned(cfg, s) && Progress(st, k, p, s)
    ensures Progress(Step(cfg, st, e), k, p, s)
  {
    if PickedSoon(st, k, p, s) {
      StepGrowsPicks(cfg, st, e);
      PickedStays(st, Step(cfg, st, e), k, p, s);
    } else {
      match e
      case Action(who, what, reports) =>
        if what == 0 {
          FailedProgress(cfg, st, who, reports, k, p, s);
        } else if what == 1 {
          SucceededProgress(cfg, st, who, reports, k, p, s);
        } else if what == 2 {
          LostProgress(cfg, st, who, k, p, s);
        } else if what == 10 {
          StandbyProgress(cfg, st, |cfg.bands|, k, p, s);
          QuietProgress(StandbyAfter(cfg, st, |cfg.bands|), EnterStandby(cfg, st), k, p, s);
        }
      case Manage(who, reports) =>
        ManagerProgress(cfg, st, who, reports, |cfg.bands|, k, p, s);
    }
  }

  lemma {:induction false} RunProgress(cfg: Config, st: State, es: seq<Event>, k: nat, p: nat, s: Signal)
    requires Inv(cfg, st) && AllPossible(cfg, es) && WellBehavedRun(cfg, st, es)
    requires forall i :: 0 <= i < |es| ==> !es[i].Prioritisation?
    requires IsPrimary(s.band) && !IsPinned(cfg, s) && Progress(st, k, p, s)
    ensures Progress(Run(cfg, st, es), k, p, s)
  {
    if es != [] {
      var init := es[..|es| - 1];
      RunProgress(cfg, st, init, k, p, s);
      assert FreePool(cfg, {}) && Kept(st, {}, {});
      RunKeeps(cfg, st, init, {});
      StepProgress(cfg, Run(cfg, st, init), es[|es| - 1], k, p, s);
    }
  }

  /** Bounded overtaking: an unpinned signal of a primary band that waits at position `p`, held by
      no busy channel, is among the first p+1 signals that later searches of its band take, or
      fewer searches of the band have happened and each has moved it one place forward.  This
      holds over every well-behaved run without prioritisation. */
  lemma BoundedOvertaking(cfg: Config, st: State, es: seq<Event>, s: Signal)
    requires Inv(cfg, st) && AllPossible(cfg, es) && WellBehavedRun(cfg, st, es)
    requires forall i :: 0 <= i < |es| ==> !es[i].Prioritisation?
    requires IsPrimary(s.band) && !IsPinned(cfg, s) && Waits(st, s)
    ensures var p := Position(ListOf(st.lists, s.band), s);
            var r := Run(cfg, st, es);
            && st.picks <= r.picks
            && var taken := BandPicks(r.picks[|st.picks|..], s.band);
               && (|taken| > p ==> s in taken[..p + 1])
               && (s !in taken ==> Waits(r, s) && Position(ListOf(r.lists, s.band), s) + |taken| <= p)
  {
    var k, p := |st.picks|, Position(ListOf(st.lists, s.band), s);
    assert st.picks[k..] == [];
    RunProgress(cfg, st, es, k, p, s);
    RunGrowsPicks(cfg, st, es);
    var taken := BandPicks(Run(cfg, st, es).picks[k..], s.band);
    if PickedSoon(Run(cfg, st, es), k, p, s) {
      var i :| 0 <= i <= p && i < |taken| && taken[i] == s;
      if |taken| > p {
        assert taken[..p + 1][i] == s;
      }
    }
  }

  lemma {:induction false} RunGrowsPicks(cfg: Config, st: State, es: seq<Event>)
    requires Sized(cfg, st) && AllPossible(cfg, es)
    ensures st.picks <= Run(cfg, st, es).picks
  {
    if es != [] {
      RunGrowsPicks(cfg, st, es[..|es| - 1]);
      StepGrowsPicks(cfg, Run(cfg, st, es[..|es| - 1]), es[|es| - 1]);
    }
  }
}
