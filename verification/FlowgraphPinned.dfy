/** Satellites that channels are pinned to stay with them: as long as no standby is requested, they
    are in no waiting list and on no other channel. */
module FlowgraphPinned {
  import opened Signals
  import opened FlowgraphModel
  import opened FlowgraphSafety
  import opened FlowgraphExclusive

  /** Every pinned channel has its satellite, which waits in no list and is on no channel that is not
      pinned. */
  ghost predicate PinsApart(cfg: Config, st: State)
    requires Sized(cfg, st)
  {
    forall c :: 0 <= c < |cfg.bands| && cfg.pinned[c] != 0 ==>
      var s := Signal(cfg.bands[c], cfg.pinned[c]);
      && st.signal[c] == s && s !in ListOf(st.lists, s.band)
      && forall d :: 0 <= d < |cfg.bands| && cfg.pinned[d] == 0 ==> st.signal[d] != s
  }

  ghost predicate Reserved(cfg: Config, st: State) {
    Inv(cfg, st) && PinsApart(cfg, st)
  }

  /** Only channels below 200 are pinned. */
  predicate LowPins(cfg: Config) {
    forall c :: 0 <= c < |cfg.pinned| && cfg.pinned[c] != 0 ==> c < 200
  }

  // ---------------------------------------------------------------- steps

  lemma PushFree(cfg: Config, st: State, s: Signal)
    requires Reserved(cfg, st) && !IsPinned(cfg, s)
    ensures Reserved(cfg, PushBack(st, s))
  {
    PushBackKeeps(st, s);
  }

  lemma ListedIsFree(cfg: Config, st: State, s: Signal)
    requires Reserved(cfg, st) && s in ListOf(st.lists, s.band)
    ensures !IsPinned(cfg, s)
  {
  }

  lemma TakeReserved(cfg: Config, st: State, c: nat, s: Signal, rest: seq<Signal>)
    requires Reserved(cfg, st) && c < |cfg.bands| && cfg.pinned[c] == 0 && st.phase[c].Idle?
    requires s.band == cfg.bands[c] && TookOne(ListOf(st.lists, s.band), s.band, true, s, rest)
    ensures Reserved(cfg, Take(st, c, s, rest)) && !IsPinned(cfg, s)
  {
    ListedIsFree(cfg, st, s);
    TakeKeeps(cfg, st, c, s, rest);
    var t := Take(st, c, s, rest);
    assert forall b: Band :: ListOf(t.lists, b) == if b == s.band then rest else ListOf(st.lists, b);
    forall d | 0 <= d < |cfg.bands| && cfg.pinned[d] != 0 ensures Signal(cfg.bands[d], cfg.pinned[d]) != s {
      assert IsPinned(cfg, Signal(cfg.bands[d], cfg.pinned[d]));
    }
  }

  lemma VisitReserved(cfg: Config, st: State, c: nat, reports: seq<Report>, r: State)
    requires Reserved(cfg, st) && c < |cfg.bands| && r == Visit(cfg, st, c, reports)
    ensures Reserved(cfg, r)
  {
    VisitKeeps(cfg, st, c, reports, {}, {});
    if st.count < cfg.limit && st.phase[c].Idle? && cfg.pinned[c] == 0 {
      var b := st.signal[c].band;
      SearchTakesOne(cfg, ListOf(st.lists, b), b, true, reports);
      match SearchNext(cfg, ListOf(st.lists, b), b, true, reports)
      case Underflow =>
      case Hit(s, rest, assisted) =>
        TakeReserved(cfg, st, c, s, rest);
        PushFree(cfg, Take(st, c, s, rest), s);
    }
  }

  lemma {:induction false} ManagerReserved(cfg: Config, st: State, who: nat, reports: seq<seq<Report>>, i: nat)
    requires Reserved(cfg, st) && (i > 0 ==> |cfg.bands| > 0)
    ensures Reserved(cfg, ManagerAfter(cfg, st, who, reports, i))
  {
    if i > 0 {
      ManagerReserved(cfg, st, who, reports, i - 1);
      VisitReserved(cfg, ManagerAfter(cfg, st, who, reports, i - 1), Visited(|cfg.bands|, who, i - 1),
                    ReportsAt(reports, i - 1), ManagerAfter(cfg, st, who, reports, i));
    }
  }

  lemma OwnSignalIsFree(cfg: Config, st: State, who: nat)
    requires Reserved(cfg, st) && who < |cfg.bands| && cfg.pinned[who] == 0
    ensures !IsPinned(cfg, st.signal[who])
  {
  }

  lemma FailedReserved(cfg: Config, st: State, who: nat, reports: seq<seq<Report>>)
    requires LowPins(cfg) && Reserved(cfg, st) && who < |cfg.bands|
    ensures Reserved(cfg, AcquisitionFailed(cfg, st, who, reports))
  {
    var freed := FreeChannel(cfg, st, who, {});
    ManagerReserved(cfg, freed, who, reports, |cfg.bands|);
    if cfg.pinned[who] == 0 {
      OwnSignalIsFree(cfg, st, who);
      PushFree(cfg, Manager(cfg, freed, who, reports), st.signal[who]);
    }
  }

  lemma SucceededReserved(cfg: Config, st: State, who: nat, reports: seq<seq<Report>>)
    requires Reserved(cfg, st) && who < |cfg.bands|
    ensures Reserved(cfg, AcquisitionSucceeded(cfg, st, who, reports))
  {
    RemoveKeeps(st, st.signal[who]);
    var tracking := TrackChannel(cfg, st, who, {});
    ManagerReserved(cfg, tracking, who, reports, |cfg.bands|);
  }

  lemma LostReserved(cfg: Config, st: State, who: nat)
    requires LowPins(cfg) && Reserved(cfg, st) && who < |cfg.bands|
    ensures Reserved(cfg, TrackingLost(cfg, st, who))
  {
    LostKeeps(cfg, st, who, {});
    if st.count >= cfg.limit && cfg.pinned[who] == 0 {
      OwnSignalIsFree(cfg, st, who);
      PushFree(cfg, st.(phase := st.phase[who := Idle]), st.signal[who]);
    }
  }

  predicate IsStandby(e: Event) {
    e.Action? && e.what == 10
  }

  lemma StepReserved(cfg: Config, st: State, e: Event)
    requires LowPins(cfg) && Reserved(cfg, st) && Possible(cfg, e) && !IsStandby(e)
    ensures Reserved(cfg, Step(cfg, st, e))
  {
    match e
    case Action(who, what, reports) =>
      if what == 0 {
        FailedReserved(cfg, st, who, reports);
      } else if what == 1 {
        SucceededReserved(cfg, st, who, reports);
      } else if what == 2 {
        LostReserved(cfg, st, who);
      }
    case Manage(who, reports) =>
      ManagerReserved(cfg, st, who, reports, |cfg.bands|);
    case Prioritisation(visible) =>
      PrioritiseKeeps(cfg, st, visible, {});
      SameMembers(st, visible);
  }

  lemma {:induction false} RunReserved(cfg: Config, st: State, es: seq<Event>)
    requires LowPins(cfg) && Reserved(cfg, st) && AllPossible(cfg, es)
    requires forall i :: 0 <= i < |es| ==> !IsStandby(es[i])
    ensures Reserved(cfg, Run(cfg, st, es))
  {
    if es != [] {
      RunReserved(cfg, st, es[..|es| - 1]);
      StepReserved(cfg, Run(cfg, st, es[..|es| - 1]), es[|es| - 1]);
    }
  }

  // ---------------------------------------------------------------- the initial assignment

  /** The part of an order from `n` on has no pinned channel, the part before has only pinned ones. */
  ghost predicate SplitsAt(cfg: Config, order: seq<nat>, n: nat) {
    && n <= |order| && (forall i :: 0 <= i < |order| ==> order[i] < |cfg.pinned|)
    && (forall i :: 0 <= i < n ==> cfg.pinned[order[i]] != 0)
    && (forall i :: n <= i < |order| ==> cfg.pinned[order[i]] == 0)
  }

  /** Pinned channels come before the others. */
  lemma {:induction false} PinnedFirst(cfg: Config, k: nat) returns (n: nat)
    requires k <= |cfg.pinned|
    ensures SplitsAt(cfg, AssignOrder(cfg, k), n)
  {
    n := 0;
    if k > 0 {
      n := PinnedFirst(cfg, k - 1);
      if cfg.pinned[k - 1] != 0 {
        n := n + 1;
      }
    }
  }

  /** What holds while channels are being assigned: pinned satellites of the channels done are in no
      list, and no channel that is not pinned has any. */
  ghost predicate Reserving(cfg: Config, st: State, done: seq<nat>) {
    && Assigned(cfg, st, {}, done)
    && forall c :: 0 <= c < |cfg.bands| && cfg.pinned[c] != 0 ==>
         var s := Signal(cfg.bands[c], cfg.pinned[c]);
         && (c in done ==> s !in ListOf(st.lists, s.band))
         && forall d :: 0 <= d < |cfg.bands| && cfg.pinned[d] == 0 ==> st.signal[d] != s
  }

  lemma AssignPinned(cfg: Config, st: State, c: nat, reports: seq<Report>, done: seq<nat>)
    requires Reserving(cfg, st, done) && c < |cfg.bands| && cfg.pinned[c] != 0
    ensures Reserving(cfg, Assign(cfg, st, c, reports), done + [c])
  {
    AssignKeeps(cfg, st, c, reports, {}, done);
    RemoveKeeps(st, Signal(st.signal[c].band, cfg.pinned[c]));
  }

  lemma AssignFree(cfg: Config, st: State, c: nat, reports: seq<Report>, done: seq<nat>)
    requires Reserving(cfg, st, done) && c < |cfg.bands| && cfg.pinned[c] == 0
    requires forall d :: 0 <= d < |cfg.bands| && cfg.pinned[d] != 0 ==> d in done
    ensures Reserving(cfg, Assign(cfg, st, c, reports), done + [c])
  {
    var b := st.signal[c].band;
    AssignKeeps(cfg, st, c, reports, {}, done);
    SearchTakesOne(cfg, ListOf(st.lists, b), b, false, reports);
    match SearchNext(cfg, ListOf(st.lists, b), b, false, reports)
    case Underflow =>
    case Hit(s, rest, _) =>
      var r := Assign(cfg, st, c, reports);
      assert forall d :: ListOf(r.lists, d) == if d == b then rest else ListOf(st.lists, d);
  }

  lemma AssignNext(cfg: Config, st: State, c: nat, reports: seq<Report>, done: seq<nat>, r: State, all: seq<nat>)
    requires Reserving(cfg, st, done) && c < |cfg.bands| && r == Assign(cfg, st, c, reports) && all == done + [c]
    requires cfg.pinned[c] == 0 ==> PinsDone(cfg, done)
    ensures Reserving(cfg, r, all)
  {
    if cfg.pinned[c] != 0 {
      AssignPinned(cfg, st, c, reports, done);
    } else {
      AssignFree(cfg, st, c, reports, done);
    }
  }

  /** When a channel that is not pinned is reached, all pinned ones are done. */
  ghost predicate PinsLead(cfg: Config, order: seq<nat>)
    requires |cfg.pinned| == |cfg.bands|
  {
    && (forall i :: 0 <= i < |order| ==> order[i] < |cfg.bands|)
    && forall k :: 0 <= k < |order| && cfg.pinned[order[k]] == 0 ==> PinsDone(cfg, order[..k])
  }

  ghost predicate PinsDone(cfg: Config, done: seq<nat>)
    requires |cfg.pinned| == |cfg.bands|
  {
    forall d :: 0 <= d < |cfg.bands| && cfg.pinned[d] != 0 ==> d in done
  }

  lemma {:induction false} LeadsShorter(cfg: Config, order: seq<nat>, n: nat)
    requires |cfg.pinned| == |cfg.bands| && PinsLead(cfg, order) && n <= |order|
    ensures PinsLead(cfg, order[..n])
  {
    forall k | 0 <= k < n && cfg.pinned[order[k]] == 0 ensures PinsDone(cfg, order[..n][..k]) {
      assert order[..n][..k] == order[..k];
    }
  }

  lemma {:induction false} AssignAllReserves(cfg: Config, st: State, order: seq<nat>, reports: seq<seq<Report>>)
    requires |cfg.pinned| == |cfg.bands| && Reserving(cfg, st, []) && PinsLead(cfg, order)
    ensures Reserving(cfg, AssignAll(cfg, st, order, reports), order)
  {
    if order != [] {
      var n := |order| - 1;
      var done := order[..n];
      LeadsShorter(cfg, order, n);
      assert done + [order[n]] == order;
      AssignAllReserves(cfg, st, done, reports);
      AssignNext(cfg, AssignAll(cfg, st, done, reports), order[n], ReportsAt(reports, n), done,
                 AssignAll(cfg, st, order, reports), order);
    }
  }

  lemma OrderLeads(cfg: Config)
    requires |cfg.pinned| == |cfg.bands|
    ensures PinsLead(cfg, AssignOrder(cfg, |cfg.pinned|))
  {
    var order := AssignOrder(cfg, |cfg.pinned|);
    var n := PinnedFirst(cfg, |cfg.pinned|);
    AssignOrderComplete(cfg, |cfg.pinned|);
    forall k | 0 <= k < |order| && cfg.pinned[order[k]] == 0 ensures PinsDone(cfg, order[..k]) {
      forall d | 0 <= d < |cfg.bands| && cfg.pinned[d] != 0 ensures d in order[..k] {
        assert d in order;
        var j :| 0 <= j < |order| && order[j] == d;
        assert j < n <= k;
        assert order[..k][j] == d;
      }
    }
  }

  lemma InitialReserved(cfg: Config, lists: map<Band, seq<Signal>>, reports: seq<seq<Report>>)
    requires GoodConfig(cfg) && GoodLists(lists)
    ensures Reserved(cfg, Initial(cfg, lists, reports))
  {
    var order := AssignOrder(cfg, |cfg.pinned|);
    InitialKeeps(cfg, lists, reports, {});
    OrderLeads(cfg);
    AssignAllReserves(cfg, Unassigned(cfg, lists), order, reports);
    AssignOrderComplete(cfg, |cfg.pinned|);
  }

  // ---------------------------------------------------------------- the theorem

  /** Satellites stay with the channels they are pinned to: from the start, after any sequence of events
      without a standby request, however the channels behave, no satellite that a channel is pinned to
      waits in its list or is on a channel that is not pinned. */
  lemma PinnedStayApart(cfg: Config, lists: map<Band, seq<Signal>>, reports: seq<seq<Report>>, es: seq<Event>)
    requires GoodConfig(cfg) && GoodLists(lists) && LowPins(cfg) && AllPossible(cfg, es)
    requires forall i :: 0 <= i < |es| ==> !IsStandby(es[i])
    ensures PinsApart(cfg, Run(cfg, Initial(cfg, lists, reports), es))
  {
    InitialReserved(cfg, lists, reports);
    RunReserved(cfg, Initial(cfg, lists, reports), es);
  }

  /** A failure of a channel from 200 on pushes its satellite back, pinned or not. */
  lemma HighPinEscapes(cfg: Config, st: State, c: nat)
    requires Inv(cfg, st) && 200 <= c < |cfg.bands| && cfg.pinned[c] != 0
    ensures !PinsApart(cfg, AcquisitionFailed(cfg, st, c, []))
  {
    var s := Signal(cfg.bands[c], cfg.pinned[c]);
    assert st.signal[c] == s;
    var freed := FreeChannel(cfg, st, c, {});
    ManagerInv(cfg, freed, c, [], |cfg.bands|);
    PushBackKeeps(Manager(cfg, freed, c, []), s);
  }

  /** The exact condition: this holds for all such runs if and only if only channels below 200 are
      pinned, the range in which the source looks the satellite up. */
  lemma PinsApartExactly(cfg: Config, lists: map<Band, seq<Signal>>, reports: seq<seq<Report>>)
    requires GoodConfig(cfg) && GoodLists(lists)
    ensures LowPins(cfg) <==>
            forall es :: AllPossible(cfg, es) && (forall i :: 0 <= i < |es| ==> !IsStandby(es[i]))
              ==> PinsApart(cfg, Run(cfg, Initial(cfg, lists, reports), es))
  {
    var st := Initial(cfg, lists, reports);
    if LowPins(cfg) {
      forall es | AllPossible(cfg, es) && forall i :: 0 <= i < |es| ==> !IsStandby(es[i])
        ensures PinsApart(cfg, Run(cfg, st, es))
      {
        PinnedStayApart(cfg, lists, reports, es);
      }
    } else {
      var c: nat :| c < |cfg.pinned| && cfg.pinned[c] != 0 && c >= 200;
      InitialReserved(cfg, lists, reports);
      var es := EscapingRun(cfg, st, c);
    }
  }

  lemma EscapingRun(cfg: Config, st: State, c: nat) returns (es: seq<Event>)
    requires Inv(cfg, st) && 200 <= c < |cfg.bands| && cfg.pinned[c] != 0
    ensures AllPossible(cfg, es) && (forall i :: 0 <= i < |es| ==> !IsStandby(es[i])) && !PinsApart(cfg, Run(cfg, st, es))
  {
    HighPinEscapes(cfg, st, c);
    es := [Action(c, 0, [])];
    assert es[..0] == [];
    assert Run(cfg, st, es[..0]) == st;
  }

  // ---------------------------------------------------------------- standby

  /** Standby takes no signal from a list and puts the signal of a busy channel there. */
  lemma StandbyOneReturns(st: State, k: nat, s: Signal, r: State)
    requires k < |st.phase| == |st.signal| && GoodLists(st.lists) && r == StandbyOne(st, k)
    requires s in ListOf(st.lists, s.band) || (st.signal[k] == s && !st.phase[k].Idle?)
    ensures s in ListOf(r.lists, s.band)
  {
    PushBackKeeps(st, st.signal[k]);
  }

  lemma {:induction false} StandbyReturns(cfg: Config, st: State, k: nat, c: nat)
    requires Inv(cfg, st) && c < k <= |cfg.bands| && !st.phase[c].Idle?
    ensures st.signal[c] in ListOf(StandbyAfter(cfg, st, k).lists, cfg.bands[c])
  {
    StandbyKeeps(cfg, st, k - 1, {});
    StandbyIdles(cfg, st, k - 1);
    if c < k - 1 {
      StandbyReturns(cfg, st, k - 1, c);
    }
    StandbyOneReturns(StandbyAfter(cfg, st, k - 1), k - 1, st.signal[c], StandbyAfter(cfg, st, k));
  }

  /** A standby request returns the signal of every busy channel to its list, also of a pinned one. */
  lemma StandbyReturnsAll(cfg: Config, st: State, c: nat)
    requires Inv(cfg, st) && c < |cfg.bands| && !st.phase[c].Idle?
    ensures st.signal[c] in ListOf(EnterStandby(cfg, st).lists, cfg.bands[c])
  {
    StandbyReturns(cfg, st, |cfg.bands|, c);
  }

  lemma StandbyOneLast(st: State, k: nat, s: Signal, r: State)
    requires k < |st.phase| == |st.signal| && r == StandbyOne(st, k)
    requires if st.phase[k].Idle? || st.signal[k].band != s.band
             then IsLast(ListOf(st.lists, s.band), s) else st.signal[k] == s
    ensures IsLast(ListOf(r.lists, s.band), s)
  {
  }

  predicate IsLast(l: seq<Signal>, s: Signal) {
    l != [] && l[|l| - 1] == s
  }

  lemma {:induction false} StandbyEndsWith(cfg: Config, st: State, k: nat, c: nat)
    requires Inv(cfg, st) && c < k <= |cfg.bands| && !st.phase[c].Idle?
    requires forall d :: c < d < k && cfg.bands[d] == cfg.bands[c] ==> st.phase[d].Idle?
    ensures IsLast(ListOf(StandbyAfter(cfg, st, k).lists, cfg.bands[c]), st.signal[c])
  {
    StandbyIdles(cfg, st, k - 1);
    if c < k - 1 {
      StandbyEndsWith(cfg, st, k - 1, c);
    }
    StandbyOneLast(StandbyAfter(cfg, st, k - 1), k - 1, st.signal[c], StandbyAfter(cfg, st, k));
  }

  /** Channels give their signals back in channel order: that of the last busy channel of a band ends
      its list. */
  lemma StandbyInOrder(cfg: Config, st: State, c: nat)
    requires Inv(cfg, st) && c < |cfg.bands| && !st.phase[c].Idle?
    requires forall d :: c < d < |cfg.bands| && cfg.bands[d] == cfg.bands[c] ==> st.phase[d].Idle?
    ensures IsLast(ListOf(EnterStandby(cfg, st).lists, cfg.bands[c]), st.signal[c])
  {
    StandbyEndsWith(cfg, st, |cfg.bands|, c);
  }
}
