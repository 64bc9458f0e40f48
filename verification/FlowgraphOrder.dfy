/** The order in which satellites wait: a signal whose acquisition failed goes to the back and
    is not taken again by the same step, and prioritised satellites come before all others. */
module FlowgraphOrder {
  import opened Signals
  import opened FlowgraphModel
  import opened FlowgraphSafety

  // ---------------------------------------------------------------- failed signals

  /** A signal that is in no list is not taken by the manager. */
  ghost predicate Absent(st: State, k: nat, s: Signal) {
    k <= |st.picks| && s !in ListOf(st.lists, s.band) && s !in st.picks[k..]
  }

  lemma VisitAbsent(cfg: Config, st: State, c: nat, reports: seq<Report>, k: nat, s: Signal)
    requires Inv(cfg, st) && c < |cfg.bands| && Absent(st, k, s)
    ensures Absent(Visit(cfg, st, c, reports), k, s)
  {
    if st.count < cfg.limit && st.phase[c].Idle? && cfg.pinned[c] == 0 {
      var b := st.signal[c].band;
      SearchTakesOne(cfg, ListOf(st.lists, b), b, true, reports);
      match SearchNext(cfg, ListOf(st.lists, b), b, true, reports)
      case Underflow =>
      case Hit(x, rest, assisted) =>
        TakeKeeps(cfg, st, c, x, rest);
        var t := Take(st, c, x, rest);
        assert t.picks[k..] == st.picks[k..] + [x];
        PushBackKeeps(t, x);
    }
  }

  lemma {:induction false} ManagerAbsent(cfg: Config, st: State, who: nat, reports: seq<seq<Report>>, i: nat, k: nat, s: Signal)
    requires Inv(cfg, st) && Absent(st, k, s) && (i > 0 ==> |cfg.bands| > 0)
    ensures Absent(ManagerAfter(cfg, st, who, reports, i), k, s)
  {
    if i > 0 {
      ManagerAbsent(cfg, st, who, reports, i - 1, k, s);
      ManagerInv(cfg, st, who, reports, i - 1);
      VisitAbsent(cfg, ManagerAfter(cfg, st, who, reports, i - 1), Visited(|cfg.bands|, who, i - 1),
                  ReportsAt(reports, i - 1), k, s);
    }
  }

  /** After a failed acquisition of an unpinned channel its signal is last in its list, once; and
      if it was not in the list before, the same step hands it to no channel. */
  lemma FailedSignalGoesLast(cfg: Config, st: State, who: nat, reports: seq<seq<Report>>)
    requires Inv(cfg, st) && who < |cfg.bands| && PinOf(cfg, who) == 0
    ensures var gs := st.signal[who];
            var r := AcquisitionFailed(cfg, st, who, reports);
            var l := ListOf(r.lists, gs.band);
            && l != [] && l[|l| - 1] == gs && gs !in l[..|l| - 1]
            && |st.picks| <= |r.picks|
            && (gs !in ListOf(st.lists, gs.band) ==> gs !in r.picks[|st.picks|..])
  {
    var gs := st.signal[who];
    var freed := FreeChannel(cfg, st, who, {});
    var managed := Manager(cfg, freed, who, reports);
    ManagerKeeps(cfg, freed, who, reports, |cfg.bands|, {}, {});
    RemoveFromGoodList(ListOf(managed.lists, gs.band), gs);
    var l := Remove(ListOf(managed.lists, gs.band), gs) + [gs];
    assert l[..|l| - 1] == Remove(ListOf(managed.lists, gs.band), gs);
    ManagerGrowsPicks(cfg, freed, who, reports, |cfg.bands|);
    if gs !in ListOf(st.lists, gs.band) {
      assert freed.picks[|st.picks|..] == [];
      ManagerAbsent(cfg, freed, who, reports, |cfg.bands|, |st.picks|, gs);
    }
  }

  // ---------------------------------------------------------------- prioritised satellites

  /** A signal of one of the three GPS or the four Galileo bands, sent by the given satellite. */
  predicate SentBy(s: Signal, sat: Satellite) {
    && s.prn == sat.prn
    && ( || (sat.system == GPS && s.band in {GPS_1C, GPS_2S, GPS_L5})
         || (sat.system == Galileo && s.band in {GAL_1B, GAL_5X, GAL_7X, GAL_E6}))
  }

  predicate IsVisible(s: Signal, visible: seq<Satellite>) {
    exists i :: 0 <= i < |visible| && SentBy(s, visible[i])
  }

  /** The last place at which a satellite that sends `s` is named, or -1. */
  function LastNamed(s: Signal, visible: seq<Satellite>): (i: int)
    ensures -1 <= i < |visible|
  {
    var n := |visible| - 1;
    if visible == [] then -1 else if SentBy(s, visible[n]) then n else LastNamed(s, visible[..n])
  }

  /** Signals named later come first. */
  ghost predicate LatestFirst(l: seq<Signal>, visible: seq<Satellite>) {
    forall i, j :: 0 <= i < j < |l| ==> LastNamed(l[i], visible) > LastNamed(l[j], visible)
  }

  lemma {:induction false} RemoveLatestFirst(l: seq<Signal>, s: Signal, visible: seq<Satellite>)
    requires GoodList(l, s.band) && LatestFirst(l, visible)
    ensures LatestFirst(Remove(l, s), visible)
  {
    if l != [] {
      RemoveLatestFirst(l[1..], s, visible);
      RemoveFromGoodList(l[1..], s);
      assert forall x :: x in l[1..] ==> LastNamed(l[0], visible) > LastNamed(x, visible);
    }
  }

  /** Naming one more satellite moves its signal to the head. */
  lemma {:induction false} LatestFirstStep(l: seq<Signal>, before: seq<Signal>, s: Signal, visible: seq<Satellite>)
    requires visible != [] && s == Signal(s.band, visible[|visible| - 1].prn) && Prioritisable(visible[|visible| - 1], s.band)
    requires GoodList(before, s.band) && LatestFirst(before, visible[..|visible| - 1])
    ensures LatestFirst(Moved(l, before, s), visible)
  {
    var n := |visible| - 1;
    var rest := Remove(before, s);
    RemoveLatestFirst(before, s, visible[..n]);
    RemoveFromGoodList(before, s);
    forall x | x in rest ensures LastNamed(x, visible) == LastNamed(x, visible[..n]) < n {
      assert x.band == s.band && x != s;
    }
  }

  lemma {:induction false} LatestFirstStays(l: seq<Signal>, b: Band, visible: seq<Satellite>)
    requires visible != [] && !Prioritisable(visible[|visible| - 1], b) && AllOfBand(l, b)
    requires LatestFirst(l, visible[..|visible| - 1])
    ensures LatestFirst(l, visible)
  {
    assert forall i :: 0 <= i < |l| ==> LastNamed(l[i], visible) == LastNamed(l[i], visible[..|visible| - 1]);
  }

  /** The signals that no visible satellite names, in their order. */
  function Others(l: seq<Signal>, visible: seq<Satellite>): seq<Signal> {
    if l == [] then []
    else (if IsVisible(l[0], visible) then [] else [l[0]]) + Others(l[1..], visible)
  }

  lemma {:induction false} OthersMembers(l: seq<Signal>, visible: seq<Satellite>)
    ensures forall x :: x in Others(l, visible) <==> x in l && !IsVisible(x, visible)
  {
    if l != [] {
      assert l == [l[0]] + l[1..];
      OthersMembers(l[1..], visible);
    }
  }

  lemma {:induction false} RemoveConcat(a: seq<Signal>, b: seq<Signal>, s: Signal)
    ensures Remove(a + b, s) == Remove(a, s) + Remove(b, s)
  {
    if a == [] {
      assert a + b == b;
    } else {
      assert (a + b)[1..] == a[1..] + b;
      RemoveConcat(a[1..], b, s);
    }
  }

  lemma VisibleExtends(s: Signal, visible: seq<Satellite>)
    requires visible != []
    ensures IsVisible(s, visible) <==>
            IsVisible(s, visible[..|visible| - 1]) ||
            (Prioritisable(visible[|visible| - 1], s.band) && visible[|visible| - 1].prn == s.prn)
  {
    var n := |visible| - 1;
    assert SentBy(s, visible[n]) <==> Prioritisable(visible[n], s.band) && visible[n].prn == s.prn;
    if i :| 0 <= i < |visible| && SentBy(s, visible[i]) && i < n {
      assert visible[..n][i] == visible[i];
    }
    if IsVisible(s, visible[..n]) {
      var i :| 0 <= i < n && SentBy(s, visible[..n][i]);
      assert visible[i] == visible[..n][i];
    }
  }

  lemma {:induction false} OthersStep(l: seq<Signal>, b: Band, visible: seq<Satellite>)
    requires AllOfBand(l, b) && visible != []
    ensures var n := |visible| - 1;
            Others(l, visible) ==
            if Prioritisable(visible[n], b) then Remove(Others(l, visible[..n]), Signal(b, visible[n].prn))
            else Others(l, visible[..n])
  {
    if l != [] {
      var n := |visible| - 1;
      OthersStep(l[1..], b, visible);
      VisibleExtends(l[0], visible);
      RemoveConcat(if IsVisible(l[0], visible[..n]) then [] else [l[0]], Others(l[1..], visible[..n]),
                   Signal(b, visible[n].prn));
    }
  }

  /** Prioritisation permutes each list: the visible satellites come first, those named last in
      front, and all others follow in the order they had. */
  lemma {:induction false} PrioritisedFirst(l: seq<Signal>, b: Band, visible: seq<Satellite>) returns (front: seq<Signal>)
    requires GoodList(l, b)
    ensures PrioritiseList(l, b, visible) == front + Others(l, visible)
    ensures forall x :: x in front <==> x in l && IsVisible(x, visible)
    ensures LatestFirst(front, visible)
    ensures GoodList(PrioritiseList(l, b, visible), b)
    ensures forall x :: x in PrioritiseList(l, b, visible) <==> x in l
  {
    PrioritiseListKeeps(l, b, visible);
    OthersMembers(l, visible);
    if visible == [] {
      front := [];
      NothingVisible(l);
    } else {
      var n := |visible| - 1;
      var before := PrioritisedFirst(l, b, visible[..n]);
      OthersStep(l, b, visible);
      forall x | x in l ensures IsVisible(x, visible) <==>
          IsVisible(x, visible[..n]) || (Prioritisable(visible[n], b) && x == Signal(b, visible[n].prn))
      {
        VisibleExtends(x, visible);
      }
      front := before;
      BeforeIsGood(before, Others(l, visible[..n]), b);
      if Prioritisable(visible[n], b) {
        var s := Signal(b, visible[n].prn);
        FrontStep(l, b, visible, before);
        FrontMembers(l, before, s);
        LatestFirstStep(l, before, s, visible);
        front := Moved(l, before, s);
      } else {
        LatestFirstStays(before, b, visible);
      }
    }
  }

  /** Prioritisation of the receiver's lists: in the list of every band the signals of the visible
      satellites come first, those named last in front, all others follow in the order they had, and
      nothing else changes. */
  lemma PrioritisedLists(st: State, visible: seq<Satellite>, b: Band) returns (front: seq<Signal>)
    requires GoodLists(st.lists)
    ensures var r := Prioritise(st, visible);
            && ListOf(r.lists, b) == front + Others(ListOf(st.lists, b), visible)
            && (forall x :: x in front <==> x in ListOf(st.lists, b) && IsVisible(x, visible))
            && LatestFirst(front, visible)
            && r == st.(lists := r.lists)
  {
    if b in st.lists {
      assert ListOf(st.lists, b) == st.lists[b];
      front := PrioritisedFirst(st.lists[b], b, visible);
    } else {
      front := [];
    }
  }

  /** The front part once `s`, if listed in `l` at all, has been moved to its head. */
  function Moved(l: seq<Signal>, before: seq<Signal>, s: Signal): seq<Signal> {
    (if s in l then [s] else []) + Remove(before, s)
  }

  lemma {:induction false} FrontStep(l: seq<Signal>, b: Band, visible: seq<Satellite>, before: seq<Signal>)
    requires GoodList(l, b) && visible != []
    requires Prioritisable(visible[|visible| - 1], b)
    requires PrioritiseList(l, b, visible[..|visible| - 1]) == before + Others(l, visible[..|visible| - 1])
    ensures PrioritiseList(l, b, visible) == Moved(l, before, Signal(b, visible[|visible| - 1].prn)) + Others(l, visible)
    ensures GoodList(before, b)
  {
    var n := |visible| - 1;
    PrioritiseStep(l, b, visible);
    OthersStep(l, b, visible);
    RemoveConcat(before, Others(l, visible[..n]), Signal(b, visible[n].prn));
    BeforeIsGood(before, Others(l, visible[..n]), b);
  }

  lemma {:induction false} PrioritiseStep(l: seq<Signal>, b: Band, visible: seq<Satellite>)
    requires GoodList(l, b) && visible != [] && Prioritisable(visible[|visible| - 1], b)
    ensures var r, s := PrioritiseList(l, b, visible[..|visible| - 1]), Signal(b, visible[|visible| - 1].prn);
            GoodList(r, b) && PrioritiseList(l, b, visible) == (if s in l then [s] else []) + Remove(r, s)
  {
    var n := |visible| - 1;
    PrioritiseListKeeps(l, b, visible[..n]);
    RemoveShrinks(PrioritiseList(l, b, visible[..n]), Signal(b, visible[n].prn));
  }

  lemma FrontMembers(l: seq<Signal>, before: seq<Signal>, s: Signal)
    requires GoodList(before, s.band) && forall x :: x in before ==> x in l
    ensures forall x :: x in Moved(l, before, s) <==> (x in before || x == s) && x in l
  {
    RemoveFromGoodList(before, s);
  }

  lemma BeforeIsGood(a: seq<Signal>, c: seq<Signal>, b: Band)
    requires GoodList(a + c, b)
    ensures GoodList(a, b)
  {
    assert forall i :: 0 <= i < |a| ==> (a + c)[i] == a[i];
  }

  lemma {:induction false} NothingVisible(l: seq<Signal>)
    ensures Others(l, []) == l
  {
    if l != [] {
      NothingVisible(l[1..]);
    }
  }
}
