/** What the scheduler's searches find: which status reports assist which bands, which channels may stay
    idle, and what becomes of the signal of a channel that succeeds or loses its satellite. */
module FlowgraphSearch {
  import opened Modular
  import opened Signals
  import opened FlowgraphModel
  import opened FlowgraphSafety
  import opened FlowgraphExclusive
  import opened FlowgraphFairness
  import opened FlowgraphOrder

  // ---------------------------------------------------------------- one search

  /** Which reports assist a search: GPS L1 C/A those of GPS L2C and L5, Galileo E1 those of E5a, E5b
      and E6; GLONASS and BeiDou searches are never assisted. */
  predicate Assists(r: Report, b: Band) {
    || (r.band == GPS_1C && b in {GPS_2S, GPS_L5})
    || (r.band == GAL_1B && b in {GAL_5X, GAL_7X, GAL_E6})
  }

  /** A report of a configured band that assists band `b` with a satellite that waits in `l`. */
  predicate Useful(cfg: Config, r: Report, b: Band, l: seq<Signal>) {
    Assists(r, b) && r.band in cfg.bands && Signal(b, r.prn) in l
  }

  /** The first useful report, or |reports|. */
  function FirstUseful(cfg: Config, reports: seq<Report>, b: Band, l: seq<Signal>): (j: nat)
    ensures j <= |reports|
    ensures j < |reports| ==> Useful(cfg, reports[j], b, l)
    ensures forall i :: 0 <= i < j ==> !Useful(cfg, reports[i], b, l)
  {
    if reports == [] || Useful(cfg, reports[0], b, l) then 0
    else
      var j := 1 + FirstUseful(cfg, reports[1..], b, l);
      assert forall i :: 0 < i < j ==> reports[i] == reports[1..][i - 1];
      j
  }

  lemma {:induction false} FindsListed(l: seq<Signal>, b: Band, prn: nat)
    requires GoodList(l, b)
    ensures var k := FindPrn(l, prn);
            if Signal(b, prn) in l then k < |l| && l[k] == Signal(b, prn) else k == |l|
  {
    if l != [] {
      assert l == [l[0]] + l[1..];
      assert l[1..][0..] == l[1..];
      FindsListed(l[1..], b, prn);
    }
  }

  lemma {:induction false} AssistedByFirst(cfg: Config, l: seq<Signal>, b: Band, reports: seq<Report>)
    requires GoodList(l, b) && Helped(cfg, b)
    ensures var j, k := FirstUseful(cfg, reports, b, l), AssistedIndex(l, AssistingBand(b), reports);
            if j < |reports| then k < |l| && l[k] == Signal(b, reports[j].prn) else k == |l|
  {
    if reports != [] {
      FindsListed(l, b, reports[0].prn);
      AssistedByFirst(cfg, l, b, reports[1..]);
    }
  }

  /** `rest` is `l` without the signal `s`, the others in their order. */
  ghost predicate Without(l: seq<Signal>, s: Signal, rest: seq<Signal>) {
    exists k :: 0 <= k < |l| && l[k] == s && rest == l[..k] + l[k + 1..]
  }

  /** Exactly what a search finds.  The first useful report decides; without one the front of the list
      is taken.  A search that pops takes its signal from the list; one that does not leaves the list
      when assisted and moves the front to the back otherwise. */
  lemma SearchExactly(cfg: Config, l: seq<Signal>, b: Band, pop: bool, reports: seq<Report>)
    requires GoodList(l, b)
    ensures var j := FirstUseful(cfg, reports, b, l);
            match SearchNext(cfg, l, b, pop, reports)
            case Underflow => l == []
            case Hit(s, rest, assisted) =>
              && l != [] && (assisted <==> j < |reports|)
              && s == (if j < |reports| then Signal(b, reports[j].prn) else l[0])
              && (pop ==> Without(l, s, rest))
              && (!pop ==> rest == if assisted then l else l[1..] + [l[0]])
  {
    if Helped(cfg, b) {
      AssistedByFirst(cfg, l, b, reports);
    } else {
      NeverUseful(cfg, l, b, reports);
    }
    if l != [] {
      ErasedAt(l, 0, l[1..]);
    }
    var k := AssistedIndex(l, AssistingBand(b), reports);
    if k < |l| {
      ErasedAt(l, k, l[..k] + l[k + 1..]);
    }
  }

  lemma ErasedAt(l: seq<Signal>, k: nat, rest: seq<Signal>)
    requires k < |l| && rest == l[..k] + l[k + 1..]
    ensures Without(l, l[k], rest)
  {
  }

  lemma NeverUseful(cfg: Config, l: seq<Signal>, b: Band, reports: seq<Report>)
    requires !Helped(cfg, b)
    ensures FirstUseful(cfg, reports, b, l) == |reports|
  {
    assert forall r: Report :: !(Assists(r, b) && r.band in cfg.bands);
  }

  // ---------------------------------------------------------------- who may stay idle

  /** A channel that stays idle below the limit, with no list found empty, is one of a secondary band
      in a receiver that demands assistance. */
  lemma IdleIsSecondary(cfg: Config, st: State, who: nat, reports: seq<seq<Report>>, c: nat)
    requires Inv(cfg, st) && c < |cfg.bands|
    requires var r := Manager(cfg, st, who, reports); !r.underflow && r.count < cfg.limit && r.phase[c].Idle?
    ensures cfg.assistDual && cfg.bands[c] in {GPS_2S, GPS_L5, GAL_5X, GAL_7X, GAL_E6, GLO_2G, BDS_B3}
  {
    if !Reluctant(cfg, cfg.bands[c]) {
      OnlyReluctantStayIdle(cfg, st, who, reports, c);
    }
  }

  /** The channel for which the manager runs is visited last. */
  lemma CallerIsLast(n: nat, who: nat, i: nat)
    requires who < n && i < n
    ensures Visited(n, who, i) == who <==> i == n - 1
  {
    ModIs(n - 1 + who + 1, 1, who, n);
    var j := VisitsEachChannelOnce(n, who, who);
  }

  lemma VisitBeforeCaller(n: nat, who: nat, c: nat) returns (i: nat)
    requires who < n && c < n && c != who
    ensures i < n - 1 && Visited(n, who, i) == c
  {
    i := VisitsEachChannelOnce(n, who, c);
    CallerIsLast(n, who, i);
  }

  lemma VisitOther(cfg: Config, st: State, c: nat, reports: seq<Report>, d: nat, r: State)
    requires Sized(cfg, st) && c < |cfg.bands| && d < |cfg.bands| && r == Visit(cfg, st, c, reports)
    ensures c != d ==> r.phase[d] == st.phase[d]
    ensures st.phase[c].Idle? && r.phase[c].Acquiring? ==> st.count < cfg.limit
  {
  }

  lemma {:induction false} NextVisit(cfg: Config, st: State, who: nat, reports: seq<seq<Report>>, i: nat)
    requires Sized(cfg, st) && i < |cfg.bands|
    ensures ManagerAfter(cfg, st, who, reports, i + 1) ==
            Visit(cfg, ManagerAfter(cfg, st, who, reports, i), Visited(|cfg.bands|, who, i), ReportsAt(reports, i))
  {
  }

  lemma {:induction false} OtherVisited(cfg: Config, st: State, who: nat, reports: seq<seq<Report>>, i: nat,
                                        before: State, after: State)
    requires Sized(cfg, st) && who < |cfg.bands| && i < |cfg.bands| - 1
    requires before == ManagerAfter(cfg, st, who, reports, i) && after == ManagerAfter(cfg, st, who, reports, i + 1)
    ensures after.phase[who] == before.phase[who]
  {
    CallerIsLast(|cfg.bands|, who, i);
    NextVisit(cfg, st, who, reports, i);
    VisitOther(cfg, before, Visited(|cfg.bands|, who, i), ReportsAt(reports, i), who, after);
  }

  /** Before its own visit a channel is left as it was. */
  lemma {:induction false} CallerWaits(cfg: Config, st: State, who: nat, reports: seq<seq<Report>>, i: nat)
    requires Sized(cfg, st) && who < |cfg.bands| && i < |cfg.bands|
    ensures ManagerAfter(cfg, st, who, reports, i).phase[who] == st.phase[who]
  {
    if i > 0 {
      CallerWaits(cfg, st, who, reports, i - 1);
      OtherVisited(cfg, st, who, reports, i - 1, ManagerAfter(cfg, st, who, reports, i - 1),
                   ManagerAfter(cfg, st, who, reports, i));
    }
  }

  /** When the manager reaches the channel that it runs for and starts it, an acquisition is still free. */
  lemma {:induction false} FreeForCaller(cfg: Config, st: State, who: nat, reports: seq<seq<Report>>)
    requires Sized(cfg, st) && who < |cfg.bands| && st.phase[who].Idle?
    requires Manager(cfg, st, who, reports).phase[who].Acquiring?
    ensures ManagerAfter(cfg, st, who, reports, |cfg.bands| - 1).count < cfg.limit
  {
    var n := |cfg.bands|;
    var before, end := ManagerAfter(cfg, st, who, reports, n - 1), Manager(cfg, st, who, reports);
    CallerWaits(cfg, st, who, reports, n - 1);
    CallerIsLast(n, who, n - 1);
    NextVisit(cfg, st, who, reports, n - 1);
    VisitOther(cfg, before, who, ReportsAt(reports, n - 1), who, end);
  }

  /** The channel for which the manager runs has to let the others pass: if it starts, every other
      channel that is still idle was refused or starved at its own visit. */
  lemma {:induction false} CallerComesLast(cfg: Config, st: State, who: nat, reports: seq<seq<Report>>, c: nat) returns (i: nat)
    requires Sized(cfg, st) && who < |cfg.bands| && c < |cfg.bands| && c != who
    requires st.phase[who].Idle? && Manager(cfg, st, who, reports).phase[who].Acquiring?
    requires Manager(cfg, st, who, reports).phase[c].Idle?
    ensures i < |cfg.bands| && KeptIdleAt(cfg, st, who, reports, c, i)
  {
    var n := |cfg.bands|;
    i := VisitBeforeCaller(n, who, c);
    FreeForCaller(cfg, st, who, reports);
    StillIdleBefore(cfg, st, who, reports, c, n - 1);
    KeptIdleBy(cfg, st, who, reports, c, i, n - 1);
  }

  lemma {:induction false} StillIdleBefore(cfg: Config, st: State, who: nat, reports: seq<seq<Report>>, c: nat, m: nat)
    requires Sized(cfg, st) && c < |cfg.bands| && m <= |cfg.bands| && Manager(cfg, st, who, reports).phase[c].Idle?
    ensures ManagerAfter(cfg, st, who, reports, m).phase[c].Idle?
  {
    ManagerFrom(cfg, st, who, reports, m, |cfg.bands|);
  }

  lemma {:induction false} CountBetween(cfg: Config, st: State, who: nat, reports: seq<seq<Report>>, i: nat, m: nat,
                                        before: State, end: State)
    requires Sized(cfg, st) && i <= m <= |cfg.bands| && before == ManagerAfter(cfg, st, who, reports, i)
    requires end == ManagerAfter(cfg, st, who, reports, m)
    ensures before.count <= end.count
  {
    CountGrows(cfg, st, who, reports, i, m);
  }

  lemma {:induction false} PhasesBetween(cfg: Config, st: State, who: nat, reports: seq<seq<Report>>, i: nat, m: nat,
                                         before: State, end: State)
    requires Sized(cfg, st) && i <= m <= |cfg.bands| && before == ManagerAfter(cfg, st, who, reports, i)
    requires end == ManagerAfter(cfg, st, who, reports, m)
    ensures Undisturbed(before, end)
  {
    ManagerFrom(cfg, st, who, reports, i, m);
  }

  lemma {:induction false} KeptIdleBy(cfg: Config, st: State, who: nat, reports: seq<seq<Report>>, c: nat, i: nat, m: nat)
    requires Sized(cfg, st) && c < |cfg.bands| && i < m <= |cfg.bands| && Visited(|cfg.bands|, who, i) == c
    requires ManagerAfter(cfg, st, who, reports, m).count < cfg.limit
    requires ManagerAfter(cfg, st, who, reports, m).phase[c].Idle?
    ensures KeptIdleAt(cfg, st, who, reports, c, i)
  {
    var before, after, end := ManagerAfter(cfg, st, who, reports, i), ManagerAfter(cfg, st, who, reports, i + 1),
                              ManagerAfter(cfg, st, who, reports, m);
    CountBetween(cfg, st, who, reports, i, m, before, end);
    PhasesBetween(cfg, st, who, reports, i + 1, m, after, end);
    NextVisit(cfg, st, who, reports, i);
    IdleSinceVisit(cfg, before, c, ReportsAt(reports, i), after, end);
  }

  // ---------------------------------------------------------------- success and loss

  /** An acquired signal is out of its list, whatever the channel, and no other channel takes it in the
      same step. */
  lemma AcquiredLeavesList(cfg: Config, st: State, who: nat, reports: seq<seq<Report>>)
    requires Inv(cfg, st) && who < |cfg.bands|
    ensures var s, r := st.signal[who], AcquisitionSucceeded(cfg, st, who, reports);
            && r.phase[who].Tracking? && r.signal[who] == s && s !in ListOf(r.lists, s.band)
            && |st.picks| <= |r.picks| && s !in r.picks[|st.picks|..]
  {
    var s := st.signal[who];
    RemoveKeeps(st, s);
    var tracking := TrackChannel(cfg, st, who, {});
    assert tracking.picks[|st.picks|..] == [];
    ManagerAbsent(cfg, tracking, who, reports, |cfg.bands|, |st.picks|, s);
    ManagerUndisturbed(cfg, tracking, who, reports, |cfg.bands|);
  }

  /** A channel that loses its satellite searches for it again if and only if an acquisition is free;
      otherwise it goes idle and a satellite that it is not pinned to goes to the back of its list. */
  lemma LostSearchesAgainExactly(cfg: Config, st: State, who: nat)
    requires Inv(cfg, st) && who < |cfg.bands|
    ensures var s, r := st.signal[who], TrackingLost(cfg, st, who);
            var l := ListOf(r.lists, s.band);
            && r.signal == st.signal && (r.phase[who].Acquiring? <==> st.count < cfg.limit)
            && (st.count < cfg.limit ==> r.lists == st.lists)
            && (st.count >= cfg.limit ==> r.phase[who].Idle? && r.count == st.count)
            && (st.count >= cfg.limit && cfg.pinned[who] == 0 ==> l != [] && l[|l| - 1] == s && s !in l[..|l| - 1])
            && (st.count >= cfg.limit && cfg.pinned[who] != 0 && who < 200 ==> r.lists == st.lists)
  {
    var s := st.signal[who];
    var rest := Remove(ListOf(st.lists, s.band), s);
    RemoveFromGoodList(ListOf(st.lists, s.band), s);
    assert (rest + [s])[..|rest|] == rest;
  }
}
