/** The acquisition scheduler of GNSSFlowgraph (src/core/receiver/gnss_flowgraph.cc) as
    functions on its state: which channel searches which satellite signal, and when. */
module FlowgraphModel {
  import opened Signals

  datatype Phase = Idle | Acquiring | Tracking

  /** One entry of the channel status map: the signal a channel currently reports. */
  datatype Report = Report(band: Band, prn: nat)

  /** Configuration: the band of each channel, the satellite each channel is pinned to (0 for
      none), the acquisition limit (Channels.in_acquisition, at most the number of channels),
      and the dual-frequency assistance flag.  A band is configured when some channel has it. */
  datatype Config = Config(
    bands: seq<Band>, pinned: seq<nat>, limit: nat, assistDual: bool)

  predicate GoodConfig(cfg: Config) {
    |cfg.pinned| == |cfg.bands| && cfg.limit <= |cfg.bands|
  }

  /** Scheduler state.  `underflow` records that a search took the front of an empty list,
      which is undefined in the source; the model then leaves the channel as it was.  `picks`
      is a history of the signals that searches have taken from the lists. */
  datatype State = State(
    phase: seq<Phase>, signal: seq<Signal>, lists: map<Band, seq<Signal>>, count: int,
    underflow: bool, picks: seq<Signal>)

  /** The waiting list of a band; a band without channels has none. */
  function ListOf(lists: map<Band, seq<Signal>>, b: Band): seq<Signal> {
    if b in lists then lists[b] else []
  }

  function SetList(st: State, b: Band, l: seq<Signal>): State {
    st.(lists := st.lists[b := l])
  }

  // ---------------------------------------------------------------- list primitives

  function PushBack(st: State, s: Signal): State {
    SetList(st, s.band, Remove(ListOf(st.lists, s.band), s) + [s])
  }

  function RemoveSignal(st: State, s: Signal): State {
    SetList(st, s.band, Remove(ListOf(st.lists, s.band), s))
  }

  // ---------------------------------------------------------------- search_next_signal

  /** Index of the first signal with the given PRN, or |l|. */
  function FindPrn(l: seq<Signal>, prn: nat): (k: nat)
    ensures k <= |l|
    ensures k < |l| ==> l[k].prn == prn
  {
    if l == [] then 0 else if l[0].prn == prn then 0 else 1 + FindPrn(l[1..], prn)
  }

  /** Index of the signal that the first useful status report assists, or |l|. */
  function AssistedIndex(l: seq<Signal>, helper: Band, reports: seq<Report>): (k: nat)
    ensures k <= |l|
  {
    if reports == [] then |l|
    else if reports[0].band == helper && FindPrn(l, reports[0].prn) < |l| then FindPrn(l, reports[0].prn)
    else AssistedIndex(l, helper, reports[1..])
  }

  datatype Search = Hit(signal: Signal, rest: seq<Signal>, assisted: bool) | Underflow

  function SearchNext(cfg: Config, l: seq<Signal>, b: Band, pop: bool, reports: seq<Report>): Search {
    var k := if IsAssisted(b) && AssistingBand(b) in cfg.bands
             then AssistedIndex(l, AssistingBand(b), reports) else |l|;
    if k < |l| then Hit(l[k], if pop then l[..k] + l[k + 1..] else l, true)
    else if l == [] then Underflow
    else Hit(l[0], if pop then l[1..] else l[1..] + [l[0]], false)
  }

  // ---------------------------------------------------------------- acquisition_manager

  /** Does a channel that found a signal of band `b` start acquiring it? */
  predicate Starts(cfg: Config, b: Band, assisted: bool) {
    IsPrimary(b) || assisted || !cfg.assistDual
  }

  /** Channels of band `b` start only with assistance. */
  predicate Reluctant(cfg: Config, b: Band) {
    !IsPrimary(b) && cfg.assistDual
  }

  /** Status reports can assist a search of band `b`. */
  predicate Helped(cfg: Config, b: Band) {
    IsAssisted(b) && AssistingBand(b) in cfg.bands
  }

  /** The manager can start a channel of band `b`. */
  predicate Searchable(cfg: Config, b: Band) {
    !Reluctant(cfg, b) || Helped(cfg, b)
  }

  /** No channel is pinned to a satellite. */
  predicate Unpinned(cfg: Config) {
    forall c :: 0 <= c < |cfg.pinned| ==> cfg.pinned[c] == 0
  }

  function StartAcquisition(st: State, c: nat): State
    requires c < |st.phase|
  {
    st.(phase := st.phase[c := Acquiring], count := st.count + 1)
  }

  /** Hand the signal that a search took from its list to channel `c`. */
  function Take(st: State, c: nat, signal: Signal, rest: seq<Signal>): State
    requires c < |st.signal|
  {
    SetList(st, st.signal[c].band, rest).(signal := st.signal[c := signal], picks := st.picks + [signal])
  }

  /** One iteration of the manager's loop, for channel `c`. */
  function Visit(cfg: Config, st: State, c: nat, reports: seq<Report>): State
    requires c < |st.phase| && c < |st.signal| && c < |cfg.pinned|
  {
    if !(st.count < cfg.limit && st.phase[c].Idle?) then st
    else if cfg.pinned[c] != 0 then StartAcquisition(st, c)
    else
      var b := st.signal[c].band;
      match SearchNext(cfg, ListOf(st.lists, b), b, true, reports)
      case Underflow => st.(underflow := true)
      case Hit(s, rest, assisted) =>
        var taken := Take(st, c, s, rest);
        if Starts(cfg, b, assisted) then StartAcquisition(taken, c) else PushBack(taken, s)
  }

  predicate Sized(cfg: Config, st: State) {
    |cfg.pinned| == |cfg.bands| == |st.phase| == |st.signal|
  }

  /** The channel visited in iteration `i`. */
  function Visited(n: nat, who: nat, i: nat): (c: nat)
    requires n > 0
    ensures c < n
  {
    (i + who + 1) % n
  }

  function ReportsAt(reports: seq<seq<Report>>, i: nat): seq<Report> {
    if i < |reports| then reports[i] else []
  }

  /** The state after the manager's first `i` visits.  The status map may change between
      visits: `reports[i]` is what visit `i` sees. */
  function ManagerAfter(cfg: Config, st: State, who: nat, reports: seq<seq<Report>>, i: nat): (r: State)
    requires Sized(cfg, st) && (i > 0 ==> |cfg.bands| > 0)
    ensures Sized(cfg, r)
  {
    if i == 0 then st
    else
      Visit(cfg, ManagerAfter(cfg, st, who, reports, i - 1), Visited(|cfg.bands|, who, i - 1),
            ReportsAt(reports, i - 1))
  }

  function Manager(cfg: Config, st: State, who: nat, reports: seq<seq<Report>>): (r: State)
    requires Sized(cfg, st)
    ensures Sized(cfg, r)
  {
    ManagerAfter(cfg, st, who, reports, |cfg.bands|)
  }

  /** The history of picks only grows. */
  lemma {:induction false} ManagerGrowsPicks(cfg: Config, st: State, who: nat, reports: seq<seq<Report>>, i: nat)
    requires Sized(cfg, st) && (i > 0 ==> |cfg.bands| > 0)
    ensures st.picks <= ManagerAfter(cfg, st, who, reports, i).picks
  {
    if i > 0 {
      ManagerGrowsPicks(cfg, st, who, reports, i - 1);
    }
  }

  // ---------------------------------------------------------------- apply_action

  function Decrement(count: int): int {
    if count > 0 then count - 1 else count
  }

  /** The satellite `who` is pinned to; only sources below 200 are looked up. */
  function PinOf(cfg: Config, who: nat): nat {
    if who < 200 && who < |cfg.pinned| then cfg.pinned[who] else 0
  }

  function AcquisitionFailed(cfg: Config, st: State, who: nat, reports: seq<seq<Report>>): (r: State)
    requires Sized(cfg, st) && who < |cfg.bands|
    ensures Sized(cfg, r)
  {
    var gs := st.signal[who];
    var freed := st.(phase := st.phase[who := Idle], count := Decrement(st.count));
    var managed := Manager(cfg, freed, who, reports);
    if PinOf(cfg, who) == 0 then PushBack(managed, gs) else managed
  }

  function AcquisitionSucceeded(cfg: Config, st: State, who: nat, reports: seq<seq<Report>>): (r: State)
    requires Sized(cfg, st) && who < |cfg.bands|
    ensures Sized(cfg, r)
  {
    var removed := RemoveSignal(st, st.signal[who]);
    var tracking := removed.(phase := removed.phase[who := Tracking], count := Decrement(removed.count));
    Manager(cfg, tracking, who, reports)
  }

  function TrackingLost(cfg: Config, st: State, who: nat): (r: State)
    requires Sized(cfg, st) && who < |cfg.bands|
    ensures Sized(cfg, r)
  {
    if st.count < cfg.limit then StartAcquisition(st, who)
    else
      var idle := st.(phase := st.phase[who := Idle]);
      if PinOf(cfg, who) == 0 then PushBack(idle, st.signal[who]) else idle
  }

  /** The standby loop after channels 0..k-1. */
  function StandbyAfter(cfg: Config, st: State, k: nat): (r: State)
    requires Sized(cfg, st) && k <= |cfg.bands|
    ensures Sized(cfg, r)
    ensures r.signal == st.signal && r.picks == st.picks && r.count == st.count
  {
    if k == 0 then st else StandbyOne(StandbyAfter(cfg, st, k - 1), k - 1)
  }

  lemma {:induction false} StandbyIdles(cfg: Config, st: State, k: nat)
    requires Sized(cfg, st) && k <= |cfg.bands|
    ensures forall c :: 0 <= c < |st.phase| ==> StandbyAfter(cfg, st, k).phase[c] == if c < k then Idle else st.phase[c]
  {
    if k > 0 {
      StandbyIdles(cfg, st, k - 1);
    }
  }

  /** A busy channel gives its signal back and becomes idle. */
  function StandbyOne(st: State, c: nat): (r: State)
    requires c < |st.phase| == |st.signal|
  {
    if st.phase[c].Idle? then st
    else PushBack(st, st.signal[c]).(phase := st.phase[c := Idle])
  }

  function EnterStandby(cfg: Config, st: State): (r: State)
    requires Sized(cfg, st)
    ensures Sized(cfg, r)
    ensures forall c :: 0 <= c < |cfg.bands| ==> r.phase[c].Idle?
  {
    StandbyIdles(cfg, st, |cfg.bands|);
    StandbyAfter(cfg, st, |cfg.bands|).(count := 0)
  }

  function ApplyAction(cfg: Config, st: State, who: nat, what: nat, reports: seq<seq<Report>>): (r: State)
    requires Sized(cfg, st) && (what <= 2 ==> who < |cfg.bands|)
    ensures Sized(cfg, r)
  {
    match what
    case 0 => AcquisitionFailed(cfg, st, who, reports)
    case 1 => AcquisitionSucceeded(cfg, st, who, reports)
    case 2 => TrackingLost(cfg, st, who)
    case 10 => EnterStandby(cfg, st)
    case _ => st
  }

  // ---------------------------------------------------------------- priorize_satellites

  datatype Satellite = Satellite(system: Constellation, prn: nat)

  /** Move a waiting signal to the front of its list; a list without it stays as it is. */
  function ToFront(l: seq<Signal>, s: Signal): seq<Signal> {
    if |Remove(l, s)| < |l| then [s] + Remove(l, s) else Remove(l, s)
  }

  predicate Prioritisable(sat: Satellite, b: Band) {
    SystemOf(b) == sat.system && (sat.system.GPS? || sat.system.Galileo?)
  }

  /** What a sequence of visible satellites does to the list of band `b`. */
  function PrioritiseList(l: seq<Signal>, b: Band, visible: seq<Satellite>): seq<Signal> {
    if visible == [] then l
    else
      var n := |visible| - 1;
      var r := PrioritiseList(l, b, visible[..n]);
      if Prioritisable(visible[n], b) then ToFront(r, Signal(b, visible[n].prn)) else r
  }

  function Prioritise(st: State, visible: seq<Satellite>): State {
    st.(lists := map b | b in st.lists :: PrioritiseList(st.lists[b], b, visible))
  }

  // ---------------------------------------------------------------- initialisation

  /** Pinned channels first, the last one in front, then the others in order. */
  function AssignOrder(cfg: Config, k: nat): (order: seq<nat>)
    requires k <= |cfg.pinned|
    ensures forall i :: 0 <= i < |order| ==> order[i] < k
  {
    if k == 0 then []
    else if cfg.pinned[k - 1] == 0 then AssignOrder(cfg, k - 1) + [k - 1]
    else [k - 1] + AssignOrder(cfg, k - 1)
  }

  lemma {:induction false} AssignOrderComplete(cfg: Config, k: nat)
    requires k <= |cfg.pinned|
    ensures forall c :: 0 <= c < k ==> c in AssignOrder(cfg, k)
  {
    if k > 0 {
      AssignOrderComplete(cfg, k - 1);
    }
  }

  /** assign_channels for one channel: a pinned channel gets its satellite, which leaves the
      list; any other gets the next signal, which stays in the list. */
  function Assign(cfg: Config, st: State, c: nat, reports: seq<Report>): (r: State)
    requires Sized(cfg, st) && c < |cfg.bands|
    ensures Sized(cfg, r)
  {
    var b := st.signal[c].band;
    if cfg.pinned[c] != 0 then
      var s := Signal(b, cfg.pinned[c]);
      RemoveSignal(st, s).(signal := st.signal[c := s])
    else
      match SearchNext(cfg, ListOf(st.lists, b), b, false, reports)
      case Underflow => st.(underflow := true)
      case Hit(s, rest, _) => SetList(st, b, rest).(signal := st.signal[c := s])
  }

  function AssignAll(cfg: Config, st: State, order: seq<nat>, reports: seq<seq<Report>>): (r: State)
    requires Sized(cfg, st) && forall i :: 0 <= i < |order| ==> order[i] < |cfg.bands|
    ensures Sized(cfg, r)
  {
    if order == [] then st
    else
      var n := |order| - 1;
      Assign(cfg, AssignAll(cfg, st, order[..n], reports), order[n], ReportsAt(reports, n))
  }

  lemma {:induction false} AssignOneMore(cfg: Config, st: State, order: seq<nat>, k: nat, reports: seq<seq<Report>>)
    requires Sized(cfg, st) && (forall i :: 0 <= i < |order| ==> order[i] < |cfg.bands|) && k < |order|
    ensures AssignAll(cfg, st, order[..k + 1], reports) ==
            Assign(cfg, AssignAll(cfg, st, order[..k], reports), order[k], ReportsAt(reports, k))
  {
    assert order[..k + 1][..k] == order[..k];
  }

  /** The state after set_signals_list and set_channels_state. */
  function Unassigned(cfg: Config, lists: map<Band, seq<Signal>>): (r: State)
    requires GoodConfig(cfg)
    ensures Sized(cfg, r)
  {
    State(seq(|cfg.bands|, i => if i < cfg.limit then Acquiring else Idle),
          seq(|cfg.bands|, i requires 0 <= i < |cfg.bands| => Signal(cfg.bands[i], 0)),
          lists, cfg.limit, false, [])
  }

  /** The state in which a connected receiver starts. */
  function Initial(cfg: Config, lists: map<Band, seq<Signal>>, reports: seq<seq<Report>>): (r: State)
    requires GoodConfig(cfg)
    ensures Sized(cfg, r)
  {
    AssignAll(cfg, Unassigned(cfg, lists), AssignOrder(cfg, |cfg.pinned|), reports)
  }

  // ---------------------------------------------------------------- runs

  /** What can happen to the scheduler: an action from a channel or a command, a periodic call
      of the acquisition manager, or a prioritisation of visible satellites. */
  datatype Event =
    | Action(who: nat, what: nat, reports: seq<seq<Report>>)
    | Manage(who: nat, reports: seq<seq<Report>>)
    | Prioritisation(visible: seq<Satellite>)

  /** Channel events must name an existing channel. */
  predicate Possible(cfg: Config, e: Event) {
    e.Action? && e.what <= 2 ==> e.who < |cfg.bands|
  }

  function Step(cfg: Config, st: State, e: Event): (r: State)
    requires Sized(cfg, st) && Possible(cfg, e)
    ensures Sized(cfg, r)
  {
    match e
    case Action(who, what, reports) => ApplyAction(cfg, st, who, what, reports)
    case Manage(who, reports) => Manager(cfg, st, who, reports)
    case Prioritisation(visible) => Prioritise(st, visible)
  }

  predicate AllPossible(cfg: Config, es: seq<Event>) {
    forall i :: 0 <= i < |es| ==> Possible(cfg, es[i])
  }

  function Run(cfg: Config, st: State, es: seq<Event>): (r: State)
    requires Sized(cfg, st) && AllPossible(cfg, es)
    ensures Sized(cfg, r)
  {
    if es == [] then st
    else Step(cfg, Run(cfg, st, es[..|es| - 1]), es[|es| - 1])
  }

  /** A channel reports acquisition results only while acquiring and a loss only while tracking. */
  predicate WellBehaved(cfg: Config, st: State, e: Event)
    requires Sized(cfg, st) && Possible(cfg, e)
  {
    e.Action? ==>
      && (e.what <= 1 ==> st.phase[e.who].Acquiring?)
      && (e.what == 2 ==> st.phase[e.who].Tracking?)
  }

  predicate WellBehavedRun(cfg: Config, st: State, es: seq<Event>)
    requires Sized(cfg, st) && AllPossible(cfg, es)
  {
    es == [] ||
    (WellBehavedRun(cfg, st, es[..|es| - 1]) &&
     WellBehaved(cfg, Run(cfg, st, es[..|es| - 1]), es[|es| - 1]))
  }

  /** One more well-behaved event. */
  lemma WellBehavedSnoc(cfg: Config, st: State, es: seq<Event>, e: Event) returns (all: seq<Event>)
    requires Sized(cfg, st) && AllPossible(cfg, es) && Possible(cfg, e)
    requires WellBehavedRun(cfg, st, es) && WellBehaved(cfg, Run(cfg, st, es), e)
    ensures AllPossible(cfg, all) && WellBehavedRun(cfg, st, all)
    ensures Run(cfg, st, all) == Step(cfg, Run(cfg, st, es), e)
  {
    all := es + [e];
    assert all[..|all| - 1] == es && all[|all| - 1] == e;
  }
}
