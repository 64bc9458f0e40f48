/** The control thread's dispatcher (src/core/receiver/control_thread.cc): it routes channel
    events, commands and time-outs to the flowgraph and gates them while the receiver is on
    standby. */
module ControlThread {
  import opened Signals
  import opened FlowgraphModel
  import opened Flowgraph
  import opened FlowgraphSafety
  import opened FlowgraphSupply
  import opened FlowgraphExclusive
  import opened FlowgraphFairness

  datatype Receiver = Receiver(
    standby: bool, stop: bool, restart: bool, processed: nat, applied: nat, fg: State)

  /** What the control queue delivers within 100 ms.  Commands carry the visible satellites that
      a hot start would compute. */
  datatype Message =
    | Timeout(reports: seq<seq<Report>>)
    | ChannelEvent(id: nat, what: nat, reports: seq<seq<Report>>)
    | CommandEvent(id: nat, what: nat, reports: seq<seq<Report>>, visible: seq<Satellite>)
    | UnknownObject

  /** ControlThread::apply_action.  A warm start also computes the visible satellites but
      prioritises with the empty list it started from. */
  function ControlAction(r: Receiver, what: nat, visible: seq<Satellite>): Receiver {
    var r := r.(applied := r.applied + 1);
    match what
    case 0 => r.(stop := true)
    case 1 => r.(stop := true, restart := true)
    case 10 => r.(standby := true)
    case 11 => r.(standby := false)
    case 12 => r.(fg := Prioritise(r.fg, visible), standby := false)
    case 13 => r.(fg := Prioritise(r.fg, []), standby := false)
    case _ => r
  }

  /** Events that reach the flowgraph's channel actions must name an existing channel. */
  predicate Deliverable(cfg: Config, r: Receiver, m: Message) {
    match m
    case ChannelEvent(id, what, _) => !r.standby && what <= 2 ==> id < |cfg.bands|
    case CommandEvent(id, what, _, _) => id != 200 && what <= 2 ==> id < |cfg.bands|
    case _ => true
  }

  /** event_dispatcher */
  function Dispatch(cfg: Config, r: Receiver, m: Message): (r': Receiver)
    requires Sized(cfg, r.fg) && Deliverable(cfg, r, m)
    ensures Sized(cfg, r'.fg)
  {
    match m
    case Timeout(reports) =>
      if r.standby then r else r.(fg := Manager(cfg, r.fg, 0, reports))
    case ChannelEvent(id, what, reports) =>
      var r := r.(processed := r.processed + 1);
      if r.standby then r else r.(fg := ApplyAction(cfg, r.fg, id, what, reports))
    case CommandEvent(id, what, reports, visible) =>
      var r := r.(processed := r.processed + 1);
      if id == 200 then ControlAction(r, what, visible)
      else
        var r := if id == 300 then ControlAction(r, what, visible) else r;
        r.(fg := ApplyAction(cfg, r.fg, id, what, reports))
    case UnknownObject => r.(processed := r.processed + 1)
  }

  predicate AllDeliverable(cfg: Config, r: Receiver, ms: seq<Message>)
    requires Sized(cfg, r.fg)
    decreases |ms|, 0
  {
    ms == [] ||
    (AllDeliverable(cfg, r, ms[..|ms| - 1]) &&
     Deliverable(cfg, DispatchAll(cfg, r, ms[..|ms| - 1]), ms[|ms| - 1]))
  }

  function DispatchAll(cfg: Config, r: Receiver, ms: seq<Message>): (r': Receiver)
    requires Sized(cfg, r.fg) && AllDeliverable(cfg, r, ms)
    ensures Sized(cfg, r'.fg)
    decreases |ms|, 1
  {
    if ms == [] then r else Dispatch(cfg, DispatchAll(cfg, r, ms[..|ms| - 1]), ms[|ms| - 1])
  }

  // ---------------------------------------------------------------- commands

  /** The documented commands: stop and restart, receiver control, and channel control. */
  predicate WellFormedCommand(m: Message) {
    m.CommandEvent? ==>
      || (m.id == 200 && m.what <= 1)
      || (m.id == 300 && 10 <= m.what <= 13)
      || (400 <= m.id < 600 && 20 <= m.what <= 21)
  }

  predicate IsStart(m: Message) {
    m.CommandEvent? && m.id == 300 && 11 <= m.what <= 13
  }

  predicate IsStandbyRequest(m: Message) {
    m.CommandEvent? && m.id == 300 && m.what == 10
  }

  // ---------------------------------------------------------------- what commands decide

  /** A command to the control thread (200) or the receiver (300) with one of the actions `from` to `to`. */
  predicate Orders(m: Message, from: nat, to: nat) {
    IsControl(m) && from <= m.what <= to
  }

  ghost predicate Ordered(ms: seq<Message>, from: nat, to: nat) {
    exists i :: 0 <= i < |ms| && Orders(ms[i], from, to)
  }

  /** The last standby request or start, if any, is a standby request; without any, `was` holds. */
  ghost predicate StandbyLast(ms: seq<Message>, was: bool) {
    || (was && !Ordered(ms, 11, 13))
    || exists i :: 0 <= i < |ms| && EndsOnStandby(ms, i)
  }

  /** Message `i` requests standby and no start follows it. */
  ghost predicate EndsOnStandby(ms: seq<Message>, i: nat)
    requires i < |ms|
  {
    Orders(ms[i], 10, 10) && forall j :: i < j < |ms| ==> !Orders(ms[j], 11, 13)
  }

  lemma {:induction false} OrderedStep(ms: seq<Message>, m: Message, from: nat, to: nat)
    ensures Ordered(ms + [m], from, to) <==> Ordered(ms, from, to) || Orders(m, from, to)
  {
    var all := ms + [m];
    if Ordered(ms, from, to) {
      var i :| 0 <= i < |ms| && Orders(ms[i], from, to);
      assert all[i] == ms[i];
    }
    assert all[|ms|] == m;
  }

  lemma {:induction false} StandbyLastStep(ms: seq<Message>, m: Message, was: bool)
    ensures StandbyLast(ms + [m], was) <==>
            Orders(m, 10, 10) || (StandbyLast(ms, was) && !Orders(m, 11, 13))
  {
    var all := ms + [m];
    OrderedStep(ms, m, 11, 13);
    assert all[|ms|] == m;
    forall i | 0 <= i < |ms| ensures EndsOnStandby(all, i) <==> EndsOnStandby(ms, i) && !Orders(m, 11, 13) {
      assert forall j :: i <= j < |ms| ==> all[j] == ms[j];
    }
    assert EndsOnStandby(all, |ms|) <==> Orders(m, 10, 10);
  }

  lemma DispatchFlags(cfg: Config, r: Receiver, m: Message, r': Receiver)
    requires Sized(cfg, r.fg) && Deliverable(cfg, r, m) && r' == Dispatch(cfg, r, m)
    ensures r'.stop <==> r.stop || Orders(m, 0, 1)
    ensures r'.restart <==> r.restart || Orders(m, 1, 1)
    ensures r'.standby <==> Orders(m, 10, 10) || (r.standby && !Orders(m, 11, 13))
    ensures r'.processed == r.processed + if IsMessage(m) then 1 else 0
    ensures r'.applied == r.applied + if IsControl(m) then 1 else 0
  {
    if IsControl(m) {
      ActionFlags(r.(processed := r.processed + 1), m.what, m.visible);
    }
  }

  lemma ActionFlags(r: Receiver, what: nat, visible: seq<Satellite>)
    ensures var r' := ControlAction(r, what, visible);
            && (r'.stop <==> r.stop || what <= 1) && (r'.restart <==> r.restart || what == 1)
            && (r'.standby <==> what == 10 || (r.standby && !(11 <= what <= 13)))
            && r'.processed == r.processed && r'.applied == r.applied + 1
  {
  }

  /** The flags follow from the commands alone.  The receiver stops if and only if some command
      orders action 0 or 1, it restarts if and only if some command orders action 1, and it is on
      standby if and only if the last of the orders 10 to 13 was 10. */
  lemma {:induction false} FlagsFollowCommands(cfg: Config, r: Receiver, ms: seq<Message>)
    requires Sized(cfg, r.fg) && AllDeliverable(cfg, r, ms)
    ensures var r' := DispatchAll(cfg, r, ms);
            && (r'.stop <==> r.stop || Ordered(ms, 0, 1))
            && (r'.restart <==> r.restart || Ordered(ms, 1, 1))
            && (r'.standby <==> StandbyLast(ms, r.standby))
  {
    if ms != [] {
      var n := |ms| - 1;
      FlagsFollowCommands(cfg, r, ms[..n]);
      assert ms == ms[..n] + [ms[n]];
      OrderedStep(ms[..n], ms[n], 0, 1);
      OrderedStep(ms[..n], ms[n], 1, 1);
      StandbyLastStep(ms[..n], ms[n], r.standby);
      DispatchFlags(cfg, DispatchAll(cfg, r, ms[..n]), ms[n], DispatchAll(cfg, r, ms));
    }
  }

  function CountOf(ms: seq<Message>, p: Message -> bool): nat {
    if ms == [] then 0 else CountOf(ms[..|ms| - 1], p) + if p(ms[|ms| - 1]) then 1 else 0
  }

  predicate IsMessage(m: Message) {
    !m.Timeout?
  }

  predicate IsControl(m: Message) {
    m.CommandEvent? && (m.id == 200 || m.id == 300)
  }

  /** Every message but a time-out is counted as processed, every command to the control thread or
      the receiver as an applied action. */
  lemma {:induction false} CountersCount(cfg: Config, r: Receiver, ms: seq<Message>)
    requires Sized(cfg, r.fg) && AllDeliverable(cfg, r, ms)
    ensures var r' := DispatchAll(cfg, r, ms);
            && r'.processed == r.processed + CountOf(ms, IsMessage)
            && r'.applied == r.applied + CountOf(ms, IsControl)
  {
    if ms != [] {
      CountersCount(cfg, r, ms[..|ms| - 1]);
      DispatchFlags(cfg, DispatchAll(cfg, r, ms[..|ms| - 1]), ms[|ms| - 1], DispatchAll(cfg, r, ms));
    }
  }

  // ---------------------------------------------------------------- standby is silent

  /** On standby with every channel idle and nothing in acquisition. */
  ghost predicate Silent(r: Receiver) {
    && r.standby && r.fg.count == 0
    && forall c :: 0 <= c < |r.fg.phase| ==> r.fg.phase[c].Idle?
  }

  lemma {:induction false} IdleStandbyIsIdentity(cfg: Config, st: State, k: nat)
    requires Sized(cfg, st) && k <= |cfg.bands|
    requires forall c :: 0 <= c < |st.phase| ==> st.phase[c].Idle?
    ensures StandbyAfter(cfg, st, k) == st
  {
    if k > 0 {
      IdleStandbyIsIdentity(cfg, st, k - 1);
    }
  }

  lemma SilentStep(cfg: Config, r: Receiver, m: Message)
    requires Sized(cfg, r.fg) && Deliverable(cfg, r, m) && Silent(r)
    requires WellFormedCommand(m) && !IsStart(m)
    ensures Silent(Dispatch(cfg, r, m)) && Dispatch(cfg, r, m).fg == r.fg
  {
    if IsStandbyRequest(m) {
      IdleStandbyIsIdentity(cfg, r.fg, |cfg.bands|);
    }
  }

  lemma {:induction false} SilentRun(cfg: Config, r: Receiver, ms: seq<Message>)
    requires Sized(cfg, r.fg) && Silent(r)
    requires forall i :: 0 <= i < |ms| ==> WellFormedCommand(ms[i]) && !IsStart(ms[i])
    ensures AllDeliverable(cfg, r, ms)
    ensures Silent(DispatchAll(cfg, r, ms)) && DispatchAll(cfg, r, ms).fg == r.fg
  {
    if ms != [] {
      var n := |ms| - 1;
      SilentRun(cfg, r, ms[..n]);
      SilentStep(cfg, DispatchAll(cfg, r, ms[..n]), ms[n]);
    }
  }

  /** Standby is silent: from a standby request until the next cold, hot or warm start, whatever
      channel events from whatever channels, time-outs and other well-formed commands arrive, all
      of them can be delivered, every channel stays idle, the acquisition counter stays 0, and the
      waiting lists do not change. */
  lemma StandbyIsSilent(cfg: Config, r: Receiver, request: Message, ms: seq<Message>)
    requires Sized(cfg, r.fg) && IsStandbyRequest(request)
    requires forall i :: 0 <= i < |ms| ==> WellFormedCommand(ms[i]) && !IsStart(ms[i])
    ensures AllDeliverable(cfg, Dispatch(cfg, r, request), ms)
    ensures var r' := DispatchAll(cfg, Dispatch(cfg, r, request), ms);
            && r'.standby && r'.fg == EnterStandby(cfg, r.fg) && r'.fg.count == 0
            && forall c :: 0 <= c < |cfg.bands| ==> r'.fg.phase[c].Idle?
  {
    SilentRun(cfg, Dispatch(cfg, r, request), ms);
  }

  /** A start command ends standby and leaves every channel idle; the next time-out then runs the
      acquisition manager. */
  lemma StartEndsStandby(cfg: Config, r: Receiver, m: Message, reports: seq<seq<Report>>)
    requires Sized(cfg, r.fg) && IsStart(m) && Silent(r)
    ensures var r' := Dispatch(cfg, r, m);
            && !r'.standby && r'.fg.count == 0 && r'.fg.phase == r.fg.phase && r'.fg.signal == r.fg.signal
            && (m.what == 11 ==> r'.fg == r.fg)
            && (m.what == 12 ==> r'.fg == Prioritise(r.fg, m.visible))
            && (m.what == 13 ==> r'.fg.lists == r.fg.lists)
            && Dispatch(cfg, r', Timeout(reports)).fg == Manager(cfg, r'.fg, 0, reports)
  {
    if m.what == 13 {
      assert forall b :: b in r.fg.lists ==> PrioritiseList(r.fg.lists[b], b, []) == r.fg.lists[b];
      assert Prioritise(r.fg, []).lists == r.fg.lists;
    }
  }

  /** After a start the next time-out fills the acquisition slots again: below the limit only
      channels that need assistance stay idle, unless a search met an empty list. */
  lemma StartResumesSearch(cfg: Config, r: Receiver, m: Message, reports: seq<seq<Report>>)
    requires Inv(cfg, r.fg) && IsStart(m) && Silent(r)
    ensures var r' := Dispatch(cfg, Dispatch(cfg, r, m), Timeout(reports));
            && !r'.standby && Inv(cfg, r'.fg)
            && (!r'.fg.underflow && r'.fg.count < cfg.limit ==>
                  forall c :: 0 <= c < |cfg.bands| && r'.fg.phase[c].Idle? ==> Reluctant(cfg, cfg.bands[c]))
  {
    StartEndsStandby(cfg, r, m, reports);
    var fg := Dispatch(cfg, r, m).fg;
    PrioritiseKeeps(cfg, r.fg, if m.what == 12 then m.visible else [], {});
    assert Inv(cfg, fg);
    ManagerInv(cfg, fg, 0, reports, |cfg.bands|);
    var managed := Manager(cfg, fg, 0, reports);
    if !managed.underflow && managed.count < cfg.limit {
      forall c | 0 <= c < |cfg.bands| && !Reluctant(cfg, cfg.bands[c]) ensures !managed.phase[c].Idle? {
        OnlyReluctantStayIdle(cfg, fg, 0, reports, c);
      }
    }
  }

  // ---------------------------------------------------------------- which messages break silence

  /** A visit would start idle channel `c`: it is pinned, or its list has a signal and needs no
      assistance, or has one that a status report assists. */
  ghost predicate CanStart(cfg: Config, st: State, c: nat, reports: seq<Report>)
    requires Sized(cfg, st) && c < |cfg.bands|
  {
    var b := cfg.bands[c];
    var l := ListOf(st.lists, b);
    || cfg.pinned[c] != 0
    || (l != [] && !Reluctant(cfg, b))
    || (Helped(cfg, b) && exists j :: 0 <= j < |reports| && reports[j].band == AssistingBand(b) && Signal(b, reports[j].prn) in l)
  }

  /** All channels idle and the counter 0. */
  ghost predicate AllIdle(st: State) {
    st.count == 0 && forall c :: 0 <= c < |st.phase| ==> st.phase[c].Idle?
  }

  /** Nothing has started, and every list has the members it had. */
  ghost predicate StillIdle(cfg: Config, st: State, r: State) {
    Inv(cfg, r) && AllIdle(r) && forall b, x :: x in ListOf(r.lists, b) <==> x in ListOf(st.lists, b)
  }

  lemma {:induction false} AssistedExactly(l: seq<Signal>, b: Band, helper: Band, reports: seq<Report>)
    requires AllOfBand(l, b)
    ensures AssistedIndex(l, helper, reports) < |l| <==>
            exists j :: 0 <= j < |reports| && reports[j].band == helper && Signal(b, reports[j].prn) in l
  {
    if reports != [] {
      AssistedExactly(l, b, helper, reports[1..]);
      FindExactly(l, b, reports[0].prn);
      var here := reports[0].band == helper && Signal(b, reports[0].prn) in l;
      var later := exists j :: 0 <= j < |reports[1..]| && reports[1..][j].band == helper && Signal(b, reports[1..][j].prn) in l;
      if later {
        var j :| 0 <= j < |reports[1..]| && reports[1..][j].band == helper && Signal(b, reports[1..][j].prn) in l;
        assert reports[j + 1] == reports[1..][j];
      }
      if j :| 0 <= j < |reports| && reports[j].band == helper && Signal(b, reports[j].prn) in l && j > 0 {
        assert reports[1..][j - 1] == reports[j];
      }
      assert (here || later) <==> exists j :: 0 <= j < |reports| && reports[j].band == helper && Signal(b, reports[j].prn) in l;
    }
  }

  lemma {:induction false} FindExactly(l: seq<Signal>, b: Band, prn: nat)
    requires AllOfBand(l, b)
    ensures FindPrn(l, prn) < |l| <==> Signal(b, prn) in l
  {
    if l != [] {
      assert l == [l[0]] + l[1..];
      FindExactly(l[1..], b, prn);
    }
  }

  /** A search finds a signal that it starts exactly when the members of the list allow it. */
  lemma SearchStartsExactly(cfg: Config, st: State, l: seq<Signal>, c: nat, reports: seq<Report>)
    requires Sized(cfg, st) && c < |cfg.bands| && cfg.pinned[c] == 0 && GoodList(l, cfg.bands[c])
    requires forall x :: x in l <==> x in ListOf(st.lists, cfg.bands[c])
    ensures var hit := SearchNext(cfg, l, cfg.bands[c], true, reports);
            CanStart(cfg, st, c, reports) <==> hit.Hit? && Starts(cfg, cfg.bands[c], hit.assisted)
  {
    var b := cfg.bands[c];
    AssistedExactly(l, b, AssistingBand(b), reports);
    SameEmptiness(l, ListOf(st.lists, b));
  }

  lemma SameEmptiness(l: seq<Signal>, m: seq<Signal>)
    requires forall x :: x in l <==> x in m
    ensures l == [] <==> m == []
  {
    if l != [] {
      assert l[0] in l;
    }
    if m != [] {
      assert m[0] in m;
    }
  }

  lemma RefusedStaysIdle(cfg: Config, st: State, r: State, c: nat, reports: seq<Report>)
    requires c < |cfg.bands| && StillIdle(cfg, st, r) && cfg.pinned[c] == 0
    requires var hit := SearchNext(cfg, ListOf(r.lists, cfg.bands[c]), cfg.bands[c], true, reports);
             hit.Underflow? || !Starts(cfg, cfg.bands[c], hit.assisted)
    ensures StillIdle(cfg, st, Visit(cfg, r, c, reports))
  {
    var b := cfg.bands[c];
    VisitKeeps(cfg, r, c, reports, {}, {});
    SearchTakesOne(cfg, ListOf(r.lists, b), b, true, reports);
    match SearchNext(cfg, ListOf(r.lists, b), b, true, reports)
    case Underflow =>
    case Hit(s, rest, assisted) =>
      TakeKeeps(cfg, r, c, s, rest);
      var t := Take(r, c, s, rest);
      assert forall d :: ListOf(t.lists, d) == if d == b then rest else ListOf(r.lists, d);
      PushBackKeeps(t, s);
  }

  lemma VisitStartsExactly(cfg: Config, st: State, r: State, c: nat, reports: seq<Report>)
    requires Sized(cfg, st) && cfg.limit > 0 && c < |cfg.bands| && StillIdle(cfg, st, r)
    ensures CanStart(cfg, st, c, reports) ==> Visit(cfg, r, c, reports).phase[c].Acquiring?
    ensures !CanStart(cfg, st, c, reports) ==> StillIdle(cfg, st, Visit(cfg, r, c, reports))
  {
    if cfg.pinned[c] == 0 {
      SearchStartsExactly(cfg, st, ListOf(r.lists, cfg.bands[c]), c, reports);
      if !CanStart(cfg, st, c, reports) {
        RefusedStaysIdle(cfg, st, r, c, reports);
      }
    }
  }

  /** Some channel can be started by the manager called for `who`. */
  ghost predicate SomeoneStarts(cfg: Config, st: State, who: nat, reports: seq<seq<Report>>, n: nat)
    requires Sized(cfg, st) && n <= |cfg.bands|
  {
    exists i :: 0 <= i < n && CanStart(cfg, st, Visited(|cfg.bands|, who, i), ReportsAt(reports, i))
  }

  lemma {:induction false} IdleWithoutStart(cfg: Config, st: State, who: nat, reports: seq<seq<Report>>, n: nat)
    requires Inv(cfg, st) && AllIdle(st) && cfg.limit > 0 && n <= |cfg.bands|
    requires !SomeoneStarts(cfg, st, who, reports, n)
    ensures StillIdle(cfg, st, ManagerAfter(cfg, st, who, reports, n))
  {
    if n > 0 {
      IdleWithoutStart(cfg, st, who, reports, n - 1);
      VisitStartsExactly(cfg, st, ManagerAfter(cfg, st, who, reports, n - 1), Visited(|cfg.bands|, who, n - 1),
                         ReportsAt(reports, n - 1));
    }
  }

  lemma StaysAcquiring(st: State, r: State)
    requires Undisturbed(st, r) && Acquiring in st.phase
    ensures Acquiring in r.phase
  {
    var d :| 0 <= d < |st.phase| && st.phase[d].Acquiring?;
    assert r.phase[d].Acquiring?;
  }

  lemma {:induction false} BusyAfterStart(cfg: Config, st: State, who: nat, reports: seq<seq<Report>>, n: nat)
    requires Inv(cfg, st) && AllIdle(st) && cfg.limit > 0 && n <= |cfg.bands|
    requires SomeoneStarts(cfg, st, who, reports, n)
    ensures Acquiring in ManagerAfter(cfg, st, who, reports, n).phase
  {
    var before := ManagerAfter(cfg, st, who, reports, n - 1);
    var c := Visited(|cfg.bands|, who, n - 1);
    if SomeoneStarts(cfg, st, who, reports, n - 1) {
      BusyAfterStart(cfg, st, who, reports, n - 1);
      VisitUndisturbed(cfg, before, c, ReportsAt(reports, n - 1));
      StaysAcquiring(before, ManagerAfter(cfg, st, who, reports, n));
    } else {
      IdleWithoutStart(cfg, st, who, reports, n - 1);
      VisitStartsExactly(cfg, st, before, c, ReportsAt(reports, n - 1));
    }
  }

  /** The gate stops channel events and time-outs, not commands.  A command breaks silence if it is
      a start, or if it passes a channel event on: a success always, a loss if anything may acquire,
      a failure if the manager then finds a channel that it can start. */
  ghost predicate Breaks(cfg: Config, r: Receiver, m: Message)
    requires Sized(cfg, r.fg)
  {
    m.CommandEvent? &&
    ( || ((m.id == 200 || m.id == 300) && 11 <= m.what <= 13)
      || (m.id != 200 &&
          ( || m.what == 1
            || (m.what == 2 && cfg.limit > 0)
            || (m.what == 0 && cfg.limit > 0 && SomeoneStarts(cfg, r.fg, m.id, m.reports, |cfg.bands|)))))
  }

  lemma SuccessTracks(cfg: Config, st: State, id: nat, reports: seq<seq<Report>>)
    requires Sized(cfg, st) && id < |cfg.bands|
    ensures AcquisitionSucceeded(cfg, st, id, reports).phase[id].Tracking?
  {
    var removed := RemoveSignal(st, st.signal[id]);
    var tracking := removed.(phase := removed.phase[id := Tracking], count := Decrement(removed.count));
    ManagerUndisturbed(cfg, tracking, id, reports, |cfg.bands|);
  }

  lemma {:induction false} NoLimitNoStart(cfg: Config, st: State, who: nat, reports: seq<seq<Report>>, i: nat)
    requires Sized(cfg, st) && cfg.limit == 0 && st.count == 0 && (i > 0 ==> |cfg.bands| > 0)
    ensures ManagerAfter(cfg, st, who, reports, i) == st
  {
    if i > 0 {
      NoLimitNoStart(cfg, st, who, reports, i - 1);
    }
  }

  lemma FailureStartsExactly(cfg: Config, st: State, id: nat, reports: seq<seq<Report>>)
    requires Inv(cfg, st) && AllIdle(st) && id < |cfg.bands|
    ensures var r := AcquisitionFailed(cfg, st, id, reports);
            AllIdle(r) <==> cfg.limit == 0 || !SomeoneStarts(cfg, st, id, reports, |cfg.bands|)
  {
    assert st.(phase := st.phase[id := Idle], count := Decrement(st.count)) == st;
    var managed := Manager(cfg, st, id, reports);
    if cfg.limit == 0 {
      NoLimitNoStart(cfg, st, id, reports, |cfg.bands|);
    } else if SomeoneStarts(cfg, st, id, reports, |cfg.bands|) {
      BusyAfterStart(cfg, st, id, reports, |cfg.bands|);
    } else {
      IdleWithoutStart(cfg, st, id, reports, |cfg.bands|);
    }
  }

  /** Exactly which messages end the silence of a silent receiver. */
  lemma SilenceBreaksExactly(cfg: Config, r: Receiver, m: Message)
    requires Inv(cfg, r.fg) && Deliverable(cfg, r, m) && Silent(r)
    ensures Silent(Dispatch(cfg, r, m)) <==> !Breaks(cfg, r, m)
  {
    if m.CommandEvent? && m.id != 200 {
      if m.what == 0 {
        FailureStartsExactly(cfg, r.fg, m.id, m.reports);
      } else if m.what == 1 {
        SuccessTracks(cfg, r.fg, m.id, m.reports);
      } else if m.what == 2 {
        assert TrackingLost(cfg, r.fg, m.id).phase[m.id].Idle? <==> cfg.limit == 0;
      }
    }
  }

  // ---------------------------------------------------------------- what the receiver inherits

  /** Each message acts on the flowgraph as at most two scheduler events. */
  lemma DispatchIsRun(cfg: Config, r: Receiver, m: Message, st: State, es: seq<Event>) returns (more: seq<Event>)
    requires Sized(cfg, st) && AllPossible(cfg, es) && r.fg == Run(cfg, st, es) && Deliverable(cfg, r, m)
    ensures AllPossible(cfg, more) && Dispatch(cfg, r, m).fg == Run(cfg, st, more)
  {
    more := es;
    match m
    case Timeout(reports) =>
      if !r.standby {
        more := AddEvent(cfg, st, es, Manage(0, reports));
      }
    case ChannelEvent(id, what, reports) =>
      if !r.standby {
        more := AddEvent(cfg, st, es, Action(id, what, reports));
      }
    case CommandEvent(id, what, reports, visible) =>
      more := CommandIsRun(cfg, r, m, st, es);
    case UnknownObject =>
  }

  lemma CommandIsRun(cfg: Config, r: Receiver, m: Message, st: State, es: seq<Event>) returns (more: seq<Event>)
    requires Sized(cfg, st) && AllPossible(cfg, es) && r.fg == Run(cfg, st, es) && Deliverable(cfg, r, m)
    requires m.CommandEvent?
    ensures AllPossible(cfg, more) && Dispatch(cfg, r, m).fg == Run(cfg, st, more)
  {
    more := es;
    if (m.id == 200 || m.id == 300) && (m.what == 12 || m.what == 13) {
      more := AddEvent(cfg, st, more, Prioritisation(if m.what == 12 then m.visible else []));
    }
    if m.id != 200 {
      more := AddEvent(cfg, st, more, Action(m.id, m.what, m.reports));
    }
  }

  lemma AddEvent(cfg: Config, st: State, es: seq<Event>, e: Event) returns (more: seq<Event>)
    requires Sized(cfg, st) && AllPossible(cfg, es) && Possible(cfg, e)
    ensures AllPossible(cfg, more) && Run(cfg, st, more) == Step(cfg, Run(cfg, st, es), e)
  {
    more := es + [e];
    assert more[..|es|] == es && more[|es|] == e;
  }

  lemma {:induction false} DispatchAllIsRun(cfg: Config, r: Receiver, ms: seq<Message>) returns (es: seq<Event>)
    requires Sized(cfg, r.fg) && AllDeliverable(cfg, r, ms)
    ensures AllPossible(cfg, es) && DispatchAll(cfg, r, ms).fg == Run(cfg, r.fg, es)
  {
    es := [];
    if ms != [] {
      es := DispatchAllIsRun(cfg, r, ms[..|ms| - 1]);
      es := DispatchIsRun(cfg, DispatchAll(cfg, r, ms[..|ms| - 1]), ms[|ms| - 1], r.fg, es);
    }
  }

  /** Whatever the control queue delivers to a freshly connected receiver, no satellite is lost,
      the acquisition counter respects its limit, and, with strictly more satellites than
      channels in each band, no search meets an empty list. */
  lemma ReceiverKeepsSatellites(cfg: Config, lists: map<Band, seq<Signal>>, reports: seq<seq<Report>>, r: Receiver, ms: seq<Message>)
    requires GoodConfig(cfg) && GoodLists(lists) && r.fg == Initial(cfg, lists, reports)
    requires AllDeliverable(cfg, r, ms)
    ensures var st := DispatchAll(cfg, r, ms).fg;
            && GoodLists(st.lists) && 0 <= st.count <= cfg.limit
            && (forall b, s :: s in ListOf(lists, b) && !IsPinned(cfg, s) ==> s in ListOf(st.lists, b) || Held(st, s))
            && (MoreSatellitesThanChannels(cfg, lists) ==> !st.underflow)
  {
    var es := DispatchAllIsRun(cfg, r, ms);
    NoSatelliteLost(cfg, lists, reports, es);
    if MoreSatellitesThanChannels(cfg, lists) {
      SearchNeverUnderflows(cfg, lists, reports, es);
    }
  }

  // ---------------------------------------------------------------- the dispatcher in place

  class Controller {
    const flowgraph: GnssFlowgraph
    var receiverOnStandby: bool
    var stop: bool
    var restart: bool
    var processedControlMessages: nat
    var appliedActions: nat

    ghost function Abs(): Receiver
      reads this, flowgraph
    {
      Receiver(receiverOnStandby, stop, restart, processedControlMessages, appliedActions, flowgraph.Abs())
    }

    ghost predicate Valid()
      reads this, flowgraph
    {
      flowgraph.Valid()
    }

    constructor (flowgraph: GnssFlowgraph)
      requires flowgraph.Valid()
      ensures this.flowgraph == flowgraph && Valid()
      ensures Abs() == Receiver(false, false, false, 0, 0, flowgraph.Abs())
    {
      this.flowgraph := flowgraph;
      receiverOnStandby, stop, restart := false, false, false;
      processedControlMessages, appliedActions := 0, 0;
    }

    /** ControlThread::apply_action */
    method ApplyControlAction(what: nat, visible: seq<Satellite>)
      requires Valid()
      modifies this, flowgraph
      ensures Valid()
      ensures Abs() == ControlAction(old(Abs()), what, visible)
    {
      appliedActions := appliedActions + 1;
      match what
      case 0 => stop := true;
      case 1 =>
        stop := true;
        restart := true;
      case 10 => receiverOnStandby := true;
      case 11 => receiverOnStandby := false;
      case 12 =>
        flowgraph.PriorizeSatellites(visible);
        receiverOnStandby := false;
      case 13 =>
        flowgraph.PriorizeSatellites([]);
        receiverOnStandby := false;
      case _ =>
    }

    /** event_dispatcher */
    method EventDispatcher(m: Message)
      requires Valid() && Deliverable(flowgraph.cfg, Abs(), m)
      modifies this, flowgraph
      ensures Valid()
      ensures Abs() == Dispatch(flowgraph.cfg, old(Abs()), m)
    {
      if !m.Timeout? {
        processedControlMessages := processedControlMessages + 1;
        match m
        case ChannelEvent(id, what, reports) =>
          if !receiverOnStandby {
            flowgraph.ApplyReceiverAction(id, what, reports);
          }
        case CommandEvent(id, what, reports, visible) =>
          if id == 200 {
            ApplyControlAction(what, visible);
          } else {
            if id == 300 {
              ApplyControlAction(what, visible);
            }
            flowgraph.ApplyReceiverAction(id, what, reports);
          }
        case UnknownObject =>
      } else if !receiverOnStandby {
        flowgraph.AcquisitionManager(0, m.reports);
      }
    }
  }
}
