/** GNSSFlowgraph's scheduling methods (src/core/receiver/gnss_flowgraph.cc), in place: each
    updates the channel states, the channel signals, the waiting lists and the acquisition
    counter as the source does, and is proved to realise the corresponding state function. */
module Flowgraph {
  import opened Signals
  import opened FlowgraphModel

  /** What one visible satellite does to all lists. */
  ghost function PrioritiseOne(lists: map<Band, seq<Signal>>, sat: Satellite): map<Band, seq<Signal>> {
    map b | b in lists :: if Prioritisable(sat, b) then ToFront(lists[b], Signal(b, sat.prn)) else lists[b]
  }

  lemma PrioritiseSnoc(st: State, visible: seq<Satellite>, i: nat)
    requires i < |visible|
    ensures PrioritiseOne(Prioritise(st, visible[..i]).lists, visible[i]) == Prioritise(st, visible[..i + 1]).lists
  {
    var shorter, longer := visible[..i], visible[..i + 1];
    assert longer[..i] == shorter && longer[i] == visible[i];
    forall b | b in st.lists
      ensures PrioritiseList(st.lists[b], b, longer) ==
              var l := PrioritiseList(st.lists[b], b, shorter);
              if Prioritisable(visible[i], b) then ToFront(l, Signal(b, visible[i].prn)) else l
    {
    }
  }

  /** Moving one signal to the front of its list, if that list exists. */
  ghost function Fronted(lists: map<Band, seq<Signal>>, s: Signal): map<Band, seq<Signal>> {
    if s.band in lists then lists[s.band := ToFront(lists[s.band], s)] else lists
  }

  ghost function FrontedAll(lists: map<Band, seq<Signal>>, bands: seq<Band>, prn: nat): map<Band, seq<Signal>> {
    if bands == [] then lists
    else Fronted(FrontedAll(lists, bands[..|bands| - 1], prn), Signal(bands[|bands| - 1], prn))
  }

  lemma {:induction false} FrontedEach(lists: map<Band, seq<Signal>>, bands: seq<Band>, prn: nat)
    requires forall i, j :: 0 <= i < j < |bands| ==> bands[i] != bands[j]
    ensures FrontedAll(lists, bands, prn).Keys == lists.Keys
    ensures forall b :: b in lists ==>
              FrontedAll(lists, bands, prn)[b] == if b in bands then ToFront(lists[b], Signal(b, prn)) else lists[b]
  {
    if bands != [] {
      var n := |bands| - 1;
      FrontedEach(lists, bands[..n], prn);
      assert bands == bands[..n] + [bands[n]];
    }
  }

  class GnssFlowgraph {
    const cfg: Config
    var phase: seq<Phase>
    var signal: seq<Signal>
    var available: map<Band, seq<Signal>>
    var acqCount: int
    ghost var underflow: bool
    ghost var picks: seq<Signal>

    /** The scheduler state held in the fields. */
    ghost function Abs(): State
      reads this
    {
      State(phase, signal, available, acqCount, underflow, picks)
    }

    ghost predicate Valid()
      reads this
    {
      GoodConfig(cfg) && Sized(cfg, Abs())
    }

    /** init followed by connect: lists filled, the first channels acquiring, signals assigned. */
    constructor (cfg: Config, lists: map<Band, seq<Signal>>, reports: seq<seq<Report>>)
      requires GoodConfig(cfg)
      ensures this.cfg == cfg && Valid()
      ensures Abs() == Initial(cfg, lists, reports)
    {
      this.cfg := cfg;
      available := lists;
      phase := seq(|cfg.bands|, i => if i < cfg.limit then Acquiring else Idle);
      signal := seq(|cfg.bands|, i requires 0 <= i < |cfg.bands| => Signal(cfg.bands[i], 0));
      acqCount := cfg.limit;
      underflow := false;
      picks := [];
      new;
      assert Abs() == Unassigned(cfg, lists);
      AssignChannels(reports);
    }

    /** push_back_signal */
    method PushBackSignal(s: Signal)
      modifies this`available
      ensures Abs() == PushBack(old(Abs()), s)
    {
      available := available[s.band := Remove(ListOf(available, s.band), s)];
      available := available[s.band := ListOf(available, s.band) + [s]];
      assert available == PushBack(old(Abs()), s).lists;
    }

    /** remove_signal */
    method RemoveFromList(s: Signal)
      modifies this`available
      ensures Abs() == RemoveSignal(old(Abs()), s)
    {
      available := available[s.band := Remove(ListOf(available, s.band), s)];
    }

    /** search_next_signal.  `found` is false where the source takes the front of an empty list. */
    method SearchNextSignal(b: Band, pop: bool, reports: seq<Report>)
      returns (found: bool, s: Signal, primary: bool, assisted: bool)
      modifies this`available
      ensures primary == IsPrimary(b)
      ensures match SearchNext(cfg, old(ListOf(available, b)), b, pop, reports)
              case Underflow => !found && available == old(available)
              case Hit(x, rest, a) => found && s == x && assisted == a && available == old(available)[b := rest]
    {
      primary, assisted, found, s := IsPrimary(b), false, true, Signal(b, 0);
      var l := ListOf(available, b);
      var k := |l|;
      if IsAssisted(b) && AssistingBand(b) in cfg.bands {
        k := SearchAssisted(l, AssistingBand(b), reports);
      }
      if k < |l| {
        s, assisted := l[k], true;
        available := available[b := if pop then l[..k] + l[k + 1..] else l];
      } else if l == [] {
        found := false;
      } else {
        s := l[0];
        available := available[b := l[1..]];
        if !pop {
          AppendToList(b, s);
        }
      }
    }

    method AppendToList(b: Band, s: Signal)
      requires b in available
      modifies this`available
      ensures available == old(available)[b := old(available)[b] + [s]]
    {
      available := available[b := available[b] + [s]];
    }

    /** The loop over the status map: the first report of the assisting band that names a listed
        satellite decides. */
    method SearchAssisted(l: seq<Signal>, helper: Band, reports: seq<Report>) returns (k: nat)
      ensures k == AssistedIndex(l, helper, reports)
    {
      k := |l|;
      var i := 0;
      assert reports[0..] == reports;
      while i < |reports| && k == |l|
        invariant 0 <= i <= |reports| && k <= |l|
        invariant AssistedIndex(l, helper, reports) == if k < |l| then k else AssistedIndex(l, helper, reports[i..])
      {
        assert reports[i..][1..] == reports[i + 1..];
        if reports[i].band == helper {
          k := FindPrn(l, reports[i].prn);
        }
        i := i + 1;
      }
    }

    /** The first loop of assign_channels: pinned channels are inserted in front. */
    method ChannelOrder() returns (order: seq<nat>)
      requires Valid()
      ensures order == AssignOrder(cfg, |cfg.pinned|)
    {
      order := [];
      for i := 0 to |cfg.pinned|
        invariant order == AssignOrder(cfg, i)
      {
        order := if cfg.pinned[i] == 0 then order + [i] else [i] + order;
      }
    }

    /** The body of the second loop of assign_channels. */
    method AssignChannel(c: nat, reports: seq<Report>)
      requires Valid() && c < |cfg.bands|
      modifies this
      ensures Valid()
      ensures Abs() == Assign(cfg, old(Abs()), c, reports)
    {
      var b := signal[c].band;
      if cfg.pinned[c] == 0 {
        var found, s, _, _ := SearchNextSignal(b, false, reports);
        if found {
          signal := signal[c := s];
        } else {
          underflow := true;
        }
      } else {
        var s := Signal(b, cfg.pinned[c]);
        RemoveFromList(s);
        signal := signal[c := s];
      }
    }

    /** assign_channels */
    method AssignChannels(reports: seq<seq<Report>>)
      requires Valid()
      modifies this
      ensures Valid()
      ensures Abs() == AssignAll(cfg, old(Abs()), AssignOrder(cfg, |cfg.pinned|), reports)
    {
      var order := ChannelOrder();
      for k := 0 to |order|
        invariant Valid()
        invariant Abs() == AssignAll(cfg, old(Abs()), order[..k], reports)
      {
        AssignOneMore(cfg, old(Abs()), order, k, reports);
        AssignChannel(order[k], ReportsAt(reports, k));
      }
      assert order[..|order|] == order;
    }

    /** acquisition_manager: offer each channel, starting after `who`, a new acquisition. */
    method AcquisitionManager(who: nat, reports: seq<seq<Report>>)
      requires Valid()
      modifies this
      ensures Valid()
      ensures Abs() == Manager(cfg, old(Abs()), who, reports)
    {
      for i := 0 to |cfg.bands|
        invariant Valid()
        invariant Abs() == ManagerAfter(cfg, old(Abs()), who, reports, i)
      {
        OfferAcquisition((i + who + 1) % |cfg.bands|, ReportsAt(reports, i));
      }
    }

    /** The body of the manager's loop. */
    method OfferAcquisition(c: nat, reports: seq<Report>)
      requires Valid() && c < |cfg.bands|
      modifies this
      ensures Valid()
      ensures Abs() == Visit(cfg, old(Abs()), c, reports)
    {
      if acqCount < cfg.limit && phase[c].Idle? {
        var start := true;
        if cfg.pinned[c] == 0 {
          var found, s, primary, assisted := SearchNextSignal(signal[c].band, true, reports);
          if !found {
            underflow := true;
            return;
          }
          signal := signal[c := s];
          picks := picks + [s];
          start := primary || assisted || !cfg.assistDual;
        }
        if start {
          phase := phase[c := Acquiring];
          acqCount := acqCount + 1;
        } else {
          PushBackSignal(signal[c]);
        }
      }
    }

    /** apply_action */
    method ApplyReceiverAction(who: nat, what: nat, reports: seq<seq<Report>>)
      requires Valid() && (what <= 2 ==> who < |cfg.bands|)
      modifies this
      ensures Valid()
      ensures Abs() == ApplyAction(cfg, old(Abs()), who, what, reports)
    {
      var sat := if who < 200 && who < |cfg.pinned| then cfg.pinned[who] else 0;
      if what == 0 {
        FailAcquisition(who, sat, reports);
      } else if what == 1 {
        SucceedAcquisition(who, reports);
      } else if what == 2 {
        LoseTracking(who, sat);
      } else if what == 10 {
        RequestStandby();
      }
    }

    /** Case 0 of apply_action: the failed signal is pushed back after the manager has run. */
    method FailAcquisition(who: nat, sat: nat, reports: seq<seq<Report>>)
      requires Valid() && who < |cfg.bands| && sat == PinOf(cfg, who)
      modifies this
      ensures Valid()
      ensures Abs() == AcquisitionFailed(cfg, old(Abs()), who, reports)
    {
      var gs := signal[who];
      phase := phase[who := Idle];
      if acqCount > 0 {
        acqCount := acqCount - 1;
      }
      AcquisitionManager(who, reports);
      if sat == 0 {
        PushBackSignal(gs);
      }
    }

    /** Case 1: the acquired signal leaves its list. */
    method SucceedAcquisition(who: nat, reports: seq<seq<Report>>)
      requires Valid() && who < |cfg.bands|
      modifies this
      ensures Valid()
      ensures Abs() == AcquisitionSucceeded(cfg, old(Abs()), who, reports)
    {
      RemoveFromList(signal[who]);
      phase := phase[who := Tracking];
      if acqCount > 0 {
        acqCount := acqCount - 1;
      }
      AcquisitionManager(who, reports);
    }

    /** Case 2: acquire the same satellite again if a slot is free, else give it back. */
    method LoseTracking(who: nat, sat: nat)
      requires Valid() && who < |cfg.bands| && sat == PinOf(cfg, who)
      modifies this
      ensures Valid()
      ensures Abs() == TrackingLost(cfg, old(Abs()), who)
    {
      if acqCount < cfg.limit {
        phase := phase[who := Acquiring];
        acqCount := acqCount + 1;
      } else {
        phase := phase[who := Idle];
        if sat == 0 {
          PushBackSignal(signal[who]);
        }
      }
    }

    /** The standby branch of apply_action: every busy channel returns its signal and stops. */
    method RequestStandby()
      requires Valid()
      modifies this
      ensures Valid()
      ensures Abs() == EnterStandby(cfg, old(Abs()))
    {
      for n := 0 to |cfg.bands|
        invariant Valid()
        invariant Abs() == StandbyAfter(cfg, old(Abs()), n)
      {
        if phase[n].Acquiring? || phase[n].Tracking? {
          PushBackSignal(signal[n]);
          phase := phase[n := Idle];
        }
      }
      acqCount := 0;
    }

    /** priorize_satellites */
    method PriorizeSatellites(visible: seq<Satellite>)
      requires Valid()
      modifies this`available
      ensures Valid()
      ensures Abs() == Prioritise(old(Abs()), visible)
    {
      assert available == Prioritise(Abs(), []).lists;
      for i := 0 to |visible|
        invariant Valid()
        invariant available == Prioritise(old(Abs()), visible[..i]).lists
      {
        PrioritiseSnoc(old(Abs()), visible, i);
        PriorizeOne(visible[i]);
      }
      assert visible[..|visible|] == visible;
    }

    /** The body of the loop: a GPS satellite moves to the front of the three GPS lists, a
        Galileo satellite to the front of the four Galileo lists. */
    method PriorizeOne(sat: Satellite)
      requires Valid()
      modifies this`available
      ensures Valid()
      ensures available == PrioritiseOne(old(available), sat)
    {
      if sat.system.GPS? {
        PriorizeBands([GPS_1C, GPS_2S, GPS_L5], sat.prn);
      } else if sat.system.Galileo? {
        PriorizeBands([GAL_1B, GAL_5X, GAL_7X, GAL_E6], sat.prn);
      }
    }

    /** The lists of one constellation, one after the other. */
    method PriorizeBands(bands: seq<Band>, prn: nat)
      requires Valid()
      requires forall i, j :: 0 <= i < j < |bands| ==> bands[i] != bands[j]
      modifies this`available
      ensures Valid()
      ensures available.Keys == old(available).Keys
      ensures forall b :: b in available ==>
                available[b] == if b in bands then ToFront(old(available)[b], Signal(b, prn)) else old(available)[b]
    {
      for i := 0 to |bands|
        invariant Valid()
        invariant available == FrontedAll(old(available), bands[..i], prn)
      {
        assert bands[..i + 1][..i] == bands[..i];
        MoveToFront(Signal(bands[i], prn));
      }
      assert bands[..|bands|] == bands;
      FrontedEach(old(available), bands, prn);
    }

    /** Remove a signal from its list and, if the list shrank, put it in front. */
    method MoveToFront(s: Signal)
      requires Valid()
      modifies this`available
      ensures Valid()
      ensures available == Fronted(old(available), s)
    {
      if s.band in available {
        var oldSize := |available[s.band]|;
        available := available[s.band := Remove(available[s.band], s)];
        if oldSize > |available[s.band]| {
          available := available[s.band := [s] + available[s.band]];
        }
      }
    }
  }
}
