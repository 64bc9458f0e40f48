/** GNSS signals and the lists of signals that wait for acquisition
    (src/core/system_parameters/gnss_signal.cc, src/core/receiver/gnss_flowgraph.cc). */
module Signals {
  import opened Collections

  datatype Band =
    | GPS_1C | GPS_2S | GPS_L5
    | GAL_1B | GAL_5X | GAL_7X | GAL_E6
    | GLO_1G | GLO_2G
    | BDS_B1 | BDS_B3

  datatype Constellation = GPS | Galileo | Glonass | Beidou

  function SystemOf(b: Band): Constellation {
    match b
    case GPS_1C | GPS_2S | GPS_L5 => GPS
    case GAL_1B | GAL_5X | GAL_7X | GAL_E6 => Galileo
    case GLO_1G | GLO_2G => Glonass
    case BDS_B1 | BDS_B3 => Beidou
  }

  /** Bands whose search marks the result as a primary frequency. */
  predicate IsPrimary(b: Band) {
    b.GPS_1C? || b.GAL_1B? || b.GLO_1G? || b.BDS_B1?
  }

  /** Secondary bands whose acquisition a tracked satellite of another band can assist. */
  predicate IsAssisted(b: Band) {
    b.GPS_2S? || b.GPS_L5? || b.GAL_5X? || b.GAL_7X? || b.GAL_E6?
  }

  /** The band that assists an assisted band. */
  function AssistingBand(b: Band): Band {
    if SystemOf(b).GPS? then GPS_1C else GAL_1B
  }

  datatype Signal = Signal(band: Band, prn: nat)

  /** The source's operator== on signals.  It compares satellites only: its second test
      compares the first operand's signal name with itself. */
  predicate SameSatellite(a: Signal, b: Signal) {
    SystemOf(a.band) == SystemOf(b.band) && a.prn == b.prn
  }

  // ---------------------------------------------------------------- list operations

  /** std::list::remove under the source's operator==. */
  function Remove(l: seq<Signal>, s: Signal): seq<Signal> {
    if l == [] then []
    else if SameSatellite(l[0], s) then Remove(l[1..], s)
    else [l[0]] + Remove(l[1..], s)
  }

  ghost predicate AllOfBand(l: seq<Signal>, b: Band) {
    forall i :: 0 <= i < |l| ==> l[i].band == b
  }

  /** A well-formed waiting list of band `b`. */
  ghost predicate GoodList(l: seq<Signal>, b: Band) {
    Distinct(l) && AllOfBand(l, b)
  }

  /** On a list of one band the satellite comparison removes exactly the signal itself. */
  lemma {:induction false} RemoveFromGoodList(l: seq<Signal>, s: Signal)
    requires GoodList(l, s.band)
    ensures GoodList(Remove(l, s), s.band)
    ensures forall x :: x in Remove(l, s) <==> x in l && x != s
    ensures s !in l ==> Remove(l, s) == l
  {
    if l != [] {
      var t := l[1..];
      RemoveFromGoodList(t, s);
      assert l == [l[0]] + t;
      assert SameSatellite(l[0], s) <==> l[0] == s;
      assert l[0] !in t;
    }
  }

  /** Position of a member in a list. */
  function Position(l: seq<Signal>, s: Signal): (p: nat)
    requires s in l
    ensures p < |l| && l[p] == s
    ensures s !in l[..p]
  {
    if l[0] == s then 0
    else
      assert l == [l[0]] + l[1..];
      var p := Position(l[1..], s);
      assert l[..p + 1] == [l[0]] + l[1..][..p];
      1 + p
  }

  /** Removing another signal never moves a signal towards the back. */
  lemma {:induction false} RemovePosition(l: seq<Signal>, s: Signal, x: Signal)
    requires GoodList(l, x.band) && x in l && x != s && s.band == x.band
    ensures x in Remove(l, s) && Position(Remove(l, s), x) <= Position(l, x)
  {
    var t := l[1..];
    assert l == [l[0]] + t;
    RemoveFromGoodList(l, s);
    if l[0] != x {
      RemovePosition(t, s, x);
      if l[0] != s {
        var r := Remove(t, s);
        assert ([l[0]] + r)[1..] == r;
      }
    }
  }

  lemma {:induction false} PositionInPrefix(l: seq<Signal>, m: seq<Signal>, x: Signal)
    requires x in l
    ensures x in l + m && Position(l + m, x) == Position(l, x)
  {
    if l[0] != x {
      assert (l + m)[1..] == l[1..] + m;
      PositionInPrefix(l[1..], m, x);
    }
  }
}
