/** Bit strings of Galileo HAS pages and messages
    (src/core/libs/galileo_e6_has_msg_receiver.cc): octets, big-endian fields and the MT1
    message header. */
module HasBits {
  import opened Modular

  function Pow2(n: nat): (p: nat)
    ensures p >= 1
  {
    if n == 0 then 1 else 2 * Pow2(n - 1)
  }

  predicate IsBinary(s: string) {
    forall i :: 0 <= i < |s| ==> s[i] == '0' || s[i] == '1'
  }

  /** `v` in `w` binary digits, most significant first. */
  function BitsOf(v: nat, w: nat): (s: string)
    ensures |s| == w && IsBinary(s)
  {
    if w == 0 then "" else BitsOf(v / 2, w - 1) + (if v % 2 == 1 then "1" else "0")
  }

  /** The number a bit string denotes. */
  function ValueOf(s: string): nat {
    if s == "" then 0 else 2 * ValueOf(s[..|s| - 1]) + if s[|s| - 1] == '1' then 1 else 0
  }

  lemma {:induction false} ValueOfBitsOf(v: nat, w: nat)
    requires v < Pow2(w)
    ensures ValueOf(BitsOf(v, w)) == v
  {
    if w > 0 {
      ValueOfBitsOf(v / 2, w - 1);
      var s := BitsOf(v, w);
      assert s[..w - 1] == BitsOf(v / 2, w - 1);
    }
  }

  lemma {:induction false} ValueBound(s: string)
    ensures ValueOf(s) < Pow2(|s|)
  {
    if s != "" {
      ValueBound(s[..|s| - 1]);
    }
  }

  lemma {:induction false} BitsOfValueOf(s: string)
    requires IsBinary(s)
    ensures BitsOf(ValueOf(s), |s|) == s
  {
    if s != "" {
      var n := |s| - 1;
      BitsOfValueOf(s[..n]);
      assert s == s[..n] + [s[n]];
    }
  }

  /** The first character of a bit string has the highest weight. */
  lemma {:induction false} MostSignificantFirst(s: string)
    requires s != ""
    ensures ValueOf(s) == (if s[0] == '1' then Pow2(|s| - 1) else 0) + ValueOf(s[1..])
  {
    if |s| > 1 {
      var n := |s| - 1;
      MostSignificantFirst(s[..n]);
      assert s[..n][1..] == s[1..][..n - 1];
    }
  }

  // ---------------------------------------------------------------- octets

  /** The octets of a page's content, eight bits each. */
  function OctetsOf(content: string, n: nat): (r: seq<int>)
    requires |content| == 8 * n
    ensures |r| == n
    ensures forall k :: 0 <= k < n ==> r[k] == ValueOf(content[8 * k..8 * k + 8])
  {
    seq(n, k requires 0 <= k < n => ValueOf(content[8 * k..8 * k + 8]))
  }

  predicate IsOctet(v: int) {
    0 <= v < 256
  }

  predicate AllOctets(row: seq<int>) {
    forall k :: 0 <= k < |row| ==> IsOctet(row[k])
  }

  /** A row of octets written out as bits. */
  function RowBits(row: seq<int>): (s: string)
    requires AllOctets(row)
    ensures |s| == 8 * |row| && IsBinary(s)
  {
    if row == [] then "" else RowBits(row[..|row| - 1]) + BitsOf(row[|row| - 1], 8)
  }

  lemma {:induction false} RowBitsSlice(row: seq<int>, k: nat)
    requires AllOctets(row) && k < |row|
    ensures RowBits(row)[8 * k..8 * k + 8] == BitsOf(row[k], 8)
  {
    var n := |row| - 1;
    var s, last := RowBits(row[..n]), BitsOf(row[n], 8);
    if k == n {
      assert (s + last)[8 * n..8 * n + 8] == last;
    } else {
      RowBitsSlice(row[..n], k);
      assert (s + last)[8 * k..8 * k + 8] == s[8 * k..8 * k + 8];
    }
  }

  /** Reading the octets of a page gives back the row it carries. */
  lemma OctetsOfRowBits(row: seq<int>)
    requires AllOctets(row)
    ensures OctetsOf(RowBits(row), |row|) == row
  {
    var s := RowBits(row);
    forall k | 0 <= k < |row| ensures OctetsOf(s, |row|)[k] == row[k] {
      RowBitsSlice(row, k);
      assert Pow2(8) == 256;
      ValueOfBitsOf(row[k], 8);
    }
  }

  // ---------------------------------------------------------------- field readers

  /** One step of a `width`-bit accumulator: shift left, then insert the bit. */
  function Accumulate(value: nat, bit: char, m: nat): nat
    requires m > 0
  {
    var shifted := (value * 2) % m;
    if bit == '1' then (shifted + 1) % m else shifted
  }

  /** read_has_message_body_uint8/16/64: the accumulator wraps, so fields longer than it keep
      their low bits only. */
  method ReadBody(bits: string, width: nat) returns (value: nat)
    ensures value == ValueOf(bits) % Pow2(width)
    ensures |bits| <= width ==> value == ValueOf(bits)
  {
    var m := Pow2(width);
    value := 0;
    ModIs(0, 0, 0, m);
    for j := 0 to |bits|
      invariant value == ValueOf(bits[..j]) % m
    {
      assert bits[..j + 1][..j] == bits[..j];
      AccumulateMod(ValueOf(bits[..j]), bits[j], m);
      value := Accumulate(value, bits[j], m);
    }
    assert bits[..|bits|] == bits;
    if |bits| <= width {
      ValueBound(bits);
      Pow2Monotone(|bits|, width);
      ModIs(ValueOf(bits), 0, ValueOf(bits), m);
    }
  }

  lemma {:induction false} Pow2Monotone(a: nat, b: nat)
    requires a <= b
    ensures Pow2(a) <= Pow2(b)
  {
    if a < b {
      Pow2Monotone(a, b - 1);
    }
  }

  lemma AccumulateMod(v: nat, bit: char, m: nat)
    requires m > 0
    ensures Accumulate(v % m, bit, m) == (2 * v + if bit == '1' then 1 else 0) % m
  {
    var q, r, b := v / m, v % m, if bit == '1' then 1 else 0;
    var c := if 2 * r < m then 0 else 1;
    var y := if 2 * r < m then 2 * r else 2 * r - m;
    var k := 2 * q + c;
    ModIs(2 * r, c, y, m);
    if y + b < m {
      ModIs(y + b, 0, y + b, m);
      ModIs(2 * v + b, k, y + b, m);
    } else {
      ModIs(y + b, 1, 0, m);
      assert (k + 1) * m == k * m + m;
      ModIs(2 * v + b, k + 1, 0, m);
    }
  }

  /** A header field: 1-based position of its first bit, and its length. */
  datatype Field = Field(first: nat, length: nat)

  const HEADER_BITS := 32

  /** read_has_message_header_parameter_*: the header is a bitset, so bit i is character 31 - i. */
  method ReadHeaderField(header: string, f: Field, width: nat) returns (value: nat)
    requires |header| == HEADER_BITS && 1 <= f.first && f.first - 1 + f.length <= HEADER_BITS && f.length <= width
    ensures value == ValueOf(FieldBits(header, f))
  {
    var m := Pow2(width);
    value := 0;
    for j := 0 to f.length
      invariant value == ValueOf(header[f.first - 1..f.first - 1 + j])
    {
      var i := HEADER_BITS - f.first - j;
      var bit := header[HEADER_BITS - 1 - i];
      ghost var v := value;
      value := Accumulate(value, bit, m);
      assert value == ValueOf(header[f.first - 1..f.first + j]) by {
        NextFieldBit(header, f.first - 1, j, width);
      }
    }
  }

  lemma NextFieldBit(header: string, at: nat, j: nat, width: nat)
    requires at + j < |header| && j < width
    ensures Accumulate(ValueOf(header[at..at + j]), header[at + j], Pow2(width)) == ValueOf(header[at..at + j + 1])
  {
    var prev, next := header[at..at + j], header[at..at + j + 1];
    var m := Pow2(width);
    assert next[..j] == prev && next[j] == header[at + j];
    ValueBound(next);
    ValueBound(prev);
    Pow2Monotone(j + 1, width);
    AccumulateMod(ValueOf(prev), header[at + j], m);
    ModIs(ValueOf(prev), 0, ValueOf(prev), m);
    ModIs(ValueOf(next), 0, ValueOf(next), m);
  }

  function FieldBits(header: string, f: Field): string
    requires |header| == HEADER_BITS && 1 <= f.first && f.first - 1 + f.length <= HEADER_BITS
  {
    header[f.first - 1..f.first - 1 + f.length]
  }

  // ---------------------------------------------------------------- the MT1 header

  const TOH := Field(1, 12)
  const MASK_FLAG := Field(13, 1)
  const ORBIT_FLAG := Field(14, 1)
  const CLOCK_FULLSET_FLAG := Field(15, 1)
  const CLOCK_SUBSET_FLAG := Field(16, 1)
  const CODE_BIAS_FLAG := Field(17, 1)
  const PHASE_BIAS_FLAG := Field(18, 1)
  const URA_FLAG := Field(19, 1)
  const MASK_ID := Field(23, 5)
  const IOD_ID := Field(28, 5)

  datatype Header = Header(
    toh: nat, maskId: nat, iodId: nat, mask: bool, orbit: bool, clockFull: bool, clockSubset: bool,
    codeBias: bool, phaseBias: bool, ura: bool)

  function Flag(header: string, f: Field): bool
    requires |header| == HEADER_BITS && 1 <= f.first <= HEADER_BITS
  {
    header[f.first - 1] == '1'
  }

  /** read_MT1_header */
  function ReadHeader(header: string): Header
    requires |header| == HEADER_BITS
  {
    Header(ValueOf(FieldBits(header, TOH)), ValueOf(FieldBits(header, MASK_ID)), ValueOf(FieldBits(header, IOD_ID)),
           Flag(header, MASK_FLAG), Flag(header, ORBIT_FLAG), Flag(header, CLOCK_FULLSET_FLAG),
           Flag(header, CLOCK_SUBSET_FLAG), Flag(header, CODE_BIAS_FLAG), Flag(header, PHASE_BIAS_FLAG),
           Flag(header, URA_FLAG))
  }

  function Bit(b: bool): string {
    if b then "1" else "0"
  }

  /** The header as the HAS ICD lays it out (Table 6): time of hour, seven flags, three reserved
      bits, mask identifier, issue of data identifier. */
  function PrintHeader(h: Header, reserved: string): (s: string)
    requires |reserved| == 3
    ensures |s| == HEADER_BITS
  {
    BitsOf(h.toh, 12) + PrintFlags(h) + reserved + BitsOf(h.maskId, 5) + BitsOf(h.iodId, 5)
  }

  function PrintFlags(h: Header): (s: string)
    ensures |s| == 7
  {
    Bit(h.mask) + Bit(h.orbit) + Bit(h.clockFull) + Bit(h.clockSubset) + Bit(h.codeBias) + Bit(h.phaseBias) + Bit(h.ura)
  }

  /** Reading a printed header gives it back, whatever the reserved bits. */
  lemma HeaderRoundTrip(h: Header, reserved: string)
    requires |reserved| == 3 && h.toh < 4096 && h.maskId < 32 && h.iodId < 32
    ensures ReadHeader(PrintHeader(h, reserved)) == h
  {
    assert Pow2(5) == 32;
    assert Pow2(12) == 4096 by {
      assert Pow2(6) == 64;
      assert Pow2(12) == 64 * Pow2(6);
    }
    ValueOfBitsOf(h.toh, 12);
    ValueOfBitsOf(h.maskId, 5);
    ValueOfBitsOf(h.iodId, 5);
    HeaderLayout(h, reserved);
    FlagLayout(h, reserved);
  }

  lemma HeaderLayout(h: Header, reserved: string)
    requires |reserved| == 3
    ensures var s := PrintHeader(h, reserved);
            && FieldBits(s, TOH) == BitsOf(h.toh, 12)
            && FieldBits(s, MASK_ID) == BitsOf(h.maskId, 5)
            && FieldBits(s, IOD_ID) == BitsOf(h.iodId, 5)
  {
    var s := PrintHeader(h, reserved);
    assert s[0..12] == BitsOf(h.toh, 12);
    assert s[22..27] == BitsOf(h.maskId, 5);
    assert s[27..32] == BitsOf(h.iodId, 5);
  }

  lemma FlagLayout(h: Header, reserved: string)
    requires |reserved| == 3
    ensures var s := PrintHeader(h, reserved);
            && Flag(s, MASK_FLAG) == h.mask && Flag(s, ORBIT_FLAG) == h.orbit
            && Flag(s, CLOCK_FULLSET_FLAG) == h.clockFull && Flag(s, CLOCK_SUBSET_FLAG) == h.clockSubset
            && Flag(s, CODE_BIAS_FLAG) == h.codeBias && Flag(s, PHASE_BIAS_FLAG) == h.phaseBias
            && Flag(s, URA_FLAG) == h.ura
  {
    var s := PrintHeader(h, reserved);
    var flags := PrintFlags(h);
    assert forall i :: 0 <= i < 7 ==> s[12..19][i] == flags[i];
  }
}
