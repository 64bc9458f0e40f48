/** The HAS message receiver in place (src/core/libs/galileo_e6_has_msg_receiver.cc), and the
    class of codes for which its Reed-Solomon decoder's contract can be met. */
module HasReceiver {
  import opened Collections
  import opened HasBits
  import opened HasCollector

  // ---------------------------------------------------------------- the decoder's contract

  /** Positions below `k` in which two blocks differ. */
  function Differ(v: Block, w: Block, k: nat): (r: seq<int>)
    requires k <= BLOCK
    ensures forall i :: i in r <==> 0 <= i < k && v[i] != w[i]
    ensures Distinct(r)
  {
    if k == 0 then []
    else if v[k - 1] == w[k - 1] then Differ(v, w, k - 1) else Differ(v, w, k - 1) + [k - 1]
  }

  /** Minimum Hamming distance 224, one more than the number of parity symbols. */
  ghost predicate FullDistance(code: iset<Block>) {
    forall v, w :: v in code && w in code && v != w ==> |Differ(v, w, BLOCK)| > PARITY
  }

  ghost function SomeCodeword(code: iset<Block>, x: Block, erasures: seq<int>): Option<Block> {
    if |erasures| <= PARITY && exists w :: w in code && AgreesOutside(x, w, erasures)
    then var w :| w in code && AgreesOutside(x, w, erasures); Some(w) else None
  }

  /** Some decoder meets the contract if and only if the code has full distance: the property the
      Galileo E6B Reed-Solomon code is built for. */
  lemma DecoderExistsExactlyAtFullDistance(code: iset<Block>)
    ensures FullDistance(code) <==> exists rs: Decoder :: CorrectsErasures(rs, code) && RefusesExcess(rs)
  {
    if FullDistance(code) {
      var rs: Decoder := (x: Block, erasures: seq<int>) => SomeCodeword(code, x, erasures);
      forall x: Block, erasures: seq<int>, w: Block
        | w in code && Positions(erasures) && |erasures| <= PARITY && AgreesOutside(x, w, erasures)
        ensures rs(x, erasures) == Some(w)
      {
        var v := SomeCodeword(code, x, erasures).value;
        OnlyOneCodeword(code, x, erasures, v, w);
      }
      assert CorrectsErasures(rs, code) && RefusesExcess(rs);
    }
    if rs: Decoder :| CorrectsErasures(rs, code) && RefusesExcess(rs) {
      forall v, w | v in code && w in code && v != w ensures |Differ(v, w, BLOCK)| > PARITY {
        DistanceFromDecoder(rs, code, v, w);
      }
    }
  }

  lemma OnlyOneCodeword(code: iset<Block>, x: Block, erasures: seq<int>, v: Block, w: Block)
    requires FullDistance(code) && v in code && w in code && |erasures| <= PARITY
    requires AgreesOutside(x, v, erasures) && AgreesOutside(x, w, erasures)
    ensures v == w
  {
    DistinctWithin(Differ(v, w, BLOCK), erasures);
  }

  lemma DistanceFromDecoder(rs: Decoder, code: iset<Block>, v: Block, w: Block)
    requires CorrectsErasures(rs, code) && v in code && w in code && v != w
    ensures |Differ(v, w, BLOCK)| > PARITY
  {
    var e := Differ(v, w, BLOCK);
    assert Positions(e) && AgreesOutside(v, v, e) && AgreesOutside(v, w, e);
    var corrected := rs(v, e);
    assert |e| <= PARITY ==> corrected == Some(v) && corrected == Some(w);
  }

  // ---------------------------------------------------------------- the receiver

  /** What a decoded message leaves in the receiver's data: its header and number of systems. */
  datatype Data = Data(header: Header, nsys: nat)

  const NSYS_LENGTH := 4

  /** read_MT1_header and the active part of read_MT1_body. */
  function ReadMessage(bits: string): Data
    requires |bits| >= HEADER_BITS + NSYS_LENGTH
  {
    var header := ReadHeader(bits[..HEADER_BITS]);
    Data(header, if header.mask then ValueOf(bits[HEADER_BITS..HEADER_BITS + NSYS_LENGTH]) else 0)
  }

  /** What a message says is what is read from it: the header's fields, and the number of systems when
      the mask flag is set. */
  lemma ContentRoundTrip(h: Header, reserved: string, nsys: nat, rest: string)
    requires |reserved| == 3 && h.toh < 4096 && h.maskId < 32 && h.iodId < 32 && nsys < 16
    ensures ReadMessage(PrintHeader(h, reserved) + BitsOf(nsys, 4) + rest) == Data(h, if h.mask then nsys else 0)
  {
    var text := PrintHeader(h, reserved) + BitsOf(nsys, 4) + rest;
    assert text[..HEADER_BITS] == PrintHeader(h, reserved);
    assert text[HEADER_BITS..HEADER_BITS + NSYS_LENGTH] == BitsOf(nsys, 4);
    HeaderRoundTrip(h, reserved);
    assert Pow2(4) == 16;
    ValueOfBitsOf(nsys, 4);
  }

  lemma {:induction false} RowsTextLength(rows: seq<Row>)
    ensures |RowsText(rows)| == 8 * OCTETS * |rows|
  {
    if rows != [] {
      RowsTextLength(rows[..|rows| - 1]);
    }
  }

  /** A row of the message matrix after some columns have been decoded; the rest is zero. */
  function FilledRow(columns: seq<Block>, r: nat): Row
    requires |columns| <= OCTETS && r < INFORMATION
  {
    seq(OCTETS, c requires 0 <= c < OCTETS => if c < |columns| then columns[c][r] else 0)
  }

  function Filled(columns: seq<Block>): (rows: seq<Row>)
    requires |columns| <= OCTETS
    ensures |rows| == INFORMATION && forall r :: 0 <= r < INFORMATION ==> rows[r] == FilledRow(columns, r)
  {
    seq(INFORMATION, r requires 0 <= r < INFORMATION => FilledRow(columns, r))
  }

  function ZeroMatrix(): (rows: seq<Row>)
    ensures |rows| == INFORMATION && forall r :: 0 <= r < INFORMATION ==> rows[r] == Zeros(OCTETS)
  {
    seq(INFORMATION, _ => Zeros(OCTETS))
  }

  lemma FilledWithNone()
    ensures Filled([]) == ZeroMatrix()
  {
    forall r | 0 <= r < INFORMATION ensures FilledRow([], r) == Zeros(OCTETS) {
    }
  }

  lemma FilledWithAll(columns: seq<Block>)
    requires |columns| == OCTETS
    ensures Filled(columns) == MatrixRows(columns, INFORMATION)
  {
    forall r | 0 <= r < INFORMATION ensures FilledRow(columns, r) == MatrixRow(columns, r) {
    }
  }

  /** The message matrix after an attempt: reset, then filled up to the first column that fails. */
  ghost predicate MatrixAfter(rs: Decoder, m: Mid, size: nat, rows: seq<Row>)
    requires GoodMid(m) && size <= INFORMATION
  {
    exists k :: 0 <= k <= OCTETS && FilledUpTo(rs, m, size, rows, k)
  }

  ghost predicate FilledUpTo(rs: Decoder, m: Mid, size: nat, rows: seq<Row>, k: nat)
    requires GoodMid(m) && size <= INFORMATION && k <= OCTETS
  {
    var erasures := Erasures(m.pids, size);
    && DecodeColumns(rs, m, erasures, k).Some? && rows == Filled(DecodeColumns(rs, m, erasures, k).value)
    && (k < OCTETS ==> DecodeColumns(rs, m, erasures, k + 1).None?)
  }

  class Receiver {
    const decoder: Decoder
    var receivedPids: seq<seq<int>>
    var cMatrix: seq<seq<Row>>
    var mMatrix: seq<Row>
    var newMessage: bool
    var data: Data

    ghost predicate Valid()
      reads this
    {
      && |receivedPids| == 32 && |cMatrix| == 32
      && forall mid :: 0 <= mid < 32 ==> GoodMid(Mid(receivedPids[mid], cMatrix[mid]))
    }

    /** What is stored for message identifier `mid`. */
    ghost function Abs(mid: nat): Mid
      requires Valid() && mid < 32
      reads this
    {
      Mid(receivedPids[mid], cMatrix[mid])
    }

    constructor (decoder: Decoder)
      ensures Valid() && this.decoder == decoder && !newMessage
      ensures forall mid :: 0 <= mid < 32 ==> Abs(mid) == EmptyMid()
    {
      this.decoder := decoder;
      receivedPids := seq(32, _ => []);
      cMatrix := seq(32, _ => EmptyRows());
      mMatrix := ZeroMatrix();
      newMessage := false;
      data := Data(Header(0, 0, 0, false, false, false, false, false, false, false), 0);
    }

    /** process_HAS_page: store a new page, then decode when the number of stored pages equals the
        message size.  Other message identifiers are left alone. */
    method ProcessHasPage(p: Page) returns (ghost outcome: Outcome)
      requires Valid() && GoodPage(p)
      modifies this
      ensures Valid()
      ensures (Abs(p.mid), outcome) == Process(decoder, old(Abs(p.mid)), p)
      ensures forall k :: 0 <= k < 32 && k != p.mid ==> Abs(k) == old(Abs(k))
      ensures outcome.Decoded? ==> newMessage && |outcome.bits| >= HEADER_BITS + NSYS_LENGTH && data == ReadMessage(outcome.bits)
      ensures outcome.DecodeFailed? ==> !newMessage && data == old(data)
      ensures outcome.Waiting? ==> newMessage == old(newMessage) && data == old(data)
    {
      outcome := Waiting;
      if p.status == 0 || p.status == 1 {
        if p.pid != 0 && p.messageType == 1 && p.mid < 32 {
          if p.pid !in receivedPids[p.mid] {
            StorePage(p);
          }
        }
      }
      if |receivedPids[p.mid]| == p.size {
        var res;
        res, outcome := DecodeMessageType1(p.mid, p.size);
        newMessage := res == 0;
      }
    }

    /** Annotate a new page identifier and convert the page's bits to octets. */
    method StorePage(p: Page)
      requires Valid() && GoodPage(p) && Accepts(p) && p.pid !in receivedPids[p.mid]
      modifies this`receivedPids, this`cMatrix
      ensures Valid()
      ensures Abs(p.mid) == Store(old(Abs(p.mid)), p)
      ensures forall k :: 0 <= k < 32 && k != p.mid ==> Abs(k) == old(Abs(k))
    {
      var row := ReadOctets(p.content);
      receivedPids := receivedPids[p.mid := receivedPids[p.mid] + [p.pid]];
      cMatrix := cMatrix[p.mid := cMatrix[p.mid][p.pid - 1 := row]];
    }

    method ReadOctets(content: string) returns (row: Row)
      requires |content| == 8 * OCTETS
      ensures row == OctetsOf(content, OCTETS)
    {
      OctetsAreOctets(content, OCTETS);
      row := Zeros(OCTETS);
      for k := 0 to OCTETS
        invariant forall j :: 0 <= j < k ==> row[j] == OctetsOf(content, OCTETS)[j]
      {
        var octet := ReadBody(content[k * 8..k * 8 + 8], 8);
        assert octet == OctetsOf(content, OCTETS)[k];
        row := row[k := octet];
      }
    }

    /** The two erasure loops of decode_message_type1. */
    method ErasurePositions(pids: seq<int>, size: nat) returns (positions: seq<int>)
      ensures positions == Erasures(pids, size)
    {
      positions := [];
      for i := 1 to size + 1
        invariant positions == Missing(pids, 1, i)
      {
        if i !in pids {
          positions := positions + [i - 1];
        }
      }
      for i := 33 to 256
        invariant positions == Missing(pids, 1, size + 1) + Missing(pids, 33, i)
      {
        if i !in pids {
          positions := positions + [i - 1];
        }
      }
    }

    /** The column handed to the decoder: zero except at the received pages. */
    method BuildColumn(mid: nat, col: nat) returns (column: Block)
      requires Valid() && mid < 32 && col < OCTETS
      ensures column == Column(Abs(mid), col)
    {
      var pids := receivedPids[mid];
      column := Zeros(BLOCK);
      for k := 0 to |pids|
        invariant forall i :: 0 <= i < BLOCK ==> column[i] == if i + 1 in pids[..k] then cMatrix[mid][i][col] else 0
      {
        assert pids[..k + 1] == pids[..k] + [pids[k]];
        column := column[pids[k] - 1 := cMatrix[mid][pids[k] - 1][col]];
      }
      assert pids[..|pids|] == pids;
    }

    /** decode_message_type1 */
    method DecodeMessageType1(mid: nat, size: nat) returns (res: int, ghost outcome: Outcome)
      requires Valid() && mid < 32 && 1 <= size <= INFORMATION
      modifies this
      ensures Valid()
      ensures (Abs(mid), outcome) == Decode(decoder, old(Abs(mid)), size)
      ensures forall k :: 0 <= k < 32 && k != mid ==> Abs(k) == old(Abs(k))
      ensures outcome.Decoded? <==> res == 0
      ensures outcome.Decoded? ==> |outcome.bits| >= HEADER_BITS + NSYS_LENGTH && data == ReadMessage(outcome.bits)
      ensures outcome.DecodeFailed? ==> data == old(data)
      ensures newMessage == old(newMessage)
      ensures MatrixAfter(decoder, old(Abs(mid)), size, mMatrix)
    {
      var positions := ErasurePositions(receivedPids[mid], size);
      mMatrix := ZeroMatrix();
      ghost var columns: seq<Block> := [];
      FilledWithNone();
      for col := 0 to OCTETS
        invariant Valid() && |columns| == col
        invariant unchanged(this`receivedPids, this`cMatrix, this`newMessage, this`data)
        invariant mMatrix == Filled(columns)
        invariant DecodeColumns(decoder, Abs(mid), positions, col) == Some(columns)
      {
        var column := BuildColumn(mid, col);
        match decoder(column, positions) {
          case None =>
            NoneStays(decoder, Abs(mid), positions, col + 1, OCTETS);
            assert FilledUpTo(decoder, old(Abs(mid)), size, mMatrix, col);
            return -1, DecodeFailed;
          case Some(w) =>
            WriteColumn(columns, w, col);
            columns := columns + [w];
        }
      }
      assert FilledUpTo(decoder, old(Abs(mid)), size, mMatrix, OCTETS);
      FilledWithAll(columns);
      var bits := FormMessage(columns, size);
      RowsTextLength(MatrixRows(columns, size));
      outcome := Decoded(bits);
      cMatrix := cMatrix[mid := EmptyRows()];
      receivedPids := receivedPids[mid := []];
      ReadContent(bits);
      res := 0;
    }

    /** Copy the information part of a decoded column into the next column of the message matrix. */
    method WriteColumn(ghost columns: seq<Block>, w: Block, col: nat)
      requires |columns| == col < OCTETS && mMatrix == Filled(columns)
      modifies this`mMatrix
      ensures mMatrix == Filled(columns + [w])
    {
      for i := 0 to INFORMATION
        invariant |mMatrix| == INFORMATION
        invariant forall r :: 0 <= r < INFORMATION ==>
                    mMatrix[r] == if r < i then FilledRow(columns + [w], r) else FilledRow(columns, r)
      {
        assert FilledRow(columns + [w], i) == FilledRow(columns, i)[col := w[i]];
        mMatrix := mMatrix[i := mMatrix[i][col := w[i]]];
      }
    }

    /** Form the message by reading rows of the decoded matrix. */
    method FormMessage(ghost columns: seq<Block>, size: nat) returns (bits: string)
      requires |columns| == OCTETS && size <= INFORMATION && mMatrix == MatrixRows(columns, INFORMATION)
      ensures bits == RowsText(MatrixRows(columns, size))
    {
      bits := "";
      for row := 0 to size
        invariant bits == RowsText(MatrixRows(columns, row))
      {
        var text := "";
        for col := 0 to OCTETS
          invariant text == RowBits(mMatrix[row][..col])
        {
          assert mMatrix[row][..col + 1][..col] == mMatrix[row][..col];
          text := text + BitsOf(mMatrix[row][col], 8);
        }
        assert mMatrix[row][..OCTETS] == mMatrix[row] == MatrixRow(columns, row);
        assert MatrixRows(columns, row + 1)[..row] == MatrixRows(columns, row);
        bits := bits + text;
      }
    }

    /** read_MT1_header and read_MT1_body on a decoded message. */
    method ReadContent(bits: string)
      requires |bits| >= HEADER_BITS + NSYS_LENGTH
      modifies this`data
      ensures data == ReadMessage(bits)
    {
      var h := bits[..HEADER_BITS];
      var toh := ReadHeaderField(h, TOH, 16);
      var maskId := ReadHeaderField(h, MASK_ID, 8);
      var iodId := ReadHeaderField(h, IOD_ID, 8);
      var header := Header(toh, maskId, iodId, Flag(h, MASK_FLAG), Flag(h, ORBIT_FLAG), Flag(h, CLOCK_FULLSET_FLAG),
                           Flag(h, CLOCK_SUBSET_FLAG), Flag(h, CODE_BIAS_FLAG), Flag(h, PHASE_BIAS_FLAG), Flag(h, URA_FLAG));
      var nsys := 0;
      if header.mask {
        nsys := ReadBody(bits[HEADER_BITS..HEADER_BITS + NSYS_LENGTH], 8);
      }
      data := Data(header, nsys);
    }
  }

  lemma {:induction false} NoneStays(rs: Decoder, m: Mid, erasures: seq<int>, i: nat, k: nat)
    requires GoodMid(m) && i <= k <= OCTETS && DecodeColumns(rs, m, erasures, i).None?
    ensures DecodeColumns(rs, m, erasures, k).None?
  {
    if i < k {
      NoneStays(rs, m, erasures, i, k - 1);
    }
  }
}
