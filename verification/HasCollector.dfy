/** The Galileo HAS page collector (src/core/libs/galileo_e6_has_msg_receiver.cc) for one message
    identifier: pages arrive in any order and with repeats, are stored by page identifier, and
    are decoded column by column once as many distinct pages have arrived as the message has. */
module HasCollector {
  import opened Collections
  import opened HasBits

  const BLOCK := 255
  const INFORMATION := 32
  const OCTETS := 53
  const PARITY := 223

  function Zeros(n: nat): (r: seq<int>)
    ensures |r| == n && AllOctets(r)
  {
    seq(n, _ => 0)
  }

  /** A page's 53 octets, and a Reed-Solomon block of 255 octets. */
  type Row = r: seq<int> | |r| == OCTETS && AllOctets(r) witness Zeros(OCTETS)
  type Block = b: seq<int> | |b| == BLOCK && AllOctets(b) witness Zeros(BLOCK)

  /** The Reed-Solomon decoder as the collector uses it: a block and its erasure positions give a
      corrected block, or nothing. */
  type Decoder = (Block, seq<int>) -> Option<Block>

  // ---------------------------------------------------------------- state and pages

  /** What is stored for one message identifier. */
  datatype Mid = Mid(pids: seq<int>, rows: seq<Row>)

  predicate GoodMid(m: Mid) {
    |m.rows| == BLOCK && forall i :: 0 <= i < |m.pids| ==> 1 <= m.pids[i] <= BLOCK
  }

  function EmptyRows(): (r: seq<Row>)
    ensures |r| == BLOCK && forall i :: 0 <= i < BLOCK ==> r[i] == Zeros(OCTETS)
  {
    seq(BLOCK, _ => Zeros(OCTETS))
  }

  function EmptyMid(): (m: Mid)
    ensures GoodMid(m)
  {
    Mid([], EmptyRows())
  }

  datatype Page = Page(status: nat, messageType: nat, mid: nat, size: nat, pid: nat, content: string)

  /** What the page header reader delivers: five-bit identifier, size 1 to 32, eight-bit page
      identifier, 424 bits of content. */
  predicate GoodPage(p: Page) {
    p.mid < 32 && 1 <= p.size <= INFORMATION && p.pid <= BLOCK && |p.content| == 8 * OCTETS && IsBinary(p.content)
  }

  /** Test or operational mode, a page identifier other than the reserved 0, and message type 1. */
  predicate Accepts(p: Page) {
    (p.status == 0 || p.status == 1) && p.pid != 0 && p.messageType == 1
  }

  function PageRow(p: Page): Row
    requires GoodPage(p)
  {
    var r := OctetsOf(p.content, OCTETS);
    OctetsAreOctets(p.content, OCTETS);
    r
  }

  lemma OctetsAreOctets(content: string, n: nat)
    requires |content| == 8 * n
    ensures AllOctets(OctetsOf(content, n))
  {
    forall k | 0 <= k < n ensures IsOctet(OctetsOf(content, n)[k]) {
      ValueBound(content[8 * k..8 * k + 8]);
      assert Pow2(8) == 256;
    }
  }

  function Store(m: Mid, p: Page): (r: Mid)
    requires GoodMid(m) && GoodPage(p)
    ensures GoodMid(r)
  {
    if Accepts(p) && p.pid !in m.pids
    then Mid(m.pids + [p.pid], m.rows[p.pid - 1 := PageRow(p)]) else m
  }

  // ---------------------------------------------------------------- decoding

  /** Positions of the page identifiers lo..hi-1 that have not been received. */
  function Missing(pids: seq<int>, lo: nat, hi: nat): (r: seq<int>)
    requires lo >= 1
  {
    if hi <= lo then [] else Missing(pids, lo, hi - 1) + if hi - 1 in pids then [] else [hi - 2]
  }

  function Erasures(pids: seq<int>, size: nat): seq<int> {
    Missing(pids, 1, size + 1) + Missing(pids, 33, 256)
  }

  /** Column `col` entering the decoder: received symbols, and zero elsewhere. */
  function Column(m: Mid, col: nat): Block
    requires GoodMid(m) && col < OCTETS
  {
    seq(BLOCK, i requires 0 <= i < BLOCK => if i + 1 in m.pids then m.rows[i][col] else 0)
  }

  function DecodeColumns(rs: Decoder, m: Mid, erasures: seq<int>, k: nat): (r: Option<seq<Block>>)
    requires GoodMid(m) && k <= OCTETS
    ensures r.Some? ==> |r.value| == k
  {
    if k == 0 then Some([])
    else
      match DecodeColumns(rs, m, erasures, k - 1)
      case None => None
      case Some(columns) =>
        match rs(Column(m, k - 1), erasures)
        case None => None
        case Some(w) => Some(columns + [w])
  }

  /** Row `r` of the decoded message matrix. */
  function MatrixRow(columns: seq<Block>, r: nat): Row
    requires |columns| == OCTETS && r < BLOCK
  {
    seq(OCTETS, c requires 0 <= c < OCTETS => columns[c][r])
  }

  function RowsText(rows: seq<Row>): string {
    if rows == [] then "" else RowsText(rows[..|rows| - 1]) + RowBits(rows[|rows| - 1])
  }

  function MatrixRows(columns: seq<Block>, size: nat): (rows: seq<Row>)
    requires |columns| == OCTETS && size <= BLOCK
    ensures |rows| == size
  {
    seq(size, r requires 0 <= r < size => MatrixRow(columns, r))
  }

  datatype Outcome = Waiting | Decoded(bits: string) | DecodeFailed

  /** decode_message_type1: the new store and what came of it. */
  function Decode(rs: Decoder, m: Mid, size: nat): (Mid, Outcome)
    requires GoodMid(m) && size <= INFORMATION
  {
    match DecodeColumns(rs, m, Erasures(m.pids, size), OCTETS)
    case None => (m, DecodeFailed)
    case Some(columns) => (EmptyMid(), Decoded(RowsText(MatrixRows(columns, size))))
  }

  /** process_HAS_page for the page's message identifier. */
  function Process(rs: Decoder, m: Mid, p: Page): (r: (Mid, Outcome))
    requires GoodMid(m) && GoodPage(p)
    ensures GoodMid(r.0)
  {
    var stored := Store(m, p);
    if |stored.pids| == p.size then Decode(rs, stored, p.size) else (stored, Waiting)
  }

  predicate AllGood(ps: seq<Page>) {
    forall i :: 0 <= i < |ps| ==> GoodPage(ps[i])
  }

  function ProcessAll(rs: Decoder, m: Mid, ps: seq<Page>): (r: (Mid, seq<Outcome>))
    requires GoodMid(m) && AllGood(ps)
    ensures GoodMid(r.0) && |r.1| == |ps|
  {
    if ps == [] then (m, [])
    else
      var n := |ps| - 1;
      var (before, outcomes) := ProcessAll(rs, m, ps[..n]);
      var (after, outcome) := Process(rs, before, ps[n]);
      (after, outcomes + [outcome])
  }

  // ---------------------------------------------------------------- what every run keeps

  /** Stored page identifiers are distinct, and every row not received is zero. */
  ghost predicate Tidy(m: Mid) {
    && GoodMid(m) && Distinct(m.pids)
    && forall i :: 0 <= i < BLOCK && i + 1 !in m.pids ==> m.rows[i] == Zeros(OCTETS)
  }

  lemma StoreTidy(m: Mid, p: Page)
    requires Tidy(m) && GoodPage(p)
    ensures Tidy(Store(m, p))
  {
    if Accepts(p) && p.pid !in m.pids {
      var r := Store(m, p);
      assert r.pids == m.pids + [p.pid];
      forall i | 0 <= i < BLOCK && i + 1 !in r.pids ensures r.rows[i] == Zeros(OCTETS) {
        assert r.pids[|m.pids|] == p.pid;
        assert i + 1 != p.pid && i + 1 !in m.pids;
      }
    }
  }

  lemma ProcessTidy(rs: Decoder, m: Mid, p: Page)
    requires Tidy(m) && GoodPage(p)
    ensures Tidy(Process(rs, m, p).0)
  {
    StoreTidy(m, p);
  }

  /** A page in any other mode than test (0) or operational (1), of any other type than 1, or with the
      reserved identifier 0 is not stored, and neither is one whose identifier is stored already, whatever
      it carries; the number of stored pages is compared with its size all the same. */
  lemma RejectedPage(rs: Decoder, m: Mid, p: Page)
    requires GoodMid(m) && GoodPage(p)
    requires p.status >= 2 || p.messageType != 1 || p.pid == 0 || p.pid in m.pids
    ensures Store(m, p) == m
    ensures Process(rs, m, p) == if |m.pids| == p.size then Decode(rs, m, p.size) else (m, Waiting)
  {
  }

  /** ... whatever pages arrive: of any sizes, repeated, rejected, or from different messages. */
  lemma {:induction false} ProcessAllTidy(rs: Decoder, m: Mid, ps: seq<Page>)
    requires Tidy(m) && AllGood(ps)
    ensures Tidy(ProcessAll(rs, m, ps).0)
  {
    if ps != [] {
      ProcessAllTidy(rs, m, ps[..|ps| - 1]);
      ProcessTidy(rs, ProcessAll(rs, m, ps[..|ps| - 1]).0, ps[|ps| - 1]);
    }
  }

  // ---------------------------------------------------------------- counting erasures

  ghost function Elements(s: seq<int>): set<int> {
    set x | x in s
  }

  ghost function Between(s: set<int>, lo: int, hi: int): set<int> {
    set x | x in s && lo <= x < hi
  }

  lemma {:induction false} MissingCount(pids: seq<int>, lo: nat, hi: nat)
    requires 1 <= lo <= hi
    ensures |Missing(pids, lo, hi)| == hi - lo - |Between(Elements(pids), lo, hi)|
    ensures forall x :: x in Missing(pids, lo, hi) <==> lo <= x + 1 < hi && x + 1 !in pids
  {
    var s := Elements(pids);
    if lo < hi {
      MissingCount(pids, lo, hi - 1);
      var before := Between(s, lo, hi - 1);
      if hi - 1 in pids {
        assert Between(s, lo, hi) == before + {hi - 1};
      } else {
        assert Between(s, lo, hi) == before;
      }
    } else {
      assert Between(s, lo, hi) == {};
    }
  }

  lemma {:induction false} MissingDistinct(pids: seq<int>, lo: nat, hi: nat)
    requires 1 <= lo <= hi
    ensures Distinct(Missing(pids, lo, hi))
  {
    if lo < hi {
      MissingDistinct(pids, lo, hi - 1);
      MissingCount(pids, lo, hi - 1);
      DistinctConcat(Missing(pids, lo, hi - 1), if hi - 1 in pids then [] else [hi - 2]);
    }
  }

  /** The erasures handed to the decoder are positions of the block, each once. */
  lemma ErasuresArePositions(pids: seq<int>, size: nat)
    requires size <= INFORMATION
    ensures Positions(Erasures(pids, size))
  {
    MissingDistinct(pids, 1, size + 1);
    MissingDistinct(pids, 33, 256);
    MissingCount(pids, 1, size + 1);
    MissingCount(pids, 33, 256);
    var low, high := Missing(pids, 1, size + 1), Missing(pids, 33, 256);
    forall x | x in low ensures x !in high {
      assert x + 1 < size + 1;
    }
    DistinctConcat(low, high);
  }

  lemma SplitBetween(s: set<int>, a: int, b: int, c: int)
    requires a <= b <= c
    ensures |Between(s, a, c)| == |Between(s, a, b)| + |Between(s, b, c)|
  {
    assert Between(s, a, c) == Between(s, a, b) + Between(s, b, c);
  }

  /** In a tidy store of as many pages as the message size, the erasures number 223 plus the pages
      received with an identifier between the size and 32: exactly the number of parity symbols if
      and only if there is no such page. */
  lemma ErasureCount(m: Mid, size: nat)
    requires Tidy(m) && |m.pids| == size <= INFORMATION
    ensures |Erasures(m.pids, size)| == PARITY + |Between(Elements(m.pids), size + 1, 33)|
    ensures |Erasures(m.pids, size)| == PARITY <==> forall p :: p in m.pids ==> ValidPid(size, p)
  {
    var s := Elements(m.pids);
    MissingCount(m.pids, 1, size + 1);
    MissingCount(m.pids, 33, 256);
    DistinctSize(m.pids);
    assert Between(s, 1, 256) == s;
    SplitBetween(s, 1, size + 1, 256);
    SplitBetween(s, size + 1, 33, 256);
    var odd := Between(s, size + 1, 33);
    if forall p :: p in m.pids ==> ValidPid(size, p) {
      assert odd == {};
    } else {
      var p :| p in m.pids && !ValidPid(size, p);
      assert p in odd;
    }
  }

  predicate Received(m: Mid, i: int) {
    i + 1 in m.pids
  }

  /** The rows between the message size and 32 are zero in every message of that size. */
  predicate KnownZero(size: nat, i: int) {
    size <= i < INFORMATION
  }

  /** A position is erased exactly when it is neither received nor known to be zero; so received,
      erased and known-zero positions partition the block if and only if no page was received for
      a known-zero row. */
  lemma PositionsPartition(m: Mid, size: nat)
    requires GoodMid(m) && size <= INFORMATION
    ensures forall i :: 0 <= i < BLOCK ==> (i in Erasures(m.pids, size) <==> !Received(m, i) && !KnownZero(size, i))
    ensures (forall p :: p in m.pids ==> ValidPid(size, p)) <==>
            (forall i :: 0 <= i < BLOCK && Received(m, i) ==> !KnownZero(size, i))
  {
    MissingCount(m.pids, 1, size + 1);
    MissingCount(m.pids, 33, 256);
    if p :| p in m.pids && !ValidPid(size, p) {
      assert Received(m, p - 1) && KnownZero(size, p - 1);
    }
  }

  // ---------------------------------------------------------------- one encoded message

  function ColumnOf(e: seq<Row>, c: nat): Block
    requires |e| == BLOCK && c < OCTETS
  {
    seq(BLOCK, i requires 0 <= i < BLOCK => e[i][c])
  }

  /** An encoded message of `size` pages: its columns are codewords, and the information rows
      beyond its size are zero. */
  ghost predicate Encoded(code: iset<Block>, e: seq<Row>, size: nat) {
    && |e| == BLOCK && 1 <= size <= INFORMATION
    && (forall c :: 0 <= c < OCTETS ==> ColumnOf(e, c) in code)
    && (forall r :: size <= r < INFORMATION ==> e[r] == Zeros(OCTETS))
  }

  /** Positions of a block, each at most once. */
  ghost predicate Positions(erasures: seq<int>) {
    Distinct(erasures) && forall i :: i in erasures ==> 0 <= i < BLOCK
  }

  /** The decoder's contract: with at most 223 different erasures, and all other symbols agreeing
      with a codeword, it returns that codeword. */
  ghost predicate CorrectsErasures(rs: Decoder, code: iset<Block>) {
    forall x: Block, erasures: seq<int>, w: Block {:trigger rs(x, erasures), w in code} ::
      w in code && Positions(erasures) && |erasures| <= PARITY && AgreesOutside(x, w, erasures) ==> rs(x, erasures) == Some(w)
  }

  /** The guard at the head of the decoder: more than 223 erasures are refused. */
  ghost predicate RefusesExcess(rs: Decoder) {
    forall x: Block, erasures: seq<int> :: |erasures| > PARITY ==> rs(x, erasures).None?
  }

  ghost predicate AgreesOutside(x: Block, w: Block, erasures: seq<int>) {
    forall i :: 0 <= i < BLOCK && i !in erasures ==> x[i] == w[i]
  }

  /** The bits of the first `size` rows, that is, of the information pages in order. */
  function MessageText(e: seq<Row>, size: nat): string
    requires size <= |e|
  {
    RowsText(e[..size])
  }

  predicate ValidPid(size: nat, pid: int) {
    1 <= pid <= size || 33 <= pid <= BLOCK
  }

  /** Page `p` is a page of message `e`, whatever its identifier. */
  ghost predicate FromMessage(e: seq<Row>, size: nat, p: Page)
    requires |e| == BLOCK
  {
    && GoodPage(p) && (p.status == 0 || p.status == 1) && p.messageType == 1 && 1 <= p.pid
    && p.size == size && p.content == RowBits(e[p.pid - 1])
  }

  /** ... with a valid identifier. */
  ghost predicate Carries(e: seq<Row>, size: nat, p: Page)
    requires |e| == BLOCK
  {
    FromMessage(e, size, p) && ValidPid(size, p.pid)
  }

  /** The store holds rows of `e` at distinct identifiers, valid or not, and zero rows elsewhere. */
  ghost predicate HoldsMessage(m: Mid, e: seq<Row>) {
    GoodMid(m) && |e| == BLOCK && Distinct(m.pids) && HoldsRows(m.rows, m.pids, e)
  }

  ghost predicate HoldsRows(rows: seq<Row>, pids: seq<int>, e: seq<Row>)
    requires |rows| == BLOCK && |e| == BLOCK
  {
    forall i :: 0 <= i < BLOCK ==> rows[i] == if i + 1 in pids then e[i] else Zeros(OCTETS)
  }

  /** ... and all its identifiers are valid. */
  ghost predicate Collected(m: Mid, e: seq<Row>, size: nat) {
    HoldsMessage(m, e) && forall p :: p in m.pids ==> ValidPid(size, p)
  }

  lemma RowAdded(rows: seq<Row>, pids: seq<int>, e: seq<Row>, pid: int)
    requires |rows| == BLOCK && |e| == BLOCK && HoldsRows(rows, pids, e) && 1 <= pid <= BLOCK
    ensures HoldsRows(rows[pid - 1 := e[pid - 1]], pids + [pid], e)
  {
  }

  lemma {:induction false} StoreHoldsMessage(m: Mid, e: seq<Row>, size: nat, p: Page)
    requires HoldsMessage(m, e) && FromMessage(e, size, p)
    ensures HoldsMessage(Store(m, p), e)
  {
    OctetsOfRowBits(e[p.pid - 1]);
    if p.pid !in m.pids {
      StoredPids(m.pids, p.pid);
      RowAdded(m.rows, m.pids, e, p.pid);
      assert Store(m, p).rows == m.rows[p.pid - 1 := e[p.pid - 1]];
    }
  }

  lemma StoreCollects(m: Mid, e: seq<Row>, size: nat, p: Page)
    requires Collected(m, e, size) && Carries(e, size, p)
    ensures Collected(Store(m, p), e, size)
    ensures Elements(Store(m, p).pids) == Elements(m.pids) + {p.pid}
  {
    StoreHoldsMessage(m, e, size, p);
    if p.pid !in m.pids {
      StoredPids(m.pids, p.pid);
    } else {
      assert Elements(m.pids) == Elements(m.pids) + {p.pid};
    }
  }

  lemma StoredPids(pids: seq<int>, pid: int)
    requires Distinct(pids) && pid !in pids
    ensures Distinct(pids + [pid]) && Elements(pids + [pid]) == Elements(pids) + {pid}
  {
  }

  /** A full store presents each column to the decoder with exactly 223 erasures and the codeword's
      symbols everywhere else. */
  lemma ColumnAgrees(m: Mid, code: iset<Block>, e: seq<Row>, size: nat, c: nat)
    requires Collected(m, e, size) && Encoded(code, e, size) && c < OCTETS
    ensures AgreesOutside(Column(m, c), ColumnOf(e, c), Erasures(m.pids, size))
  {
    var x, w, erasures := Column(m, c), ColumnOf(e, c), Erasures(m.pids, size);
    PositionsPartition(m, size);
    forall i | 0 <= i < BLOCK && i !in erasures ensures x[i] == w[i] {
      assert Received(m, i) || KnownZero(size, i);
    }
  }

  lemma ColumnDecodes(rs: Decoder, code: iset<Block>, m: Mid, e: seq<Row>, size: nat, c: nat)
    requires CorrectsErasures(rs, code) && Encoded(code, e, size) && Collected(m, e, size)
    requires |m.pids| == size && c < OCTETS
    ensures rs(Column(m, c), Erasures(m.pids, size)) == Some(ColumnOf(e, c))
  {
    ErasureCount(m, size);
    ErasuresArePositions(m.pids, size);
    ColumnAgrees(m, code, e, size, c);
    assert ColumnOf(e, c) in code;
  }

  lemma {:induction false} DecodesColumns(rs: Decoder, code: iset<Block>, m: Mid, e: seq<Row>, size: nat, k: nat)
    requires CorrectsErasures(rs, code) && Encoded(code, e, size) && Collected(m, e, size)
    requires |m.pids| == size && k <= OCTETS
    ensures var r := DecodeColumns(rs, m, Erasures(m.pids, size), k);
            r.Some? && forall c :: 0 <= c < k ==> r.value[c] == ColumnOf(e, c)
  {
    if k > 0 {
      DecodesColumns(rs, code, m, e, size, k - 1);
      ColumnDecodes(rs, code, m, e, size, k - 1);
    }
  }

  lemma {:induction false} RowsTextSlice(rows: seq<Row>, r: nat)
    requires r < |rows|
    ensures |RowsText(rows)| == 8 * OCTETS * |rows|
    ensures RowsText(rows)[8 * OCTETS * r..8 * OCTETS * (r + 1)] == RowBits(rows[r])
  {
    var n := |rows| - 1;
    var s, last := RowsText(rows[..n]), RowBits(rows[n]);
    if n > 0 {
      RowsTextSlice(rows[..n], if r < n then r else 0);
    }
    assert RowsText(rows) == s + last && |s| == 8 * OCTETS * n;
    if r == n {
      SliceBehind(s, last);
    } else {
      SliceBefore(s, last, 8 * OCTETS * r, 8 * OCTETS * (r + 1));
      assert rows[..n][r] == rows[r];
    }
  }

  lemma SliceBehind(s: string, t: string)
    ensures (s + t)[|s|..|s| + |t|] == t
  {
  }

  lemma SliceBefore(s: string, t: string, a: nat, b: nat)
    requires a <= b <= |s|
    ensures (s + t)[a..b] == s[a..b]
  {
  }

  lemma SliceOfSlice(t: string, a: nat, b: nat, i: nat, n: nat)
    requires a + i + n <= b <= |t|
    ensures t[a..b][i..i + n] == t[a + i..a + i + n]
  {
    var x, y := t[a..b][i..i + n], t[a + i..a + i + n];
    assert forall k :: 0 <= k < n ==> x[k] == y[k];
  }

  lemma OctetOfRow(t: string, row: Row, a: nat, c: nat)
    requires c < OCTETS && a + 8 * OCTETS <= |t| && t[a..a + 8 * OCTETS] == RowBits(row)
    ensures t[a + 8 * c..a + 8 * c + 8] == BitsOf(row[c], 8)
  {
    RowBitsSlice(row, c);
    SliceOfSlice(t, a, a + 8 * OCTETS, 8 * c, 8);
  }

  /** The text of a message, octet by octet: row after row, and the octets of each row in order. */
  lemma {:induction false} MessageOctets(e: seq<Row>, size: nat, r: nat, c: nat)
    requires r < size <= |e| && c < OCTETS
    ensures |MessageText(e, size)| == 8 * OCTETS * size
    ensures var at := 8 * OCTETS * r + 8 * c; MessageText(e, size)[at..at + 8] == BitsOf(e[r][c], 8)
  {
    RowsTextSlice(e[..size], r);
    OctetOfRow(MessageText(e, size), e[r], 8 * OCTETS * r, c);
  }

  /** A full store decodes to the message and is emptied. */
  lemma FullStoreDecodes(rs: Decoder, code: iset<Block>, m: Mid, e: seq<Row>, size: nat)
    requires CorrectsErasures(rs, code) && Encoded(code, e, size) && Collected(m, e, size) && |m.pids| == size
    ensures Decode(rs, m, size) == (EmptyMid(), Decoded(MessageText(e, size)))
  {
    DecodesColumns(rs, code, m, e, size, OCTETS);
    var columns := DecodeColumns(rs, m, Erasures(m.pids, size), OCTETS).value;
    forall r | 0 <= r < size ensures MatrixRow(columns, r) == e[r] {
      forall c | 0 <= c < OCTETS ensures MatrixRow(columns, r)[c] == e[r][c] {
        assert columns[c] == ColumnOf(e, c);
      }
    }
    assert MatrixRows(columns, size) == e[..size];
  }

  // ---------------------------------------------------------------- any order, any repeats

  /** The distinct page identifiers received since the last decoding. */
  ghost function Since(ps: seq<Page>, size: nat): set<int> {
    if ps == [] then {}
    else
      var d := Since(ps[..|ps| - 1], size) + {ps[|ps| - 1].pid};
      if |d| == size then {} else d
  }

  lemma EmptyCollected(e: seq<Row>, size: nat)
    requires |e| == BLOCK
    ensures Collected(EmptyMid(), e, size) && Elements(EmptyMid().pids) == {}
  {
  }

  /** One page of the message: it completes the store exactly when it brings the number of
      distinct pages to the message size. */
  lemma ProcessStep(rs: Decoder, code: iset<Block>, m: Mid, e: seq<Row>, size: nat, p: Page)
    requires CorrectsErasures(rs, code) && Encoded(code, e, size)
    requires Collected(m, e, size) && |m.pids| < size && Carries(e, size, p)
    ensures var d := Elements(m.pids) + {p.pid};
            var (after, outcome) := Process(rs, m, p);
            && Collected(after, e, size) && |after.pids| < size
            && Elements(after.pids) == (if |d| == size then {} else d)
            && outcome == (if |d| == size then Decoded(MessageText(e, size)) else Waiting)
            && (|d| == size ==> after == EmptyMid())
  {
    StoreCollects(m, e, size, p);
    var stored := Store(m, p);
    DistinctSize(stored.pids);
    DistinctSize(m.pids);
    EmptyCollected(e, size);
    if |stored.pids| == size {
      FullStoreDecodes(rs, code, stored, e, size);
    }
  }

  /** What each page should yield, by counting distinct identifiers alone: the message on every
      page that completes a set of `size` distinct pages, nothing on any other. */
  ghost function Expected(e: seq<Row>, size: nat, ps: seq<Page>): seq<Outcome>
    requires size <= |e|
  {
    if ps == [] then []
    else
      var n := |ps| - 1;
      Expected(e, size, ps[..n]) +
      [if |Since(ps[..n], size) + {ps[n].pid}| == size then Decoded(MessageText(e, size)) else Waiting]
  }

  /** HAS decoding is independent of arrival order.  If every page of a message identifier comes
      from one encoded message, then for every order and any repeats the collector decodes
      exactly on the pages that bring the distinct pages since the last decoding to the message
      size; each time it outputs the bits of the message's rows in order, and in between it holds
      exactly the pages received since then. */
  lemma {:induction false} ArrivalOrderIrrelevant(rs: Decoder, code: iset<Block>, e: seq<Row>, size: nat, ps: seq<Page>)
    requires CorrectsErasures(rs, code) && Encoded(code, e, size) && AllGood(ps)
    requires forall i :: 0 <= i < |ps| ==> Carries(e, size, ps[i])
    ensures var (m, outcomes) := ProcessAll(rs, EmptyMid(), ps);
            && Collected(m, e, size) && |m.pids| < size && Elements(m.pids) == Since(ps, size)
            && outcomes == Expected(e, size, ps)
  {
    if ps == [] {
      EmptyCollected(e, size);
    } else {
      var n := |ps| - 1;
      ArrivalOrderIrrelevant(rs, code, e, size, ps[..n]);
      ProcessStep(rs, code, ProcessAll(rs, EmptyMid(), ps[..n]).0, e, size, ps[n]);
    }
  }

  /** In particular the page that first completes the set is decoded, and the store is empty. */
  lemma CompletingPageDecodes(rs: Decoder, code: iset<Block>, e: seq<Row>, size: nat, ps: seq<Page>, p: Page)
    requires CorrectsErasures(rs, code) && Encoded(code, e, size) && AllGood(ps) && Carries(e, size, p)
    requires forall i :: 0 <= i < |ps| ==> Carries(e, size, ps[i])
    requires |Since(ps, size) + {p.pid}| == size
    ensures Process(rs, ProcessAll(rs, EmptyMid(), ps).0, p) == (EmptyMid(), Decoded(MessageText(e, size)))
  {
    ArrivalOrderIrrelevant(rs, code, e, size, ps);
    ProcessStep(rs, code, ProcessAll(rs, EmptyMid(), ps).0, e, size, p);
  }

  // ---------------------------------------------------------------- several messages at once

  ghost predicate AllStores(stores: seq<Mid>) {
    |stores| == 32 && forall k :: 0 <= k < 32 ==> GoodMid(stores[k])
  }

  /** A receiver that holds no page. */
  function EmptyStores(): (r: seq<Mid>)
    ensures AllStores(r) && forall k :: 0 <= k < 32 ==> r[k] == EmptyMid()
  {
    seq(32, _ => EmptyMid())
  }

  /** The whole receiver: each page is processed by the store of its message identifier. */
  function Receive(rs: Decoder, stores: seq<Mid>, ps: seq<Page>): (r: (seq<Mid>, seq<Outcome>))
    requires AllStores(stores) && AllGood(ps)
    ensures AllStores(r.0) && |r.1| == |ps|
  {
    if ps == [] then (stores, [])
    else
      var n := |ps| - 1;
      var (before, outcomes) := Receive(rs, stores, ps[..n]);
      var (after, outcome) := Process(rs, before[ps[n].mid], ps[n]);
      (before[ps[n].mid := after], outcomes + [outcome])
  }

  function PagesOf(ps: seq<Page>, k: nat): seq<Page> {
    if ps == [] then []
    else if ps[|ps| - 1].mid == k then PagesOf(ps[..|ps| - 1], k) + [ps[|ps| - 1]]
    else PagesOf(ps[..|ps| - 1], k)
  }

  function OutcomesOf(ps: seq<Page>, outcomes: seq<Outcome>, k: nat): seq<Outcome>
    requires |outcomes| == |ps|
  {
    if ps == [] then []
    else
      var n := |ps| - 1;
      if ps[n].mid == k then OutcomesOf(ps[..n], outcomes[..n], k) + [outcomes[n]]
      else OutcomesOf(ps[..n], outcomes[..n], k)
  }

  lemma {:induction false} PagesOfAreGood(ps: seq<Page>, k: nat)
    requires AllGood(ps)
    ensures AllGood(PagesOf(ps, k)) && forall p :: p in PagesOf(ps, k) ==> p in ps && p.mid == k
  {
    if ps != [] {
      PagesOfAreGood(ps[..|ps| - 1], k);
    }
  }

  /** Message identifiers do not disturb each other: in every interleaving, each store and its
      outcomes are those of its own pages alone. */
  lemma {:induction false} Interleaving(rs: Decoder, stores: seq<Mid>, ps: seq<Page>, k: nat)
    requires AllStores(stores) && AllGood(ps) && k < 32 && AllGood(PagesOf(ps, k))
    ensures var (after, outcomes) := Receive(rs, stores, ps);
            (after[k], OutcomesOf(ps, outcomes, k)) == ProcessAll(rs, stores[k], PagesOf(ps, k))
  {
    if ps != [] {
      var n := |ps| - 1;
      PagesOfAreGood(ps[..n], k);
      Interleaving(rs, stores, ps[..n], k);
      var (before, earlier) := Receive(rs, stores, ps[..n]);
      LastOutcome(ps, earlier, Process(rs, before[ps[n].mid], ps[n]).1, k);
      if ps[n].mid == k {
        ProcessOneMore(rs, stores[k], PagesOf(ps[..n], k), ps[n]);
      }
    }
  }

  lemma {:induction false} LastOutcome(ps: seq<Page>, earlier: seq<Outcome>, last: Outcome, k: nat)
    requires ps != [] && |earlier| == |ps| - 1
    ensures OutcomesOf(ps, earlier + [last], k) ==
            if ps[|ps| - 1].mid == k then OutcomesOf(ps[..|ps| - 1], earlier, k) + [last]
            else OutcomesOf(ps[..|ps| - 1], earlier, k)
  {
    assert (earlier + [last])[..|ps| - 1] == earlier;
  }

  lemma {:induction false} ProcessOneMore(rs: Decoder, m: Mid, ps: seq<Page>, p: Page)
    requires GoodMid(m) && AllGood(ps) && GoodPage(p)
    ensures var (before, outcomes) := ProcessAll(rs, m, ps);
            var (after, outcome) := Process(rs, before, p);
            AllGood(ps + [p]) && ProcessAll(rs, m, ps + [p]) == (after, outcomes + [outcome])
  {
    assert (ps + [p])[..|ps|] == ps;
  }

  /** Whatever the other message identifiers receive in between, and whether or not their pages
      make sense, the pages of one encoded message are decoded as `Expected` says. */
  lemma InterleavedMessageDecodes(rs: Decoder, code: iset<Block>, e: seq<Row>, size: nat, ps: seq<Page>, k: nat)
    requires CorrectsErasures(rs, code) && Encoded(code, e, size) && AllGood(ps) && k < 32
    requires forall p :: p in ps && p.mid == k ==> Carries(e, size, p)
    ensures var (after, outcomes) := Receive(rs, EmptyStores(), ps);
            && Collected(after[k], e, size) && Elements(after[k].pids) == Since(PagesOf(ps, k), size)
            && OutcomesOf(ps, outcomes, k) == Expected(e, size, PagesOf(ps, k))
  {
    PagesOfAreGood(ps, k);
    Interleaving(rs, EmptyStores(), ps, k);
    ArrivalOrderIrrelevant(rs, code, e, size, PagesOf(ps, k));
  }

  /** Every store of every run is tidy. */
  lemma {:induction false} ReceiveTidy(rs: Decoder, ps: seq<Page>)
    requires AllGood(ps)
    ensures forall k :: 0 <= k < 32 ==> Tidy(Receive(rs, EmptyStores(), ps).0[k])
  {
    if ps != [] {
      var n := |ps| - 1;
      ReceiveTidy(rs, ps[..n]);
      ProcessTidy(rs, Receive(rs, EmptyStores(), ps[..n]).0[ps[n].mid], ps[n]);
    }
  }

  /** Whenever a page triggers decoding, after any pages of any sizes, messages and identifiers: the
      stored identifiers are distinct, rows not received are zero, and the erasures number exactly
      223 if and only if every stored identifier is valid for the page's size. */
  lemma ErasuresAtTrigger(rs: Decoder, ps: seq<Page>, p: Page)
    requires AllGood(ps) && GoodPage(p)
    requires |Store(Receive(rs, EmptyStores(), ps).0[p.mid], p).pids| == p.size
    ensures var m := Store(Receive(rs, EmptyStores(), ps).0[p.mid], p);
            && Tidy(m)
            && |Erasures(m.pids, p.size)| == PARITY + |Between(Elements(m.pids), p.size + 1, 33)|
            && (|Erasures(m.pids, p.size)| == PARITY <==> forall pid :: pid in m.pids ==> ValidPid(p.size, pid))
  {
    ReceiveTidy(rs, ps);
    ErasuresOfTidy(Receive(rs, EmptyStores(), ps).0[p.mid], p);
  }

  lemma {:induction false} ErasuresOfTidy(m: Mid, p: Page)
    requires Tidy(m) && GoodPage(p) && |Store(m, p).pids| == p.size
    ensures var r := Store(m, p);
            && Tidy(r) && |Erasures(r.pids, p.size)| == PARITY + |Between(Elements(r.pids), p.size + 1, 33)|
            && (|Erasures(r.pids, p.size)| == PARITY <==> forall pid :: pid in r.pids ==> ValidPid(p.size, pid))
  {
    StoreTidy(m, p);
    ErasureCount(Store(m, p), p.size);
  }

  // ---------------------------------------------------------------- stores that no longer decode

  /** No page of size `size` can be decoded from this store: it holds more pages, or as many and they
      do not decode. */
  ghost predicate Dead(rs: Decoder, m: Mid, size: nat)
    requires GoodMid(m) && size <= INFORMATION
  {
    |m.pids| > size || (|m.pids| == size && Decode(rs, m, size).1.DecodeFailed?)
  }

  ghost predicate OfSize(ps: seq<Page>, size: nat) {
    AllGood(ps) && forall i :: 0 <= i < |ps| ==> ps[i].size == size
  }

  /** A page that is not decoded leaves a dead store dead, and one that is decoded has another size. */
  lemma DeadStep(rs: Decoder, m: Mid, p: Page, size: nat)
    requires GoodMid(m) && GoodPage(p) && size <= INFORMATION && Dead(rs, m, size)
    ensures var (after, outcome) := Process(rs, m, p);
            if outcome.Decoded? then p.size != size else Dead(rs, after, size)
  {
  }

  ghost predicate NoneDecoded(outcomes: seq<Outcome>) {
    forall i :: 0 <= i < |outcomes| ==> !outcomes[i].Decoded?
  }

  /** The first page that is decoded, if any, has another size. */
  ghost predicate FirstDecodedDiffers(ps: seq<Page>, outcomes: seq<Outcome>, size: nat)
    requires |ps| == |outcomes|
  {
    forall i :: 0 <= i < |ps| && NoneDecoded(outcomes[..i]) && outcomes[i].Decoded? ==> ps[i].size != size
  }

  lemma {:induction false} FirstDecodedStep(ps: seq<Page>, earlier: seq<Outcome>, p: Page, last: Outcome, size: nat)
    requires |ps| == |earlier| && FirstDecodedDiffers(ps, earlier, size)
    requires NoneDecoded(earlier) && last.Decoded? ==> p.size != size
    ensures FirstDecodedDiffers(ps + [p], earlier + [last], size)
    ensures NoneDecoded(earlier + [last]) <==> NoneDecoded(earlier) && !last.Decoded?
  {
    var all := earlier + [last];
    assert all[|earlier|] == last;
    forall i | 0 <= i <= |ps| ensures all[..i] == earlier[..i] {
    }
    assert earlier[..|earlier|] == earlier;
  }

  /** A dead store stays dead, whatever pages of whatever sizes arrive, until a page is decoded; and
      the first page that is decoded has another size. */
  lemma {:induction false} DeadUntilDecoded(rs: Decoder, m: Mid, ps: seq<Page>, size: nat)
    requires GoodMid(m) && AllGood(ps) && size <= INFORMATION && Dead(rs, m, size)
    ensures var (after, outcomes) := ProcessAll(rs, m, ps);
            && (NoneDecoded(outcomes) ==> Dead(rs, after, size))
            && FirstDecodedDiffers(ps, outcomes, size)
  {
    if ps != [] {
      var n := |ps| - 1;
      DeadUntilDecoded(rs, m, ps[..n], size);
      var (before, earlier) := ProcessAll(rs, m, ps[..n]);
      if NoneDecoded(earlier) {
        DeadStep(rs, before, ps[n], size);
      }
      FirstDecodedStep(ps[..n], earlier, ps[n], Process(rs, before, ps[n]).1, size);
      assert ps == ps[..n] + [ps[n]];
    }
  }

  /** A failed decoding keeps its pages, and that ends the size: whatever pages follow, none of the
      same size is decoded before a page of another size has been. */
  lemma FailedSizeIsDead(rs: Decoder, m: Mid, p: Page, ps: seq<Page>)
    requires GoodMid(m) && GoodPage(p) && AllGood(ps) && Process(rs, m, p).1.DecodeFailed?
    ensures var (after, outcomes) := ProcessAll(rs, Process(rs, m, p).0, ps);
            && (NoneDecoded(outcomes) ==> Dead(rs, after, p.size))
            && FirstDecodedDiffers(ps, outcomes, p.size)
  {
    DeadUntilDecoded(rs, Process(rs, m, p).0, ps, p.size);
  }

  // ---------------------------------------------------------------- when decoding fails

  lemma {:induction false} RunHoldsMessage(rs: Decoder, e: seq<Row>, size: nat, ps: seq<Page>)
    requires |e| == BLOCK && AllGood(ps) && forall i :: 0 <= i < |ps| ==> FromMessage(e, size, ps[i])
    ensures HoldsMessage(ProcessAll(rs, EmptyMid(), ps).0, e)
  {
    if ps != [] {
      var n := |ps| - 1;
      RunHoldsMessage(rs, e, size, ps[..n]);
      StoreHoldsMessage(ProcessAll(rs, EmptyMid(), ps[..n]).0, e, size, ps[n]);
    }
  }

  /** More than 223 erasures: already the first column is refused. */
  lemma {:induction false} ExcessFails(rs: Decoder, m: Mid, erasures: seq<int>, k: nat)
    requires RefusesExcess(rs) && GoodMid(m) && |erasures| > PARITY && 0 < k <= OCTETS
    ensures DecodeColumns(rs, m, erasures, k).None?
  {
    if k > 1 {
      ExcessFails(rs, m, erasures, k - 1);
    }
  }

  /** A store with as many pages as the size and an identifier between the size and 32 never decodes,
      whatever its rows hold. */
  lemma InvalidPidFails(rs: Decoder, m: Mid, size: nat)
    requires RefusesExcess(rs) && Tidy(m) && |m.pids| == size <= INFORMATION
    requires exists p :: p in m.pids && !ValidPid(size, p)
    ensures Decode(rs, m, size) == (m, DecodeFailed)
  {
    ErasureCount(m, size);
    ExcessFails(rs, m, Erasures(m.pids, size), OCTETS);
  }

  /** Exactly when the trigger decodes.  Whatever pages of one encoded message have arrived, with any
      identifiers, in any order and with any repeats: the page that triggers the decoder yields the
      message if and only if every stored identifier is valid, and otherwise a failure. */
  lemma TriggerDecodesExactly(rs: Decoder, code: iset<Block>, e: seq<Row>, size: nat, ps: seq<Page>, p: Page)
    requires CorrectsErasures(rs, code) && RefusesExcess(rs) && Encoded(code, e, size)
    requires AllGood(ps) && FromMessage(e, size, p) && forall i :: 0 <= i < |ps| ==> FromMessage(e, size, ps[i])
    requires |Store(ProcessAll(rs, EmptyMid(), ps).0, p).pids| == size
    ensures var m := Store(ProcessAll(rs, EmptyMid(), ps).0, p);
            Process(rs, ProcessAll(rs, EmptyMid(), ps).0, p) ==
            if forall pid :: pid in m.pids ==> ValidPid(size, pid) then (EmptyMid(), Decoded(MessageText(e, size)))
            else (m, DecodeFailed)
  {
    var before := ProcessAll(rs, EmptyMid(), ps).0;
    RunHoldsMessage(rs, e, size, ps);
    StoreHoldsMessage(before, e, size, p);
    var m := Store(before, p);
    if forall pid :: pid in m.pids ==> ValidPid(size, pid) {
      assert Collected(m, e, size);
      FullStoreDecodes(rs, code, m, e, size);
    } else {
      InvalidPidFails(rs, m, size);
    }
  }

  /** The page of message `e` with identifier `pid`. */
  function PageOf(e: seq<Row>, size: nat, pid: nat): Page
    requires |e| == BLOCK && 1 <= pid <= BLOCK
  {
    Page(0, 1, 0, size, pid, RowBits(e[pid - 1]))
  }

  lemma PageOfIsFromMessage(e: seq<Row>, size: nat, pid: nat)
    requires |e| == BLOCK && 1 <= pid <= BLOCK && 1 <= size <= INFORMATION
    ensures FromMessage(e, size, PageOf(e, size, pid))
  {
  }

  lemma TwoPages(rs: Decoder, m: Mid, p: Page, q: Page)
    requires GoodMid(m) && GoodPage(p) && GoodPage(q)
    ensures ProcessAll(rs, m, [p, q]).1 == [Process(rs, m, p).1, Process(rs, Process(rs, m, p).0, q).1]
  {
    OnePage(rs, m, p);
    ProcessOneMore(rs, m, [p], q);
    assert [p] + [q] == [p, q];
  }

  lemma SecondPageFails(rs: Decoder, m: Mid, q: Page)
    requires RefusesExcess(rs) && Tidy(m) && m.pids == [1] && GoodPage(q) && Accepts(q) && q.size == 2 && q.pid == 3
    ensures Process(rs, m, q).1 == DecodeFailed
  {
    StoreTidy(m, q);
    assert Store(m, q).pids == [1, 3] && 3 in Store(m, q).pids && !ValidPid(2, 3);
    InvalidPidFails(rs, Store(m, q), 2);
  }

  /** Such a failure is reachable: the pages 1 and 3 of any message of size 2. */
  lemma FailureIsReachable(rs: Decoder, e: seq<Row>)
    requires RefusesExcess(rs) && |e| == BLOCK
    ensures var one, three := PageOf(e, 2, 1), PageOf(e, 2, 3);
            && FromMessage(e, 2, one) && FromMessage(e, 2, three)
            && ProcessAll(rs, EmptyMid(), [one, three]).1 == [Waiting, DecodeFailed]
  {
    var one, three := PageOf(e, 2, 1), PageOf(e, 2, 3);
    PageOfIsFromMessage(e, 2, 1);
    PageOfIsFromMessage(e, 2, 3);
    StoreTidy(EmptyMid(), one);
    SecondPageFails(rs, Store(EmptyMid(), one), three);
    TwoPages(rs, EmptyMid(), one, three);
  }

  lemma {:induction false} OvershootWaits(rs: Decoder, m: Mid, ps: seq<Page>, size: nat)
    requires GoodMid(m) && OfSize(ps, size) && |m.pids| > size
    ensures var (after, outcomes) := ProcessAll(rs, m, ps);
            |after.pids| > size && forall i :: 0 <= i < |ps| ==> outcomes[i] == Waiting
  {
    if ps != [] {
      OvershootWaits(rs, m, ps[..|ps| - 1], size);
    }
  }

  /** A page of the given size and identifier, all zero. */
  function BlankPage(size: nat, pid: nat): (p: Page)
    requires 1 <= size <= INFORMATION && 1 <= pid <= BLOCK
    ensures GoodPage(p) && Accepts(p) && p.size == size && p.pid == pid
  {
    Page(0, 1, 0, size, pid, seq(8 * OCTETS, _ => '0'))
  }

  lemma {:induction false} DistinctWithin(a: seq<int>, e: seq<int>)
    requires Distinct(a) && forall x :: x in a ==> x in e
    ensures |a| <= |e|
  {
    if a != [] {
      var x := a[0];
      assert x in a && x in e;
      var k :| 0 <= k < |e| && e[k] == x;
      var rest := e[..k] + e[k + 1..];
      forall y | y in a[1..] ensures y in rest {
        assert y in a;
        var j :| 0 <= j < |e| && e[j] == y;
        assert if j < k then rest[j] == y else rest[j - 1] == y;
      }
      DistinctWithin(a[1..], rest);
    }
  }

  lemma FreshPid(pids: seq<int>) returns (pid: nat)
    requires |pids| < 33
    ensures 1 <= pid <= 33 && pid !in pids
  {
    var all: seq<int> := seq(33, i => i + 1);
    if forall x :: x in all ==> x in pids {
      DistinctWithin(all, pids);
      assert false;
    }
    var x :| x in all && x !in pids;
    pid := x;
  }

  /** Any store with at most `size` pages can be brought to a decoding attempt by new pages. */
  lemma {:induction false} ReachesAttempt(rs: Decoder, m: Mid, size: nat) returns (ps: seq<Page>)
    requires GoodMid(m) && 1 <= size <= INFORMATION && |m.pids| <= size
    ensures OfSize(ps, size) && ps != [] && ProcessAll(rs, m, ps).1[|ps| - 1] != Waiting
    decreases size - |m.pids|
  {
    if |m.pids| == size {
      ps := [BlankPage(size, m.pids[0])];
      OnePage(rs, m, ps[0]);
    } else {
      var pid := FreshPid(m.pids);
      var p := BlankPage(size, pid);
      if |m.pids| + 1 == size {
        ps := [p];
        OnePage(rs, m, p);
      } else {
        var more := ReachesAttempt(rs, Store(m, p), size);
        ps := [p] + more;
        ProcessFirst(rs, m, p, more);
      }
    }
  }

  lemma {:induction false} OnePage(rs: Decoder, m: Mid, p: Page)
    requires GoodMid(m) && GoodPage(p)
    ensures ProcessAll(rs, m, [p]) == (Process(rs, m, p).0, [Process(rs, m, p).1])
    ensures |Store(m, p).pids| == p.size ==> Process(rs, m, p).1 != Waiting
  {
    assert [p][..0] == [];
    assert ProcessAll(rs, m, [p][..0]) == (m, []);
    assert [] + [Process(rs, m, p).1] == [Process(rs, m, p).1];
  }

  lemma {:induction false} ProcessFirst(rs: Decoder, m: Mid, p: Page, ps: seq<Page>)
    requires GoodMid(m) && GoodPage(p) && AllGood(ps)
    ensures AllGood([p] + ps)
    ensures ProcessAll(rs, m, [p] + ps).0 == ProcessAll(rs, Process(rs, m, p).0, ps).0
    ensures ProcessAll(rs, m, [p] + ps).1 == [Process(rs, m, p).1] + ProcessAll(rs, Process(rs, m, p).0, ps).1
  {
    var after, outcome := Process(rs, m, p).0, Process(rs, m, p).1;
    if ps == [] {
      OnePage(rs, m, p);
      assert [p] + ps == [p] && [outcome] + [] == [outcome];
    } else {
      var n := |ps| - 1;
      ProcessFirst(rs, m, p, ps[..n]);
      FirstAndLast(p, ps);
      var (before, outcomes) := ProcessAll(rs, after, ps[..n]);
      FirstAndLast(outcome, outcomes + [Process(rs, before, ps[n]).1]);
      ProcessOneMore(rs, m, [p] + ps[..n], ps[n]);
    }
  }

  lemma FirstAndLast<T>(x: T, xs: seq<T>)
    requires xs != []
    ensures [x] + xs == ([x] + xs[..|xs| - 1]) + [xs[|xs| - 1]]
  {
  }

  /** Pages of one size never again trigger the decoder if and only if the store holds more pages. */
  lemma OvershotExactly(rs: Decoder, m: Mid, size: nat)
    requires GoodMid(m) && 1 <= size <= INFORMATION
    ensures |m.pids| > size <==>
            forall ps, i :: OfSize(ps, size) && 0 <= i < |ps| ==> ProcessAll(rs, m, ps).1[i] == Waiting
  {
    if |m.pids| > size {
      forall ps, i | OfSize(ps, size) && 0 <= i < |ps| ensures ProcessAll(rs, m, ps).1[i] == Waiting {
        OvershootWaits(rs, m, ps, size);
      }
    } else {
      var ps := ReachesAttempt(rs, m, size);
    }
  }
}
