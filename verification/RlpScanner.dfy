/** Finding the byte ranges of the items of an RLP list without decoding them, and the
recursive length prefix encoding itself (Appendix B of the Ethereum Yellow Paper). */
module RlpScanner {
  type Byte = b: int | 0 <= b < 256
  type Bytes = seq<Byte>
  type Range = (nat, nat)

  /** A result, an error that is returned, or a panic: an index out of bounds, or a `usize`
      sum that overflows. */
  datatype Outcome<+T> = Ok(value: T) | Err | OutOfBounds | Overflow {
    predicate IsFailure() {
      !Ok?
    }

    function PropagateFailure<U>(): Outcome<U>
      requires IsFailure()
    {
      if Err? then Err else if OutOfBounds? then OutOfBounds else Overflow
    }

    function Extract(): T
      requires !IsFailure()
    {
      value
    }
  }

  const USIZE_LIMIT: nat := 0x1_0000_0000_0000_0000

  // ---- the encoding

  datatype Item = Data(bytes: Bytes) | List(items: seq<Item>)

  /** Big-endian, without leading zeros. */
  function BigEndian(n: nat): (b: Bytes)
    ensures b != [] && (n > 0 ==> b[0] != 0)
  {
    if n < 256 then [n] else BigEndian(n / 256) + [n % 256]
  }

  /** The length prefix of contents that are not a single small byte.  Contents of 2^64 bytes
      or more have no encoding. */
  function Prefix(offset: nat, length: nat): (p: Bytes)
    requires offset == 0x80 || offset == 0xc0
  {
    var long := BigEndian(length);
    if length <= 55 then [offset + length]
    else if |long| <= 8 then [offset + 55 + |long|] + long
    else []
  }

  function Encode(item: Item): (e: Bytes) {
    match item
    case Data(bytes) => if |bytes| == 1 && bytes[0] < 0x80 then bytes else Prefix(0x80, |bytes|) + bytes
    case List(items) => Prefix(0xc0, |EncodeAll(items)|) + EncodeAll(items)
  }

  function EncodeAll(items: seq<Item>): (e: Bytes) {
    if items == [] then [] else Encode(items[0]) + EncodeAll(items[1..])
  }

  /** The contents of an item, without its prefix. */
  function Contents(item: Item): (e: Bytes) {
    match item
    case Data(bytes) => bytes
    case List(items) => EncodeAll(items)
  }

  // ---- numbers

  function Pow256(k: nat): nat {
    if k == 0 then 1 else 256 * Pow256(k - 1)
  }

  lemma {:induction false} BigEndianLength(n: nat, k: nat)
    requires k > 0 && n < Pow256(k)
    ensures |BigEndian(n)| <= k
  {
    if n < 256 {
    } else {
      BigEndianLength(n / 256, k - 1);
    }
  }

  lemma UsizeTakesEightBytes(n: nat)
    requires n < USIZE_LIMIT
    ensures |BigEndian(n)| <= 8
  {
    BigEndianLength(n, 8);
  }

  /** The number that the bytes from `from` up to `to` stand for, most significant first. */
  function Value(data: Bytes, from: nat, stop: nat): (n: nat)
    requires stop <= |data|
    decreases stop
  {
    if stop <= from then 0 else Value(data, from, stop - 1) * 256 + data[stop - 1]
  }

  /** `e` stands in `data` at `pos`. */
  predicate Sits(data: Bytes, pos: nat, e: Bytes) {
    pos + |e| <= |data| && forall i :: 0 <= i < |e| ==> data[pos + i] == e[i]
  }

  /** Equal bytes have equal values, wherever they are. */
  lemma {:induction false} ValueMoves(data: Bytes, pos: nat, e: Bytes, i: nat, j: nat)
    requires Sits(data, pos, e) && i <= j <= |e|
    ensures Value(data, pos + i, pos + j) == Value(e, i, j)
    decreases j
  {
    if i >= j {
    } else {
      ValueMoves(data, pos, e, i, j - 1);
      assert data[pos + (j - 1)] == e[j - 1];
    }
  }

  lemma {:induction false} ValueOfBigEndian(n: nat)
    ensures Value(BigEndian(n), 0, |BigEndian(n)|) == n
  {
    if n < 256 {
    } else {
      ValueOfBigEndian(n / 256);
      var short := BigEndian(n / 256);
      ValueMoves(BigEndian(n), 0, short, 0, |short|);
    }
  }

  lemma {:induction false} ValueGrows(data: Bytes, from: nat, i: nat, stop: nat)
    requires from <= i <= stop <= |data|
    ensures Value(data, from, i) <= Value(data, from, stop)
  {
    if i >= stop {
    } else {
      ValueGrows(data, from, i, stop - 1);
    }
  }

  /** What the checked arithmetic comes to: the value, if it has no leading zero and fits. */
  function UintOf(data: Bytes, from: nat, stop: nat): Outcome<nat>
    requires stop <= |data|
  {
    if from >= stop || (data[from] == 0 && from + 1 < stop) || Value(data, from, stop) >= USIZE_LIMIT then Err
    else Ok(Value(data, from, stop))
  }

  method DecodeUint(data: Bytes, from: nat, stop: nat) returns (r: Outcome<nat>)
    requires stop <= |data|
    ensures r == UintOf(data, from, stop)
  {
    if from >= stop {
      return Err;
    }
    if data[from] == 0 && stop - from > 1 {
      return Err;
    }
    var result := 0;
    for i := from to stop
      invariant result == Value(data, from, i) < USIZE_LIMIT
    {
      ValueGrows(data, from, i + 1, stop);
      if result * 256 >= USIZE_LIMIT {
        return Err;
      }
      result := result * 256;
      if result + data[i] >= USIZE_LIMIT {
        return Err;
      }
      result := result + data[i];
    }
    r := Ok(result);
  }

  // ---- the scanner

  /** Content length and total length of the item at a position. */
  function DecodeLength(data: Bytes, pos: nat): (r: Outcome<(nat, nat)>)
    ensures r.Ok? ==> r.value.0 <= r.value.1 && 0 < r.value.1
  {
    if pos > |data| then OutOfBounds
    else if pos == |data| then Err
    else
      var first := data[pos];
      if first <= 0x7f then Ok((1, 1))
      else if first <= 0xb7 then Ok((first - 0x80, first - 0x80 + 1))
      else if first <= 0xbf then DecodeLong(data, pos, first - 0xb7)
      else if first <= 0xf7 then Ok((first - 0xc0, first - 0xc0 + 1))
      else DecodeLong(data, pos, first - 0xf7)
  }

  function DecodeLong(data: Bytes, pos: nat, lengthOfLength: nat): (r: Outcome<(nat, nat)>) {
    if |data| < pos + 1 + lengthOfLength then Err
    else
      var length :- UintOf(data, pos + 1, pos + 1 + lengthOfLength);
      var total :- Usize(1 + lengthOfLength + length);
      Ok((length, total))
  }

  function Usize(n: nat): Outcome<nat> {
    if n >= USIZE_LIMIT then Overflow else Ok(n)
  }

  /** The ranges of the items from `pos` up to `end`, by their lengths alone. */
  function Scan(data: Bytes, pos: nat, end: nat): (r: Outcome<seq<Range>>)
    decreases end - pos
  {
    if pos >= end then Ok([])
    else
      var (_, length) :- DecodeLength(data, pos);
      var next :- Usize(pos + length);
      var more :- Scan(data, next, end);
      Ok([(pos, next)] + more)
  }

  function Prepend(ranges: seq<Range>, r: Outcome<seq<Range>>): Outcome<seq<Range>> {
    var more :- r;
    Ok(ranges + more)
  }

  method ScanLoop(data: Bytes, start: nat, end: nat) returns (r: Outcome<seq<Range>>)
    ensures r == Scan(data, start, end)
  {
    var position, ranges: seq<Range> := start, [];
    assert Scan(data, start, end).Ok? ==> [] + Scan(data, start, end).value == Scan(data, start, end).value;
    while position < end
      invariant Scan(data, start, end) == Prepend(ranges, Scan(data, position, end))
      decreases end - position
    {
      var lengths :- DecodeLength(data, position);
      var next :- Usize(position + lengths.1);
      PrependStep(ranges, (position, next), Scan(data, next, end));
      ranges := ranges + [(position, next)];
      position := next;
    }
    assert ranges + [] == ranges;
    r := Ok(ranges);
  }

  lemma PrependStep(ranges: seq<Range>, range: Range, r: Outcome<seq<Range>>)
    ensures Prepend(ranges + [range], r) == Prepend(ranges, Prepend([range], r))
  {
    if r.Ok? {
      assert ranges + [range] + r.value == ranges + ([range] + r.value);
    }
  }

  /** Where the list of transactions begins: after the block's prefix and its header. */
  function SkipHeader(block: Bytes): Outcome<nat> {
    var (content, total) :- DecodeLength(block, 0);
    var (_, header) :- DecodeLength(block, total - content);
    Usize(total - content + header)
  }

  /** Where the contents of the list at a position begin and end. */
  function ListBounds(data: Bytes, pos: nat): (r: Outcome<Range>)
    ensures r.Ok? ==> pos <= r.value.0 <= r.value.1
  {
    var (content, total) :- DecodeLength(data, pos);
    var start :- Usize(pos + (total - content));
    var end :- Usize(start + content);
    Ok((start, end))
  }

  function TransactionRanges(block: Bytes): Outcome<seq<Range>> {
    var pos :- SkipHeader(block);
    var (start, end) :- ListBounds(block, pos);
    Scan(block, start, end)
  }

  function ListRanges(data: Bytes): Outcome<seq<Range>> {
    var (start, end) :- ListBounds(data, 0);
    Scan(data, start, end)
  }

  datatype TxByteOffsets = TxByteOffsets(tx: Range, receipt: Range, trace: Range)

  function Shift(ranges: seq<Range>, base: nat): (r: seq<Range>)
    ensures |r| == |ranges| && forall i :: 0 <= i < |r| ==> r[i] == (ranges[i].0 + base, ranges[i].1 + base)
  {
    seq(|ranges|, i requires 0 <= i < |ranges| => (ranges[i].0 + base, ranges[i].1 + base))
  }

  predicate InUsize(ranges: seq<Range>) {
    forall i :: 0 <= i < |ranges| ==> ranges[i].0 < USIZE_LIMIT && ranges[i].1 < USIZE_LIMIT
  }

  function Zip(txs: seq<Range>, receipts: seq<Range>, traces: seq<Range>): (r: seq<TxByteOffsets>)
    requires |txs| == |receipts| == |traces|
    ensures |r| == |txs| && forall i :: 0 <= i < |r| ==> r[i] == TxByteOffsets(txs[i], receipts[i], traces[i])
  {
    seq(|txs|, i requires 0 <= i < |txs| => TxByteOffsets(txs[i], receipts[i], traces[i]))
  }

  /** The bytes of the list at a position, with its prefix. */
  function ListSlice(data: Bytes, pos: nat): Outcome<Bytes> {
    var (start, end) :- ListBounds(data, pos);
    if end > |data| then OutOfBounds else Ok(data[pos..end])
  }

  function Combine(txRanges: seq<Range>, receiptRanges: seq<Range>, traceRanges: seq<Range>): Outcome<seq<TxByteOffsets>> {
    if !InUsize(txRanges) then Overflow
    else if |txRanges| != |receiptRanges| || |txRanges| != |traceRanges| then Err
    else Ok(Zip(txRanges, receiptRanges, traceRanges))
  }

  function AllTxOffsets(block: Bytes, receipts: Bytes, traces: Bytes): Outcome<seq<TxByteOffsets>> {
    var pos :- SkipHeader(block);
    var list :- ListSlice(block, pos);
    var inner :- ListRanges(list);
    var receiptRanges :- ListRanges(receipts);
    var traceRanges :- ListRanges(traces);
    Combine(Shift(inner, pos), receiptRanges, traceRanges)
  }

  // ---- the functions themselves

  method SkipToTransactions(block: Bytes) returns (r: Outcome<nat>)
    ensures r == SkipHeader(block)
  {
    var position := 0;
    var whole :- DecodeLength(block, position);
    position := position + (whole.1 - whole.0);
    var header :- DecodeLength(block, position);
    r := Usize(position + header.1);
  }

  method GetListBounds(data: Bytes, pos: nat) returns (r: Outcome<Range>)
    ensures r == ListBounds(data, pos)
  {
    var lengths :- DecodeLength(data, pos);
    var start :- Usize(pos + (lengths.1 - lengths.0));
    var end :- Usize(start + lengths.0);
    r := Ok((start, end));
  }

  method GetTransactionRanges(block: Bytes) returns (r: Outcome<seq<Range>>)
    ensures r == TransactionRanges(block)
  {
    var position :- SkipToTransactions(block);
    var bounds :- GetListBounds(block, position);
    r := ScanLoop(block, bounds.0, bounds.1);
  }

  method GetRlpListRanges(data: Bytes) returns (r: Outcome<seq<Range>>)
    ensures r == ListRanges(data)
  {
    var bounds :- GetListBounds(data, 0);
    r := ScanLoop(data, bounds.0, bounds.1);
  }

  method GetAllTxOffsets(block: Bytes, receipts: Bytes, traces: Bytes) returns (r: Outcome<seq<TxByteOffsets>>)
    ensures r == AllTxOffsets(block, receipts, traces)
  {
    var position :- SkipToTransactions(block);
    var bounds :- GetListBounds(block, position);
    if bounds.1 > |block| {
      return OutOfBounds;
    }
    var inner :- GetRlpListRanges(block[position..bounds.1]);
    var receiptRanges :- GetRlpListRanges(receipts);
    var traceRanges :- GetRlpListRanges(traces);
    r := Combine(Shift(inner, position), receiptRanges, traceRanges);
  }

  // ---- valid encodings

  lemma SitsParts(data: Bytes, pos: nat, a: Bytes, b: Bytes)
    requires Sits(data, pos, a + b)
    ensures Sits(data, pos, a) && Sits(data, pos + |a|, b)
  {
    var e := a + b;
    forall i | 0 <= i < |a| ensures data[pos + i] == a[i] {
      assert e[i] == a[i];
    }
    forall i | 0 <= i < |b| ensures data[pos + |a| + i] == b[i] {
      assert e[|a| + i] == b[i];
    }
  }

  lemma SitsSlice(data: Bytes, pos: nat, e: Bytes)
    requires Sits(data, pos, e)
    ensures data[pos..pos + |e|] == e
  {
  }

  lemma DecodeShort(data: Bytes, pos: nat, offset: nat, length: nat)
    requires offset == 0x80 || offset == 0xc0
    requires length <= 55 && pos < |data| && data[pos] == offset + length
    ensures DecodeLength(data, pos) == Ok((length, 1 + length))
  {
  }

  lemma DecodeLongPrefix(data: Bytes, pos: nat, offset: nat, length: nat)
    requires offset == 0x80 || offset == 0xc0
    requires 55 < length && |BigEndian(length)| <= 8 && 1 + |BigEndian(length)| + length < USIZE_LIMIT
    requires Sits(data, pos, [offset + 55 + |BigEndian(length)|] + BigEndian(length))
    ensures DecodeLength(data, pos) == Ok((length, 1 + |BigEndian(length)| + length))
  {
    var long := BigEndian(length);
    var p: Bytes := [offset + 55 + |long|] + long;
    assert data[pos] == p[0];
    SitsParts(data, pos, [p[0]], long);
    LongDigits(data, pos + 1, length);
    DecodeLongBy(data, pos, offset, |long|, length);
  }

  lemma DecodeLongBy(data: Bytes, pos: nat, offset: nat, k: nat, length: nat)
    requires offset == 0x80 || offset == 0xc0
    requires 0 < k <= 8 && pos + 1 + k <= |data| && data[pos] == offset + 55 + k
    requires UintOf(data, pos + 1, pos + 1 + k) == Ok(length) && 1 + k + length < USIZE_LIMIT
    ensures DecodeLength(data, pos) == Ok((length, 1 + k + length))
  {
  }

  lemma LongDigits(data: Bytes, pos: nat, n: nat)
    requires 0 < n < USIZE_LIMIT && Sits(data, pos, BigEndian(n))
    ensures UintOf(data, pos, pos + |BigEndian(n)|) == Ok(n)
  {
    var long := BigEndian(n);
    assert data[pos] == long[0];
    ValueMoves(data, pos, long, 0, |long|);
    ValueOfBigEndian(n);
  }

  /** The scanner reads the length of a prefix. */
  lemma DecodePrefix(data: Bytes, pos: nat, offset: nat, length: nat)
    requires offset == 0x80 || offset == 0xc0
    requires |Prefix(offset, length)| + length <= |data| < USIZE_LIMIT && Sits(data, pos, Prefix(offset, length))
    ensures DecodeLength(data, pos) == Ok((length, |Prefix(offset, length)| + length))
  {
    UsizeTakesEightBytes(length);
    if length <= 55 {
      assert data[pos] == Prefix(offset, length)[0];
      DecodeShort(data, pos, offset, length);
    } else {
      DecodeLongPrefix(data, pos, offset, length);
    }
  }

  /** At an encoded item the scanner finds the length of its contents and of its encoding. */
  lemma DecodeItem(data: Bytes, pos: nat, item: Item)
    requires |data| < USIZE_LIMIT && Sits(data, pos, Encode(item))
    ensures DecodeLength(data, pos) == Ok((|Contents(item)|, |Encode(item)|))
  {
    if item.Data? && |item.bytes| == 1 && item.bytes[0] < 0x80 {
      assert data[pos] == Encode(item)[0];
    } else {
      var offset, e := if item.Data? then 0x80 else 0xc0, Contents(item);
      assert Encode(item) == Prefix(offset, |e|) + e;
      SitsParts(data, pos, Prefix(offset, |e|), e);
      DecodePrefix(data, pos, offset, |e|);
    }
  }

  // The steps below are put together by these facts alone.

  ghost predicate HasLength(data: Bytes, pos: nat, length: nat) {
    DecodeLength(data, pos).Ok? && DecodeLength(data, pos).value.1 == length
  }

  ghost predicate Scans(data: Bytes, pos: nat, end: nat, ranges: seq<Range>) {
    Scan(data, pos, end) == Ok(ranges)
  }

  /** The list at `pos` has `length` bytes of contents, from `start`. */
  ghost predicate BoundsAre(data: Bytes, pos: nat, start: nat, length: nat) {
    ListBounds(data, pos) == Ok((start, start + length))
  }

  ghost predicate HeaderEndsAt(block: Bytes, pos: nat) {
    SkipHeader(block) == Ok(pos)
  }

  /** The ranges of encodings laid one after the other. */
  function Tiles(items: seq<Item>, pos: nat): (r: seq<Range>)
    ensures |r| == |items|
  {
    if items == [] then []
    else [(pos, pos + |Encode(items[0])|)] + Tiles(items[1..], pos + |Encode(items[0])|)
  }

  lemma {:induction false} TilesCons(items: seq<Item>, pos: nat, length: nat)
    requires items != [] && length == |Encode(items[0])|
    ensures Tiles(items, pos) == [(pos, pos + length)] + Tiles(items[1..], pos + length)
  {
  }

  /** Tiles slice back to the items' encodings. */
  lemma {:induction false} TilesSliceBack(data: Bytes, pos: nat, items: seq<Item>, i: nat)
    requires Sits(data, pos, EncodeAll(items)) && i < |items|
    ensures var (start, end) := Tiles(items, pos)[i]; start <= end <= |data| && data[start..end] == Encode(items[i])
    decreases |items|
  {
    var first := Encode(items[0]);
    SitsParts(data, pos, first, EncodeAll(items[1..]));
    if i > 0 {
      TilesSliceBack(data, pos + |first|, items[1..], i - 1);
    } else {
      SitsSlice(data, pos, first);
    }
  }

  /** Tiles follow one another, from the first byte of the encodings to the last. */
  lemma {:induction false} TilesCover(items: seq<Item>, pos: nat, i: nat)
    requires i < |items|
    ensures Tiles(items, pos)[0].0 == pos
    ensures Tiles(items, pos)[i].1 == if i + 1 < |items| then Tiles(items, pos)[i + 1].0 else pos + |EncodeAll(items)|
    decreases |items|
  {
    var rest, next := items[1..], pos + |Encode(items[0])|;
    if rest == [] {
    } else {
      TilesCover(rest, next, if i > 0 then i - 1 else 0);
    }
  }

  lemma ScanStep(data: Bytes, pos: nat, length: nat, end: nat, more: seq<Range>)
    requires HasLength(data, pos, length) && pos < end && pos + length < USIZE_LIMIT && Scans(data, pos + length, end, more)
    ensures Scans(data, pos, end, [(pos, pos + length)] + more)
  {
  }

  /** Encodings laid one after the other are scanned as their tiles. */
  lemma {:induction false} ScanEncodings(data: Bytes, pos: nat, items: seq<Item>)
    requires |data| < USIZE_LIMIT && Sits(data, pos, EncodeAll(items))
    ensures Scans(data, pos, pos + |EncodeAll(items)|, Tiles(items, pos))
    decreases |items|
  {
    if items == [] {
      ScansNothing(data, pos, pos, []);
    } else {
      var length, end := FirstItem(data, pos, items);
      ScanEncodings(data, pos + length, items[1..]);
      ScanStep(data, pos, length, end, Tiles(items[1..], pos + length));
      TilesCons(items, pos, length);
    }
  }

  lemma ScansNothing(data: Bytes, pos: nat, end: nat, ranges: seq<Range>)
    requires pos >= end
    ensures Scans(data, pos, end, ranges) <==> ranges == []
  {
  }

  lemma FirstItem(data: Bytes, pos: nat, items: seq<Item>) returns (length: nat, end: nat)
    requires |data| < USIZE_LIMIT && Sits(data, pos, EncodeAll(items)) && items != []
    ensures length == |Encode(items[0])| > 0 && HasLength(data, pos, length)
    ensures pos + |EncodeAll(items)| == end == pos + length + |EncodeAll(items[1..])| <= |data|
    ensures Sits(data, pos + length, EncodeAll(items[1..]))
  {
    length, end := |Encode(items[0])|, pos + |EncodeAll(items)|;
    SitsParts(data, pos, Encode(items[0]), EncodeAll(items[1..]));
    DecodeItem(data, pos, items[0]);
  }

  lemma BoundsBy(data: Bytes, pos: nat, content: nat, total: nat)
    requires DecodeLength(data, pos) == Ok((content, total)) && pos + total < USIZE_LIMIT
    ensures content <= total && BoundsAre(data, pos, pos + (total - content), content)
  {
  }

  lemma BoundsOfContents(data: Bytes, pos: nat, prefix: Bytes, contents: Bytes)
    requires prefix == Prefix(0xc0, |contents|) && |data| < USIZE_LIMIT && Sits(data, pos, prefix + contents)
    ensures BoundsAre(data, pos, pos + |prefix|, |contents|)
    ensures prefix != [] && Sits(data, pos + |prefix|, contents)
  {
    SitsParts(data, pos, prefix, contents);
    DecodePrefix(data, pos, 0xc0, |contents|);
    BoundsBy(data, pos, |contents|, |prefix| + |contents|);
    UsizeTakesEightBytes(|contents|);
  }

  /** The contents of an encoded list begin after its prefix and end with it. */
  lemma BoundsOfList(data: Bytes, pos: nat, items: seq<Item>) returns (start: nat)
    requires |data| < USIZE_LIMIT && Sits(data, pos, Encode(List(items)))
    ensures BoundsAre(data, pos, start, |EncodeAll(items)|)
    ensures start + |EncodeAll(items)| == pos + |Encode(List(items))|
    ensures pos < start && Sits(data, start, EncodeAll(items))
  {
    var contents := EncodeAll(items);
    var prefix := Prefix(0xc0, |contents|);
    BoundsOfContents(data, pos, prefix, contents);
    start := pos + |prefix|;
  }

  lemma ListRangesBy(data: Bytes, start: nat, length: nat, ranges: seq<Range>)
    requires BoundsAre(data, 0, start, length) && Scans(data, start, start + length, ranges)
    ensures ListRanges(data) == Ok(ranges)
  {
  }

  /** For every list, encoded at the start of any data, the ranges tile its contents. */
  lemma ListRangesTile(data: Bytes, items: seq<Item>) returns (start: nat)
    requires |data| < USIZE_LIMIT && Sits(data, 0, Encode(List(items)))
    ensures BoundsAre(data, 0, start, |EncodeAll(items)|) && Sits(data, start, EncodeAll(items))
    ensures ListRanges(data) == Ok(Tiles(items, start))
  {
    start := BoundsOfList(data, 0, items);
    ScanEncodings(data, start, items);
    ListRangesBy(data, start, |EncodeAll(items)|, Tiles(items, start));
  }

  lemma FirstTwoItems(data: Bytes, pos: nat, a: Item, b: Item, more: seq<Item>)
    requires Sits(data, pos, EncodeAll([a, b] + more))
    ensures Sits(data, pos, Encode(a)) && Sits(data, pos + |Encode(a)|, Encode(b))
  {
    var items := [a, b] + more;
    assert items[1..] == [b] + more && items[1..][1..] == more;
    SitsParts(data, pos, Encode(a), EncodeAll(items[1..]));
    SitsParts(data, pos + |Encode(a)|, Encode(b), EncodeAll(more));
  }

  /** The encoding of a block, a list of its header, its transactions and more, followed by anything. */
  ghost predicate IsBlock(block: Bytes, header: Item, txs: seq<Item>, more: seq<Item>) {
    |block| < USIZE_LIMIT && Sits(block, 0, Encode(List([header, List(txs)] + more)))
  }

  lemma BlockLayout(block: Bytes, header: Item, txs: seq<Item>, more: seq<Item>) returns (pos: nat)
    requires IsBlock(block, header, txs, more)
    ensures HeaderEndsAt(block, pos) && Sits(block, pos, Encode(List(txs)))
  {
    var items := [header, List(txs)] + more;
    var start := BoundsOfList(block, 0, items);
    pos := HeaderEnd(block, start, header, txs, more);
    SkipHeaderBy(block, start, |EncodeAll(items)|, pos - start);
  }

  lemma HeaderEnd(block: Bytes, start: nat, header: Item, txs: seq<Item>, more: seq<Item>) returns (pos: nat)
    requires |block| < USIZE_LIMIT && Sits(block, start, EncodeAll([header, List(txs)] + more))
    ensures start <= pos <= |block| && Sits(block, pos, Encode(List(txs)))
    ensures HasLength(block, start, pos - start)
  {
    FirstTwoItems(block, start, header, List(txs), more);
    DecodeItem(block, start, header);
    pos := start + |Encode(header)|;
  }

  lemma SkipHeaderBy(block: Bytes, start: nat, length: nat, header: nat)
    requires BoundsAre(block, 0, start, length) && start + header < USIZE_LIMIT && HasLength(block, start, header)
    ensures HeaderEndsAt(block, start + header)
  {
  }

  lemma TransactionRangesBy(block: Bytes, pos: nat, start: nat, length: nat, ranges: seq<Range>)
    requires HeaderEndsAt(block, pos) && BoundsAre(block, pos, start, length) && Scans(block, start, start + length, ranges)
    ensures TransactionRanges(block) == Ok(ranges)
  {
  }

  /** Where an encoded block has its transactions, with and without their list prefix. */
  ghost predicate TransactionsAt(block: Bytes, txs: seq<Item>, pos: nat, start: nat) {
    && HeaderEndsAt(block, pos) && pos < start
    && BoundsAre(block, pos, start, |EncodeAll(txs)|)
    && Sits(block, start, EncodeAll(txs))
  }

  lemma FindTransactions(block: Bytes, header: Item, txs: seq<Item>, more: seq<Item>) returns (pos: nat, start: nat)
    requires IsBlock(block, header, txs, more)
    ensures TransactionsAt(block, txs, pos, start) && ListSlice(block, pos) == Ok(Encode(List(txs)))
  {
    pos := BlockLayout(block, header, txs, more);
    start := BoundsOfList(block, pos, txs);
    SliceOfList(block, pos, start, |EncodeAll(txs)|, Encode(List(txs)));
  }

  lemma SliceOfList(block: Bytes, pos: nat, start: nat, length: nat, list: Bytes)
    requires BoundsAre(block, pos, start, length) && Sits(block, pos, list) && start + length == pos + |list|
    ensures ListSlice(block, pos) == Ok(list)
  {
    SitsSlice(block, pos, list);
  }

  /** For every encoded block, the transaction ranges are those of its transactions. */
  lemma BlockRangesTile(block: Bytes, header: Item, txs: seq<Item>, more: seq<Item>) returns (pos: nat, start: nat)
    requires IsBlock(block, header, txs, more)
    ensures TransactionsAt(block, txs, pos, start)
    ensures TransactionRanges(block) == Ok(Tiles(txs, start))
  {
    pos, start := FindTransactions(block, header, txs, more);
    TilesOfTransactions(block, txs, pos, start);
  }

  lemma TilesOfTransactions(block: Bytes, txs: seq<Item>, pos: nat, start: nat)
    requires |block| < USIZE_LIMIT && TransactionsAt(block, txs, pos, start)
    ensures TransactionRanges(block) == Ok(Tiles(txs, start))
  {
    ScanEncodings(block, start, txs);
    TransactionRangesBy(block, pos, start, |EncodeAll(txs)|, Tiles(txs, start));
  }

  lemma {:induction false} TilesShift(items: seq<Item>, pos: nat, base: nat)
    ensures Shift(Tiles(items, pos), base) == Tiles(items, pos + base)
    decreases |items|
  {
    if items == [] {
    } else {
      var next := pos + |Encode(items[0])|;
      TilesShift(items[1..], next, base);
      assert Shift(Tiles(items, pos), base) == [(pos + base, next + base)] + Shift(Tiles(items[1..], next), base);
    }
  }

  lemma WholeList(items: seq<Item>) returns (start: nat)
    requires |Encode(List(items))| < USIZE_LIMIT
    ensures BoundsAre(Encode(List(items)), 0, start, |EncodeAll(items)|)
    ensures ListRanges(Encode(List(items))) == Ok(Tiles(items, start))
  {
    start := ListRangesTile(Encode(List(items)), items);
  }

  lemma WholeListIs(items: seq<Item>, data: Bytes) returns (start: nat, length: nat)
    requires data == Encode(List(items)) && |data| < USIZE_LIMIT
    ensures BoundsAre(data, 0, start, length) && length == |EncodeAll(items)|
    ensures ListRanges(data) == Ok(Tiles(items, start))
  {
    start := WholeList(items);
    length := |EncodeAll(items)|;
  }

  lemma TransactionBounds(block: Bytes, txs: seq<Item>, pos: nat, start: nat) returns (length: nat)
    requires TransactionsAt(block, txs, pos, start)
    ensures BoundsAre(block, pos, start, length) && length == |EncodeAll(txs)|
  {
    length := |EncodeAll(txs)|;
  }

  lemma TilesInUsize(data: Bytes, pos: nat, items: seq<Item>)
    requires |data| < USIZE_LIMIT && Sits(data, pos, EncodeAll(items))
    ensures InUsize(Tiles(items, pos))
  {
    var t := Tiles(items, pos);
    forall i | 0 <= i < |t| ensures t[i].0 < USIZE_LIMIT && t[i].1 < USIZE_LIMIT {
      TilesSliceBack(data, pos, items, i);
    }
  }

  lemma OffsetsBy(block: Bytes, receipts: Bytes, traces: Bytes, pos: nat, list: Bytes,
                  inner: seq<Range>, receiptRanges: seq<Range>, traceRanges: seq<Range>)
    requires HeaderEndsAt(block, pos) && ListSlice(block, pos) == Ok(list) && ListRanges(list) == Ok(inner)
    requires ListRanges(receipts) == Ok(receiptRanges) && ListRanges(traces) == Ok(traceRanges)
    ensures AllTxOffsets(block, receipts, traces) == Combine(Shift(inner, pos), receiptRanges, traceRanges)
  {
  }

  /** In the slice that holds the list of transactions, their ranges are the same but for the
      position of the slice. */
  lemma SliceStart(block: Bytes, txs: seq<Item>, pos: nat, start: nat, slice: Bytes) returns (from: nat)
    requires |block| < USIZE_LIMIT && TransactionsAt(block, txs, pos, start)
    requires slice == Encode(List(txs)) && ListSlice(block, pos) == Ok(slice)
    ensures ListRanges(slice) == Ok(Tiles(txs, from)) && start == from + pos
  {
    var length;
    from, length := WholeListIs(txs, slice);
    var same := TransactionBounds(block, txs, pos, start);
    assert same == length;
    StartsAgree(block, pos, start, slice, from, length);
  }

  lemma StartsAgree(block: Bytes, pos: nat, start: nat, slice: Bytes, from: nat, length: nat)
    requires BoundsAre(block, pos, start, length) && BoundsAre(slice, 0, from, length)
    requires ListSlice(block, pos) == Ok(slice)
    ensures start == pos + from
  {
    StartInSlice(block, pos, start, start + length, slice, from, from + length);
  }

  /** For every encoded block with its receipts and traces, the offsets are found exactly when
      there are as many of each, and they are the ranges of each. */
  lemma BlockOffsets(block: Bytes, header: Item, txs: seq<Item>, more: seq<Item>, receipts: seq<Item>, traces: seq<Item>)
      returns (tx: nat, receipt: nat, trace: nat)
    requires IsBlock(block, header, txs, more)
    requires |Encode(List(receipts))| < USIZE_LIMIT && |Encode(List(traces))| < USIZE_LIMIT
    ensures TransactionRanges(block) == Ok(Tiles(txs, tx))
    ensures ListRanges(Encode(List(receipts))) == Ok(Tiles(receipts, receipt))
    ensures ListRanges(Encode(List(traces))) == Ok(Tiles(traces, trace))
    ensures AllTxOffsets(block, Encode(List(receipts)), Encode(List(traces))) ==
      if |txs| == |receipts| == |traces| then Ok(Zip(Tiles(txs, tx), Tiles(receipts, receipt), Tiles(traces, trace))) else Err
  {
    var pos;
    pos, tx := BlockRangesTile(block, header, txs, more);
    receipt := WholeList(receipts);
    trace := WholeList(traces);
    var inner := InnerRanges(block, header, txs, more, pos, tx);
    OffsetsBy(block, Encode(List(receipts)), Encode(List(traces)), pos, Encode(List(txs)), inner,
              Tiles(receipts, receipt), Tiles(traces, trace));
  }

  lemma TransactionsInUsize(block: Bytes, txs: seq<Item>, pos: nat, start: nat)
    requires |block| < USIZE_LIMIT && TransactionsAt(block, txs, pos, start)
    ensures InUsize(Tiles(txs, start))
  {
    TilesInUsize(block, start, txs);
  }

  lemma InnerRanges(block: Bytes, header: Item, txs: seq<Item>, more: seq<Item>, pos: nat, start: nat) returns (inner: seq<Range>)
    requires IsBlock(block, header, txs, more) && TransactionsAt(block, txs, pos, start)
    ensures ListSlice(block, pos) == Ok(Encode(List(txs))) && ListRanges(Encode(List(txs))) == Ok(inner)
    ensures Shift(inner, pos) == Tiles(txs, start) && InUsize(Tiles(txs, start))
  {
    var from := InnerStart(block, header, txs, more, pos, start);
    inner := Tiles(txs, from);
    ShiftedTiles(txs, from, pos, start);
    TransactionsInUsize(block, txs, pos, start);
  }

  lemma {:induction false} ShiftedTiles(items: seq<Item>, from: nat, pos: nat, start: nat)
    requires start == from + pos
    ensures Shift(Tiles(items, from), pos) == Tiles(items, start)
  {
    TilesShift(items, from, pos);
  }

  lemma InnerStart(block: Bytes, header: Item, txs: seq<Item>, more: seq<Item>, pos: nat, start: nat) returns (from: nat)
    requires IsBlock(block, header, txs, more) && TransactionsAt(block, txs, pos, start)
    ensures ListSlice(block, pos) == Ok(Encode(List(txs)))
    ensures ListRanges(Encode(List(txs))) == Ok(Tiles(txs, from)) && start == from + pos
  {
    var p, s := FindTransactions(block, header, txs, more);
    from := SliceStart(block, txs, p, s, Encode(List(txs)));
  }

  // ---- any bytes at all

  /** Whatever the bytes, ranges that are returned follow one another without gaps, none is
      empty, each begins inside the scanned part, and the last one reaches its end. */
  lemma {:induction false} ScanIsContiguous(data: Bytes, pos: nat, end: nat, i: nat)
    requires Scan(data, pos, end).Ok? && i < |Scan(data, pos, end).value|
    ensures var r := Scan(data, pos, end).value;
      && r[0].0 == pos && r[|r| - 1].1 >= end
      && pos <= r[i].0 < r[i].1 && r[i].0 < end
      && (i + 1 < |r| ==> r[i].1 == r[i + 1].0)
    decreases end - pos
  {
    var next := pos + DecodeLength(data, pos).value.1;
    var more := Scan(data, next, end).value;
    if more == [] {
    } else {
      ScanIsContiguous(data, next, end, if i > 0 then i - 1 else 0);
    }
  }

  lemma UintInSlice(data: Bytes, from: nat, slice: Bytes, i: nat, j: nat)
    requires Sits(data, from, slice) && i <= j <= |slice|
    ensures UintOf(data, from + i, from + j) == UintOf(slice, i, j)
  {
    ValueMoves(data, from, slice, i, j);
  }

  /** A length read inside a slice is the length read in the whole data. */
  lemma DecodeInSlice(data: Bytes, from: nat, slice: Bytes, pos: nat)
    requires Sits(data, from, slice) && DecodeLength(slice, pos).Ok?
    ensures DecodeLength(data, from + pos) == DecodeLength(slice, pos)
  {
    var first := slice[pos];
    assert data[from + pos] == first;
    if first > 0xf7 {
      UintInSlice(data, from, slice, pos + 1, pos + 1 + (first - 0xf7));
    } else if 0xb7 < first <= 0xbf {
      UintInSlice(data, from, slice, pos + 1, pos + 1 + (first - 0xb7));
    }
  }

  lemma LengthInSlice(data: Bytes, from: nat, slice: Bytes, pos: nat, length: nat)
    requires Sits(data, from, slice) && HasLength(slice, pos, length)
    ensures HasLength(data, from + pos, length)
  {
    DecodeInSlice(data, from, slice, pos);
  }

  /** A scan that succeeds, one item at a time. */
  lemma ScanParts(data: Bytes, pos: nat, end: nat, ranges: seq<Range>) returns (length: nat, more: seq<Range>)
    requires Scans(data, pos, end, ranges) && pos < end
    ensures HasLength(data, pos, length) && length > 0
    ensures Scans(data, pos + length, end, more) && ranges == [(pos, pos + length)] + more
  {
    length := DecodeLength(data, pos).value.1;
    more := Scan(data, pos + length, end).value;
  }

  lemma {:induction false} ScanInSlice(data: Bytes, from: nat, slice: Bytes, pos: nat, end: nat, ranges: seq<Range>)
    requires Sits(data, from, slice) && Scans(slice, pos, end, ranges) && InUsize(Shift(ranges, from))
    ensures Scans(data, from + pos, from + end, Shift(ranges, from))
    decreases end - pos
  {
    if pos >= end {
      ScansNothing(slice, pos, end, ranges);
      ScansNothing(data, from + pos, from + end, []);
    } else {
      var length, more := ScanParts(slice, pos, end, ranges);
      LengthInSlice(data, from, slice, pos, length);
      ShiftCons((pos, pos + length), more, from);
      ScanInSlice(data, from, slice, pos + length, end, more);
      ScanStep(data, from + pos, length, from + end, Shift(more, from));
    }
  }

  lemma ShiftCons(range: Range, more: seq<Range>, base: nat)
    ensures Shift([range] + more, base) == [(range.0 + base, range.1 + base)] + Shift(more, base)
    ensures InUsize(Shift([range] + more, base)) ==> InUsize(Shift(more, base)) && range.1 + base < USIZE_LIMIT
  {
    var all := [(range.0 + base, range.1 + base)] + Shift(more, base);
    assert Shift([range] + more, base) == all;
    if InUsize(all) {
      assert all[0].1 < USIZE_LIMIT;
      forall i | 0 <= i < |more| ensures Shift(more, base)[i].0 < USIZE_LIMIT && Shift(more, base)[i].1 < USIZE_LIMIT {
        assert all[i + 1] == Shift(more, base)[i];
      }
    }
  }

  lemma BoundsInSlice(block: Bytes, pos: nat, start: nat, end: nat, slice: Bytes)
    requires ListBounds(block, pos) == Ok((start, end)) && ListSlice(block, pos) == Ok(slice) && ListBounds(slice, 0).Ok?
    ensures pos <= start && Sits(block, pos, slice) && ListBounds(slice, 0) == Ok((start - pos, end - pos))
  {
    DecodeInSlice(block, pos, slice, 0);
  }

  lemma StartInSlice(block: Bytes, pos: nat, start: nat, end: nat, slice: Bytes, from: nat, upTo: nat)
    requires ListBounds(block, pos) == Ok((start, end)) && ListSlice(block, pos) == Ok(slice)
    requires ListBounds(slice, 0) == Ok((from, upTo))
    ensures start == pos + from && end == pos + upTo && Sits(block, pos, slice)
  {
    BoundsInSlice(block, pos, start, end, slice);
  }

  /** What success of `AllTxOffsets` says about each of its steps. */
  lemma OffsetsParts(block: Bytes, receipts: Bytes, traces: Bytes)
      returns (pos: nat, start: nat, end: nat, slice: Bytes, inner: seq<Range>)
    requires AllTxOffsets(block, receipts, traces).Ok?
    ensures SkipHeader(block) == Ok(pos) && ListBounds(block, pos) == Ok((start, end))
    ensures ListSlice(block, pos) == Ok(slice) && ListRanges(slice) == Ok(inner) && InUsize(Shift(inner, pos))
    ensures var offsets := AllTxOffsets(block, receipts, traces).value;
      |offsets| == |inner| && forall i :: 0 <= i < |inner| ==> offsets[i].tx == Shift(inner, pos)[i]
  {
    pos := SkipHeader(block).value;
    start, end := ListBounds(block, pos).value.0, ListBounds(block, pos).value.1;
    slice := ListSlice(block, pos).value;
    inner := ListRanges(slice).value;
  }

  lemma ListRangesParts(data: Bytes, ranges: seq<Range>) returns (start: nat, end: nat)
    requires ListRanges(data) == Ok(ranges)
    ensures ListBounds(data, 0) == Ok((start, end)) && Scan(data, start, end) == Ok(ranges)
  {
    start, end := ListBounds(data, 0).value.0, ListBounds(data, 0).value.1;
  }

  lemma ScanMoves(data: Bytes, pos: nat, slice: Bytes, from: nat, upTo: nat, start: nat, end: nat, inner: seq<Range>)
    requires Sits(data, pos, slice) && start == pos + from && end == pos + upTo
    requires Scan(slice, from, upTo) == Ok(inner) && InUsize(Shift(inner, pos))
    ensures Scan(data, start, end) == Ok(Shift(inner, pos))
  {
    assert Scans(slice, from, upTo, inner);
    ScanInSlice(data, pos, slice, from, upTo, inner);
    assert Scans(data, start, end, Shift(inner, pos));
  }

  lemma RangesOfSlice(block: Bytes, pos: nat, start: nat, end: nat, slice: Bytes, inner: seq<Range>)
    requires SkipHeader(block) == Ok(pos) && ListBounds(block, pos) == Ok((start, end))
    requires ListSlice(block, pos) == Ok(slice) && ListRanges(slice) == Ok(inner) && InUsize(Shift(inner, pos))
    ensures TransactionRanges(block) == Ok(Shift(inner, pos))
  {
    var from, upTo := ListRangesParts(slice, inner);
    StartInSlice(block, pos, start, end, slice, from, upTo);
    ScanMoves(block, pos, slice, from, upTo, start, end, inner);
    TransactionRangesBy(block, pos, start, end - start, Shift(inner, pos));
  }

  /** The two ways of finding transactions agree on every input on which the second one
      succeeds, valid encoding or not. */
  lemma OffsetsAgree(block: Bytes, receipts: Bytes, traces: Bytes)
    requires AllTxOffsets(block, receipts, traces).Ok?
    ensures TransactionRanges(block).Ok?
    ensures var (offsets, ranges) := (AllTxOffsets(block, receipts, traces).value, TransactionRanges(block).value);
      |ranges| == |offsets| && forall i :: 0 <= i < |offsets| ==> offsets[i].tx == ranges[i]
  {
    var pos, start, end, slice, inner := OffsetsParts(block, receipts, traces);
    RangesOfSlice(block, pos, start, end, slice, inner);
  }
}
