/** When the RLP scanner indexes past its data, and when the ranges it returns lie inside. */
module RlpBounds {
  import opened RlpScanner

  /** Where the item after the one at `pos` begins. */
  function Next(data: Bytes, pos: nat): Outcome<nat> {
    var (_, length) :- DecodeLength(data, pos);
    Usize(pos + length)
  }

  /** A scan from `pos` up to `end` gets to the item boundary `q`. */
  ghost predicate Reaches(data: Bytes, pos: nat, end: nat, q: nat)
    decreases end - pos
  {
    || q == pos
    || (pos < end && Next(data, pos).Ok? && pos < Next(data, pos).value && Reaches(data, Next(data, pos).value, end, q))
  }

  /** It gets to a boundary past the data but before the end it was told. */
  ghost predicate Strays(data: Bytes, pos: nat, end: nat) {
    exists q: nat :: Reaches(data, pos, end, q) && |data| < q < end
  }

  /** It gets to a boundary inside the data at or after the end it was told. */
  ghost predicate Settles(data: Bytes, pos: nat, end: nat) {
    exists q: nat :: Reaches(data, pos, end, q) && end <= q <= |data|
  }

  // ---- one length

  lemma DecodeOutOfBounds(data: Bytes, pos: nat)
    ensures DecodeLength(data, pos).OutOfBounds? <==> pos > |data|
  {
  }

  lemma PrefixIsInside(data: Bytes, pos: nat)
    requires DecodeLength(data, pos).Ok?
    ensures pos + (DecodeLength(data, pos).value.1 - DecodeLength(data, pos).value.0) <= |data|
  {
  }

  lemma NextOutOfBounds(data: Bytes, pos: nat)
    ensures Next(data, pos).OutOfBounds? <==> pos > |data|
  {
    DecodeOutOfBounds(data, pos);
  }

  /** One step of a scan, as `Next` tells it. */
  lemma ScanByNext(data: Bytes, pos: nat, end: nat)
    requires pos < end
    ensures Next(data, pos).Ok? ==> Next(data, pos).value > pos
    ensures Scan(data, pos, end) ==
      if !Next(data, pos).Ok? then Next(data, pos).PropagateFailure<seq<Range>>()
      else Prepend([(pos, Next(data, pos).value)], Scan(data, Next(data, pos).value, end))
  {
  }

  // ---- a whole scan

  /** A scan indexes past the data exactly when it gets to a boundary past the data and before
      its end.  So it never does when the end lies inside the data. */
  lemma {:induction false} ScanOutOfBounds(data: Bytes, pos: nat, end: nat)
    ensures Scan(data, pos, end).OutOfBounds? <==> Strays(data, pos, end)
    ensures end <= |data| ==> !Scan(data, pos, end).OutOfBounds?
    decreases end - pos
  {
    assert Reaches(data, pos, end, pos);
    if pos >= end {
    } else {
      ScanByNext(data, pos, end);
      NextOutOfBounds(data, pos);
      if Next(data, pos).Ok? {
        ScanOutOfBounds(data, Next(data, pos).value, end);
        StraysByNext(data, pos, end);
      }
    }
  }

  lemma StraysByNext(data: Bytes, pos: nat, end: nat)
    requires pos < end && pos <= |data| && Next(data, pos).Ok? && pos < Next(data, pos).value
    ensures Strays(data, pos, end) <==> Strays(data, Next(data, pos).value, end)
  {
    var next := Next(data, pos).value;
    if Strays(data, next, end) {
      var q: nat :| Reaches(data, next, end, q) && |data| < q < end;
      assert Reaches(data, pos, end, q);
    }
    if Strays(data, pos, end) {
      var q: nat :| Reaches(data, pos, end, q) && |data| < q < end;
      assert Reaches(data, next, end, q);
    }
  }

  /** The last range ends at the one boundary at or after the end that the scan gets to. */
  lemma {:induction false} LastRange(data: Bytes, pos: nat, end: nat)
    requires pos < end && Scan(data, pos, end).Ok?
    ensures var r := Scan(data, pos, end).value;
      && r != [] && r[|r| - 1].1 >= end && Reaches(data, pos, end, r[|r| - 1].1)
      && forall q: nat :: Reaches(data, pos, end, q) && q >= end ==> q == r[|r| - 1].1
    decreases end - pos
  {
    ScanByNext(data, pos, end);
    var next := Next(data, pos).value;
    if next < end {
      LastRange(data, next, end);
    } else {
      assert Reaches(data, next, end, next);
    }
  }

  /** The returned ranges lie inside the data exactly when the scan settles there; in
      particular never when it was told an end past the data. */
  lemma ScanInside(data: Bytes, pos: nat, end: nat)
    requires pos < end && Scan(data, pos, end).Ok?
    ensures var r := Scan(data, pos, end).value;
      && r != []
      && (r[|r| - 1].1 <= |data| <==> Settles(data, pos, end))
      && (end > |data| ==> r[|r| - 1].1 > |data|)
  {
    LastRange(data, pos, end);
  }

  // ---- the three entry points

  lemma BoundsOutOfBounds(data: Bytes, pos: nat)
    ensures ListBounds(data, pos).OutOfBounds? <==> pos > |data|
  {
    DecodeOutOfBounds(data, pos);
  }

  lemma SkipHeaderInBounds(block: Bytes)
    ensures !SkipHeader(block).OutOfBounds?
  {
    DecodeOutOfBounds(block, 0);
    if DecodeLength(block, 0).Ok? {
      var (content, total) := DecodeLength(block, 0).value;
      PrefixIsInside(block, 0);
      DecodeOutOfBounds(block, total - content);
    }
  }

  /** The list strays between the bounds it announces. */
  ghost predicate ListStrays(data: Bytes, pos: nat) {
    ListBounds(data, pos).Ok? && Strays(data, ListBounds(data, pos).value.0, ListBounds(data, pos).value.1)
  }

  lemma ListRangesByBounds(data: Bytes)
    ensures ListRanges(data).OutOfBounds? <==>
      ListBounds(data, 0).OutOfBounds?
      || (ListBounds(data, 0).Ok? && Scan(data, ListBounds(data, 0).value.0, ListBounds(data, 0).value.1).OutOfBounds?)
  {
  }

  /** A list is indexed past its data exactly when it strays, so never when the data holds all
      that it announces. */
  lemma ListRangesOutOfBounds(data: Bytes)
    ensures ListRanges(data).OutOfBounds? <==> ListStrays(data, 0)
    ensures ListBounds(data, 0).Ok? && ListBounds(data, 0).value.1 <= |data| ==> !ListRanges(data).OutOfBounds?
  {
    ListRangesByBounds(data);
    BoundsOutOfBounds(data, 0);
    if ListBounds(data, 0).Ok? {
      ScanOutOfBounds(data, ListBounds(data, 0).value.0, ListBounds(data, 0).value.1);
    }
  }

  lemma TransactionRangesByBounds(block: Bytes)
    requires SkipHeader(block).Ok?
    ensures var pos := SkipHeader(block).value;
      TransactionRanges(block).OutOfBounds? <==>
        ListBounds(block, pos).OutOfBounds?
        || (ListBounds(block, pos).Ok? && Scan(block, ListBounds(block, pos).value.0, ListBounds(block, pos).value.1).OutOfBounds?)
  {
  }

  /** A block is indexed past its data exactly when its header announces more than there is, or
      its list of transactions strays. */
  lemma TransactionRangesOutOfBounds(block: Bytes)
    ensures TransactionRanges(block).OutOfBounds? <==>
      SkipHeader(block).Ok? && (SkipHeader(block).value > |block| || ListStrays(block, SkipHeader(block).value))
  {
    SkipHeaderInBounds(block);
    if SkipHeader(block).Ok? {
      var pos := SkipHeader(block).value;
      TransactionRangesByBounds(block);
      BoundsOutOfBounds(block, pos);
      if ListBounds(block, pos).Ok? {
        ScanOutOfBounds(block, ListBounds(block, pos).value.0, ListBounds(block, pos).value.1);
      }
    }
  }

  /** The slice that holds a whole list is never indexed past its end. */
  lemma SliceInBounds(block: Bytes, pos: nat, start: nat, end: nat, slice: Bytes)
    requires ListBounds(block, pos) == Ok((start, end)) && ListSlice(block, pos) == Ok(slice)
    ensures !ListRanges(slice).OutOfBounds?
  {
    BoundsOutOfBounds(slice, 0);
    ListRangesOutOfBounds(slice);
    if ListBounds(slice, 0).Ok? {
      BoundsInSlice(block, pos, start, end, slice);
    }
  }

  /** `AllTxOffsets` fails to index exactly when the header or the list of transactions announces
      more than the block holds or, the transactions being fine, the receipts or then the
      traces stray. */
  lemma AllTxOffsetsOutOfBounds(block: Bytes, receipts: Bytes, traces: Bytes)
    ensures AllTxOffsets(block, receipts, traces).OutOfBounds? <==>
      && SkipHeader(block).Ok?
      && var pos := SkipHeader(block).value;
      || pos > |block|
      || (ListBounds(block, pos).Ok? && ListBounds(block, pos).value.1 > |block|)
      || (ListSlice(block, pos).Ok? && ListRanges(ListSlice(block, pos).value).Ok?
          && (ListStrays(receipts, 0) || (ListRanges(receipts).Ok? && ListStrays(traces, 0))))
  {
    SkipHeaderInBounds(block);
    ListRangesOutOfBounds(receipts);
    ListRangesOutOfBounds(traces);
    if SkipHeader(block).Ok? {
      var pos := SkipHeader(block).value;
      BoundsOutOfBounds(block, pos);
      if ListSlice(block, pos).Ok? {
        SliceInBounds(block, pos, ListBounds(block, pos).value.0, ListBounds(block, pos).value.1, ListSlice(block, pos).value);
      }
    }
  }

  /** The list at `pos` settles inside the data. */
  ghost predicate ListSettles(data: Bytes, pos: nat) {
    ListBounds(data, pos).Ok? && Settles(data, ListBounds(data, pos).value.0, ListBounds(data, pos).value.1)
  }

  /** Returned ranges lie inside the data exactly when the list settles there. */
  lemma ListRangesInside(data: Bytes, ranges: seq<Range>)
    requires ListRanges(data) == Ok(ranges) && ranges != []
    ensures ranges[|ranges| - 1].1 <= |data| <==> ListSettles(data, 0)
  {
    var start, end := ListRangesParts(data, ranges);
    ScanInside(data, start, end);
  }

  lemma TransactionRangesInside(block: Bytes, ranges: seq<Range>)
    requires TransactionRanges(block) == Ok(ranges) && ranges != []
    ensures SkipHeader(block).Ok? && (ranges[|ranges| - 1].1 <= |block| <==> ListSettles(block, SkipHeader(block).value))
  {
    var pos := SkipHeader(block).value;
    ScanInside(block, ListBounds(block, pos).value.0, ListBounds(block, pos).value.1);
  }

  lemma OffsetsFields(block: Bytes, receipts: Bytes, traces: Bytes)
      returns (receiptRanges: seq<Range>, traceRanges: seq<Range>)
    requires AllTxOffsets(block, receipts, traces).Ok?
    ensures ListRanges(receipts) == Ok(receiptRanges) && ListRanges(traces) == Ok(traceRanges)
    ensures var offsets := AllTxOffsets(block, receipts, traces).value;
      && |offsets| == |receiptRanges| == |traceRanges|
      && forall i :: 0 <= i < |offsets| ==> offsets[i].receipt == receiptRanges[i] && offsets[i].trace == traceRanges[i]
  {
    receiptRanges, traceRanges := ListRanges(receipts).value, ListRanges(traces).value;
  }

  /** The offsets lie inside the block, the receipts and the traces exactly when these settle. */
  lemma AllTxOffsetsInside(block: Bytes, receipts: Bytes, traces: Bytes)
    requires AllTxOffsets(block, receipts, traces).Ok? && AllTxOffsets(block, receipts, traces).value != []
    ensures SkipHeader(block).Ok?
    ensures var offsets := AllTxOffsets(block, receipts, traces).value; var last := offsets[|offsets| - 1];
      && (last.tx.1 <= |block| <==> ListSettles(block, SkipHeader(block).value))
      && (last.receipt.1 <= |receipts| <==> ListSettles(receipts, 0))
      && (last.trace.1 <= |traces| <==> ListSettles(traces, 0))
  {
    OffsetsAgree(block, receipts, traces);
    TransactionRangesInside(block, TransactionRanges(block).value);
    var receiptRanges, traceRanges := OffsetsFields(block, receipts, traces);
    ListRangesInside(receipts, receiptRanges);
    ListRangesInside(traces, traceRanges);
  }

  /** A list that announces eight bytes and holds one: the scan fails to index, returns an
      error, or returns a range far past the data, as the one item says. */
  lemma TruncatedLists()
    ensures ListRanges([0xc8, 0x83]) == OutOfBounds
    ensures ListRanges([0xc8, 0x01]) == Err
    ensures ListRanges([0xc8, 0xa0]) == Ok([(1, 34)])
  {
    var a: Bytes, b: Bytes, c: Bytes := [0xc8, 0x83], [0xc8, 0x01], [0xc8, 0xa0];
    assert DecodeLength(a, 1) == Ok((3, 4)) && Scan(a, 5, 9) == OutOfBounds;
    assert DecodeLength(b, 1) == Ok((1, 1)) && Scan(b, 2, 9) == Err;
    assert DecodeLength(c, 1) == Ok((32, 33)) && Scan(c, 34, 9) == Ok([]);
    assert HasLength(c, 1, 33) && Scans(c, 34, 9, []);
    ScanStep(c, 1, 33, 9, []);
    assert Scans(c, 1, 9, [(1, 34)] + []);
    assert [(1, 34)] + [] == [(1, 34)];
  }
}
