/** When a sum of the RLP scanner overflows, and what a build that wraps around does then. */
module RlpOverflow {
  import opened RlpScanner
  import opened RlpBounds

  /** The total length that the item at a position announces, as a number of any size. */
  function TrueLength(data: Bytes, pos: nat): (r: Outcome<nat>)
    ensures r.Ok? ==> 0 < r.value < USIZE_LIMIT + 9
  {
    if pos > |data| then OutOfBounds
    else if pos == |data| then Err
    else
      var first := data[pos];
      if first <= 0x7f then Ok(1)
      else if first <= 0xb7 then Ok(1 + (first - 0x80))
      else if first <= 0xbf then LongLength(data, pos, first - 0xb7)
      else if first <= 0xf7 then Ok(1 + (first - 0xc0))
      else LongLength(data, pos, first - 0xf7)
  }

  function LongLength(data: Bytes, pos: nat, k: nat): (r: Outcome<nat>)
    requires 0 < k <= 8
    ensures r.Ok? ==> 0 < r.value < USIZE_LIMIT + 9
  {
    if |data| < pos + 1 + k then Err
    else
      var length :- UintOf(data, pos + 1, pos + 1 + k);
      Ok(1 + k + length)
  }

  /** The item announces an end that no `usize` can hold. */
  predicate EndsHuge(data: Bytes, pos: nat) {
    TrueLength(data, pos).Ok? && pos + TrueLength(data, pos).value >= USIZE_LIMIT
  }

  lemma DecodeOverflows(data: Bytes, pos: nat)
    ensures DecodeLength(data, pos).Overflow? <==> TrueLength(data, pos).Ok? && TrueLength(data, pos).value >= USIZE_LIMIT
    ensures DecodeLength(data, pos).Ok? ==> TrueLength(data, pos) == Ok(DecodeLength(data, pos).value.1)
    ensures TrueLength(data, pos).Ok? ==> DecodeLength(data, pos).Ok? || DecodeLength(data, pos).Overflow?
  {
  }

  lemma NextOverflows(data: Bytes, pos: nat)
    ensures Next(data, pos).Overflow? <==> EndsHuge(data, pos)
  {
    DecodeOverflows(data, pos);
  }

  // ---- a whole scan

  /** A scan gets to an item before its end that ends huge. */
  ghost predicate Bursts(data: Bytes, pos: nat, end: nat) {
    exists q: nat :: Reaches(data, pos, end, q) && q < end && EndsHuge(data, q)
  }

  lemma BurstsByNext(data: Bytes, pos: nat, end: nat)
    requires pos < end && Next(data, pos).Ok? && pos < Next(data, pos).value
    ensures Bursts(data, pos, end) <==> Bursts(data, Next(data, pos).value, end)
  {
    var next := Next(data, pos).value;
    NextOverflows(data, pos);
    if Bursts(data, next, end) {
      var q: nat :| Reaches(data, next, end, q) && q < end && EndsHuge(data, q);
      assert Reaches(data, pos, end, q);
    }
    if Bursts(data, pos, end) {
      var q: nat :| Reaches(data, pos, end, q) && q < end && EndsHuge(data, q);
      assert Reaches(data, next, end, q);
    }
  }

  /** A scan overflows exactly when it gets to an item that ends huge. */
  lemma {:induction false} ScanOverflows(data: Bytes, pos: nat, end: nat)
    ensures Scan(data, pos, end).Overflow? <==> Bursts(data, pos, end)
    decreases end - pos
  {
    if pos >= end {
    } else {
      ScanByNext(data, pos, end);
      NextOverflows(data, pos);
      if Next(data, pos).Ok? {
        ScanOverflows(data, Next(data, pos).value, end);
        BurstsByNext(data, pos, end);
      } else if EndsHuge(data, pos) {
        assert Reaches(data, pos, end, pos);
      }
    }
  }

  // ---- the three entry points

  lemma BoundsOverflow(data: Bytes, pos: nat)
    ensures ListBounds(data, pos).Overflow? <==> EndsHuge(data, pos)
  {
    DecodeOverflows(data, pos);
  }

  /** The list at a position ends huge, or an item that a scan of it gets to does. */
  ghost predicate ListBursts(data: Bytes, pos: nat) {
    || EndsHuge(data, pos)
    || (ListBounds(data, pos).Ok? && Bursts(data, ListBounds(data, pos).value.0, ListBounds(data, pos).value.1))
  }

  lemma ListRangesOverflow(data: Bytes)
    ensures ListRanges(data).Overflow? <==> ListBursts(data, 0)
  {
    BoundsOverflow(data, 0);
    if ListBounds(data, 0).Ok? {
      ScanOverflows(data, ListBounds(data, 0).value.0, ListBounds(data, 0).value.1);
    }
  }

  /** The block or its header ends huge. */
  ghost predicate HeaderBursts(block: Bytes) {
    || EndsHuge(block, 0)
    || (DecodeLength(block, 0).Ok? &&
        var (content, total) := DecodeLength(block, 0).value;
        EndsHuge(block, total - content))
  }

  lemma SkipHeaderOverflows(block: Bytes)
    ensures SkipHeader(block).Overflow? <==> HeaderBursts(block)
  {
    DecodeOverflows(block, 0);
    if DecodeLength(block, 0).Ok? {
      var (content, total) := DecodeLength(block, 0).value;
      DecodeOverflows(block, total - content);
    }
  }

  lemma TransactionRangesOverflow(block: Bytes)
    ensures TransactionRanges(block).Overflow? <==>
      HeaderBursts(block) || (SkipHeader(block).Ok? && ListBursts(block, SkipHeader(block).value))
  {
    SkipHeaderOverflows(block);
    if SkipHeader(block).Ok? {
      var pos := SkipHeader(block).value;
      BoundsOverflow(block, pos);
      if ListBounds(block, pos).Ok? {
        ScanOverflows(block, ListBounds(block, pos).value.0, ListBounds(block, pos).value.1);
      }
    }
  }

  lemma {:induction false} LastIsLargest(data: Bytes, pos: nat, end: nat, i: nat)
    requires Scan(data, pos, end).Ok? && i < |Scan(data, pos, end).value|
    ensures var r := Scan(data, pos, end).value; r[i].0 < r[i].1 <= r[|r| - 1].1
    decreases |Scan(data, pos, end).value| - i
  {
    ScanIsContiguous(data, pos, end, i);
    if i + 1 == |Scan(data, pos, end).value| {
    } else {
      LastIsLargest(data, pos, end, i + 1);
    }
  }

  /** Shifted ranges fit exactly when the last one does. */
  lemma ShiftFits(data: Bytes, ranges: seq<Range>, base: nat)
    requires ListRanges(data) == Ok(ranges) && ranges != []
    ensures InUsize(Shift(ranges, base)) <==> ranges[|ranges| - 1].1 + base < USIZE_LIMIT
  {
    var start, end := ListRangesParts(data, ranges);
    var shifted := Shift(ranges, base);
    forall i | 0 <= i < |ranges| ensures shifted[i].0 < shifted[i].1 <= shifted[|ranges| - 1].1 {
      LastIsLargest(data, start, end, i);
    }
  }

  /** The last range of a list, shifted to the list's place in the block, ends huge. */
  ghost predicate ShiftBursts(list: Bytes, pos: nat) {
    ListRanges(list).Ok? && ListRanges(list).value != [] &&
    var ranges := ListRanges(list).value;
    ranges[|ranges| - 1].1 + pos >= USIZE_LIMIT
  }

  /** Of the parts that `AllTxOffsets` scans, in this order, one ends huge after the ones before
      it were fine. */
  lemma AllTxOffsetsOverflow(block: Bytes, receipts: Bytes, traces: Bytes)
    ensures AllTxOffsets(block, receipts, traces).Overflow? <==>
      || HeaderBursts(block)
      || (SkipHeader(block).Ok? && EndsHuge(block, SkipHeader(block).value))
      || (SkipHeader(block).Ok? && ListSlice(block, SkipHeader(block).value).Ok? &&
          var pos := SkipHeader(block).value; var list := ListSlice(block, pos).value;
          || ListBursts(list, 0)
          || (ListRanges(list).Ok? && ListBursts(receipts, 0))
          || (ListRanges(list).Ok? && ListRanges(receipts).Ok? && ListBursts(traces, 0))
          || (ListRanges(receipts).Ok? && ListRanges(traces).Ok? && ShiftBursts(list, pos)))
  {
    SkipHeaderOverflows(block);
    ListRangesOverflow(receipts);
    ListRangesOverflow(traces);
    if SkipHeader(block).Ok? {
      var pos := SkipHeader(block).value;
      BoundsOverflow(block, pos);
      if ListSlice(block, pos).Ok? {
        var list := ListSlice(block, pos).value;
        ListRangesOverflow(list);
        if ListRanges(list).Ok? && ListRanges(list).value != [] {
          ShiftFits(list, ListRanges(list).value, pos);
        }
      }
    }
  }

  // ---- a build that wraps around

  /** The position after the item, with sums that wrap around. */
  function WrappedNext(data: Bytes, pos: nat): Outcome<nat> {
    var length :- TrueLength(data, pos);
    Ok((pos + length % USIZE_LIMIT) % USIZE_LIMIT)
  }

  /** The position after `n` turns of the scan loop. */
  function Turns(data: Bytes, pos: nat, end: nat, n: nat): Outcome<nat>
    decreases n
  {
    if n == 0 || pos >= end then Ok(pos)
    else
      var next :- WrappedNext(data, pos);
      Turns(data, next, end, n - 1)
  }

  /** Without an overflow the two builds agree. */
  lemma WrappedNextAgrees(data: Bytes, pos: nat)
    requires !EndsHuge(data, pos)
    ensures WrappedNext(data, pos) == Next(data, pos)
  {
    DecodeOverflows(data, pos);
    if TrueLength(data, pos).Ok? {
      var length := TrueLength(data, pos).value;
      assert length % USIZE_LIMIT == length && (pos + length) % USIZE_LIMIT == pos + length;
    }
  }

  /** A turn of the loop makes no progress exactly when the item announces a total length of
      2^64 bytes. */
  lemma NoProgressIff(data: Bytes, pos: nat)
    requires pos < USIZE_LIMIT
    ensures WrappedNext(data, pos) == Ok(pos) <==> TrueLength(data, pos) == Ok(USIZE_LIMIT)
  {
    if TrueLength(data, pos).Ok? {
      var length := TrueLength(data, pos).value;
      if length < USIZE_LIMIT {
        WrapBelow(pos, length);
      } else if length == USIZE_LIMIT {
        assert length % USIZE_LIMIT == 0;
      } else {
        assert length % USIZE_LIMIT == length - USIZE_LIMIT;
        WrapBelow(pos, length - USIZE_LIMIT);
      }
    }
  }

  lemma WrapBelow(pos: nat, length: nat)
    requires pos < USIZE_LIMIT && 0 < length < USIZE_LIMIT
    ensures length % USIZE_LIMIT == length && (pos + length) % USIZE_LIMIT != pos
  {
    if pos + length >= USIZE_LIMIT {
      assert (pos + length) % USIZE_LIMIT == pos + length - USIZE_LIMIT;
    }
  }

  /** A scan that gets to an item of 2^64 bytes before its end never comes to an end: after any
      number of turns the position is still before it. */
  lemma {:induction false} WrappedScanRunsForEver(data: Bytes, pos: nat, end: nat, q: nat, n: nat)
    requires Reaches(data, pos, end, q) && q < end && q < USIZE_LIMIT && TrueLength(data, q) == Ok(USIZE_LIMIT)
    ensures Turns(data, pos, end, n).Ok? && Turns(data, pos, end, n).value < end
    decreases n
  {
    if n == 0 {
    } else if q == pos {
      NoProgressIff(data, pos);
      WrappedScanRunsForEver(data, pos, end, q, n - 1);
    } else {
      NextOverflows(data, pos);
      WrappedNextAgrees(data, pos);
      WrappedScanRunsForEver(data, Next(data, pos).value, end, q, n - 1);
    }
  }

  /** Ten bytes: a list that holds the first nine bytes of an item of 2^64.  With overflow checks
      the scanner panics, without them it does not return. */
  lemma ListOfHugeItem(n: nat)
    ensures var data: Bytes := [0xc9, 0xbf, 0xff, 0xff, 0xff, 0xff, 0xff, 0xff, 0xff, 0xf7];
      && ListRanges(data).Overflow? && ListBounds(data, 0) == Ok((1, 10))
      && Turns(data, 1, 10, n).Ok? && Turns(data, 1, 10, n).value < 10
  {
    var data: Bytes := [0xc9, 0xbf, 0xff, 0xff, 0xff, 0xff, 0xff, 0xff, 0xff, 0xf7];
    assert Value(data, 2, 6) == 0xffff_ffff;
    assert Value(data, 2, 10) == USIZE_LIMIT - 9;
    assert TrueLength(data, 1) == Ok(USIZE_LIMIT);
    assert Reaches(data, 1, 10, 1) && EndsHuge(data, 1);
    ListRangesOverflow(data);
    WrappedScanRunsForEver(data, 1, 10, 1, n);
  }
}
