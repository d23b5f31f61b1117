/** The rolling window of block records: its writer in onblock and its reader for other contracts. */
module BlockInfo {
  import opened Common
  import opened Powers

  const WINDOW: nat := 10

  datatype Record = Record(version: nat, height: nat, timestamp: int)

  // The table in primary-key order.
  type Table = seq<Record>

  ghost predicate Ordered(t: Table) {
    forall i, j :: 0 <= i < j < |t| ==> t[i].height < t[j].height
  }

  ghost predicate Has(t: Table, height: nat) {
    exists i :: 0 <= i < |t| && t[i].height == height
  }

  // Heights up to this one may be erased.
  function Prunable(height: nat): (h: nat)
    ensures h <= height
  {
    (if height > WINDOW then height else WINDOW) - WINDOW
  }

  // The row goes to its place in the order; a row of the same height aborts the action.
  function Insert(t: Table, r: Record): Table {
    if t == [] || r.height < t[0].height then [r] + t else [t[0]] + Insert(t[1..], r)
  }

  function Prune(t: Table, last: nat, count: nat): Table {
    if count > 0 && t != [] && t[0].height <= last then Prune(t[1..], last, count - 1) else t
  }

  ghost function Add(t: Table, height: nat, timestamp: int): Option<Table> {
    if Has(t, height) then None
    else Some(Prune(Insert(t, Record(0, height, timestamp)), Prunable(height), 2))
  }

  // ---- the writer ----

  ghost predicate TableOk(t: Table) {
    Ordered(t) && |t| <= WINDOW && forall i :: 0 <= i < |t| ==> t[i].version == 0 && 0 < t[i].height
  }

  // Heights only grow; failed onblock actions leave gaps.
  ghost predicate Later(t: Table, height: nat) {
    0 < height && forall i :: 0 <= i < |t| ==> t[i].height < height
  }

  lemma {:induction false} InsertLast(t: Table, r: Record)
    requires Later(t, r.height)
    ensures Insert(t, r) == t + [r]
  {
    if t != [] {
      InsertLast(t[1..], r);
    }
  }

  // u is t without its first k rows; they are prunable, and only the count stops the pruning early.
  ghost predicate Drops(t: Table, u: Table, last: nat, count: nat, k: nat) {
    && k <= count && k <= |t| && u == t[k..]
    && (forall i :: 0 <= i < k ==> t[i].height <= last)
    && (k < count && k < |t| ==> t[k].height > last)
  }

  lemma {:induction false} PruneDrops(t: Table, last: nat, count: nat) returns (k: nat)
    ensures Drops(t, Prune(t, last, count), last, count, k)
  {
    if count > 0 && t != [] && t[0].height <= last {
      k := PruneDrops(t[1..], last, count - 1);
      assert t[1..][k..] == t[k + 1..];
      assert forall i :: 1 <= i < k + 1 ==> t[i] == t[1..][i - 1];
      k := k + 1;
    } else {
      k := 0;
    }
  }

  // Distinct heights: ten rows below the newest one reach out of the window.
  lemma {:induction false} HeightsSpread(t: Table, i: nat)
    requires Ordered(t) && i < |t|
    ensures t[i].height >= t[0].height + i
  {
    if i > 0 {
      HeightsSpread(t, i - 1);
    }
  }

  /**
   * Recording a block keeps at most ten rows, adds the block, and erases no row of the window.
   */
  lemma AddKeeps(t: Table, height: nat, timestamp: int)
    requires TableOk(t) && Later(t, height)
    ensures Add(t, height, timestamp).Some?
    ensures var u := Add(t, height, timestamp).value;
            && TableOk(u) && u != [] && u[|u| - 1] == Record(0, height, timestamp)
            && (forall r :: r in t && r.height > Prunable(height) ==> r in u)
            && (forall r :: r in u ==> r in t || r == Record(0, height, timestamp))
  {
    hide Insert, Prune;
    var r := Record(0, height, timestamp);
    InsertLast(t, r);
    var k := PruneDrops(t + [r], Prunable(height), 2);
    WindowFits(t, r, k);
    KeepsWindow(t, r, k);
  }

  /** It erases the two oldest rows that have left the window, or as many of them as there are. */
  lemma ErasesTwo(t: Table, height: nat, timestamp: int)
    requires TableOk(t) && Later(t, height)
    ensures Add(t, height, timestamp).Some?
    ensures exists k: nat :: Erased(t, Add(t, height, timestamp).value, height, timestamp, k)
  {
    hide Insert, Prune, Erased;
    assert !Has(t, height);
    var r := Record(0, height, timestamp);
    InsertLast(t, r);
    var k := PruneDrops(t + [r], Prunable(height), 2);
    DropsErase(t, r, k);
  }

  lemma DropsErase(t: Table, r: Record, k: nat)
    requires TableOk(t) && Later(t, r.height) && r.version == 0
    requires Drops(t + [r], Prune(t + [r], Prunable(r.height), 2), Prunable(r.height), 2, k)
    ensures Erased(t, Prune(t + [r], Prunable(r.height), 2), r.height, r.timestamp, k)
  {
    hide Prune;
    var full := t + [r];
    assert full[|t|] == r && r.height > Prunable(r.height);
    assert forall i :: 0 <= i < |t| ==> full[i] == t[i];
  }

  // The k oldest rows have left the window; with fewer than two of them no other row has.
  ghost predicate Erased(t: Table, u: Table, height: nat, timestamp: int, k: nat) {
    && k <= 2 && k <= |t| && u == t[k..] + [Record(0, height, timestamp)]
    && (forall i :: 0 <= i < k ==> t[i].height <= height - 10)
    && (k < 2 ==> forall i :: k <= i < |t| ==> t[i].height > height - 10)
  }

  // Eleven rows cannot all lie in the window, so the pruning makes room.
  lemma WindowFits(t: Table, r: Record, k: nat)
    requires TableOk(t) && Later(t, r.height) && r.version == 0
    requires Drops(t + [r], Prune(t + [r], Prunable(r.height), 2), Prunable(r.height), 2, k)
    ensures k <= |t| && (forall i :: 0 <= i < k ==> t[i].height <= Prunable(r.height))
    ensures TableOk((t + [r])[k..])
  {
    hide Prune;
    var full := t + [r];
    assert full[|t|] == r && r.height > Prunable(r.height);
    assert forall i :: 0 <= i < |t| ==> full[i] == t[i];
    if |t| == WINDOW {
      HeightsSpread(t, WINDOW - 1);
      assert full[0] == t[0];
    }
    SuffixOk(full, k);
  }

  lemma SuffixOk(t: Table, k: nat)
    requires Ordered(t) && k <= |t| <= WINDOW + k
    requires forall i :: 0 <= i < |t| ==> t[i].version == 0 && 0 < t[i].height
    ensures TableOk(t[k..])
  {}

  lemma KeepsWindow(t: Table, r: Record, k: nat)
    requires k <= |t| && forall i :: 0 <= i < k ==> t[i].height <= Prunable(r.height)
    ensures var u := (t + [r])[k..];
            && u[|u| - 1] == r
            && (forall x :: x in t && x.height > Prunable(r.height) ==> x in u)
            && (forall x :: x in u ==> x in t || x == r)
  {
    var u := (t + [r])[k..];
    forall x | x in t && x.height > Prunable(r.height) ensures x in u {
      var i :| 0 <= i < |t| && t[i] == x;
      assert u[i - k] == x;
    }
  }

  // ---- histories of recorded blocks ----

  datatype Block = Block(height: nat, timestamp: int)

  ghost predicate Increasing(blocks: seq<Block>) {
    && (forall i :: 0 <= i < |blocks| ==> 0 < blocks[i].height)
    && (forall i, j :: 0 <= i < j < |blocks| ==> blocks[i].height < blocks[j].height)
  }

  ghost function Recorded(blocks: seq<Block>, n: nat): Table
    requires n <= |blocks|
  {
    if n == 0 then []
    else
      match Add(Recorded(blocks, n - 1), blocks[n - 1].height, blocks[n - 1].timestamp)
      case Some(t) => t
      case None => Recorded(blocks, n - 1)
  }

  function RecordOf(b: Block): Record {
    Record(0, b.height, b.timestamp)
  }

  /** After any blocks, with gaps or without: at most ten rows, all of them blocks, none of the window missing. */
  lemma {:induction false} WindowHolds(blocks: seq<Block>, n: nat)
    requires n <= |blocks| && Increasing(blocks)
    ensures TableOk(Recorded(blocks, n))
    ensures forall r :: r in Recorded(blocks, n) ==> exists i :: 0 <= i < n && RecordOf(blocks[i]) == r
    ensures n > 0 ==> forall i :: 0 <= i < n && blocks[i].height > Prunable(blocks[n - 1].height) ==>
              RecordOf(blocks[i]) in Recorded(blocks, n)
    ensures n > 0 ==>
              |Recorded(blocks, n)| > 0 && Recorded(blocks, n)[|Recorded(blocks, n)| - 1] == RecordOf(blocks[n - 1])
  {
    hide TableOk, Add;
    if n == 0 {
      assert TableOk([]) by {
        EmptyOk();
      }
    } else {
      WindowHolds(blocks, n - 1);
      var t, b := Recorded(blocks, n - 1), blocks[n - 1];
      forall i | 0 <= i < |t| ensures t[i].height < b.height {
        assert t[i] in t;
      }
      AddKeeps(t, b.height, b.timestamp);
      var u := Recorded(blocks, n);
      forall i | 0 <= i < n && blocks[i].height > Prunable(b.height) ensures RecordOf(blocks[i]) in u {
        if i == n - 1 {
          assert u[|u| - 1] == RecordOf(b);
        } else {
          assert Prunable(blocks[n - 2].height) <= Prunable(b.height);
        }
      }
    }
  }

  lemma EmptyOk()
    ensures TableOk([])
  {}

  lemma {:induction false} BlocksSpread(blocks: seq<Block>, i: nat, j: nat)
    requires Increasing(blocks) && i <= j < |blocks|
    ensures blocks[j].height >= blocks[i].height + (j - i)
  {
    if i < j {
      BlocksSpread(blocks, i, j - 1);
    }
  }

  // Nothing lies between two neighbouring heights.
  lemma Neighbour(t: Table, i: nat, r: Record)
    requires Ordered(t) && 0 < i < |t| && r in t && r.height == t[i].height - 1
    ensures t[i - 1] == r
  {
    var j :| 0 <= j < |t| && t[j] == r;
  }

  lemma {:induction false} FromEnd(blocks: seq<Block>, n: nat, j: nat)
    requires WINDOW <= n <= |blocks| && Increasing(blocks) && j < WINDOW
    requires blocks[n - 1].height == blocks[n - WINDOW].height + WINDOW - 1
    ensures var t := Recorded(blocks, n);
            j < |t| && t[|t| - 1 - j] == RecordOf(blocks[n - 1 - j])
    ensures blocks[n - 1 - j].height == blocks[n - 1].height - j
  {
    hide Recorded;
    WindowHolds(blocks, n);
    BlocksSpread(blocks, n - WINDOW, n - 1 - j);
    BlocksSpread(blocks, n - 1 - j, n - 1);
    if j > 0 {
      FromEnd(blocks, n, j - 1);
      var t, r := Recorded(blocks, n), RecordOf(blocks[n - 1 - j]);
      assert blocks[n - 1 - j].height > Prunable(blocks[n - 1].height);
      var k :| 0 <= k < |t| && t[k] == r;
      assert k < |t| - j;
      Neighbour(t, |t| - j, r);
    }
  }

  /** Ten consecutive blocks leave exactly their own ten rows, whatever was there before. */
  lemma TenConsecutive(blocks: seq<Block>, n: nat)
    requires WINDOW <= n <= |blocks| && Increasing(blocks)
    requires blocks[n - 1].height == blocks[n - WINDOW].height + WINDOW - 1
    ensures |Recorded(blocks, n)| == WINDOW
    ensures forall i :: 0 <= i < WINDOW ==> Recorded(blocks, n)[i] == RecordOf(blocks[n - WINDOW + i])
    ensures forall i :: 0 <= i < WINDOW ==> Recorded(blocks, n)[i].height == blocks[n - 1].height - (WINDOW - 1) + i
  {
    hide Recorded;
    WindowHolds(blocks, n);
    FromEnd(blocks, n, WINDOW - 1);
    forall i | 0 <= i < WINDOW
      ensures Recorded(blocks, n)[i] == RecordOf(blocks[n - WINDOW + i])
      ensures Recorded(blocks, n)[i].height == blocks[n - 1].height - (WINDOW - 1) + i
    {
      FromEnd(blocks, n, WINDOW - 1 - i);
    }
  }

  // ---- the reader ----

  datatype BatchInfo = BatchInfo(startHeight: nat, startTimestamp: int, endHeight: nat, endTimestamp: int)

  datatype Error = InvalidInput | UnsupportedVersion | InsufficientData

  function Find(t: Table, height: nat): (i: nat)
    ensures i <= |t| && (i < |t| ==> t[i].height == height)
    ensures i == |t| ==> forall j :: 0 <= j < |t| ==> t[j].height != height
  {
    if t == [] || t[0].height == height then 0 else 1 + Find(t[1..], height)
  }

  function BatchStart(latest: nat, offset: nat, size: nat): nat
    requires size > 0 && offset <= latest
  {
    latest - (latest - offset) % size
  }

  function LatestBatch(t: Table, offset: nat, size: nat): Result<BatchInfo, Error> {
    if size == 0 then Err(InvalidInput)
    else if t == [] then Err(InsufficientData)
    else
      var latest := t[|t| - 1];
      if latest.version != 0 then Err(UnsupportedVersion)
      else if latest.height < offset then Err(InsufficientData)
      else
        var start := BatchStart(latest.height, offset, size);
        if start == latest.height then Ok(BatchInfo(start, latest.timestamp, latest.height, latest.timestamp))
        else
          var i := Find(t, start);
          if i == |t| then Err(InsufficientData)
          else if t[i].version != 0 then Err(UnsupportedVersion)
          else Ok(BatchInfo(start, t[i].timestamp, latest.height, latest.timestamp))
  }

  // The batches of this size that have one starting at the offset partition the heights from there on;
  // this is the one that the latest height falls in.
  ghost predicate IsLatestStart(start: int, latest: nat, offset: nat, size: nat) {
    size > 0 && offset <= start <= latest < start + size && (start - offset) % size == 0
  }

  lemma StartIsLatest(start: int, latest: nat, offset: nat, size: nat)
    requires size > 0 && offset <= latest
    ensures IsLatestStart(start, latest, offset, size) <==> start == BatchStart(latest, offset, size)
  {
    var d := latest - offset;
    var q := d / size;
    assert d == size * q + d % size;
    DivUnique(size * q, size, q, 0);
    if IsLatestStart(start, latest, offset, size) {
      var p := (start - offset) / size;
      assert start - offset == size * p;
      DivUnique(d, size, p, latest - start);
    }
  }

  ghost predicate Describes(t: Table, r: BatchInfo) {
    && Record(0, r.startHeight, r.startTimestamp) in t
    && |t| > 0 && t[|t| - 1] == Record(0, r.endHeight, r.endTimestamp)
  }

  /**
   * On a table of the writer the reader succeeds exactly when the batch of the latest height exists
   * and its first block is still recorded; it then returns that batch and the two recorded times.
   */
  lemma LatestBatchExact(t: Table, offset: nat, size: nat)
    requires TableOk(t)
    ensures LatestBatch(t, offset, size).Ok? <==>
              && size > 0 && t != []
              && exists start: nat :: IsLatestStart(start, t[|t| - 1].height, offset, size) && Has(t, start)
    ensures LatestBatch(t, offset, size).Ok? ==>
              var r := LatestBatch(t, offset, size).value;
              IsLatestStart(r.startHeight, t[|t| - 1].height, offset, size) && Describes(t, r)
    ensures LatestBatch(t, offset, size) == Err(InvalidInput) <==> size == 0
    ensures LatestBatch(t, offset, size) != Err(UnsupportedVersion)
  {
    hide IsLatestStart, BatchStart;
    if size > 0 && t != [] {
      var latest := t[|t| - 1];
      assert Has(t, latest.height) && latest in t;
      if offset <= latest.height {
        var start := BatchStart(latest.height, offset, size);
        forall x ensures IsLatestStart(x, latest.height, offset, size) <==> x == start {
          StartIsLatest(x, latest.height, offset, size);
        }
        var i := Find(t, start);
        assert i < |t| ==> t[i] in t && Has(t, start);
      } else {
        NoStart(latest.height, offset, size);
      }
    }
  }

  lemma NoStart(latest: nat, offset: nat, size: nat)
    requires latest < offset
    ensures forall x: nat :: !IsLatestStart(x, latest, offset, size)
  {}

  /** After ten consecutive blocks every batch of one to ten blocks can be read. */
  lemma WriterServesReader(blocks: seq<Block>, n: nat, offset: nat, size: nat)
    requires WINDOW <= n <= |blocks| && Increasing(blocks)
    requires blocks[n - 1].height == blocks[n - WINDOW].height + WINDOW - 1
    requires 1 <= size <= WINDOW && offset <= blocks[n - 1].height
    ensures LatestBatch(Recorded(blocks, n), offset, size).Ok?
    ensures var r := LatestBatch(Recorded(blocks, n), offset, size).value;
            && r.endHeight == blocks[n - 1].height && r.endTimestamp == blocks[n - 1].timestamp
            && IsLatestStart(r.startHeight, r.endHeight, offset, size)
            && exists i :: n - WINDOW <= i < n && blocks[i] == Block(r.startHeight, r.startTimestamp)
  {
    hide Recorded, LatestBatch, IsLatestStart, BatchStart;
    var t, latest := Recorded(blocks, n), blocks[n - 1].height;
    WindowHolds(blocks, n);
    TenConsecutive(blocks, n);
    LatestBatchExact(t, offset, size);
    var start := BatchStart(latest, offset, size);
    StartIsLatest(start, latest, offset, size);
    StartInWindow(start, latest, offset, size);
    var i := WINDOW - 1 - (latest - start);
    assert t[i].height == start && Has(t, start);
    var r := LatestBatch(t, offset, size).value;
    StartIsLatest(r.startHeight, latest, offset, size);
    assert t[i] == Record(0, r.startHeight, r.startTimestamp) by {
      var k :| 0 <= k < |t| && t[k] == Record(0, r.startHeight, r.startTimestamp);
    }
    assert blocks[n - WINDOW + i] == Block(r.startHeight, r.startTimestamp);
  }

  lemma StartInWindow(start: int, latest: nat, offset: nat, size: nat)
    requires IsLatestStart(start, latest, offset, size) && size <= WINDOW
    ensures 0 <= latest - start <= WINDOW - 1
  {}

  lemma {:induction false} InsertAt(t: Table, r: Record, at: nat)
    requires at <= |t| && forall i :: 0 <= i < at ==> t[i].height <= r.height
    requires at < |t| ==> r.height < t[at].height
    ensures Insert(t, r) == t[..at] + [r] + t[at..]
  {
    if at > 0 {
      InsertAt(t[1..], r, at - 1);
      assert t == [t[0]] + t[1..];
    }
  }

  /** The blockinfo table as onblock updates it. */
  class BlockInfoTable {
    var rows: Table

    constructor ()
      ensures rows == []
    {
      rows := [];
    }

    /** add_to_blockinfo_table: emplace, then erase from the front up to twice. */
    method AddBlock(height: nat, timestamp: int) returns (ok: bool)
      modifies this
      ensures ok <==> Add(old(rows), height, timestamp).Some?
      ensures rows == if ok then Add(old(rows), height, timestamp).value else old(rows)
    {
      hide Insert;
      ok := Find(rows, height) == |rows|;
      if ok {
        var at := 0;
        while at < |rows| && rows[at].height <= height
          invariant at <= |rows| && forall i :: 0 <= i < at ==> rows[i].height <= height
        {
          at := at + 1;
        }
        InsertAt(rows, Record(0, height, timestamp), at);
        rows := rows[..at] + [Record(0, height, timestamp)] + rows[at..];
        ghost var full := rows;
        var last := (if height > WINDOW then height else WINDOW) - WINDOW;
        var count := 2;
        while rows != [] && rows[0].height <= last && 0 < count
          invariant 0 <= count && Prune(rows, last, count) == Prune(full, last, 2)
          decreases count
        {
          rows := rows[1..];
          count := count - 1;
        }
      }
    }
  }
}
