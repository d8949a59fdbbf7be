/** The report that observeERC20Deposit makes of a scan (internal/platform/workers/chain_observer.go), and when a scan
    and a report are complete. */
module DepositReport {
  import opened Sums
  import opened Words
  import opened LogScan

  // ---- Chunks ----

  /** Windows counted down from the head. Block 0 belongs to the window of block 1. */
  function ChunkOf(latest: uint64, chainName: string, block: int): int {
    (latest as int - (if block == 0 && latest > 0 then 1 else block)) / ChunkSize(chainName) as int
  }

  lemma {:induction false} TimesIs(k: nat, chunk: int)
    requires chunk == 1000 || chunk == 10000
    ensures Times(k, chunk) == if chunk == 1000 then 1000 * k else 10000 * k
  {
    if k > 0 { TimesIs(k - 1, chunk); }
  }

  /** Windows above the last are whole chunks, so the k-th window ends k chunks below the head. */
  lemma {:induction false} WindowEnds(windows: seq<Window>, floor: uint64, latest: uint64, chunkSize: uint64)
    requires Tiling(windows, latest) && chunkSize > 1
    requires forall w | w in windows :: Shaped(w, floor, chunkSize)
    requires forall w | w in windows[..|windows| - 1] :: w.lo > floor
    ensures Last(windows).hi as int == latest as int - Times(|windows| - 1, chunkSize as int)
    ensures |windows| > 1 ==> Last(windows).hi > 0
  {
    if |windows| > 1 {
      var above := windows[..|windows| - 1];
      assert above[..|above| - 1] <= above;
      WindowEnds(above, floor, latest, chunkSize);
      assert Last(above) in above && Last(above) in windows;
      assert Last(windows).hi as int == Last(above).lo as int - 1;
    }
  }

  /** A block is below the last window, in it or above it as its chunk number is larger, equal or smaller. */
  lemma ChunkOfBlock(node: Node, chainName: string, latest: uint64, windows: seq<Window>, block: int)
    requires Scanned(node, chainName, latest, windows)
    requires Floor(latest) as int <= block <= latest as int
    ensures block < Last(windows).lo as int <==> ChunkOf(latest, chainName, block) > |windows| - 1
    ensures block > Last(windows).hi as int <==> ChunkOf(latest, chainName, block) < |windows| - 1
  {
    var n, last := |windows| - 1, Last(windows);
    WindowEnds(windows, Floor(latest), latest, ChunkSize(chainName));
    TimesIs(n, ChunkSize(chainName) as int);
    assert last in windows;
    BelowHead(windows, latest);
  }

  // ---- Complete scans ----

  lemma {:induction false} RangeEmptyIff(node: Node, lo: int, hi: int)
    ensures Range(node, lo, hi) == [] <==> forall b | lo <= b <= hi :: node.logs(b) == []
    decreases hi - lo
  {
    if lo <= hi { RangeEmptyIff(node, lo, hi - 1); }
  }

  predicate HasLogs(node: Node, latest: uint64, block: int) {
    Floor(latest) as int <= block <= latest as int && node.logs(block) != []
  }

  /** All matching blocks of the range fall in one chunk counted from the head. */
  ghost predicate OneChunk(node: Node, chainName: string, latest: uint64) {
    forall b, c | HasLogs(node, latest, b) && HasLogs(node, latest, c) ::
      ChunkOf(latest, chainName, b) == ChunkOf(latest, chainName, c)
  }

  /** A matching block is in the last window or below it, since the windows above are empty. */
  lemma MatchingBlock(node: Node, chainName: string, latest: uint64, windows: seq<Window>, block: int)
    requires Scanned(node, chainName, latest, windows) && HasLogs(node, latest, block)
    ensures block <= Last(windows).hi as int
    ensures block >= Last(windows).lo as int <==> ChunkOf(latest, chainName, block) == |windows| - 1
  {
    ChunkOfBlock(node, chainName, latest, windows, block);
    if block > Last(windows).hi as int {
      WindowsPartition(windows, latest, block);
      var i :| 0 <= i < |windows| && windows[i].lo as int <= block <= windows[i].hi as int;
      assert i != |windows| - 1 && windows[i] in windows[..|windows| - 1];
      RangeEmptyIff(node, windows[i].lo as int, windows[i].hi as int);
      assert false;
    }
  }

  /** A scan that found something has a matching block in its last window. */
  lemma FoundBlock(node: Node, windows: seq<Window>) returns (block: int)
    requires windows != [] && Within(node, Last(windows)) != []
    ensures Last(windows).lo as int <= block <= Last(windows).hi as int && node.logs(block) != []
  {
    RangeEmptyIff(node, Last(windows).lo as int, Last(windows).hi as int);
    block :| Last(windows).lo as int <= block <= Last(windows).hi as int && node.logs(block) != [];
  }

  /** What a successful scan returns: everything from its last window up, and nothing only if there is nothing. */
  lemma ScanReturnsNewest(node: Node, chainName: string, latest: uint64, windows: seq<Window>)
    requires Scanned(node, chainName, latest, windows) && !node.fails(Last(windows))
    ensures Within(node, Last(windows)) == Range(node, Last(windows).lo as int, latest as int)
    ensures Within(node, Last(windows)) == [] <==> Range(node, Floor(latest) as int, latest as int) == []
    ensures Range(node, Floor(latest) as int, latest as int)
            == Range(node, Floor(latest) as int, Last(windows).lo as int - 1) + Within(node, Last(windows))
  {
    assert Last(windows) in windows;
    NewestFirst(node, windows, latest);
    BelowHead(windows, latest);
    RangeSplit(node, Floor(latest) as int, Last(windows).lo as int - 1, latest as int);
    if Last(windows).lo == Floor(latest) {
      assert Range(node, Floor(latest) as int, Floor(latest) as int - 1) == [];
    }
  }

  /** A successful scan is complete exactly when all matching blocks fall in one chunk. */
  lemma ScanIsCompleteIff(node: Node, chainName: string, latest: uint64, windows: seq<Window>)
    requires Scanned(node, chainName, latest, windows) && !node.fails(Last(windows))
    ensures Within(node, Last(windows)) == Range(node, Floor(latest) as int, latest as int)
            <==> OneChunk(node, chainName, latest)
  {
    ScanReturnsNewest(node, chainName, latest, windows);
    RangeEmptyIff(node, Floor(latest) as int, Last(windows).lo as int - 1);
    forall b | HasLogs(node, latest, b) { MatchingBlock(node, chainName, latest, windows, b); }
    if OneChunk(node, chainName, latest) && Within(node, Last(windows)) != [] {
      var found := FoundBlock(node, windows);
      assert Last(windows) in windows;
      BelowHead(windows, latest);
      assert HasLogs(node, latest, found);
      assert forall b | HasLogs(node, latest, b) :: ChunkOf(latest, chainName, b) == ChunkOf(latest, chainName, found);
      forall b | Floor(latest) as int <= b <= Last(windows).lo as int - 1 ensures node.logs(b) == [] {
        assert node.logs(b) != [] <==> HasLogs(node, latest, b);
      }
    }
  }

  /** The newest matching block decides where the scan stops. */
  lemma StopsAtNewest(node: Node, chainName: string, latest: uint64, windows: seq<Window>, newest: int)
    requires Scanned(node, chainName, latest, windows) && !node.fails(Last(windows))
    requires HasLogs(node, latest, newest) && forall b | HasLogs(node, latest, b) :: b <= newest
    ensures |windows| - 1 == ChunkOf(latest, chainName, newest)
    ensures Last(windows).lo as int <= newest <= Last(windows).hi as int
  {
    MatchingBlock(node, chainName, latest, windows, newest);
    if Within(node, Last(windows)) != [] {
      assert Last(windows) in windows;
      BelowHead(windows, latest);
      var found := FoundBlock(node, windows);
      assert HasLogs(node, latest, found);
    }
  }

  // ---- The fold in observeERC20Deposit ----

  /** The amount of a Transfer log is its data as one number. */
  function TotalData(logs: seq<Log>): nat {
    if logs == [] then 0 else TotalData(logs[..|logs| - 1]) + BigEndian(logs[|logs| - 1].data)
  }

  lemma {:induction false} TotalDataConcat(a: seq<Log>, b: seq<Log>)
    ensures TotalData(a + b) == TotalData(a) + TotalData(b)
  {
    if b != [] {
      var n := |b| - 1;
      TotalDataConcat(a, b[..n]);
      assert (a + b)[..|a| + n] == a + b[..n];
    } else {
      assert a + b == a;
    }
  }

  datatype DepositReport = DepositReport(tx: string, total: nat, confirmations: int)

  const MAX_INT: int := 0x7fff_ffff_ffff_ffff

  function Confirmations(log: Log, latest: uint64): int {
    latest as int - log.block as int + 1
  }

  /** `n` is the number of confirmations of the most recent log that carries an amount. */
  ghost predicate LeastConfirmed(logs: seq<Log>, latest: uint64, n: int) {
    && (exists k | 0 <= k < |logs| :: logs[k].data != [] && Confirmations(logs[k], latest) == n)
    && forall k | 0 <= k < |logs| && logs[k].data != [] :: n <= Confirmations(logs[k], latest)
  }

  lemma {:induction false} RangeBlocks(node: Node, lo: int, hi: int)
    requires WellFormed(node)
    ensures forall log | log in Range(node, lo, hi) :: lo <= log.block as int <= hi
    decreases hi - lo
  {
    if lo <= hi {
      RangeBlocks(node, lo, hi - 1);
    }
  }

  /** Adding one to a 64-bit word, as Go does. */
  function Next(x: uint64): uint64 {
    ((x as int + 1) % 0x1_0000_0000_0000_0000) as uint64
  }

  method Fold(logs: seq<Log>, latest: uint64) returns (report: Option<DepositReport>)
    requires forall log | log in logs :: log.block <= latest && latest - log.block <= SCAN_DEPTH
    ensures report.Some? <==> TotalData(logs) > 0
    ensures report.Some? ==> report.value.total == TotalData(logs)
    ensures report.Some? ==> report.value.tx == logs[|logs| - 1].tx
    ensures report.Some? ==> LeastConfirmed(logs, latest, report.value.confirmations)
    ensures report.Some? ==>
      && (exists k | 0 <= k < |logs| ::
            logs[k].data != [] && report.value.confirmations == latest as int - logs[k].block as int + 1)
      && forall k | 0 <= k < |logs| && logs[k].data != [] ::
           report.value.confirmations <= latest as int - logs[k].block as int + 1
  {
    if |logs| == 0 { return None; }
    var total := 0;
    var confirmations := MAX_INT;
    var txHash := logs[|logs| - 1].tx;
    for i := 0 to |logs|
      invariant total == TotalData(logs[..i])
      invariant total > 0 ==> confirmations < MAX_INT
      invariant if confirmations < MAX_INT then LeastConfirmed(logs[..i], latest, confirmations)
                else confirmations == MAX_INT && forall k | 0 <= k < i :: logs[k].data == []
    {
      assert logs[..i + 1][..i] == logs[..i];
      ghost var seen := logs[..i + 1];
      assert seen[i] == logs[i];
      if logs[i].data != [] {
        total := total + BigEndian(logs[i].data);
        assert logs[i] in logs;
        var confs := Next(latest - logs[i].block) as int;
        ghost var before := confirmations;
        if confs < confirmations { confirmations := confs; }
        LeastConfirmedStep(logs, latest, i, before, confirmations);
      } else {
        LeastConfirmedSkip(logs, latest, i, confirmations);
      }
    }
    assert logs[..|logs|] == logs;
    if total <= 0 || confirmations == MAX_INT { return None; }
    return Some(DepositReport(txHash, total, confirmations));
  }

  lemma LeastConfirmedStep(logs: seq<Log>, latest: uint64, i: nat, before: int, after: int)
    requires i < |logs| && logs[i].data != []
    requires after == if Confirmations(logs[i], latest) < before then Confirmations(logs[i], latest) else before
    requires if before < MAX_INT then LeastConfirmed(logs[..i], latest, before)
             else before == MAX_INT && forall k | 0 <= k < i :: logs[k].data == []
    requires Confirmations(logs[i], latest) < MAX_INT
    ensures LeastConfirmed(logs[..i + 1], latest, after)
  {
    var seen := logs[..i + 1];
    assert seen[i] == logs[i];
    if before < MAX_INT {
      var k :| 0 <= k < i && logs[..i][k].data != [] && Confirmations(logs[..i][k], latest) == before;
      assert seen[k] == logs[k];
      assert forall j | 0 <= j < i :: seen[j] == logs[..i][j];
    }
  }

  lemma LeastConfirmedSkip(logs: seq<Log>, latest: uint64, i: nat, n: int)
    requires i < |logs| && logs[i].data == []
    requires n < MAX_INT ==> LeastConfirmed(logs[..i], latest, n)
    ensures n < MAX_INT ==> LeastConfirmed(logs[..i + 1], latest, n)
  {
    if n < MAX_INT {
      var seen := logs[..i + 1];
      var k :| 0 <= k < i && logs[..i][k].data != [] && Confirmations(logs[..i][k], latest) == n;
      assert seen[k] == logs[k];
      assert forall j | 0 <= j < i :: seen[j] == logs[..i][j];
      assert seen[i] == logs[i];
    }
  }

  /** The report is what Fold makes of a scan that went through. */
  ghost predicate Reported(node: Node, latest: uint64, windows: seq<Window>, report: Option<DepositReport>)
    requires windows != []
  {
    && !node.fails(Last(windows))
    && var logs := Within(node, Last(windows));
    && (report.Some? <==> TotalData(logs) > 0)
    && (report.Some? ==>
          && report.value.total == TotalData(logs)
          && report.value.tx == logs[|logs| - 1].tx
          && LeastConfirmed(logs, latest, report.value.confirmations)
          && 1 <= report.value.confirmations <= 50001)
  }

  /** The highest block of the window that holds a log with an amount. */
  ghost predicate NewestAmount(node: Node, w: Window, block: int) {
    && w.lo as int <= block <= w.hi as int
    && (exists k | 0 <= k < |node.logs(block)| :: node.logs(block)[k].data != [])
    && forall b, k | block < b <= w.hi as int && 0 <= k < |node.logs(b)| :: node.logs(b)[k].data == []
  }

  lemma {:induction false} RangeLogs(node: Node, lo: int, hi: int)
    ensures forall b, k: nat | lo <= b <= hi && k < |node.logs(b)| :: node.logs(b)[k] in Range(node, lo, hi)
    ensures forall log | log in Range(node, lo, hi) :: exists b | lo <= b <= hi :: log in node.logs(b)
    decreases hi - lo
  {
    if lo <= hi { RangeLogs(node, lo, hi - 1); }
  }

  /** A report counts the blocks from the newest block with an amount in the last window up to the head, both
      included. */
  lemma ConfirmationsFromNewest(node: Node, latest: uint64, w: Window, n: int)
    requires WellFormed(node) && LeastConfirmed(Within(node, w), latest, n)
    ensures NewestAmount(node, w, latest as int - n + 1)
  {
    var logs, block := Within(node, w), latest as int - n + 1;
    RangeLogs(node, w.lo as int, w.hi as int);
    RangeBlocks(node, w.lo as int, w.hi as int);
    var k :| 0 <= k < |logs| && logs[k].data != [] && Confirmations(logs[k], latest) == n;
    assert logs[k] in logs && logs[k].block as int == block;
    var b :| w.lo as int <= b <= w.hi as int && logs[k] in node.logs(b);
    var j :| 0 <= j < |node.logs(b)| && node.logs(b)[j] == logs[k];
    assert b == block;
    forall c, i | block < c <= w.hi as int && 0 <= i < |node.logs(c)| ensures node.logs(c)[i].data == [] {
      assert node.logs(c)[i] in logs && node.logs(c)[i].block as int == c;
    }
  }

  /** The report sent for a deposit address, if any, with the windows that were queried. Its confirmation count fits
      the 32 bits of the request. */
  method Observe(node: Node, chainName: string, latest: uint64)
    returns (report: Option<DepositReport>, windows: seq<Window>)
    requires WellFormed(node)
    ensures Scanned(node, chainName, latest, windows)
    ensures if node.fails(Last(windows)) then report == None else Reported(node, latest, windows, report)
    ensures report.Some? ==>
      && 1 <= report.value.confirmations <= 50001
      && NewestAmount(node, Last(windows), latest as int - report.value.confirmations + 1)
  {
    var result: Option<seq<Log>>;
    result, windows := FilterTransferLogs(node, chainName, latest);
    if result == None { return None, windows; }
    assert Last(windows) in windows;
    BelowHead(windows, latest);
    RangeBlocks(node, Last(windows).lo as int, Last(windows).hi as int);
    report := Fold(result.value, latest);
    if report.Some? { ConfirmationsFromNewest(node, latest, Last(windows), report.value.confirmations); }
  }

  // ---- Complete reports ----

  function Amount(report: Option<DepositReport>): nat {
    if report.Some? then report.value.total else 0
  }

  lemma {:induction false} TotalZeroIff(node: Node, lo: int, hi: int)
    ensures TotalData(Range(node, lo, hi)) == 0 <==> forall b | lo <= b <= hi :: TotalData(node.logs(b)) == 0
    decreases hi - lo
  {
    if lo <= hi {
      TotalZeroIff(node, lo, hi - 1);
      TotalDataConcat(Range(node, lo, hi - 1), node.logs(hi));
    }
  }

  /** No transfer with an amount is in an older chunk than a later block with logs. */
  ghost predicate NoOlderChunk(node: Node, chainName: string, latest: uint64) {
    forall b, c | HasLogs(node, latest, b) && HasLogs(node, latest, c) && b <= c && TotalData(node.logs(b)) > 0 ::
      ChunkOf(latest, chainName, b) == ChunkOf(latest, chainName, c)
  }

  /** What the report leaves out of the range is the amount below the last window. */
  lemma ReportedShare(node: Node, chainName: string, latest: uint64, windows: seq<Window>,
                      report: Option<DepositReport>)
    requires Scanned(node, chainName, latest, windows) && Reported(node, latest, windows, report)
    ensures TotalData(Range(node, Floor(latest) as int, latest as int))
            == Amount(report) + TotalData(Range(node, Floor(latest) as int, Last(windows).lo as int - 1))
  {
    ScanReturnsNewest(node, chainName, latest, windows);
    TotalDataConcat(Range(node, Floor(latest) as int, Last(windows).lo as int - 1), Within(node, Last(windows)));
  }

  /** A report carries the whole amount received in the range exactly when no transfer is in an older chunk than a later
      one: a condition on the head, the chain and the blocks, not on how the scan went. */
  lemma ReportIsCompleteIff(node: Node, chainName: string, latest: uint64, windows: seq<Window>,
                            report: Option<DepositReport>)
    requires Scanned(node, chainName, latest, windows) && Reported(node, latest, windows, report)
    ensures Amount(report) == TotalData(Range(node, Floor(latest) as int, latest as int))
            <==> NoOlderChunk(node, chainName, latest)
  {
    ReportedShare(node, chainName, latest, windows, report);
    TotalZeroIff(node, Floor(latest) as int, Last(windows).lo as int - 1);
    if NoOlderChunk(node, chainName, latest) {
      NothingBelow(node, chainName, latest, windows);
    } else {
      var b, c :| HasLogs(node, latest, b) && HasLogs(node, latest, c) && b <= c && TotalData(node.logs(b)) > 0
                  && ChunkOf(latest, chainName, b) != ChunkOf(latest, chainName, c);
      MatchingBlock(node, chainName, latest, windows, b);
      MatchingBlock(node, chainName, latest, windows, c);
    }
  }

  lemma NothingBelow(node: Node, chainName: string, latest: uint64, windows: seq<Window>)
    requires Scanned(node, chainName, latest, windows) && !node.fails(Last(windows))
    requires NoOlderChunk(node, chainName, latest)
    ensures forall b | Floor(latest) as int <= b <= Last(windows).lo as int - 1 :: TotalData(node.logs(b)) == 0
  {
    if Within(node, Last(windows)) != [] {
      var found := FoundBlock(node, windows);
      assert Last(windows) in windows;
      BelowHead(windows, latest);
      assert HasLogs(node, latest, found);
      MatchingBlock(node, chainName, latest, windows, found);
      forall b | Floor(latest) as int <= b <= Last(windows).lo as int - 1 ensures TotalData(node.logs(b)) == 0 {
        if HasLogs(node, latest, b) { MatchingBlock(node, chainName, latest, windows, b); }
      }
    }
  }

  // ---- A transfer that is missed ----

  /** 5 units arrived in one block, 7 in a later one. */
  function TwoTransfers(first: uint64, second: uint64): Node {
    Node(b => if b == first as int then [Log(first, "0xa", [5])]
              else if b == second as int then [Log(second, "0xb", [7])]
              else [],
         w => false)
  }

  /** Two blocks hold logs, and no others. */
  ghost predicate OnlyTwo(node: Node, latest: uint64, first: int, second: int) {
    && HasLogs(node, latest, first) && HasLogs(node, latest, second) && first < second
    && forall b | HasLogs(node, latest, b) :: b == first || b == second
  }

  lemma StopsBetween(node: Node, first: int, second: int, chainName: string, latest: uint64, windows: seq<Window>)
    requires OnlyTwo(node, latest, first, second)
    requires ChunkOf(latest, chainName, first) != ChunkOf(latest, chainName, second)
    requires Scanned(node, chainName, latest, windows) && !node.fails(Last(windows))
    ensures first < Last(windows).lo as int <= second <= Last(windows).hi as int <= latest as int
  {
    StopsAtNewest(node, chainName, latest, windows, second);
    MatchingBlock(node, chainName, latest, windows, first);
    BelowHead(windows, latest);
  }

  /** When the two blocks are in different chunks, the report of every scan leaves the first one out. */
  lemma OlderBlockIsMissed(node: Node, first: int, second: int, chainName: string, latest: uint64,
                           windows: seq<Window>, report: Option<DepositReport>)
    requires OnlyTwo(node, latest, first, second)
    requires ChunkOf(latest, chainName, first) != ChunkOf(latest, chainName, second)
    requires Scanned(node, chainName, latest, windows) && Reported(node, latest, windows, report)
    ensures Amount(report) == TotalData(node.logs(second))
    ensures TotalData(Range(node, Floor(latest) as int, latest as int))
            == TotalData(node.logs(first)) + TotalData(node.logs(second))
  {
    var lo := Last(windows).lo as int;
    StopsBetween(node, first, second, chainName, latest, windows);
    ReportedShare(node, chainName, latest, windows, report);
    forall b | Floor(latest) as int <= b <= latest as int && b != first && b != second ensures node.logs(b) == [] {
      assert node.logs(b) != [] <==> HasLogs(node, latest, b);
    }
    assert Last(windows) in windows;
    OneTransfer(node, lo, Last(windows).hi as int, second);
    OneTransfer(node, Floor(latest) as int, lo - 1, first);
  }

  /** And it counts from the second block. */
  lemma NewerBlockIsReported(node: Node, first: int, second: int, chainName: string, latest: uint64,
                             windows: seq<Window>, report: DepositReport)
    requires WellFormed(node) && OnlyTwo(node, latest, first, second)
    requires ChunkOf(latest, chainName, first) != ChunkOf(latest, chainName, second)
    requires Scanned(node, chainName, latest, windows) && Reported(node, latest, windows, Some(report))
    ensures report.confirmations == latest as int - second + 1
    ensures report.tx == node.logs(second)[|node.logs(second)| - 1].tx
  {
    StopsBetween(node, first, second, chainName, latest, windows);
    forall b | Floor(latest) as int <= b <= latest as int && b != first && b != second ensures node.logs(b) == [] {
      assert node.logs(b) != [] <==> HasLogs(node, latest, b);
    }
    assert Last(windows) in windows;
    OneTransfer(node, Last(windows).lo as int, Last(windows).hi as int, second);
  }

  /** For instance on "base", with 5 units in block 1, 7 units in block 20000 and the head there: 7 of 12 units,
      with one confirmation. */
  lemma TransferIsMissed(windows: seq<Window>, report: Option<DepositReport>, latest: uint64)
    requires latest == 20000
    requires Scanned(TwoTransfers(1, 20000), "base", latest, windows)
    requires Reported(TwoTransfers(1, 20000), latest, windows, report)
    ensures WellFormed(TwoTransfers(1, 20000))
    ensures Amount(report) == 7 && report.value.confirmations == 1 && report.value.tx == "0xb"
    ensures TotalData(Range(TwoTransfers(1, 20000), Floor(latest) as int, latest as int)) == 12
  {
    var node := TwoTransfers(1, 20000);
    assert HasLogs(node, latest, 1) && HasLogs(node, latest, 20000);
    TwoChunks(latest);
    OlderBlockIsMissed(node, 1, 20000, "base", latest, windows, report);
    OneByteLog(1, "0xa", 5);
    OneByteLog(20000, "0xb", 7);
    NewerBlockIsReported(node, 1, 20000, "base", latest, windows, report.value);
  }

  lemma TwoChunks(latest: uint64)
    requires latest == 20000
    ensures ChunkOf(latest, "base", 1) != ChunkOf(latest, "base", 20000)
  {}

  lemma OneByteLog(block: uint64, tx: string, amount: uint8)
    ensures TotalData([Log(block, tx, [amount])]) == amount as nat
  {
    assert [Log(block, tx, [amount])][..0] == [] && [amount][..0] == [];
    assert BigEndian([amount]) == amount as nat;
  }

  lemma OneTransfer(node: Node, lo: int, hi: int, block: int)
    requires lo <= block <= hi && forall b | lo <= b <= hi && b != block :: node.logs(b) == []
    ensures Range(node, lo, hi) == node.logs(block)
  {
    RangeSplit(node, lo, block, hi);
    RangeEmptyIff(node, lo, block - 1);
    RangeEmptyIff(node, block + 1, hi);
  }
}
