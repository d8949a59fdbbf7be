/** The backward scan for token transfers to a deposit address, and the report folded from its result
    (internal/platform/workers/chain_observer.go). Blocks are unsigned 64-bit words, so that every subtraction is
    also shown not to wrap. */
module LogScan {
  import opened Sums
  import opened Text
  import opened Words

  datatype Log = Log(block: uint64, tx: string, data: seq<uint8>)

  /** `lo` and `hi` are both included. */
  datatype Window = Window(lo: uint64, hi: uint64)

  /** What the RPC node holds for one token and deposit address, and which queries it fails. */
  datatype Node = Node(logs: int -> seq<Log>, fails: Window -> bool)

  ghost predicate WellFormed(node: Node) {
    forall b: int, k: nat | k < |node.logs(b)| :: node.logs(b)[k].block as int == b
  }

  const SCAN_DEPTH: uint64 := 50000

  function Contains(s: string, part: string): bool {
    exists i | 0 <= i <= |s| - |part| :: OccursAt(s, part, i)
  }

  predicate OccursAt(s: string, part: string, i: nat)
    requires i + |part| <= |s|
  {
    s[i..i + |part|] == part
  }

  function ChunkSize(chainName: string): uint64 {
    if Contains(ToLower(chainName), "hyper") then 1000 else 10000
  }

  /** The word "hyper" stands in the name at position i, in letters of either case. */
  predicate HyperAt(chainName: string, i: nat) {
    && i + 5 <= |chainName|
    && chainName[i] in {'h', 'H'} && chainName[i + 1] in {'y', 'Y'} && chainName[i + 2] in {'p', 'P'}
    && chainName[i + 3] in {'e', 'E'} && chainName[i + 4] in {'r', 'R'}
  }

  lemma HyperOccurs(chainName: string, i: nat)
    requires i + 5 <= |chainName|
    ensures OccursAt(ToLower(chainName), "hyper", i) <==> HyperAt(chainName, i)
  {
    var low := ToLower(chainName);
    assert low[i..i + 5] == [low[i], low[i + 1], low[i + 2], low[i + 3], low[i + 4]];
    assert "hyper" == ['h', 'y', 'p', 'e', 'r'];
  }

  lemma ChunkOfHyper(chainName: string)
    ensures ChunkSize(chainName) as int == if exists i: nat :: HyperAt(chainName, i) then 1000 else 10000
  {
    forall i: nat | i + 5 <= |chainName| { HyperOccurs(chainName, i); }
    if i: nat :| HyperAt(chainName, i) { assert OccursAt(ToLower(chainName), "hyper", i); }
    if Contains(ToLower(chainName), "hyper") {
      var i :| 0 <= i <= |ToLower(chainName)| - |"hyper"| && OccursAt(ToLower(chainName), "hyper", i);
      assert HyperAt(chainName, i);
    }
  }

  /** No window reaches more than 50000 blocks below the head, and a window that does not end at that depth or at block
      0 spans 10000 blocks, or 1000 on a chain with "hyper" in its name. */
  ghost predicate InDepth(chainName: string, latest: uint64, w: Window) {
    var bottom := if latest as int < 50000 then 0 else latest as int - 50000;
    && bottom <= w.lo as int <= w.hi as int
    && (w.lo as int != bottom ==>
          w.hi as int - w.lo as int + 1 == if exists i: nat :: HyperAt(chainName, i) then 1000 else 10000)
  }

  ghost predicate AllInDepth(chainName: string, latest: uint64, windows: seq<Window>) {
    forall w | w in windows :: InDepth(chainName, latest, w)
  }

  function Floor(latest: uint64): uint64 {
    if latest > SCAN_DEPTH then latest - SCAN_DEPTH else 0
  }

  /** The logs of the blocks lo to hi, oldest first. */
  function Range(node: Node, lo: int, hi: int): seq<Log>
    decreases hi - lo
  {
    if hi < lo then [] else Range(node, lo, hi - 1) + node.logs(hi)
  }

  function Within(node: Node, w: Window): seq<Log> {
    Range(node, w.lo as int, w.hi as int)
  }

  /** Windows from the head downwards, each starting where the one above it ends. */
  predicate Tiling(windows: seq<Window>, latest: uint64) {
    && windows != []
    && windows[0].hi == latest
    && (forall i | 0 <= i < |windows| :: windows[i].lo <= windows[i].hi)
    && forall i | 0 < i < |windows| :: windows[i].hi as int == windows[i - 1].lo as int - 1
  }

  function Last(windows: seq<Window>): Window
    requires windows != []
  {
    windows[|windows| - 1]
  }

  ghost predicate AllEmpty(node: Node, windows: seq<Window>) {
    forall w | w in windows :: !node.fails(w) && Within(node, w) == []
  }

  predicate Whole(w: Window, chunkSize: uint64) {
    chunkSize < w.hi && w.lo as int == w.hi as int - chunkSize as int + 1
  }

  /** A window above the floor is a whole chunk; one at the floor is at most a chunk, or one block more from block 0. */
  predicate Shaped(w: Window, floor: uint64, chunkSize: uint64) {
    && floor <= w.lo <= w.hi
    && (w.lo > floor ==> Whole(w, chunkSize))
    && (w.hi - w.lo < chunkSize || w == Window(0, chunkSize))
  }

  /** The scan went down `windows`, found nothing above the last one, and stopped there. */
  ghost predicate Scanned(node: Node, chainName: string, latest: uint64, windows: seq<Window>) {
    && Tiling(windows, latest)
    && (forall w | w in windows :: Shaped(w, Floor(latest), ChunkSize(chainName)))
    && (forall w | w in windows[..|windows| - 1] :: w.lo > Floor(latest))
    && AllEmpty(node, windows[..|windows| - 1])
    && (!node.fails(Last(windows)) && Within(node, Last(windows)) == [] ==> Last(windows).lo == Floor(latest))
  }

  /** What the last query answered. */
  function Answer(node: Node, windows: seq<Window>): Option<seq<Log>>
    requires windows != []
  {
    if node.fails(Last(windows)) then None else Some(Within(node, Last(windows)))
  }

  method FilterLogs(node: Node, window: Window) returns (logs: Option<seq<Log>>)
    ensures logs == if node.fails(window) then None else Some(Within(node, window))
  {
    if node.fails(window) { return None; }
    return Some(Within(node, window));
  }

  /** Queries made for one chunk size: 50000 / chunk + 1. */
  function MaxQueries(chainName: string): nat {
    if ChunkSize(chainName) == 1000 then 51 else 6
  }

  method WindowStart(hi: uint64, chunkSize: uint64, fromFloor: uint64) returns (lo: uint64)
    requires fromFloor <= hi && 0 < chunkSize
    ensures Shaped(Window(lo, hi), fromFloor, chunkSize)
  {
    lo := fromFloor;
    if hi > chunkSize && hi - chunkSize + 1 > fromFloor { lo := hi - chunkSize + 1; }
  }

  /** Besides the result it gives the windows it queried, in order. */
  method FilterTransferLogs(node: Node, chainName: string, latest: uint64)
    returns (result: Option<seq<Log>>, windows: seq<Window>)
    ensures Scanned(node, chainName, latest, windows)
    ensures result == Answer(node, windows)
    ensures |windows| <= MaxQueries(chainName)
    ensures AllInDepth(chainName, latest, windows)
  {
    var chunkSize := ChunkSize(chainName);
    var fromFloor := Floor(latest);
    var hi := latest;
    windows := [];
    while true
      invariant fromFloor <= hi <= latest
      invariant Progress(node, windows, latest, chunkSize, hi as int)
      decreases hi
    {
      var lo := WindowStart(hi, chunkSize, fromFloor);
      var logs := FilterLogs(node, Window(lo, hi));
      FewQueries(node, windows, latest, chainName, hi as int);
      ghost var above := windows;
      windows := windows + [Window(lo, hi)];
      if logs == None || |logs.value| > 0 || lo == fromFloor { Stops(node, above, latest, chainName, Window(lo, hi)); }
      if logs == None { return None, windows; }
      if |logs.value| > 0 || lo == fromFloor { return logs, windows; }
      Descends(node, above, latest, chunkSize, Window(lo, hi));
      hi := lo - 1;
    }
  }

  /** After the empty windows `windows`, the scan goes on at block `hi`. */
  ghost predicate Progress(node: Node, windows: seq<Window>, latest: uint64, chunkSize: uint64, hi: int) {
    && hi == latest as int - Times(|windows|, chunkSize as int)
    && hi == Above(windows, latest)
    && (windows != [] ==> Tiling(windows, latest))
    && (forall w | w in windows :: Shaped(w, Floor(latest), chunkSize) && w.lo > Floor(latest))
    && AllEmpty(node, windows)
  }

  lemma Appended(node: Node, windows: seq<Window>, latest: uint64, chunkSize: uint64, w: Window)
    requires Progress(node, windows, latest, chunkSize, w.hi as int) && Shaped(w, Floor(latest), chunkSize)
    ensures Tiling(windows + [w], latest) && Last(windows + [w]) == w
    ensures (windows + [w])[..|windows|] == windows
    ensures forall v | v in windows + [w] :: Shaped(v, Floor(latest), chunkSize)
  {}

  lemma Descends(node: Node, windows: seq<Window>, latest: uint64, chunkSize: uint64, w: Window)
    requires Progress(node, windows, latest, chunkSize, w.hi as int) && Shaped(w, Floor(latest), chunkSize)
    requires !node.fails(w) && Within(node, w) == [] && w.lo > Floor(latest)
    ensures Progress(node, windows + [w], latest, chunkSize, w.lo as int - 1)
  {
    Appended(node, windows, latest, chunkSize, w);
  }

  lemma Stops(node: Node, windows: seq<Window>, latest: uint64, chainName: string, w: Window)
    requires Progress(node, windows, latest, ChunkSize(chainName), w.hi as int)
    requires Shaped(w, Floor(latest), ChunkSize(chainName))
    requires !node.fails(w) && Within(node, w) == [] ==> w.lo == Floor(latest)
    ensures Scanned(node, chainName, latest, windows + [w]) && AllInDepth(chainName, latest, windows + [w])
  {
    Appended(node, windows, latest, ChunkSize(chainName), w);
    forall v | v in windows + [w] { ShapedInDepth(chainName, latest, v); }
  }

  lemma ShapedInDepth(chainName: string, latest: uint64, w: Window)
    requires Shaped(w, Floor(latest), ChunkSize(chainName))
    ensures InDepth(chainName, latest, w)
  {
    ChunkOfHyper(chainName);
  }

  lemma FewQueries(node: Node, windows: seq<Window>, latest: uint64, chainName: string, hi: int)
    requires Progress(node, windows, latest, ChunkSize(chainName), hi) && Floor(latest) as int <= hi
    ensures |windows| + 1 <= MaxQueries(chainName)
  {
    TimesNotNegative(|windows|, ChunkSize(chainName) as int);
    QueriesBound(|windows|, ChunkSize(chainName) as int, latest as int - hi);
  }

  function Times(k: nat, chunk: int): int {
    if k == 0 then 0 else chunk + Times(k - 1, chunk)
  }

  lemma {:induction false} QueriesBound(k: nat, chunk: nat, depth: nat)
    requires Times(k, chunk) <= depth
    requires chunk == 1000 || chunk == 10000
    ensures k <= if chunk == 1000 then depth / 1000 else depth / 10000
    decreases k
  {
    if k > 0 {
      TimesNotNegative(k - 1, chunk);
      QueriesBound(k - 1, chunk, depth - chunk);
    }
  }

  lemma {:induction false} TimesNotNegative(k: nat, chunk: nat)
    ensures Times(k, chunk) >= 0
  {
    if k > 0 { TimesNotNegative(k - 1, chunk); }
  }

  /** The block below all the windows, or the head when there are none yet. */
  function Above(windows: seq<Window>, latest: uint64): int {
    if windows == [] then latest as int else Last(windows).lo as int - 1
  }

  lemma {:induction false} BelowHead(windows: seq<Window>, latest: uint64)
    requires Tiling(windows, latest)
    ensures Last(windows).hi <= latest
  {
    if |windows| > 1 {
      var above := windows[..|windows| - 1];
      BelowHead(above, latest);
      assert Last(windows).hi as int == Last(above).lo as int - 1;
    }
  }

  // ---- What the windows cover ----

  lemma {:induction false} RangeSplit(node: Node, lo: int, mid: int, hi: int)
    requires lo <= mid + 1 && mid <= hi
    ensures Range(node, lo, hi) == Range(node, lo, mid) + Range(node, mid + 1, hi)
    decreases hi - mid
  {
    if mid < hi {
      RangeSplit(node, lo, mid, hi - 1);
    }
  }

  /** The windows cover each block from the lowest one up to the head exactly once. */
  lemma {:induction false} WindowsPartition(windows: seq<Window>, latest: uint64, block: int)
    requires Tiling(windows, latest)
    ensures Last(windows).lo as int <= block <= latest as int <==>
            exists i | 0 <= i < |windows| :: windows[i].lo as int <= block <= windows[i].hi as int
    ensures forall i, j | 0 <= i < j < |windows| :: windows[j].hi < windows[i].lo
  {
    if |windows| > 1 {
      var above := windows[..|windows| - 1];
      WindowsPartition(above, latest, block);
      assert forall i | 0 <= i < |above| :: above[i] == windows[i];
      assert Last(windows).hi as int == Last(above).lo as int - 1;
      if Last(windows).lo as int <= block <= Last(windows).hi as int {
        assert windows[|windows| - 1] == Last(windows);
      }
      forall i | 0 <= i < |above| ensures Last(above).lo <= windows[i].lo {
        if i < |above| - 1 { assert above[|above| - 1].hi < above[i].lo; }
      }
    } else {
      assert windows[0] == Last(windows);
    }
  }

  /** Blocks above the last window hold nothing when the windows above it were empty. */
  lemma {:induction false} NewestFirst(node: Node, windows: seq<Window>, latest: uint64)
    requires Tiling(windows, latest)
    requires AllEmpty(node, windows[..|windows| - 1])
    ensures Range(node, Last(windows).lo as int, latest as int) == Within(node, Last(windows))
  {
    if |windows| > 1 {
      var above := windows[..|windows| - 1];
      assert above[..|above| - 1] <= above;
      NewestFirst(node, above, latest);
      assert Last(above) in above;
      BelowHead(windows, latest);
      RangeSplit(node, Last(windows).lo as int, Last(windows).hi as int, latest as int);
    }
  }
}
