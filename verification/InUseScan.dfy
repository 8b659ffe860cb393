/** Which sectors of a file system are in use: the ext bitmap scan and the xfs free-list
subtraction. */
module InUseScan {
  import opened MachineIntegers
  import opened IntervalMap

  // ---- ext ----

  // my_roundup(n, 8) / 8 in 32-bit unsigned arithmetic.
  function BitmapSize(blocksPerGroup: nat): nat
    requires blocksPerGroup < TWO_32
  {
    8 * ((blocksPerGroup + TWO_32 - 1) % TWO_32 / 8 + 1) % TWO_32 / 8
  }

  /** The bitmap buffer holds a bit for every block of a group exactly when the rounding
      does not overflow. */
  lemma BitmapCoversIff(blocksPerGroup: nat)
    requires blocksPerGroup < TWO_32
    ensures blocksPerGroup <= 8 * BitmapSize(blocksPerGroup) <==> blocksPerGroup <= TWO_32 - 8
    ensures 0 < blocksPerGroup <= TWO_32 - 8 ==> 8 * BitmapSize(blocksPerGroup) < blocksPerGroup + 8
  {
  }

  predicate InBlock(s: nat, block: nat, sectorsPerBlock: nat) {
    sectorsPerBlock * block <= s < sectorsPerBlock * block + sectorsPerBlock
  }

  // Sector s belongs to an allocated block below bound, counted from first.
  ghost predicate InAllocated(s: nat, first: nat, bound: nat, sectorsPerBlock: nat, used: nat -> bool) {
    exists b :: first <= b < bound && used(b) && InBlock(s, b, sectorsPerBlock)
  }

  lemma InAllocatedStep(s: nat, first: nat, b: nat, spb: nat, used: nat -> bool)
    requires first <= b
    ensures InAllocated(s, first, b + 1, spb, used)
        <==> InAllocated(s, first, b, spb, used) || (used(b) && InBlock(s, b, spb))
  {
  }

  function Min(a: nat, b: nat): nat { if a < b then a else b }

  function Max(a: nat, b: nat): nat { if a < b then b else a }

  // What the scan has collected once it has visited the blocks from first up to bound.
  ghost predicate Collected(sectors: SectorMap, first: nat, bound: nat, spb: nat, used: nat -> bool) {
    IsSet(sectors) && forall s: nat :: s in Dom(sectors) <==> s < 2 || InAllocated(s, first, bound, spb, used)
  }

  lemma CollectBlock(m: SectorMap, first: nat, b: nat, spb: nat, used: nat -> bool)
    requires first <= b && Collected(m, first, b, spb, used)
    ensures var r := if used(b) then Add(m, Interval(spb * b, spb * b + spb), 1) else m;
            Collected(r, first, b + 1, spb, used)
  {
    var i := Interval(spb * b, spb * b + spb);
    var r := if used(b) then Add(m, i, 1) else m;
    if used(b) {
      SetAdd(m, i);
      AddDom(m, i, 1);
    }
    forall s: nat ensures s in Dom(r) <==> s < 2 || InAllocated(s, first, b + 1, spb, used) {
      InAllocatedStep(s, first, b, spb, used);
      assert s in i.Sectors() <==> InBlock(s, b, spb);
    }
  }

  // The bitmap of one group, as the library loads it into the buffer.
  method LoadBitmap(buffer: array<bool>, offset: nat, blocksPerGroup: nat, used: nat -> bool)
    requires blocksPerGroup <= buffer.Length
    modifies buffer
    ensures forall j :: 0 <= j < blocksPerGroup ==> buffer[j] == used(offset + j)
  {
    for j := 0 to blocksPerGroup
      invariant forall k :: 0 <= k < j ==> buffer[k] == used(offset + k)
    {
      buffer[j] := used(offset + j);
    }
  }

  lemma ProductBound(a: nat, b: nat, x: nat, y: nat)
    requires a <= x && b <= y
    ensures a * b <= x * y
  {
    assert a * b <= a * y <= x * y;
  }

  /** With the file system's 32-bit fields no block number of any group overflows 64 bits. */
  lemma BlockNumberFits(i: nat, groups: nat, blocksPerGroup: nat, first: nat, j: nat)
    requires i < groups < TWO_32 && blocksPerGroup < TWO_32 && first < TWO_32 && j <= blocksPerGroup
    ensures first + i * blocksPerGroup + j < TWO_64
  {
    ProductBound(i, blocksPerGroup, TWO_32 - 2, TWO_32 - 1);
  }

  /** Nor does a sector number below the block count, for blocks of less than 4 GB. */
  lemma SectorNumberFits(block: nat, spb: nat)
    requires block < TWO_32 && spb < TWO_32 / 512
    ensures spb * block + spb < TWO_64
  {
    ProductBound(spb, block, TWO_32 / 512, TWO_32);
  }

  // The first block of group i, in 64-bit arithmetic.
  method GroupOffset(i: nat, groups: nat, blocksPerGroup: nat, first: nat) returns (offset: nat)
    requires i < groups < TWO_32 && blocksPerGroup < TWO_32 && first < TWO_32
    ensures offset == first + i * blocksPerGroup && offset + blocksPerGroup < TWO_64
  {
    BlockNumberFits(i, groups, blocksPerGroup, first, blocksPerGroup);
    var before := i * blocksPerGroup % TWO_64;
    offset := (first + before) % TWO_64;
  }

  // The sectors of a block, in 64-bit arithmetic.
  method SectorsOfBlock(block: nat, spb: nat) returns (i: Interval)
    requires block < TWO_32 && spb < TWO_32 / 512
    ensures i == Interval(spb * block, spb * block + spb)
  {
    SectorNumberFits(block, spb);
    var location := spb * block % TWO_64;
    i := Interval(location, (location + spb) % TWO_64);
  }

  // The blocks below this one, counted from first, have been visited once the scan has got
  // to block next.
  function Bound(first: nat, next: nat, blocksCount: nat): nat { Max(first, Min(next, blocksCount)) }

  // Everything below that bound is collected, and was visited once, in order.
  ghost predicate ScannedTo(sectors: SectorMap, seen: seq<nat>, first: nat, bound: nat, spb: nat, used: nat -> bool) {
    && Collected(sectors, first, bound, spb, used)
    && |seen| == bound - first && forall k :: 0 <= k < |seen| ==> seen[k] == first + k
  }

  lemma ScanBlock(sectors: SectorMap, seen: seq<nat>, first: nat, b: nat, spb: nat, used: nat -> bool)
    requires first <= b && ScannedTo(sectors, seen, first, b, spb, used)
    ensures ScannedTo(if used(b) then Add(sectors, Interval(spb * b, spb * b + spb), 1) else sectors, seen + [b],
                      first, b + 1, spb, used)
  {
    CollectBlock(sectors, first, b, spb, used);
  }

  method VisitBlock(sectors: SectorMap, bit: bool, ghost seen: seq<nat>, ghost first: nat, b: nat, spb: nat,
                    ghost used: nat -> bool)
    returns (result: SectorMap)
    requires first <= b < TWO_32 && spb < TWO_32 / 512 && bit == used(b)
    requires ScannedTo(sectors, seen, first, b, spb, used)
    ensures ScannedTo(result, seen + [b], first, b + 1, spb, used)
  {
    ScanBlock(sectors, seen, first, b, spb, used);
    result := sectors;
    if bit {
      var sectorsOfBlock := SectorsOfBlock(b, spb);
      result := Add(sectors, sectorsOfBlock, 1);
    }
  }

  // One group, whose block numbers fit 64 bits: visits its blocks below blocksCount in
  // order, each once.
  method ScanGroup(sectors: SectorMap, buffer: array<bool>, first: nat, offset: nat, blocksPerGroup: nat,
                   blocksCount: nat, spb: nat, used: nat -> bool, visited: seq<nat>)
    returns (result: SectorMap, seen: seq<nat>)
    requires first <= offset && blocksPerGroup <= buffer.Length
    requires offset + blocksPerGroup < TWO_64 && blocksCount < TWO_32 && spb < TWO_32 / 512
    requires forall j :: 0 <= j < blocksPerGroup ==> buffer[j] == used(offset + j)
    requires ScannedTo(sectors, visited, first, Bound(first, offset, blocksCount), spb, used)
    ensures ScannedTo(result, seen, first, Bound(first, offset + blocksPerGroup, blocksCount), spb, used)
  {
    result, seen := sectors, visited;
    var j := 0;
    while j < blocksPerGroup && j + offset < blocksCount
      invariant 0 <= j <= blocksPerGroup
      invariant ScannedTo(result, seen, first, Bound(first, offset + j, blocksCount), spb, used)
    {
      assert Bound(first, offset + j, blocksCount) == offset + j;
      result := VisitBlock(result, buffer[j], seen, first, offset + j, spb, used);
      seen := seen + [offset + j];
      j := j + 1;
    }
  }

  datatype ExtScan = Sectors(sectors: SectorMap, visited: seq<nat>) | BitmapOverrun

  /** The nested scan returns exactly sectors 0 and 1 and the sectors of every allocated
      block that a group covers below blocksCount; it visits those blocks once each, in
      order.  The only fields for which it does not are the group sizes whose bitmap the
      library writes past the end of the buffer. */
  method ExtInUse(groups: nat, blocksPerGroup: nat, firstDataBlock: nat, blocksCount: nat,
                  sectorsPerBlock: nat, used: nat -> bool)
    returns (r: ExtScan)
    requires groups < TWO_32 && blocksPerGroup < TWO_32 && firstDataBlock < TWO_32 && blocksCount < TWO_32
    requires sectorsPerBlock < TWO_32 / 512
    ensures r.BitmapOverrun? <==> groups > 0 && blocksPerGroup > TWO_32 - 8
    ensures r.Sectors? ==>
              var bound := Bound(firstDataBlock, firstDataBlock + groups * blocksPerGroup, blocksCount);
              && Collected(r.sectors, firstDataBlock, bound, sectorsPerBlock, used)
              && |r.visited| == bound - firstDataBlock
              && forall k :: 0 <= k < |r.visited| ==> r.visited[k] == firstDataBlock + k
  {
    BitmapCoversIff(blocksPerGroup);
    var bitmap := new bool[8 * BitmapSize(blocksPerGroup)];
    var sectors, visited := Add([], Interval(0, 2), 1), [];
    assert ScannedTo(sectors, visited, firstDataBlock, firstDataBlock, sectorsPerBlock, used) by {
      SetAdd([], Interval(0, 2));
      AddDom([], Interval(0, 2), 1);
      forall s: nat ensures !InAllocated(s, firstDataBlock, firstDataBlock, sectorsPerBlock, used) {}
    }
    for i := 0 to groups
      invariant i > 0 ==> blocksPerGroup <= TWO_32 - 8
      invariant ScannedTo(sectors, visited, firstDataBlock,
                          Bound(firstDataBlock, firstDataBlock + i * blocksPerGroup, blocksCount),
                          sectorsPerBlock, used)
    {
      if blocksPerGroup > bitmap.Length {
        return BitmapOverrun;
      }
      var offset := GroupOffset(i, groups, blocksPerGroup, firstDataBlock);
      LoadBitmap(bitmap, offset, blocksPerGroup, used);
      sectors, visited := ScanGroup(sectors, bitmap, firstDataBlock, offset, blocksPerGroup, blocksCount,
                                    sectorsPerBlock, used, visited);
      assert offset + blocksPerGroup == firstDataBlock + (i + 1) * blocksPerGroup;
    }
    r := Sectors(sectors, visited);
  }

  // ---- xfs ----

  // A line of the tool's output, as the three patterns recognise it.
  datatype Line = BlockSize(n: nat) | AgBlocks(n: nat) | Free(group: nat, block: nat, blocks: nat) | Other

  datatype Headers = Headers(blockSize: int, agBlocks: int) {
    predicate Known() { blockSize != -1 && agBlocks != -1 }
  }

  // Why a line stops the scan: a free record before a header, a number too large for its
  // type, or an overflow of signed arithmetic, after which nothing is known.
  datatype LineFault = NoFault | UnexpectedLine | OutOfRange | SignedOverflow

  datatype Scan = InUse(sectors: SectorMap) | Failed(fault: LineFault)

  // The two header values in force after a prefix of the output.
  function HeadersAfter(lines: seq<Line>): (h: Headers)
    ensures h.blockSize >= -1 && h.agBlocks >= -1
  {
    if lines == [] then Headers(-1, -1)
    else
      var h := HeadersAfter(lines[..|lines| - 1]);
      match lines[|lines| - 1]
      case BlockSize(n) => h.(blockSize := n)
      case AgBlocks(n) => h.(agBlocks := n)
      case _ => h
  }

  // What line k of the output does to the scan when the lines before it were fine.
  function FaultAt(lines: seq<Line>, k: nat): LineFault
    requires k < |lines|
  {
    var h := HeadersAfter(lines[..k]);
    match lines[k]
    case BlockSize(n) => if n < TWO_31 then NoFault else OutOfRange
    case AgBlocks(n) => if n < TWO_31 then NoFault else OutOfRange
    case Free(group, block, blocks) =>
      if !h.Known() then UnexpectedLine
      else if group >= TWO_63 || block >= TWO_63 || blocks >= TWO_63 then OutOfRange
      else if group * h.agBlocks + block >= TWO_63 || blocks * h.blockSize >= TWO_63 then SignedOverflow
      else NoFault
    case Other => NoFault
  }

  // The block number is unsigned, so its product with the block size wraps.
  function Extent(h: Headers, line: Line): Interval
    requires line.Free? && h.blockSize >= 0 && h.agBlocks >= 0
  {
    var start := (line.group * h.agBlocks + line.block) * h.blockSize % TWO_64 / 512;
    Interval(start, (start + line.blocks * h.blockSize / 512) % TWO_64)
  }

  // Line k is a free record whose extent contains sector s.
  predicate Frees(lines: seq<Line>, k: nat, s: nat) {
    k < |lines| && lines[k].Free? && HeadersAfter(lines[..k]).Known()
    && Extent(HeadersAfter(lines[..k]), lines[k]).Contains(s)
  }

  ghost predicate Remaining(sectors: SectorMap, size: nat, lines: seq<Line>, n: nat) {
    IsSet(sectors) &&
    forall s: nat :: s in Dom(sectors) <==> s < size && forall k: nat :: k < n ==> !Frees(lines, k, s)
  }

  lemma SubtractLine(m: SectorMap, size: nat, lines: seq<Line>, n: nat)
    requires n < |lines| && Remaining(m, size, lines, n) && FaultAt(lines, n).NoFault?
    ensures lines[n].Free? ==> Remaining(Subtract(m, Extent(HeadersAfter(lines[..n]), lines[n])), size, lines, n + 1)
    ensures !lines[n].Free? ==> Remaining(m, size, lines, n + 1)
  {
    if lines[n].Free? {
      var i := Extent(HeadersAfter(lines[..n]), lines[n]);
      SetSubtract(m, i);
      SubtractDom(m, i);
      forall s: nat
        ensures s in Dom(Subtract(m, i)) <==> s < size && forall k: nat :: k < n + 1 ==> !Frees(lines, k, s)
      {
        assert Frees(lines, n, s) <==> i.Contains(s);
        assert s in i.Sectors() <==> i.Contains(s);
      }
    } else {
      forall s: nat ensures !Frees(lines, n, s) {}
    }
  }

  /** The fold fails exactly when a line is at fault, with the fault of the first such line,
      and otherwise returns exactly the device's sectors that lie in no free extent. */
  method XfsInUse(deviceBytes: nat, lines: seq<Line>) returns (r: Scan, read: nat)
    ensures read <= |lines| && forall k :: 0 <= k < read ==> FaultAt(lines, k).NoFault?
    ensures r.Failed? ==> read < |lines| && r.fault == FaultAt(lines, read) && !r.fault.NoFault?
    ensures r.InUse? ==> read == |lines| && Remaining(r.sectors, deviceBytes / 512, lines, |lines|)
  {
    var size := deviceBytes / 512;
    var sectors := Add([], Interval(0, size), 1);
    SetAdd([], Interval(0, size));
    AddDom([], Interval(0, size), 1);
    var blockSize, agBlocks: int := -1, -1;
    read := 0;
    while read < |lines|
      invariant read <= |lines|
      invariant Headers(blockSize, agBlocks) == HeadersAfter(lines[..read])
      invariant Remaining(sectors, size, lines, read)
      invariant forall k :: 0 <= k < read ==> FaultAt(lines, k).NoFault?
    {
      assert lines[..read + 1][..read] == lines[..read];
      if FaultAt(lines, read).NoFault? { SubtractLine(sectors, size, lines, read); }
      match lines[read] {
        case BlockSize(n) =>
          if n >= TWO_31 { return Failed(OutOfRange), read; }
          blockSize := n;
        case AgBlocks(n) =>
          if n >= TWO_31 { return Failed(OutOfRange), read; }
          agBlocks := n;
        case Free(group, block, blocks) =>
          if blockSize == -1 || agBlocks == -1 { return Failed(UnexpectedLine), read; }
          if group >= TWO_63 || block >= TWO_63 || blocks >= TWO_63 { return Failed(OutOfRange), read; }
          if group * agBlocks + block >= TWO_63 || blocks * blockSize >= TWO_63 { return Failed(SignedOverflow), read; }
          sectors := Subtract(sectors, Extent(Headers(blockSize, agBlocks), lines[read]));
        case Other =>
      }
      read := read + 1;
    }
    r := InUse(sectors);
  }

  // Line k is the last block-size header before line n, or the last group-size header.
  predicate LastBlockSize(lines: seq<Line>, n: nat, k: nat) {
    k < n <= |lines| && lines[k].BlockSize? && forall j :: k < j < n ==> !lines[j].BlockSize?
  }

  predicate LastAgBlocks(lines: seq<Line>, n: nat, k: nat) {
    k < n <= |lines| && lines[k].AgBlocks? && forall j :: k < j < n ==> !lines[j].AgBlocks?
  }

  /** A header value is that of the last such line, and unknown exactly when there is none. */
  lemma {:induction false} HeadersAreLast(lines: seq<Line>, n: nat)
    requires n <= |lines|
    ensures var h := HeadersAfter(lines[..n]);
            && (h.blockSize == -1 <==> forall k :: 0 <= k < n ==> !lines[k].BlockSize?)
            && (h.agBlocks == -1 <==> forall k :: 0 <= k < n ==> !lines[k].AgBlocks?)
            && (forall k: nat :: LastBlockSize(lines, n, k) ==> h.blockSize == lines[k].n)
            && (forall k: nat :: LastAgBlocks(lines, n, k) ==> h.agBlocks == lines[k].n)
    decreases n
  {
    if n > 0 {
      HeadersAreLast(lines, n - 1);
      assert lines[..n][..n - 1] == lines[..n - 1] && lines[..n][n - 1] == lines[n - 1];
      forall k: nat | LastBlockSize(lines, n, k)
        ensures HeadersAfter(lines[..n]).blockSize == lines[k].n
      {
        if k < n - 1 { assert LastBlockSize(lines, n - 1, k); }
      }
      forall k: nat | LastAgBlocks(lines, n, k)
        ensures HeadersAfter(lines[..n]).agBlocks == lines[k].n
      {
        if k < n - 1 { assert LastAgBlocks(lines, n - 1, k); }
      }
    }
  }

  /** Which line is at fault, and how.  A record is unexpected exactly when one of the headers
      has not come yet; a header is out of range from 2^31 on. */
  lemma HeaderFaults(lines: seq<Line>, k: nat)
    requires k < |lines|
    ensures FaultAt(lines, k).UnexpectedLine? <==>
              lines[k].Free? && ((forall j :: 0 <= j < k ==> !lines[j].BlockSize?)
                                 || (forall j :: 0 <= j < k ==> !lines[j].AgBlocks?))
    ensures lines[k].BlockSize? || lines[k].AgBlocks? ==>
              FaultAt(lines, k) == if lines[k].n < 0x8000_0000 then NoFault else OutOfRange
    ensures lines[k].Other? ==> FaultAt(lines, k).NoFault?
  {
    HeadersAreLast(lines, k);
  }

  /** A record with both headers before it, b and a in force, is out of range exactly when one
      of its numbers is 2^63 or more, overflows exactly when its numbers fit but its block
      number or its length in bytes does not, and is fine otherwise. */
  lemma RecordFaults(lines: seq<Line>, k: nat, b: nat, a: nat)
    requires k < |lines| && lines[k].Free? && LastBlockSize(lines, k, b) && LastAgBlocks(lines, k, a)
    ensures var fits := lines[k].group < 0x8000_0000_0000_0000 && lines[k].block < 0x8000_0000_0000_0000
                        && lines[k].blocks < 0x8000_0000_0000_0000;
            var computes := lines[k].group * lines[a].n + lines[k].block < 0x8000_0000_0000_0000
                            && lines[k].blocks * lines[b].n < 0x8000_0000_0000_0000;
            && (FaultAt(lines, k).OutOfRange? <==> !fits)
            && (FaultAt(lines, k).SignedOverflow? <==> fits && !computes)
            && (FaultAt(lines, k).NoFault? <==> fits && computes)
  {
    HeadersAreLast(lines, k);
  }

  /** Nothing is at fault in two headers followed by records exactly when the headers are
      below 2^31 and, for every record, its numbers, its block number and its length in bytes
      are below 2^63; so XfsInUse then succeeds, and otherwise fails. */
  lemma OutputIsFineIff(blockSize: nat, agBlocks: nat, records: seq<Line>)
    requires forall r :: r in records ==> r.Free? || r.Other?
    ensures (forall k :: 0 <= k < |records| + 2 ==> FaultAt(Output(blockSize, agBlocks, records), k).NoFault?)
        <==> && blockSize < 0x8000_0000 && agBlocks < 0x8000_0000
             && forall r :: r in records && r.Free? ==>
                  && r.group < 0x8000_0000_0000_0000 && r.block < 0x8000_0000_0000_0000
                  && r.blocks < 0x8000_0000_0000_0000
                  && r.group * agBlocks + r.block < 0x8000_0000_0000_0000
                  && r.blocks * blockSize < 0x8000_0000_0000_0000
  {
    var lines := Output(blockSize, agBlocks, records);
    HeaderFaults(lines, 0);
    HeaderFaults(lines, 1);
    forall k | 0 <= k < |records|
      ensures FaultAt(lines, k + 2).NoFault? <==> (records[k].Free? ==> RecordFits(blockSize, agBlocks, records[k]))
    {
      OutputRecordFault(blockSize, agBlocks, records, k);
    }
    if forall k :: 0 <= k < |records| + 2 ==> FaultAt(lines, k).NoFault? {
      assert FaultAt(lines, 0).NoFault? && FaultAt(lines, 1).NoFault?;
      forall r | r in records && r.Free? ensures RecordFits(blockSize, agBlocks, r) {
        var k :| 0 <= k < |records| && records[k] == r;
        assert FaultAt(lines, k + 2).NoFault?;
      }
    }
    if && blockSize < TWO_31 && agBlocks < TWO_31
       && forall r :: r in records && r.Free? ==> RecordFits(blockSize, agBlocks, r) {
      forall k | 0 <= k < |records| + 2 ensures FaultAt(lines, k).NoFault? {
        if k >= 2 { assert records[k - 2] in records && FaultAt(lines, k - 2 + 2).NoFault?; }
      }
    }
  }

  predicate RecordFits(blockSize: nat, agBlocks: nat, r: Line)
    requires r.Free?
  {
    && r.group < TWO_63 && r.block < TWO_63 && r.blocks < TWO_63
    && r.group * agBlocks + r.block < TWO_63 && r.blocks * blockSize < TWO_63
  }

  lemma OutputRecordFault(blockSize: nat, agBlocks: nat, records: seq<Line>, k: nat)
    requires k < |records| && forall r :: r in records ==> r.Free? || r.Other?
    ensures FaultAt(Output(blockSize, agBlocks, records), k + 2).NoFault?
        <==> (records[k].Free? ==> RecordFits(blockSize, agBlocks, records[k]))
  {
    var lines := Output(blockSize, agBlocks, records);
    assert lines[k + 2] == records[k];
    forall j | 2 <= j < k + 2 ensures lines[j].Free? || lines[j].Other? {
      assert lines[j] == records[j - 2] && records[j - 2] in records;
    }
    if records[k].Free? {
      RecordFaults(lines, k + 2, 0, 1);
    } else {
      assert records[k] in records;
      HeaderFaults(lines, k + 2);
    }
  }

  ghost predicate IsFree(lines: seq<Line>, s: nat) { exists k: nat :: Frees(lines, k, s) }

  lemma RemainingIsNotFree(m: SectorMap, size: nat, lines: seq<Line>, s: nat)
    requires Remaining(m, size, lines, |lines|)
    ensures s in Dom(m) <==> s < size && !IsFree(lines, s)
  {
  }

  /** Two outputs whose free records cover the same sectors give the same set, in the same
      representation, whatever the order, overlap or repetition of the records. */
  lemma FreeOrderIsIrrelevant(size: nat, a: seq<Line>, b: seq<Line>, x: SectorMap, y: SectorMap)
    requires Remaining(x, size, a, |a|) && Remaining(y, size, b, |b|)
    requires forall s: nat :: IsFree(a, s) <==> IsFree(b, s)
    ensures x == y
  {
    forall s: nat ensures s in Dom(x) <==> s in Dom(y) {
      RemainingIsNotFree(x, size, a, s);
      RemainingIsNotFree(y, size, b, s);
    }
    SetUnique(x, y) by { assert Dom(x) == Dom(y); }
  }

  function Output(blockSize: nat, agBlocks: nat, records: seq<Line>): seq<Line> {
    [BlockSize(blockSize), AgBlocks(agBlocks)] + records
  }

  lemma {:induction false} HeadersStay(blockSize: nat, agBlocks: nat, records: seq<Line>, k: nat)
    requires 2 <= k <= |records| + 2 && forall r :: r in records ==> r.Free? || r.Other?
    ensures HeadersAfter(Output(blockSize, agBlocks, records)[..k]) == Headers(blockSize, agBlocks)
    decreases k
  {
    var lines := Output(blockSize, agBlocks, records);
    assert lines[..k][..k - 1] == lines[..k - 1];
    if k == 2 {
      assert lines[..1][..0] == [];
    } else {
      HeadersStay(blockSize, agBlocks, records, k - 1);
      assert lines[..k][k - 1] == lines[k - 1] == records[k - 3] && records[k - 3] in records;
    }
  }

  lemma FreedByRecord(blockSize: nat, agBlocks: nat, records: seq<Line>, s: nat)
    requires forall r :: r in records ==> r.Free? || r.Other?
    ensures IsFree(Output(blockSize, agBlocks, records), s)
        <==> exists r :: r in records && r.Free? && Extent(Headers(blockSize, agBlocks), r).Contains(s)
  {
    var lines := Output(blockSize, agBlocks, records);
    if IsFree(lines, s) {
      var k: nat :| Frees(lines, k, s);
      HeadersStay(blockSize, agBlocks, records, k);
      assert lines[k] == records[k - 2];
    }
    if r :| r in records && r.Free? && Extent(Headers(blockSize, agBlocks), r).Contains(s) {
      var k :| 0 <= k < |records| && records[k] == r;
      HeadersStay(blockSize, agBlocks, records, k + 2);
      assert Frees(lines, k + 2, s);
    }
  }

  /** Reordering or repeating the free records after the headers changes nothing. */
  lemma PermutedRecordsScanAlike(size: nat, blockSize: nat, agBlocks: nat, a: seq<Line>, b: seq<Line>,
                                 x: SectorMap, y: SectorMap)
    requires forall r :: r in a <==> r in b
    requires forall r :: r in a ==> r.Free? || r.Other?
    requires Remaining(x, size, Output(blockSize, agBlocks, a), |a| + 2)
    requires Remaining(y, size, Output(blockSize, agBlocks, b), |b| + 2)
    ensures x == y
  {
    forall s: nat ensures IsFree(Output(blockSize, agBlocks, a), s) <==> IsFree(Output(blockSize, agBlocks, b), s) {
      FreedByRecord(blockSize, agBlocks, a, s);
      FreedByRecord(blockSize, agBlocks, b, s);
    }
    FreeOrderIsIrrelevant(size, Output(blockSize, agBlocks, a), Output(blockSize, agBlocks, b), x, y);
  }

  lemma WrapIsExactIff(p: nat)
    ensures p % TWO_64 / 512 == p / 512 <==> p < TWO_64
  {
    if p >= TWO_64 {
      assert p % TWO_64 / 512 < TWO_64 / 512 <= p / 512;
    }
  }

  /** When the block size is a whole number of sectors, the extent of a record that is not
      at fault is exactly the sectors of its free blocks, if and only if it has none or
      their first byte is below 2^64; every other record subtracts sectors not its own. */
  lemma ExtentIsWholeBlocksIff(h: Headers, line: Line, k: nat)
    requires line.Free? && h.agBlocks >= 0 && h.blockSize == 512 * k && line.blocks * h.blockSize < TWO_63
    ensures var first := line.group * h.agBlocks + line.block;
            (forall s: nat :: Extent(h, line).Contains(s) <==> k * first <= s < k * first + k * line.blocks)
            <==> k * line.blocks == 0 || first * h.blockSize < TWO_64
    ensures var first := line.group * h.agBlocks + line.block;
            k * line.blocks > 0 && first * h.blockSize >= TWO_64 ==>
              exists s: nat :: Extent(h, line).Contains(s) && !(k * first <= s < k * first + k * line.blocks)
  {
    var first := line.group * h.agBlocks + line.block;
    var p, q := first * h.blockSize, line.blocks * h.blockSize;
    WholeSectors(first, k);
    WholeSectors(line.blocks, k);
    assert p % TWO_64 / 512 < TWO_64 / 512 && q / 512 <= TWO_63 / 512;
    assert Extent(h, line) == Interval(p % TWO_64 / 512, p % TWO_64 / 512 + q / 512);
    WrapIsExactIff(p);
    if k * line.blocks > 0 && p >= TWO_64 {
      var s := p % TWO_64 / 512;
      assert Extent(h, line).Contains(s) && s < k * first;
    }
  }

  lemma WholeSectors(n: nat, k: nat)
    ensures n * (512 * k) / 512 == k * n
  {
    assert n * (512 * k) == 512 * (k * n);
  }

  /** For any block size, an extent starts in the sector of the record's first byte and is as
      long as the whole sectors that fit its length, as long as no product wraps. */
  lemma ExtentIsRoundedDown(h: Headers, line: Line)
    requires line.Free? && h.agBlocks >= 0 && h.blockSize >= 0 && line.blocks * h.blockSize < TWO_63
    requires (line.group * h.agBlocks + line.block) * h.blockSize < TWO_64
    ensures var i := Extent(h, line);
            var first, bytes := (line.group * h.agBlocks + line.block) * h.blockSize, line.blocks * h.blockSize;
            && 512 * i.lower <= first < 512 * i.lower + 512
            && i.lower <= i.upper && 512 * (i.upper - i.lower) <= bytes < 512 * (i.upper - i.lower) + 512
  {
    RoundedDown((line.group * h.agBlocks + line.block) * h.blockSize, line.blocks * h.blockSize);
  }

  lemma RoundedDown(first: nat, bytes: nat)
    requires first < TWO_64 && bytes < TWO_63
    ensures var lower := first % TWO_64 / 512;
            var upper := (lower + bytes / 512) % TWO_64;
            && 512 * lower <= first < 512 * lower + 512
            && lower <= upper && 512 * (upper - lower) <= bytes < 512 * (upper - lower) + 512
  {
    assert first % TWO_64 == first && first / 512 < TWO_64 / 512 && bytes / 512 < TWO_63 / 512;
  }
}
