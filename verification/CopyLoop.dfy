/** The block-copy loop over one interval.  Every sector is read once, with its block, so what
the source holds is given, sector by sector, as of the moment its block is read. */
module CopyLoop {
  import opened IntervalMap

  // n sectors rounded up to whole blocks of b sectors.
  function RoundUp(n: nat, b: nat): nat
    requires b > 0
  {
    if n == 0 then 0 else if n <= b then b else b + RoundUp(n - b, b)
  }

  // i is a multiple of b.
  predicate Aligned(i: nat, b: nat)
    requires b > 0
  {
    i == 0 || (i >= b && Aligned(i - b, b))
  }

  lemma {:induction false} MultipleIsAligned(q: nat, b: nat)
    requires b > 0
    ensures Aligned(q * b, b)
    decreases q
  {
    if q > 0 {
      MultipleIsAligned(q - 1, b);
      assert q * b == (q - 1) * b + b;
    }
  }

  lemma DivisibleIsAligned(n: nat, b: nat)
    requires b > 0 && n % b == 0
    ensures Aligned(n, b)
  {
    MultipleIsAligned(n / b, b);
    assert n == n / b * b;
  }

  /** Rounding overshoots by less than a block, and a block that starts below n ends at or
      below the rounded end. */
  lemma {:induction false} RoundUpBounds(n: nat, b: nat, i: nat)
    requires b > 0 && Aligned(i, b)
    ensures n <= RoundUp(n, b) < n + b && Aligned(RoundUp(n, b), b)
    ensures i < n ==> i + b <= RoundUp(n, b)
    ensures n <= i ==> RoundUp(n, b) <= i
    decreases n
  {
    if n > b {
      RoundUpBounds(n - b, b, if i >= b then i - b else 0);
    }
  }

  lemma {:induction false} AlignedSum(i: nat, j: nat, b: nat)
    requires b > 0 && Aligned(i, b) && Aligned(j, b)
    ensures Aligned(i + j, b)
    decreases i
  {
    if i > 0 {
      AlignedSum(i - b, j, b);
    }
  }

  lemma {:induction false} AlignedFit(i: Interval, b: nat, size: nat)
    requires b > 0 && Aligned(i.lower, b) && Aligned(size, b) && i.lower < i.upper <= size
    ensures i.lower + RoundUp(i.Cardinality(), b) <= size
    decreases i.lower
  {
    if i.lower == 0 {
      RoundUpBounds(i.upper, b, size);
    } else {
      AlignedFit(Interval(i.lower - b, i.upper - b), b, size - b);
    }
  }

  /** Block-aligned intervals inside a source of whole blocks are read in full: the last,
      rounded-up block still fits. */
  lemma AlignedBlocksFit(i: Interval, b: nat, size: nat)
    requires b > 0 && i.lower % b == 0 && size % b == 0 && i.lower < i.upper <= size
    ensures i.lower + RoundUp(i.Cardinality(), b) <= size
  {
    DivisibleIsAligned(i.lower, b);
    DivisibleIsAligned(size, b);
    AlignedFit(i, b, size);
  }

  // after is before with the sectors lo..hi taken from src.
  predicate Copied(after: seq<int>, before: seq<int>, src: seq<int>, lo: nat, hi: nat)
    requires |src| <= |before|
  {
    && |after| == |before|
    && forall k :: 0 <= k < |after| ==> after[k] == if lo <= k < hi && k < |src| then src[k] else before[k]
  }

  // What the system calls of one block do: succeed, fail or fall short in the read, or fail
  // or fall short in the write after some sectors have reached the destination.
  datatype Fault = NoFault | ReadFails | WriteFails(written: nat)

  // The block at offset can be read and written in full.
  predicate Sound(size: nat, offset: nat, spb: nat, fault: Fault) { fault.NoFault? && offset + spb <= size }

  // The sectors of the block at offset that reach the destination.
  function Reached(size: nat, offset: nat, spb: nat, fault: Fault): nat {
    if offset + spb > size || fault.ReadFails? then 0
    else if fault.WriteFails? && fault.written < spb then fault.written
    else spb
  }

  /** One block: it is copied in full, or the call fails and what reached the destination is
      a prefix of the block, empty when it was the read that failed. */
  method CopyBlock(src: seq<int>, dst: array<int>, offset: nat, spb: nat, fault: Fault) returns (ok: bool)
    requires spb > 0 && |src| <= dst.Length
    modifies dst
    ensures ok <==> fault.NoFault? && offset + spb <= |src|
    ensures !ok && fault.WriteFails? && offset + spb <= |src| ==>
              Copied(dst[..], old(dst[..]), src, offset, offset + if fault.written < spb then fault.written else spb)
    ensures !ok && (fault.ReadFails? || offset + spb > |src|) ==> dst[..] == old(dst[..])
    ensures Copied(dst[..], old(dst[..]), src, offset, offset + Reached(|src|, offset, spb, fault))
  {
    if fault.ReadFails? || offset + spb > |src| {
      return false;
    }
    var written := if fault.WriteFails? && fault.written < spb then fault.written else spb;
    forall k | offset <= k < offset + written {
      dst[k] := src[k];
    }
    return fault.NoFault?;
  }

  lemma {:induction false} AlignedGap(c: nat, i: nat, b: nat)
    requires b > 0 && Aligned(c, b) && Aligned(i, b) && i <= c < i + b
    ensures c == i
    decreases i
  {
    if i > 0 {
      AlignedGap(c - b, i - b, b);
    }
  }

  // Every block that starts below bound is sound; faults are given by block start.
  ghost predicate AllSound(size: nat, lower: nat, bound: nat, spb: nat, faults: nat -> Fault)
    requires spb > 0
  {
    forall c: nat :: Aligned(c, spb) && c < bound ==> Sound(size, lower + c, spb, faults(c))
  }

  lemma AllSoundStep(size: nat, lower: nat, c: nat, spb: nat, faults: nat -> Fault)
    requires spb > 0 && Aligned(c, spb) && AllSound(size, lower, c, spb, faults)
    requires Sound(size, lower + c, spb, faults(c))
    ensures AllSound(size, lower, c + spb, spb, faults)
  {
    forall x: nat | Aligned(x, spb) && x < c + spb ensures Sound(size, lower + x, spb, faults(x)) {
      if c <= x { AlignedGap(x, c, spb); }
    }
  }

  // Without faults the blocks are sound exactly when the rounded interval fits.
  lemma FaultlessIsSound(size: nat, lower: nat, n: nat, spb: nat, faults: nat -> Fault)
    requires spb > 0 && n > 0 && forall c: nat :: faults(c).NoFault?
    ensures AllSound(size, lower, n, spb, faults) <==> lower + RoundUp(n, spb) <= size
  {
    RoundUpBounds(n, spb, 0);
    if lower + RoundUp(n, spb) <= size {
      forall c: nat | Aligned(c, spb) && c < n ensures Sound(size, lower + c, spb, faults(c)) {
        RoundUpBounds(n, spb, c);
      }
    } else {
      var last := LastBlock(n, spb);
      assert !Sound(size, lower + last, spb, faults(last));
    }
  }

  lemma {:induction false} LastBlock(n: nat, b: nat) returns (c: nat)
    requires b > 0 && n > 0
    ensures Aligned(c, b) && c < n && c + b == RoundUp(n, b)
    decreases n
  {
    if n <= b {
      c := 0;
    } else {
      c := LastBlock(n - b, b);
      c := c + b;
    }
  }

  /** The loop copies the interval rounded up to whole blocks, and nothing else.  It stops
      at the first block that is not sound, if there is one, with every block before it
      copied and of that block only what its write let through; when nothing fails, that
      happens exactly when the rounded interval runs past the end of the source. */
  method CopyInterval(src: seq<int>, dst: array<int>, i: Interval, spb: nat, faults: nat -> Fault)
    returns (ok: bool, copied: nat)
    requires spb > 0 && |src| <= dst.Length
    modifies dst
    ensures ok <==> AllSound(|src|, i.lower, i.Cardinality(), spb, faults)
    ensures ok ==> copied == RoundUp(i.Cardinality(), spb)
    ensures !ok ==> Aligned(copied, spb) && copied < i.Cardinality()
                    && AllSound(|src|, i.lower, copied, spb, faults)
                    && !Sound(|src|, i.lower + copied, spb, faults(copied))
    ensures Copied(dst[..], old(dst[..]), src, i.lower, i.lower + copied +
                     if ok then 0 else Reached(|src|, i.lower + copied, spb, faults(copied)))
    ensures (forall c: nat :: faults(c).NoFault?) ==>
              (ok <==> i.Cardinality() == 0 || i.lower + RoundUp(i.Cardinality(), spb) <= |src|)
  {
    copied := 0;
    var n := i.Cardinality();
    ghost var end := RoundUp(n, spb);
    RoundUpBounds(n, spb, 0);
    if n > 0 && (forall c: nat :: faults(c).NoFault?) { FaultlessIsSound(|src|, i.lower, n, spb, faults); }
    while copied < n
      invariant Aligned(copied, spb) && copied <= end
      invariant AllSound(|src|, i.lower, copied, spb, faults)
      invariant Copied(dst[..], old(dst[..]), src, i.lower, i.lower + copied)
      decreases end - copied
    {
      RoundUpBounds(n, spb, copied);
      var done := CopyBlock(src, dst, i.lower + copied, spb, faults(copied));
      if !done {
        return false, copied;
      }
      AllSoundStep(|src|, i.lower, copied, spb, faults);
      AlignedSum(copied, spb, spb);
      copied := copied + spb;
    }
    RoundUpBounds(n, spb, copied);
    ok := true;
  }
}
