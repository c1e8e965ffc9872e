/**
 decodeV1SimpleLogoRow: one row of a run-length image, found through an index
 of (run, skip) pairs, against the full expansion of the run table.
 */
module LogoRow {
  import opened Bytes

  const WIDTH: nat := 640
  const HEIGHT: nat := 172

  type Packed = p: nat | p < 0x1_0000_0000
  type Half = h: nat | h < 0x1_0000

  function Color(run: Packed): Half { run % 0x1_0000 }

  function Count(run: Packed): Half { run / 0x1_0000 }

  function Repeat(color: Half, n: nat): (r: seq<Half>)
    ensures |r| == n && forall i :: 0 <= i < n ==> r[i] == color
  {
    seq(n, _ => color)
  }

  /** The whole image, pixel after pixel. */
  function Expand(runs: seq<Packed>): seq<Half> {
    if runs == [] then []
    else Expand(runs[..|runs| - 1]) + Repeat(Color(runs[|runs| - 1]), Count(runs[|runs| - 1]))
  }

  /** The first pixel of run k. */
  function Offset(runs: seq<Packed>, k: nat): nat
    requires k <= |runs|
  {
    if k == 0 then 0 else Offset(runs, k - 1) + Count(runs[k - 1])
  }

  /** A run covers as many pixels as its upper half says, from Offset(k) on, in the colour of its lower half. */
  lemma {:induction false} ExpandAt(runs: seq<Packed>, k: nat, i: nat)
    requires k < |runs| && i < runs[k] / 0x1_0000
    ensures Offset(runs, k) + i < |Expand(runs)| && Expand(runs)[Offset(runs, k) + i] == runs[k] % 0x1_0000
    ensures Offset(runs, k + 1) == Offset(runs, k) + runs[k] / 0x1_0000
    decreases |runs|
  {
    var front := runs[..|runs| - 1];
    if k == |runs| - 1 {
      ExpandLength(front);
      OffsetPrefix(runs, k);
    } else {
      ExpandAt(front, k, i);
      OffsetPrefix(runs, k);
    }
  }

  lemma {:induction false} ExpandLength(runs: seq<Packed>)
    ensures |Expand(runs)| == Offset(runs, |runs|)
    decreases |runs|
  {
    if runs != [] {
      ExpandLength(runs[..|runs| - 1]);
      OffsetPrefix(runs, |runs| - 1);
    }
  }

  lemma {:induction false} OffsetPrefix(runs: seq<Packed>, k: nat)
    requires runs != [] && k < |runs|
    ensures Offset(runs[..|runs| - 1], k) == Offset(runs, k)
    decreases k
  {
    if k > 0 { OffsetPrefix(runs, k - 1); }
  }

  /** The index entry of a row agrees with the prefix sums of the run lengths. */
  predicate IndexAgrees(runs: seq<Packed>, startRun: nat, startSkip: nat, position: nat) {
    && startRun <= |runs|
    && Offset(runs, startRun) + startSkip == position
    && (if startRun < |runs| then startSkip <= Count(runs[startRun]) else startSkip == 0)
  }

  /** How many pixels of a row the image really has. */
  function RowLength(runs: seq<Packed>, row: nat): nat {
    if |Expand(runs)| <= 640 * row then 0 else Min(640, |Expand(runs)| - 640 * row)
  }

  /**
   Decoding a row whose index entry agrees with the run table writes exactly
   that row of the full expansion and nothing else; a null destination, a row
   outside the image or a short destination leaves everything alone.
   */
  method DecodeRow(runs: seq<Packed>, startRun: seq<Half>, startSkip: seq<Half>, row: Half,
                   dest: array?<Half>, destCount: nat)
    requires |startRun| == |startSkip| == 172 && |runs| < 0x1_0000
    requires dest != null ==> destCount <= dest.Length
    requires row < 172 ==> IndexAgrees(runs, startRun[row], startSkip[row], 640 * row)
    modifies dest
    ensures dest != null && (row >= 172 || destCount < 640) ==> dest[..] == old(dest[..])
    ensures dest != null && row < 172 && destCount >= 640 ==>
              var n := RowLength(runs, row);
              && 640 * row + n <= |Expand(runs)|
              && dest[..n] == Expand(runs)[640 * row..640 * row + n]
              && dest[n..] == old(dest[n..])
  {
    if dest == null || row >= HEIGHT || destCount < WIDTH {
      return;
    }
    hide Expand, Offset, IndexAgrees;
    var runIndex: nat, runSkip: nat, written: nat := startRun[row], startSkip[row], 0;
    ghost var pixels := Expand(runs);
    ghost var base := WIDTH * row;
    IndexInRange(runs, runIndex, runSkip, base);
    while written < WIDTH && runIndex < |runs|
      invariant written <= WIDTH && runIndex <= |runs| && base + written <= |pixels|
      invariant written < WIDTH ==> IndexAgrees(runs, runIndex, runSkip, base + written)
      invariant dest[..written] == pixels[base..base + written]
      invariant forall i :: written <= i < dest.Length ==> dest[i] == old(dest[i])
      decreases |runs| - runIndex
    {
      var color := Color(runs[runIndex]);
      var count := Count(runs[runIndex]);
      IndexInRange(runs, runIndex, runSkip, base + written);
      var available := (count - runSkip) % 0x1_0000;      // no wrap: the skip lies inside the run
      assert available == count - runSkip;
      if available > WIDTH - written { available := WIDTH - written; }
      IndexStep(runs, runIndex, runSkip, base + written, available);
      written := CopyRun(dest, written, color, available, pixels, base);
      runIndex, runSkip := runIndex + 1, 0;
    }
    if written < WIDTH { IndexInRange(runs, runIndex, runSkip, base + written); }
    assert dest[written..] == old(dest[written..]);
  }

  /** An agreeing entry lies inside the image, its skip inside its run; past the last run it is the end. */
  lemma IndexInRange(runs: seq<Packed>, k: nat, skip: nat, position: nat)
    requires IndexAgrees(runs, k, skip, position)
    ensures k <= |runs| && position <= |Expand(runs)|
    ensures if k < |runs| then skip <= Count(runs[k]) else position == |Expand(runs)|
  {
    ExpandLength(runs);
    hide Expand;
    if k < |runs| {
      OffsetNext(runs, k);
      OffsetMonotone(runs, k + 1, |runs|);
    }
  }

  /** The next n pixels are in run k; if that is the rest of it, the entry of run k + 1 agrees. */
  lemma IndexStep(runs: seq<Packed>, k: nat, skip: nat, position: nat, n: nat)
    requires k < |runs| && IndexAgrees(runs, k, skip, position) && skip + n <= Count(runs[k])
    ensures position + n <= |Expand(runs)|
    ensures forall i :: position <= i < position + n ==> Expand(runs)[i] == Color(runs[k])
    ensures skip + n == Count(runs[k]) ==> IndexAgrees(runs, k + 1, 0, position + n)
  {
    hide Expand;
    RunPixels(runs, k, skip, n);
    OffsetNext(runs, k);
  }

  lemma {:induction false} OffsetMonotone(runs: seq<Packed>, a: nat, b: nat)
    requires a <= b <= |runs|
    ensures Offset(runs, a) <= Offset(runs, b)
    decreases b - a
  {
    if a < b { OffsetMonotone(runs, a, b - 1); }
  }

  lemma OffsetNext(runs: seq<Packed>, k: nat)
    requires k < |runs|
    ensures Offset(runs, k + 1) == Offset(runs, k) + Count(runs[k])
  {}

  lemma RunPixels(runs: seq<Packed>, k: nat, skip: nat, n: nat)
    requires k < |runs| && skip + n <= Count(runs[k])
    ensures Offset(runs, k) + skip + n <= |Expand(runs)|
    ensures forall i :: Offset(runs, k) + skip <= i < Offset(runs, k) + skip + n ==> Expand(runs)[i] == Color(runs[k])
  {
    ExpandLength(runs);
    OffsetMonotone(runs, k + 1, |runs|);
    forall i | Offset(runs, k) + skip <= i < Offset(runs, k) + skip + n
      ensures Expand(runs)[i] == Color(runs[k])
    {
      ExpandAt(runs, k, i - Offset(runs, k));
    }
  }

  /** The inner loop over one run. */
  method CopyRun(dest: array<Half>, from: nat, color: Half, n: nat, ghost pixels: seq<Half>, ghost base: nat)
    returns (written: nat)
    requires from + n <= dest.Length && base + from + n <= |pixels|
    requires dest[..from] == pixels[base..base + from]
    requires forall i :: base + from <= i < base + from + n ==> pixels[i] == color
    modifies dest
    ensures written == from + n && dest[..written] == pixels[base..base + written]
    ensures forall i :: written <= i < dest.Length ==> dest[i] == old(dest[i])
  {
    written := from;
    for i := 0 to n
      invariant written == from + i
      invariant dest[..written] == pixels[base..base + written]
      invariant forall i :: written <= i < dest.Length ==> dest[i] == old(dest[i])
    {
      dest[written] := color;
      assert dest[..written + 1] == dest[..written] + [color];
      written := written + 1;
    }
  }
}
