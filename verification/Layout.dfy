/** The arrangement of blocks and gaps in the memory manager's byte array, as pure functions of the
    array's contents m and the handle table o: what the sanity check demands, the sums the allocator
    computes, and the one framing lemma behind every operation. */
module Layout {
  import opened Wrappers
  import opened Tags

  // One entry of the handle table. A null pointer (offset 0) marks a released slot: offset 0 always
  // belongs to the leftmost gap.
  datatype Obj = Obj(ptr: nat, rq: nat, rsp: nat) {
    predicate Live() { ptr != 0 }
    function Size(): nat { rq + rsp }
    function End(): nat { ptr + rq + rsp }
  }

  const NULL_OBJ := Obj(0, 0, 0)

  // What a handle's owner sees: its request bytes and its response bytes.
  datatype Pair = Pair(request: seq<byte>, response: seq<byte>)

  // Where the gap before slot k starts: the end of the nearest live block below k.
  function LeftEnd(o: seq<Obj>, k: nat): nat
    requires k <= |o|
  {
    if k == 0 then 0 else if o[k - 1].Live() then o[k - 1].End() else LeftEnd(o, k - 1)
  }

  // Where the gap that slot k - 1 looks into ends: the start of the first live block from k on.
  function RightStart(o: seq<Obj>, k: nat, n: nat): nat
    requires k <= |o|
    decreases |o| - k
  {
    if k == |o| then n else if o[k].Live() then o[k].ptr else RightStart(o, k + 1, n)
  }

  // The heap invariant: blocks in handle order, every gap at least one byte and tagged at both ends.
  predicate Wf(m: seq<byte>, o: seq<Obj>) {
    |m| < UINT16 && GapsOk(m, o, |o|) && GapOk(m, LeftEnd(o, |o|), |m|)
  }

  // The gaps left of the live blocks among the first k slots are in order.
  predicate GapsOk(m: seq<byte>, o: seq<Obj>, k: nat)
    requires k <= |o|
  {
    k == 0 || (GapsOk(m, o, k - 1) && (o[k - 1].Live() ==> GapOk(m, LeftEnd(o, k - 1), o[k - 1].ptr)))
  }

  lemma {:induction false} GapsOkAt(m: seq<byte>, o: seq<Obj>, k: nat, i: nat)
    requires i < k <= |o| && GapsOk(m, o, k) && o[i].Live()
    ensures GapOk(m, LeftEnd(o, i), o[i].ptr)
  {
    if i == k - 1 {
    } else {
      GapsOkAt(m, o, k - 1, i);
    }
  }

  lemma {:induction false} GapsOkIntro(m: seq<byte>, o: seq<Obj>, k: nat)
    requires k <= |o| && forall i :: 0 <= i < k && o[i].Live() ==> GapOk(m, LeftEnd(o, i), o[i].ptr)
    ensures GapsOk(m, o, k)
  {
    if k == 0 {
    } else {
      GapsOkIntro(m, o, k - 1);
    }
  }

  lemma WfTop(m: seq<byte>, o: seq<Obj>)
    requires Wf(m, o)
    ensures GapOk(m, LeftEnd(o, |o|), |m|)
  {
  }

  lemma GapInside(m: seq<byte>, a: nat, b: nat)
    requires GapOk(m, a, b)
    ensures a < b <= |m|
  {
  }

  lemma WfLength(m: seq<byte>, o: seq<Obj>)
    requires Wf(m, o)
    ensures |m| < UINT16
  {
  }

  lemma {:induction false} WfGap(m: seq<byte>, o: seq<Obj>, i: nat)
    requires Wf(m, o) && i < |o| && o[i].Live()
    ensures GapOk(m, LeftEnd(o, i), o[i].ptr)
  {
    GapsOkAt(m, o, |o|, i);
  }

  function Slice(m: seq<byte>, a: nat, b: nat): (s: seq<byte>)
    ensures |s| == if a <= b <= |m| then b - a else 0
    ensures b <= a ==> s == []
  {
    if a <= b <= |m| then m[a..b] else []
  }

  function BlockOf(m: seq<byte>, ob: Obj): Option<Pair> {
    if ob.Live() then Some(Pair(Slice(m, ob.ptr, ob.ptr + ob.rq), Slice(m, ob.ptr + ob.rq, ob.End())))
    else None
  }

  function ViewOf(m: seq<byte>, o: seq<Obj>): (v: seq<Option<Pair>>)
    ensures |v| == |o|
    ensures forall k :: 0 <= k < |o| ==> v[k] == BlockOf(m, o[k])
  {
    seq(|o|, k requires 0 <= k < |o| => BlockOf(m, o[k]))
  }

  // ---------------------------------------------------------------------------------- positions

  lemma {:induction false} LeftEndBound(m: seq<byte>, o: seq<Obj>, k: nat)
    requires Wf(m, o) && k <= |o|
    ensures LeftEnd(o, k) < |m|
    decreases |o| - k
  {
    if k == |o| {
    } else {
      LeftEndBound(m, o, k + 1);
      if o[k].Live() { WfGap(m, o, k); }
    }
  }

  lemma {:induction false} LeftEndMonotone(m: seq<byte>, o: seq<Obj>, j: nat, k: nat)
    requires Wf(m, o) && j <= k <= |o|
    ensures LeftEnd(o, j) <= LeftEnd(o, k) < |m|
    ensures forall i :: j <= i < k && o[i].Live() ==> LeftEnd(o, j) < o[i].ptr && o[i].End() <= LeftEnd(o, k)
  {
    LeftEndBound(m, o, k);
    if j == k {
    } else {
      LeftEndMonotone(m, o, j, k - 1);
      if o[k - 1].Live() { WfGap(m, o, k - 1); }
    }
  }

  lemma LeftEndPrefix(o: seq<Obj>, o': seq<Obj>, k: nat)
    requires k <= |o| && k <= |o'| && forall i :: 0 <= i < k ==> o[i] == o'[i]
    ensures LeftEnd(o, k) == LeftEnd(o', k)
  {
    if k == 0 {
    } else {
      LeftEndPrefix(o, o', k - 1);
    }
  }

  lemma PastFree(o: seq<Obj>, k: nat, n: nat)
    requires k < |o| && !o[k].Live()
    ensures RightStart(o, k, n) == RightStart(o, k + 1, n)
  {
  }

  lemma RightStartSuffix(o: seq<Obj>, o': seq<Obj>, k: nat, n: nat)
    requires k <= |o| == |o'| && forall i :: k <= i < |o| ==> o[i] == o'[i]
    ensures RightStart(o, k, n) == RightStart(o', k, n)
    decreases |o| - k
  {
    if k == |o| {
    } else {
      RightStartSuffix(o, o', k + 1, n);
    }
  }

  // The first live slot from k on, |o| if there is none.
  function NextLive(o: seq<Obj>, k: nat): (j: nat)
    requires k <= |o|
    ensures k <= j <= |o| && (j < |o| ==> o[j].Live())
    ensures forall i :: k <= i < j ==> !o[i].Live()
    decreases |o| - k
  {
    if k == |o| || o[k].Live() then k else NextLive(o, k + 1)
  }

  lemma NextLivePositions(o: seq<Obj>, k: nat, n: nat)
    requires k <= |o|
    ensures var j := NextLive(o, k);
      LeftEnd(o, j) == LeftEnd(o, k) && RightStart(o, k, n) == if j < |o| then o[j].ptr else n
    decreases |o| - k
  {
    if k == |o| || o[k].Live() {
    } else {
      NextLivePositions(o, k + 1, n);
    }
  }

  // From every cut of the table, one well-tagged gap lies between what is left and what is right.
  lemma GapAt(m: seq<byte>, o: seq<Obj>, k: nat)
    requires Wf(m, o) && k <= |o|
    ensures GapOk(m, LeftEnd(o, k), RightStart(o, k, |m|))
  {
    NextLivePositions(o, k, |m|);
    if NextLive(o, k) < |o| { WfGap(m, o, NextLive(o, k)); }
  }

  // A live block's neighbourhood.
  lemma GapsAround(m: seq<byte>, o: seq<Obj>, h: nat)
    requires Wf(m, o) && h < |o| && o[h].Live()
    ensures GapOk(m, LeftEnd(o, h), o[h].ptr) && GapOk(m, o[h].End(), RightStart(o, h + 1, |m|))
    ensures LeftEnd(o, h) < o[h].ptr <= o[h].End() < RightStart(o, h + 1, |m|) <= |m|
  {
    WfGap(m, o, h);
    GapAt(m, o, h + 1);
  }

  // ------------------------------------------------------------------------------------ framing

  lemma {:induction false} LeftEndAbove(m: seq<byte>, o: seq<Obj>, o': seq<Obj>, r: nat, k: nat)
    requires Wf(m, o) && r <= k <= |o| == |o'|
    requires forall i :: r <= i < |o| ==> o'[i] == o[i]
    ensures if NextLive(o, r) < k then
              LeftEnd(o', k) == LeftEnd(o, k) && RightStart(o, r, |m|) <= LeftEnd(o, k)
            else
              LeftEnd(o', k) == LeftEnd(o', r)
  {
    if r == k {
    } else {
      LeftEndAbove(m, o, o', r, k - 1);
      if NextLive(o, r) < k {
        NextLivePositions(o, r, |m|);
        LeftEndMonotone(m, o, NextLive(o, r), k);
      }
    }
  }

  // The hypotheses of the framing lemma: slots l..r rearranged between lo and hi, nothing else touched.
  ghost predicate Rearranged(m: seq<byte>, o: seq<Obj>, m': seq<byte>, o': seq<Obj>, l: nat, r: nat) {
    && l <= r <= |o| == |o'| && |m'| == |m|
    && (forall i :: 0 <= i < |o| && !(l <= i < r) ==> o'[i] == o[i])
    && (forall i :: 0 <= i < |m| && !(LeftEnd(o, l) <= i < RightStart(o, r, |m|)) ==> m'[i] == m[i])
  }

  lemma GapBelow(m: seq<byte>, o: seq<Obj>, m': seq<byte>, o': seq<Obj>, l: nat, r: nat, k: nat)
    requires Wf(m, o) && Rearranged(m, o, m', o', l, r) && k < l && o[k].Live()
    ensures GapOk(m', LeftEnd(o', k), o'[k].ptr)
  {
    LeftEndPrefix(o, o', k);
    LeftEndMonotone(m, o, k, l);
    WfGap(m, o, k);
    GapFrame(m, m', LeftEnd(o, k), o[k].ptr);
  }

  // k = |o| stands for the gap at the top of the array.
  lemma GapAbove(m: seq<byte>, o: seq<Obj>, m': seq<byte>, o': seq<Obj>, l: nat, r: nat, k: nat, b: nat)
    requires Wf(m, o) && Rearranged(m, o, m', o', l, r) && r <= k <= |o|
    requires (k < |o| && o[k].Live() && b == o[k].ptr) || (k == |o| && b == |m|)
    requires GapOk(m', LeftEnd(o', r), RightStart(o, r, |m|))
    ensures GapOk(m', LeftEnd(o', k), b)
  {
    hide GapOk, Wf;
    LeftEndAbove(m, o, o', r, k);
    if NextLive(o, r) < k {
      if k < |o| { WfGap(m, o, k); } else { WfTop(m, o); }
      assert GapOk(m, LeftEnd(o, k), b);
      GapInside(m, LeftEnd(o, k), b);
      LeftEndMonotone(m, o, r, k);
      GapFrame(m, m', LeftEnd(o, k), b);
    } else {
      NextLivePositions(o, r, |m|);
      assert RightStart(o, r, |m|) == b;
    }
  }

  /** The framing lemma behind every operation. Slots l..r may be rearranged in any way inside the
      stretch of the array they and their outer gaps occupy; if their gaps are in order afterwards,
      the whole heap is, and nobody else's bytes have changed. */
  lemma LocalChange(m: seq<byte>, o: seq<Obj>, m': seq<byte>, o': seq<Obj>, l: nat, r: nat)
    requires Wf(m, o) && Rearranged(m, o, m', o', l, r)
    requires forall k :: l <= k < r && o'[k].Live() ==> GapOk(m', LeftEnd(o', k), o'[k].ptr)
    requires GapOk(m', LeftEnd(o', r), RightStart(o, r, |m|))
    ensures Wf(m', o')
    ensures forall i :: 0 <= i < |o| && !(l <= i < r) ==> BlockOf(m', o'[i]) == BlockOf(m, o[i])
    ensures LeftEnd(o', l) == LeftEnd(o, l) && RightStart(o', r, |m|) == RightStart(o, r, |m|)
  {
    LeftEndPrefix(o, o', l);
    RightStartSuffix(o, o', r, |m|);
    forall k | 0 <= k < |o| && o'[k].Live() ensures GapOk(m', LeftEnd(o', k), o'[k].ptr) {
      if k < l {
        GapBelow(m, o, m', o', l, r, k);
      } else if k >= r {
        GapAbove(m, o, m', o', l, r, k, o[k].ptr);
      }
    }
    GapsOkIntro(m', o', |o|);
    GapAbove(m, o, m', o', l, r, |o|, |m|);
    forall i | 0 <= i < |o| && !(l <= i < r) ensures BlockOf(m', o'[i]) == BlockOf(m, o[i]) {
      UntouchedBlock(m, o, m', l, r, i);
    }
  }

  // Any live block lies wholly below or wholly above a stretch it has no part in.
  lemma BlockOutside(m: seq<byte>, o: seq<Obj>, l: nat, r: nat, i: nat)
    requires Wf(m, o) && l <= r <= |o| && i < |o| && !(l <= i < r) && o[i].Live()
    ensures o[i].End() <= |m|
    ensures o[i].End() <= LeftEnd(o, l) || RightStart(o, r, |m|) <= o[i].ptr
  {
    if i < l {
      LeftEndMonotone(m, o, i, l);
    } else {
      LeftEndMonotone(m, o, i, |o|);
      NextLivePositions(o, r, |m|);
      if NextLive(o, r) < i {
        LeftEndMonotone(m, o, NextLive(o, r), i);
      }
    }
  }

  lemma SliceSame(m: seq<byte>, m': seq<byte>, a: nat, b: nat)
    requires |m| == |m'| && forall i :: a <= i < b && i < |m| ==> m'[i] == m[i]
    ensures Slice(m', a, b) == Slice(m, a, b)
  {
  }

  lemma UntouchedBlock(m: seq<byte>, o: seq<Obj>, m': seq<byte>, l: nat, r: nat, i: nat)
    requires Wf(m, o) && l <= r <= |o| && |m'| == |m| && i < |o| && !(l <= i < r)
    requires forall b :: 0 <= b < |m| && !(LeftEnd(o, l) <= b < RightStart(o, r, |m|)) ==> m'[b] == m[b]
    ensures BlockOf(m', o[i]) == BlockOf(m, o[i])
  {
    hide Wf, LeftEnd, RightStart, Slice;
    if o[i].Live() {
      BlockOutside(m, o, l, r, i);
      SliceSame(m, m', o[i].ptr, o[i].ptr + o[i].rq);
      SliceSame(m, m', o[i].ptr + o[i].rq, o[i].End());
    }
  }

  // Released slots at the end of the table may come and go.
  lemma TrailingNull(m: seq<byte>, o: seq<Obj>, n: nat)
    requires n <= |o| && forall i :: n <= i < |o| ==> !o[i].Live()
    ensures Wf(m, o[..n]) <==> Wf(m, o)
  {
    LeftEndPrefix(o[..n], o, n);
    NextLivePositions(o, n, |m|);
    GapsOkTrailing(m, o, n, |o|);
    GapsOkPrefix(m, o[..n], o, n);
  }

  lemma {:induction false} GapsOkPrefix(m: seq<byte>, o: seq<Obj>, o': seq<Obj>, k: nat)
    requires k <= |o| && k <= |o'| && forall i :: 0 <= i < k ==> o[i] == o'[i]
    ensures GapsOk(m, o, k) <==> GapsOk(m, o', k)
  {
    if k == 0 {
    } else {
      GapsOkPrefix(m, o, o', k - 1);
      LeftEndPrefix(o, o', k - 1);
    }
  }

  lemma {:induction false} GapsOkTrailing(m: seq<byte>, o: seq<Obj>, n: nat, k: nat)
    requires n <= k <= |o| && forall i :: n <= i < |o| ==> !o[i].Live()
    ensures GapsOk(m, o, k) <==> GapsOk(m, o, n)
  {
    if n == k {
    } else {
      GapsOkTrailing(m, o, n, k - 1);
    }
  }

  // --------------------------------------------------------------------------------------- sums

  // Bytes that slots l..r take for good: each live block and the one gap byte it cannot give up.
  function Used(o: seq<Obj>, l: nat, r: nat): nat
    requires r <= |o|
  {
    if r <= l then 0 else Used(o, l, r - 1) + if o[r - 1].Live() then o[r - 1].Size() + 1 else 0
  }

  // The freeable bytes right of the live blocks l..r-1: for each, its right gap less one.
  function FreeableRight(o: seq<Obj>, l: nat, r: nat, n: nat): int
    requires r <= |o|
  {
    if r <= l then 0
    else FreeableRight(o, l, r - 1, n) + if o[r - 1].Live() then RightStart(o, r, n) - o[r - 1].End() - 1 else 0
  }

  // The freeable bytes left of the live blocks l..r-1: for each, its left gap less one.
  function FreeableLeft(o: seq<Obj>, l: nat, r: nat): int
    requires r <= |o|
    decreases r - l
  {
    if r <= l then 0
    else (if o[l].Live() then o[l].ptr - LeftEnd(o, l) - 1 else 0) + FreeableLeft(o, l + 1, r)
  }

  // All the freeable bytes: every gap counted once, by the block to its right or as the last one.
  function TotalFreeable(o: seq<Obj>, n: nat): int {
    FreeableLeft(o, 0, |o|) + n - LeftEnd(o, |o|) - 1
  }

  lemma {:induction false} UsedSplit(o: seq<Obj>, l: nat, k: nat, r: nat)
    requires l <= k <= r <= |o|
    ensures Used(o, l, r) == Used(o, l, k) + Used(o, k, r)
  {
    if k == r {
    } else {
      UsedSplit(o, l, k, r - 1);
    }
  }

  lemma {:induction false} UsedSame(o: seq<Obj>, o': seq<Obj>, l: nat, r: nat)
    requires r <= |o| && r <= |o'|
    requires forall i :: l <= i < r ==> o[i].Live() == o'[i].Live() && o[i].Size() == o'[i].Size()
    ensures Used(o, l, r) == Used(o', l, r)
  {
    if r <= l {
    } else {
      UsedSame(o, o', l, r - 1);
    }
  }

  // Two tables that differ only in slot h, live in both.
  lemma UsedChanged(o: seq<Obj>, o': seq<Obj>, h: nat)
    requires h < |o| == |o'| && o[h].Live() && o'[h].Live() && o' == o[h := o'[h]]
    ensures Used(o', 0, |o|) - Used(o, 0, |o|) == o'[h].Size() - o[h].Size()
  {
    UsedSplit(o, 0, h, |o|);
    UsedSplit(o, h, h + 1, |o|);
    UsedSplit(o', 0, h, |o|);
    UsedSplit(o', h, h + 1, |o|);
    UsedSame(o, o', 0, h);
    UsedSame(o, o', h + 1, |o|);
    assert Used(o, h, h) == Used(o', h, h) == 0;
  }

  lemma {:induction false} FreeableRightClosed(o: seq<Obj>, l: nat, r: nat, n: nat)
    requires l < r <= |o| && o[l].Live()
    ensures FreeableRight(o, l, r, n) == RightStart(o, r, n) - o[l].ptr - Used(o, l, r)
  {
    if l + 1 < r {
      FreeableRightClosed(o, l, r - 1, n);
    } else {
      assert FreeableRight(o, l, l, n) == 0 && Used(o, l, l) == 0;
    }
  }

  lemma {:induction false} FreeableLeftClosed(o: seq<Obj>, l: nat, r: nat)
    requires l <= r <= |o|
    ensures FreeableLeft(o, l, r) == LeftEnd(o, r) - LeftEnd(o, l) - Used(o, l, r)
    decreases r - l
  {
    if l == r {
    } else {
      FreeableLeftClosed(o, l + 1, r);
      UsedSplit(o, l, l + 1, r);
      assert Used(o, l, l + 1) == Used(o, l, l) + if o[l].Live() then o[l].Size() + 1 else 0;
    }
  }

  /** Blocks and gaps add up to the whole array: what can still be allocated depends only on the
      block sizes and the number of live handles, never on where the blocks lie. */
  lemma Conservation(o: seq<Obj>, n: nat)
    ensures TotalFreeable(o, n) + Used(o, 0, |o|) + 1 == n
  {
    FreeableLeftClosed(o, 0, |o|);
  }

  // Seen from a live block, all the freeable space is to its left or to its right.
  lemma FreeableAround(o: seq<Obj>, h: nat, n: nat)
    requires h < |o| && o[h].Live()
    ensures FreeableRight(o, h, |o|, n) + FreeableLeft(o, 0, h + 1) == TotalFreeable(o, n)
  {
    FreeableRightClosed(o, h, |o|, n);
    FreeableLeftClosed(o, 0, h + 1);
    UsedSplit(o, 0, h, |o|);
    Conservation(o, n);
    assert Used(o, 0, h + 1) == Used(o, 0, h) + o[h].Size() + 1;
  }

  lemma {:induction false} FreeableNonNegative(m: seq<byte>, o: seq<Obj>, l: nat, r: nat)
    requires Wf(m, o) && l <= r <= |o|
    ensures 0 <= FreeableRight(o, l, r, |m|) && 0 <= FreeableLeft(o, l, r)
    ensures 0 <= TotalFreeable(o, |m|) < UINT16
  {
    FreeableRightNonNegative(m, o, l, r);
    FreeableLeftNonNegative(m, o, l, r);
    FreeableLeftNonNegative(m, o, 0, |o|);
    Conservation(o, |m|);
  }

  lemma {:induction false} FreeableRightNonNegative(m: seq<byte>, o: seq<Obj>, l: nat, r: nat)
    requires Wf(m, o) && l <= r <= |o|
    ensures 0 <= FreeableRight(o, l, r, |m|)
  {
    if l == r {
    } else {
      FreeableRightNonNegative(m, o, l, r - 1);
      GapAt(m, o, r);
    }
  }

  lemma {:induction false} FreeableLeftNonNegative(m: seq<byte>, o: seq<Obj>, l: nat, r: nat)
    requires Wf(m, o) && l <= r <= |o|
    ensures 0 <= FreeableLeft(o, l, r)
    decreases r - l
  {
    if l == r {
    } else {
      FreeableLeftNonNegative(m, o, l + 1, r);
      if o[l].Live() { WfGap(m, o, l); }
    }
  }

  lemma {:induction false} FreeableRightGrows(m: seq<byte>, o: seq<Obj>, l: nat, k: nat, r: nat)
    requires Wf(m, o) && l <= k <= r <= |o|
    ensures FreeableRight(o, l, k, |m|) <= FreeableRight(o, l, r, |m|)
  {
    if k == r {
    } else {
      FreeableRightGrows(m, o, l, k, r - 1);
      GapAt(m, o, r);
    }
  }

  lemma {:induction false} FreeableLeftGrows(m: seq<byte>, o: seq<Obj>, l: nat, k: nat, r: nat)
    requires Wf(m, o) && l <= k <= r <= |o|
    ensures FreeableLeft(o, k, r) <= FreeableLeft(o, l, r)
    decreases k - l
  {
    if l == k {
    } else {
      FreeableLeftGrows(m, o, l + 1, k, r);
      if o[l].Live() { WfGap(m, o, l); }
    }
  }
}
