/** The steps of the relocating heap as facts about array contents, tables and views: what moving,
    growing, trimming, inserting and removing blocks does, and what acquiring and releasing handles
    is meant to do. */
module HeapSteps {
  import opened Wrappers
  import opened Tags
  import opened Layout

  datatype AcquireOutcome = Acquired(h: nat) | NoSpace | StorageFault

  // One slot changes, from live to live: the rest of the heap does not notice.
  lemma OneSlot(m: seq<byte>, o: seq<Obj>, m': seq<byte>, h: nat, nb: Obj)
    requires Wf(m, o) && h < |o| && o[h].Live() && nb.Live() && |m'| == |m|
    requires forall i :: 0 <= i < |m| && !(LeftEnd(o, h) <= i < RightStart(o, h + 1, |m|)) ==> m'[i] == m[i]
    requires GapOk(m', LeftEnd(o, h), nb.ptr) && GapOk(m', nb.End(), RightStart(o, h + 1, |m|))
    ensures Wf(m', o[h := nb])
    ensures ViewOf(m', o[h := nb]) == ViewOf(m, o)[h := BlockOf(m', nb)]
  {
    hide GapOk;
    var o' := o[h := nb];
    LeftEndPrefix(o, o', h);
    assert LeftEnd(o', h + 1) == nb.End();
    LocalChange(m, o, m', o', h, h + 1);
  }

  // A block whose bytes stand at another place still holds the same request and response.
  lemma BlockMoved(m: seq<byte>, m': seq<byte>, ob: Obj, p: nat)
    requires ob.Live() && p != 0 && ob.End() <= |m| && p + ob.Size() <= |m'|
    requires m'[p..p + ob.Size()] == m[ob.ptr..ob.End()]
    ensures BlockOf(m', ob.(ptr := p)) == BlockOf(m, ob)
  {
    var s := m[ob.ptr..ob.End()];
    assert m'[p..p + ob.rq] == s[..ob.rq] == m[ob.ptr..ob.ptr + ob.rq];
    assert m'[p + ob.rq..p + ob.Size()] == s[ob.rq..] == m[ob.ptr + ob.rq..ob.End()];
  }

  lemma BlockKept(m: seq<byte>, m': seq<byte>, ob: Obj)
    requires ob.Live() && |m'| == |m| && forall i :: ob.ptr <= i < ob.End() && i < |m| ==> m'[i] == m[i]
    ensures BlockOf(m', ob) == BlockOf(m, ob)
  {
    hide Slice;
    SliceSame(m, m', ob.ptr, ob.ptr + ob.rq);
    SliceSame(m, m', ob.ptr + ob.rq, ob.End());
  }

  // Block h has been copied to nb's place and the gaps around it tagged anew.
  lemma Slid(m: seq<byte>, o: seq<Obj>, m': seq<byte>, h: nat, ob: Obj, p: nat, lo: nat, hi: nat)
    requires Wf(m, o) && h < |o| && ob == o[h] && ob.Live() && |m'| == |m|
    requires lo == LeftEnd(o, h) && hi == RightStart(o, h + 1, |m|)
    requires ob.End() <= |m| && lo < p && p + ob.Size() <= |m|
    requires m'[p..p + ob.Size()] == m[ob.ptr..ob.End()]
    requires forall i :: 0 <= i < |m| && !(lo <= i < hi) ==> m'[i] == m[i]
    requires GapOk(m', lo, p) && GapOk(m', p + ob.Size(), hi)
    ensures Wf(m', o[h := ob.(ptr := p)]) && ViewOf(m', o[h := ob.(ptr := p)]) == ViewOf(m, o)
  {
    hide GapOk;
    var nb := ob.(ptr := p);
    BlockMoved(m, m', ob, p);
    OneSlot(m, o, m', h, nb);
    assert ViewOf(m, o)[h := BlockOf(m', nb)] == ViewOf(m, o);
  }

  // Handle h's response has grown by n bytes at its end; everything else is as it was.
  ghost predicate GrewRight(v: seq<Option<Pair>>, v': seq<Option<Pair>>, h: nat, n: nat) {
    && |v'| == |v| && h < |v| && v[h].Some? && v'[h].Some?
    && v' == v[h := v'[h]]
    && v'[h].value.request == v[h].value.request
    && |v'[h].value.response| == |v[h].value.response| + n
    && v'[h].value.response[..|v[h].value.response|] == v[h].value.response
  }

  // Handle h's request is gone and its response has grown by n bytes at its start.
  ghost predicate GrewLeft(v: seq<Option<Pair>>, v': seq<Option<Pair>>, h: nat, n: nat) {
    && |v'| == |v| && h < |v| && v[h].Some? && v'[h].Some?
    && v' == v[h := v'[h]]
    && v'[h].value.request == []
    && |v'[h].value.response| == |v[h].value.response| + n
    && v'[h].value.response[n..] == v[h].value.response
  }

  // A block grown by n bytes at its end, its old bytes untouched.
  lemma BlockGrewRight(m: seq<byte>, m': seq<byte>, ob: Obj, n: nat)
    requires ob.Live() && ob.End() + n <= |m| == |m'|
    requires forall i :: ob.ptr <= i < ob.End() ==> m'[i] == m[i]
    ensures var p, p' := BlockOf(m, ob).value, BlockOf(m', ob.(rsp := ob.rsp + n)).value;
      p'.request == p.request && |p'.response| == |p.response| + n && p'.response[..|p.response|] == p.response
  {
  }

  // A block without a request grown by n bytes at its start, its old bytes untouched.
  lemma BlockGrewLeft(m: seq<byte>, m': seq<byte>, ob: Obj, n: nat)
    requires ob.Live() && ob.rq == 0 && n < ob.ptr && ob.End() <= |m| == |m'|
    requires forall i :: ob.ptr <= i < ob.End() ==> m'[i] == m[i]
    ensures var p, p' := BlockOf(m, ob).value, BlockOf(m', ob.(ptr := ob.ptr - n, rsp := ob.rsp + n)).value;
      p'.request == [] && |p'.response| == |p.response| + n && p'.response[n..] == p.response
  {
  }

  lemma ExpandedRight(m: seq<byte>, o: seq<Obj>, m': seq<byte>, h: nat, ob: Obj, size: nat, hi: nat)
    requires Wf(m, o) && h < |o| && ob == o[h] && ob.Live() && |m'| == |m|
    requires hi == RightStart(o, h + 1, |m|) && ob.End() + size < hi && GapOk(m', ob.End() + size, hi)
    requires forall i :: 0 <= i < |m| && !(ob.End() + size <= i < hi) ==> m'[i] == m[i]
    ensures var o' := o[h := ob.(rsp := ob.rsp + size)];
      Wf(m', o') && GrewRight(ViewOf(m, o), ViewOf(m', o'), h, size)
  {
    hide GapOk;
    var nb := ob.(rsp := ob.rsp + size);
    GapsAround(m, o, h);
    GapFrame(m, m', LeftEnd(o, h), ob.ptr);
    OneSlot(m, o, m', h, nb);
    BlockGrewRight(m, m', ob, size);
  }

  lemma ExpandedLeft(m: seq<byte>, o: seq<Obj>, m': seq<byte>, h: nat, ob: Obj, size: nat, lo: nat)
    requires Wf(m, o) && h < |o| && ob == o[h] && ob.Live() && ob.rq == 0 && |m'| == |m|
    requires size < ob.ptr && lo == LeftEnd(o, h) && GapOk(m', lo, ob.ptr - size)
    requires forall i :: 0 <= i < |m| && !(lo <= i < ob.ptr - size) ==> m'[i] == m[i]
    ensures var o' := o[h := ob.(ptr := ob.ptr - size, rsp := ob.rsp + size)];
      Wf(m', o') && GrewLeft(ViewOf(m, o), ViewOf(m', o'), h, size)
  {
    hide GapOk;
    var nb := ob.(ptr := ob.ptr - size, rsp := ob.rsp + size);
    GapsAround(m, o, h);
    GapFrame(m, m', ob.End(), RightStart(o, h + 1, |m|));
    OneSlot(m, o, m', h, nb);
    BlockGrewLeft(m, m', ob, size);
  }

  // Block h has given up bytes at its ends (nb is what is left of it) and the gaps have taken them.
  lemma Trimmed(m: seq<byte>, o: seq<Obj>, m': seq<byte>, h: nat, ob: Obj, nb: Obj, lo: nat, hi: nat)
    requires Wf(m, o) && h < |o| && ob == o[h] && ob.Live() && |m'| == |m|
    requires lo == LeftEnd(o, h) && hi == RightStart(o, h + 1, |m|)
    requires ob.ptr <= nb.ptr && nb.End() <= ob.End()
    requires GapOk(m', lo, nb.ptr) && GapOk(m', nb.End(), hi)
    requires forall i :: 0 <= i < |m| && !(lo <= i < nb.ptr) && !(nb.End() <= i < hi) ==> m'[i] == m[i]
    ensures Wf(m', o[h := nb])
    ensures ViewOf(m', o[h := nb]) == ViewOf(m, o)[h := BlockOf(m, nb)]
  {
    hide GapOk, Wf, BlockOf, LeftEnd, RightStart;
    GapsAround(m, o, h);
    OneSlot(m, o, m', h, nb);
    BlockKept(m, m', nb);
  }

  // What a slice of a block's bytes means for its owner.
  lemma PartOfBlock(m: seq<byte>, ob: Obj, a: nat, b: nat)
    requires ob.Live() && ob.End() <= |m| && a <= b
    ensures |BlockOf(m, ob).value.request| == ob.rq && |BlockOf(m, ob).value.response| == ob.rsp
    ensures b <= ob.rq ==> Slice(m, ob.ptr + a, ob.ptr + b) == BlockOf(m, ob).value.request[a..b]
    ensures b <= ob.rsp ==> Slice(m, ob.ptr + ob.rq + a, ob.ptr + ob.rq + b) == BlockOf(m, ob).value.response[a..b]
  {
    if b <= ob.rq {
      SliceOfSlice(m, ob.ptr, ob.ptr + ob.rq, a, b);
    }
    if b <= ob.rsp {
      SliceOfSlice(m, ob.ptr + ob.rq, ob.End(), a, b);
    }
  }

  lemma SliceOfSlice(m: seq<byte>, lo: nat, hi: nat, a: nat, b: nat)
    requires lo <= hi <= |m| && a <= b <= hi - lo
    ensures m[lo..hi][a..b] == m[lo + a..lo + b]
  {
    var x, y := m[lo..hi][a..b], m[lo + a..lo + b];
    assert |x| == |y|;
    forall i | 0 <= i < b - a ensures x[i] == y[i] {
      assert x[i] == m[lo..hi][a + i] == m[lo + (a + i)];
    }
  }

  // Cutting in two steps: the bytes kept by the first step are where the second step cuts.
  lemma CutBlock(m: seq<byte>, m1: seq<byte>, ob: Obj, offset: nat, size: nat)
    requires ob.Live() && ob.End() <= |m| == |m1| && offset + size <= ob.rq
    requires var nb := Obj(ob.ptr + offset, 0, ob.Size() - offset); BlockOf(m1, nb) == BlockOf(m, nb)
    ensures BlockOf(m1, Obj(ob.ptr + offset, 0, size)) == Some(Pair([], Slice(BlockOf(m, ob).value.request, offset, offset + size)))
  {
    var nb := Obj(ob.ptr + offset, 0, ob.Size() - offset);
    PartOfBlock(m1, nb, 0, size);
    PartOfBlock(m, nb, 0, size);
    PartOfBlock(m, ob, offset, offset + size);
  }

  lemma BlockInBounds(m: seq<byte>, o: seq<Obj>, h: nat)
    requires Wf(m, o) && h < |o| && o[h].Live()
    ensures o[h].End() < |m|
  {
    hide GapOk;
    GapsAround(m, o, h);
  }

  lemma GrewLastByte(v: seq<Option<Pair>>, m: seq<byte>, o: seq<Obj>, p: nat)
    requires p < |o| && o[p].Live() && o[p].End() <= |m| && GrewRight(v, ViewOf(m, o), p, 1)
    ensures 1 <= o[p].rsp
  {
    PartOfBlock(m, o[p], 0, 0);
  }

  // Taking back the byte a response has grown by restores what its owner saw.
  lemma GrewBack(v: seq<Option<Pair>>, m: seq<byte>, o: seq<Obj>, m': seq<byte>, p: nat, pb: Obj)
    requires p < |o| && o[p].Live() && 1 <= o[p].rsp && pb == o[p].(rsp := o[p].rsp - 1)
    requires o[p].End() <= |m| == |m'| && forall i :: pb.ptr <= i < pb.End() ==> m'[i] == m[i]
    requires GrewRight(v, ViewOf(m, o), p, 1)
    ensures |v| == |o| && BlockOf(m', pb) == v[p]
    ensures ViewOf(m, o)[p := v[p]] == v
  {
    BlockKept(m, m', pb);
    PartOfBlock(m, o[p], 0, 0);
    PartOfBlock(m, o[p], 0, pb.rsp);
    assert ViewOf(m, o)[p := v[p]] == v;
  }

  // A new empty block in the free slot k, one byte behind the block of slot k - 1 (now at pb).
  lemma Inserted(m: seq<byte>, o: seq<Obj>, m': seq<byte>, k: nat, pb: Obj, lo: nat, hi: nat)
    requires Wf(m, o) && 0 < k < |o| && o[k - 1].Live() && !o[k].Live() && |m'| == |m|
    requires lo == LeftEnd(o, k - 1) && hi == RightStart(o, k + 1, |m|)
    requires pb.Live() && pb.End() + 1 < hi
    requires GapOk(m', lo, pb.ptr) && GapOk(m', pb.End(), pb.End() + 1) && GapOk(m', pb.End() + 1, hi)
    requires forall i :: 0 <= i < |m| && !(lo <= i < hi) ==> m'[i] == m[i]
    ensures var o' := o[k - 1 := pb][k := Obj(pb.End() + 1, 0, 0)];
      Wf(m', o') && ViewOf(m', o') == ViewOf(m, o)[k - 1 := BlockOf(m', pb)][k := Some(Pair([], []))]
  {
    hide GapOk, Wf, LeftEnd, RightStart;
    var nb := Obj(pb.End() + 1, 0, 0);
    var o' := o[k - 1 := pb][k := nb];
    InsertedEnds(o, o', k, pb, nb);
    LocalChange(m, o, m', o', k - 1, k + 1);
    assert BlockOf(m', nb) == Some(Pair([], []));
    assert forall i :: 0 <= i < |o| && i != k - 1 && i != k ==> ViewOf(m', o')[i] == ViewOf(m, o)[i];
  }

  lemma InsertedEnds(o: seq<Obj>, o': seq<Obj>, k: nat, pb: Obj, nb: Obj)
    requires 0 < k < |o| == |o'| && o' == o[k - 1 := pb][k := nb] && pb.Live() && nb.Live()
    ensures LeftEnd(o', k - 1) == LeftEnd(o, k - 1) && LeftEnd(o', k) == pb.End() && LeftEnd(o', k + 1) == nb.End()
  {
    LeftEndPrefix(o, o', k - 1);
  }

  // Slot h's block is gone and its bytes have joined the two gaps around it into one.
  lemma Removed(m: seq<byte>, o: seq<Obj>, m': seq<byte>, h: nat, lo: nat, hi: nat)
    requires Wf(m, o) && h < |o| && |m'| == |m|
    requires lo == LeftEnd(o, h) && hi == RightStart(o, h + 1, |m|) && GapOk(m', lo, hi)
    requires forall i :: 0 <= i < |m| && !(lo <= i < hi) ==> m'[i] == m[i]
    ensures Wf(m', o[h := NULL_OBJ]) && ViewOf(m', o[h := NULL_OBJ]) == ViewOf(m, o)[h := None]
  {
    hide GapOk, Wf;
    var o' := o[h := NULL_OBJ];
    LeftEndPrefix(o, o', h);
    assert LeftEnd(o', h + 1) == LeftEnd(o', h);
    LocalChange(m, o, m', o', h, h + 1);
  }

  // Once the request is gone, growing to the left is the same whichever request there was.
  lemma GrewLeftWithoutRequest(v: seq<Option<Pair>>, v1: seq<Option<Pair>>, v': seq<Option<Pair>>, h: nat, n: nat)
    requires h < |v| && v[h].Some? && v1 == v[h := Some(Pair([], v[h].value.response))] && GrewLeft(v1, v', h, n)
    ensures GrewLeft(v, v', h, n)
  {
    assert v1[h := v'[h]] == v[h := v'[h]];
  }

  // Slot h's block, if it has one, may stand elsewhere; the rest of the table is unchanged.
  ghost predicate Relocated(o: seq<Obj>, o': seq<Obj>, h: nat) {
    && h < |o| == |o'|
    && (o'[h].Live() <==> o[h].Live())
    && o' == o[h := o[h].(ptr := o'[h].ptr)]
  }

  // The bytes a live block could grow by on either side without anyone else moving.
  ghost function LeftSlack(o: seq<Obj>, h: nat): int
    requires h < |o|
  {
    o[h].ptr - LeftEnd(o, h) - 1
  }

  ghost function RightSlack(o: seq<Obj>, h: nat, n: nat): int
    requires h < |o|
  {
    RightStart(o, h + 1, n) - o[h].End() - 1
  }

  // The same handles own blocks of the same sizes.
  ghost predicate SameSizes(o: seq<Obj>, o': seq<Obj>) {
    |o'| == |o| && forall i :: 0 <= i < |o| ==> o'[i] == o[i].(ptr := o'[i].ptr) && (o'[i].Live() <==> o[i].Live())
  }

  // Moving blocks about neither makes nor loses freeable space.
  lemma SameFreeable(o: seq<Obj>, o': seq<Obj>, n: nat)
    requires SameSizes(o, o')
    ensures TotalFreeable(o', n) == TotalFreeable(o, n)
  {
    Conservation(o, n);
    Conservation(o', n);
    UsedSame(o, o', 0, |o|);
  }

  // Slots l+1..hr have been packed to the right, one byte apart; nothing else has moved.
  ghost predicate PackedRight(o: seq<Obj>, o': seq<Obj>, l: nat, hr: nat, n: nat) {
    && SameSizes(o, o') && l <= hr < |o|
    && (forall i :: 0 <= i < |o| && !(l < i <= hr) ==> o'[i] == o[i])
    && RightStart(o', l + 1, n) == RightStart(o, hr + 1, n) - Used(o, l + 1, hr + 1)
    && (forall k :: l < k <= hr && o'[k].Live() ==> RightSlack(o', k, n) == 0)
  }

  // Slots hl..r-1 have been packed to the left, one byte apart; nothing else has moved.
  ghost predicate PackedLeft(o: seq<Obj>, o': seq<Obj>, hl: nat, r: nat) {
    && SameSizes(o, o') && hl <= r < |o|
    && (forall i :: 0 <= i < |o| && !(hl <= i < r) ==> o'[i] == o[i])
    && LeftEnd(o', r) == LeftEnd(o, hl) + Used(o, hl, r)
    && (forall k :: hl <= k < r && o'[k].Live() ==> LeftSlack(o', k) == 0)
  }

  lemma PackedNothing(o: seq<Obj>, k: nat, n: nat)
    requires k < |o|
    ensures PackedRight(o, o, k, k, n) && PackedLeft(o, o, k, k)
  {
  }

  lemma PackedRightStep(o: seq<Obj>, o1: seq<Obj>, o2: seq<Obj>, i: nat, hr: nat, n: nat)
    requires PackedRight(o, o1, i, hr, n) && 0 < i && Relocated(o1, o2, i)
    requires o2[i].Live() ==> o2[i].End() + 1 == RightStart(o1, i + 1, n)
    ensures PackedRight(o, o2, i - 1, hr, n)
  {
    RightStartSuffix(o1, o2, i + 1, n);
    UsedSplit(o, i, i + 1, hr + 1);
    forall k | i - 1 < k <= hr && o2[k].Live() ensures RightSlack(o2, k, n) == 0 {
      RightStartSuffix(o1, o2, k + 1, n);
    }
  }

  lemma PackedLeftStep(o: seq<Obj>, o1: seq<Obj>, o2: seq<Obj>, hl: nat, i: nat)
    requires PackedLeft(o, o1, hl, i) && i + 1 < |o| && Relocated(o1, o2, i)
    requires o2[i].Live() ==> o2[i].ptr == LeftEnd(o1, i) + 1
    ensures PackedLeft(o, o2, hl, i + 1)
  {
    LeftEndPrefix(o1, o2, i);
    forall k | hl <= k < i + 1 && o2[k].Live() ensures LeftSlack(o2, k) == 0 {
      LeftEndPrefix(o1, o2, k);
    }
  }

  lemma PackedRightGathers(o: seq<Obj>, o': seq<Obj>, l: nat, hr: nat, n: nat)
    requires PackedRight(o, o', l, hr, n)
    ensures o'[l].Live() ==> RightSlack(o', l, n) == FreeableRight(o, l, hr + 1, n)
    ensures TotalFreeable(o', n) == TotalFreeable(o, n)
  {
    if o[l].Live() {
      FreeableRightClosed(o, l, hr + 1, n);
      UsedSplit(o, l, l + 1, hr + 1);
    }
    SameFreeable(o, o', n);
  }

  lemma PackedLeftGathers(o: seq<Obj>, o': seq<Obj>, hl: nat, r: nat, n: nat)
    requires PackedLeft(o, o', hl, r)
    ensures o'[r].Live() ==> LeftSlack(o', r) == FreeableLeft(o, hl, r + 1)
    ensures TotalFreeable(o', n) == TotalFreeable(o, n)
  {
    if o[r].Live() {
      FreeableLeftClosed(o, hl, r + 1);
      UsedSplit(o, hl, r, r + 1);
    }
    SameFreeable(o, o', n);
  }

  // Packing one side of h leaves what it sees on the other side alone.
  lemma PackedRightKeeps(o: seq<Obj>, o': seq<Obj>, h: nat, hr: nat, n: nat)
    requires PackedRight(o, o', h, hr, n) && o[h].Live()
    ensures o'[h] == o[h] && LeftSlack(o', h) == LeftSlack(o, h)
    ensures FreeableRight(o', h, |o|, n) == FreeableRight(o, h, |o|, n)
  {
    LeftEndPrefix(o, o', h);
    FreeableRightClosed(o, h, |o|, n);
    FreeableRightClosed(o', h, |o|, n);
    UsedSame(o, o', h, |o|);
  }

  lemma PackedLeftKeeps(o: seq<Obj>, o': seq<Obj>, hl: nat, h: nat, n: nat)
    requires PackedLeft(o, o', hl, h) && o[h].Live()
    ensures o'[h] == o[h] && RightSlack(o', h, n) == RightSlack(o, h, n)
  {
    RightStartSuffix(o, o', h + 1, n);
  }

  // Dropping h's request gives its bytes back.
  lemma FreedBytes(o: seq<Obj>, o': seq<Obj>, h: nat, n: nat)
    requires h < |o| && o[h].Live() && o' == o[h := Obj(o[h].ptr + o[h].rq, 0, o[h].rsp)]
    ensures TotalFreeable(o', n) == TotalFreeable(o, n) + o[h].rq
  {
    UsedChanged(o, o', h);
    Conservation(o, n);
    Conservation(o', n);
  }

  // As seen from h, any run of blocks next to it can give at most what the whole heap can.
  lemma FreeableParts(m: seq<byte>, o: seq<Obj>, h: nat, l: nat, r: nat)
    requires Wf(m, o) && l <= h < r <= |o| && o[h].Live()
    ensures 0 <= RightSlack(o, h, |m|) <= FreeableRight(o, h, r, |m|) <= FreeableRight(o, h, |o|, |m|)
    ensures 0 <= LeftSlack(o, h) <= FreeableLeft(o, l, h + 1) <= FreeableLeft(o, 0, h + 1)
    ensures FreeableRight(o, h, |o|, |m|) + FreeableLeft(o, 0, h + 1) == TotalFreeable(o, |m|)
  {
    GapsAround(m, o, h);
    assert FreeableRight(o, h, h, |m|) == 0;
    FreeableRightGrows(m, o, h, h + 1, r);
    FreeableRightGrows(m, o, h, r, |o|);
    assert FreeableLeft(o, h + 1, h + 1) == 0;
    FreeableLeftGrows(m, o, l, h, h + 1);
    FreeableLeftGrows(m, o, 0, l, h + 1);
    FreeableAround(o, h, |m|);
  }

  // Only h's record differs: its block may stand elsewhere and its response is size bytes longer.
  ghost predicate SameTableButFor(o: seq<Obj>, o': seq<Obj>, h: nat, size: nat) {
    && h < |o| == |o'| && o[h].Live() && o'[h].Live()
    && o' == o[h := Obj(o'[h].ptr, o[h].rq, o[h].rsp + size)]
  }

  function RecordBytes(recordSize: nat, count: nat): nat {
    recordSize * count
  }

  lemma RecordBytesSplit(recordSize: nat, a: nat, b: nat)
    ensures RecordBytes(recordSize, a + b) == RecordBytes(recordSize, a) + RecordBytes(recordSize, b)
    ensures RecordBytes(recordSize, 1) == recordSize
    ensures 0 < recordSize ==> (RecordBytes(recordSize, a) == 0 <==> a == 0)
  {
  }

  lemma {:induction false} InitialLeftEnd(o: seq<Obj>, k: nat)
    requires k <= |o| && forall i :: 0 <= i < |o| ==> o[i] == Obj(1 + i, 0, 0)
    ensures LeftEnd(o, k) == k
  {
    if k == 0 {
    } else {
      InitialLeftEnd(o, k - 1);
    }
  }

  lemma InitialLayout(m: seq<byte>, o: seq<Obj>)
    requires |m| < UINT16 && |o| < |m| && GapOk(m, |o|, |m|)
    requires forall i :: 0 <= i < |o| ==> o[i] == Obj(1 + i, 0, 0) && m[i] == 1
    ensures Wf(m, o) && ViewOf(m, o) == seq(|o|, _ => Some(Pair([], [])))
  {
    hide GapOk;
    forall i | 0 <= i < |o| ensures GapOk(m, LeftEnd(o, i), o[i].ptr) {
      InitialLeftEnd(o, i);
      OneByteGap(m, i);
    }
    GapsOkIntro(m, o, |o|);
    InitialLeftEnd(o, |o|);
    hide LeftEnd, GapsOk;
  }

  // The lowest slot from k on that holds no block, the table's length if all do.
  function FirstFree(v: seq<Option<Pair>>, k: nat): (j: nat)
    requires k <= |v|
    ensures k <= j <= |v| && (j < |v| ==> v[j].None?)
    ensures forall i :: k <= i < j ==> v[i].Some?
    decreases |v| - k
  {
    if k == |v| || v[k].None? then k else FirstFree(v, k + 1)
  }

  lemma {:induction false} FirstFreeIs(v: seq<Option<Pair>>, k: nat, j: nat)
    requires k <= j <= |v| && (j < |v| ==> v[j].None?) && forall i :: k <= i < j ==> v[i].Some?
    ensures FirstFree(v, k) == j
    decreases j - k
  {
    if k == j {
    } else {
      FirstFreeIs(v, k + 1, j);
    }
  }

  // The table's length once the free slots at its end, above the first f, are dropped.
  function TrimmedLen(v: seq<Option<Pair>>, f: nat): (n: nat)
    requires f <= |v|
    ensures f <= n <= |v| && (f < n ==> v[n - 1].Some?)
    ensures forall i :: n <= i < |v| ==> v[i].None?
  {
    if |v| == f || v[|v| - 1].Some? then |v| else TrimmedLen(v[..|v| - 1], f)
  }

  lemma {:induction false} TrimmedLenIs(v: seq<Option<Pair>>, f: nat, n: nat)
    requires f <= n <= |v| && (f < n ==> v[n - 1].Some?) && forall i :: n <= i < |v| ==> v[i].None?
    ensures TrimmedLen(v, f) == n
  {
    if n == |v| {
    } else {
      TrimmedLenIs(v[..|v| - 1], f, n);
    }
  }

  // The storage handle's block is a response made of one record per acquirable slot.
  ghost predicate StorageSized(v: seq<Option<Pair>>, f: nat, recordSize: nat) {
    && 1 <= f <= |v| && v[f - 1].Some?
    && v[f - 1].value.request == []
    && |v[f - 1].value.response| == RecordBytes(recordSize, |v| - f)
  }

  // The bytes a block keeps from everybody else: its own, and one for the gap behind it.
  function Weight(b: Option<Pair>): nat {
    if b.Some? then |b.value.request| + |b.value.response| + 1 else 0
  }

  function Held(v: seq<Option<Pair>>, k: nat): nat
    requires k <= |v|
  {
    if k == 0 then 0 else Held(v, k - 1) + Weight(v[k - 1])
  }

  // What an array of n bytes still has to give when it holds the blocks v.
  function Budget(v: seq<Option<Pair>>, n: nat): int {
    n - 1 - Held(v, |v|)
  }

  lemma {:induction false} HeldIsUsed(m: seq<byte>, o: seq<Obj>, k: nat)
    requires Wf(m, o) && k <= |o|
    ensures Held(ViewOf(m, o), k) == Used(o, 0, k)
  {
    hide GapOk, Wf;
    if k == 0 {
    } else {
      HeldIsUsed(m, o, k - 1);
      if o[k - 1].Live() {
        BlockInBounds(m, o, k - 1);
        PartOfBlock(m, o[k - 1], 0, 0);
      }
    }
  }

  /** The freeable space is a matter of what the owners hold, not of where the blocks lie. */
  lemma FreeableIsBudget(m: seq<byte>, o: seq<Obj>)
    requires Wf(m, o)
    ensures TotalFreeable(o, |m|) == Budget(ViewOf(m, o), |m|)
  {
    hide Wf;
    HeldIsUsed(m, o, |o|);
    Conservation(o, |m|);
  }

  lemma {:induction false} HeldSame(v: seq<Option<Pair>>, v': seq<Option<Pair>>, k: nat)
    requires k <= |v| && k <= |v'| && forall i :: 0 <= i < k ==> Weight(v[i]) == Weight(v'[i])
    ensures Held(v, k) == Held(v', k)
  {
    if k == 0 {
    } else {
      HeldSame(v, v', k - 1);
    }
  }

  lemma {:induction false} HeldChanged(v: seq<Option<Pair>>, h: nat, b: Option<Pair>, k: nat)
    requires h < k <= |v|
    ensures Held(v[h := b], k) == Held(v, k) + Weight(b) - Weight(v[h])
  {
    if h == k - 1 {
      HeldSame(v, v[h := b], k - 1);
    } else {
      HeldChanged(v, h, b, k - 1);
    }
  }

  // Storage s has grown by one record and the table by one free slot.
  ghost predicate SlotAdded(v: seq<Option<Pair>>, v': seq<Option<Pair>>, s: nat, recordSize: nat) {
    |v'| == |v| + 1 && v'[|v|] == None && GrewRight(v, v'[..|v|], s, recordSize)
  }

  // What acquiring a handle does to the owners' view v, with free bytes to give.
  ghost predicate AcquireEffect(v: seq<Option<Pair>>, free: int, r: AcquireOutcome, v': seq<Option<Pair>>, f: nat, recordSize: nat)
    requires 1 <= f <= |v|
  {
    var k := FirstFree(v, f);
    var cost := if k == |v| then recordSize else 0;
    && r == (if free < cost then StorageFault else if free == cost then NoSpace else Acquired(k))
    && if r.StorageFault? then v' == v
       else
         && k < |v'|
         && v'[k] == (if r.Acquired? then Some(Pair([], [])) else None)
         && if k < |v| then v' == v[k := v'[k]] else SlotAdded(v, v'[k := None], f - 1, recordSize)
  }

  // The view v without the free slots at the table's end and without their records.
  ghost function WithoutFreeTail(v: seq<Option<Pair>>, f: nat, recordSize: nat): seq<Option<Pair>>
    requires 1 <= f <= |v| && v[f - 1].Some?
  {
    var n := TrimmedLen(v, f);
    v[f - 1 := Some(Pair([], Slice(v[f - 1].value.response, 0, RecordBytes(recordSize, n - f))))][..n]
  }

  // What releasing handle h does to the owners' view v.
  ghost function ReleaseEffect(v: seq<Option<Pair>>, h: nat, f: nat, recordSize: nat): seq<Option<Pair>>
    requires 1 <= f <= h < |v| && v[f - 1].Some?
  {
    var v1 := v[h := None];
    if h + 1 == |v| then WithoutFreeTail(v1, f, recordSize) else v1
  }

  lemma ReleasedStorage(v: seq<Option<Pair>>, f: nat, recordSize: nat)
    requires StorageSized(v, f, recordSize)
    ensures StorageSized(WithoutFreeTail(v, f, recordSize), f, recordSize)
    ensures v[f - 1].value.request == []
    ensures var n := TrimmedLen(v, f);
      RecordBytes(recordSize, n - f) + RecordBytes(recordSize, |v| - n) == |v[f - 1].value.response|
  {
    var n := TrimmedLen(v, f);
    RecordBytesSplit(recordSize, n - f, |v| - n);
  }

  lemma NullsDropped(m: seq<byte>, o: seq<Obj>, n: nat)
    requires Wf(m, o) && n <= |o| && forall i :: n <= i < |o| ==> !o[i].Live()
    ensures Wf(m, o[..n]) && ViewOf(m, o[..n]) == ViewOf(m, o)[..n]
  {
    TrailingNull(m, o, n);
  }

  lemma GrewRightFacts(v: seq<Option<Pair>>, v': seq<Option<Pair>>, h: nat, n: nat)
    requires GrewRight(v, v', h, n)
    ensures |v'| == |v| && h < |v| && v[h].Some? && v'[h].Some? && v' == v[h := v'[h]]
    ensures forall i :: 0 <= i < |v| && i != h ==> v'[i] == v[i]
    ensures v'[h].value.request == v[h].value.request
    ensures |v'[h].value.response| == |v[h].value.response| + n
    ensures v'[h].value.response[..|v[h].value.response|] == v[h].value.response
  {
  }

  // The views before and after the storage block s has taken one more record and the table one more slot.
  lemma SlotAddedFacts(v: seq<Option<Pair>>, v1: seq<Option<Pair>>, f: nat, recordSize: nat, n: nat)
    requires StorageSized(v, f, recordSize) && GrewRight(v, v1, f - 1, recordSize)
    ensures SlotAdded(v, v1 + [None], f - 1, recordSize) && StorageSized(v1 + [None], f, recordSize)
    ensures Budget(v1 + [None], n) == Budget(v, n) - recordSize
  {
    hide GrewRight;
    GrewRightFacts(v, v1, f - 1, recordSize);
    assert (v1 + [None])[..|v|] == v1;
    HeldChanged(v, f - 1, v1[f - 1], |v|);
    HeldSame(v1, v1 + [None], |v1|);
    RecordBytesSplit(recordSize, |v| - f, 1);
  }

  lemma SlotAddedShape(v: seq<Option<Pair>>, v': seq<Option<Pair>>, s: nat, recordSize: nat)
    requires SlotAdded(v, v', s, recordSize)
    ensures |v'| == |v| + 1 && v'[|v|] == None
    ensures forall i :: 0 <= i < |v| ==> (v'[i].Some? <==> v[i].Some?)
  {
    forall i | 0 <= i < |v| ensures v'[i].Some? <==> v[i].Some? {
      assert v'[..|v|][i] == v'[i];
    }
  }

  lemma StoragePrefix(m: seq<byte>, ob: Obj, dropped: nat)
    requires ob.Live() && ob.End() <= |m| && BlockOf(m, ob).value.request == []
    requires dropped <= |BlockOf(m, ob).value.response|
    ensures ob.rq == 0 && ob.rsp == |BlockOf(m, ob).value.response|
    ensures BlockOf(m, ob.(rsp := ob.rsp - dropped))
            == Some(Pair([], Slice(BlockOf(m, ob).value.response, 0, ob.rsp - dropped)))
  {
    PartOfBlock(m, ob, 0, 0);
    PartOfBlock(m, ob, 0, ob.rsp - dropped);
  }

  lemma ReleaseSteps(v: seq<Option<Pair>>, h: nat, f: nat, recordSize: nat)
    requires 1 <= f <= h < |v| && v[f - 1].Some?
    ensures ReleaseEffect(v, h, f, recordSize)
            == if h + 1 == |v| then WithoutFreeTail(v[h := None], f, recordSize) else v[h := None]
  {
  }

  lemma StorageHandle(v: seq<Option<Pair>>, f: nat, recordSize: nat)
    requires StorageSized(v, f, recordSize)
    ensures 1 <= f <= |v| && v[f - 1].Some?
  {
  }

  // A record never reaches past the storage block's own bytes, whatever slot it is for.
  lemma AcquiredKeepsStorage(v: seq<Option<Pair>>, k: nat, b: Option<Pair>, f: nat, recordSize: nat)
    requires StorageSized(v, f, recordSize) && f <= k < |v|
    ensures StorageSized(v[k := b], f, recordSize)
  {
  }

  lemma NullAdded(m: seq<byte>, o: seq<Obj>)
    requires Wf(m, o)
    ensures Wf(m, o + [NULL_OBJ]) && ViewOf(m, o + [NULL_OBJ]) == ViewOf(m, o) + [None]
  {
    assert (o + [NULL_OBJ])[..|o|] == o;
    TrailingNull(m, o + [NULL_OBJ], |o|);
  }

  // ------------------------------------------------------------------------- writing contents

  lemma GrewLeftFacts(v: seq<Option<Pair>>, v': seq<Option<Pair>>, h: nat, n: nat)
    requires GrewLeft(v, v', h, n)
    ensures |v'| == |v| && h < |v| && v[h].Some? && v'[h].Some? && v' == v[h := v'[h]]
    ensures v'[h].value.request == []
    ensures |v'[h].value.response| == |v[h].value.response| + n
    ensures v'[h].value.response[n..] == v[h].value.response
  {
  }

  lemma BlockLengths(m: seq<byte>, ob: Obj)
    requires ob.Live() && ob.End() <= |m|
    ensures BlockOf(m, ob).Some? && |BlockOf(m, ob).value.request| == ob.rq && |BlockOf(m, ob).value.response| == ob.rsp
  {
  }

  // Writing inside a block leaves the heap in order and everyone else alone.
  lemma WroteInside(m: seq<byte>, o: seq<Obj>, m': seq<byte>, h: nat, p: nat, data: seq<byte>)
    requires Wf(m, o) && h < |o| && o[h].Live() && |m'| == |m|
    requires o[h].ptr <= p && p + |data| <= o[h].End()
    requires forall i :: 0 <= i < |m| && !(p <= i < p + |data|) ==> m'[i] == m[i]
    ensures Wf(m', o) && ViewOf(m', o) == ViewOf(m, o)[h := BlockOf(m', o[h])]
  {
    hide GapOk, Wf;
    GapsAround(m, o, h);
    GapFrame(m, m', LeftEnd(o, h), o[h].ptr);
    GapFrame(m, m', o[h].End(), RightStart(o, h + 1, |m|));
    OneSlot(m, o, m', h, o[h]);
    assert o[h := o[h]] == o;
  }

  lemma WroteTail(m: seq<byte>, m': seq<byte>, ob: Obj, data: seq<byte>)
    requires ob.Live() && ob.End() <= |m| == |m'| && |data| <= ob.rsp
    requires m'[ob.End() - |data|..ob.End()] == data
    requires forall i :: ob.ptr <= i < ob.End() - |data| ==> m'[i] == m[i]
    ensures var p := BlockOf(m, ob).value;
      BlockOf(m', ob) == Some(Pair(p.request, p.response[..ob.rsp - |data|] + data))
  {
    var mid := ob.ptr + ob.rq;
    assert m'[ob.ptr..mid] == m[ob.ptr..mid];
    assert m'[mid..ob.End() - |data|] == m[mid..ob.End() - |data|] == m[mid..ob.End()][..ob.rsp - |data|];
    assert m'[mid..ob.End()] == m'[mid..ob.End() - |data|] + m'[ob.End() - |data|..ob.End()];
  }

  lemma WroteHead(m: seq<byte>, m': seq<byte>, ob: Obj, data: seq<byte>)
    requires ob.Live() && ob.rq == 0 && ob.End() <= |m| == |m'| && |data| <= ob.rsp
    requires m'[ob.ptr..ob.ptr + |data|] == data
    requires forall i :: ob.ptr + |data| <= i < ob.End() ==> m'[i] == m[i]
    ensures BlockOf(m', ob) == Some(Pair([], data + BlockOf(m, ob).value.response[|data|..]))
  {
    var mid := ob.ptr + |data|;
    assert BlockOf(m, ob).value.response == m[ob.ptr..ob.End()];
    assert BlockOf(m', ob).value.request == [] && BlockOf(m', ob).value.response == m'[ob.ptr..ob.End()];
    SliceOfSlice(m, ob.ptr, ob.End(), |data|, ob.rsp);
    assert m'[mid..ob.End()] == m[mid..ob.End()] == m[ob.ptr..ob.End()][|data|..ob.rsp];
    assert m'[ob.ptr..ob.End()] == m'[ob.ptr..mid] + m'[mid..ob.End()];
  }
}
