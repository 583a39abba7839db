/** The relocating heap: blocks of a fixed byte array, one per handle, separated by tagged gaps.
    Every method works in place on the array and the handle table, as the original does; its
    contract says what happens to the table and to what the handles' owners see. */
module HeapModule {
  import opened Wrappers
  import opened Tags
  import opened Layout
  import opened HeapSteps

  // NotInTable: the handle has no entry in the table of fixed handles, where the program looks for it.
  datatype PrependOutcome = Prepended | NoRoom | NotInTable

  class Heap {
    const mem: array<byte>
    var objs: seq<Obj>
    const fixedCount: nat  // handles below this always exist; the table's last fixed entry stores the acquired ones
    const recordSize: nat  // bytes one acquired handle's record takes in the storage block

    ghost predicate Valid()
      reads this, mem
    {
      && Wf(mem[..], objs)
      && 1 <= fixedCount <= |objs|
      && 1 <= recordSize
      && forall k :: 0 <= k < fixedCount ==> objs[k].Live()
    }

    ghost predicate LiveHandle(h: nat)
      reads this
    {
      h < |objs| && objs[h].Live()
    }

    ghost function View(): (v: seq<Option<Pair>>)
      reads this, mem
      ensures |v| == |objs|
    {
      ViewOf(mem[..], objs)
    }

    lemma BlockInView(h: nat)
      requires h < |objs|
      ensures View()[h] == BlockOf(mem[..], objs[h])
    {
    }

    // Which handles are live can be told from the view.
    lemma LiveInView()
      ensures forall h :: 0 <= h < |objs| ==> (objs[h].Live() <==> View()[h].Some?)
    {
      forall h | 0 <= h < |objs| ensures objs[h].Live() <==> View()[h].Some? {
        BlockInView(h);
      }
    }

    lemma LengthsInView(h: nat)
      requires Valid() && LiveHandle(h)
      ensures View()[h].Some? && |View()[h].value.request| == objs[h].rq && |View()[h].value.response| == objs[h].rsp
    {
      hide GapOk;
      BlockInBounds(mem[..], objs, h);
      BlockLengths(mem[..], objs[h]);
    }

    ghost function Freeable(): int
      reads this, mem
    {
      TotalFreeable(objs, mem.Length)
    }

    ghost predicate StorageOk()
      reads this, mem
    {
      StorageSized(View(), fixedCount, recordSize)
    }

    function Storage(): nat
      requires 1 <= fixedCount
    {
      fixedCount - 1
    }

    /** Every fixed handle starts with an empty block, one byte apart; one gap holds the rest. */
    constructor (size: nat, fixedCount: nat, recordSize: nat)
      requires 1 <= fixedCount < size < UINT16 && 1 <= recordSize
      ensures Valid() && StorageOk() && fresh(mem)
      ensures mem.Length == size && this.fixedCount == fixedCount && this.recordSize == recordSize
      ensures View() == seq(fixedCount, _ => Some(Pair([], [])))
    {
      hide Wf, GapOk, ViewOf;
      mem := new byte[size];
      objs := [];
      this.fixedCount := fixedCount;
      this.recordSize := recordSize;
      new;
      var i := 0;
      while i < fixedCount
        invariant 0 <= i <= fixedCount && |objs| == i
        invariant forall k :: 0 <= k < i ==> objs[k] == Obj(1 + k, 0, 0)
        invariant forall k :: 0 <= k < i ==> mem[k] == 1
      {
        objs := objs + [Obj(1 + i, 0, 0)];
        mem[i] := 1;
        i := i + 1;
      }
      TagGap(fixedCount, size);
      InitialLayout(mem[..], objs);
    }

    // ---------------------------------------------------------------------- writing tags and bytes

    method WriteForward(a: nat, num: nat)
      requires num < UINT16 && a + TagLen(num) <= mem.Length
      modifies mem
      ensures TagForward(mem[..], a, num)
      ensures forall i :: 0 <= i < mem.Length && !(a <= i < a + TagLen(num)) ==> mem[..][i] == old(mem[..])[i]
    {
      if num < 128 {
        mem[a] := num;
      } else if num < 16512 {
        mem[a] := num % 128 + 128;
        mem[a + 1] := (num - 128) / 128;
      } else {
        mem[a] := num % 128 + 128;
        mem[a + 1] := (num - 128) / 128 % 128 + 128;
        mem[a + 2] := (num - 16512) / 16384;
      }
      ForwardRoundTrip(mem[..], a, num);
    }

    method WriteBackward(e: nat, num: nat)
      requires num < UINT16 && TagLen(num) - 1 <= e < mem.Length
      modifies mem
      ensures TagBackward(mem[..], e, num)
      ensures forall i :: 0 <= i < mem.Length && !(e - TagLen(num) < i <= e) ==> mem[..][i] == old(mem[..])[i]
    {
      if num < 128 {
        mem[e] := num;
      } else if num < 16512 {
        mem[e] := num % 128 + 128;
        mem[e - 1] := (num - 128) / 128;
      } else {
        mem[e] := num % 128 + 128;
        mem[e - 1] := (num - 128) / 128 % 128 + 128;
        mem[e - 2] := (num - 16512) / 16384;
      }
      BackwardRoundTrip(mem[..], e, num);
    }

    // Tags the bytes lo..hi as one gap.
    method TagGap(lo: nat, hi: nat)
      requires lo < hi <= mem.Length < UINT16
      modifies mem
      ensures GapOk(mem[..], lo, hi)
      ensures forall i :: 0 <= i < mem.Length && !(lo <= i < hi) ==> mem[..][i] == old(mem[..])[i]
    {
      WriteForward(lo, hi - lo);
      ghost var m := mem[..];
      WriteBackward(hi - 1, hi - lo);
      BothTagsSurvive(m, mem[..], lo, hi);
    }

    method MoveBytes(dst: nat, src: nat, n: nat)
      requires dst + n <= mem.Length && src + n <= mem.Length
      modifies mem
      ensures mem[..][dst..dst + n] == old(mem[..])[src..src + n]
      ensures forall i :: 0 <= i < mem.Length && !(dst <= i < dst + n) ==> mem[..][i] == old(mem[..])[i]
    {
      ghost var m := mem[..];
      forall i | dst <= i < dst + n {
        mem[i] := mem[src + (i - dst)];
      }
      assert forall i :: dst <= i < dst + n ==> mem[..][i] == m[src + (i - dst)];
    }

    // -------------------------------------------------------------------------------- moving blocks

    // Moves the bytes of a block between the gaps lo..ob.ptr and ob.End()..hi to the far right and
    // tags both gaps anew.
    method ShiftRight(ob: Obj, lo: nat, hi: nat) returns (p: nat)
      requires lo < ob.ptr <= ob.End() < hi <= mem.Length < UINT16
      modifies mem
      ensures p + ob.Size() + 1 == hi
      ensures mem[..][p..p + ob.Size()] == old(mem[..])[ob.ptr..ob.End()]
      ensures GapOk(mem[..], lo, p) && GapOk(mem[..], p + ob.Size(), hi)
      ensures forall i :: 0 <= i < mem.Length && !(lo <= i < hi) ==> mem[..][i] == old(mem[..])[i]
    {
      hide GapOk;
      p := hi - 1 - ob.Size();
      MoveBytes(p, ob.ptr, ob.Size());
      ghost var m1 := mem[..];
      mem[hi - 1] := 1;
      ghost var m2 := mem[..];
      OneByteGap(m2, hi - 1);
      TagGap(lo, p);
      GapFrame(m2, mem[..], hi - 1, hi);
      assert mem[..][p..hi - 1] == m1[p..hi - 1];
    }

    method ShiftLeft(ob: Obj, lo: nat, hi: nat) returns (p: nat)
      requires lo < ob.ptr <= ob.End() < hi <= mem.Length < UINT16
      modifies mem
      ensures p == lo + 1 && p + ob.Size() < hi
      ensures mem[..][p..p + ob.Size()] == old(mem[..])[ob.ptr..ob.End()]
      ensures GapOk(mem[..], lo, p) && GapOk(mem[..], p + ob.Size(), hi)
      ensures forall i :: 0 <= i < mem.Length && !(lo <= i < hi) ==> mem[..][i] == old(mem[..])[i]
    {
      hide GapOk;
      p := lo + 1;
      MoveBytes(p, ob.ptr, ob.Size());
      ghost var m1 := mem[..];
      mem[lo] := 1;
      ghost var m2 := mem[..];
      OneByteGap(m2, lo);
      TagGap(p + ob.Size(), hi);
      GapFrame(m2, mem[..], lo, lo + 1);
      assert mem[..][p..p + ob.Size()] == m1[p..p + ob.Size()];
    }

    // The sizes of the two gaps around a block, read from their tags.
    method GapSizes(h: nat) returns (freeAtLeft: nat, freeAtRight: nat)
      requires Valid() && LiveHandle(h)
      ensures 1 <= freeAtLeft == objs[h].ptr - LeftEnd(objs, h)
      ensures 1 <= freeAtRight == RightStart(objs, h + 1, mem.Length) - objs[h].End()
      ensures objs[h].End() + freeAtRight <= mem.Length < UINT16
    {
      var ob := objs[h];
      GapsAround(mem[..], objs, h);
      GapParses(mem[..], LeftEnd(objs, h), ob.ptr);
      GapParses(mem[..], ob.End(), RightStart(objs, h + 1, mem.Length));
      freeAtLeft := ParseBackward(mem[..], ob.ptr - 1);
      freeAtRight := ParseForward(mem[..], ob.End());
    }

    /** Slides block h right until one byte is left of its right gap. */
    method MoveMaxRight(h: nat)
      requires Valid() && h < |objs|
      modifies this, mem
      ensures Valid() && View() == old(View())
      ensures Relocated(old(objs), objs, h)
      ensures objs[h].Live() ==> objs[h].End() + 1 == RightStart(old(objs), h + 1, mem.Length)
    {
      hide GapOk;
      var ob := objs[h];
      if !ob.Live() { return; }
      ghost var m, o := mem[..], objs;
      var freeAtLeft, freeAtRight := GapSizes(h);
      if freeAtRight == 1 { return; }
      var lo, hi := ob.ptr - freeAtLeft, ob.End() + freeAtRight;
      assert mem[..] == m;
      var p := ShiftRight(ob, lo, hi);
      Slid(m, o, mem[..], h, ob, p, lo, hi);
      objs := objs[h := ob.(ptr := p)];
    }

    /** Slides block h left until one byte is left of its left gap. */
    method MoveMaxLeft(h: nat)
      requires Valid() && h < |objs|
      modifies this, mem
      ensures Valid() && View() == old(View())
      ensures Relocated(old(objs), objs, h)
      ensures objs[h].Live() ==> objs[h].ptr == LeftEnd(old(objs), h) + 1
    {
      hide GapOk;
      var ob := objs[h];
      if !ob.Live() { return; }
      ghost var m, o := mem[..], objs;
      var freeAtLeft, freeAtRight := GapSizes(h);
      if freeAtLeft == 1 { return; }
      var lo, hi := ob.ptr - freeAtLeft, ob.End() + freeAtRight;
      assert mem[..] == m;
      var p := ShiftLeft(ob, lo, hi);
      Slid(m, o, mem[..], h, ob, p, lo, hi);
      objs := objs[h := ob.(ptr := p)];
    }

    /** Grows the response at its end if the right gap allows it; otherwise nothing happens. */
    method TryExpandRight(h: nat, size: nat) returns (r: Option<nat>)
      requires Valid() && LiveHandle(h)
      modifies this, mem
      ensures Valid()
      ensures r.Some? <==> size <= RightSlack(old(objs), h, mem.Length)
      ensures r.None? ==> objs == old(objs) && View() == old(View())
      ensures r.Some? ==> GrewRight(old(View()), View(), h, size) && r.value + size == objs[h].End()
      ensures r.Some? ==> SameTableButFor(old(objs), objs, h, size)
    {
      hide GapOk, GrewRight, ViewOf, Wf, LeftEnd, RightStart;
      ghost var m, o := mem[..], objs;
      var ob := objs[h];
      var _, freeAtRight := GapSizes(h);
      assert mem[..] == m;
      if size >= freeAtRight { return None; }
      var hi := ob.End() + freeAtRight;
      TagGap(ob.End() + size, hi);
      ghost var m' := mem[..];
      ExpandedRight(m, o, m', h, ob, size, hi);
      objs := objs[h := ob.(rsp := ob.rsp + size)];
      assert mem[..] == m';
      return Some(ob.End());
    }

    /** Grows the response of a block without a request at its start if the left gap allows it. */
    method TryExpandLeft(h: nat, size: nat) returns (ok: bool)
      requires Valid() && LiveHandle(h) && objs[h].rq == 0
      modifies this, mem
      ensures Valid() && LiveHandle(h)
      ensures ok <==> size <= LeftSlack(old(objs), h)
      ensures !ok ==> objs == old(objs) && View() == old(View())
      ensures ok ==> GrewLeft(old(View()), View(), h, size)
      ensures ok ==> objs == old(objs)[h := objs[h]] && objs[h] == Obj(old(objs[h].ptr) - size, 0, old(objs[h].rsp) + size)
    {
      hide GapOk, GrewLeft, ViewOf, Wf;
      ghost var m, o := mem[..], objs;
      var ob := objs[h];
      var freeAtLeft, _ := GapSizes(h);
      assert mem[..] == m;
      if size >= freeAtLeft { return false; }
      var lo := ob.ptr - freeAtLeft;
      TagGap(lo, ob.ptr - size);
      ghost var m' := mem[..];
      ExpandedLeft(m, o, m', h, ob, size, lo);
      objs := objs[h := ob.(ptr := ob.ptr - size, rsp := ob.rsp + size)];
      assert mem[..] == m';
      return true;
    }

    method FreeableAtRight(h: nat) returns (n: nat)
      requires Valid() && h < |objs|
      ensures n == if objs[h].Live() then RightSlack(objs, h, mem.Length) else 0
    {
      if !objs[h].Live() { return 0; }
      var _, freeAtRight := GapSizes(h);
      return freeAtRight - 1;
    }

    method FreeableAtLeft(h: nat) returns (n: nat)
      requires Valid() && h < |objs|
      ensures n == if objs[h].Live() then LeftSlack(objs, h) else 0
    {
      if !objs[h].Live() { return 0; }
      var freeAtLeft, _ := GapSizes(h);
      return freeAtLeft - 1;
    }

    /** Slides the block left and grows it at its end, if the two gaps around it allow it. */
    method TryMoveLeftExpandRight(h: nat, size: nat) returns (r: Option<nat>)
      requires Valid() && LiveHandle(h)
      modifies this, mem
      ensures Valid()
      ensures r.Some? <==> size <= old(LeftSlack(objs, h) + RightSlack(objs, h, mem.Length))
      ensures r.None? ==> objs == old(objs) && View() == old(View())
      ensures r.Some? ==> GrewRight(old(View()), View(), h, size) && r.value + size == objs[h].End()
      ensures r.Some? ==> SameTableButFor(old(objs), objs, h, size)
    {
      hide View, Wf, GrewRight;
      var freeableAtRight := FreeableAtRight(h);
      var freeableAtLeft := FreeableAtLeft(h);
      if size > freeableAtRight + freeableAtLeft { return None; }
      ghost var o := objs;
      MoveMaxLeft(h);
      RightStartSuffix(o, objs, h + 1, mem.Length);
      r := TryExpandRight(h, size);
    }

    /** Slides the block right and grows it at its start, if the two gaps around it allow it. */
    method TryMoveRightExpandLeft(h: nat, size: nat) returns (ok: bool)
      requires Valid() && LiveHandle(h) && objs[h].rq == 0
      modifies this, mem
      ensures Valid() && LiveHandle(h)
      ensures ok <==> size <= old(LeftSlack(objs, h) + RightSlack(objs, h, mem.Length))
      ensures !ok ==> objs == old(objs) && View() == old(View())
      ensures ok ==> GrewLeft(old(View()), View(), h, size)
      ensures ok ==> SameTableButFor(old(objs), objs, h, size)
    {
      hide View, Wf, GrewLeft;
      var freeableAtRight := FreeableAtRight(h);
      var freeableAtLeft := FreeableAtLeft(h);
      if size > freeableAtRight + freeableAtLeft { return false; }
      ghost var o := objs;
      MoveMaxRight(h);
      LeftEndPrefix(o, objs, h);
      ok := TryExpandLeft(h, size);
    }

    // ------------------------------------------------------------------------------- compaction

    /** The freeable bytes right of h, summed block by block until there are enough of them; last is
        the block the search stopped at. No 16-bit sum overflows on the way. */
    method TotalFreeableAtRight(h: nat, desired: nat) returns (free: nat, last: nat)
      requires Valid() && LiveHandle(h) && 0 < desired
      ensures h <= last < |objs| && LiveHandle(last)
      ensures free == FreeableRight(objs, h, last + 1, mem.Length) < UINT16
      ensures free < desired ==> free == FreeableRight(objs, h, |objs|, mem.Length)
    {
      var i := h;
      free, last := 0, h;
      while free < desired && i < |objs|
        invariant h <= i <= |objs| && (i == h || (h <= last < i && LiveHandle(last)))
        invariant free == FreeableRight(objs, h, i, mem.Length)
        invariant i == h ==> free == 0
        invariant i != h ==> free == FreeableRight(objs, h, last + 1, mem.Length)
      {
        if objs[i].Live() {
          last := i;
          var n := FreeableAtRight(i);
          free := free + n;
        }
        i := i + 1;
      }
      FreeableRightClosed(objs, h, last + 1, mem.Length);
      GapAt(mem[..], objs, last + 1);
    }

    /** The freeable bytes left of h, summed block by block until there are enough of them. */
    method TotalFreeableAtLeft(h: nat, desired: nat) returns (free: nat, last: nat)
      requires Valid() && LiveHandle(h) && 0 < desired
      ensures last <= h && LiveHandle(last)
      ensures free == FreeableLeft(objs, last, h + 1) < UINT16
      ensures free < desired ==> free == FreeableLeft(objs, 0, h + 1)
    {
      var i := h + 1;
      free, last := 0, h;
      while free < desired && i > 0
        invariant 0 <= i <= h + 1 && (i == h + 1 || (i <= last <= h && LiveHandle(last)))
        invariant free == FreeableLeft(objs, i, h + 1)
        invariant i == h + 1 ==> free == 0
        invariant i != h + 1 ==> free == FreeableLeft(objs, last, h + 1)
      {
        i := i - 1;
        if objs[i].Live() {
          last := i;
          var n := FreeableAtLeft(i);
          free := free + n;
        }
      }
      FreeableLeftClosed(objs, last, h + 1);
      LeftEndBound(mem[..], objs, h + 1);
    }

    /** Slides the blocks right of hl, up to hr, as far right as they go, the rightmost first. All the
        freeable space there was right of hl, up to hr, is then directly right of hl. */
    method MoveAllRight(hr: nat, hl: nat)
      requires Valid() && hl <= hr < |objs|
      modifies this, mem
      ensures Valid() && View() == old(View())
      ensures PackedRight(old(objs), objs, hl, hr, mem.Length)
      ensures objs[hl].Live() ==> RightSlack(objs, hl, mem.Length) == FreeableRight(old(objs), hl, hr + 1, mem.Length)
      ensures Freeable() == old(Freeable())
    {
      hide View, Wf, PackedRight, Relocated;
      ghost var o, n := objs, mem.Length;
      var i := hr;
      PackedNothing(o, hr, n);
      while i > hl
        invariant hl <= i <= hr < |o| == |objs|
        invariant Valid() && View() == old(View())
        invariant PackedRight(o, objs, i, hr, n)
      {
        ghost var o1 := objs;
        MoveMaxRight(i);
        PackedRightStep(o, o1, objs, i, hr, n);
        i := i - 1;
      }
      PackedRightGathers(o, objs, hl, hr, n);
    }

    /** Slides the blocks from hl up to, not including, hr as far left as they go, the leftmost first. */
    method MoveAllLeft(hl: nat, hr: nat)
      requires Valid() && hl <= hr < |objs|
      modifies this, mem
      ensures Valid() && View() == old(View())
      ensures PackedLeft(old(objs), objs, hl, hr)
      ensures objs[hr].Live() ==> LeftSlack(objs, hr) == FreeableLeft(old(objs), hl, hr + 1)
      ensures Freeable() == old(Freeable())
    {
      hide View, Wf, PackedLeft, Relocated;
      ghost var o := objs;
      var i := hl;
      PackedNothing(o, hl, mem.Length);
      while i < hr
        invariant hl <= i <= hr < |o| == |objs|
        invariant Valid() && View() == old(View())
        invariant PackedLeft(o, objs, hl, i)
      {
        ghost var o1 := objs;
        MoveMaxLeft(i);
        PackedLeftStep(o, o1, objs, hl, i);
        i := i + 1;
      }
      PackedLeftGathers(o, objs, hl, hr, mem.Length);
    }

    // ------------------------------------------------------------------------ growing a response

    /** Adds size bytes at the end of h's response, moving as many blocks as it takes. It fails only
        when the whole heap has fewer bytes to give, and then nobody's contents have changed. */
    method Append(h: nat, size: nat) returns (r: Option<nat>)
      requires Valid() && LiveHandle(h)
      modifies this, mem
      ensures Valid()
      ensures r.Some? <==> size <= old(Freeable())
      ensures r.Some? ==> GrewRight(old(View()), View(), h, size) && r.value + size == objs[h].End()
      ensures r.None? ==> View() == old(View())
    {
      hide View, Wf, GrewRight, PackedLeft, PackedRight, SameTableButFor;
      hide LeftEnd, RightStart, FreeableRight, FreeableLeft, TotalFreeable, LeftSlack, RightSlack;
      ghost var m, o, n := mem[..], objs, mem.Length;
      FreeableParts(m, o, h, 0, |o|);
      r := TryExpandRight(h, size);
      if r.Some? { return; }
      r := TryMoveLeftExpandRight(h, size);
      if r.Some? { return; }

      var freeableAtRight, lastAtRight := TotalFreeableAtRight(h, size);
      FreeableParts(m, o, h, 0, lastAtRight + 1);
      MoveAllRight(lastAtRight, h);
      ghost var o1 := objs;
      PackedRightKeeps(o, o1, h, lastAtRight, n);
      if freeableAtRight >= size {
        r := TryExpandRight(h, size);
        return;
      }

      var freeableAtLeft, lastAtLeft := TotalFreeableAtLeft(h, size);
      FreeableParts(mem[..], o1, h, lastAtLeft, |o1|);
      MoveAllLeft(lastAtLeft, h);
      PackedLeftKeeps(o1, objs, lastAtLeft, h, n);
      if freeableAtLeft + freeableAtRight >= size {
        r := TryMoveLeftExpandRight(h, size);
      } else {
        r := None;
      }
    }

    /** Adds size bytes at the start of h's response, dropping its request first. It fails only when the
        whole heap, with that request freed, has fewer bytes to give. */
    method Prepend(h: nat, size: nat) returns (r: Option<nat>)
      requires Valid() && LiveHandle(h)
      modifies this, mem
      ensures Valid()
      ensures r.Some? <==> size <= old(Freeable() + objs[h].rq)
      ensures r.Some? ==> GrewLeft(old(View()), View(), h, size) && r.value == objs[h].ptr
      ensures r.None? ==> View() == old(View())[h := Some(Pair([], old(View()[h]).value.response))]
    {
      hide View, Wf, GrewLeft;
      ghost var v, o, n := View(), objs, mem.Length;
      BlockInView(h);
      if objs[h].rq != 0 {
        BlockInBounds(mem[..], objs, h);
        ghost var m := mem[..];
        var ob := objs[h];
        TrimLeftTo(h, Obj(ob.ptr + ob.rq, 0, ob.rsp));
        FreedBytes(o, objs, h, n);
      } else {
        assert v == v[h := Some(Pair([], v[h].value.response))];
      }
      ghost var v1 := View();
      r := PrependToResponse(h, size);
      if r.Some? {
        GrewLeftWithoutRequest(v, v1, View(), h, size);
      }
    }

    // The rest of Prepend, once there is no request.
    method PrependToResponse(h: nat, size: nat) returns (r: Option<nat>)
      requires Valid() && LiveHandle(h) && objs[h].rq == 0
      modifies this, mem
      ensures Valid()
      ensures r.Some? <==> size <= old(Freeable())
      ensures r.Some? ==> GrewLeft(old(View()), View(), h, size) && r.value == objs[h].ptr
      ensures r.None? ==> View() == old(View())
    {
      hide View, Wf, GrewLeft, PackedLeft, PackedRight, SameTableButFor;
      hide LeftEnd, RightStart, FreeableRight, FreeableLeft, TotalFreeable, LeftSlack, RightSlack;
      ghost var m, o, n := mem[..], objs, mem.Length;
      FreeableParts(m, o, h, 0, |o|);
      var ok := TryExpandLeft(h, size);
      if ok { return Some(objs[h].ptr); }
      ok := TryMoveRightExpandLeft(h, size);
      if ok { return Some(objs[h].ptr); }

      var freeableAtRight, lastAtRight := TotalFreeableAtRight(h, size);
      FreeableParts(m, o, h, 0, lastAtRight + 1);
      MoveAllRight(lastAtRight, h);
      ghost var o1 := objs;
      PackedRightKeeps(o, o1, h, lastAtRight, n);
      if freeableAtRight >= size {
        ok := TryMoveRightExpandLeft(h, size);
        return Some(objs[h].ptr);
      }

      var freeableAtLeft, lastAtLeft := TotalFreeableAtLeft(h, size);
      FreeableParts(mem[..], o1, h, lastAtLeft, |o1|);
      MoveAllLeft(lastAtLeft, h);
      PackedLeftKeeps(o1, objs, lastAtLeft, h, n);
      if freeableAtLeft + freeableAtRight >= size {
        ok := TryMoveRightExpandLeft(h, size);
        return Some(objs[h].ptr);
      } else {
        return None;
      }
    }

    // ------------------------------------------------------------------------------- trimming

    // Hands the last trim bytes of the size bytes at block to the gap behind them.
    method TrimAtRight(block: nat, size: nat, trim: nat, ghost hi: nat)
      requires mem.Length < UINT16 && trim <= size && GapOk(mem[..], block + size, hi)
      modifies mem
      ensures GapOk(mem[..], block + size - trim, hi)
      ensures forall i :: 0 <= i < mem.Length && !(block + size - trim <= i < hi) ==> mem[..][i] == old(mem[..])[i]
    {
      GapParses(mem[..], block + size, hi);
      var sizeAtRight := ParseForward(mem[..], block + size);
      TagGap(block + size - trim, block + size + sizeAtRight);
    }

    // Hands the first trim bytes at block to the gap before them.
    method TrimAtLeft(block: nat, trim: nat, ghost lo: nat)
      requires block + trim <= mem.Length < UINT16 && GapOk(mem[..], lo, block)
      modifies mem
      ensures GapOk(mem[..], lo, block + trim)
      ensures forall i :: 0 <= i < mem.Length && !(lo <= i < block + trim) ==> mem[..][i] == old(mem[..])[i]
    {
      GapParses(mem[..], lo, block);
      var sizeAtLeft := ParseBackward(mem[..], block - 1);
      TagGap(block - sizeAtLeft, block + trim);
    }

    // Reduces h's block to nb, the last of its bytes.
    method TrimLeftTo(h: nat, nb: Obj)
      requires Valid() && LiveHandle(h) && objs[h].ptr <= nb.ptr && nb.End() == objs[h].End()
      modifies this, mem
      ensures Valid() && objs == old(objs)[h := nb]
      ensures View() == old(View())[h := BlockOf(old(mem[..]), nb)]
    {
      hide GapOk, ViewOf, BlockOf, Wf;
      ghost var m, o := mem[..], objs;
      var ob := objs[h];
      ghost var lo, hi := LeftEnd(o, h), RightStart(o, h + 1, |m|);
      GapsAround(m, o, h);
      WfLength(m, o);
      TrimAtLeft(ob.ptr, nb.ptr - ob.ptr, lo);
      ghost var m' := mem[..];
      GapFrame(m, m', ob.End(), hi);
      Trimmed(m, o, m', h, ob, nb, lo, hi);
      objs := objs[h := nb];
      assert mem[..] == m';
    }

    // Reduces h's block to nb, the first of its bytes.
    method TrimRightTo(h: nat, nb: Obj)
      requires Valid() && LiveHandle(h) && objs[h].ptr == nb.ptr && nb.End() <= objs[h].End()
      modifies this, mem
      ensures Valid() && objs == old(objs)[h := nb]
      ensures View() == old(View())[h := BlockOf(old(mem[..]), nb)]
    {
      hide GapOk, ViewOf, BlockOf, Wf;
      ghost var m, o := mem[..], objs;
      var ob := objs[h];
      ghost var lo, hi := LeftEnd(o, h), RightStart(o, h + 1, |m|);
      GapsAround(m, o, h);
      WfLength(m, o);
      TrimAtRight(ob.ptr, ob.Size(), ob.End() - nb.End(), hi);
      ghost var m' := mem[..];
      GapFrame(m, m', lo, ob.ptr);
      Trimmed(m, o, m', h, ob, nb, lo, hi);
      objs := objs[h := nb];
      assert mem[..] == m';
    }

    /** Keeps size bytes of the request, from offset on, as the response; everything else is freed. */
    method CutAndMakeResponse(h: nat, offset: nat, size: nat)
      requires Valid() && LiveHandle(h) && offset + size <= objs[h].rq
      modifies this, mem
      ensures Valid()
      ensures View() == old(View())[h := Some(Pair([], Slice(old(View()[h]).value.request, offset, offset + size)))]
    {
      hide Wf;
      hide View;
      ghost var m, v := mem[..], View();
      var ob := objs[h];
      BlockInBounds(m, objs, h);
      assert v[h] == BlockOf(m, ob) by { BlockInView(h); }
      TrimLeftTo(h, Obj(ob.ptr + offset, 0, ob.Size() - offset));
      ghost var m1 := mem[..];
      BlockInView(h);
      CutBlock(m, m1, ob, offset, size);
      TrimRightTo(h, Obj(ob.ptr + offset, 0, size));
    }

    method RequestToResponse(h: nat)
      requires Valid() && LiveHandle(h)
      modifies this, mem
      ensures Valid()
      ensures View() == old(View())[h := Some(Pair([], old(View()[h]).value.request))]
    {
      BlockInBounds(mem[..], objs, h);
      PartOfBlock(mem[..], objs[h], 0, objs[h].rq);
      CutAndMakeResponse(h, 0, objs[h].rq);
    }

    /** The response becomes the request; the old request is freed. */
    method ResponseToRequest(h: nat)
      requires Valid() && LiveHandle(h)
      modifies this, mem
      ensures Valid()
      ensures View() == old(View())[h := Some(Pair(old(View()[h]).value.response, []))]
    {
      hide Wf;
      var ob := objs[h];
      BlockInBounds(mem[..], objs, h);
      TrimLeftTo(h, Obj(ob.ptr + ob.rq, ob.rsp, 0));
    }

    method Free(h: nat)
      requires Valid() && LiveHandle(h)
      modifies this, mem
      ensures Valid()
      ensures View() == old(View())[h := Some(Pair([], []))]
    {
      hide Wf;
      var ob := objs[h];
      BlockInBounds(mem[..], objs, h);
      TrimRightTo(h, Obj(ob.ptr, 0, 0));
    }

    method FreeResponse(h: nat)
      requires Valid() && LiveHandle(h)
      modifies this, mem
      ensures Valid()
      ensures View() == old(View())[h := Some(Pair(old(View()[h]).value.request, []))]
    {
      hide Wf;
      var ob := objs[h];
      BlockInBounds(mem[..], objs, h);
      TrimRightTo(h, Obj(ob.ptr, ob.rq, 0));
    }

    /** Drops the first n bytes of the request. */
    method StripBeginningOfRequest(h: nat, n: nat)
      requires Valid() && LiveHandle(h) && n <= objs[h].rq
      modifies this, mem
      ensures Valid()
      ensures View() == old(View())[h := Some(Pair(Slice(old(View()[h]).value.request, n, old(objs[h].rq)), old(View()[h]).value.response))]
    {
      hide Wf;
      var ob := objs[h];
      BlockInBounds(mem[..], objs, h);
      PartOfBlock(mem[..], ob, n, ob.rq);
      TrimLeftTo(h, Obj(ob.ptr + n, ob.rq - n, ob.rsp));
    }

    // --------------------------------------------------------------- acquiring and releasing handles

    /** Acquires the lowest free slot's handle, with an empty block behind its predecessor's. A new
        slot costs one record in the storage block; the block itself costs one byte of gap. */
    method Acquire() returns (r: AcquireOutcome)
      requires Valid() && StorageOk()
      modifies this, mem
      ensures Valid() && StorageOk()
      ensures AcquireEffect(old(View()), old(Freeable()), r, View(), fixedCount, recordSize)
    {
      hide GrewRight, Wf, ViewOf, BlockOf, StorageSized, SlotAdded, TotalFreeable, View;
      ghost var v := View();
      FreeableNonNegative(mem[..], objs, 0, 0);
      var k := fixedCount;
      while k < |objs| && objs[k].Live()
        invariant fixedCount <= k <= |objs| && forall i :: fixedCount <= i < k ==> objs[i].Live()
      {
        k := k + 1;
      }
      LiveInView();
      FreeSlotInView(k);
      if k == |objs| {
        var added := AddSlot();
        if !added { return StorageFault; }
        SlotAddedShape(v, View(), Storage(), recordSize);
      }
      ghost var v1 := View();
      LiveInView();
      assert v1[k] == None && v1[k := None] == v1;
      var placed := PlaceEmpty(k);
      AcquiredKeepsStorage(v1, k, Some(Pair([], [])), fixedCount, recordSize);
      assert View()[k := None] == v1;
      assert |v| == k || View() == v[k := View()[k]];
      r := if placed then Acquired(k) else NoSpace;
    }

    // The search for a free slot in the table finds the first one in the owners' view.
    lemma FreeSlotInView(k: nat)
      requires fixedCount <= k <= |objs| && (k < |objs| ==> !objs[k].Live())
      requires forall i :: fixedCount <= i < k ==> objs[i].Live()
      ensures k == FirstFree(View(), fixedCount)
    {
      FirstFreeIs(View(), fixedCount, k);
    }

    // Adds a free slot to the table, storing its record in the storage block.
    method AddSlot() returns (ok: bool)
      requires Valid() && StorageOk()
      modifies this, mem
      ensures Valid() && StorageOk()
      ensures ok <==> recordSize <= old(Freeable())
      ensures !ok ==> View() == old(View())
      ensures ok ==> SlotAdded(old(View()), View(), fixedCount - 1, recordSize) && Freeable() == old(Freeable()) - recordSize
    {
      hide GapOk, Wf, ViewOf, BlockOf, GrewRight, StorageSized, SlotAdded, TotalFreeable, Budget;
      ghost var m, o, v := mem[..], objs, View();
      FreeableIsBudget(m, o);
      StorageHandle(v, fixedCount, recordSize);
      var r := Append(Storage(), recordSize);
      if r.None? { return false; }
      ghost var m1, o1, v1 := mem[..], objs, View();
      GrewRightFacts(v, v1, Storage(), recordSize);
      objs := objs + [NULL_OBJ];
      assert mem[..] == m1;
      NullAdded(m1, o1);
      SlotAddedFacts(v, v1, fixedCount, recordSize, mem.Length);
      FreeableIsBudget(m1, objs);
      assert forall k :: 0 <= k < fixedCount ==> objs[k] == o1[k];
      return true;
    }

    // Puts an empty block into the free slot k, behind the block of the live slot k - 1.
    method PlaceEmpty(k: nat) returns (ok: bool)
      requires Valid() && 0 < k && LiveHandle(k - 1) && k < |objs| && !objs[k].Live()
      modifies this, mem
      ensures Valid()
      ensures ok <==> 1 <= old(Freeable())
      ensures View() == if ok then old(View())[k := Some(Pair([], []))] else old(View())
    {
      hide GapOk, Wf, ViewOf, BlockOf, GrewRight;
      ghost var m, o, v := mem[..], objs, View();
      LiveInView();
      FreeableParts(m, o, k - 1, 0, |o|);
      var freeAtLeft, freeAtRight := GapSizes(k - 1);
      assert mem[..] == m;
      if freeAtRight > 1 {
        SplitGapAfter(k - 1, freeAtRight);
      } else if freeAtLeft > 1 {
        NudgeLeft(k - 1, freeAtLeft);
      } else {
        var r := Append(k - 1, 1);
        if r.None? { return false; }
        GrewRightFacts(v, View(), k - 1, 1);
        LiveInView();
        SplitLastByte(k - 1, v);
      }
      return true;
    }

    // An empty block for slot p + 1 inside the gap behind block p.
    method SplitGapAfter(p: nat, freeAtRight: nat)
      requires Valid() && LiveHandle(p) && p + 1 < |objs| && !objs[p + 1].Live()
      requires 1 < freeAtRight == RightSlack(objs, p, mem.Length) + 1
      modifies this, mem
      ensures Valid() && View() == old(View())[p + 1 := Some(Pair([], []))]
    {
      hide GapOk, Wf, BlockOf, ViewOf, LeftEnd, RightStart;
      ghost var m, o := mem[..], objs;
      var pb := objs[p];
      GapsAround(m, o, p);
      WfLength(m, o);
      ghost var lo := LeftEnd(o, p);
      var hi := pb.End() + freeAtRight;
      mem[pb.End()] := 1;
      ghost var m1 := mem[..];
      OneByteGap(m1, pb.End());
      TagGap(pb.End() + 1, hi);
      ghost var m' := mem[..];
      GapFrame(m1, m', pb.End(), pb.End() + 1);
      GapFrame(m, m', lo, pb.ptr);
      BlockKept(m, m', pb);
      PastFree(o, p + 1, |m|);
      Inserted(m, o, m', p + 1, pb, lo, hi);
      objs := objs[p + 1 := Obj(pb.End() + 1, 0, 0)];
      assert mem[..] == m' && objs == o[p := pb][p + 1 := Obj(pb.End() + 1, 0, 0)];
    }

    // Moves the bytes of a block left by one, tags what is left of the gap before it, and makes the byte it
    // leaves a gap.
    method MoveByteLeft(ob: Obj, lo: nat)
      requires lo + 1 < ob.ptr <= ob.End() < mem.Length < UINT16
      modifies mem
      ensures mem[..][ob.ptr - 1..ob.End() - 1] == old(mem[..])[ob.ptr..ob.End()]
      ensures GapOk(mem[..], lo, ob.ptr - 1) && GapOk(mem[..], ob.End() - 1, ob.End())
      ensures forall i :: 0 <= i < mem.Length && !(lo <= i < ob.End()) ==> mem[..][i] == old(mem[..])[i]
    {
      hide GapOk;
      MoveBytes(ob.ptr - 1, ob.ptr, ob.Size());
      ghost var m1 := mem[..];
      TagGap(lo, ob.ptr - 1);
      ghost var m2 := mem[..];
      mem[ob.End() - 1] := 1;
      OneByteGap(mem[..], ob.End() - 1);
      GapFrame(m2, mem[..], lo, ob.ptr - 1);
      assert mem[..][ob.ptr - 1..ob.End() - 1] == m1[ob.ptr - 1..ob.End() - 1];
    }

    // The gap behind block p is a single byte, the one before it is not: block p moves left by one
    // byte and the empty block of slot p + 1 takes the place it leaves.
    method NudgeLeft(p: nat, freeAtLeft: nat)
      requires Valid() && LiveHandle(p) && p + 1 < |objs| && !objs[p + 1].Live()
      requires 1 < freeAtLeft == LeftSlack(objs, p) + 1 && RightSlack(objs, p, mem.Length) == 0
      modifies this, mem
      ensures Valid() && View() == old(View())[p + 1 := Some(Pair([], []))]
    {
      hide GapOk, Wf, BlockOf, ViewOf, LeftEnd, RightStart;
      ghost var m, o := mem[..], objs;
      var ob := objs[p];
      GapsAround(m, o, p);
      WfLength(m, o);
      var lo, hi := ob.ptr - freeAtLeft, ob.End() + 1;
      var pb := ob.(ptr := ob.ptr - 1);
      MoveByteLeft(ob, lo);
      ghost var m' := mem[..];
      GapFrame(m, m', ob.End(), hi);
      BlockMoved(m, m', ob, pb.ptr);
      PastFree(o, p + 1, |m|);
      Inserted(m, o, m', p + 1, pb, lo, hi);
      objs := objs[p := pb][p + 1 := Obj(pb.End() + 1, 0, 0)];
      assert mem[..] == m';
    }

    // Block p has just grown by one byte over the view v: that byte becomes its gap again and the empty
    // block of slot p + 1 follows it.
    method SplitLastByte(p: nat, ghost v: seq<Option<Pair>>)
      requires Valid() && LiveHandle(p) && p + 1 < |objs| && !objs[p + 1].Live()
      requires GrewRight(v, View(), p, 1)
      modifies this, mem
      ensures Valid() && View() == v[p + 1 := Some(Pair([], []))]
    {
      hide GapOk, Wf, GrewRight, BlockOf;
      ghost var m, o := mem[..], objs;
      var ob := objs[p];
      GapsAround(m, o, p);
      WfLength(m, o);
      GrewLastByte(v, m, o, p);
      ghost var lo, hi := LeftEnd(o, p), RightStart(o, p + 1, |m|);
      var pb := ob.(rsp := ob.rsp - 1);
      mem[pb.End()] := 1;
      ghost var m' := mem[..];
      OneByteGap(m', pb.End());
      GapFrame(m, m', lo, pb.ptr);
      GapFrame(m, m', ob.End(), hi);
      GrewBack(v, m, o, m', p, pb);
      PastFree(o, p + 1, |m|);
      Inserted(m, o, m', p + 1, pb, lo, hi);
      objs := objs[p := pb][p + 1 := Obj(pb.End() + 1, 0, 0)];
      assert mem[..] == m';
    }

    /** Gives the handle's block back: its bytes and the gaps on both sides of it become one gap. When
        it held the table's last slot, the free slots at the end go too, with their records. */
    method Release(h: nat)
      requires Valid() && StorageOk() && fixedCount <= h && LiveHandle(h)
      modifies this, mem
      ensures Valid() && StorageOk()
      ensures View() == ReleaseEffect(old(View()), h, fixedCount, recordSize)
    {
      hide GapOk, Wf, ViewOf, BlockOf, StorageSized, ReleaseEffect, WithoutFreeTail;
      ghost var m, o, v := mem[..], objs, View();
      var ob := objs[h];
      GapsAround(m, o, h);
      WfLength(m, o);
      var freeAtLeft, freeAtRight := GapSizes(h);
      assert mem[..] == m;
      var lo, hi := ob.ptr - freeAtLeft, ob.End() + freeAtRight;
      TagGap(lo, hi);
      ghost var m' := mem[..];
      Removed(m, o, m', h, lo, hi);
      objs := objs[h := NULL_OBJ];
      assert mem[..] == m';
      AcquiredKeepsStorage(v, h, None, fixedCount, recordSize);
      StorageHandle(v, fixedCount, recordSize);
      if h + 1 == |objs| {
        DropFreeTail();
      }
      assert View() == ReleaseEffect(v, h, fixedCount, recordSize) by { ReleaseSteps(v, h, fixedCount, recordSize); }
    }

    // The table's last slot has just been freed: cut it down to its last live slot.
    method DropFreeTail()
      requires Valid() && StorageOk() && fixedCount < |objs| && !objs[|objs| - 1].Live()
      modifies this, mem
      ensures Valid() && StorageOk()
      ensures old(View())[fixedCount - 1].Some?
      ensures View() == WithoutFreeTail(old(View()), fixedCount, recordSize)
    {
      hide GapOk, Wf, ViewOf, BlockOf, StorageSized, WithoutFreeTail;
      ghost var v := View();
      var i := |objs| - 1;
      while i != fixedCount && !objs[i].Live()
        invariant fixedCount <= i < |objs| && forall j :: i <= j < |objs| ==> !objs[j].Live()
        decreases i
      {
        if objs[i - 1].Live() { break; }
        i := i - 1;
      }
      LiveInView();
      TrimmedLenIs(v, fixedCount, i);
      CutTable(i);
    }

    // Drops the free slots from n on and their records.
    method CutTable(n: nat)
      requires Valid() && StorageOk() && n == TrimmedLen(View(), fixedCount)
      modifies this, mem
      ensures Valid() && StorageOk()
      ensures old(View())[fixedCount - 1].Some?
      ensures View() == WithoutFreeTail(old(View()), fixedCount, recordSize)
    {
      hide GapOk, Wf, ViewOf, BlockOf, StorageSized;
      ghost var m, o, v := mem[..], objs, View();
      StorageHandle(v, fixedCount, recordSize);
      ReleasedStorage(v, fixedCount, recordSize);
      LiveInView();
      var s := Storage();
      var ob := objs[s];
      BlockInView(s);
      BlockInBounds(m, o, s);
      var dropped := RecordBytes(recordSize, |objs| - n);
      StoragePrefix(m, ob, dropped);
      TrimRightTo(s, ob.(rsp := ob.rsp - dropped));
      ghost var m', o' := mem[..], objs;
      objs := objs[..n];
      assert mem[..] == m';
      NullsDropped(m', o', n);
    }

    // -------------------------------------------------------------------------- writing contents

    /** Appends data to h's response. */
    method WriteBlock(h: nat, data: seq<byte>) returns (ok: bool)
      requires Valid() && LiveHandle(h)
      modifies this, mem
      ensures Valid()
      ensures ok <==> |data| <= old(Freeable())
      ensures View() == if ok then old(View())[h := Some(Pair(old(View()[h]).value.request, old(View()[h]).value.response + data))]
                              else old(View())
    {
      hide GapOk, Wf, ViewOf, BlockOf, GrewRight;
      ghost var v := View();
      BlockInView(h);
      var r := Append(h, |data|);
      if r.None? { return false; }
      GrewRightFacts(v, View(), h, |data|);
      LiveInView();
      ghost var m, v1 := mem[..], View();
      var ob := objs[h];
      BlockInView(h);
      BlockInBounds(m, objs, h);
      BlockLengths(m, ob);
      CopyIn(r.value, data);
      WroteInside(m, objs, mem[..], h, r.value, data);
      WroteTail(m, mem[..], ob, data);
      assert View() == v[h := View()[h]];
      return true;
    }

    /** Drops h's request and puts data in front of its response, where the address Prepend returns says. */
    method PrependBytes(h: nat, data: seq<byte>) returns (ok: bool)
      requires Valid() && LiveHandle(h)
      modifies this, mem
      ensures Valid()
      ensures ok <==> |data| <= old(Freeable() + objs[h].rq)
      ensures View() == old(View())[h := Some(Pair([], (if ok then data else []) + old(View()[h]).value.response))]
    {
      hide GapOk, Wf, ViewOf, BlockOf, GrewLeft;
      ghost var v := View();
      LiveInView();
      var r := Prepend(h, |data|);
      if r.None? {
        assert [] + v[h].value.response == v[h].value.response;
        return false;
      }
      GrewLeftFacts(v, View(), h, |data|);
      LiveInView();
      ghost var m, v1 := mem[..], View();
      var ob := objs[h];
      BlockInView(h);
      BlockInBounds(m, objs, h);
      BlockLengths(m, ob);
      CopyIn(r.value, data);
      WroteInside(m, objs, mem[..], h, r.value, data);
      WroteHead(m, mem[..], ob, data);
      assert View() == v[h := View()[h]];
      return true;
    }

    /** Puts the data before the response of a fixed handle. The program looks the block up in the table of
        fixed handles: for an acquired one the model stops before anything is done. */
    method WritePrependBlock(h: nat, data: seq<byte>) returns (r: PrependOutcome)
      requires Valid() && LiveHandle(h)
      modifies this, mem
      ensures Valid()
      ensures r.NotInTable? <==> fixedCount <= h
      ensures r.Prepended? <==> h < fixedCount && |data| <= old(Freeable() + objs[h].rq)
      ensures View() == match r
                        case NotInTable => old(View())
                        case NoRoom => old(View())[h := Some(Pair([], old(View()[h]).value.response))]
                        case Prepended => old(View())[h := Some(Pair([], data + old(View()[h]).value.response))]
    {
      hide GapOk, Wf, ViewOf, BlockOf;
      if fixedCount <= h { return NotInTable; }
      LiveInView();
      ghost var v := View();
      var ok := PrependBytes(h, data);
      assert !ok ==> [] + v[h].value.response == v[h].value.response;
      return if ok then Prepended else NoRoom;
    }

    method CopyIn(p: nat, data: seq<byte>)
      requires p + |data| <= mem.Length
      modifies mem
      ensures mem[..][p..p + |data|] == data
      ensures forall i :: 0 <= i < mem.Length && !(p <= i < p + |data|) ==> mem[..][i] == old(mem[..])[i]
    {
      forall i | p <= i < p + |data| {
        mem[i] := data[i - p];
      }
    }
  }
}
