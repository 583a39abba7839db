/** Writing encoded numbers to a handle's response and parsing them from a handle's request. */
module Packets {
  import opened Wrappers
  import opened Tags
  import opened Layout
  import opened HeapSteps
  import opened HeapModule
  import opened VarInt

  const BUFFER_SIZE := 16

  datatype EncodeOutcome = Appended | NoRoom | BufferTooSmall

  /** Appends the code of the number to h's response. The code is put together in a buffer of sixteen bytes:
      for a number with a longer code, which only numbers of fifteen and sixteen bytes have, the model stops. */
  method EncodeAndAppend(heap: Heap, h: nat, num: seq<byte>) returns (r: EncodeOutcome)
    requires heap.Valid() && heap.LiveHandle(h)
    requires 1 <= |num| <= 16
    modifies heap, heap.mem
    ensures heap.Valid()
    ensures r.BufferTooSmall? <==> Limit(16) <= Value(num)
    ensures r.Appended? <==> Value(num) < Limit(16) && |Code(Value(num))| <= old(heap.Freeable())
    ensures var v := old(heap.View());
      heap.View() == if r.Appended? then v[h := Some(Pair(v[h].value.request, v[h].value.response + Code(Value(num))))] else v
  {
    hide Wf, ViewOf, BlockOf, Code, Value, Limit;
    var outBuff := new byte[19];
    SixteenBytesFit(num);
    CodeLength(Value(num), BUFFER_SIZE);
    var end := EncodeUint(num, outBuff, 0);
    if end > BUFFER_SIZE { return BufferTooSmall; }
    assert outBuff[..end] == outBuff[0..end];
    var ok := heap.WriteBlock(h, outBuff[..end]);
    return if ok then Appended else EncodeOutcome.NoRoom;
  }

  // No number of sixteen bytes takes more than nineteen.
  lemma SixteenBytesFit(num: seq<byte>)
    requires |num| <= 16
    ensures |Code(Value(num))| <= 19
  {
    hide Code, Value, Limit, Pow256, Pow128;
    ValueBound(num);
    Pow256Grows(|num|, 16);
    PowersMeet();
    WidestFits();
    LimitBound(19);
    CodeLength(Value(num), 19);
  }

  lemma WidestFits()
    requires Pow256(14) == Pow128(16)
    ensures Pow256(16) <= Pow128(19)
  {
    assert Pow256(16) == 256 * Pow256(15);
    assert Pow256(15) == 256 * Pow256(14);
    assert Pow128(19) == 128 * Pow128(18);
    assert Pow128(18) == 128 * Pow128(17);
    assert Pow128(17) == 128 * Pow128(16);
    hide Pow256, Pow128;
  }

  /** Decodes the number at the given offset of h's request. What is read is the request and the one byte
      behind it, which is always there: no block reaches the end of the array. How many bytes are left is
      passed on as an 8-bit number. */
  method DecodeFromRequest(heap: Heap, h: nat, offset: nat, dst: array<byte>, target: nat)
    returns (ok: bool, newOffset: nat)
    requires heap.Valid() && heap.LiveHandle(h) && dst != heap.mem && offset <= heap.objs[h].rq
    requires 1 <= target <= 8 && target <= dst.Length
    modifies dst
    ensures heap.objs[h].ptr + heap.objs[h].rq < heap.mem.Length && heap.View()[h].Some?
    ensures var s := heap.View()[h].value.request + [heap.mem[heap.objs[h].ptr + heap.objs[h].rq]];
      && |s| == heap.objs[h].rq + 1
      && (ok <==> Decodable(s, offset, (|s| - 1 - offset) % 256, target))
      && (ok ==> Value(dst[..target]) == CodeValue(s, offset) && newOffset == Terminator(s, offset) + 1)
    ensures !ok ==> newOffset == offset
  {
    hide Wf, ViewOf, BlockOf, GapOk, Value, Limit, Pow256, CodeValue, Terminator, Decodable;
    var ob := heap.objs[h];
    ghost var m := heap.mem[..];
    heap.BlockInView(h);
    heap.LengthsInView(h);
    BlockInBounds(m, heap.objs, h);
    ghost var s := heap.View()[h].value.request + [heap.mem[ob.ptr + ob.rq]];
    RequestAndNext(m, ob);
    assert s == m[ob.ptr..ob.ptr + |s|];
    var given := (ob.rq - offset) % 256;
    SameRead(m, ob.ptr, s, offset, given, target);
    var end;
    ok, end := DecodeUint(heap.mem[..], ob.ptr + offset, given, dst, target);
    newOffset := if ok then end - ob.ptr else offset;
  }

  lemma RequestAndNext(m: seq<byte>, ob: Obj)
    requires ob.Live() && ob.End() < |m|
    ensures BlockOf(m, ob).Some? && BlockOf(m, ob).value.request + [m[ob.ptr + ob.rq]] == m[ob.ptr..ob.ptr + ob.rq + 1]
  {
  }

  // Decoding goes by the bytes alone, wherever in the array they lie.
  lemma SameRead(m: seq<byte>, a: nat, s: seq<byte>, p: nat, given: nat, target: nat)
    requires p + given < |s| && a + |s| <= |m| && s == m[a..a + |s|]
    ensures Decodable(m, a + p, given, target) <==> Decodable(s, p, given, target)
    ensures Decodable(s, p, given, target) ==> CodeValue(m, a + p) == CodeValue(s, p) && Terminator(m, a + p) == a + Terminator(s, p)
  {
    hide CodeValue, Terminator;
    SameCode(m, a, s, p);
  }

  lemma {:induction false} SameCode(m: seq<byte>, a: nat, s: seq<byte>, p: nat)
    requires p <= |s| && a + |s| <= |m| && s == m[a..a + |s|]
    ensures Terminator(s, p) < |s| ==> Terminator(m, a + p) == a + Terminator(s, p) && CodeValue(m, a + p) == CodeValue(s, p)
    ensures Terminator(s, p) >= |s| ==> Terminator(m, a + p) >= a + |s|
    decreases |s| - p
  {
    if p == |s| {
    } else {
      assert m[a + p] == s[p];
      SameCode(m, a, s, p + 1);
    }
  }

  /** When a complete code in the request, with k bytes from the offset on, is read: it has at most eight
      bytes, the number fits, and k as an 8-bit number is not nought nor too small by more than one. */
  lemma CompleteCode(n: nat, s: seq<byte>, offset: nat, k: nat, target: nat)
    requires offset + k < |s| && |Code(n)| <= k && s[offset..offset + |Code(n)|] == Code(n)
    ensures Decodable(s, offset, k % 256, target)
            <==> n < Limit(8) && n < Pow256(target) && 0 < k % 256 && |Code(n)| <= k % 256 + 1
    ensures CodeValue(s, offset) == n && Terminator(s, offset) + 1 == offset + |Code(n)|
    ensures 0 < k < 256 ==> (Decodable(s, offset, k % 256, target) <==> n < Limit(8) && n < Pow256(target))
  {
    hide Code, CodeValue, Terminator, Limit, Pow256;
    DecodesCode(s, offset, n);
    CodeLength(n, 8);
  }

  /** A request of 256 bytes left, a complete one-byte code in front, is taken for an empty one. */
  lemma LongRequestRejected(target: nat)
    ensures !Decodable(Zeros(257), 0, 256 % 256, target) && Terminator(Zeros(257), 0) == 0
  {
  }
}
