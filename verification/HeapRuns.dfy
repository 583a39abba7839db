/** Whole runs of the memory manager. The specification is a machine without addresses: a table of
    (request, response) pairs and a count of bytes left. The heap refines it, result by result, whatever
    it moves about inside its array. */
module HeapRuns {
  import opened Wrappers
  import opened Tags
  import opened Layout
  import opened HeapSteps
  import opened HeapModule

  datatype Op =
    | Write(h: nat, data: seq<byte>)
    | Prepend(h: nat, data: seq<byte>)       // through the address the allocator returns
    | PrependBlock(h: nat, data: seq<byte>)  // through the table of fixed handles
    | Cut(h: nat, offset: nat, size: nat)
    | RequestToResponse(h: nat)
    | ResponseToRequest(h: nat)
    | Free(h: nat)
    | FreeResponse(h: nat)
    | Strip(h: nat, n: nat)
    | Acquire
    | Release(h: nat)

  // NotInTable: the program would go on outside its table of fixed handles.
  datatype Outcome = Done | OutOfMemory | NotInTable | Handle(outcome: AcquireOutcome)

  type View = seq<Option<Pair>>

  const EMPTY: Option<Pair> := Some(Pair([], []))

  // Handle f - 1's block holds the manager's own records: of it, only the size is visible.
  function Visible(v: View, f: nat): (v': View)
    requires 1 <= f <= |v| && v[f - 1].Some?
    ensures |v'| == |v| && forall i :: 0 <= i < |v| && i != f - 1 ==> v'[i] == v[i]
  {
    v[f - 1 := Some(Pair([], Zeros(|v[f - 1].value.response|)))]
  }

  predicate Owned(v: View, f: nat, h: nat) {
    h < |v| && h != f - 1 && v[h].Some?
  }

  // What the manager demands of its callers.
  predicate Allowed(v: View, op: Op, f: nat) {
    match op
    case Cut(h, offset, size) => Owned(v, f, h) && offset + size <= |v[h].value.request|
    case Strip(h, n) => Owned(v, f, h) && n <= |v[h].value.request|
    case Release(h) => Owned(v, f, h) && f <= h
    case Acquire => true
    case _ => Owned(v, f, op.h)
  }

  // What an operation on one handle does to its pair, and answers, with free bytes left in the array.
  function Effect(p: Pair, op: Op, free: int, f: nat): (Pair, Outcome)
    requires !op.Acquire? && !op.Release?
    requires op.Cut? ==> op.offset + op.size <= |p.request|
    requires op.Strip? ==> op.n <= |p.request|
    decreases op.PrependBlock?
  {
    match op
    case Write(_, data) =>
      if |data| <= free then (Pair(p.request, p.response + data), Done) else (p, OutOfMemory)
    case Prepend(_, data) =>
      if |data| <= free + |p.request| then (Pair([], data + p.response), Done) else (Pair([], p.response), OutOfMemory)
    case PrependBlock(h, data) =>
      if f <= h then (p, Outcome.NotInTable) else Effect(p, Prepend(h, data), free, f)
    case Cut(_, offset, size) => (Pair([], p.request[offset..offset + size]), Done)
    case RequestToResponse(_) => (Pair([], p.request), Done)
    case ResponseToRequest(_) => (Pair(p.response, []), Done)
    case Free(_) => (Pair([], []), Done)
    case FreeResponse(_) => (Pair(p.request, []), Done)
    case Strip(_, k) => (Pair(p.request[k..], p.response), Done)
  }

  /** One step of the specification: what an operation does to the pairs and what it answers, with an
      array of n bytes behind it. */
  ghost function Step(v: View, op: Op, n: nat, f: nat, recordSize: nat): (View, Outcome)
    requires StorageSized(v, f, recordSize) && Allowed(v, op, f)
  {
    match op
    case Acquire =>
      var k := FirstFree(v, f);
      var cost := if k == |v| then recordSize else 0;
      if Budget(v, n) < cost then (v, Handle(StorageFault))
      else
        var v1 := if k == |v| then WithSlot(v, f, recordSize) else v;
        if Budget(v, n) == cost then (v1, Handle(NoSpace)) else (v1[k := EMPTY], Handle(Acquired(k)))
    case Release(h) => (ReleaseEffect(v, h, f, recordSize), Done)
    case _ =>
      var (p, out) := Effect(v[op.h].value, op, Budget(v, n), f);
      (v[op.h := Some(p)], out)
  }

  // One more free slot, its record charged to the storage block.
  function WithSlot(v: View, f: nat, recordSize: nat): (v': View)
    requires 1 <= f <= |v| && v[f - 1].Some?
    ensures |v'| == |v| + 1
  {
    v[f - 1 := Some(Pair([], v[f - 1].value.response + Zeros(recordSize)))] + [None]
  }

  // ---------------------------------------------------------------- the specification's own state

  lemma StepKeepsStorage(v: View, op: Op, n: nat, f: nat, recordSize: nat)
    requires StorageSized(v, f, recordSize) && Allowed(v, op, f)
    ensures StorageSized(Step(v, op, n, f, recordSize).0, f, recordSize)
  {
    match op {
      case Acquire =>
        RecordBytesSplit(recordSize, |v| - f, 1);
      case Release(h) =>
        ReleaseSteps(v, h, f, recordSize);
        ReleasedStorage(v[h := None], f, recordSize);
      case _ =>
    }
  }

  ghost predicate LegalRun(v: View, ops: seq<Op>, n: nat, f: nat, recordSize: nat)
    requires StorageSized(v, f, recordSize)
    decreases |ops|
  {
    ops == [] || (Allowed(v, ops[0], f)
                  && (StepKeepsStorage(v, ops[0], n, f, recordSize);
                      LegalRun(Step(v, ops[0], n, f, recordSize).0, ops[1..], n, f, recordSize)))
  }

  ghost function RunSpec(v: View, ops: seq<Op>, n: nat, f: nat, recordSize: nat): (r: (View, seq<Outcome>))
    requires StorageSized(v, f, recordSize) && LegalRun(v, ops, n, f, recordSize)
    ensures StorageSized(r.0, f, recordSize) && |r.1| == |ops|
    decreases |ops|
  {
    if ops == [] then (v, [])
    else
      StepKeepsStorage(v, ops[0], n, f, recordSize);
      var (v1, out) := Step(v, ops[0], n, f, recordSize);
      var (v2, outs) := RunSpec(v1, ops[1..], n, f, recordSize);
      (v2, [out] + outs)
  }

  // ------------------------------------------------------------------------------- refinement

  lemma VisibleBudget(v: View, f: nat, n: nat)
    requires 1 <= f <= |v| && v[f - 1].Some? && v[f - 1].value.request == []
    ensures Budget(Visible(v, f), n) == Budget(v, n)
  {
    HeldSame(v, Visible(v, f), |v|);
  }

  lemma VisibleUpdate(v: View, f: nat, h: nat, b: Option<Pair>)
    requires 1 <= f <= |v| && v[f - 1].Some? && h < |v| && h != f - 1
    ensures Visible(v[h := b], f) == Visible(v, f)[h := b]
  {
  }

  lemma VisibleFirstFree(v: View, f: nat)
    requires 1 <= f <= |v| && v[f - 1].Some?
    ensures FirstFree(Visible(v, f), f) == FirstFree(v, f)
  {
    FirstFreeIs(Visible(v, f), f, FirstFree(v, f));
  }

  lemma VisibleSlotAdded(v: View, v': View, f: nat, recordSize: nat)
    requires StorageSized(v, f, recordSize) && SlotAdded(v, v', f - 1, recordSize)
    ensures |v'| == |v| + 1 && v'[f - 1].Some?
    ensures Visible(v', f) == WithSlot(Visible(v, f), f, recordSize)
  {
    GrewRightFacts(v, v'[..|v|], f - 1, recordSize);
    var a, b := Visible(v', f), WithSlot(Visible(v, f), f, recordSize);
    forall i | 0 <= i < |a| ensures a[i] == b[i] {
      if i < |v| { assert v'[..|v|][i] == v'[i]; }
      if i == f - 1 { assert Zeros(|v[i].value.response|) + Zeros(recordSize) == Zeros(|v'[i].value.response|); }
    }
  }

  lemma VisibleTail(v: View, f: nat, recordSize: nat)
    requires StorageSized(v, f, recordSize)
    ensures var w := WithoutFreeTail(v, f, recordSize);
      f <= |w| && w[f - 1].Some? && Visible(w, f) == WithoutFreeTail(Visible(v, f), f, recordSize)
  {
    ReleasedStorage(v, f, recordSize);
    var t := TrimmedLen(v, f);
    TrimmedLenIs(Visible(v, f), f, t);
    var a, b := Visible(WithoutFreeTail(v, f, recordSize), f), WithoutFreeTail(Visible(v, f), f, recordSize);
    var len := RecordBytes(recordSize, t - f);
    assert Slice(Zeros(|v[f - 1].value.response|), 0, len) == Zeros(len);
    assert a == b;
  }

  // From v to v', answering out, the heap has done visibly what the specification does.
  ghost predicate Refines(v: View, v': View, op: Op, out: Outcome, n: nat, f: nat, recordSize: nat) {
    && StorageSized(v, f, recordSize) && StorageSized(v', f, recordSize)
    && StorageSized(Visible(v, f), f, recordSize)
    && Allowed(Visible(v, f), op, f)
    && (Visible(v', f), out) == Step(Visible(v, f), op, n, f, recordSize)
  }

  lemma AcquireRefines(v: View, n: nat, r: AcquireOutcome, v': View, f: nat, recordSize: nat)
    requires StorageSized(v, f, recordSize) && 0 < recordSize
    requires AcquireEffect(v, Budget(v, n), r, v', f, recordSize)
    requires StorageSized(v', f, recordSize)
    ensures Refines(v, v', Acquire, Handle(r), n, f, recordSize)
  {
    VisibleBudget(v, f, n);
    VisibleFirstFree(v, f);
    var k := FirstFree(v, f);
    if r.StorageFault? {
    } else if k < |v| {
      VisibleUpdate(v, f, k, v'[k]);
      assert v[k := None] == v;
    } else {
      VisibleSlotAdded(v, v'[k := None], f, recordSize);
      VisibleUpdate(v'[k := None], f, k, v'[k]);
      assert v'[k := None][k := v'[k]] == v';
      assert WithSlot(Visible(v, f), f, recordSize)[k := None] == WithSlot(Visible(v, f), f, recordSize);
    }
  }

  lemma ReleaseRefines(v: View, h: nat, n: nat, f: nat, recordSize: nat)
    requires StorageSized(v, f, recordSize) && Allowed(v, Release(h), f)
    ensures Refines(v, ReleaseEffect(v, h, f, recordSize), Release(h), Done, n, f, recordSize)
  {
    VisibleUpdate(v, f, h, None);
    AcquiredKeepsStorage(v, h, None, f, recordSize);
    ReleasedStorage(v[h := None], f, recordSize);
    VisibleTail(v[h := None], f, recordSize);
  }

  lemma BlockOpRefines(v: View, v': View, op: Op, out: Outcome, n: nat, f: nat, recordSize: nat)
    requires StorageSized(v, f, recordSize) && Allowed(v, op, f) && !op.Acquire? && !op.Release?
    requires var (p, o) := Effect(v[op.h].value, op, Budget(v, n), f); v' == v[op.h := Some(p)] && out == o
    ensures Refines(v, v', op, out, n, f, recordSize)
  {
    VisibleBudget(v, f, n);
    VisibleUpdate(v, f, op.h, v'[op.h]);
  }

  // An operation on one handle, carried out on the heap.
  method DoOne(heap: Heap, op: Op) returns (out: Outcome)
    requires heap.Valid() && heap.StorageOk() && Allowed(heap.View(), op, heap.fixedCount)
    requires !op.Acquire? && !op.Release?
    modifies heap, heap.mem
    ensures heap.Valid()
    ensures var v := old(heap.View());
      var (p, o) := Effect(v[op.h].value, op, Budget(v, heap.mem.Length), heap.fixedCount);
      heap.View() == v[op.h := Some(p)] && out == o
  {
    hide Wf, ViewOf, BlockOf, GapOk;
    ghost var v := heap.View();
    heap.LiveInView();
    heap.LengthsInView(op.h);
    FreeableIsBudget(heap.mem[..], heap.objs);
    out := Done;
    match op {
      case Write(h, data) =>
        var ok := heap.WriteBlock(h, data);
        out := if ok then Done else OutOfMemory;
        assert v == v[h := v[h]];
      case Prepend(h, data) =>
        var ok := heap.PrependBytes(h, data);
        out := if ok then Done else OutOfMemory;
        assert [] + v[h].value.response == v[h].value.response;
      case PrependBlock(h, data) =>
        var r := heap.WritePrependBlock(h, data);
        out := match r case Prepended => Done case NoRoom => OutOfMemory case NotInTable => Outcome.NotInTable;
        assert v == v[h := v[h]];
      case Cut(h, offset, size) =>
        heap.CutAndMakeResponse(h, offset, size);
      case RequestToResponse(h) =>
        heap.RequestToResponse(h);
      case ResponseToRequest(h) =>
        heap.ResponseToRequest(h);
      case Free(h) =>
        heap.Free(h);
      case FreeResponse(h) =>
        heap.FreeResponse(h);
      case Strip(h, k) =>
        heap.StripBeginningOfRequest(h, k);
        assert v[h].value.request[k..] == Slice(v[h].value.request, k, |v[h].value.request|);
    }
  }

  /** One operation on the heap does to what is visible exactly what the specification says, and
      answers what it says: in particular memory runs out exactly when the bytes really have. */
  method Do(heap: Heap, op: Op) returns (out: Outcome)
    requires heap.Valid() && heap.StorageOk() && Allowed(heap.View(), op, heap.fixedCount)
    modifies heap, heap.mem
    ensures heap.Valid() && heap.StorageOk()
    ensures Refines(old(heap.View()), heap.View(), op, out, heap.mem.Length, heap.fixedCount, heap.recordSize)
  {
    hide Wf, ViewOf, BlockOf, GapOk, ReleaseEffect, AcquireEffect, StorageSized;
    ghost var v, f, n := heap.View(), heap.fixedCount, heap.mem.Length;
    if op.Acquire? {
      FreeableIsBudget(heap.mem[..], heap.objs);
      var r := heap.Acquire();
      out := Handle(r);
      AcquireRefines(v, n, r, heap.View(), f, heap.recordSize);
    } else if op.Release? {
      heap.LiveInView();
      heap.Release(op.h);
      out := Done;
      ReleaseRefines(v, op.h, n, f, heap.recordSize);
    } else {
      out := DoOne(heap, op);
      BlockOpRefines(v, heap.View(), op, out, n, f, heap.recordSize);
      StoredAfter(v, heap.View(), op, out, n, f, heap.recordSize);
    }
  }

  lemma StoredAfter(v: View, v': View, op: Op, out: Outcome, n: nat, f: nat, recordSize: nat)
    requires Refines(v, v', op, out, n, f, recordSize)
    ensures StorageSized(v', f, recordSize)
  {
  }

  /** Any run of allowed operations, from the heap's state on: it stays in order throughout, and both
      what is visible at the end and every answer on the way are those of the specification. */
  method Run(heap: Heap, ops: seq<Op>) returns (outs: seq<Outcome>)
    requires heap.Valid() && heap.StorageOk()
    requires StorageSized(Visible(heap.View(), heap.fixedCount), heap.fixedCount, heap.recordSize)
    requires LegalRun(Visible(heap.View(), heap.fixedCount), ops, heap.mem.Length, heap.fixedCount, heap.recordSize)
    modifies heap, heap.mem
    ensures heap.Valid() && heap.StorageOk()
    ensures (Visible(heap.View(), heap.fixedCount), outs)
            == RunSpec(Visible(old(heap.View()), heap.fixedCount), ops, heap.mem.Length, heap.fixedCount, heap.recordSize)
    decreases |ops|
  {
    hide Wf, ViewOf, BlockOf, GapOk, Step;
    if ops == [] { return []; }
    var out := Do(heap, ops[0]);
    var rest := Run(heap, ops[1..]);
    outs := [out] + rest;
  }

  function InitialView(f: nat): View {
    seq(f, _ => EMPTY)
  }

  lemma InitialStorage(f: nat, recordSize: nat)
    requires 1 <= f
    ensures StorageSized(InitialView(f), f, recordSize) && Visible(InitialView(f), f) == InitialView(f)
  {
    assert Visible(InitialView(f), f)[f - 1] == EMPTY;
  }

  /** The same from the very start: a heap of any size is initialised and takes any run of operations the
      specification allows from its empty table. */
  method RunFromInit(size: nat, f: nat, recordSize: nat, ops: seq<Op>) returns (heap: Heap, outs: seq<Outcome>)
    requires 1 <= f < size < UINT16 && 1 <= recordSize
    requires StorageSized(InitialView(f), f, recordSize) && LegalRun(InitialView(f), ops, size, f, recordSize)
    ensures fresh(heap) && heap.Valid() && heap.StorageOk() && heap.mem.Length == size && heap.fixedCount == f
    ensures (Visible(heap.View(), f), outs) == RunSpec(InitialView(f), ops, size, f, recordSize)
  {
    hide Wf, ViewOf, BlockOf, GapOk, Step, StorageSized;
    heap := new Heap(size, f, recordSize);
    InitialStorage(f, recordSize);
    assert heap.View() == InitialView(f);
    outs := Run(heap, ops);
  }
}
