/** Laws of the memory manager's specification, which every run of the heap inherits. */
module HeapLaws {
  import opened Wrappers
  import opened Tags
  import opened Layout
  import opened HeapSteps
  import opened HeapRuns

  /** An operation on one handle leaves every other owner's bytes alone, and so do acquiring and
      releasing, for every handle but the one acquired or released. */
  lemma OthersUntouched(v: View, op: Op, n: nat, f: nat, recordSize: nat, j: nat)
    requires StorageSized(v, f, recordSize) && Allowed(v, op, f) && Owned(v, f, j)
    requires !op.Acquire? ==> j != op.h
    ensures var v' := Step(v, op, n, f, recordSize).0; j < |v'| && v'[j] == v[j]
  {
    if op.Release? {
      ReleaseSteps(v, op.h, f, recordSize);
      var v1 := v[op.h := None];
      assert v1[j].Some?;
      if op.h + 1 == |v| { assert j < TrimmedLen(v1, f); }
    }
  }

  lemma {:induction false} HeldAppend(v: View, b: Option<Pair>)
    ensures Held(v + [b], |v| + 1) == Held(v, |v|) + Weight(b)
  {
    HeldSame(v, v + [b], |v|);
  }

  lemma {:induction false} HeldPrefix(v: View, k: nat)
    requires k <= |v|
    ensures Held(v[..k], k) == Held(v, k) <= Held(v, |v|)
  {
    HeldSame(v[..k], v, k);
    if k == |v| {
    } else {
      HeldPrefix(v[..|v| - 1], k);
      assert v[..|v| - 1][..k] == v[..k];
      HeldSame(v[..|v| - 1], v, |v| - 1);
    }
  }

  lemma SlotCosts(v: View, n: nat, f: nat, recordSize: nat, b: Option<Pair>)
    requires StorageSized(v, f, recordSize)
    ensures Budget(WithSlot(v, f, recordSize)[|v| := b], n) == Budget(v, n) - recordSize - Weight(b)
  {
    var s := Some(Pair([], v[f - 1].value.response + Zeros(recordSize)));
    HeldChanged(v, f - 1, s, |v|);
    HeldAppend(v[f - 1 := s], b);
    assert WithSlot(v, f, recordSize)[|v| := b] == v[f - 1 := s] + [b];
  }

  lemma TailGivesBack(v: View, n: nat, f: nat, recordSize: nat)
    requires StorageSized(v, f, recordSize)
    ensures Budget(v, n) <= Budget(WithoutFreeTail(v, f, recordSize), n)
  {
    ReleasedStorage(v, f, recordSize);
    var t := TrimmedLen(v, f);
    var s := Some(Pair([], Slice(v[f - 1].value.response, 0, RecordBytes(recordSize, t - f))));
    HeldChanged(v, f - 1, s, |v|);
    HeldPrefix(v[f - 1 := s], t);
  }

  // An operation on one handle's block changes that block alone, and takes no more than is left.
  lemma BlockStep(v: View, op: Op, n: nat, f: nat, recordSize: nat)
    requires StorageSized(v, f, recordSize) && Allowed(v, op, f) && !op.Acquire? && !op.Release?
    ensures var v' := Step(v, op, n, f, recordSize).0;
      && |v'| == |v| && v'[op.h].Some? && v' == v[op.h := v'[op.h]]
      && (0 <= Budget(v, n) ==> Weight(v'[op.h]) <= Weight(v[op.h]) + Budget(v, n))
  {
    hide Budget, StorageSized, Effect;
    if 0 <= Budget(v, n) { EffectTakes(v[op.h].value, op, Budget(v, n), f); }
  }

  lemma EffectTakes(p: Pair, op: Op, free: nat, f: nat)
    requires !op.Acquire? && !op.Release?
    requires op.Cut? ==> op.offset + op.size <= |p.request|
    requires op.Strip? ==> op.n <= |p.request|
    ensures var (p', _) := Effect(p, op, free, f); |p'.request| + |p'.response| <= |p.request| + |p.response| + free
  {
  }

  /** The bytes left over are never fewer than none: no run hands out more than there is. */
  lemma StepKeepsBudget(v: View, op: Op, n: nat, f: nat, recordSize: nat)
    requires StorageSized(v, f, recordSize) && Allowed(v, op, f) && 0 <= Budget(v, n)
    ensures 0 <= Budget(Step(v, op, n, f, recordSize).0, n)
  {
    hide Budget, WithSlot, Effect;
    match op {
      case Acquire =>
        var k := FirstFree(v, f);
        if k == |v| {
          SlotCosts(v, n, f, recordSize, None);
          SlotCosts(v, n, f, recordSize, EMPTY);
          assert WithSlot(v, f, recordSize)[|v| := None] == WithSlot(v, f, recordSize) by { NewSlotIsFree(v, f, recordSize); }
        } else {
          BudgetChanged(v, k, EMPTY, n);
        }
      case Release(h) =>
        ReleaseSteps(v, h, f, recordSize);
        BudgetChanged(v, h, None, n);
        AcquiredKeepsStorage(v, h, None, f, recordSize);
        TailGivesBack(v[h := None], n, f, recordSize);
      case _ =>
        BlockStep(v, op, n, f, recordSize);
        BudgetChanged(v, op.h, Step(v, op, n, f, recordSize).0[op.h], n);
    }
  }

  lemma BudgetChanged(v: View, h: nat, b: Option<Pair>, n: nat)
    requires h < |v|
    ensures Budget(v[h := b], n) == Budget(v, n) + Weight(v[h]) - Weight(b)
  {
    HeldChanged(v, h, b, |v|);
  }

  lemma NewSlotIsFree(v: View, f: nat, recordSize: nat)
    requires 1 <= f <= |v| && v[f - 1].Some?
    ensures WithSlot(v, f, recordSize)[|v| := None] == WithSlot(v, f, recordSize)
  {
  }

  // The table's last slot is a free one.
  predicate EndsFree(v: View, f: nat) {
    f < |v| && v[|v| - 1].None?
  }

  // An acquire that finds every slot taken and room for a new record, but for nothing else.
  ghost predicate Tight(v: View, op: Op, n: nat, f: nat, recordSize: nat)
    requires f <= |v|
  {
    op.Acquire? && FirstFree(v, f) == |v| && Budget(v, n) == recordSize
  }

  /** When exactly a step leaves the slot table ending in a free slot: after a tight acquire; or when it did
      before, and the step is not an acquire that hands out that slot. */
  lemma FreeTail(v: View, op: Op, n: nat, f: nat, recordSize: nat)
    requires StorageSized(v, f, recordSize) && Allowed(v, op, f)
    ensures EndsFree(Step(v, op, n, f, recordSize).0, f)
            <==> Tight(v, op, n, f, recordSize)
                 || (EndsFree(v, f) && (op.Acquire? && 0 < Budget(v, n) ==> FirstFree(v, f) + 1 != |v|))
  {
    hide Budget, Effect;
    match op {
      case Acquire =>
        FreeTailOfAcquire(v, n, f, recordSize);
      case Release(h) =>
        hide StorageSized;
        StorageHandle(v, f, recordSize);
        ReleaseSteps(v, h, f, recordSize);
      case _ =>
        BlockStep(v, op, n, f, recordSize);
    }
  }

  lemma FreeTailOfAcquire(v: View, n: nat, f: nat, recordSize: nat)
    requires StorageSized(v, f, recordSize)
    ensures EndsFree(Step(v, Acquire, n, f, recordSize).0, f)
            <==> Tight(v, Acquire, n, f, recordSize) || (EndsFree(v, f) && (0 < Budget(v, n) ==> FirstFree(v, f) + 1 != |v|))
  {
    hide Budget, StorageSized, FirstFree;
    StorageHandle(v, f, recordSize);
    var k := FirstFree(v, f);
    if k == |v| {
      assert !EndsFree(v, f);
      NewSlotIsFree(v, f, recordSize);
    }
  }

  // Whether the table ends in a free slot at some point of the run.
  ghost predicate EverEndsFree(v: View, ops: seq<Op>, n: nat, f: nat, recordSize: nat)
    requires StorageSized(v, f, recordSize) && LegalRun(v, ops, n, f, recordSize)
    decreases |ops|
  {
    EndsFree(v, f)
    || (ops != [] && (StepKeepsStorage(v, ops[0], n, f, recordSize);
                      EverEndsFree(Step(v, ops[0], n, f, recordSize).0, ops[1..], n, f, recordSize)))
  }

  // Whether some acquire of the run is tight in the state it meets.
  ghost predicate EverTight(v: View, ops: seq<Op>, n: nat, f: nat, recordSize: nat)
    requires StorageSized(v, f, recordSize) && LegalRun(v, ops, n, f, recordSize)
    decreases |ops|
  {
    ops != [] && (Tight(v, ops[0], n, f, recordSize)
                  || (StepKeepsStorage(v, ops[0], n, f, recordSize);
                      EverTight(Step(v, ops[0], n, f, recordSize).0, ops[1..], n, f, recordSize)))
  }

  /** Over a whole run the table comes to end in a free slot exactly if some acquire meets a tight state. */
  lemma {:induction false} FreeTailOverRuns(v: View, ops: seq<Op>, n: nat, f: nat, recordSize: nat)
    requires StorageSized(v, f, recordSize) && LegalRun(v, ops, n, f, recordSize) && !EndsFree(v, f)
    ensures EverEndsFree(v, ops, n, f, recordSize) <==> EverTight(v, ops, n, f, recordSize)
    decreases |ops|
  {
    hide Step, EndsFree, Tight, Allowed;
    if ops == [] {
    } else {
      var v1 := Step(v, ops[0], n, f, recordSize).0;
      StepKeepsStorage(v, ops[0], n, f, recordSize);
      FreeTail(v, ops[0], n, f, recordSize);
      if !EndsFree(v1, f) { FreeTailOverRuns(v1, ops[1..], n, f, recordSize); }
    }
  }

  lemma SlotComesAndGoes(v: View, f: nat, recordSize: nat)
    requires StorageSized(v, f, recordSize) && !EndsFree(v, f)
    ensures WithoutFreeTail(WithSlot(v, f, recordSize), f, recordSize) == v
  {
    var w := WithSlot(v, f, recordSize);
    TrimmedLenIs(w, f, |v|);
    assert Slice(w[f - 1].value.response, 0, |v[f - 1].value.response|) == v[f - 1].value.response;
  }

  /** Acquiring a handle and releasing it at once undoes it, table, records, contents and free space,
      exactly unless the handle was the table's last slot, left free by an earlier failure: that slot is
      then cleaned up as well. */
  lemma AcquireThenRelease(v: View, n: nat, f: nat, recordSize: nat)
    requires StorageSized(v, f, recordSize)
    requires Step(v, Acquire, n, f, recordSize).1 == Handle(Acquired(FirstFree(v, f)))
    ensures var (v1, _) := Step(v, Acquire, n, f, recordSize);
      var k := FirstFree(v, f);
      StorageSized(v1, f, recordSize) && Allowed(v1, Release(k), f)
      && (Step(v1, Release(k), n, f, recordSize).0 == v <==> k + 1 != |v|)
  {
    hide Effect, Budget, StorageSized, WithoutFreeTail, FirstFree, Step;
    StepKeepsStorage(v, Acquire, n, f, recordSize);
    var k := FirstFree(v, f);
    var v1 := Step(v, Acquire, n, f, recordSize).0;
    AcquiredIs(v, n, f, recordSize);
    ReleaseSteps(v1, k, f, recordSize);
    ReleasedIs(v1, k, n, f, recordSize);
    if k == |v| {
      StorageHandle(v, f, recordSize);
      NoneLeft(v, f);
      SlotComesAndGoes(v, f, recordSize);
      assert v1[k := None] == WithSlot(v, f, recordSize) by { NewSlotIsFree(v, f, recordSize); }
    } else {
      assert v1[k := None] == v;
      if k + 1 == |v| { TailGoes(v, f, recordSize); }
    }
  }

  // What a successful acquire does.
  lemma AcquiredIs(v: View, n: nat, f: nat, recordSize: nat)
    requires StorageSized(v, f, recordSize)
    requires Step(v, Acquire, n, f, recordSize).1 == Handle(Acquired(FirstFree(v, f)))
    ensures var v1, k := Step(v, Acquire, n, f, recordSize).0, FirstFree(v, f);
      && f <= |v| && (if k == |v| then v1 == WithSlot(v, f, recordSize)[k := EMPTY] else v1 == v[k := EMPTY])
      && Allowed(v1, Release(k), f) && k < |v1| && (k < |v| ==> v[k] == None) && f <= k
  {
    hide Effect, Budget;
  }

  lemma ReleasedIs(v: View, h: nat, n: nat, f: nat, recordSize: nat)
    requires StorageSized(v, f, recordSize) && Allowed(v, Release(h), f)
    ensures Step(v, Release(h), n, f, recordSize).0 == ReleaseEffect(v, h, f, recordSize)
  {
  }

  lemma NoneLeft(v: View, f: nat)
    requires f <= |v| && FirstFree(v, f) == |v|
    ensures !EndsFree(v, f)
  {
  }

  // With the last slot free, dropping what is free at the end changes the table.
  lemma TailGoes(v: View, f: nat, recordSize: nat)
    requires StorageSized(v, f, recordSize) && EndsFree(v, f)
    ensures WithoutFreeTail(v, f, recordSize) != v
  {
    assert |WithoutFreeTail(v, f, recordSize)| == TrimmedLen(v, f) < |v|;
  }

  // ------------------------------------------------------------------------------------ examples

  // With nobody but the storage handle and one fixed handle, eight bytes, and records of four.
  const N := 8
  const F := 2
  const R := 4

  function Two(a: seq<byte>): View {
    [Some(Pair([], a)), EMPTY]
  }

  lemma TwoBudget(a: seq<byte>)
    ensures Budget(Two(a), N) == 5 - |a| && StorageSized(Two(a), F, R) && FirstFree(Two(a), F) == 2
  {
    var v := Two(a);
    assert Held(v, 0) == 0 && Held(v, 1) == |a| + 1;
  }

  function Three(a: seq<byte>): View {
    [Some(Pair([], a)), Some(Pair([], Zeros(R))), None]
  }

  lemma ThreeBudget(a: seq<byte>)
    ensures Budget(Three(a), N) == 1 - |a| && StorageSized(Three(a), F, R) && FirstFree(Three(a), F) == 2
    ensures EndsFree(Three(a), F)
  {
    var v := Three(a);
    assert Held(v, 0) == 0 && Held(v, 1) == |a| + 1 && Held(v, 2) == |a| + 1 + R + 1;
    assert RecordBytes(R, 1) == RecordBytes(R, 0) + R;
  }

  // One more operation in front of a run.
  lemma Answered(v: View, op: Op, rest: seq<Op>, v1: View, out: Outcome)
    requires StorageSized(v, F, R) && Allowed(v, op, F) && Step(v, op, N, F, R) == (v1, out)
    requires StorageSized(v1, F, R) && LegalRun(v1, rest, N, F, R)
    ensures LegalRun(v, [op] + rest, N, F, R)
    ensures RunSpec(v, [op] + rest, N, F, R) == (RunSpec(v1, rest, N, F, R).0, [out] + RunSpec(v1, rest, N, F, R).1)
  {
    hide Step, StorageSized, Allowed;
    assert ([op] + rest)[1..] == rest;
  }

  lemma NoAnswers(v: View)
    requires StorageSized(v, F, R)
    ensures LegalRun(v, [], N, F, R) && RunSpec(v, [], N, F, R) == (v, [])
  {
  }

  /** A legal run from initialisation does leave the table ending in a free slot: a byte is written, and an
      acquire then has room for its record only. */
  lemma FreeTailHappens()
    ensures StorageSized(InitialView(F), F, R)
    ensures LegalRun(InitialView(F), [Write(0, [7]), Acquire], N, F, R)
    ensures EndsFree(RunSpec(InitialView(F), [Write(0, [7]), Acquire], N, F, R).0, F)
  {
    hide Budget, StorageSized, FirstFree, RunSpec, LegalRun;
    TwoBudget([]);
    TwoBudget([7]);
    ThreeBudget([7]);
    assert InitialView(F) == Two([]);
    assert Step(Two([]), Write(0, [7]), N, F, R).0 == Two([7]) by {
      var d: seq<byte> := [7];
      assert [] + d == d;
      assert Two([])[0 := Some(Pair([], d))] == Two(d);
    }
    assert Step(Two([7]), Acquire, N, F, R).0 == Three([7]) by { assert [] + Zeros(R) == Zeros(R); }
    NoAnswers(Three([7]));
    Answered(Two([7]), Acquire, [], Three([7]), Handle(NoSpace));
    Answered(Two([]), Write(0, [7]), [Acquire] + [], Two([7]), Done);
    assert [Write(0, [7])] + ([Acquire] + []) == [Write(0, [7]), Acquire];
  }

  /** Once the byte is freed, the next acquire hands out that slot, and releasing it does not restore the
      table: the slot and its record go with it. */
  lemma UndoFails()
    ensures StorageSized(InitialView(F), F, R)
    ensures LegalRun(InitialView(F), [Write(0, [7]), Acquire, Free(0)], N, F, R)
    ensures var v := RunSpec(InitialView(F), [Write(0, [7]), Acquire, Free(0)], N, F, R).0;
      && StorageSized(v, F, R) && Step(v, Acquire, N, F, R).1 == Handle(Acquired(2))
      && (var v1 := Step(v, Acquire, N, F, R).0;
          StorageSized(v1, F, R) && Allowed(v1, Release(2), F) && Step(v1, Release(2), N, F, R).0 != v)
  {
    hide Budget, StorageSized, FirstFree, RunSpec, LegalRun;
    TwoBudget([]);
    TwoBudget([7]);
    ThreeBudget([7]);
    ThreeBudget([]);
    assert InitialView(F) == Two([]);
    assert Step(Two([]), Write(0, [7]), N, F, R).0 == Two([7]) by {
      var d: seq<byte> := [7];
      assert [] + d == d;
      assert Two([])[0 := Some(Pair([], d))] == Two(d);
    }
    assert Step(Two([7]), Acquire, N, F, R).0 == Three([7]) by { assert [] + Zeros(R) == Zeros(R); }
    assert Step(Three([7]), Free(0), N, F, R).0 == Three([]) by { assert Three([7])[0 := EMPTY] == Three([]); }
    NoAnswers(Three([]));
    Answered(Three([7]), Free(0), [], Three([]), Done);
    Answered(Two([7]), Acquire, [Free(0)] + [], Three([7]), Handle(NoSpace));
    Answered(Two([]), Write(0, [7]), [Acquire] + ([Free(0)] + []), Two([7]), Done);
    assert [Write(0, [7])] + ([Acquire] + ([Free(0)] + [])) == [Write(0, [7]), Acquire, Free(0)];
    AcquireThenRelease(Three([]), N, F, R);
  }

  // Writing to the empty handle 0.
  lemma Written(data: seq<byte>)
    requires |data| <= 5
    ensures StorageSized(Two([]), F, R) && Allowed(Two([]), Write(0, data), F)
    ensures Step(Two([]), Write(0, data), N, F, R) == (Two(data), Done)
    ensures InitialView(F) == Two([])
  {
    hide Budget, StorageSized;
    TwoBudget([]);
    assert [] + data == data;
    assert Two([])[0 := Some(Pair([], data))] == Two(data);
  }

  /** A legal run that meets the storage fault: two bytes are written, and three are left where a record needs
      four. */
  lemma StorageFaultHappens()
    ensures StorageSized(InitialView(F), F, R)
    ensures LegalRun(InitialView(F), [Write(0, [7, 7]), Acquire], N, F, R)
    ensures RunSpec(InitialView(F), [Write(0, [7, 7]), Acquire], N, F, R) == (Two([7, 7]), [Done, Handle(StorageFault)])
  {
    hide Budget, StorageSized, FirstFree, RunSpec, LegalRun;
    var d: seq<byte> := [7, 7];
    TwoBudget(d);
    Written(d);
    NoAnswers(Two(d));
    Answered(Two(d), Acquire, [], Two(d), Handle(StorageFault));
    Answered(Two([]), Write(0, d), [Acquire] + [], Two(d), Done);
    assert [Write(0, d)] + ([Acquire] + []) == [Write(0, d), Acquire];
    assert [Done] + ([Handle(StorageFault)] + []) == [Done, Handle(StorageFault)];
  }

  function Asked(a: seq<byte>): View {
    [Some(Pair(a, [])), EMPTY]
  }

  lemma AskedBudget(a: seq<byte>)
    ensures Budget(Asked(a), N) == 5 - |a| && StorageSized(Asked(a), F, R)
  {
    assert Held(Asked(a), 0) == 0 && Held(Asked(a), 1) == |a| + 1;
  }

  /** A legal run in which a prepend fails and the request is gone: of the request's one byte and the four left,
      six cannot be had. */
  lemma PrependLosesRequest()
    ensures StorageSized(InitialView(F), F, R)
    ensures var ops := [Write(0, [7]), ResponseToRequest(0), Prepend(0, [1, 2, 3, 4, 5, 6])];
      LegalRun(InitialView(F), ops, N, F, R)
      && RunSpec(InitialView(F), ops, N, F, R) == (Two([]), [Done, Done, OutOfMemory])
      && LegalRun(InitialView(F), ops[..2], N, F, R) && RunSpec(InitialView(F), ops[..2], N, F, R).0 == Asked([7])
  {
    hide Budget, StorageSized, RunSpec, LegalRun;
    var d: seq<byte> := [7];
    var e: seq<byte> := [1, 2, 3, 4, 5, 6];
    AskedBudget(d);
    TwoBudget(d);
    TwoBudget([]);
    Written(d);
    assert Two(d)[0 := Some(Pair(d, []))] == Asked(d) && Asked(d)[0 := EMPTY] == Two([]);
    NoAnswers(Two([]));
    NoAnswers(Asked(d));
    Answered(Asked(d), Prepend(0, e), [], Two([]), OutOfMemory);
    Answered(Two(d), ResponseToRequest(0), [Prepend(0, e)] + [], Asked(d), Done);
    Answered(Two([]), Write(0, d), [ResponseToRequest(0)] + ([Prepend(0, e)] + []), Two(d), Done);
    Answered(Two(d), ResponseToRequest(0), [], Asked(d), Done);
    Answered(Two([]), Write(0, d), [ResponseToRequest(0)] + [], Two(d), Done);
    var ops := [Write(0, d), ResponseToRequest(0), Prepend(0, e)];
    assert [Write(0, d)] + ([ResponseToRequest(0)] + ([Prepend(0, e)] + [])) == ops;
    assert [Write(0, d)] + ([ResponseToRequest(0)] + []) == ops[..2];
    assert [Done] + ([Done] + ([OutOfMemory] + [])) == [Done, Done, OutOfMemory];
  }

  // Handle 2 has been acquired.
  function Got(): View {
    [EMPTY, Some(Pair([], Zeros(R))), EMPTY]
  }

  lemma GotIsSized()
    ensures StorageSized(Got(), F, R) && Step(Two([]), Acquire, N, F, R) == (Got(), Handle(Acquired(2)))
  {
    TwoBudget([]);
    hide Budget, FirstFree;
    assert RecordBytes(R, 1) == R;
    assert [] + Zeros(R) == Zeros(R);
    assert WithSlot(Two([]), F, R)[2 := EMPTY] == Got();
  }

  /** A legal run in which a block is to be prepended for an acquired handle, which has no entry in the table of
      fixed ones. */
  lemma NotInTableHappens()
    ensures StorageSized(InitialView(F), F, R)
    ensures LegalRun(InitialView(F), [Acquire, PrependBlock(2, [7])], N, F, R)
    ensures RunSpec(InitialView(F), [Acquire, PrependBlock(2, [7])], N, F, R) == (Got(), [Handle(Acquired(2)), Outcome.NotInTable])
  {
    hide Budget, StorageSized, FirstFree, RunSpec, LegalRun;
    TwoBudget([]);
    GotIsSized();
    assert InitialView(F) == Two([]);
    NoAnswers(Got());
    assert Got()[2 := Got()[2]] == Got();
    Answered(Got(), PrependBlock(2, [7]), [], Got(), Outcome.NotInTable);
    Answered(Two([]), Acquire, [PrependBlock(2, [7])] + [], Got(), Handle(Acquired(2)));
    assert [Acquire] + ([PrependBlock(2, [7])] + []) == [Acquire, PrependBlock(2, [7])];
    assert [Handle(Acquired(2))] + ([Outcome.NotInTable] + []) == [Handle(Acquired(2)), Outcome.NotInTable];
  }
}
