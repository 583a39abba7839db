/** Route and link tables: vectors of entries in strictly increasing key order (routes by target, links by
    link id), the operations that keep them so, and the differences the root sends to its devices. */
module Tables {
  import opened Wrappers

  datatype Entry<V> = Entry(key: nat, val: V)

  datatype Change<V> = Add(entry: Entry<V>) | Delete(key: nat)

  predicate Sorted<V>(t: seq<Entry<V>>) {
    forall i, j :: 0 <= i < j < |t| ==> t[i].key < t[j].key
  }

  predicate HasKey<V>(t: seq<Entry<V>>, k: nat) {
    exists i :: 0 <= i < |t| && t[i].key == k
  }

  // The value of key k.
  function Lookup<V>(t: seq<Entry<V>>, k: nat): Option<V> {
    if t == [] then None else if t[0].key == k then Some(t[0].val) else Lookup(t[1..], k)
  }

  // The place of the first entry of key k, the table's length if there is none.
  function IndexOf<V>(t: seq<Entry<V>>, k: nat): (i: nat)
    ensures i <= |t| && (i < |t| ==> t[i].key == k)
    ensures forall j :: 0 <= j < i ==> t[j].key != k
  {
    if t == [] || t[0].key == k then 0 else 1 + IndexOf(t[1..], k)
  }

  // Entry e at its place: before the first greater key, or instead of the entry with its own.
  function Put<V>(t: seq<Entry<V>>, e: Entry<V>): (r: seq<Entry<V>>)
    ensures r != []
  {
    if t == [] || e.key < t[0].key then [e] + t
    else if e.key == t[0].key then [e] + t[1..]
    else [t[0]] + Put(t[1..], e)
  }

  // The table without the first entry of key k.
  function Remove<V>(t: seq<Entry<V>>, k: nat): seq<Entry<V>> {
    if t == [] then [] else if t[0].key == k then t[1..] else [t[0]] + Remove(t[1..], k)
  }

  function ApplyOne<V>(t: seq<Entry<V>>, c: Change<V>): seq<Entry<V>> {
    match c
    case Add(e) => Put(t, e)
    case Delete(k) => Remove(t, k)
  }

  function ApplyAll<V>(t: seq<Entry<V>>, cs: seq<Change<V>>): seq<Entry<V>>
    decreases |cs|
  {
    if cs == [] then t else ApplyOne(ApplyAll(t, cs[..|cs| - 1]), cs[|cs| - 1])
  }

  // Every deletion finds its entry.
  ghost predicate Applicable<V>(t: seq<Entry<V>>, cs: seq<Change<V>>) {
    forall i :: 0 <= i < |cs| && cs[i].Delete? ==> HasKey(ApplyAll(t, cs[..i]), cs[i].key)
  }

  // ------------------------------------------------------------------------- sorted tables

  lemma {:induction false} LookupIs<V>(t: seq<Entry<V>>, i: nat)
    requires Sorted(t) && i < |t|
    ensures Lookup(t, t[i].key) == Some(t[i].val)
  {
    if i == 0 {
    } else {
      LookupIs(t[1..], i - 1);
    }
  }

  lemma {:induction false} LookupNone<V>(t: seq<Entry<V>>, k: nat)
    ensures Lookup(t, k) == None <==> !HasKey(t, k)
  {
    if t == [] {
    } else {
      LookupNone(t[1..], k);
      if HasKey(t[1..], k) {
        var i :| 0 <= i < |t[1..]| && t[1..][i].key == k;
        assert t[i + 1].key == k;
      }
      if HasKey(t, k) && t[0].key != k {
        var i :| 0 <= i < |t| && t[i].key == k;
        assert t[1..][i - 1].key == k;
      }
    }
  }

  // Where Put puts an entry.
  lemma {:induction false} PutBetween<V>(a: seq<Entry<V>>, e: Entry<V>, b: seq<Entry<V>>)
    requires (forall i :: 0 <= i < |a| ==> a[i].key < e.key) && (b != [] ==> e.key < b[0].key)
    ensures Put(a + b, e) == a + [e] + b
  {
    if a == [] {
      assert a + b == b && a + [e] + b == [e] + b;
    } else {
      PutBetween(a[1..], e, b);
      assert (a + b)[1..] == a[1..] + b;
      assert a + [e] + b == [a[0]] + (a[1..] + [e] + b);
    }
  }

  lemma {:induction false} PutOver<V>(a: seq<Entry<V>>, e: Entry<V>, b: seq<Entry<V>>)
    requires (forall i :: 0 <= i < |a| ==> a[i].key < e.key) && b != [] && e.key == b[0].key
    ensures Put(a + b, e) == a + [e] + b[1..]
  {
    if a == [] {
      assert a + b == b && a + [e] + b[1..] == [e] + b[1..];
    } else {
      PutOver(a[1..], e, b);
      assert (a + b)[1..] == a[1..] + b;
      assert a + [e] + b[1..] == [a[0]] + (a[1..] + [e] + b[1..]);
    }
  }

  lemma {:induction false} RemoveBetween<V>(a: seq<Entry<V>>, b: seq<Entry<V>>)
    requires b != [] && forall i :: 0 <= i < |a| ==> a[i].key != b[0].key
    ensures Remove(a + b, b[0].key) == a + b[1..] && HasKey(a + b, b[0].key)
  {
    assert (a + b)[|a|] == b[0];
    if a == [] {
      assert a + b == b && a + b[1..] == b[1..];
    } else {
      RemoveBetween(a[1..], b);
      assert (a + b)[1..] == a[1..] + b;
      assert a + b[1..] == [a[0]] + (a[1..] + b[1..]);
    }
  }

  /** Putting an entry into a sorted table keeps it sorted and changes the value of its key only. */
  lemma {:induction false} PutKeepsOrder<V>(t: seq<Entry<V>>, e: Entry<V>)
    requires Sorted(t)
    ensures Sorted(Put(t, e)) && (t != [] ==> Put(t, e)[0].key == if e.key < t[0].key then e.key else t[0].key)
    ensures forall k :: Lookup(Put(t, e), k) == if k == e.key then Some(e.val) else Lookup(t, k)
  {
    if t != [] && e.key > t[0].key {
      PutKeepsOrder(t[1..], e);
      assert Put(t, e)[1..] == Put(t[1..], e);
    } else if t != [] && e.key == t[0].key {
      assert Put(t, e)[1..] == t[1..];
    } else {
      assert Put(t, e)[1..] == t;
      NotBefore(t, e.key);
    }
  }

  lemma {:induction false} NotBefore<V>(t: seq<Entry<V>>, k: nat)
    requires Sorted(t) && (t != [] ==> k < t[0].key)
    ensures Lookup(t, k) == None
  {
    if t == [] {
    } else {
      NotBefore(t[1..], k);
    }
  }

  lemma {:induction false} PutMembers<V>(t: seq<Entry<V>>, e: Entry<V>)
    ensures forall i :: 0 <= i < |Put(t, e)| ==> Put(t, e)[i] == e || Put(t, e)[i] in t
  {
    if t == [] || e.key <= t[0].key {
    } else {
      PutMembers(t[1..], e);
      forall i | 0 <= i < |Put(t, e)| ensures Put(t, e)[i] == e || Put(t, e)[i] in t {
        if i > 0 { assert Put(t, e)[i] == Put(t[1..], e)[i - 1]; }
      }
    }
  }

  lemma PutHasKey<V>(t: seq<Entry<V>>, e: Entry<V>, k: nat)
    requires Sorted(t)
    ensures HasKey(Put(t, e), k) <==> HasKey(t, k) || k == e.key
  {
    PutKeepsOrder(t, e);
    LookupNone(t, k);
    LookupNone(Put(t, e), k);
  }

  lemma CutAt<T>(t: seq<T>, j: nat, e: T)
    requires j <= |t|
    ensures t == t[..j] + t[j..]
    ensures j < |t| ==> t[j := e] == t[..j] + [e] + t[j..][1..]
  {
  }

  lemma PutAt<V>(t: seq<Entry<V>>, j: nat, v: V)
    requires Sorted(t) && j < |t|
    ensures t[j := Entry(t[j].key, v)] == Put(t, Entry(t[j].key, v))
  {
    hide Put;
    var e := Entry(t[j].key, v);
    CutAt(t, j, e);
    PutOver(t[..j], e, t[j..]);
  }

  // --------------------------------------------------------------------- operations on a table

  /** Adds or updates one entry of a sorted table. */
  method AddOrUpdate<V>(t: seq<Entry<V>>, e: Entry<V>) returns (r: seq<Entry<V>>)
    requires Sorted(t)
    ensures r == Put(t, e)
  {
    var i := 0;
    while i < |t|
      invariant 0 <= i <= |t| && forall j :: 0 <= j < i ==> t[j].key < e.key
    {
      assert t == t[..i] + t[i..];
      if e.key < t[i].key {
        PutBetween(t[..i], e, t[i..]);
        return t[..i] + [e] + t[i..];
      } else if e.key == t[i].key {
        PutOver(t[..i], e, t[i..]);
        assert t[i := Entry(t[i].key, e.val)] == t[..i] + [e] + t[i..][1..];
        return t[i := Entry(t[i].key, e.val)];
      }
      i := i + 1;
    }
    PutBetween(t, e, []);
    assert t + [] == t && t + [e] + [] == t + [e];
    return t + [e];
  }

  // Ids 0..i-1 are in use and i is not.
  lemma LeastUnused<V>(t: seq<Entry<V>>, i: nat)
    requires Sorted(t) && i <= |t| && (forall j :: 0 <= j < i ==> t[j].key == j) && (i < |t| ==> i < t[i].key)
    ensures !HasKey(t, i) && forall k :: 0 <= k < i ==> HasKey(t, k)
  {
    KeyBetween(t, i, i);
    forall k | 0 <= k < i ensures HasKey(t, k) {
      assert t[k].key == k;
    }
  }

  lemma PutAtLeast<V>(t: seq<Entry<V>>, i: nat, v: V)
    requires i <= |t| && (forall j :: 0 <= j < i ==> t[j].key == j) && (i < |t| ==> i < t[i].key)
    ensures Put(t, Entry(i, v)) == t[..i] + [Entry(i, v)] + t[i..]
  {
    hide Put;
    CutAt(t, i, Entry(i, v));
    PutBetween(t[..i], Entry(i, v), t[i..]);
  }

  /** Inserts a link under the least id not in use and returns that id. Ids are 16-bit numbers. */
  method InsertLink<V>(t: seq<Entry<V>>, v: V) returns (r: seq<Entry<V>>, id: nat)
    requires Sorted(t) && |t| < 0x1_0000
    ensures !HasKey(t, id) && forall k :: 0 <= k < id ==> HasKey(t, k)
    ensures r == Put(t, Entry(id, v)) && id <= |t|
  {
    hide HasKey, Put;
    var i := 0;
    while i < |t|
      invariant 0 <= i <= |t| && forall j :: 0 <= j < i ==> t[j].key == j
    {
      if i < t[i].key { break; }
      assert i > 0 ==> t[i - 1].key < t[i].key;
      i := i + 1;
    }
    LeastUnused(t, i);
    PutAtLeast(t, i, v);
    if i < |t| {
      id := i;
      r := t[..i] + [Entry(id, v)] + t[i..];
    } else {
      id := if |t| == 0 then 0 else (t[|t| - 1].key + 1) % 0x1_0000;
      r := t + [Entry(id, v)];
    }
  }

  // Ids 0, 1, 2, ... without holes.
  predicate Dense<V>(t: seq<Entry<V>>) {
    forall i :: 0 <= i < |t| ==> t[i].key == i
  }

  lemma DenseKeys<V>(t: seq<Entry<V>>, k: nat)
    requires Dense(t)
    ensures HasKey(t, k) <==> k < |t|
  {
    if k < |t| { assert t[k].key == k; }
  }

  /** Ids stay dense under insertion. */
  lemma InsertKeepsDense<V>(t: seq<Entry<V>>, id: nat, v: V)
    requires Dense(t) && !HasKey(t, id) && forall k :: 0 <= k < id ==> HasKey(t, k)
    ensures id == |t| && Put(t, Entry(id, v)) == t + [Entry(id, v)] && Dense(Put(t, Entry(id, v)))
  {
    DenseKeys(t, id);
    DenseKeys(t, |t|);
    PutBetween(t, Entry(id, v), []);
    assert t + [] == t && t + [Entry(id, v)] + [] == t + [Entry(id, v)];
  }

  // ---------------------------------------------------------------------------- differences

  /** What has to change to turn the confirmed table into the planned one, found by merging the two. Applied
      to the confirmed table it gives exactly the planned one; every deletion finds its entry, there is no
      change that is not needed, and the changes come in the order of their keys, none twice. */
  method Diff<V(==)>(confirmed: seq<Entry<V>>, planned: seq<Entry<V>>) returns (cs: seq<Change<V>>)
    requires Sorted(confirmed) && Sorted(planned)
    ensures ApplyAll(confirmed, cs) == planned && Applicable(confirmed, cs)
    ensures Needed(confirmed, planned, cs) && Ascending(cs)
    ensures cs == [] <==> confirmed == planned
  {
    hide Merged, Needed, Ascending, Applicable, ApplyAll, Sorted;
    cs := [];
    var i, j := 0, 0;
    Start(confirmed, planned);
    while i < |confirmed|
      invariant 0 <= i <= |confirmed| && 0 <= j <= |planned| && Merged(confirmed, planned, i, j, cs)
      decreases |confirmed| - i + |planned| - j
    {
      if j >= |planned| { break; }
      if confirmed[i].key < planned[j].key {
        DeleteStep(confirmed, planned, i, j, cs);
        cs := cs + [Delete(confirmed[i].key)];
      } else if confirmed[i].key == planned[j].key {
        if confirmed[i] != planned[j] {
          UpdateStep(confirmed, planned, i, j, cs);
          cs := cs + [Add(planned[j])];
        } else {
          KeepStep(confirmed, planned, i, j, cs);
        }
        j := j + 1;
      } else {
        ghost var j0 := j;
        while confirmed[i].key > planned[j].key
          invariant 0 <= j < |planned| && j0 <= j && Merged(confirmed, planned, i, j, cs)
          decreases |planned| - j
        {
          InsertStep(confirmed, planned, i, j, cs);
          cs := cs + [Add(planned[j])];
          j := j + 1;
          if j >= |planned| { break; }
        }
        i := i - 1;  // repeat with the same i and the new j; at i == 0 the unsigned wrap cancels out below
      }
      i := i + 1;
    }
    while i < |confirmed|
      invariant 0 <= i <= |confirmed| && 0 <= j <= |planned| && Merged(confirmed, planned, i, j, cs)
      invariant i < |confirmed| ==> j == |planned|
    {
      DeleteStep(confirmed, planned, i, j, cs);
      cs := cs + [Delete(confirmed[i].key)];
      i := i + 1;
    }
    while j < |planned|
      invariant 0 <= j <= |planned| && i == |confirmed| && Merged(confirmed, planned, i, j, cs)
    {
      InsertStep(confirmed, planned, i, j, cs);
      cs := cs + [Add(planned[j])];
      j := j + 1;
    }
    MergedBounds(confirmed, planned, i, j, cs);
    Finish(confirmed, planned, cs);
  }

  // No change could be left out: an added entry is not there yet, a deleted one is not wanted.
  ghost predicate Needed<V>(confirmed: seq<Entry<V>>, planned: seq<Entry<V>>, cs: seq<Change<V>>) {
    forall n :: 0 <= n < |cs| ==> match cs[n]
      case Add(e) => e in planned && e !in confirmed
      case Delete(k) => HasKey(confirmed, k) && !HasKey(planned, k)
  }

  function KeyOf<V>(c: Change<V>): nat {
    match c
    case Add(e) => e.key
    case Delete(k) => k
  }

  predicate Ascending<V>(cs: seq<Change<V>>) {
    forall m, n :: 0 <= m < n < |cs| ==> KeyOf(cs[m]) < KeyOf(cs[n])
  }

  predicate Below<V>(cs: seq<Change<V>>, k: nat) {
    forall n :: 0 <= n < |cs| ==> KeyOf(cs[n]) < k
  }

  lemma AscendingMore<V>(cs: seq<Change<V>>, c: Change<V>)
    requires Ascending(cs) && Below(cs, KeyOf(c))
    ensures Ascending(cs + [c]) && forall k: nat :: KeyOf(c) < k ==> Below(cs + [c], k)
  {
  }

  // The state of the merge: the changes so far turn the confirmed table into the part of the planned one
  // already passed, followed by the part of the confirmed one still ahead.
  ghost predicate Merged<V>(confirmed: seq<Entry<V>>, planned: seq<Entry<V>>, i: int, j: int, cs: seq<Change<V>>) {
    && Sorted(confirmed) && Sorted(planned)
    && 0 <= i <= |confirmed| && 0 <= j <= |planned|
    && (i < |confirmed| && j > 0 ==> planned[j - 1].key < confirmed[i].key)
    && (j < |planned| && i > 0 ==> confirmed[i - 1].key < planned[j].key)
    && ApplyAll(confirmed, cs) == planned[..j] + confirmed[i..]
    && Applicable(confirmed, cs)
    && Needed(confirmed, planned, cs)
    && Ascending(cs)
    && (i < |confirmed| ==> Below(cs, confirmed[i].key))
    && (j < |planned| ==> Below(cs, planned[j].key))
  }

  lemma Start<V>(confirmed: seq<Entry<V>>, planned: seq<Entry<V>>)
    requires Sorted(confirmed) && Sorted(planned)
    ensures Merged(confirmed, planned, 0, 0, [])
  {
    assert planned[..0] + confirmed[0..] == confirmed;
  }

  lemma OneMore<V>(t: seq<Entry<V>>, cs: seq<Change<V>>, c: Change<V>)
    ensures ApplyAll(t, cs + [c]) == ApplyOne(ApplyAll(t, cs), c)
    ensures Applicable(t, cs) && (c.Delete? ==> HasKey(ApplyAll(t, cs), c.key)) ==> Applicable(t, cs + [c])
  {
    var ds := cs + [c];
    assert ds[..|ds| - 1] == cs;
    if Applicable(t, cs) && (c.Delete? ==> HasKey(ApplyAll(t, cs), c.key)) {
      forall i | 0 <= i < |ds| && ds[i].Delete? ensures HasKey(ApplyAll(t, ds[..i]), ds[i].key) {
        assert ds[..i] == if i < |cs| then cs[..i] else cs;
      }
    }
  }

  lemma NeededMore<V>(confirmed: seq<Entry<V>>, planned: seq<Entry<V>>, cs: seq<Change<V>>, c: Change<V>)
    requires Needed(confirmed, planned, cs)
    requires match c case Add(e) => e in planned && e !in confirmed
                     case Delete(k) => HasKey(confirmed, k) && !HasKey(planned, k)
    ensures Needed(confirmed, planned, cs + [c])
  {
  }

  // A key between two neighbours of a sorted table is not in it.
  lemma KeyBetween<V>(t: seq<Entry<V>>, j: nat, k: nat)
    requires Sorted(t) && j <= |t| && (j > 0 ==> t[j - 1].key < k) && (j < |t| ==> k < t[j].key)
    ensures !HasKey(t, k)
  {
  }

  lemma DeleteStep<V>(confirmed: seq<Entry<V>>, planned: seq<Entry<V>>, i: nat, j: nat, cs: seq<Change<V>>)
    requires Merged(confirmed, planned, i, j, cs) && i < |confirmed|
    requires j < |planned| ==> confirmed[i].key < planned[j].key
    ensures Merged(confirmed, planned, i + 1, j, cs + [Delete(confirmed[i].key)])
  {
    hide ApplyAll, Applicable, Needed, Ascending, Below, HasKey, Remove;
    var a, b, k := planned[..j], confirmed[i..], confirmed[i].key;
    KeyBetween(planned, j, k);
    assert HasKey(confirmed, k) by { KeyAt(confirmed, i); }
    RemoveBetween(a, b);
    assert b[1..] == confirmed[i + 1..];
    OneMore(confirmed, cs, Delete(k));
    NeededMore(confirmed, planned, cs, Delete(k));
    AscendingMore(cs, Delete(k));
  }

  lemma KeyAt<V>(t: seq<Entry<V>>, i: nat)
    requires i < |t|
    ensures HasKey(t, t[i].key)
  {
  }

  lemma UpdateStep<V>(confirmed: seq<Entry<V>>, planned: seq<Entry<V>>, i: nat, j: nat, cs: seq<Change<V>>)
    requires Merged(confirmed, planned, i, j, cs) && i < |confirmed| && j < |planned|
    requires confirmed[i].key == planned[j].key && confirmed[i] != planned[j]
    ensures Merged(confirmed, planned, i + 1, j + 1, cs + [Add(planned[j])])
  {
    hide ApplyAll, Applicable, Needed, Ascending, Below, HasKey, Put;
    var a, b := planned[..j], confirmed[i..];
    PutOver(a, planned[j], b);
    assert a + [planned[j]] == planned[..j + 1] && b[1..] == confirmed[i + 1..];
    OneMore(confirmed, cs, Add(planned[j]));
    NeededMore(confirmed, planned, cs, Add(planned[j]));
    AscendingMore(cs, Add(planned[j]));
  }

  lemma KeepStep<V>(confirmed: seq<Entry<V>>, planned: seq<Entry<V>>, i: nat, j: nat, cs: seq<Change<V>>)
    requires Merged(confirmed, planned, i, j, cs) && i < |confirmed| && j < |planned| && confirmed[i] == planned[j]
    ensures Merged(confirmed, planned, i + 1, j + 1, cs)
  {
    hide ApplyAll, Applicable, Needed, Ascending, Below, HasKey;
    assert planned[..j] + confirmed[i..] == planned[..j + 1] + confirmed[i + 1..];
    StillBelow(cs, confirmed[i].key);
  }

  lemma StillBelow<V>(cs: seq<Change<V>>, k: nat)
    requires Below(cs, k)
    ensures forall k': nat :: k < k' ==> Below(cs, k')
  {
  }

  lemma InsertStep<V>(confirmed: seq<Entry<V>>, planned: seq<Entry<V>>, i: nat, j: nat, cs: seq<Change<V>>)
    requires Merged(confirmed, planned, i, j, cs) && j < |planned|
    requires i < |confirmed| ==> confirmed[i].key > planned[j].key
    ensures Merged(confirmed, planned, i, j + 1, cs + [Add(planned[j])])
  {
    hide ApplyAll, Applicable, Needed, Ascending, Below, HasKey, Put;
    var a, b := planned[..j], confirmed[i..];
    PutBetween(a, planned[j], b);
    assert a + [planned[j]] == planned[..j + 1];
    OneMore(confirmed, cs, Add(planned[j]));
    assert planned[j] !in confirmed;
    NeededMore(confirmed, planned, cs, Add(planned[j]));
    AscendingMore(cs, Add(planned[j]));
  }

  lemma MergedBounds<V>(confirmed: seq<Entry<V>>, planned: seq<Entry<V>>, i: int, j: int, cs: seq<Change<V>>)
    requires Merged(confirmed, planned, i, j, cs)
    ensures 0 <= i <= |confirmed| && 0 <= j <= |planned| && Needed(confirmed, planned, cs) && Applicable(confirmed, cs)
    ensures Ascending(cs)
  {
  }

  lemma Finish<V>(confirmed: seq<Entry<V>>, planned: seq<Entry<V>>, cs: seq<Change<V>>)
    requires Merged(confirmed, planned, |confirmed|, |planned|, cs)
    ensures ApplyAll(confirmed, cs) == planned && (cs == [] <==> confirmed == planned)
  {
    assert planned[..|planned|] + confirmed[|confirmed|..] == planned;
    if cs != [] { NeededDiffers(confirmed, planned, cs); }
  }

  lemma NeededDiffers<V>(confirmed: seq<Entry<V>>, planned: seq<Entry<V>>, cs: seq<Change<V>>)
    requires Needed(confirmed, planned, cs) && cs != []
    ensures confirmed != planned
  {
    match cs[0] {
      case Add(e) =>
        assert e in planned && e !in confirmed;
      case Delete(k) =>
        assert HasKey(confirmed, k) && !HasKey(planned, k);
    }
  }

  // ------------------------------------------------------------------------- applying changes

  /** Applies the changes in order; found tells whether every deletion met its entry. */
  method Apply<V>(t: seq<Entry<V>>, cs: seq<Change<V>>) returns (r: seq<Entry<V>>, found: bool)
    requires Sorted(t)
    ensures r == ApplyAll(t, cs) && Sorted(r)
    ensures found <==> Applicable(t, cs)
  {
    hide ApplyAll, Applicable, Sorted, HasKey, Put, Remove;
    r, found := t, true;
    var i := 0;
    assert cs[..0] == [];
    NoChanges(t);
    while i < |cs|
      invariant 0 <= i <= |cs| && Sorted(r)
      invariant r == ApplyAll(t, cs[..i]) && (found <==> Applicable(t, cs[..i]))
    {
      assert cs[..i + 1] == cs[..i] + [cs[i]];
      OneMore(t, cs[..i], cs[i]);
      FoundSoFar(t, cs[..i], cs[i]);
      if cs[i].Add? {
        PutKeepsOrder(r, cs[i].entry);
        r := ApplyAdd(r, cs[i].entry);
      } else {
        RemoveKeepsOrder(r, cs[i].key);
        var applied;
        r, applied := ApplyDelete(r, cs[i].key);
        found := found && applied;
      }
      i := i + 1;
    }
    assert cs[..|cs|] == cs;
  }

  lemma NoChanges<V>(t: seq<Entry<V>>)
    ensures ApplyAll(t, []) == t && Applicable(t, [])
  {
  }

  lemma FoundSoFar<V>(t: seq<Entry<V>>, cs: seq<Change<V>>, c: Change<V>)
    ensures Applicable(t, cs + [c]) ==> Applicable(t, cs) && (c.Delete? ==> HasKey(ApplyAll(t, cs), c.key))
  {
    var ds := cs + [c];
    if Applicable(t, ds) {
      assert ds[..|cs|] == cs && ds[|cs|] == c;
      forall i | 0 <= i < |cs| && cs[i].Delete? ensures HasKey(ApplyAll(t, cs[..i]), cs[i].key) {
        assert ds[i] == cs[i] && ds[..i] == cs[..i];
      }
    }
  }

  lemma {:induction false} RemoveKeepsOrder<V>(t: seq<Entry<V>>, k: nat)
    requires Sorted(t)
    ensures Sorted(Remove(t, k)) && (Remove(t, k) != [] ==> t != [] && t[0].key <= Remove(t, k)[0].key)
    ensures forall q :: Lookup(Remove(t, k), q) == if q == k then None else Lookup(t, q)
  {
    if t == [] {
    } else {
      if t[0].key == k {
        NotBefore(t[1..], k);
      } else {
        RemoveKeepsOrder(t[1..], k);
        assert Remove(t, k)[1..] == Remove(t[1..], k);
      }
    }
  }

  method ApplyAdd<V>(t: seq<Entry<V>>, e: Entry<V>) returns (r: seq<Entry<V>>)
    requires Sorted(t)
    ensures r == Put(t, e)
  {
    if |t| == 0 || t[0].key > e.key {
      return [e] + t;
    }
    var j := 0;
    while j < |t|
      invariant 0 <= j <= |t| && forall k :: 0 <= k < j ==> t[k].key < e.key
    {
      assert t == t[..j] + t[j..];
      if t[j].key == e.key {
        PutOver(t[..j], e, t[j..]);
        assert t[j := e] == t[..j] + [e] + t[j..][1..];
        return t[j := e];
      } else if t[j].key > e.key {
        PutBetween(t[..j], e, t[j..]);
        return t[..j] + [e] + t[j..];
      }
      j := j + 1;
    }
    PutBetween(t, e, []);
    assert t + [] == t && t + [e] + [] == t + [e];
    return t + [e];
  }

  method ApplyDelete<V>(t: seq<Entry<V>>, k: nat) returns (r: seq<Entry<V>>, applied: bool)
    ensures r == Remove(t, k) && (applied <==> HasKey(t, k))
  {
    var j := 0;
    while j < |t|
      invariant 0 <= j <= |t| && forall i :: 0 <= i < j ==> t[i].key != k
    {
      if t[j].key == k {
        assert t == t[..j] + t[j..] && t[j..][1..] == t[j + 1..];
        RemoveBetween(t[..j], t[j..]);
        return t[..j] + t[j + 1..], true;
      }
      j := j + 1;
    }
    RemoveAbsent(t, k);
    return t, false;
  }

  lemma {:induction false} RemoveAbsent<V>(t: seq<Entry<V>>, k: nat)
    requires forall i :: 0 <= i < |t| ==> t[i].key != k
    ensures Remove(t, k) == t
  {
    if t == [] {
    } else {
      RemoveAbsent(t[1..], k);
    }
  }

  // The changes add the table's entries, one by one.
  ghost predicate Rewrites<V>(planned: seq<Entry<V>>, cs: seq<Change<V>>) {
    |cs| == |planned| && forall n :: 0 <= n < |cs| ==> cs[n] == Add(planned[n])
  }

  /** The whole planned table as additions. Applied to a cleared table it gives the planned one. */
  method FullUpdate<V>(planned: seq<Entry<V>>) returns (cs: seq<Change<V>>)
    requires Sorted(planned)
    ensures Rewrites(planned, cs) && ApplyAll([], cs) == planned && Applicable([], cs)
  {
    cs := [];
    var i := 0;
    while i < |planned|
      invariant 0 <= i <= |planned| && |cs| == i && forall n :: 0 <= n < i ==> cs[n] == Add(planned[n])
      invariant ApplyAll([], cs) == planned[..i] && Applicable([], cs)
    {
      OneMore([], cs, Add(planned[i]));
      PutBetween(planned[..i], planned[i], []);
      assert planned[..i] + [] == planned[..i] && planned[..i] + [planned[i]] + [] == planned[..i + 1];
      cs := cs + [Add(planned[i])];
      i := i + 1;
    }
    assert planned[..i] == planned;
  }
}
