/** Planning a route over the tables of all devices, as functions: the walk from the root to the device before
    the target, and the links at its end. What is promised of the plan is proved here. */
module Routes {
  import opened Wrappers
  import opened Tables
  import opened MeshState

  // How adding a route ends: done; without a route to follow; outside what the program defines (a device
  // that does not exist, a link index past the table); or still walking when the observation stops.
  datatype RouteOutcome = RouteDone | NoRoute | Undefined | StillWalking

  datatype HopResult = HopTo(next: nat) | HopNone | HopUndefined

  function DeviceIndex(ds: seq<Device>, id: nat): (k: nat)
    ensures k <= |ds| && (k < |ds| ==> ds[k].id == id)
    ensures forall j :: 0 <= j < k ==> ds[j].id != id
  {
    if ds == [] || ds[0].id == id then 0 else 1 + DeviceIndex(ds[1..], id)
  }

  lemma DeviceIndexIs(ds: seq<Device>, id: nat, k: nat)
    requires k <= |ds| && (k < |ds| ==> ds[k].id == id) && forall j :: 0 <= j < k ==> ds[j].id != id
    ensures DeviceIndex(ds, id) == k
  {
  }

  // The hop the program takes from a device with tables t on the way to prev. It is read from the link table
  // at the index of prev's route, not at the index of that route's link.
  ghost function Hopped(t: Routing, prev: nat): HopResult {
    var i := IndexOf(t.routes, prev);
    if i == |t.routes| || !HasKey(t.links, t.routes[i].val) then HopNone
    else if |t.links| <= i then HopUndefined
    else HopTo(t.links[i].val.nextHop)
  }

  // The device learns to reach target the way it reaches prev; the root has that confirmed at once.
  function Routed(d: Device, target: nat, prev: nat): (d': Device)
    ensures d'.id == d.id && d'.planned.links == d.planned.links
  {
    var link := Lookup(d.planned.routes, prev);
    if link.None? then d
    else
      var t := d.planned.(routes := Put(d.planned.routes, Entry(target, link.value)));
      Device(d.id, if d.id == 0 then t else d.confirmed, t)
  }

  datatype Walked = Walked(outcome: RouteOutcome, way: seq<nat>)

  // The walk from device dev to prev, by the places of the devices on the way in the list of devices.
  ghost function Walk(ds: seq<Device>, dev: nat, target: nat, prev: nat, hops: nat): (w: Walked)
    ensures forall i :: 0 <= i < |w.way| ==> w.way[i] < |ds|
    decreases hops
  {
    var k := DeviceIndex(ds, dev);
    if dev == prev then Walked(RouteDone, [])
    else if k == |ds| then Walked(Undefined, [])
    else if hops == 0 then Walked(StillWalking, [])
    else
      match Hopped(ds[k].planned, prev)
      case HopNone => Walked(NoRoute, [])
      case HopUndefined => Walked(Undefined, [])
      case HopTo(n) => Onward([k], Walk(ds[k := Routed(ds[k], target, prev)], n, target, prev, hops - 1))
  }

  function Onward(way: seq<nat>, w: Walked): Walked {
    w.(way := way + w.way)
  }

  // The devices once those on the way have learned the route.
  function WithRoutes(ds: seq<Device>, way: seq<nat>, target: nat, prev: nat): (ds': seq<Device>)
    ensures |ds'| == |ds| && forall k :: 0 <= k < |ds| ==> ds'[k] == if k in way then Routed(ds[k], target, prev) else ds[k]
  {
    seq(|ds|, k requires 0 <= k < |ds| => if k in way then Routed(ds[k], target, prev) else ds[k])
  }

  function IdsOf(ds: seq<Device>, way: seq<nat>): (ids: seq<nat>)
    requires forall i :: 0 <= i < |way| ==> way[i] < |ds|
    ensures |ids| == |way| && forall i :: 0 <= i < |way| ==> ids[i] == ds[way[i]].id
  {
    seq(|way|, i requires 0 <= i < |way| => ds[way[i]].id)
  }

  // The waiting list once the devices of these ids, one after the other, have been put on it for target; the
  // root needs no update.
  function QueuedAll(ps: seq<Initiator>, ids: seq<nat>, target: nat): seq<Initiator> {
    if ids == [] then ps
    else
      var ps1, id := QueuedAll(ps, ids[..|ids| - 1], target), ids[|ids| - 1];
      if id == 0 then ps1 else Queued(ps1, id, [target])
  }

  lemma QueuedOneMore(ps: seq<Initiator>, ids: seq<nat>, id: nat, target: nat)
    ensures QueuedAll(ps, ids + [id], target)
            == if id == 0 then QueuedAll(ps, ids, target) else Queued(QueuedAll(ps, ids, target), id, [target])
  {
    assert (ids + [id])[..|ids|] == ids;
  }

  // The first link that leads to target, the table's length if there is none.
  function LinkIndex(links: seq<Entry<LinkInfo>>, target: nat): (j: nat)
    ensures j <= |links| && (j < |links| ==> links[j].val.nextHop == target)
    ensures forall i :: 0 <= i < j ==> links[i].val.nextHop != target
  {
    if links == [] || links[0].val.nextHop == target then 0 else 1 + LinkIndex(links[1..], target)
  }

  lemma LinkIndexIs(links: seq<Entry<LinkInfo>>, target: nat, j: nat)
    requires j <= |links| && (j < |links| ==> links[j].val.nextHop == target)
    requires forall i :: 0 <= i < j ==> links[i].val.nextHop != target
    ensures LinkIndex(links, target) == j
  {
  }

  // The least id not in use in a sorted table, where 0..i-1 are.
  function LeastFree<V>(t: seq<Entry<V>>, i: nat): (id: nat)
    requires i <= |t|
    decreases |t| - i
  {
    if i < |t| && t[i].key == i then LeastFree(t, i + 1) else i
  }

  lemma {:induction false} LeastFreeIs<V>(t: seq<Entry<V>>, i: nat, id: nat)
    requires Sorted(t) && i <= |t| && forall j :: 0 <= j < i ==> t[j].key == j
    requires !HasKey(t, id) && forall k :: 0 <= k < id ==> HasKey(t, k)
    ensures LeastFree(t, i) == id
    decreases |t| - i
  {
    if i < |t| && t[i].key == i {
      LeastFreeIs(t, i + 1, id);
    } else {
      assert i < |t| && i > 0 ==> t[i - 1].key < t[i].key;
      LeastUnused(t, i);
      LeastUnusedIsUnique(t, i, id);
    }
  }

  // The link table with a link to target on the given bus, and its id: the first link that leads there, or a
  // new one under the least unused id. (A link under the id undefined counts as none.)
  function LinkedTo(links: seq<Entry<LinkInfo>>, target: nat, bus: nat, intraBus: nat, undefined: nat): (seq<Entry<LinkInfo>>, nat) {
    var j := LinkIndex(links, target);
    var r := if j < |links| then links[j := Entry(links[j].key, links[j].val.(bus := bus))] else links;
    if j < |links| && links[j].key != undefined then (r, links[j].key)
    else (Put(r, Entry(LeastFree(r, 0), LinkInfo(target, bus, intraBus))), LeastFree(r, 0))
  }

  // The device before the target, with a link to it and the route over that link.
  function WithLastHop(d: Device, target: nat, bus: nat, intraBus: nat, undefined: nat): Device {
    var (links, id) := LinkedTo(d.planned.links, target, bus, intraBus, undefined);
    var t := Routing(Put(d.planned.routes, Entry(target, id)), links);
    Device(d.id, if d.id == 0 then t else d.confirmed, t)
  }

  // The target, its link 0 leading to the next hop towards the root, and its route to the root over it.
  function WithRouteBack(d: Device, next: nat, bus: nat, intraBus: nat): Device {
    Device(d.id, d.confirmed,
           Routing(Put(d.planned.routes, Entry(0, 0)), Put(d.planned.links, Entry(0, LinkInfo(next, bus, intraBus)))))
  }

  datatype RouteRequest = RouteRequest(target: nat, busOfTarget: nat, prev: nat, busOfPrev: nat, next: nat, intraBus: nat)

  datatype RoutePlan = RoutePlan(outcome: RouteOutcome, devices: seq<Device>, planned: seq<Initiator>, way: seq<nat>)

  // The links at the end of the walk.
  function Connected(ds: seq<Device>, ps: seq<Initiator>, q: RouteRequest, undefined: nat): (r: RoutePlan)
    ensures r.way == [] && (r.outcome.RouteDone? || r.outcome.Undefined?)
  {
    var k := DeviceIndex(ds, q.prev);
    if k == |ds| then RoutePlan(Undefined, ds, ps, [])
    else
      var ds1 := ds[k := WithLastHop(ds[k], q.target, q.busOfPrev, q.intraBus, undefined)];
      var ps1 := QueuedAll(ps, [q.prev], q.target);
      var j := DeviceIndex(ds1, q.target);
      if j == |ds1| then RoutePlan(Undefined, ds1, ps1, [])
      else
        RoutePlan(RouteDone, ds1[j := WithRouteBack(ds1[j], q.next, q.busOfTarget, q.intraBus)],
                  QueuedAll(ps1, [q.target], q.target), [])
  }

  /** Everything planning a route does to the devices and the waiting list. */
  ghost function AddRoute(ds: seq<Device>, ps: seq<Initiator>, q: RouteRequest, undefined: nat, maxHops: nat): RoutePlan {
    var w := Walk(ds, 0, q.target, q.prev, maxHops);
    var ds1 := WithRoutes(ds, w.way, q.target, q.prev);
    var ps1 := QueuedAll(ps, IdsOf(ds, w.way), q.target);
    if w.outcome.RouteDone? then Connected(ds1, ps1, q, undefined).(way := w.way)
    else RoutePlan(w.outcome, ds1, ps1, w.way)
  }

  // ------------------------------------------------------------------------------- learning a route

  lemma LookupAt<V>(t: seq<Entry<V>>, k: nat)
    requires Sorted(t)
    ensures Lookup(t, k) == if IndexOf(t, k) < |t| then Some(t[IndexOf(t, k)].val) else None
  {
    var i := IndexOf(t, k);
    if i < |t| { LookupIs(t, i); } else { LookupNone(t, k); }
  }

  lemma PutSame<V>(t: seq<Entry<V>>, k: nat)
    requires Sorted(t) && Lookup(t, k).Some?
    ensures Put(t, Entry(k, Lookup(t, k).value)) == t
  {
    var i := IndexOf(t, k);
    LookupAt(t, k);
    PutAt(t, i, t[i].val);
    assert t[i := Entry(t[i].key, t[i].val)] == t;
  }

  lemma RoutedLookup(d: Device, target: nat, prev: nat, q: nat)
    requires Sorted(d.planned.routes)
    ensures Sorted(Routed(d, target, prev).planned.routes)
    ensures Lookup(Routed(d, target, prev).planned.routes, q)
            == if q == target && Lookup(d.planned.routes, prev).Some? then Lookup(d.planned.routes, prev) else Lookup(d.planned.routes, q)
  {
    var link := Lookup(d.planned.routes, prev);
    if link.Some? { PutKeepsOrder(d.planned.routes, Entry(target, link.value)); }
  }

  lemma RoutedTwice(d: Device, target: nat, prev: nat)
    requires Sorted(d.planned.routes)
    ensures Routed(Routed(d, target, prev), target, prev) == Routed(d, target, prev)
  {
    hide Put, Sorted;
    RoutedLookup(d, target, prev, prev);
    RoutedLookup(d, target, prev, target);
    if Lookup(d.planned.routes, prev).Some? { PutSame(Routed(d, target, prev).planned.routes, target); }
  }

  lemma WithRoutesMore(ds: seq<Device>, way: seq<nat>, target: nat, prev: nat, k: nat)
    requires k < |ds| && Sorted(ds[k].planned.routes)
    ensures var ds1 := WithRoutes(ds, way, target, prev);
      WithRoutes(ds, way + [k], target, prev) == ds1[k := Routed(ds1[k], target, prev)]
  {
    hide Routed;
    RoutedTwice(ds[k], target, prev);
  }

  // Learning the route changes nothing exactly if the device has it already.
  lemma RoutedIsSame(d: Device, target: nat, prev: nat)
    requires Sorted(d.planned.routes) && Lookup(d.planned.routes, prev).Some? && (d.id == 0 ==> d.confirmed == d.planned)
    ensures Routed(d, target, prev) == d <==> Follows(d, target, prev)
  {
    hide Put, Sorted;
    RoutedLookup(d, target, prev, target);
    if Follows(d, target, prev) { PutSame(d.planned.routes, target); }
  }

  // -------------------------------------------------------------------------------------- the walk

  // Where the walk goes on from place i: to the next device on the way, from the last one to the device last.
  function NextOnWay(ds: seq<Device>, way: seq<nat>, i: nat, last: nat): nat {
    if i + 1 < |way| && way[i + 1] < |ds| then ds[way[i + 1]].id else last
  }

  // Each device on the way has a route to prev and is not prev, and when first met it sends the walk on by the
  // hop read from its tables.
  ghost predicate WayRead(ds: seq<Device>, way: seq<nat>, prev: nat, last: nat) {
    forall i :: 0 <= i < |way| ==>
      && way[i] < |ds| && ds[way[i]].id != prev && Lookup(ds[way[i]].planned.routes, prev).Some?
      && (way[i] !in way[..i] ==> Hopped(ds[way[i]].planned, prev) == HopTo(NextOnWay(ds, way, i, last)))
  }

  // The device the walk ends at.
  ghost function LastOf(ds: seq<Device>, dev: nat, target: nat, prev: nat, hops: nat): nat
    decreases hops
  {
    var k := DeviceIndex(ds, dev);
    if dev == prev || k == |ds| || hops == 0 then dev
    else
      match Hopped(ds[k].planned, prev)
      case HopTo(n) => LastOf(ds[k := Routed(ds[k], target, prev)], n, target, prev, hops - 1)
      case _ => dev
  }

  lemma HoppedHasRoute(t: Routing, prev: nat)
    requires Sorted(t.routes) && Hopped(t, prev).HopTo?
    ensures Lookup(t.routes, prev).Some?
  {
    LookupAt(t.routes, prev);
  }

  lemma {:induction false} WalkReads(ds: seq<Device>, dev: nat, target: nat, prev: nat, hops: nat)
    requires forall k :: 0 <= k < |ds| ==> Sorted(ds[k].planned.routes)
    ensures var way := Walk(ds, dev, target, prev, hops).way;
      WayRead(ds, way, prev, LastOf(ds, dev, target, prev, hops)) && (way != [] ==> ds[way[0]].id == dev)
    ensures Walk(ds, dev, target, prev, hops).way == [] ==> LastOf(ds, dev, target, prev, hops) == dev
    ensures Walk(ds, dev, target, prev, hops).outcome.RouteDone? ==> LastOf(ds, dev, target, prev, hops) == prev
    decreases hops
  {
    hide Hopped, Routed, Sorted;
    var k := DeviceIndex(ds, dev);
    if dev == prev || k == |ds| || hops == 0 || !Hopped(ds[k].planned, prev).HopTo? {
    } else {
      var n, ds1 := Hopped(ds[k].planned, prev).next, ds[k := Routed(ds[k], target, prev)];
      RoutedLookup(ds[k], target, prev, prev);
      HoppedHasRoute(ds[k].planned, prev);
      WalkReads(ds1, n, target, prev, hops - 1);
      WayOneMore(ds, ds1, Walk(ds1, n, target, prev, hops - 1).way, k, n, prev, LastOf(ds1, n, target, prev, hops - 1));
    }
  }

  lemma WayOneMore(ds: seq<Device>, ds1: seq<Device>, way: seq<nat>, k: nat, n: nat, prev: nat, last: nat)
    requires k < |ds| == |ds1| && ds1 == ds[k := ds1[k]] && ds1[k].id == ds[k].id != prev
    requires Lookup(ds[k].planned.routes, prev).Some? && Hopped(ds[k].planned, prev) == HopTo(n)
    requires WayRead(ds1, way, prev, last) && if way == [] then last == n else ds1[way[0]].id == n
    ensures WayRead(ds, [k] + way, prev, last)
  {
    hide Hopped, Lookup, NextOnWay;
    var all := [k] + way;
    NextShifted(ds, ds1, way, k, last);
    forall i | 0 <= i < |all|
      ensures all[i] < |ds| && ds[all[i]].id != prev && Lookup(ds[all[i]].planned.routes, prev).Some?
      ensures all[i] !in all[..i] ==> Hopped(ds[all[i]].planned, prev) == HopTo(NextOnWay(ds, all, i, last))
    {
      if i > 0 {
        assert all[i] == way[i - 1] && all[..i] == [k] + way[..i - 1];
      }
    }
  }

  lemma NextShifted(ds: seq<Device>, ds1: seq<Device>, way: seq<nat>, k: nat, last: nat)
    requires |ds| == |ds1| && forall j :: 0 <= j < |ds| ==> ds1[j].id == ds[j].id
    requires forall i :: 0 <= i < |way| ==> way[i] < |ds|
    ensures NextOnWay(ds, [k] + way, 0, last) == if way == [] then last else ds[way[0]].id
    ensures forall i :: 0 < i < |way| + 1 ==> NextOnWay(ds, [k] + way, i, last) == NextOnWay(ds1, way, i - 1, last)
  {
  }

  /** Whatever becomes of the walk: it leaves all tables as they were exactly if every device on it already
      had the route it was to learn. */
  lemma UnchangedWhen(ds: seq<Device>, target: nat, prev: nat, hops: nat)
    requires DevicesOk(ds)
    ensures var way := Walk(ds, 0, target, prev, hops).way;
      WithRoutes(ds, way, target, prev) == ds <==> forall i :: 0 <= i < |way| ==> Follows(ds[way[i]], target, prev)
  {
    hide Walk, Follows, Routed, RoutingOk, Sorted;
    var way := Walk(ds, 0, target, prev, hops).way;
    SortedDevices(ds);
    WalkReads(ds, 0, target, prev, hops);
    forall i | 0 <= i < |way| ensures Routed(ds[way[i]], target, prev) == ds[way[i]] <==> Follows(ds[way[i]], target, prev) {
      RoutedIsSame(ds[way[i]], target, prev);
    }
    if WithRoutes(ds, way, target, prev) == ds {
      forall i | 0 <= i < |way| ensures Follows(ds[way[i]], target, prev) {
        assert WithRoutes(ds, way, target, prev)[way[i]] == ds[way[i]];
      }
    }
  }

  lemma SortedDevices(ds: seq<Device>)
    requires DevicesOk(ds)
    ensures forall k :: 0 <= k < |ds| ==> Sorted(ds[k].planned.routes) && Sorted(ds[k].planned.links)
    ensures forall k :: 0 <= k < |ds| && ds[k].id == 0 ==> ds[k].confirmed == ds[k].planned
    ensures forall i, j :: 0 <= i < j < |ds| ==> ds[i].id != ds[j].id
  {
  }

  // ----------------------------------------------------------------------------- does the walk end?

  // Every hop read on the way to prev goes down in rank: there is no circle to go round.
  ghost predicate Descends(ds: seq<Device>, prev: nat, rank: nat -> nat) {
    forall k :: 0 <= k < |ds| && Hopped(ds[k].planned, prev).HopTo? ==> rank(Hopped(ds[k].planned, prev).next) < rank(ds[k].id)
  }

  // No place on the way has been seen, and none comes twice.
  ghost predicate AllNew(way: seq<nat>, seen: set<nat>) {
    (forall i :: 0 <= i < |way| ==> way[i] !in seen) && forall i, j :: 0 <= i < j < |way| ==> way[i] != way[j]
  }

  lemma NewOneFirst(way: seq<nat>, seen: set<nat>, k: nat)
    requires AllNew(way, seen + {k}) && k !in seen
    ensures AllNew([k] + way, seen)
  {
    var all := [k] + way;
    forall i | 0 <= i < |all| ensures all[i] !in seen && (i > 0 ==> all[i] != k) {
      if i > 0 { assert all[i] == way[i - 1] && way[i - 1] !in seen + {k}; }
    }
    forall i, j | 0 <= i < j < |all| ensures all[i] != all[j] {
      if i > 0 { assert all[i] == way[i - 1] && all[j] == way[j - 1]; }
    }
  }

  // Devices seen rank above dev; the others have the tables they had.
  ghost predicate SeenAbove(ds0: seq<Device>, ds: seq<Device>, dev: nat, rank: nat -> nat, seen: set<nat>) {
    && |ds| == |ds0|
    && (forall k :: 0 <= k < |ds| ==> ds[k].id == ds0[k].id && (k !in seen ==> ds[k] == ds0[k]))
    && (forall k :: k in seen ==> k < |ds| && rank(dev) < rank(ds0[k].id))
  }

  lemma SeenOneMore(ds0: seq<Device>, ds: seq<Device>, dev: nat, rank: nat -> nat, seen: set<nat>, k: nat, n: nat, d: Device)
    requires SeenAbove(ds0, ds, dev, rank, seen) && k < |ds| && ds[k].id == dev && rank(n) < rank(dev) && d.id == dev
    ensures k !in seen && SeenAbove(ds0, ds[k := d], n, rank, seen + {k}) && |seen| < |ds|
  {
    Fewer(seen + {k}, Below(|ds|));
  }

  lemma WalkStep(ds: seq<Device>, dev: nat, target: nat, prev: nat, hops: nat)
    requires dev != prev && DeviceIndex(ds, dev) < |ds| && 0 < hops && Hopped(ds[DeviceIndex(ds, dev)].planned, prev).HopTo?
    ensures var k := DeviceIndex(ds, dev);
      Walk(ds, dev, target, prev, hops)
      == Onward([k], Walk(ds[k := Routed(ds[k], target, prev)], Hopped(ds[k].planned, prev).next, target, prev, hops - 1))
  {
  }

  lemma {:induction false} WalkEndsFrom(ds0: seq<Device>, ds: seq<Device>, dev: nat, target: nat, prev: nat, hops: nat,
                                        rank: nat -> nat, seen: set<nat>)
    requires Descends(ds0, prev, rank) && SeenAbove(ds0, ds, dev, rank, seen) && |ds| <= hops + |seen|
    ensures var w := Walk(ds, dev, target, prev, hops); !w.outcome.StillWalking? && AllNew(w.way, seen)
    decreases hops
  {
    hide Hopped, Routed, SeenAbove, AllNew;
    var k := DeviceIndex(ds, dev);
    if dev == prev || k == |ds| {
      NothingSeen(seen);
    } else {
      OneIsLeft(ds0, ds, dev, rank, seen, k);
      if !Hopped(ds[k].planned, prev).HopTo? {
        NothingSeen(seen);
      } else {
        var n, d := Hopped(ds[k].planned, prev).next, Routed(ds[k], target, prev);
        HopsDown(ds0, ds, dev, prev, rank, seen, k);
        SeenOneMore(ds0, ds, dev, rank, seen, k, n, d);
        WalkEndsFrom(ds0, ds[k := d], n, target, prev, hops - 1, rank, seen + {k});
        WalkStep(ds, dev, target, prev, hops);
        NewOneFirst(Walk(ds[k := d], n, target, prev, hops - 1).way, seen, k);
      }
    }
  }

  lemma NothingSeen(seen: set<nat>)
    ensures AllNew([], seen)
  {
  }

  // A device that does not rank above itself has not been seen.
  lemma OneIsLeft(ds0: seq<Device>, ds: seq<Device>, dev: nat, rank: nat -> nat, seen: set<nat>, k: nat)
    requires SeenAbove(ds0, ds, dev, rank, seen) && k < |ds| && ds[k].id == dev
    ensures |seen| < |ds| && ds[k] == ds0[k]
  {
    assert k !in seen;
    Fewer(seen + {k}, Below(|ds|));
  }

  lemma HopsDown(ds0: seq<Device>, ds: seq<Device>, dev: nat, prev: nat, rank: nat -> nat, seen: set<nat>, k: nat)
    requires Descends(ds0, prev, rank) && SeenAbove(ds0, ds, dev, rank, seen) && k < |ds| && ds[k].id == dev
    requires Hopped(ds[k].planned, prev).HopTo?
    ensures rank(Hopped(ds[k].planned, prev).next) < rank(dev)
  {
    OneIsLeft(ds0, ds, dev, rank, seen, k);
  }

  function Below(n: nat): (r: set<nat>)
    ensures |r| == n && forall i: nat :: i in r <==> i < n
  {
    if n == 0 then {}
    else
      var r := Below(n - 1);
      assert (n - 1) as nat !in r;
      r + {n - 1}
  }

  lemma {:induction false} Fewer(a: set<nat>, b: set<nat>)
    requires forall x :: x in a ==> x in b
    ensures |a| <= |b|
  {
    if a == {} {
    } else {
      var x :| x in a;
      Fewer(a - {x}, b - {x});
    }
  }

  /** If the hops towards prev do not lead in a circle, as many hops as there are devices are enough for the
      walk to end, and it meets no device twice. */
  lemma WalkEnds(ds: seq<Device>, target: nat, prev: nat, hops: nat, rank: nat -> nat)
    requires Descends(ds, prev, rank) && |ds| <= hops
    ensures var w := Walk(ds, 0, target, prev, hops);
      !w.outcome.StillWalking? && AllNew(w.way, {})
  {
    WalkEndsFrom(ds, ds, 0, target, prev, hops, rank, {});
  }

  // ------------------------------------------------------------------------ the links at the end

  lemma SortedLink(links: seq<Entry<LinkInfo>>, r: seq<Entry<LinkInfo>>, id: nat, target: nat, bus: nat)
    requires LinkWritten(links, r, id, target, bus)
    ensures Sorted(r) && HasKey(r, id) && LeadsTo(Lookup(r, id), target, bus)
  {
  }

  // The link id has been rewritten to info, which leads to the same next hop.
  lemma LinkMoved(links: seq<Entry<LinkInfo>>, r: seq<Entry<LinkInfo>>, id: nat, info: LinkInfo)
    requires Sorted(links) && r == Put(links, Entry(id, info))
    requires Lookup(links, id).Some? && Lookup(links, id).value.nextHop == info.nextHop
    requires info == Lookup(links, id).value.(bus := info.bus)
    ensures LinkKept(Lookup(links, id), Lookup(r, id), info.nextHop, info.bus) && HasKey(links, id)
    ensures forall q :: HasKey(r, q) <==> HasKey(links, q)
  {
    PutKeepsOrder(links, Entry(id, info));
    LookupNone(links, id);
    forall q ensures HasKey(r, q) <==> HasKey(links, q) {
      PutHasKey(links, Entry(id, info), q);
    }
  }

  // Link j, which leads to the target, moved to the bus.
  lemma MovedToBus(links: seq<Entry<LinkInfo>>, j: nat, bus: nat)
    requires Sorted(links) && j < |links|
    ensures var id, target, r := links[j].key, links[j].val.nextHop, links[j := Entry(links[j].key, links[j].val.(bus := bus))];
      && LinkWritten(links, r, id, target, bus) && HasKey(links, id)
      && LinkKept(Lookup(links, id), Lookup(r, id), target, bus) && forall q :: HasKey(r, q) <==> HasKey(links, q)
  {
    hide Put, Lookup, HasKey, LinkWritten, LinkKept;
    var info := links[j].val.(bus := bus);
    PutAt(links, j, info);
    PutLinkFacts(links, links[j].key, info);
    LookupIs(links, j);
    LinkMoved(links, links[j := Entry(links[j].key, info)], links[j].key, info);
  }

  lemma LeastFreeIsUnused<V>(t: seq<Entry<V>>)
    requires Sorted(t)
    ensures !HasKey(t, LeastFree(t, 0)) && forall k :: 0 <= k < LeastFree(t, 0) ==> HasKey(t, k)
  {
    LeastFreeFrom(t, 0);
  }

  lemma {:induction false} LeastFreeFrom<V>(t: seq<Entry<V>>, i: nat)
    requires Sorted(t) && i <= |t| && forall j :: 0 <= j < i ==> t[j].key == j
    ensures !HasKey(t, LeastFree(t, i)) && forall k :: 0 <= k < LeastFree(t, i) ==> HasKey(t, k)
    decreases |t| - i
  {
    if i < |t| && t[i].key == i {
      LeastFreeFrom(t, i + 1);
    } else {
      assert i < |t| && i > 0 ==> t[i - 1].key < t[i].key;
      LeastUnused(t, i);
    }
  }

  /** A link to the target on the given bus: one that was there and has moved to the bus, or a new one under
      the least unused id, made only if none was there (or the first one is under the id undefined). No other
      link changes. */
  lemma LinkedToIs(links: seq<Entry<LinkInfo>>, target: nat, bus: nat, intraBus: nat, undefined: nat)
    requires Sorted(links)
    ensures var (r, id) := LinkedTo(links, target, bus, intraBus, undefined);
      && LinkWritten(links, r, id, target, bus)
      && (HasKey(links, id) ==> LinkKept(Lookup(links, id), Lookup(r, id), target, bus))
      && (HasKey(links, id) ==> LinkIndex(links, target) < |links| && id == links[LinkIndex(links, target)].key)
      && (!HasKey(links, id) ==> Lookup(r, id) == Some(LinkInfo(target, bus, intraBus)) && forall k :: 0 <= k < id ==> HasKey(r, k))
      && (!HasKey(links, id) ==> LinkIndex(links, target) == |links| || links[LinkIndex(links, target)].key == undefined)
  {
    hide Put, Lookup, HasKey, LinkWritten, LinkKept;
    var j := LinkIndex(links, target);
    if j < |links| { MovedToBus(links, j, bus); }
    var r0 := if j < |links| then links[j := Entry(links[j].key, links[j].val.(bus := bus))] else links;
    if j < |links| && links[j].key != undefined {
    } else {
      if j < |links| { SortedLink(links, r0, links[j].key, target, bus); }
      var id, info := LeastFree(r0, 0), LinkInfo(target, bus, intraBus);
      LeastFreeIsUnused(r0);
      PutLinkFacts(r0, id, info);
      PutKeepsOrder(r0, Entry(id, info));
      SortedLink(r0, Put(r0, Entry(id, info)), id, target, bus);
      KeysGrow(r0, Put(r0, Entry(id, info)), id, target, bus);
      if j < |links| { LinkWrittenTwice(links, r0, Put(r0, Entry(id, info)), links[j].key, id, target, bus); }
    }
  }

  lemma KeysGrow(links: seq<Entry<LinkInfo>>, r: seq<Entry<LinkInfo>>, id: nat, target: nat, bus: nat)
    requires LinkWritten(links, r, id, target, bus)
    ensures forall q :: HasKey(links, q) ==> HasKey(r, q)
  {
  }

  // ------------------------------------------------------------------------------ is it delivered?

  // By its planned tables the device passes a packet for q on to the device next.
  predicate Forwards(d: Device, q: nat, next: nat) {
    OwnHop(d.planned, q) == Some(next)
  }

  // Where a device with these tables passes a packet for q on to, if anywhere.
  function OwnHop(t: Routing, q: nat): Option<nat> {
    var route := Lookup(t.routes, q);
    if route.None? then None
    else
      var link := Lookup(t.links, route.value);
      if link.None? then None else Some(link.value.nextHop)
  }

  // A packet for the target is passed on along the path, from each device to the next.
  ghost predicate Carried(ds: seq<Device>, path: seq<nat>, target: nat) {
    forall i :: 0 <= i < |path| - 1 ==> CarriedOn(ds, path, i, target)
  }

  ghost predicate CarriedOn(ds: seq<Device>, path: seq<nat>, i: nat, target: nat)
    requires i + 1 < |path|
  {
    exists k :: PassesOn(ds, k, path[i], target, Following(path, i))
  }

  function Following(path: seq<nat>, i: nat): nat
    requires i + 1 < |path|
  {
    path[i + 1]
  }

  // It is device k that has this id and passes the packet on to next.
  predicate PassesOn(ds: seq<Device>, k: nat, id: nat, target: nat, next: nat) {
    k < |ds| && ds[k].id == id && Forwards(ds[k], target, next)
  }

  lemma RoutedForwards(d: Device, target: nat, prev: nat, next: nat)
    requires Sorted(d.planned.routes) && Lookup(d.planned.routes, prev).Some?
    ensures Forwards(Routed(d, target, prev), target, next) <==> Forwards(d, prev, next)
  {
    RoutedLookup(d, target, prev, target);
  }

  lemma LastHopForwards(d: Device, target: nat, bus: nat, intraBus: nat, undefined: nat)
    requires Sorted(d.planned.routes) && Sorted(d.planned.links)
    ensures Forwards(WithLastHop(d, target, bus, intraBus, undefined), target, target)
  {
    hide Put, LinkedTo;
    LinkedToIs(d.planned.links, target, bus, intraBus, undefined);
    PutKeepsOrder(d.planned.routes, Entry(target, LinkedTo(d.planned.links, target, bus, intraBus, undefined).1));
  }

  // What the links at the end change: the device before the target, and the target.
  lemma ConnectedIs(ds: seq<Device>, ps: seq<Initiator>, q: RouteRequest, undefined: nat)
    requires Connected(ds, ps, q, undefined).outcome.RouteDone? && q.prev != q.target
    ensures var ds' := Connected(ds, ps, q, undefined).devices;
      && |ds'| == |ds| && (forall i :: 0 <= i < |ds| ==> ds'[i].id == ds[i].id)
      && (forall i :: 0 <= i < |ds| && ds[i].id != q.prev && ds[i].id != q.target ==> ds'[i] == ds[i])
      && (var k := DeviceIndex(ds, q.prev);
          k < |ds| && ds'[k] == WithLastHop(ds[k], q.target, q.busOfPrev, q.intraBus, undefined))
  {
    hide QueuedAll, LinkedTo;
  }

  /** A packet for the target is carried from the root along the way of the walk to the device before the
      target, and on to the target, exactly if on every step of the way the hop read was the one by which the
      device itself sends packets for the device before the target. */
  lemma DeliveredWhen(ds: seq<Device>, ps: seq<Initiator>, q: RouteRequest, undefined: nat, maxHops: nat)
    requires DevicesOk(ds) && q.prev != q.target
    requires AddRoute(ds, ps, q, undefined, maxHops).outcome.RouteDone?
    requires q.target !in IdsOf(ds, Walk(ds, 0, q.target, q.prev, maxHops).way)
    ensures var r := AddRoute(ds, ps, q, undefined, maxHops);
      r.way == Walk(ds, 0, q.target, q.prev, maxHops).way
      && (Carried(r.devices, IdsOf(ds, r.way) + [q.prev, q.target], q.target)
          <==> forall i :: 0 <= i < |r.way| ==> Forwards(ds[r.way[i]], q.prev, NextOnWay(ds, r.way, i, q.prev)))
  {
    hide Walk, Connected, WithRoutes, Routed, Forwards, Hopped, Sorted, DevicesOk, QueuedAll, WithLastHop, Carried;
    var way := Walk(ds, 0, q.target, q.prev, maxHops).way;
    var ds2 := AddRoute(ds, ps, q, undefined, maxHops).devices;
    SortedDevices(ds);
    var k := AfterTheWalk(ds, ps, q, undefined, maxHops);
    var path := IdsOf(ds, way) + [q.prev, q.target];
    CarriedWhen(ds2, path, way + [k], q.target);
    forall i | 0 <= i < |way|
      ensures Forwards(ds2[way[i]], q.target, Following(path, i)) <==> Forwards(ds[way[i]], q.prev, NextOnWay(ds, way, i, q.prev))
    {
      RoutedForwards(ds[way[i]], q.target, q.prev, Following(path, i));
    }
    assert forall i :: 0 <= i < |way| ==> (way + [k])[i] == way[i];
    assert (way + [k])[|way|] == k && Following(path, |way|) == q.target;
  }

  // The plan's devices: those on the way have learned the route, the one at its end, k, has the link.
  lemma AfterTheWalk(ds: seq<Device>, ps: seq<Initiator>, q: RouteRequest, undefined: nat, maxHops: nat) returns (k: nat)
    requires DevicesOk(ds) && q.prev != q.target
    requires AddRoute(ds, ps, q, undefined, maxHops).outcome.RouteDone?
    requires q.target !in IdsOf(ds, Walk(ds, 0, q.target, q.prev, maxHops).way)
    ensures var way, ds2 := Walk(ds, 0, q.target, q.prev, maxHops).way, AddRoute(ds, ps, q, undefined, maxHops).devices;
      && |ds2| == |ds| && (forall i :: 0 <= i < |ds| ==> ds2[i].id == ds[i].id)
      && (forall i :: 0 <= i < |way| ==> ds2[way[i]] == Routed(ds[way[i]], q.target, q.prev))
      && (forall i :: 0 <= i < |way| ==> Lookup(ds[way[i]].planned.routes, q.prev).Some?)
      && k < |ds| && ds[k].id == q.prev && Forwards(ds2[k], q.target, q.target)
  {
    hide Walk, Connected, Routed, Forwards, Hopped, Sorted, RoutingOk, QueuedAll, WithLastHop, Lookup;
    var way := Walk(ds, 0, q.target, q.prev, maxHops).way;
    var ds1, ps1 := WithRoutes(ds, way, q.target, q.prev), QueuedAll(ps, IdsOf(ds, way), q.target);
    SortedDevices(ds);
    WalkReads(ds, 0, q.target, q.prev, maxHops);
    RouteDoneWalk(ds, ps, q, undefined, maxHops);
    ConnectedIs(ds1, ps1, q, undefined);
    k := DeviceIndex(ds1, q.prev);
    RoutedLookup(ds[k], q.target, q.prev, q.target);
    LastHopForwards(ds1[k], q.target, q.busOfPrev, q.intraBus, undefined);
    forall i | 0 <= i < |way| ensures ds1[way[i]].id != q.prev && ds1[way[i]].id != q.target {
      assert IdsOf(ds, way)[i] != q.target;
    }
  }

  // Along devices with the path's ids, it is enough to look at each of them.
  lemma CarriedWhen(ds: seq<Device>, path: seq<nat>, places: seq<nat>, target: nat)
    requires |path| == |places| + 1 && forall i, j :: 0 <= i < j < |ds| ==> ds[i].id != ds[j].id
    requires forall i :: 0 <= i < |places| ==> places[i] < |ds| && ds[places[i]].id == path[i]
    ensures Carried(ds, path, target) <==> forall i :: 0 <= i < |places| ==> Forwards(ds[places[i]], target, Following(path, i))
  {
    hide Forwards, Following, CarriedOn;
    forall i | 0 <= i < |path| - 1 ensures CarriedOn(ds, path, i, target) <==> Forwards(ds[places[i]], target, Following(path, i)) {
      CarriedOnWhen(ds, path, i, places[i], target);
    }
    if forall i :: 0 <= i < |places| ==> Forwards(ds[places[i]], target, Following(path, i)) {
      forall i | 0 <= i < |path| - 1 ensures CarriedOn(ds, path, i, target) {
        assert Forwards(ds[places[i]], target, Following(path, i));
      }
    }
  }

  lemma CarriedOnWhen(ds: seq<Device>, path: seq<nat>, i: nat, place: nat, target: nat)
    requires i + 1 < |path| && place < |ds| && ds[place].id == path[i]
    requires forall j, k :: 0 <= j < k < |ds| ==> ds[j].id != ds[k].id
    ensures CarriedOn(ds, path, i, target) <==> Forwards(ds[place], target, Following(path, i))
  {
    hide Forwards, Following;
    if Forwards(ds[place], target, Following(path, i)) { assert PassesOn(ds, place, path[i], target, Following(path, i)); }
    if CarriedOn(ds, path, i, target) {
      var k :| PassesOn(ds, k, path[i], target, Following(path, i));
      assert k == place;
    }
  }

  // The link at the index of prev's route leads where that route's own link leads.
  ghost predicate Agrees(t: Routing, prev: nat) {
    var i := IndexOf(t.routes, prev);
    i < |t.routes| && i < |t.links|
    && (var j := IndexOf(t.links, t.routes[i].val); j < |t.links| && t.links[i].val.nextHop == t.links[j].val.nextHop)
  }

  lemma AgreesForwards(d: Device, prev: nat)
    requires Sorted(d.planned.routes) && Sorted(d.planned.links) && Hopped(d.planned, prev).HopTo?
    ensures Forwards(d, prev, Hopped(d.planned, prev).next) <==> Agrees(d.planned, prev)
  {
    hide Sorted;
    LookupAt(d.planned.routes, prev);
    LookupAt(d.planned.links, d.planned.routes[IndexOf(d.planned.routes, prev)].val);
  }

  /** When the walk meets no device twice, as it does not if the hops towards prev lead in no circle: delivery
      hinges on the tables alone, on the link at each route's index leading where the route's link leads. */
  lemma DeliveredWhenAgreed(ds: seq<Device>, ps: seq<Initiator>, q: RouteRequest, undefined: nat, maxHops: nat)
    requires DevicesOk(ds) && q.prev != q.target
    requires AddRoute(ds, ps, q, undefined, maxHops).outcome.RouteDone?
    requires q.target !in IdsOf(ds, Walk(ds, 0, q.target, q.prev, maxHops).way)
    requires AllNew(Walk(ds, 0, q.target, q.prev, maxHops).way, {})
    ensures var r := AddRoute(ds, ps, q, undefined, maxHops);
      r.way == Walk(ds, 0, q.target, q.prev, maxHops).way
      && (Carried(r.devices, IdsOf(ds, r.way) + [q.prev, q.target], q.target)
          <==> forall i :: 0 <= i < |r.way| ==> Agrees(ds[r.way[i]].planned, q.prev))
  {
    hide AddRoute, Carried, Walk, Forwards, Hopped, Agrees, Sorted, RoutingOk;
    DeliveredWhen(ds, ps, q, undefined, maxHops);
    var way := Walk(ds, 0, q.target, q.prev, maxHops).way;
    SortedDevices(ds);
    WalkReads(ds, 0, q.target, q.prev, maxHops);
    RouteDoneWalk(ds, ps, q, undefined, maxHops);
    forall i | 0 <= i < |way|
      ensures Forwards(ds[way[i]], q.prev, NextOnWay(ds, way, i, q.prev)) <==> Agrees(ds[way[i]].planned, q.prev)
    {
      assert way[i] !in way[..i];
      AgreesForwards(ds[way[i]], q.prev);
    }
  }

  lemma RouteDoneWalk(ds: seq<Device>, ps: seq<Initiator>, q: RouteRequest, undefined: nat, maxHops: nat)
    requires AddRoute(ds, ps, q, undefined, maxHops).outcome.RouteDone?
    ensures Walk(ds, 0, q.target, q.prev, maxHops).outcome.RouteDone?
  {
  }

  // ------------------------------------------------------------------------ what a plan leaves alone

  // The device has a route to target, over a link that leads to next on the given bus.
  ghost predicate Reaches(d: Device, target: nat, next: nat, bus: nat) {
    var l := Lookup(d.planned.routes, target);
    l.Some? && LeadsTo(Lookup(d.planned.links, l.value), next, bus)
  }

  // One link of the device, to next, has been (re)written, and no other; what it has confirmed is as it was,
  // unless it is the root.
  ghost predicate Relinked(d: Device, d': Device, next: nat, bus: nat) {
    && (d.id != 0 ==> d'.confirmed == d.confirmed)
    && exists id :: LinkWritten(d.planned.links, d'.planned.links, id, next, bus)
  }

  // Neither links nor, unless it is the root, confirmed tables have changed.
  predicate Rerouted(d: Device, d': Device) {
    d'.planned.links == d.planned.links && (d.id != 0 ==> d'.confirmed == d.confirmed)
  }

  lemma RoutedKeeps(d: Device, target: nat, prev: nat)
    requires Sorted(d.planned.routes)
    ensures DeviceRoutesKept(d, Routed(d, target, prev), target) && Rerouted(d, Routed(d, target, prev))
    ensures Lookup(d.planned.routes, prev).Some? ==> Follows(Routed(d, target, prev), target, prev)
  {
    hide Sorted, Put;
    RoutedLookup(d, target, prev, target);
    RoutedLookup(d, target, prev, prev);
    forall q ensures q != target ==> Lookup(Routed(d, target, prev).planned.routes, q) == Lookup(d.planned.routes, q) {
      RoutedLookup(d, target, prev, q);
    }
  }

  lemma LastHopKeeps(d: Device, target: nat, bus: nat, intraBus: nat, undefined: nat)
    requires Sorted(d.planned.routes) && Sorted(d.planned.links)
    ensures var d' := WithLastHop(d, target, bus, intraBus, undefined);
      && DeviceRoutesKept(d, d', target) && Reaches(d', target, target, bus) && Relinked(d, d', target, bus)
      && Sorted(d'.planned.routes) && Sorted(d'.planned.links)
  {
    hide Put, LinkedTo;
    LinkedToIs(d.planned.links, target, bus, intraBus, undefined);
    PutKeepsOrder(d.planned.routes, Entry(target, LinkedTo(d.planned.links, target, bus, intraBus, undefined).1));
  }

  lemma RouteBackKeeps(d: Device, next: nat, bus: nat, intraBus: nat)
    requires Sorted(d.planned.routes) && Sorted(d.planned.links)
    ensures var d' := WithRouteBack(d, next, bus, intraBus);
      && DeviceRoutesKept(d, d', d.id) && Reaches(d', 0, next, bus) && Relinked(d, d', next, bus)
      && (forall q :: q != 0 ==> Lookup(d'.planned.routes, q) == Lookup(d.planned.routes, q))
  {
    hide Put;
    PutKeepsOrder(d.planned.routes, Entry(0, 0));
    PutLinkFacts(d.planned.links, 0, LinkInfo(next, bus, intraBus));
  }

  lemma StillFollows(d: Device, d': Device, target: nat, prev: nat)
    requires Follows(d, target, prev) && target != 0 && prev != 0
    requires forall q :: q != 0 ==> Lookup(d'.planned.routes, q) == Lookup(d.planned.routes, q)
    ensures Follows(d', target, prev)
  {
  }

  lemma RelinkedAfter(d: Device, d1: Device, d2: Device, next: nat, bus: nat)
    requires d1.id == d.id && Rerouted(d, d1) && Relinked(d1, d2, next, bus)
    ensures Relinked(d, d2, next, bus)
  {
  }

  lemma WithRoutesKeeps(ds: seq<Device>, way: seq<nat>, target: nat, prev: nat)
    requires forall k :: 0 <= k < |ds| ==> Sorted(ds[k].planned.routes)
    ensures var ds1 := WithRoutes(ds, way, target, prev);
      RoutesKept(ds, ds1, target) && forall k :: 0 <= k < |ds| ==> Rerouted(ds[k], ds1[k]) && ds1[k].id == ds[k].id && Sorted(ds1[k].planned.routes)
  {
    hide Routed, Sorted;
    var ds1 := WithRoutes(ds, way, target, prev);
    forall k | 0 <= k < |ds|
      ensures DeviceRoutesKept(ds[k], ds1[k], target) && Rerouted(ds[k], ds1[k]) && ds1[k].id == ds[k].id && Sorted(ds1[k].planned.routes)
    {
      RoutedKeeps(ds[k], target, prev);
      RoutedLookup(ds[k], target, prev, target);
    }
  }

  // The links at the end: nothing but the two devices they join is touched, and those are joined.
  lemma ConnectedKeeps(ds: seq<Device>, ps: seq<Initiator>, q: RouteRequest, undefined: nat)
    requires forall k :: 0 <= k < |ds| ==> Sorted(ds[k].planned.routes) && Sorted(ds[k].planned.links)
    requires forall i, j :: 0 <= i < j < |ds| ==> ds[i].id != ds[j].id
    ensures var r := Connected(ds, ps, q, undefined);
      && |r.devices| == |ds| && RoutesKept(ds, r.devices, q.target)
      && (forall k :: 0 <= k < |ds| ==> r.devices[k].id == ds[k].id)
      && (forall k :: 0 <= k < |ds| && ds[k].id != q.prev && ds[k].id != q.target ==> r.devices[k] == ds[k])
    ensures var r := Connected(ds, ps, q, undefined);
      r.outcome.RouteDone? ==>
        && (exists k :: 0 <= k < |ds| && ds[k].id == q.target && Reaches(r.devices[k], 0, q.next, q.busOfTarget))
        && (q.prev != q.target ==>
              (exists k :: 0 <= k < |ds| && ds[k].id == q.prev && Reaches(r.devices[k], q.target, q.target, q.busOfPrev))
              && forall k :: 0 <= k < |ds| ==>
                   (ds[k].id == q.prev ==> Relinked(ds[k], r.devices[k], q.target, q.busOfPrev))
                   && (ds[k].id == q.target ==> Relinked(ds[k], r.devices[k], q.next, q.busOfTarget)))
    ensures var r := Connected(ds, ps, q, undefined);
      forall k :: 0 <= k < |ds| && ds[k].id == q.target != q.prev ==>
        forall x :: x != 0 ==> Lookup(r.devices[k].planned.routes, x) == Lookup(ds[k].planned.routes, x)
  {
    hide QueuedAll, WithLastHop, WithRouteBack, Reaches, Relinked, DeviceRoutesKept, Sorted, Lookup;
    var k := DeviceIndex(ds, q.prev);
    NothingPlanned(ds, q.target);
    if k < |ds| {
      LastHopKeeps(ds[k], q.target, q.busOfPrev, q.intraBus, undefined);
      var ds1 := ds[k := WithLastHop(ds[k], q.target, q.busOfPrev, q.intraBus, undefined)];
      LastHopId(ds[k], q.target, q.busOfPrev, q.intraBus, undefined);
      RoutesKeptAt(ds, k, ds1[k], q.target);
      var j := DeviceIndex(ds1, q.target);
      if j < |ds1| {
        RouteBackKeeps(ds1[j], q.next, q.busOfTarget, q.intraBus);
        RouteBackId(ds1[j], q.next, q.busOfTarget, q.intraBus);
        RoutesKeptAt(ds1, j, WithRouteBack(ds1[j], q.next, q.busOfTarget, q.intraBus), q.target);
        RoutesKeptTwice(ds, ds1, ds1[j := WithRouteBack(ds1[j], q.next, q.busOfTarget, q.intraBus)], q.target);
      }
    }
  }

  lemma LastHopId(d: Device, target: nat, bus: nat, intraBus: nat, undefined: nat)
    ensures WithLastHop(d, target, bus, intraBus, undefined).id == d.id
  {
  }

  lemma RouteBackId(d: Device, next: nat, bus: nat, intraBus: nat)
    ensures WithRouteBack(d, next, bus, intraBus).id == d.id
  {
  }

  lemma NothingPlanned(ds: seq<Device>, target: nat)
    ensures RoutesKept(ds, ds, target)
  {
  }

  /** What planning a route leaves alone, however it ends: all other routes everywhere, all links and, but for
      the root, all confirmed tables off its two ends, and everything at a device it does not come by. */
  lemma PlanKeeps(ds: seq<Device>, ps: seq<Initiator>, q: RouteRequest, undefined: nat, maxHops: nat)
    requires DevicesOk(ds) && q.target != 0
    ensures var r := AddRoute(ds, ps, q, undefined, maxHops);
      && |r.devices| == |ds| && RoutesKept(ds, r.devices, q.target)
      && (forall k :: 0 <= k < |ds| ==> r.devices[k].id == ds[k].id)
      && (forall k :: 0 <= k < |ds| && ds[k].id != q.prev && ds[k].id != q.target ==>
            Rerouted(ds[k], r.devices[k]) && (k !in r.way ==> r.devices[k] == ds[k]))
    ensures var r := AddRoute(ds, ps, q, undefined, maxHops);
      r.outcome.RouteDone? ==> PlanDone(ds, r.devices, r.way, q)
  {
    hide Walk, Connected, Routed, Hopped, Sorted, RoutingOk, QueuedAll, Lookup, Reaches, Relinked, DeviceRoutesKept, LastOf, Rerouted;
    var w := Walk(ds, 0, q.target, q.prev, maxHops);
    var ds1, ps1 := WithRoutes(ds, w.way, q.target, q.prev), QueuedAll(ps, IdsOf(ds, w.way), q.target);
    SortedDevices(ds);
    WithRoutesKeeps(ds, w.way, q.target, q.prev);
    WalkReads(ds, 0, q.target, q.prev, maxHops);
    if w.outcome.RouteDone? {
      SortedLinks(ds, ds1);
      ConnectedKeeps(ds1, ps1, q, undefined);
      var ds2 := Connected(ds1, ps1, q, undefined).devices;
      RoutesKeptTwice(ds, ds1, ds2, q.target);
      if Connected(ds1, ps1, q, undefined).outcome.RouteDone? {
        FollowsAtTheEnd(ds, w.way, ds1, ds2, q);
        RelinkedAtTheEnd(ds, ds1, ds2, q);
      }
    }
  }

  // The route is in place: every device on the way follows its route to the device before the target, and that
  // device and the target are linked to each other.
  ghost predicate PlanDone(ds: seq<Device>, ds': seq<Device>, way: seq<nat>, q: RouteRequest) {
    && |ds'| == |ds| && WayRead(ds, way, q.prev, q.prev)
    && (forall i :: 0 <= i < |way| ==> Follows(ds'[way[i]], q.target, q.prev))
    && (q.prev != 0 ==> way != [] && ds[way[0]].id == 0)
    && (exists k :: 0 <= k < |ds| && ds[k].id == q.target && Reaches(ds'[k], 0, q.next, q.busOfTarget))
    && (q.prev != q.target ==> exists k :: 0 <= k < |ds| && ds[k].id == q.prev && Reaches(ds'[k], q.target, q.target, q.busOfPrev))
    && (q.prev != q.target ==> forall k :: 0 <= k < |ds| ==>
          (ds[k].id == q.prev ==> Relinked(ds[k], ds'[k], q.target, q.busOfPrev))
          && (ds[k].id == q.target ==> Relinked(ds[k], ds'[k], q.next, q.busOfTarget)))
  }

  lemma SortedLinks(ds: seq<Device>, ds1: seq<Device>)
    requires |ds1| == |ds| && forall k :: 0 <= k < |ds| ==> Sorted(ds[k].planned.links) && Rerouted(ds[k], ds1[k])
    ensures forall k :: 0 <= k < |ds| ==> Sorted(ds1[k].planned.links)
  {
  }

  lemma FollowsAtTheEnd(ds: seq<Device>, way: seq<nat>, ds1: seq<Device>, ds2: seq<Device>, q: RouteRequest)
    requires |ds2| == |ds| && ds1 == WithRoutes(ds, way, q.target, q.prev) && q.target != 0
    requires forall k :: 0 <= k < |ds| ==> Sorted(ds[k].planned.routes)
    requires WayRead(ds, way, q.prev, q.prev) && (way != [] ==> q.prev != 0)
    requires forall k :: 0 <= k < |ds| && ds1[k].id != q.prev && ds1[k].id != q.target ==> ds2[k] == ds1[k]
    requires forall k :: 0 <= k < |ds| && ds1[k].id == q.target != q.prev ==>
      forall x :: x != 0 ==> Lookup(ds2[k].planned.routes, x) == Lookup(ds1[k].planned.routes, x)
    ensures forall i :: 0 <= i < |way| ==> Follows(ds2[way[i]], q.target, q.prev)
  {
    hide Routed, Hopped, Sorted, Lookup;
    forall i | 0 <= i < |way| ensures Follows(ds2[way[i]], q.target, q.prev) {
      RoutedKeeps(ds[way[i]], q.target, q.prev);
      if ds1[way[i]].id == q.target { StillFollows(ds1[way[i]], ds2[way[i]], q.target, q.prev); }
    }
  }

  lemma RelinkedAtTheEnd(ds: seq<Device>, ds1: seq<Device>, ds2: seq<Device>, q: RouteRequest)
    requires |ds1| == |ds2| == |ds| && forall k :: 0 <= k < |ds| ==> ds1[k].id == ds[k].id && Rerouted(ds[k], ds1[k])
    requires q.prev != q.target ==> forall k :: 0 <= k < |ds| ==>
      (ds1[k].id == q.prev ==> Relinked(ds1[k], ds2[k], q.target, q.busOfPrev))
      && (ds1[k].id == q.target ==> Relinked(ds1[k], ds2[k], q.next, q.busOfTarget))
    ensures q.prev != q.target ==> forall k :: 0 <= k < |ds| ==>
      (ds[k].id == q.prev ==> Relinked(ds[k], ds2[k], q.target, q.busOfPrev))
      && (ds[k].id == q.target ==> Relinked(ds[k], ds2[k], q.next, q.busOfTarget))
  {
    hide Relinked, Rerouted;
    forall k | 0 <= k < |ds| && q.prev != q.target
      ensures ds[k].id == q.prev ==> Relinked(ds[k], ds2[k], q.target, q.busOfPrev)
      ensures ds[k].id == q.target ==> Relinked(ds[k], ds2[k], q.next, q.busOfTarget)
    {
      if ds[k].id == q.prev { RelinkedAfter(ds[k], ds1[k], ds2[k], q.target, q.busOfPrev); }
      if ds[k].id == q.target { RelinkedAfter(ds[k], ds1[k], ds2[k], q.next, q.busOfTarget); }
    }
  }

  // ------------------------------------------------------------------------------ who has to be told

  // The devices at the end of the way that are put on the waiting list: the one before the target and the
  // target, as far as the plan gets.
  ghost function Ends(ds: seq<Device>, r: RouteOutcome, q: RouteRequest, maxHops: nat): seq<nat> {
    if r.RouteDone? then [q.prev, q.target]
    else if Walk(ds, 0, q.target, q.prev, maxHops).outcome.RouteDone? && DeviceIndex(ds, q.prev) < |ds| then [q.prev]
    else []
  }

  lemma NoneQueued(ps: seq<Initiator>, target: nat)
    ensures QueuedAll(ps, [], target) == ps
  {
  }

  lemma LastApart(a: seq<nat>, b: seq<nat>)
    requires b != []
    ensures b == b[..|b| - 1] + [b[|b| - 1]] && a + b == a + b[..|b| - 1] + [b[|b| - 1]]
  {
  }

  lemma {:induction false} QueuedOn(ps: seq<Initiator>, a: seq<nat>, b: seq<nat>, target: nat)
    ensures QueuedAll(ps, a + b, target) == QueuedAll(QueuedAll(ps, a, target), b, target)
  {
    hide QueuedAll, Queued;
    if b == [] {
      assert a + b == a;
      NoneQueued(QueuedAll(ps, a, target), target);
    } else {
      var rest, id := b[..|b| - 1], b[|b| - 1];
      QueuedOn(ps, a, rest, target);
      QueuedOneMore(ps, a + rest, id, target);
      QueuedOneMore(QueuedAll(ps, a, target), rest, id, target);
      LastApart(a, b);
    }
  }

  lemma SameIndex(ds: seq<Device>, ds1: seq<Device>, id: nat)
    requires |ds1| == |ds| && forall k :: 0 <= k < |ds| ==> ds1[k].id == ds[k].id
    ensures DeviceIndex(ds1, id) == DeviceIndex(ds, id)
  {
    DeviceIndexIs(ds1, id, DeviceIndex(ds, id));
  }

  /** Exactly the devices on the way and the two at its end that are reached go on the waiting list, in that
      order, each keeping the entry it has; the root never does. */
  lemma PlanQueues(ds: seq<Device>, ps: seq<Initiator>, q: RouteRequest, undefined: nat, maxHops: nat)
    ensures var r := AddRoute(ds, ps, q, undefined, maxHops);
      r.way == Walk(ds, 0, q.target, q.prev, maxHops).way
      && r.planned == QueuedAll(ps, IdsOf(ds, r.way) + Ends(ds, r.outcome, q, maxHops), q.target)
    ensures var r := AddRoute(ds, ps, q, undefined, maxHops);
      r.way == Walk(ds, 0, q.target, q.prev, maxHops).way
      && ((forall i, j :: 0 <= i < j < |ps| ==> ps[i].device != ps[j].device) && (forall i :: 0 <= i < |ps| ==> ps[i].device != 0) ==>
            Requeued(ps, r.planned, IdsOf(ds, r.way) + Ends(ds, r.outcome, q, maxHops), q.target))
  {
    hide Walk, QueuedAll, Routed, WithLastHop, WithRouteBack, Requeued;
    var w := Walk(ds, 0, q.target, q.prev, maxHops);
    var ids, ds1 := IdsOf(ds, w.way), WithRoutes(ds, w.way, q.target, q.prev);
    SameIndex(ds, ds1, q.prev);
    QueuedOn(ps, ids, [q.prev], q.target);
    QueuedOn(ps, ids + [q.prev], [q.target], q.target);
    assert ids + [q.prev] + [q.target] == ids + [q.prev, q.target] && ids + [] == ids;
    if (forall i, j :: 0 <= i < j < |ps| ==> ps[i].device != ps[j].device) && (forall i :: 0 <= i < |ps| ==> ps[i].device != 0) {
      QueuedAllIs(ps, ids + Ends(ds, AddRoute(ds, ps, q, undefined, maxHops).outcome, q, maxHops), q.target);
    }
  }

  lemma WalkStops(ds: seq<Device>, dev: nat, target: nat, prev: nat, hops: nat)
    ensures dev == prev ==> Walk(ds, dev, target, prev, hops) == Walked(RouteDone, [])
    ensures dev != prev && DeviceIndex(ds, dev) == |ds| ==> Walk(ds, dev, target, prev, hops) == Walked(Undefined, [])
    ensures dev != prev && DeviceIndex(ds, dev) < |ds| && hops == 0 ==> Walk(ds, dev, target, prev, hops) == Walked(StillWalking, [])
    ensures var k := DeviceIndex(ds, dev);
      dev != prev && k < |ds| && 0 < hops && !Hopped(ds[k].planned, prev).HopTo? ==>
        Walk(ds, dev, target, prev, hops) == Walked(if Hopped(ds[k].planned, prev).HopNone? then NoRoute else Undefined, [])
  {
  }

  lemma ShortLinks(ds: seq<Device>, ds1: seq<Device>, way: seq<nat>, target: nat, prev: nat)
    requires ds1 == WithRoutes(ds, way, target, prev) && forall k :: 0 <= k < |ds| ==> |ds[k].planned.links| < 0x1_0000
    ensures forall k :: 0 <= k < |ds1| ==> |ds1[k].planned.links| < 0x1_0000
  {
    hide Routed;
  }

  // The walk has come from the root, by the devices on the way, to dev: it goes on from ds1 with up to left hops.
  ghost predicate WalkedSoFar(ds: seq<Device>, ps: seq<Initiator>, ds1: seq<Device>, ps1: seq<Initiator>, way: seq<nat>,
                              dev: nat, target: nat, prev: nat, maxHops: nat, left: nat) {
    && (forall i :: 0 <= i < |way| ==> way[i] < |ds|)
    && ds1 == WithRoutes(ds, way, target, prev) && ps1 == QueuedAll(ps, IdsOf(ds, way), target)
    && Walk(ds, 0, target, prev, maxHops) == Onward(way, Walk(ds1, dev, target, prev, left))
  }

  lemma WalkStarts(ds: seq<Device>, ps: seq<Initiator>, target: nat, prev: nat, maxHops: nat)
    ensures WalkedSoFar(ds, ps, ds, ps, [], 0, target, prev, maxHops, maxHops)
  {
    hide Walk, Routed;
    assert ds == WithRoutes(ds, [], target, prev) && IdsOf(ds, []) == [];
    assert [] + Walk(ds, 0, target, prev, maxHops).way == Walk(ds, 0, target, prev, maxHops).way;
  }

  lemma WalkGoesOn(ds: seq<Device>, ps: seq<Initiator>, ds1: seq<Device>, ps1: seq<Initiator>, way: seq<nat>,
                   dev: nat, target: nat, prev: nat, maxHops: nat, left: nat)
    requires WalkedSoFar(ds, ps, ds1, ps1, way, dev, target, prev, maxHops, left)
    requires forall k :: 0 <= k < |ds| ==> Sorted(ds[k].planned.routes)
    requires dev != prev && 0 < left && DeviceIndex(ds1, dev) < |ds1| && Hopped(ds1[DeviceIndex(ds1, dev)].planned, prev).HopTo?
    ensures var k := DeviceIndex(ds1, dev);
      WalkedSoFar(ds, ps, ds1[k := Routed(ds1[k], target, prev)], QueuedAll(ps1, [ds1[k].id], target), way + [k],
                  Hopped(ds1[k].planned, prev).next, target, prev, maxHops, left - 1)
  {
    hide Walk, Routed, QueuedAll, Hopped, Sorted, DeviceIndex;
    var k := DeviceIndex(ds1, dev);
    WithRoutesId(ds, way, target, prev, k);
    WithRoutesMore(ds, way, target, prev, k);
    QueuedOn(ps, IdsOf(ds, way), [ds[k].id], target);
    assert IdsOf(ds, way + [k]) == IdsOf(ds, way) + [ds[k].id];
    hide WithRoutes, IdsOf;
    WalkStep(ds1, dev, target, prev, left);
    OnwardTwice(way, k, Walk(ds1[k := Routed(ds1[k], target, prev)], Hopped(ds1[k].planned, prev).next, target, prev, left - 1));
  }

  lemma OnwardTwice(way: seq<nat>, k: nat, w: Walked)
    ensures Onward(way, Onward([k], w)) == Onward(way + [k], w)
  {
    assert way + ([k] + w.way) == (way + [k]) + w.way;
  }

  lemma WithRoutesId(ds: seq<Device>, way: seq<nat>, target: nat, prev: nat, k: nat)
    requires k < |ds|
    ensures WithRoutes(ds, way, target, prev)[k].id == ds[k].id
  {
  }

  lemma WalkIsOver(ds: seq<Device>, ps: seq<Initiator>, ds1: seq<Device>, ps1: seq<Initiator>, way: seq<nat>,
                   dev: nat, target: nat, prev: nat, maxHops: nat, left: nat, r: RouteOutcome)
    requires WalkedSoFar(ds, ps, ds1, ps1, way, dev, target, prev, maxHops, left)
    requires Walk(ds1, dev, target, prev, left) == Walked(r, [])
    ensures Walked(r, way) == Walk(ds, 0, target, prev, maxHops) && forall i :: 0 <= i < |way| ==> way[i] < |ds|
    ensures ds1 == WithRoutes(ds, way, target, prev) && ps1 == QueuedAll(ps, IdsOf(ds, way), target)
  {
    assert way + [] == way;
  }

  /** Planning a route ends, for every request, if the hops towards the device before the target lead in no
      circle: it is then never seen still walking after as many hops as there are devices. */
  lemma PlanEnds(ds: seq<Device>, ps: seq<Initiator>, q: RouteRequest, undefined: nat, maxHops: nat, rank: nat -> nat)
    requires Descends(ds, q.prev, rank) && |ds| <= maxHops
    ensures var r := AddRoute(ds, ps, q, undefined, maxHops); !r.outcome.StillWalking? && AllNew(r.way, {})
  {
    hide Descends, Walk, Connected, Routed, QueuedAll, AllNew;
    WalkEnds(ds, q.target, q.prev, maxHops, rank);
  }

  // --------------------------------------------------------------------------------- does it arrive?

  // A device and the tables it goes by.
  datatype Node = Node(id: nat, tables: Routing)

  function PlannedNodes(ds: seq<Device>): (ns: seq<Node>)
    ensures |ns| == |ds| && forall k :: 0 <= k < |ds| ==> ns[k] == Node(ds[k].id, ds[k].planned)
  {
    seq(|ds|, k requires 0 <= k < |ds| => Node(ds[k].id, ds[k].planned))
  }

  function ConfirmedNodes(ds: seq<Device>): (ns: seq<Node>)
    ensures |ns| == |ds| && forall k :: 0 <= k < |ds| ==> ns[k] == Node(ds[k].id, ds[k].confirmed)
  {
    seq(|ds|, k requires 0 <= k < |ds| => Node(ds[k].id, ds[k].confirmed))
  }

  function NodeIndex(ns: seq<Node>, id: nat): (k: nat)
    ensures k <= |ns| && (k < |ns| ==> ns[k].id == id)
    ensures forall j :: 0 <= j < k ==> ns[j].id != id
  {
    if ns == [] || ns[0].id == id then 0 else 1 + NodeIndex(ns[1..], id)
  }

  function NextFrom(ns: seq<Node>, id: nat, target: nat): Option<nat> {
    var k := NodeIndex(ns, id);
    if k == |ns| then None else OwnHop(ns[k].tables, target)
  }

  // A packet for the target that is at device at gets to the target in so many steps at most.
  predicate Arrives(ns: seq<Node>, at: nat, target: nat, steps: nat)
    decreases steps
  {
    at == target
    || (0 < steps && NextFrom(ns, at, target).Some? && Arrives(ns, NextFrom(ns, at, target).value, target, steps - 1))
  }

  lemma {:induction false} ArrivesLater(ns: seq<Node>, at: nat, target: nat, steps: nat, more: nat)
    requires Arrives(ns, at, target, steps) && steps <= more
    ensures Arrives(ns, at, target, more)
    decreases steps
  {
    if at == target {
    } else {
      ArrivesLater(ns, NextFrom(ns, at, target).value, target, steps - 1, more - 1);
    }
  }

  // On a shortest way of m steps there are m different devices.
  lemma {:induction false} OnTheWay(ns: seq<Node>, at: nat, target: nat, m: nat) returns (s: set<nat>)
    requires Arrives(ns, at, target, m) && (m > 0 ==> !Arrives(ns, at, target, m - 1))
    ensures |s| == m && forall k :: k in s ==> k < |ns| && Arrives(ns, ns[k].id, target, m)
    decreases m
  {
    if m == 0 {
      s := {};
    } else {
      var next := NextFrom(ns, at, target).value;
      var rest := OnTheWay(ns, next, target, m - 1);
      var k := NodeIndex(ns, at);
      assert k !in rest;
      s := rest + {k};
      forall j | j in rest ensures Arrives(ns, ns[j].id, target, m) {
        ArrivesLater(ns, ns[j].id, target, m - 1, m);
      }
    }
  }

  /** A packet that ever arrives does so in no more steps than there are devices. */
  lemma {:induction false} ArrivesSoon(ns: seq<Node>, at: nat, target: nat, steps: nat)
    requires Arrives(ns, at, target, steps)
    ensures Arrives(ns, at, target, |ns|)
    decreases steps
  {
    if steps > 0 && Arrives(ns, at, target, steps - 1) {
      ArrivesSoon(ns, at, target, steps - 1);
    } else {
      var s := OnTheWay(ns, at, target, steps);
      Fewer(s, Below(|ns|));
      ArrivesLater(ns, at, target, steps, |ns|);
    }
  }

  // Where a packet for the target will be passed on to, by the tables before the plan: the device before the
  // target sends it there, one on the way sends it where it sends packets for the device before the target,
  // any other where it did.
  function NextAsPlanned(ds: seq<Device>, way: seq<nat>, q: RouteRequest, id: nat): Option<nat> {
    var k := DeviceIndex(ds, id);
    if k == |ds| then None
    else if id == q.prev then Some(q.target)
    else OwnHop(ds[k].planned, if k in way then q.prev else q.target)
  }

  predicate ArrivesAsPlanned(ds: seq<Device>, way: seq<nat>, q: RouteRequest, at: nat, steps: nat)
    decreases steps
  {
    at == q.target
    || (0 < steps && NextAsPlanned(ds, way, q, at).Some?
        && ArrivesAsPlanned(ds, way, q, NextAsPlanned(ds, way, q, at).value, steps - 1))
  }

  lemma NodeIndexIs(ds: seq<Device>, id: nat)
    ensures NodeIndex(PlannedNodes(ds), id) == DeviceIndex(ds, id)
  {
  }

  lemma RoutedOwnHop(d: Device, target: nat, prev: nat)
    requires Sorted(d.planned.routes) && Lookup(d.planned.routes, prev).Some?
    ensures OwnHop(Routed(d, target, prev).planned, target) == OwnHop(d.planned, prev)
  {
    RoutedLookup(d, target, prev, target);
  }

  // Every device but the target passes the packet on as foreseen.
  lemma PassedOnAsPlanned(ds: seq<Device>, ps: seq<Initiator>, q: RouteRequest, undefined: nat, maxHops: nat, at: nat)
    requires DevicesOk(ds) && at != q.target
    requires AddRoute(ds, ps, q, undefined, maxHops).outcome.RouteDone?
    ensures var r := AddRoute(ds, ps, q, undefined, maxHops);
      NextFrom(PlannedNodes(r.devices), at, q.target) == NextAsPlanned(ds, r.way, q, at)
  {
    hide Walk, Connected, Routed, Hopped, Sorted, RoutingOk, QueuedAll, WithLastHop, OwnHop, Lookup, DeviceIndex, NodeIndex;
    var way := Walk(ds, 0, q.target, q.prev, maxHops).way;
    var ds1, ps1 := WithRoutes(ds, way, q.target, q.prev), QueuedAll(ps, IdsOf(ds, way), q.target);
    var ds2 := Connected(ds1, ps1, q, undefined).devices;
    SortedDevices(ds);
    WalkReads(ds, 0, q.target, q.prev, maxHops);
    ConnectedEnds(ds1, ps1, q, undefined);
    SameIndex(ds, ds1, at);
    SameIndex(ds1, ds2, at);
    NodeIndexIs(ds2, at);
    var k := DeviceIndex(ds, at);
    if k < |ds| {
      if at == q.prev {
        RoutedLookup(ds[k], q.target, q.prev, q.target);
        LastHopForwards(ds1[k], q.target, q.busOfPrev, q.intraBus, undefined);
      } else if k in way {
        var i :| 0 <= i < |way| && way[i] == k;
        assert Lookup(ds[way[i]].planned.routes, q.prev).Some?;
        RoutedOwnHop(ds[k], q.target, q.prev);
      }
    }
  }

  // What the links at the end change, also if they join a device to itself.
  lemma ConnectedEnds(ds: seq<Device>, ps: seq<Initiator>, q: RouteRequest, undefined: nat)
    requires Connected(ds, ps, q, undefined).outcome.RouteDone?
    ensures var ds' := Connected(ds, ps, q, undefined).devices;
      && |ds'| == |ds| && (forall i :: 0 <= i < |ds| ==> ds'[i].id == ds[i].id)
      && (forall i :: 0 <= i < |ds| && ds[i].id != q.prev && ds[i].id != q.target ==> ds'[i] == ds[i])
      && (var k := DeviceIndex(ds, q.prev);
          k < |ds| && (q.prev != q.target ==> ds'[k] == WithLastHop(ds[k], q.target, q.busOfPrev, q.intraBus, undefined)))
  {
    hide QueuedAll, LinkedTo;
  }

  lemma {:induction false} SameSteps(ds: seq<Device>, ps: seq<Initiator>, q: RouteRequest, undefined: nat, maxHops: nat, at: nat, steps: nat)
    requires DevicesOk(ds) && AddRoute(ds, ps, q, undefined, maxHops).outcome.RouteDone?
    ensures var r := AddRoute(ds, ps, q, undefined, maxHops);
      Arrives(PlannedNodes(r.devices), at, q.target, steps) <==> ArrivesAsPlanned(ds, r.way, q, at, steps)
    decreases steps
  {
    hide AddRoute, DevicesOk, NextFrom, NextAsPlanned;
    if at == q.target || steps == 0 {
    } else {
      PassedOnAsPlanned(ds, ps, q, undefined, maxHops, at);
      var next := NextAsPlanned(ds, AddRoute(ds, ps, q, undefined, maxHops).way, q, at);
      if next.Some? { SameSteps(ds, ps, q, undefined, maxHops, next.value, steps - 1); }
    }
  }

  /** When a packet for the target, sent out by the root, arrives by the planned tables: exactly if it does by
      the tables before the plan, read as NextAsPlanned reads them, and then in no more steps than there are
      devices. This asks nothing of the way or the target. */
  lemma ArrivesWhen(ds: seq<Device>, ps: seq<Initiator>, q: RouteRequest, undefined: nat, maxHops: nat)
    requires DevicesOk(ds) && AddRoute(ds, ps, q, undefined, maxHops).outcome.RouteDone?
    ensures var r := AddRoute(ds, ps, q, undefined, maxHops);
      && (forall steps: nat :: Arrives(PlannedNodes(r.devices), 0, q.target, steps) <==> ArrivesAsPlanned(ds, r.way, q, 0, steps))
      && ((exists steps: nat :: Arrives(PlannedNodes(r.devices), 0, q.target, steps)) <==> ArrivesAsPlanned(ds, r.way, q, 0, |ds|))
  {
    hide Arrives, ArrivesAsPlanned, Walk, Connected;
    var r := AddRoute(ds, ps, q, undefined, maxHops);
    var ns := PlannedNodes(r.devices);
    forall steps: nat ensures Arrives(ns, 0, q.target, steps) <==> ArrivesAsPlanned(ds, r.way, q, 0, steps) {
      SameSteps(ds, ps, q, undefined, maxHops, 0, steps);
    }
    ConnectedEnds(WithRoutes(ds, Walk(ds, 0, q.target, q.prev, maxHops).way, q.target, q.prev),
                  QueuedAll(ps, IdsOf(ds, Walk(ds, 0, q.target, q.prev, maxHops).way), q.target), q, undefined);
    if exists steps: nat :: Arrives(ns, 0, q.target, steps) {
      var steps: nat :| Arrives(ns, 0, q.target, steps);
      ArrivesSoon(ns, 0, q.target, steps);
    }
  }

  // ----------------------------------------------------------------------------- the waiting list

  // How often id is among the ids.
  function Times(ids: seq<nat>, id: nat): nat {
    if ids == [] then 0 else Times(ids[..|ids| - 1], id) + if ids[|ids| - 1] == id then 1 else 0
  }

  function Repeated(target: nat, n: nat): (r: seq<nat>)
    ensures |r| == n && forall i :: 0 <= i < n ==> r[i] == target
  {
    seq(n, _ => target)
  }

  // The ids not waiting yet, but for the root's, in the order they first come.
  ghost function Newcomers(ps: seq<Initiator>, ids: seq<nat>): seq<nat> {
    if ids == [] then []
    else
      var n, id := Newcomers(ps, ids[..|ids| - 1]), ids[|ids| - 1];
      if id == 0 || Waiting(ps, id) || id in n then n else n + [id]
  }

  // p after the devices of these ids have been put on the list for target.
  function Told(p: Initiator, ids: seq<nat>, target: nat): Initiator {
    p.(affected := p.affected + Repeated(target, Times(ids, p.device)))
  }

  // Whoever waited keeps the place, with the target once more for each time it comes among the ids; newcomers
  // follow in the order they first come.
  ghost predicate Requeued(ps: seq<Initiator>, r: seq<Initiator>, ids: seq<nat>, target: nat) {
    var n := Newcomers(ps, ids);
    && |r| == |ps| + |n|
    && (forall i :: 0 <= i < |ps| ==> r[i] == Told(ps[i], ids, target))
    && (forall j :: 0 <= j < |n| ==> r[|ps| + j] == Told(Initiator(n[j], false, []), ids, target))
  }

  lemma {:induction false} NewcomersAre(ps: seq<Initiator>, ids: seq<nat>)
    ensures forall x :: x in Newcomers(ps, ids) <==> x in ids && x != 0 && !Waiting(ps, x)
    ensures forall i, j :: 0 <= i < j < |Newcomers(ps, ids)| ==> Newcomers(ps, ids)[i] != Newcomers(ps, ids)[j]
  {
    hide Waiting;
    if ids == [] {
    } else {
      NewcomersAre(ps, ids[..|ids| - 1]);
      assert ids == ids[..|ids| - 1] + [ids[|ids| - 1]];
    }
  }

  lemma TimesMore(ids: seq<nat>, id: nat, x: nat)
    ensures Times(ids + [id], x) == Times(ids, x) + if id == x then 1 else 0
  {
    assert (ids + [id])[..|ids|] == ids;
  }

  lemma NewcomersMore(ps: seq<Initiator>, ids: seq<nat>, id: nat)
    ensures var n := Newcomers(ps, ids);
      Newcomers(ps, ids + [id]) == if id == 0 || Waiting(ps, id) || id in n then n else n + [id]
  {
    assert (ids + [id])[..|ids|] == ids;
  }

  lemma ToldMore(p: Initiator, ids: seq<nat>, id: nat, target: nat)
    ensures Told(p, ids + [id], target)
            == if id == p.device then Told(p, ids, target).(affected := Told(p, ids, target).affected + [target]) else Told(p, ids, target)
  {
    TimesMore(ids, id, p.device);
    assert Repeated(target, Times(ids, p.device) + 1) == Repeated(target, Times(ids, p.device)) + [target];
    assert p.affected + (Repeated(target, Times(ids, p.device)) + [target]) == p.affected + Repeated(target, Times(ids, p.device)) + [target];
  }

  // One more id on the list.
  lemma RequeuedMore(ps: seq<Initiator>, r: seq<Initiator>, ids: seq<nat>, id: nat, target: nat)
    requires Requeued(ps, r, ids, target) && forall i, j :: 0 <= i < j < |ps| ==> ps[i].device != ps[j].device
    requires forall i :: 0 <= i < |ps| ==> ps[i].device != 0
    ensures Requeued(ps, if id == 0 then r else Queued(r, id, [target]), ids + [id], target)
  {
    hide Told, Newcomers, Queued, Requeued;
    NewcomersAre(ps, ids);
    NewcomersMore(ps, ids, id);
    ToldEach(ps, r, ids, id, target);
    OncePerDevice(ps, r, ids, target);
    var i := FirstOf(r, id);
    if id == 0 {
      NoRootWaits(ps, r, ids, target);
      SameList(ps, r, ids, id, target);
    } else if i == |r| {
      QueuedIs(r, id, [target], i);
      OneMoreWaits(ps, r, ids, id, target);
    } else {
      QueuedIs(r, id, [target], i);
      OneIsTold(ps, r, ids, id, target, i);
    }
  }

  lemma NoRootWaits(ps: seq<Initiator>, r: seq<Initiator>, ids: seq<nat>, target: nat)
    requires Requeued(ps, r, ids, target) && forall i :: 0 <= i < |ps| ==> ps[i].device != 0
    ensures forall i :: 0 <= i < |r| ==> r[i].device != 0
  {
    hide Newcomers;
    var n := Newcomers(ps, ids);
    NewcomersAre(ps, ids);
    DevicesOf(ps, r, ids, target);
    forall i | |ps| <= i < |r| ensures r[i].device != 0 {
      assert r[|ps| + (i - |ps|)].device == n[i - |ps|] && n[i - |ps|] in n;
    }
  }

  lemma SameList(ps: seq<Initiator>, r: seq<Initiator>, ids: seq<nat>, id: nat, target: nat)
    requires Requeued(ps, r, ids, target) && forall i :: 0 <= i < |r| ==> r[i].device != id
    requires Newcomers(ps, ids + [id]) == Newcomers(ps, ids)
    ensures Requeued(ps, r, ids + [id], target)
  {
    hide Told, Newcomers;
    ToldEach(ps, r, ids, id, target);
  }

  lemma OneMoreWaits(ps: seq<Initiator>, r: seq<Initiator>, ids: seq<nat>, id: nat, target: nat)
    requires Requeued(ps, r, ids, target) && id != 0 && forall i :: 0 <= i < |r| ==> r[i].device != id
    ensures Requeued(ps, r + [Initiator(id, false, [target])], ids + [id], target)
  {
    hide Told, Newcomers;
    var n := Newcomers(ps, ids);
    ToldEach(ps, r, ids, id, target);
    DevicesOf(ps, r, ids, target);
    NobodyWaits(ps, r, id);
    NewcomersAre(ps, ids);
    NewcomersMore(ps, ids, id);
    forall j | 0 <= j < |n| ensures n[j] != id {
      assert r[|ps| + j].device == n[j];
    }
    TimesOfNone(ids, id);
    FreshlyTold(ids, id, target);
    ToldMore(Initiator(id, false, []), ids, id, target);
    assert [] + [target] == [target];
  }

  lemma OneIsTold(ps: seq<Initiator>, r: seq<Initiator>, ids: seq<nat>, id: nat, target: nat, i: nat)
    requires Requeued(ps, r, ids, target) && id != 0 && i < |r| && r[i].device == id
    requires forall j, k :: 0 <= j < k < |r| ==> r[j].device != r[k].device
    ensures Requeued(ps, r[i := r[i].(affected := r[i].affected + [target])], ids + [id], target)
  {
    hide Told, Newcomers;
    var n := Newcomers(ps, ids);
    ToldEach(ps, r, ids, id, target);
    DevicesOf(ps, r, ids, target);
    NewcomersMore(ps, ids, id);
    if i < |ps| {
      assert Waiting(ps, id) by { assert ps[i].device == id; }
    } else {
      assert r[|ps| + (i - |ps|)].device == n[i - |ps|];
      assert id in n;
    }
  }

  // What one more id changes at every entry.
  lemma ToldEach(ps: seq<Initiator>, r: seq<Initiator>, ids: seq<nat>, id: nat, target: nat)
    requires Requeued(ps, r, ids, target)
    ensures var n := Newcomers(ps, ids);
      && |r| == |ps| + |n|
      && (forall i :: 0 <= i < |ps| ==> Told(ps[i], ids + [id], target)
                                        == if id == r[i].device then r[i].(affected := r[i].affected + [target]) else r[i])
      && (forall j :: 0 <= j < |n| ==> Told(Initiator(n[j], false, []), ids + [id], target)
                                       == if id == r[|ps| + j].device then r[|ps| + j].(affected := r[|ps| + j].affected + [target]) else r[|ps| + j])
  {
    hide Newcomers;
    var n := Newcomers(ps, ids);
    forall i | 0 <= i < |ps|
      ensures Told(ps[i], ids + [id], target) == if id == r[i].device then r[i].(affected := r[i].affected + [target]) else r[i]
    {
      ToldMore(ps[i], ids, id, target);
    }
    forall j | 0 <= j < |n|
      ensures Told(Initiator(n[j], false, []), ids + [id], target)
              == if id == r[|ps| + j].device then r[|ps| + j].(affected := r[|ps| + j].affected + [target]) else r[|ps| + j]
    {
      ToldMore(Initiator(n[j], false, []), ids, id, target);
    }
  }

  lemma OncePerDevice(ps: seq<Initiator>, r: seq<Initiator>, ids: seq<nat>, target: nat)
    requires Requeued(ps, r, ids, target) && forall i, j :: 0 <= i < j < |ps| ==> ps[i].device != ps[j].device
    ensures forall i, j :: 0 <= i < j < |r| ==> r[i].device != r[j].device
    ensures forall i :: 0 <= i < |ps| ==> r[i].device == ps[i].device
    ensures forall j :: 0 <= j < |Newcomers(ps, ids)| ==> r[|ps| + j].device == Newcomers(ps, ids)[j]
    ensures |r| == |ps| + |Newcomers(ps, ids)|
  {
    hide Newcomers;
    var n := Newcomers(ps, ids);
    NewcomersAre(ps, ids);
    DevicesOf(ps, r, ids, target);
    forall i, j | 0 <= i < j < |r| ensures r[i].device != r[j].device {
      if j >= |ps| {
        assert r[|ps| + (j - |ps|)].device == n[j - |ps|] && n[j - |ps|] in n;
        if i >= |ps| { assert r[|ps| + (i - |ps|)].device == n[i - |ps|]; } else { assert r[i].device == ps[i].device; }
      }
    }
  }

  function FirstOf(r: seq<Initiator>, id: nat): (i: nat)
    ensures i <= |r| && (i < |r| ==> r[i].device == id) && forall j :: 0 <= j < i ==> r[j].device != id
  {
    if r == [] || r[0].device == id then 0 else 1 + FirstOf(r[1..], id)
  }

  lemma {:induction false} TimesOfNone(ids: seq<nat>, id: nat)
    ensures id !in ids ==> Times(ids, id) == 0
  {
    if ids == [] {
    } else {
      TimesOfNone(ids[..|ids| - 1], id);
    }
  }

  lemma DevicesOf(ps: seq<Initiator>, r: seq<Initiator>, ids: seq<nat>, target: nat)
    requires Requeued(ps, r, ids, target)
    ensures var n := Newcomers(ps, ids);
      |r| == |ps| + |n|
      && (forall i :: 0 <= i < |ps| ==> r[i].device == ps[i].device) && forall j :: 0 <= j < |n| ==> r[|ps| + j].device == n[j]
  {
  }

  lemma FreshlyTold(ids: seq<nat>, id: nat, target: nat)
    requires Times(ids, id) == 0
    ensures Told(Initiator(id, false, []), ids, target) == Initiator(id, false, [])
  {
  }

  lemma NobodyWaits(ps: seq<Initiator>, r: seq<Initiator>, id: nat)
    requires |ps| <= |r| && (forall i :: 0 <= i < |ps| ==> r[i].device == ps[i].device) && forall i :: 0 <= i < |r| ==> r[i].device != id
    ensures !Waiting(ps, id)
  {
  }

  /** What the waiting list looks like after devices have been put on it. */
  lemma {:induction false} QueuedAllIs(ps: seq<Initiator>, ids: seq<nat>, target: nat)
    requires forall i, j :: 0 <= i < j < |ps| ==> ps[i].device != ps[j].device
    requires forall i :: 0 <= i < |ps| ==> ps[i].device != 0
    ensures Requeued(ps, QueuedAll(ps, ids, target), ids, target)
  {
    hide Requeued, Queued;
    if ids == [] {
      NobodyTold(ps, target);
    } else {
      var rest, id := ids[..|ids| - 1], ids[|ids| - 1];
      QueuedAllIs(ps, rest, target);
      RequeuedMore(ps, QueuedAll(ps, rest, target), rest, id, target);
      assert ids == rest + [id];
    }
  }

  lemma NobodyTold(ps: seq<Initiator>, target: nat)
    ensures Requeued(ps, ps, [], target)
  {
    forall i | 0 <= i < |ps| ensures Told(ps[i], [], target) == ps[i] {
      assert ps[i].affected + [] == ps[i].affected;
    }
  }

  // All that waits, and all it waits for.
  function Load(ps: seq<Initiator>): nat {
    if ps == [] then 0 else 1 + |ps[0].affected| + Load(ps[1..])
  }

  lemma {:induction false} QueuedAdds(ps: seq<Initiator>, id: nat, target: nat)
    ensures Load(ps) < Load(Queued(ps, id, [target]))
  {
    if ps == [] || ps[0].device == id {
    } else {
      QueuedAdds(ps[1..], id, target);
    }
  }

  lemma {:induction false} QueuedAllAdds(ps: seq<Initiator>, ids: seq<nat>, target: nat)
    ensures Load(ps) <= Load(QueuedAll(ps, ids, target))
    ensures QueuedAll(ps, ids, target) == ps <==> forall i :: 0 <= i < |ids| ==> ids[i] == 0
  {
    hide Load, Queued;
    if ids == [] {
    } else {
      var rest, id := ids[..|ids| - 1], ids[|ids| - 1];
      QueuedAllAdds(ps, rest, target);
      QueuedAdds(QueuedAll(ps, rest, target), id, target);
      assert forall i :: 0 <= i < |rest| ==> rest[i] == ids[i];
    }
  }

  /** When a walk that finds no route has changed nothing at all, neither tables nor waiting list: exactly if no
      device but the root was on it, and the root had the route already. */
  lemma NothingHappens(ds: seq<Device>, ps: seq<Initiator>, q: RouteRequest, undefined: nat, maxHops: nat)
    requires DevicesOk(ds) && AddRoute(ds, ps, q, undefined, maxHops).outcome.NoRoute?
    ensures var r := AddRoute(ds, ps, q, undefined, maxHops);
      r.way == Walk(ds, 0, q.target, q.prev, maxHops).way
      && (r.devices == ds && r.planned == ps
          <==> forall i :: 0 <= i < |r.way| ==> ds[r.way[i]].id == 0 && Follows(ds[r.way[i]], q.target, q.prev))
  {
    hide Walk, Connected, QueuedAll, Follows, DevicesOk;
    var way := Walk(ds, 0, q.target, q.prev, maxHops).way;
    UnchangedWhen(ds, q.target, q.prev, maxHops);
    QueuedAllAdds(ps, IdsOf(ds, way), q.target);
    assert forall i :: 0 <= i < |way| ==> IdsOf(ds, way)[i] == ds[way[i]].id;
  }

  // --------------------------------------------------------------------------- walks without an end

  ghost predicate Running(ds: seq<Device>, dev: nat, target: nat, prev: nat, hops: nat) {
    Walk(ds, dev, target, prev, hops).outcome.StillWalking?
  }

  // Where the walk stands, if it goes on.
  ghost predicate GoesOn(ds: seq<Device>, dev: nat, prev: nat) {
    dev != prev && DeviceIndex(ds, dev) < |ds| && Hopped(ds[DeviceIndex(ds, dev)].planned, prev).HopTo?
  }

  ghost function NextDev(ds: seq<Device>, dev: nat, prev: nat): nat
    requires GoesOn(ds, dev, prev)
  {
    Hopped(ds[DeviceIndex(ds, dev)].planned, prev).next
  }

  ghost function Learned(ds: seq<Device>, dev: nat, target: nat, prev: nat): (ds': seq<Device>)
    requires DeviceIndex(ds, dev) < |ds|
    ensures |ds'| == |ds|
  {
    ds[DeviceIndex(ds, dev) := Routed(ds[DeviceIndex(ds, dev)], target, prev)]
  }

  // The devices, and the one the walk is at, after so many hops.
  ghost function After(ds: seq<Device>, dev: nat, target: nat, prev: nat, hops: nat): (r: (seq<Device>, nat))
    ensures |r.0| == |ds|
    decreases hops
  {
    if hops == 0 || !GoesOn(ds, dev, prev) then (ds, dev)
    else After(Learned(ds, dev, target, prev), NextDev(ds, dev, prev), target, prev, hops - 1)
  }

  // From dev, m hops read from devices that have learned the route lead to back.
  ghost predicate Leads(ds: seq<Device>, dev: nat, target: nat, prev: nat, m: nat, back: nat)
    decreases m
  {
    if m == 0 then dev == back
    else GoesOn(ds, dev, prev) && Learned(ds, dev, target, prev) == ds && Leads(ds, NextDev(ds, dev, prev), target, prev, m - 1, back)
  }

  // The walk goes round in a circle.
  ghost predicate Circling(ds: seq<Device>, dev: nat, target: nat, prev: nat, m: nat) {
    0 < m && Leads(ds, dev, target, prev, m, dev)
  }

  lemma RunningStep(ds: seq<Device>, dev: nat, target: nat, prev: nat, hops: nat)
    ensures Running(ds, dev, target, prev, hops)
            <==> if hops == 0 then dev != prev && DeviceIndex(ds, dev) < |ds|
                 else GoesOn(ds, dev, prev) && Running(Learned(ds, dev, target, prev), NextDev(ds, dev, prev), target, prev, hops - 1)
  {
    hide Hopped, Routed, DeviceIndex;
    WalkStops(ds, dev, target, prev, hops);
    if 0 < hops && GoesOn(ds, dev, prev) { WalkStep(ds, dev, target, prev, hops); }
  }

  lemma {:induction false} RunningEarlier(ds: seq<Device>, dev: nat, target: nat, prev: nat, hops: nat, less: nat)
    requires Running(ds, dev, target, prev, hops) && less <= hops
    ensures Running(ds, dev, target, prev, less)
    decreases hops
  {
    hide Running, Learned, Hopped;
    RunningStep(ds, dev, target, prev, hops);
    RunningStep(ds, dev, target, prev, less);
    if less == 0 {
    } else {
      RunningEarlier(Learned(ds, dev, target, prev), NextDev(ds, dev, prev), target, prev, hops - 1, less - 1);
    }
  }

  lemma {:induction false} RunningOn(ds: seq<Device>, dev: nat, target: nat, prev: nat, hops: nat, more: nat)
    requires var (ds1, dev1) := After(ds, dev, target, prev, hops);
      Running(ds, dev, target, prev, hops) && Running(ds1, dev1, target, prev, more)
    ensures Running(ds, dev, target, prev, hops + more)
    decreases hops
  {
    hide Running, Learned, Hopped;
    if hops == 0 {
    } else {
      RunningStep(ds, dev, target, prev, hops);
      RunningStep(ds, dev, target, prev, hops + more);
      RunningOn(Learned(ds, dev, target, prev), NextDev(ds, dev, prev), target, prev, hops - 1, more);
    }
  }

  // In a circle the walk never ends.
  lemma {:induction false} CircleRuns(ds: seq<Device>, dev: nat, target: nat, prev: nat, left: nat, back: nat, m: nat, hops: nat)
    requires Circling(ds, back, target, prev, m) && Leads(ds, dev, target, prev, left, back)
    ensures Running(ds, dev, target, prev, hops)
    decreases hops
  {
    hide Running, Learned, Hopped;
    RunningStep(ds, dev, target, prev, hops);
    var l := if left == 0 then m else left;
    assert Leads(ds, dev, target, prev, l, back) && 0 < l;
    if hops == 0 {
    } else {
      CircleRuns(ds, NextDev(ds, dev, prev), target, prev, l - 1, back, m, hops - 1);
    }
  }

  // The places on the path have learned the route, and each sends the walk on to the next, the last to dev.
  ghost predicate Trail(ds: seq<Device>, path: seq<nat>, dev: nat, target: nat, prev: nat) {
    forall i :: 0 <= i < |path| ==> OnTrail(ds, path, i, dev, target, prev)
  }

  ghost predicate OnTrail(ds: seq<Device>, path: seq<nat>, i: nat, dev: nat, target: nat, prev: nat)
    requires i < |path|
  {
    && path[i] < |ds| && DeviceIndex(ds, ds[path[i]].id) == path[i]
    && GoesOn(ds, ds[path[i]].id, prev) && Learned(ds, ds[path[i]].id, target, prev) == ds
    && NextDev(ds, ds[path[i]].id, prev) == NextOnWay(ds, path, i, dev)
  }

  lemma {:induction false} TrailLeads(ds: seq<Device>, path: seq<nat>, i: nat, dev: nat, target: nat, prev: nat)
    requires Trail(ds, path, dev, target, prev) && i <= |path|
    ensures Leads(ds, if i < |path| && path[i] < |ds| then ds[path[i]].id else dev, target, prev, |path| - i, dev)
    decreases |path| - i
  {
    hide GoesOn, Learned, NextDev;
    if i == |path| {
    } else {
      assert OnTrail(ds, path, i, dev, target, prev);
      TrailLeads(ds, path, i + 1, dev, target, prev);
      assert i + 1 < |path| ==> OnTrail(ds, path, i + 1, dev, target, prev);
    }
  }

  lemma TrailMore(ds: seq<Device>, path: seq<nat>, dev: nat, target: nat, prev: nat)
    requires Trail(ds, path, dev, target, prev) && GoesOn(ds, dev, prev) && Learned(ds, dev, target, prev) == ds
    ensures Trail(ds, path + [DeviceIndex(ds, dev)], NextDev(ds, dev, prev), target, prev)
  {
    hide Learned, NextDev;
    var k := DeviceIndex(ds, dev);
    var all := path + [k];
    forall i | 0 <= i < |all| ensures OnTrail(ds, all, i, NextDev(ds, dev, prev), target, prev) {
      if i < |path| {
        assert OnTrail(ds, path, i, dev, target, prev);
        assert all[i] == path[i] && all[i + 1] == if i + 1 < |path| then path[i + 1] else k;
        if i + 1 < |path| { assert OnTrail(ds, path, i + 1, dev, target, prev); }
        assert NextOnWay(ds, all, i, NextDev(ds, dev, prev)) == NextOnWay(ds, path, i, dev);
      }
    }
  }

  // Different places, all seen, are no more than those seen.
  lemma {:induction false} PathFits(path: seq<nat>, seen: set<nat>)
    requires AllNew(path, {}) && forall i :: 0 <= i < |path| ==> path[i] in seen
    ensures |path| <= |seen|
  {
    if path == [] {
    } else {
      var k := |path| - 1;
      PathFits(path[..k], seen - {path[k]});
    }
  }

  lemma NewAtTheEnd(path: seq<nat>, k: nat)
    requires AllNew(path, {}) && k !in path
    ensures AllNew(path + [k], {})
  {
  }

  // Hops enough to find a circle when seen of n devices have learned the route and the last path of them have
  // been met since.
  function Enough(n: nat, seen: nat, path: nat): int {
    (n - seen) * (n + 1) + seen - path
  }

  lemma EnoughLeft(n: nat, seen: nat, path: nat)
    requires path <= seen < n
    ensures Enough(n, seen + 1, 0) < Enough(n, seen, path)
  {
    assert (n - seen) * (n + 1) == (n - seen - 1) * (n + 1) + (n + 1);
  }

  lemma EnoughIsNat(n: nat, seen: nat, path: nat)
    requires path <= seen <= n
    ensures 0 <= Enough(n, seen, path)
  {
  }

  ghost predicate AllLearned(ds: seq<Device>, seen: set<nat>, target: nat, prev: nat) {
    forall k :: k in seen ==> k < |ds| && Routed(ds[k], target, prev) == ds[k]
  }

  lemma OneMoreLearned(ds: seq<Device>, seen: set<nat>, dev: nat, target: nat, prev: nat)
    requires AllLearned(ds, seen, target, prev) && DeviceIndex(ds, dev) < |ds|
    requires forall k :: 0 <= k < |ds| ==> Sorted(ds[k].planned.routes)
    ensures AllLearned(Learned(ds, dev, target, prev), seen + {DeviceIndex(ds, dev)}, target, prev)
    ensures forall k :: 0 <= k < |ds| ==> Sorted(Learned(ds, dev, target, prev)[k].planned.routes)
    ensures DeviceIndex(ds, dev) in seen ==> Learned(ds, dev, target, prev) == ds
  {
    hide Routed, Sorted;
    var k := DeviceIndex(ds, dev);
    RoutedTwice(ds[k], target, prev);
    RoutedLookup(ds[k], target, prev, target);
  }

  /** A walk that goes on for long enough has come into a circle. */
  lemma {:induction false} FindCircle(ds: seq<Device>, dev: nat, target: nat, prev: nat, seen: set<nat>, path: seq<nat>, hops: nat)
      returns (h: nat, m: nat)
    requires forall k :: 0 <= k < |ds| ==> Sorted(ds[k].planned.routes)
    requires AllLearned(ds, seen, target, prev) && Trail(ds, path, dev, target, prev) && AllNew(path, {})
    requires forall i :: 0 <= i < |path| ==> path[i] in seen
    requires Enough(|ds|, |seen|, |path|) <= hops && Running(ds, dev, target, prev, hops)
    ensures h <= hops && var (ds1, dev1) := After(ds, dev, target, prev, h); Circling(ds1, dev1, target, prev, m)
    decreases hops
  {
    hide Running, Trail, AllLearned, Leads, GoesOn, Learned, NextDev, Sorted, Enough;
    var k := DeviceIndex(ds, dev);
    RunningStep(ds, dev, target, prev, hops);
    StandsSomewhere(ds, dev, prev);
    PathFits(path, seen);
    if k in path {
      var i: nat :| i < |path| && path[i] == k;
      TrailLeads(ds, path, i, dev, target, prev);
      return 0, |path| - i;
    }
    OneMoreLearned(ds, seen, dev, target, prev);
    SeenIsBelow(ds, seen, target, prev);
    Fewer(seen + {k}, Below(|ds|));
    if k in seen {
      assert seen + {k} == seen;
      NewAtTheEnd(path, k);
      PathFits(path + [k], seen);
      OneLess(|ds|, |seen|, |path|);
      TrailMore(ds, path, dev, target, prev);
      h, m := FindCircle(ds, NextDev(ds, dev, prev), target, prev, seen, path + [k], hops - 1);
    } else {
      EnoughLeft(|ds|, |seen|, |path|);
      EnoughIsNat(|ds|, |seen| + 1, 0);
      var ds1 := Learned(ds, dev, target, prev);
      NoTrail(ds1, NextDev(ds, dev, prev), target, prev);
      h, m := FindCircle(ds1, NextDev(ds, dev, prev), target, prev, seen + {k}, [], hops - 1);
    }
    h := h + 1;
  }

  lemma StandsSomewhere(ds: seq<Device>, dev: nat, prev: nat)
    ensures GoesOn(ds, dev, prev) ==> dev != prev && DeviceIndex(ds, dev) < |ds|
  {
  }

  lemma OneLess(n: nat, seen: nat, path: nat)
    requires path + 1 <= seen <= n
    ensures Enough(n, seen, path + 1) == Enough(n, seen, path) - 1 && 0 < Enough(n, seen, path)
  {
  }

  lemma NoTrail(ds: seq<Device>, dev: nat, target: nat, prev: nat)
    ensures Trail(ds, [], dev, target, prev) && AllNew([], {})
  {
  }

  lemma SeenIsBelow(ds: seq<Device>, seen: set<nat>, target: nat, prev: nat)
    requires AllLearned(ds, seen, target, prev)
    ensures forall k :: k in seen ==> k < |ds|
  {
  }

  /** When a walk never ends: exactly if, after some hops, it is in a circle of hops read from devices that have
      learned the route; and exactly if it is still going on after |ds| * (|ds| + 1) hops. */
  lemma EndlessWhen(ds: seq<Device>, target: nat, prev: nat)
    requires forall k :: 0 <= k < |ds| ==> Sorted(ds[k].planned.routes)
    ensures (forall hops: nat :: Running(ds, 0, target, prev, hops)) <==> Running(ds, 0, target, prev, |ds| * (|ds| + 1))
    ensures (forall hops: nat :: Running(ds, 0, target, prev, hops))
            <==> exists h: nat, m: nat :: EntersCircle(ds, target, prev, h, m)
  {
    hide Running, Circling, After, AllLearned, Trail;
    var n := |ds| * (|ds| + 1);
    if Running(ds, 0, target, prev, n) {
      NoTrail(ds, 0, target, prev);
      NothingLearned(ds, target, prev);
      EnoughAtFirst(|ds|);
      var h, m := FindCircle(ds, 0, target, prev, {}, [], n);
      RunningEarlier(ds, 0, target, prev, n, h);
      assert EntersCircle(ds, target, prev, h, m);
    }
    if exists h: nat, m: nat :: EntersCircle(ds, target, prev, h, m) {
      var h: nat, m: nat :| EntersCircle(ds, target, prev, h, m);
      forall hops: nat ensures Running(ds, 0, target, prev, hops) {
        EnteredRuns(ds, target, prev, h, m, hops);
      }
    }
  }

  // After h hops the walk goes on, round a circle of m devices.
  ghost predicate EntersCircle(ds: seq<Device>, target: nat, prev: nat, h: nat, m: nat) {
    Running(ds, 0, target, prev, h)
    && Circling(After(ds, 0, target, prev, h).0, After(ds, 0, target, prev, h).1, target, prev, m)
  }

  lemma NothingLearned(ds: seq<Device>, target: nat, prev: nat)
    ensures AllLearned(ds, {}, target, prev)
  {
  }

  lemma EnoughAtFirst(n: nat)
    ensures Enough(n, 0, 0) == n * (n + 1)
  {
  }

  lemma EnteredRuns(ds: seq<Device>, target: nat, prev: nat, h: nat, m: nat, hops: nat)
    requires EntersCircle(ds, target, prev, h, m)
    ensures Running(ds, 0, target, prev, hops)
  {
    hide Running, After;
    if hops <= h {
      RunningEarlier(ds, 0, target, prev, h, hops);
    } else {
      var (ds1, dev1) := After(ds, 0, target, prev, h);
      CircleRuns(ds1, dev1, target, prev, m, dev1, m, hops - h);
      RunningOn(ds, 0, target, prev, h, hops - h);
    }
  }
}
