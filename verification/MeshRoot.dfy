/** The root of the mesh: it plans routes, computes updates, keeps at most one in flight per device, applies
    it on acknowledgement and falls back to a full rewrite on failure. */
module MeshRootModule {
  import opened Wrappers
  import opened Tables
  import opened MeshState
  import opened Routes

  datatype NextResult = NoUpdates | NoReadyUpdates | Issue(update: Update)

  // Nothing to send: the device is not being updated, and no difference is left.
  ghost predicate Idle(p: Initiator, ds: seq<Device>, us: seq<Update>) {
    && !InFlight(us, p.device) && !p.full
    && (exists k :: 0 <= k < |ds| && ds[k].id == p.device && ds[k].confirmed == ds[k].planned)
  }

  predicate ToSend(p: Initiator, d: Device) {
    if p.full then d.planned != NO_ROUTING else d.confirmed != d.planned
  }

  // Something to send, and free to send it. (A full rewrite to empty tables has nothing to send.)
  ghost predicate Ready(p: Initiator, ds: seq<Device>, us: seq<Update>) {
    && !InFlight(us, p.device)
    && (exists k :: 0 <= k < |ds| && ds[k].id == p.device && ToSend(p, ds[k]))
  }

  ghost function WithoutIdle(ps: seq<Initiator>, ds: seq<Device>, us: seq<Update>): (r: seq<Initiator>)
    ensures |r| <= |ps|
  {
    if ps == [] then []
    else
      var r := WithoutIdle(ps[..|ps| - 1], ds, us);
      if Idle(ps[|ps| - 1], ds, us) then r else r + [ps[|ps| - 1]]
  }

  lemma WithoutIdleStep(ps: seq<Initiator>, n: nat, ds: seq<Device>, us: seq<Update>)
    requires n < |ps|
    ensures WithoutIdle(ps[..n + 1], ds, us)
            == if Idle(ps[n], ds, us) then WithoutIdle(ps[..n], ds, us) else WithoutIdle(ps[..n], ds, us) + [ps[n]]
  {
    assert ps[..n + 1][..n] == ps[..n];
  }

  // The search has passed the first n of the initiators ps: none of them was ready, the idle ones are gone
  // from the list, and the search stands at place it of what is left.
  ghost predicate Scanned(ps: seq<Initiator>, now: seq<Initiator>, it: nat, n: nat, ds: seq<Device>, us: seq<Update>) {
    && n <= |ps| && it <= |now|
    && now[..it] == WithoutIdle(ps[..n], ds, us) && now[it..] == ps[n..]
    && forall i :: 0 <= i < n ==> !Ready(ps[i], ds, us)
  }

  lemma ScanStart(ps: seq<Initiator>, ds: seq<Device>, us: seq<Update>)
    ensures Scanned(ps, ps, 0, 0, ds, us)
  {
  }

  lemma ScanStep(ps: seq<Initiator>, now: seq<Initiator>, it: nat, n: nat, ds: seq<Device>, us: seq<Update>)
    requires Scanned(ps, now, it, n, ds, us) && it < |now|
    ensures n < |ps| && now[it] == ps[n]
    ensures !Ready(ps[n], ds, us) && !Idle(ps[n], ds, us) ==> Scanned(ps, now, it + 1, n + 1, ds, us)
    ensures !Ready(ps[n], ds, us) && Idle(ps[n], ds, us) ==> Scanned(ps, now[..it] + now[it + 1..], it, n + 1, ds, us)
    ensures now[..it] + now[it + 1..] == WithoutIdle(ps[..n], ds, us) + ps[n + 1..]
    ensures forall i :: 0 <= i < n ==> !Ready(ps[i], ds, us)
  {
    hide Ready, Idle, WithoutIdle;
    var rest := now[it..];
    assert now[it] == rest[0] == ps[n] && now[it + 1..] == rest[1..] == ps[n + 1..];
    WithoutIdleStep(ps, n, ds, us);
    assert now[..it + 1] == now[..it] + [now[it]];
    var dropped := now[..it] + now[it + 1..];
    assert dropped[..it] == now[..it] && dropped[it..] == now[it + 1..];
  }

  lemma ScanEnd(ps: seq<Initiator>, now: seq<Initiator>, it: nat, n: nat, ds: seq<Device>, us: seq<Update>)
    requires Scanned(ps, now, it, n, ds, us) && it == |now|
    ensures n == |ps| && now == WithoutIdle(ps[..n], ds, us) + [] && forall i :: 0 <= i < n ==> !Ready(ps[i], ds, us)
  {
    assert |now[it..]| == 0 == |ps[n..]|;
    assert now[..it] == now == now + [];
  }

  lemma DeviceTables(ds: seq<Device>, ps: seq<Initiator>, us: seq<Update>, issued: map<nat, Routing>, k: nat)
    requires StateOk(ds, ps, us, issued) && k < |ds|
    ensures RoutingOk(ds[k].planned) && Sorted(ds[k].planned.routes) && Sorted(ds[k].planned.links)
    ensures ds[k].id == 0 ==> ds[k].confirmed == ds[k].planned
  {
    OneDevice(ds, 0);
  }

  lemma StateDevices(ds: seq<Device>, ps: seq<Initiator>, us: seq<Update>, issued: map<nat, Routing>)
    requires StateOk(ds, ps, us, issued)
    ensures DevicesOk(ds)
  {
  }

  // One turn of the search for the next update.
  datatype Turn = Skip | Drop | Send(update: Update)

  // The update says what is needed and nothing else: every entry of the planned tables if it clears the tables
  // first, else only the differences; both in the order of keys.
  ghost predicate SaysWhatIsNeeded(u: Update, d: Device) {
    if u.clearFirst then Rewrites(d.planned.routes, u.routes) && Rewrites(d.planned.links, u.links)
    else
      && Needed(d.confirmed.routes, d.planned.routes, u.routes) && Ascending(u.routes)
      && Needed(d.confirmed.links, d.planned.links, u.links) && Ascending(u.links)
  }

  // u has been issued for p: it is the last one in flight, and takes its device's confirmed tables to the
  // planned ones, which are remembered.
  ghost predicate IssuedFor(p: Initiator, u: Update, ds: seq<Device>, us: seq<Update>, us': seq<Update>,
                            issued: map<nat, Routing>, issued': map<nat, Routing>) {
    && u.device == p.device && u.device != 0 && u.clearFirst == p.full
    && us' == us + [u]
    && (exists k :: 0 <= k < |ds| && ds[k].id == u.device && SaysWhatIsNeeded(u, ds[k])
                    && Applied(u, ds[k].confirmed) == ds[k].planned && issued' == issued[u.device := ds[k].planned])
  }

  // The update for dev, and it alone, is no longer in flight.
  ghost predicate Landed(us: seq<Update>, us': seq<Update>, dev: nat) {
    exists m :: 0 <= m < |us| && us[m].device == dev && us' == us[..m] + us[m + 1..]
  }

  // The waiting list with device dev on it for a full rewrite: it keeps its place, or comes first.
  ghost function FullQueued(ps: seq<Initiator>, dev: nat): seq<Initiator> {
    if Waiting(ps, dev) then
      seq(|ps|, i requires 0 <= i < |ps| => if ps[i].device == dev then ps[i].(full := true) else ps[i])
    else
      [Initiator(dev, true, [])] + ps
  }

  lemma TheDevice(ds: seq<Device>, p: Initiator, us: seq<Update>, k: nat)
    requires DevicesOk(ds) && k < |ds| && ds[k].id == p.device
    ensures Idle(p, ds, us) <==> !InFlight(us, p.device) && !p.full && ds[k].confirmed == ds[k].planned
    ensures Ready(p, ds, us) <==> !InFlight(us, p.device) && ToSend(p, ds[k])
  {
    OneDevice(ds, k);
  }

  lemma OneDevice(ds: seq<Device>, k: nat)
    requires DevicesOk(ds) && k < |ds|
    ensures forall j :: 0 <= j < |ds| && ds[j].id == ds[k].id ==> j == k
  {
  }

  lemma OncePerDeviceWaiting(ds: seq<Device>, ps: seq<Initiator>, us: seq<Update>, issued: map<nat, Routing>)
    requires StateOk(ds, ps, us, issued)
    ensures forall i, j :: 0 <= i < j < |ps| ==> ps[i].device != ps[j].device
    ensures forall i :: 0 <= i < |ps| ==> ps[i].device != 0
  {
  }

  lemma WaitingIsKnown(ds: seq<Device>, ps: seq<Initiator>, us: seq<Update>, issued: map<nat, Routing>, i: nat)
    requires StateOk(ds, ps, us, issued) && i < |ps|
    ensures DevicesOk(ds) && HasDevice(ds, ps[i].device) && ps[i].device != 0
  {
  }

  lemma FlightIsKnown(ds: seq<Device>, ps: seq<Initiator>, us: seq<Update>, issued: map<nat, Routing>, m: nat)
    requires StateOk(ds, ps, us, issued) && m < |us|
    ensures HasDevice(ds, us[m].device) && us[m].device in issued
    ensures forall i, j :: 0 <= i < j < |us| ==> us[i].device != us[j].device
  {
  }

  lemma TablesSorted(ds: seq<Device>, ps: seq<Initiator>, us: seq<Update>, issued: map<nat, Routing>, k: nat)
    requires StateOk(ds, ps, us, issued) && k < |ds|
    ensures Sorted(ds[k].confirmed.routes) && Sorted(ds[k].confirmed.links)
    ensures Sorted(ds[k].planned.routes) && Sorted(ds[k].planned.links)
  {
  }

  lemma AppliedIs(u: Update, t: Routing)
    ensures Applied(u, t) == Routing(ApplyAll(Base(u, t).routes, u.routes), ApplyAll(Base(u, t).links, u.links))
    ensures Fits(u, t) ==> Applicable(Base(u, t).routes, u.routes) && Applicable(Base(u, t).links, u.links)
  {
  }

  class MeshRoot {
    var devices: seq<Device>
    var planned: seq<Initiator>
    var inProgress: seq<Update>
    ghost var issued: map<nat, Routing>  // for each device, what was planned when its last update was issued
    const undefinedLink: nat

    ghost predicate Valid()
      reads this
    {
      StateOk(devices, planned, inProgress, issued)
    }

    constructor (undefinedLink: nat)
      ensures Valid() && devices == [Device(0, NO_ROUTING, NO_ROUTING)] && planned == [] && inProgress == []
      ensures this.undefinedLink == undefinedLink
    {
      devices := [Device(0, NO_ROUTING, NO_ROUTING)];
      planned, inProgress := [], [];
      issued := map[];
      this.undefinedLink := undefinedLink;
    }

    // The index of the device with the given id, the number of devices if there is none.
    method FindDevice(id: nat) returns (k: nat)
      ensures k == DeviceIndex(devices, id)
      ensures k == |devices| <==> !HasDevice(devices, id)
    {
      k := 0;
      while k < |devices|
        invariant 0 <= k <= |devices| && forall i :: 0 <= i < k ==> devices[i].id != id
      {
        if devices[k].id == id {
          DeviceIndexIs(devices, id, k);
          return;
        }
        k := k + 1;
      }
      DeviceIndexIs(devices, id, k);
    }

    method AddDevice(id: nat) returns (ok: bool)
      requires Valid()
      modifies this`devices
      ensures Valid()
      ensures ok <==> !HasDevice(old(devices), id)
      ensures devices == if ok then old(devices) + [Device(id, NO_ROUTING, NO_ROUTING)] else old(devices)
    {
      var k := FindDevice(id);
      if k < |devices| { return false; }
      Joined(devices, planned, inProgress, issued, id);
      devices := devices + [Device(id, NO_ROUTING, NO_ROUTING)];
      return true;
    }

    // ------------------------------------------------------------------------- issuing updates

    // Whether an update for the device is in flight.
    method IsInFlight(dev: nat) returns (r: bool)
      ensures r <==> InFlight(inProgress, dev)
    {
      var i := 0;
      while i < |inProgress|
        invariant 0 <= i <= |inProgress| && forall j :: 0 <= j < i ==> inProgress[j].device != dev
      {
        if inProgress[i].device == dev { return true; }
        i := i + 1;
      }
      return false;
    }

    // The update that takes device k from its confirmed to its planned tables, with what is needed for that and
    // nothing else.
    method Compute(k: nat, full: bool) returns (u: Update)
      requires Valid() && k < |devices|
      ensures u.device == devices[k].id && u.clearFirst == full && SaysWhatIsNeeded(u, devices[k])
      ensures Fits(u, devices[k].confirmed) && Applied(u, devices[k].confirmed) == devices[k].planned
      ensures u.routes == [] && u.links == [] <==> if full then devices[k].planned == NO_ROUTING else devices[k].confirmed == devices[k].planned
    {
      var d := devices[k];
      if full {
        var routes := FullUpdate(d.planned.routes);
        var links := FullUpdate(d.planned.links);
        u := Update(d.id, true, routes, links);
      } else {
        var routes := Diff(d.confirmed.routes, d.planned.routes);
        var links := Diff(d.confirmed.links, d.planned.links);
        u := Update(d.id, false, routes, links);
      }
    }

    // One turn of the search for the next update, at the waiting list's entry it.
    method Consider(it: nat) returns (turn: Turn)
      requires Valid() && it < |planned|
      modifies this
      ensures Valid() && devices == old(devices)
      ensures var p, rest := old(planned[it]), old(planned[..it] + planned[it + 1..]);
        match turn
        case Skip =>
          && !Idle(p, devices, old(inProgress)) && !Ready(p, devices, old(inProgress))
          && planned == old(planned) && inProgress == old(inProgress) && issued == old(issued)
        case Drop =>
          && Idle(p, devices, old(inProgress)) && !Ready(p, devices, old(inProgress))
          && planned == rest && inProgress == old(inProgress) && issued == old(issued)
        case Send(u) =>
          && Ready(p, devices, old(inProgress)) && planned == rest
          && IssuedFor(p, u, devices, old(inProgress), inProgress, old(issued), issued)
    {
      hide Fits, Applied, SaysWhatIsNeeded, StateOk, DevicesOk, Idle, Ready, InFlight, HasDevice;
      var p := planned[it];
      WaitingIsKnown(devices, planned, inProgress, issued, it);
      var k := FindDevice(p.device);
      TheDevice(devices, p, inProgress, k);
      var busy := IsInFlight(p.device);
      if busy { return Skip; }
      var u := Compute(k, p.full);
      if |u.routes| + |u.links| == 0 {
        if !p.full {
          Dropped(devices, planned, inProgress, issued, it, k);
          planned := planned[..it] + planned[it + 1..];
          return Drop;
        }
        return Skip;
      }
      Issued(devices, planned, inProgress, issued, it, k, u);
      planned := planned[..it] + planned[it + 1..];
      inProgress := inProgress + [u];
      issued := issued[u.device := devices[k].planned];
      return Send(u);
    }

    /** Issues the update of the first waiting device that is ready for one, dropping on the way those that
        turned out to be up to date; n is that device's place among those that waited. */
    method GetNextUpdate() returns (r: NextResult, ghost n: nat)
      requires Valid()
      modifies this
      ensures Valid() && devices == old(devices)
      ensures r.NoUpdates? <==> old(planned) == []
      ensures n <= |old(planned)| && (r.Issue? <==> n < |old(planned)|)
      ensures forall i :: 0 <= i < n ==> !Ready(old(planned)[i], devices, old(inProgress))
      ensures planned == WithoutIdle(old(planned)[..n], devices, old(inProgress)) + if r.Issue? then old(planned)[n + 1..] else []
      ensures !r.Issue? ==> inProgress == old(inProgress) && issued == old(issued)
      ensures r.Issue? ==> Ready(old(planned)[n], devices, old(inProgress))
      ensures r.Issue? ==> IssuedFor(old(planned)[n], r.update, devices, old(inProgress), inProgress, old(issued), issued)
    {
      hide StateOk, WithoutIdle, Idle, Ready, IssuedFor, Scanned;
      ghost var ps, us := planned, inProgress;
      n := 0;
      ScanStart(ps, devices, us);
      if planned == [] {
        ScanEnd(ps, planned, 0, 0, devices, us);
        return NoUpdates, 0;
      }
      var it := 0;
      while it < |planned|
        invariant 0 <= it <= |planned| && Valid() && Scanned(ps, planned, it, n, devices, us)
        invariant inProgress == us && devices == old(devices) && issued == old(issued)
        decreases |planned| - it
      {
        ScanStep(ps, planned, it, n, devices, us);
        var turn := Consider(it);
        match turn {
          case Skip =>
            it := it + 1;
          case Drop =>
          case Send(u) =>
            return Issue(u), n;
        }
        n := n + 1;
      }
      ScanEnd(ps, planned, it, n, devices, us);
      return NoReadyUpdates, n;
    }

    // --------------------------------------------------------------------- outcomes of updates

    // The place of the device's update in flight, the number of updates if there is none.
    method FindUpdate(dev: nat) returns (m: nat)
      ensures m <= |inProgress| && (m < |inProgress| ==> inProgress[m].device == dev)
      ensures m == |inProgress| <==> !InFlight(inProgress, dev)
    {
      m := 0;
      while m < |inProgress|
        invariant 0 <= m <= |inProgress| && forall j :: 0 <= j < m ==> inProgress[j].device != dev
      {
        if inProgress[m].device == dev { return; }
        m := m + 1;
      }
    }

    /** The device has acknowledged its update: its confirmed tables become those that were planned when the
        update was issued, whatever has been planned since. */
    method UpdateDone(dev: nat) returns (ok: bool)
      requires Valid()
      modifies this`devices, this`inProgress
      ensures Valid()
      ensures ok <==> InFlight(old(inProgress), dev)
      ensures !ok ==> devices == old(devices) && inProgress == old(inProgress)
      ensures ok ==> !InFlight(inProgress, dev) && Landed(old(inProgress), inProgress, dev) && dev in issued
      ensures ok ==> |devices| == |old(devices)| && forall k :: 0 <= k < |devices| ==>
        devices[k] == if old(devices)[k].id == dev then old(devices)[k].(confirmed := issued[dev]) else old(devices)[k]
    {
      hide Fits, Applied, FlightsOk, WaitingOk, DeviceSynced, RoutingOk, HasDevice;
      var m := FindUpdate(dev);
      if m == |inProgress| { return false; }
      var u := inProgress[m];
      FlightIsKnown(devices, planned, inProgress, issued, m);
      var k := FindDevice(dev);
      Acknowledged(devices, planned, inProgress, issued, m, k);
      FlightLess(inProgress, m, dev);
      OneDevice(devices, k);
      var base := if u.clearFirst then NO_ROUTING else devices[k].confirmed;
      TablesSorted(devices, planned, inProgress, issued, k);
      var routes, routesFound := Apply(base.routes, u.routes);
      var links, linksFound := Apply(base.links, u.links);
      AppliedIs(u, devices[k].confirmed);
      assert routesFound && linksFound;
      devices := devices[k := devices[k].(confirmed := Routing(routes, links))];
      inProgress := inProgress[..m] + inProgress[m + 1..];
      return true;
    }

    /** The update was not delivered: the device goes back to the waiting list, to be rewritten in full. */
    method UpdateFailed(dev: nat) returns (ok: bool)
      requires Valid()
      modifies this`planned, this`inProgress
      ensures Valid()
      ensures ok <==> InFlight(old(inProgress), dev)
      ensures !ok ==> planned == old(planned) && inProgress == old(inProgress)
      ensures ok ==> !InFlight(inProgress, dev) && Landed(old(inProgress), inProgress, dev)
      ensures ok ==> planned == FullQueued(old(planned), dev)
      ensures ok && !Waiting(old(planned), dev) ==>
                |planned| == |old(planned)| + 1 && planned[0] == Initiator(dev, true, []) && planned[1..] == old(planned)
      ensures ok && Waiting(old(planned), dev) ==>
                && |planned| == |old(planned)|
                && forall i :: 0 <= i < |planned| ==>
                     if old(planned)[i].device == dev then planned[i] == Initiator(dev, true, old(planned)[i].affected)
                     else planned[i] == old(planned)[i]
    {
      hide Fits, Applied, FlightsOk, DeviceSynced, RoutingOk, HasDevice;
      var m := FindUpdate(dev);
      if m == |inProgress| { return false; }
      FlightIsKnown(devices, planned, inProgress, issued, m);
      ghost var ps := planned;
      QueueFull(dev);
      Failed(devices, ps, inProgress, issued, m, planned);
      FlightLess(inProgress, m, dev);
      inProgress := inProgress[..m] + inProgress[m + 1..];
      return true;
    }

    method QueueFull(dev: nat)
      requires forall i, j :: 0 <= i < j < |planned| ==> planned[i].device != planned[j].device
      modifies this`planned
      ensures SameWaiting(old(planned), planned, dev) && planned == FullQueued(old(planned), dev)
      ensures !Waiting(old(planned), dev) ==>
                |planned| == |old(planned)| + 1 && planned[0] == Initiator(dev, true, []) && planned[1..] == old(planned)
      ensures Waiting(old(planned), dev) ==>
                && |planned| == |old(planned)|
                && forall i :: 0 <= i < |planned| ==>
                     if old(planned)[i].device == dev then planned[i] == Initiator(dev, true, old(planned)[i].affected)
                     else planned[i] == old(planned)[i]
    {
      ghost var ps := planned;
      var i := 0;
      while i < |planned|
        invariant 0 <= i <= |planned| && forall j :: 0 <= j < i ==> planned[j].device != dev
      {
        if planned[i].device == dev {
          planned := planned[i := planned[i].(full := true)];
          forall j | 0 <= j < |ps| ensures Waiting(planned, ps[j].device) {
            assert planned[j].device == ps[j].device;
          }
          assert planned[i].device == dev;
          assert planned == FullQueued(ps, dev);
          return;
        }
        i := i + 1;
      }
      planned := [Initiator(dev, true, [])] + planned;
      forall j | 0 <= j < |ps| ensures Waiting(planned, ps[j].device) {
        assert planned[j + 1].device == ps[j].device;
      }
      forall j | 0 <= j < |planned| ensures planned[j].device == dev || Waiting(ps, planned[j].device) {
        if j > 0 { assert ps[j - 1].device == planned[j].device; }
      }
      assert planned[0].device == dev;
    }

    // ------------------------------------------------------------------------------ planning routes

    // Puts the device on the waiting list, or adds the affected route to the initiator it has there.
    method QueueUpdate(dev: nat, affected: nat)
      requires forall i, j :: 0 <= i < j < |planned| ==> planned[i].device != planned[j].device
      modifies this`planned
      ensures planned == Queued(old(planned), dev, [affected]) && SameWaiting(old(planned), planned, dev)
    {
      var i := 0;
      while i < |planned|
        invariant 0 <= i <= |planned| && forall j :: 0 <= j < i ==> planned[j].device != dev
      {
        if planned[i].device == dev {
          QueuedIs(planned, dev, [affected], i);
          QueuedWaits(planned, dev, [affected], i);
          planned := planned[i := planned[i].(affected := planned[i].affected + [affected])];
          return;
        }
        i := i + 1;
      }
      QueuedIs(planned, dev, [affected], |planned|);
      QueuedWaits(planned, dev, [affected], |planned|);
      planned := planned + [Initiator(dev, false, [affected])];
    }

    // Device k gets the planned tables t. The root's confirmed tables, rewritten in the same way, follow at
    // once; any other device has to be told.
    method Plan(k: nat, t: Routing, rootCopy: Routing, affected: nat)
      requires Valid() && k < |devices| && RoutingOk(t) && (devices[k].id == 0 ==> rootCopy == t)
      modifies this`devices, this`planned
      ensures Valid()
      ensures devices == old(devices)[k := Device(old(devices[k]).id, if old(devices[k]).id == 0 then t else old(devices[k]).confirmed, t)]
      ensures planned == if old(devices[k]).id == 0 then old(planned) else Queued(old(planned), old(devices[k]).id, [affected])
    {
      hide DevicesOk, FlightsOk, RoutingOk, DeviceSynced;
      ghost var ps := planned;
      var d := devices[k];
      if d.id == 0 {
        Planned(devices, ps, inProgress, issued, k, t, planned);
        devices := devices[k := Device(d.id, rootCopy, t)];
      } else {
        QueueUpdate(d.id, affected);
        Planned(devices, ps, inProgress, issued, k, t, planned);
        devices := devices[k := Device(d.id, d.confirmed, t)];
      }
    }

    // The place of key k in a table, its length if it is not there.
    method FindKey<V>(t: seq<Entry<V>>, k: nat) returns (i: nat)
      ensures i == IndexOf(t, k) && (i == |t| <==> !HasKey(t, k))
    {
      i := 0;
      while i < |t|
        invariant 0 <= i <= |t| && forall j :: 0 <= j < i ==> t[j].key != k
      {
        if t[i].key == k { return; }
        i := i + 1;
      }
    }

    // One device on the way from the root: it learns to reach target the way it reaches prev, and the walk
    // goes on to the hop the program takes next.
    method Hop(k: nat, target: nat, prev: nat) returns (r: HopResult)
      requires Valid() && k < |devices|
      modifies this`devices, this`planned
      ensures Valid() && r == Hopped(old(devices[k]).planned, prev)
      ensures !r.HopTo? ==> devices == old(devices) && planned == old(planned)
      ensures r.HopTo? ==> devices == old(devices)[k := Routed(old(devices[k]), target, prev)]
      ensures r.HopTo? ==> planned == QueuedAll(old(planned), [old(devices[k]).id], target)
    {
      hide StateOk, HasKey, RoutingOk, Put, Lookup, Queued;
      var d := devices[k];
      DeviceTables(devices, planned, inProgress, issued, k);
      QueuedOneMore(planned, [], d.id, target);
      var i := FindKey(d.planned.routes, prev);
      if i == |d.planned.routes| { return HopNone; }
      var link := d.planned.routes[i].val;
      var j := FindKey(d.planned.links, link);
      if j == |d.planned.links| { return HopNone; }
      if i >= |d.planned.links| { return HopUndefined; }
      var next := d.planned.links[i].val.nextHop;
      PutRouteOk(d.planned, target, link);
      LookupIs(d.planned.routes, i);
      var routes := AddOrUpdate(d.planned.routes, Entry(target, link));
      var rootRoutes := routes;
      if d.id == 0 {
        rootRoutes := AddOrUpdate(d.confirmed.routes, Entry(target, link));
      }
      Plan(k, d.planned.(routes := routes), d.confirmed.(routes := rootRoutes), target);
      return HopTo(next);
    }

    // The link to target in a link table: the first one that leads there, now on the given bus, or a new one
    // with the least unused id. The root does the same to its copy.
    method LinkTo(links: seq<Entry<LinkInfo>>, copy: seq<Entry<LinkInfo>>, isRoot: bool, target: nat, bus: nat, intraBus: nat)
      returns (r: seq<Entry<LinkInfo>>, c: seq<Entry<LinkInfo>>, id: nat)
      requires Sorted(links) && |links| < 0x1_0000 && (isRoot ==> copy == links)
      ensures (r, id) == LinkedTo(links, target, bus, intraBus, undefinedLink) && (isRoot ==> c == r)
    {
      hide HasKey, Put, LinkWritten;
      r, c, id := links, copy, undefinedLink;
      var j := 0;
      while j < |links|
        invariant 0 <= j <= |links| && r == links && c == copy && id == undefinedLink
        invariant forall i :: 0 <= i < j ==> links[i].val.nextHop != target
      {
        if links[j].val.nextHop == target {
          r := links[j := Entry(links[j].key, links[j].val.(bus := bus))];
          id := links[j].key;
          MovedToBus(links, j, bus);
          SortedLink(links, r, id, target, bus);
          if isRoot {
            c := copy[j := Entry(copy[j].key, copy[j].val.(bus := bus))];
          }
          break;
        }
        j := j + 1;
      }
      LinkIndexIs(links, target, j);
      if id == undefinedLink {
        ghost var r0 := r;
        r, id := InsertLink(r, LinkInfo(target, bus, intraBus));
        LeastFreeIs(r0, 0, id);
        if isRoot {
          ghost var id1 := id;
          c, id := InsertLink(c, LinkInfo(target, bus, intraBus));
          LeastUnusedIsUnique(r0, id, id1);
        }
      }
    }

    // The last device before the target: it gets a link to the target and the route over it.
    method LastHop(k: nat, target: nat, bus: nat, intraBus: nat)
      requires Valid() && k < |devices| && |devices[k].planned.links| < 0x1_0000
      modifies this`devices, this`planned
      ensures Valid()
      ensures devices == old(devices)[k := WithLastHop(old(devices[k]), target, bus, intraBus, undefinedLink)]
      ensures planned == QueuedAll(old(planned), [old(devices[k]).id], target)
    {
      hide StateOk, HasKey, RoutingOk, LinkWritten, Sorted, LinkedTo, Put, Queued;
      var d := devices[k];
      DeviceTables(devices, planned, inProgress, issued, k);
      QueuedOneMore(planned, [], d.id, target);
      var links, rootLinks, id := LinkTo(d.planned.links, d.confirmed.links, d.id == 0, target, bus, intraBus);
      LinkedToIs(d.planned.links, target, bus, intraBus, undefinedLink);
      LinkedOk(d.planned, links, id, target, bus, target);
      var routes := AddOrUpdate(d.planned.routes, Entry(target, id));
      var rootRoutes := routes;
      if d.id == 0 {
        rootRoutes := AddOrUpdate(d.confirmed.routes, Entry(target, id));
      }
      Plan(k, Routing(routes, links), Routing(rootRoutes, rootLinks), target);
    }

    // The target device: its link 0 leads to the next hop towards the root, and so does its route to the root.
    method RouteBack(k: nat, next: nat, bus: nat, intraBus: nat)
      requires Valid() && k < |devices| && devices[k].id != 0
      modifies this`devices, this`planned
      ensures Valid()
      ensures devices == old(devices)[k := WithRouteBack(old(devices[k]), next, bus, intraBus)]
      ensures devices[k].id == old(devices[k]).id && devices[k].confirmed == old(devices[k]).confirmed
      ensures forall x :: Lookup(devices[k].planned.routes, x) == if x == 0 then Some(0) else Lookup(old(devices[k]).planned.routes, x)
      ensures forall x :: Lookup(devices[k].planned.links, x)
                          == if x == 0 then Some(LinkInfo(next, bus, intraBus)) else Lookup(old(devices[k]).planned.links, x)
      ensures planned == QueuedAll(old(planned), [old(devices[k]).id], old(devices[k]).id)
    {
      hide StateOk, HasKey, RoutingOk, LinkWritten, Sorted, Put, Queued;
      var d := devices[k];
      DeviceTables(devices, planned, inProgress, issued, k);
      QueuedOneMore(planned, [], d.id, d.id);
      var routes := AddOrUpdate(d.planned.routes, Entry(0, 0));
      var links := AddOrUpdate(d.planned.links, Entry(0, LinkInfo(next, bus, intraBus)));
      PutKeepsOrder(d.planned.routes, Entry(0, 0));
      PutKeepsOrder(d.planned.links, Entry(0, LinkInfo(next, bus, intraBus)));
      PutLinkFacts(d.planned.links, 0, LinkInfo(next, bus, intraBus));
      LinkedOk(d.planned, links, 0, next, bus, 0);
      Plan(k, Routing(routes, links), Routing(routes, links), d.id);
    }

    // Links prev and target to each other, with the routes over the two links.
    method Connect(q: RouteRequest) returns (r: RouteOutcome)
      requires Valid() && q.target != 0
      requires forall k :: 0 <= k < |devices| ==> |devices[k].planned.links| < 0x1_0000
      modifies this`devices, this`planned
      ensures Valid()
      ensures RoutePlan(r, devices, planned, []) == Connected(old(devices), old(planned), q, undefinedLink)
    {
      hide StateOk, WithLastHop, WithRouteBack, QueuedAll;
      var k := FindDevice(q.prev);
      if k == |devices| { return Undefined; }
      LastHop(k, q.target, q.busOfPrev, q.intraBus);
      var j := FindDevice(q.target);
      if j == |devices| { return Undefined; }
      RouteBack(j, q.next, q.busOfTarget, q.intraBus);
      return RouteDone;
    }

    // The walk from the root to prev, observed for up to maxHops devices: next hops that lead in a circle never
    // reach prev.
    method WalkTo(target: nat, prev: nat, maxHops: nat) returns (r: RouteOutcome, ghost way: seq<nat>)
      requires Valid()
      modifies this`devices, this`planned
      ensures Valid() && Walked(r, way) == Walk(old(devices), 0, target, prev, maxHops)
      ensures devices == WithRoutes(old(devices), way, target, prev)
      ensures planned == QueuedAll(old(planned), IdsOf(old(devices), way), target)
    {
      hide StateOk, DevicesOk, Routed, Hopped, Walk, QueuedAll, WalkedSoFar, WithRoutes, IdsOf, DeviceIndex;
      ghost var ds, ps := devices, planned;
      StateDevices(devices, planned, inProgress, issued);
      SortedDevices(devices);
      var dev, hops := 0, 0;
      way := [];
      WalkStarts(ds, ps, target, prev, maxHops);
      while dev != prev
        invariant Valid() && hops <= maxHops && WalkedSoFar(ds, ps, devices, planned, way, dev, target, prev, maxHops, maxHops - hops)
        decreases maxHops - hops
      {
        ghost var ds1, ps1 := devices, planned;
        WalkStops(ds1, dev, target, prev, maxHops - hops);
        var k := FindDevice(dev);
        r := Undefined;
        if k < |devices| {
          if hops >= maxHops {
            r := StillWalking;
          } else {
            var hop := Hop(k, target, prev);
            if hop.HopTo? {
              WalkGoesOn(ds, ps, ds1, ps1, way, dev, target, prev, maxHops, maxHops - hops);
              dev := hop.next;
              way := way + [k];
              hops := hops + 1;
              continue;
            }
            r := if hop.HopNone? then NoRoute else Undefined;
          }
        }
        WalkIsOver(ds, ps, ds1, ps1, way, dev, target, prev, maxHops, maxHops - hops, r);
        return;
      }
      WalkStops(devices, dev, target, prev, maxHops - hops);
      WalkIsOver(ds, ps, devices, planned, way, dev, target, prev, maxHops, maxHops - hops, RouteDone);
      r := RouteDone;
    }

    /** Plans a route to target over prev: every device on the way from the root to prev learns to reach target
        the way it reaches prev, prev gets a link to target, and target a link back. However it ends, the
        invariant holds, nothing in flight is touched, and no other route changes. */
    method RouteAdded(q: RouteRequest, maxHops: nat) returns (r: RouteOutcome, ghost way: seq<nat>)
      requires Valid() && q.target != 0
      requires forall k :: 0 <= k < |devices| ==> |devices[k].planned.links| < 0x1_0000
      modifies this`devices, this`planned
      ensures Valid()
      ensures RoutePlan(r, devices, planned, way) == AddRoute(old(devices), old(planned), q, undefinedLink, maxHops)
      ensures RoutesKept(old(devices), devices, q.target) && forall i :: 0 <= i < |way| ==> way[i] < |old(devices)|
      ensures forall k :: 0 <= k < |devices| && devices[k].id != q.prev && devices[k].id != q.target ==>
                Rerouted(old(devices)[k], devices[k]) && (k !in way ==> devices[k] == old(devices)[k])
      ensures r.RouteDone? ==> PlanDone(old(devices), devices, way, q)
      ensures r.NoRoute? ==> (devices == old(devices) <==> forall i :: 0 <= i < |way| ==> Follows(old(devices)[way[i]], q.target, q.prev))
      ensures r.NoRoute? ==> (devices == old(devices) && planned == old(planned) <==>
                              forall i :: 0 <= i < |way| ==> old(devices)[way[i]].id == 0 && Follows(old(devices)[way[i]], q.target, q.prev))
      ensures planned == QueuedAll(old(planned), IdsOf(old(devices), way) + Ends(old(devices), r, q, maxHops), q.target)
      ensures Requeued(old(planned), planned, IdsOf(old(devices), way) + Ends(old(devices), r, q, maxHops), q.target)
    {
      hide StateOk, Requeued, RoutesKept, Rerouted, PlanDone, Walk, WithRoutes, QueuedAll, Connected, Follows;
      ghost var ds, ps := devices, planned;
      StateDevices(devices, planned, inProgress, issued);
      PlanKeeps(devices, planned, q, undefinedLink, maxHops);
      UnchangedWhen(devices, q.target, q.prev, maxHops);
      PlanQueues(devices, planned, q, undefinedLink, maxHops);
      OncePerDeviceWaiting(devices, planned, inProgress, issued);
      if AddRoute(devices, planned, q, undefinedLink, maxHops).outcome.NoRoute? {
        NothingHappens(devices, planned, q, undefinedLink, maxHops);
      }
      NoneQueued(planned, q.target);
      r, way := WalkTo(q.target, q.prev, maxHops);
      if !r.RouteDone? { return; }
      ShortLinks(ds, devices, way, q.target, q.prev);
      r := Connect(q);
    }
  }
}
