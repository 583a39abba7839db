/** What the root of the mesh knows about its devices, and the invariant of the protocol by which it brings
    their routing tables from the confirmed to the planned state. */
module MeshState {
  import opened Wrappers
  import opened Tables

  datatype LinkInfo = LinkInfo(nextHop: nat, bus: nat, intraBus: nat)

  // A device's routes (target -> link id) and links (link id -> next hop, bus, intra-bus id).
  datatype Routing = Routing(routes: seq<Entry<nat>>, links: seq<Entry<LinkInfo>>)

  const NO_ROUTING := Routing([], [])

  datatype Device = Device(id: nat, confirmed: Routing, planned: Routing)

  // A device waiting for an update to be computed and sent.
  datatype Initiator = Initiator(device: nat, full: bool, affected: seq<nat>)

  // An update on its way to a device.
  datatype Update = Update(device: nat, clearFirst: bool, routes: seq<Change<nat>>, links: seq<Change<LinkInfo>>)

  // Ordered tables, every route using a link that exists.
  ghost predicate RoutingOk(t: Routing) {
    && Sorted(t.routes) && Sorted(t.links)
    && forall i :: 0 <= i < |t.routes| ==> HasKey(t.links, t.routes[i].val)
  }

  function Base(u: Update, t: Routing): Routing {
    if u.clearFirst then NO_ROUTING else t
  }

  // The tables a device ends up with when it applies u to t.
  function Applied(u: Update, t: Routing): Routing {
    Routing(ApplyAll(Base(u, t).routes, u.routes), ApplyAll(Base(u, t).links, u.links))
  }

  ghost predicate Fits(u: Update, t: Routing) {
    Applicable(Base(u, t).routes, u.routes) && Applicable(Base(u, t).links, u.links)
  }

  predicate HasDevice(ds: seq<Device>, id: nat) {
    exists i :: 0 <= i < |ds| && ds[i].id == id
  }

  predicate Waiting(ps: seq<Initiator>, id: nat) {
    exists i :: 0 <= i < |ps| && ps[i].device == id
  }

  predicate InFlight(us: seq<Update>, id: nat) {
    exists i :: 0 <= i < |us| && us[i].device == id
  }

  // -------------------------------------------------------------------------------- invariant

  ghost predicate DevicesOk(ds: seq<Device>) {
    && ds != [] && ds[0].id == 0
    && (forall i, j :: 0 <= i < j < |ds| ==> ds[i].id != ds[j].id)
    && (forall i :: 0 <= i < |ds| ==> RoutingOk(ds[i].planned) && RoutingOk(ds[i].confirmed))
    && ds[0].confirmed == ds[0].planned
  }

  ghost predicate WaitingOk(ps: seq<Initiator>, ds: seq<Device>) {
    && (forall i, j :: 0 <= i < j < |ps| ==> ps[i].device != ps[j].device)
    && (forall i :: 0 <= i < |ps| ==> ps[i].device != 0 && HasDevice(ds, ps[i].device))
  }

  // At most one update per device is in flight, never for the root; applied to the device's confirmed
  // tables it gives the tables that were planned when it was issued.
  ghost predicate FlightsOk(us: seq<Update>, ds: seq<Device>, issued: map<nat, Routing>) {
    && (forall i, j :: 0 <= i < j < |us| ==> us[i].device != us[j].device)
    && (forall i :: 0 <= i < |us| ==>
          us[i].device != 0 && HasDevice(ds, us[i].device) && us[i].device in issued
          && RoutingOk(issued[us[i].device]) && (us[i].routes != [] || us[i].links != []))
    && (forall i, k :: 0 <= i < |us| && 0 <= k < |ds| && us[i].device == ds[k].id ==>
          Fits(us[i], ds[k].confirmed) && Applied(us[i], ds[k].confirmed) == issued[us[i].device])
  }

  // A device nobody plans to update is up to date, or will be once the update in flight arrives.
  ghost predicate DeviceSynced(d: Device, ps: seq<Initiator>, us: seq<Update>, issued: map<nat, Routing>) {
    d.id == 0 || Waiting(ps, d.id)
    || if InFlight(us, d.id) then d.id in issued && issued[d.id] == d.planned else d.confirmed == d.planned
  }

  ghost predicate StateOk(ds: seq<Device>, ps: seq<Initiator>, us: seq<Update>, issued: map<nat, Routing>) {
    && DevicesOk(ds) && WaitingOk(ps, ds) && FlightsOk(us, ds, issued)
    && forall k :: 0 <= k < |ds| ==> DeviceSynced(ds[k], ps, us, issued)
  }

  /** When nothing waits and nothing is in flight, every device has the tables planned for it. */
  lemma AllSynchronised(ds: seq<Device>, issued: map<nat, Routing>)
    requires StateOk(ds, [], [], issued)
    ensures forall k :: 0 <= k < |ds| ==> ds[k].confirmed == ds[k].planned
  {
    forall k | 0 <= k < |ds| ensures ds[k].confirmed == ds[k].planned {
      assert DeviceSynced(ds[k], [], [], issued);
      assert k > 0 ==> ds[0].id != ds[k].id;
    }
  }

  // ------------------------------------------------------------------------ initiators and lists

  // The planned list with device dev in it: the affected routes join the initiator it has, or a new one
  // comes last.
  function Queued(ps: seq<Initiator>, dev: nat, affected: seq<nat>): seq<Initiator> {
    if ps == [] then [Initiator(dev, false, affected)]
    else if ps[0].device == dev then [ps[0].(affected := ps[0].affected + affected)] + ps[1..]
    else [ps[0]] + Queued(ps[1..], dev, affected)
  }

  lemma {:induction false} QueuedIs(ps: seq<Initiator>, dev: nat, affected: seq<nat>, i: nat)
    requires i <= |ps| && (forall j :: 0 <= j < i ==> ps[j].device != dev) && (i < |ps| ==> ps[i].device == dev)
    ensures Queued(ps, dev, affected)
            == if i < |ps| then ps[i := ps[i].(affected := ps[i].affected + affected)] else ps + [Initiator(dev, false, affected)]
    decreases i
  {
    if i > 0 {
      QueuedIs(ps[1..], dev, affected, i - 1);
      assert Queued(ps, dev, affected) == [ps[0]] + Queued(ps[1..], dev, affected);
      hide Queued;
      var r := if i < |ps| then ps[i := ps[i].(affected := ps[i].affected + affected)] else ps + [Initiator(dev, false, affected)];
      assert r == [ps[0]] + Queued(ps[1..], dev, affected);
    } else if ps != [] {
      assert ps[0 := ps[0].(affected := ps[0].affected + affected)] == [ps[0].(affected := ps[0].affected + affected)] + ps[1..];
    }
  }

  // Two lists of initiators for the same devices, but for dev, which is in the second.
  ghost predicate SameWaiting(ps: seq<Initiator>, ps': seq<Initiator>, dev: nat) {
    && (forall i, j :: 0 <= i < j < |ps'| ==> ps'[i].device != ps'[j].device)
    && (forall i :: 0 <= i < |ps'| ==> ps'[i].device == dev || Waiting(ps, ps'[i].device))
    && (forall i :: 0 <= i < |ps| ==> Waiting(ps', ps[i].device))
    && Waiting(ps', dev)
  }

  lemma QueuedWaits(ps: seq<Initiator>, dev: nat, affected: seq<nat>, i: nat)
    requires i <= |ps| && (forall j :: 0 <= j < i ==> ps[j].device != dev) && (i < |ps| ==> ps[i].device == dev)
    requires forall i, j :: 0 <= i < j < |ps| ==> ps[i].device != ps[j].device
    ensures SameWaiting(ps, Queued(ps, dev, affected), dev)
  {
    hide Queued;
    QueuedIs(ps, dev, affected, i);
    var ps' := Queued(ps, dev, affected);
    assert ps'[i].device == dev;
    assert forall j :: 0 <= j < |ps| ==> ps'[j].device == ps[j].device;
    forall j | 0 <= j < |ps| ensures Waiting(ps', ps[j].device) {
      assert ps'[j].device == ps[j].device;
    }
    forall j | 0 <= j < |ps'| ensures ps'[j].device == dev || Waiting(ps, ps'[j].device) {
      if j < |ps| { assert ps'[j].device == ps[j].device; }
    }
  }

  lemma WaitingMore(ps: seq<Initiator>, ps': seq<Initiator>, dev: nat, id: nat)
    requires SameWaiting(ps, ps', dev) && (Waiting(ps, id) || id == dev)
    ensures Waiting(ps', id)
  {
    if Waiting(ps, id) {
      var i :| 0 <= i < |ps| && ps[i].device == id;
    }
  }

  // ------------------------------------------------------------------------------ transitions

  lemma KnownDevice(ds: seq<Device>, ds': seq<Device>, id: nat)
    requires |ds| <= |ds'| && (forall i :: 0 <= i < |ds| ==> ds'[i].id == ds[i].id) && HasDevice(ds, id)
    ensures HasDevice(ds', id)
  {
    var i :| 0 <= i < |ds| && ds[i].id == id;
    assert ds'[i].id == id;
  }

  /** Planning new tables for device k keeps the invariant, if the root mirrors its own at once and any
      other device is put on the waiting list. */
  lemma Planned(ds: seq<Device>, ps: seq<Initiator>, us: seq<Update>, issued: map<nat, Routing>,
                k: nat, t: Routing, ps': seq<Initiator>)
    requires StateOk(ds, ps, us, issued) && k < |ds| && RoutingOk(t)
    requires if ds[k].id == 0 then ps' == ps else SameWaiting(ps, ps', ds[k].id)
    ensures StateOk(ds[k := Device(ds[k].id, if ds[k].id == 0 then t else ds[k].confirmed, t)], ps', us, issued)
  {
    hide Fits, Applied, RoutingOk;
    var d' := Device(ds[k].id, if ds[k].id == 0 then t else ds[k].confirmed, t);
    var ds' := ds[k := d'];
    assert k > 0 ==> ds[0].id != ds[k].id;
    assert DevicesOk(ds');
    forall i | 0 <= i < |ps'| ensures ps'[i].device != 0 && HasDevice(ds', ps'[i].device) {
      if ds[k].id != 0 && ps'[i].device == ds[k].id {
        assert ds'[k].id == ps'[i].device;
      } else {
        var j :| 0 <= j < |ps| && ps[j].device == ps'[i].device;
        KnownDevice(ds, ds', ps[j].device);
      }
    }
    forall i | 0 <= i < |us| ensures HasDevice(ds', us[i].device) {
      KnownDevice(ds, ds', us[i].device);
    }
    forall j | 0 <= j < |ds'| ensures DeviceSynced(ds'[j], ps', us, issued) {
      assert DeviceSynced(ds[j], ps, us, issued);
      if ds[k].id != 0 && (Waiting(ps, ds[j].id) || j == k) {
        WaitingMore(ps, ps', ds[k].id, ds[j].id);
      }
    }
  }

  /** A device that is up to date and has nothing in flight may leave the waiting list. */
  lemma Dropped(ds: seq<Device>, ps: seq<Initiator>, us: seq<Update>, issued: map<nat, Routing>, n: nat, k: nat)
    requires StateOk(ds, ps, us, issued) && n < |ps| && k < |ds| && ds[k].id == ps[n].device
    requires !InFlight(us, ps[n].device) && ds[k].confirmed == ds[k].planned
    ensures StateOk(ds, ps[..n] + ps[n + 1..], us, issued)
  {
    var ps' := ps[..n] + ps[n + 1..];
    WaitingWithout(ps, ds, n);
    forall j | 0 <= j < |ds| ensures DeviceSynced(ds[j], ps', us, issued) {
      assert DeviceSynced(ds[j], ps, us, issued);
      if j != k && Waiting(ps, ds[j].id) { StillWaiting(ps, n, ds[j].id); }
    }
  }

  lemma WaitingWithout(ps: seq<Initiator>, ds: seq<Device>, n: nat)
    requires WaitingOk(ps, ds) && n < |ps|
    ensures WaitingOk(ps[..n] + ps[n + 1..], ds)
  {
    var ps' := ps[..n] + ps[n + 1..];
    assert forall i :: 0 <= i < |ps'| ==> ps'[i] == ps[if i < n then i else i + 1];
  }

  lemma FlightsWithout(us: seq<Update>, ds: seq<Device>, issued: map<nat, Routing>, m: nat)
    requires FlightsOk(us, ds, issued) && m < |us|
    ensures FlightsOk(us[..m] + us[m + 1..], ds, issued)
    ensures var us' := us[..m] + us[m + 1..]; forall i :: 0 <= i < |us'| ==> us'[i].device != us[m].device
  {
    var us' := us[..m] + us[m + 1..];
    assert forall i :: 0 <= i < |us'| ==> us'[i] == us[if i < m then i else i + 1];
  }

  // The updates in flight have nothing to do with a device they are not for.
  lemma FlightsElsewhere(us: seq<Update>, ds: seq<Device>, issued: map<nat, Routing>, k: nat, d: Device)
    requires FlightsOk(us, ds, issued) && k < |ds| && d.id == ds[k].id
    requires forall i :: 0 <= i < |us| ==> us[i].device != d.id
    ensures FlightsOk(us, ds[k := d], issued)
  {
    forall i | 0 <= i < |us| ensures HasDevice(ds[k := d], us[i].device) {
      KnownDevice(ds, ds[k := d], us[i].device);
    }
  }

  lemma StillWaiting(ps: seq<Initiator>, n: nat, id: nat)
    requires n < |ps| && Waiting(ps, id) && ps[n].device != id
    ensures Waiting(ps[..n] + ps[n + 1..], id)
  {
    var ps' := ps[..n] + ps[n + 1..];
    var i :| 0 <= i < |ps| && ps[i].device == id;
    assert ps'[if i < n then i else i - 1] == ps[i];
  }

  /** Issuing an update that turns the confirmed tables into the planned ones takes its device from the
      waiting list into flight. */
  lemma Issued(ds: seq<Device>, ps: seq<Initiator>, us: seq<Update>, issued: map<nat, Routing>, n: nat, k: nat, u: Update)
    requires StateOk(ds, ps, us, issued) && n < |ps| && k < |ds| && ds[k].id == ps[n].device == u.device
    requires !InFlight(us, u.device) && (u.routes != [] || u.links != [])
    requires Fits(u, ds[k].confirmed) && Applied(u, ds[k].confirmed) == ds[k].planned
    ensures StateOk(ds, ps[..n] + ps[n + 1..], us + [u], issued[u.device := ds[k].planned])
  {
    var ps', us', issued' := ps[..n] + ps[n + 1..], us + [u], issued[u.device := ds[k].planned];
    WaitingWithout(ps, ds, n);
    FlightsWith(us, ds, issued, k, u);
    forall j | 0 <= j < |ds| ensures DeviceSynced(ds[j], ps', us', issued') {
      assert DeviceSynced(ds[j], ps, us, issued);
      if j == k {
        assert us'[|us|].device == ds[j].id;
      } else {
        assert ds[j].id != ds[k].id;
        if Waiting(ps, ds[j].id) { StillWaiting(ps, n, ds[j].id); }
        FlightMore(us, u, ds[j].id);
      }
    }
  }

  lemma FlightsWith(us: seq<Update>, ds: seq<Device>, issued: map<nat, Routing>, k: nat, u: Update)
    requires FlightsOk(us, ds, issued) && DevicesOk(ds) && k < |ds| && ds[k].id == u.device != 0
    requires !InFlight(us, u.device) && (u.routes != [] || u.links != [])
    requires Fits(u, ds[k].confirmed) && Applied(u, ds[k].confirmed) == ds[k].planned
    ensures FlightsOk(us + [u], ds, issued[u.device := ds[k].planned])
  {
    hide RoutingOk, Fits, Applied;
    assert forall i :: 0 <= i < |us| ==> us[i].device != u.device;
    assert HasDevice(ds, u.device) && RoutingOk(ds[k].planned);
    forall i, j | 0 <= i < |us| + 1 && 0 <= j < |ds| && (us + [u])[i].device == ds[j].id
      ensures Fits((us + [u])[i], ds[j].confirmed)
      ensures Applied((us + [u])[i], ds[j].confirmed) == issued[u.device := ds[k].planned][(us + [u])[i].device]
    {
      if i < |us| { assert (us + [u])[i] == us[i]; } else { assert j == k; }
    }
  }

  lemma FlightMore(us: seq<Update>, u: Update, id: nat)
    ensures InFlight(us + [u], id) <==> InFlight(us, id) || u.device == id
  {
    if InFlight(us, id) {
      var i :| 0 <= i < |us| && us[i].device == id;
      assert (us + [u])[i].device == id;
    }
    assert (us + [u])[|us|] == u;
  }

  lemma FlightLess(us: seq<Update>, m: nat, id: nat)
    requires m < |us| && forall i, j :: 0 <= i < j < |us| ==> us[i].device != us[j].device
    ensures InFlight(us[..m] + us[m + 1..], id) <==> InFlight(us, id) && us[m].device != id
  {
    var us' := us[..m] + us[m + 1..];
    assert forall i :: 0 <= i < |us'| ==> us'[i] == us[if i < m then i else i + 1];
    if InFlight(us, id) && us[m].device != id {
      var i :| 0 <= i < |us| && us[i].device == id;
      assert us'[if i < m then i else i - 1] == us[i];
    }
  }

  /** An acknowledged update makes the confirmed tables those that were planned when it was issued. */
  lemma Acknowledged(ds: seq<Device>, ps: seq<Initiator>, us: seq<Update>, issued: map<nat, Routing>, m: nat, k: nat)
    requires StateOk(ds, ps, us, issued) && m < |us| && k < |ds| && ds[k].id == us[m].device
    ensures us[m].device in issued && Applied(us[m], ds[k].confirmed) == issued[us[m].device] && Fits(us[m], ds[k].confirmed)
    ensures StateOk(ds[k := ds[k].(confirmed := issued[us[m].device])], ps, us[..m] + us[m + 1..], issued)
  {
    hide Fits, Applied, RoutingOk;
    var d' := ds[k].(confirmed := issued[us[m].device]);
    var ds', us' := ds[k := d'], us[..m] + us[m + 1..];
    FlightsWithout(us, ds, issued, m);
    FlightsElsewhere(us', ds, issued, k, d');
    forall i | 0 <= i < |ps| ensures HasDevice(ds', ps[i].device) {
      KnownDevice(ds, ds', ps[i].device);
    }
    forall j | 0 <= j < |ds'| ensures DeviceSynced(ds'[j], ps, us', issued) {
      assert DeviceSynced(ds[j], ps, us, issued);
      FlightLess(us, m, ds[j].id);
      if j == k { assert InFlight(us, ds[j].id); }
    }
  }

  /** A failed update leaves flight for the waiting list. */
  lemma Failed(ds: seq<Device>, ps: seq<Initiator>, us: seq<Update>, issued: map<nat, Routing>, m: nat, ps': seq<Initiator>)
    requires StateOk(ds, ps, us, issued) && m < |us| && SameWaiting(ps, ps', us[m].device)
    ensures StateOk(ds, ps', us[..m] + us[m + 1..], issued)
  {
    hide Fits, Applied, RoutingOk;
    var us' := us[..m] + us[m + 1..];
    FlightsWithout(us, ds, issued, m);
    forall i | 0 <= i < |ps'| ensures ps'[i].device != 0 && HasDevice(ds, ps'[i].device) {
      if ps'[i].device != us[m].device {
        var j :| 0 <= j < |ps| && ps[j].device == ps'[i].device;
      }
    }
    forall j | 0 <= j < |ds| ensures DeviceSynced(ds[j], ps', us', issued) {
      assert DeviceSynced(ds[j], ps, us, issued);
      FlightLess(us, m, ds[j].id);
      if Waiting(ps, ds[j].id) || ds[j].id == us[m].device {
        WaitingMore(ps, ps', us[m].device, ds[j].id);
      }
    }
  }

  /** A new device starts with nothing planned and nothing confirmed. */
  lemma Joined(ds: seq<Device>, ps: seq<Initiator>, us: seq<Update>, issued: map<nat, Routing>, id: nat)
    requires StateOk(ds, ps, us, issued) && !HasDevice(ds, id)
    ensures StateOk(ds + [Device(id, NO_ROUTING, NO_ROUTING)], ps, us, issued)
  {
    var ds' := ds + [Device(id, NO_ROUTING, NO_ROUTING)];
    forall i | 0 <= i < |ps| ensures HasDevice(ds', ps[i].device) {
      KnownDevice(ds, ds', ps[i].device);
    }
    forall i | 0 <= i < |us| ensures HasDevice(ds', us[i].device) && us[i].device != id {
      KnownDevice(ds, ds', us[i].device);
    }
    forall j | 0 <= j < |ds'| ensures DeviceSynced(ds'[j], ps, us, issued) {
      if j < |ds| { assert DeviceSynced(ds[j], ps, us, issued); }
    }
  }

  // --------------------------------------------------------------------------- adding routes

  function PutRoute(t: Routing, target: nat, link: nat): Routing {
    t.(routes := Put(t.routes, Entry(target, link)))
  }

  lemma PutRouteOk(t: Routing, target: nat, link: nat)
    requires RoutingOk(t) && HasKey(t.links, link)
    ensures RoutingOk(PutRoute(t, target, link))
    ensures forall q :: Lookup(PutRoute(t, target, link).routes, q) == if q == target then Some(link) else Lookup(t.routes, q)
  {
    PutKeepsOrder(t.routes, Entry(target, link));
    PutMembers(t.routes, Entry(target, link));
  }

  // The device reaches target the way it reaches prev.
  ghost predicate Follows(d: Device, target: nat, prev: nat) {
    Lookup(d.planned.routes, target) == Lookup(d.planned.routes, prev) != None
  }

  // What adding a route to target may change: routes to target everywhere, and target's own route to the root.
  ghost predicate RoutesKept(ds: seq<Device>, ds': seq<Device>, target: nat) {
    |ds'| == |ds| && forall k :: 0 <= k < |ds| ==> DeviceRoutesKept(ds[k], ds'[k], target)
  }

  ghost predicate DeviceRoutesKept(d: Device, d': Device, target: nat) {
    && d'.id == d.id
    && forall q :: q != target && (d.id == target ==> q != 0) ==> Lookup(d'.planned.routes, q) == Lookup(d.planned.routes, q)
  }

  lemma RoutesKeptTwice(a: seq<Device>, b: seq<Device>, c: seq<Device>, target: nat)
    requires RoutesKept(a, b, target) && RoutesKept(b, c, target)
    ensures RoutesKept(a, c, target)
  {
    forall k | 0 <= k < |a| ensures DeviceRoutesKept(a[k], c[k], target) {
      assert DeviceRoutesKept(a[k], b[k], target) && DeviceRoutesKept(b[k], c[k], target);
    }
  }

  lemma RoutesKeptAt(ds: seq<Device>, k: nat, d: Device, target: nat)
    requires k < |ds| && DeviceRoutesKept(ds[k], d, target)
    ensures RoutesKept(ds, ds[k := d], target)
  {
  }

  // The least unused id is one.
  lemma LeastUnusedIsUnique<V>(t: seq<Entry<V>>, a: nat, b: nat)
    requires !HasKey(t, a) && forall k :: 0 <= k < a ==> HasKey(t, k)
    requires !HasKey(t, b) && forall k :: 0 <= k < b ==> HasKey(t, k)
    ensures a == b
  {
  }

  // A link to target on the given bus.
  predicate LeadsTo(b: Option<LinkInfo>, target: nat, bus: nat) {
    b.Some? && b.value.nextHop == target && b.value.bus == bus
  }

  // A link is as it was, or it led to target already and has moved to the bus.
  predicate LinkKept(a: Option<LinkInfo>, b: Option<LinkInfo>, target: nat, bus: nat) {
    b == a || (a.Some? && a.value.nextHop == target && b == Some(a.value.(bus := bus)))
  }

  // r is links with one link to target (re)written, that of id; no other link has changed, except that one to
  // target may have moved to the bus.
  ghost predicate LinkWritten(links: seq<Entry<LinkInfo>>, r: seq<Entry<LinkInfo>>, id: nat, target: nat, bus: nat) {
    && Sorted(r) && HasKey(r, id) && LeadsTo(Lookup(r, id), target, bus)
    && (forall q :: HasKey(links, q) ==> HasKey(r, q))
    && (forall q :: q != id ==> LinkKept(Lookup(links, q), Lookup(r, q), target, bus))
  }

  lemma PutLinkFacts(links: seq<Entry<LinkInfo>>, id: nat, info: LinkInfo)
    requires Sorted(links)
    ensures LinkWritten(links, Put(links, Entry(id, info)), id, info.nextHop, info.bus)
  {
    PutKeepsOrder(links, Entry(id, info));
    forall q ensures HasKey(Put(links, Entry(id, info)), q) <==> HasKey(links, q) || q == id {
      PutHasKey(links, Entry(id, info), q);
    }
  }

  lemma LinkWrittenTwice(a: seq<Entry<LinkInfo>>, b: seq<Entry<LinkInfo>>, c: seq<Entry<LinkInfo>>, i: nat, j: nat, target: nat, bus: nat)
    requires LinkWritten(a, b, i, target, bus) && LinkWritten(b, c, j, target, bus)
    requires LinkKept(Lookup(a, i), Lookup(b, i), target, bus)
    ensures LinkWritten(a, c, j, target, bus)
  {
  }

  // Tables with a link to target written and the route to target using it.
  lemma LinkedOk(t: Routing, r: seq<Entry<LinkInfo>>, id: nat, target: nat, bus: nat, routeKey: nat)
    requires RoutingOk(t) && LinkWritten(t.links, r, id, target, bus)
    ensures var t' := Routing(Put(t.routes, Entry(routeKey, id)), r);
      RoutingOk(t') && forall q :: Lookup(t'.routes, q) == if q == routeKey then Some(id) else Lookup(t.routes, q)
  {
    var t1 := Routing(t.routes, r);
    assert RoutingOk(t1);
    PutRouteOk(t1, routeKey, id);
  }
}
