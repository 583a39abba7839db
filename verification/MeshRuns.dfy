/** Whole runs of the root's update protocol. */
module MeshRuns {
  import opened Tables
  import opened MeshState
  import opened Routes
  import opened MeshRootModule

  // What can happen to the root. Replan stands for whatever else edits a device's planned tables, such as
  // taking lost devices out of them.
  datatype Event =
    | Join(id: nat)
    | Route(q: RouteRequest, maxHops: nat)
    | Replan(k: nat, tables: Routing, affected: nat)
    | Next
    | Done(device: nat)
    | Failed(device: nat)

  // What shows of it outside: an update is sent out, or one for the device was in flight and is lost.
  datatype Outcome = Nothing | Sent(update: Update) | Lost(device: nat)

  ghost predicate HasRoom(ds: seq<Device>) {
    forall k :: 0 <= k < |ds| ==> |ds[k].planned.links| < 0x1_0000
  }

  method RoomForLinks(ds: seq<Device>) returns (r: bool)
    ensures r <==> HasRoom(ds)
  {
    for i := 0 to |ds|
      invariant forall k :: 0 <= k < i ==> |ds[k].planned.links| < 0x1_0000
    {
      if |ds[i].planned.links| >= 0x1_0000 { return false; }
    }
    return true;
  }

  // The device waits for a full rewrite.
  ghost predicate FullWaits(ps: seq<Initiator>, dev: nat) {
    exists p :: p in ps && p.device == dev && p.full
  }

  // What becomes of devices and waiting list; n is how far a search for the next update went.
  ghost predicate Happened(e: Event, o: Outcome, n: nat, undefined: nat, ds: seq<Device>, ps: seq<Initiator>, us: seq<Update>,
                           issued: map<nat, Routing>, ds': seq<Device>, ps': seq<Initiator>) {
    match e
    case Join(id) =>
      ds' == (if HasDevice(ds, id) then ds else ds + [Device(id, NO_ROUTING, NO_ROUTING)]) && ps' == ps && o.Nothing?
    case Route(q, maxHops) =>
      o.Nothing? && if q.target != 0 && HasRoom(ds) then
        var r := AddRoute(ds, ps, q, undefined, maxHops); ds' == r.devices && ps' == r.planned
      else ds' == ds && ps' == ps
    case Replan(k, t, affected) =>
      o.Nothing? && if k < |ds| then
        ds' == ds[k := Device(ds[k].id, if ds[k].id == 0 then t else ds[k].confirmed, t)]
        && ps' == if ds[k].id == 0 then ps else Queued(ps, ds[k].id, [affected])
      else ds' == ds && ps' == ps
    case Next =>
      && ds' == ds && n <= |ps| && (o.Sent? <==> n < |ps|) && !o.Lost?
      && (forall i :: 0 <= i < n ==> !Ready(ps[i], ds, us))
      && ps' == WithoutIdle(ps[..n], ds, us) + (if o.Sent? then ps[n + 1..] else [])
      && (o.Sent? ==> Ready(ps[n], ds, us) && o.update.device == ps[n].device && o.update.clearFirst == ps[n].full)
    case Done(dev) =>
      && ps' == ps && |ds'| == |ds| && o.Nothing?
      && forall k :: 0 <= k < |ds| ==>
           ds'[k] == if InFlight(us, dev) && dev in issued && ds[k].id == dev then ds[k].(confirmed := issued[dev]) else ds[k]
    case Failed(dev) =>
      && ds' == ds && o == (if InFlight(us, dev) then Lost(dev) else Nothing)
      && ps' == if InFlight(us, dev) then FullQueued(ps, dev) else ps
  }

  /** One event, if it is one the root's callers may cause in this state. */
  method Handle(root: MeshRoot, e: Event) returns (o: Outcome, ghost n: nat)
    requires root.Valid() && (e.Replan? ==> RoutingOk(e.tables))
    modifies root
    ensures root.Valid()
    ensures Happened(e, o, n, root.undefinedLink, old(root.devices), old(root.planned), old(root.inProgress), old(root.issued),
                     root.devices, root.planned)
    ensures o.Sent? ==> root.inProgress == old(root.inProgress) + [o.update]
    ensures e.Next? && o.Sent? ==> exists k :: 0 <= k < |root.devices| && root.devices[k].id == o.update.device
                                               && root.issued == old(root.issued)[o.update.device := root.devices[k].planned]
    ensures !o.Sent? ==> root.issued == old(root.issued)
    ensures e.Join? || e.Route? || e.Replan? || (e.Next? && !o.Sent?) ==> root.inProgress == old(root.inProgress)
    ensures (e.Done? || e.Failed?) && InFlight(old(root.inProgress), e.device) ==> Landed(old(root.inProgress), root.inProgress, e.device)
  {
    hide StateOk, Ready, WithoutIdle, AddRoute, Landed, RoutesKept, PlanDone, Rerouted, QueuedAll, Queued;
    o, n := Nothing, 0;
    match e {
      case Join(id) =>
        var _ := root.AddDevice(id);
      case Route(q, maxHops) =>
        var room := RoomForLinks(root.devices);
        if q.target != 0 && room {
          var _, _ := root.RouteAdded(q, maxHops);
        }
      case Replan(k, tables, affected) =>
        if k < |root.devices| { root.Plan(k, tables, tables, affected); }
      case Next =>
        var r;
        r, n := root.GetNextUpdate();
        if r.Issue? { o := Sent(r.update); }
      case Done(device) =>
        var _ := root.UpdateDone(device);
      case Failed(device) =>
        var ok := root.UpdateFailed(device);
        if ok { o := Lost(device); }
    }
  }

  // --------------------------------------------------------------------------- after a failure

  lemma {:induction false} QueuedStaysFull(ps: seq<Initiator>, id: nat, affected: seq<nat>, dev: nat)
    requires FullWaits(ps, dev)
    ensures FullWaits(Queued(ps, id, affected), dev)
  {
    var p :| p in ps && p.device == dev && p.full;
    if ps == [] {
    } else if p == ps[0] {
      assert Queued(ps, id, affected)[0].device == dev && Queued(ps, id, affected)[0].full;
    } else {
      assert p in ps[1..];
      if ps[0].device == id {
        assert p in Queued(ps, id, affected);
      } else {
        QueuedStaysFull(ps[1..], id, affected, dev);
        var p' :| p' in Queued(ps[1..], id, affected) && p'.device == dev && p'.full;
        assert p' in Queued(ps, id, affected);
      }
    }
  }

  lemma {:induction false} AllQueuedStayFull(ps: seq<Initiator>, ids: seq<nat>, target: nat, dev: nat)
    requires FullWaits(ps, dev)
    ensures FullWaits(QueuedAll(ps, ids, target), dev)
  {
    hide FullWaits;
    if ids == [] {
    } else {
      var rest := ids[..|ids| - 1];
      AllQueuedStayFull(ps, rest, target, dev);
      QueuedStaysFull(QueuedAll(ps, rest, target), ids[|ids| - 1], [target], dev);
    }
  }

  lemma FullStaysFull(ps: seq<Initiator>, id: nat, dev: nat)
    ensures FullWaits(ps, dev) ==> FullWaits(FullQueued(ps, id), dev)
    ensures FullWaits(FullQueued(ps, id), id)
  {
    var ps' := FullQueued(ps, id);
    if Waiting(ps, id) {
      var i :| 0 <= i < |ps| && ps[i].device == id;
      assert ps'[i].full && ps'[i] in ps';
    } else {
      assert ps'[0] in ps';
    }
    if FullWaits(ps, dev) {
      var p :| p in ps && p.device == dev && p.full;
      var i :| 0 <= i < |ps| && ps[i] == p;
      assert p == if Waiting(ps, id) then ps'[i] else ps'[i + 1];
      assert p in ps';
    }
  }

  /** A full rewrite, once due, stays due through every event but the sending of an update to that device, and
      that update is one that clears the device's tables first. */
  lemma FullUntilSent(e: Event, o: Outcome, n: nat, undefined: nat, ds: seq<Device>, ps: seq<Initiator>, us: seq<Update>,
                      issued: map<nat, Routing>, ds': seq<Device>, ps': seq<Initiator>, dev: nat)
    requires Happened(e, o, n, undefined, ds, ps, us, issued, ds', ps') && WaitingOk(ps, ds)
    ensures FullWaits(ps, dev) ==> if SentTo(o, dev) then o.update.clearFirst else FullWaits(ps', dev)
    ensures o.Lost? ==> FullWaits(ps', o.device)
  {
    hide Ready, AddRoute, QueuedAll, Queued, FullQueued, FullWaits, WithoutIdle, HasRoom;
    if FullWaits(ps, dev) {
      match e {
        case Route(q, maxHops) =>
          PlanQueues(ds, ps, q, undefined, maxHops);
          var r := AddRoute(ds, ps, q, undefined, maxHops);
          AllQueuedStayFull(ps, IdsOf(ds, r.way) + Ends(ds, r.outcome, q, maxHops), q.target, dev);
        case Replan(k, t, affected) =>
          if k < |ds| { QueuedStaysFull(ps, ds[k].id, [affected], dev); }
        case Next =>
          SearchLeavesFull(ds, ps, us, n, o, ps', dev);
        case Failed(id) =>
          FullStaysFull(ps, id, dev);
        case _ =>
      }
    }
    if e.Failed? { FullStaysFull(ps, e.device, dev); }
  }

  predicate SentTo(o: Outcome, dev: nat) {
    o.Sent? && o.update.device == dev
  }

  lemma SearchLeavesFull(ds: seq<Device>, ps: seq<Initiator>, us: seq<Update>, n: nat, o: Outcome, ps': seq<Initiator>, dev: nat)
    requires n <= |ps| && (o.Sent? <==> n < |ps|) && FullWaits(ps, dev)
    requires forall i, j :: 0 <= i < j < |ps| ==> ps[i].device != ps[j].device
    requires ps' == WithoutIdle(ps[..n], ds, us) + (if o.Sent? then ps[n + 1..] else [])
    requires o.Sent? ==> o.update.device == ps[n].device && o.update.clearFirst == ps[n].full
    ensures if SentTo(o, dev) then o.update.clearFirst else FullWaits(ps', dev)
  {
    hide WithoutIdle;
    var p :| p in ps && p.device == dev && p.full;
    var i :| 0 <= i < |ps| && ps[i] == p;
    if i < n {
      assert p == ps[..n][i];
      KeptIsThere(ps[..n], ds, us, p);
      assert p in ps';
    } else if i > n {
      assert p == ps[n + 1..][i - n - 1];
      assert p in ps';
    }
  }

  // For every loss without an update sent to the device since, a full rewrite is due.
  ghost predicate Due(outs: seq<Outcome>, ps: seq<Initiator>) {
    forall i :: 0 <= i < |outs| && outs[i].Lost? && NoneSince(outs, i, outs[i].device) ==> FullWaits(ps, outs[i].device)
  }

  ghost predicate NoneSince(outs: seq<Outcome>, i: nat, dev: nat) {
    forall m :: i < m < |outs| ==> !SentTo(outs[m], dev)
  }

  // The first update sent to a device after the loss of one clears its tables.
  ghost predicate ClearedAfterLoss(outs: seq<Outcome>) {
    forall i, j :: 0 <= i < j < |outs| && outs[i].Lost? && SentTo(outs[j], outs[i].device) && NoneSince(outs[..j], i, outs[i].device)
                   ==> outs[j].update.clearFirst
  }

  lemma DueStep(outs: seq<Outcome>, e: Event, o: Outcome, n: nat, undefined: nat, ds: seq<Device>, ps: seq<Initiator>, us: seq<Update>,
                issued: map<nat, Routing>, ds': seq<Device>, ps': seq<Initiator>)
    requires Due(outs, ps) && ClearedAfterLoss(outs) && WaitingOk(ps, ds)
    requires Happened(e, o, n, undefined, ds, ps, us, issued, ds', ps')
    ensures Due(outs + [o], ps') && ClearedAfterLoss(outs + [o])
  {
    hide Happened, FullWaits, WaitingOk;
    var all := outs + [o];
    assert all[..|outs|] == outs;
    forall i | 0 <= i < |all| && all[i].Lost? && NoneSince(all, i, all[i].device) ensures FullWaits(ps', all[i].device) {
      FullUntilSent(e, o, n, undefined, ds, ps, us, issued, ds', ps', all[i].device);
      if i < |outs| {
        assert !SentTo(all[|outs|], all[i].device);
        assert NoneSince(outs, i, outs[i].device) by {
          forall m | i < m < |outs| ensures !SentTo(outs[m], outs[i].device) { assert all[m] == outs[m]; }
        }
      }
    }
    forall i, j | 0 <= i < j < |all| && all[i].Lost? && SentTo(all[j], all[i].device) && NoneSince(all[..j], i, all[i].device)
      ensures all[j].update.clearFirst
    {
      if j < |outs| {
        assert all[..j] == outs[..j];
      } else {
        FullUntilSent(e, o, n, undefined, ds, ps, us, issued, ds', ps', all[i].device);
      }
    }
  }

  /** After any run of events, if nobody waits and nothing is in flight, every device has confirmed exactly
      what is planned for it. After the loss of an update, the first one sent to the same device again is one
      that clears its tables first; until then a full rewrite stays due. */
  method Run(root: MeshRoot, events: seq<Event>) returns (outs: seq<Outcome>)
    requires root.Valid() && forall i :: 0 <= i < |events| && events[i].Replan? ==> RoutingOk(events[i].tables)
    modifies root
    ensures root.Valid() && |outs| == |events|
    ensures root.planned == [] && root.inProgress == [] ==>
              forall k :: 0 <= k < |root.devices| ==> root.devices[k].confirmed == root.devices[k].planned
    ensures ClearedAfterLoss(outs) && Due(outs, root.planned)
  {
    hide StateOk, WaitingOk, Happened, Due, ClearedAfterLoss;
    outs := [];
    NothingDue(root.planned);
    for i := 0 to |events|
      invariant root.Valid() && |outs| == i && ClearedAfterLoss(outs) && Due(outs, root.planned)
    {
      ghost var ds, ps, us, issued := root.devices, root.planned, root.inProgress, root.issued;
      var o, n := Handle(root, events[i]);
      UniqueOnes(ds, ps, us, issued);
      DueStep(outs, events[i], o, n, root.undefinedLink, ds, ps, us, issued, root.devices, root.planned);
      outs := outs + [o];
    }
    if root.planned == [] && root.inProgress == [] {
      AllSynchronised(root.devices, root.issued);
    }
  }

  lemma NothingDue(ps: seq<Initiator>)
    ensures Due([], ps) && ClearedAfterLoss([])
  {
  }

  // A device the root will never bring up to date by itself: it is to be rewritten to empty tables, and an
  // update without entries is not sent.
  ghost predicate Stranded(d: Device, ps: seq<Initiator>) {
    d.planned == NO_ROUTING && FullWaits(ps, d.id)
  }

  // What the device has confirmed once the updates in flight have arrived.
  ghost function Confirmed(d: Device, us: seq<Update>, issued: map<nat, Routing>): Routing {
    if InFlight(us, d.id) && d.id in issued then issued[d.id] else d.confirmed
  }

  /** From any state, a finite run in which every update is acknowledged leaves nothing in flight. Every device
      ends up with exactly what is planned for it, except those waiting for a rewrite to empty tables: they
      keep what they have once the updates that were in flight have arrived. */
  method Settle(root: MeshRoot)
    requires root.Valid()
    modifies root
    ensures root.Valid() && root.inProgress == []
    ensures |root.devices| == |old(root.devices)|
    ensures forall k :: 0 <= k < |root.devices| ==>
              root.devices[k].id == old(root.devices)[k].id && root.devices[k].planned == old(root.devices)[k].planned
    ensures forall k :: 0 <= k < |root.devices| ==>
              root.devices[k].confirmed
              == if Stranded(old(root.devices)[k], old(root.planned))
                 then Confirmed(old(root.devices)[k], old(root.inProgress), old(root.issued))
                 else root.devices[k].planned
  {
    hide StateOk, IssuedFor, WithoutIdle, Idle, Ready, InFlight, Confirmed, Stranded, Landed;
    ghost var ds, ps, us, issued0 := root.devices, root.planned, root.inProgress, root.issued;
    while root.inProgress != []
      invariant root.Valid() && SamePlans(ds, root.devices) && root.planned == ps && root.issued == issued0
      invariant forall k :: 0 <= k < |ds| ==> Confirmed(root.devices[k], root.inProgress, issued0) == Confirmed(ds[k], us, issued0)
      decreases |root.inProgress|
    {
      ghost var ds1, us1 := root.devices, root.inProgress;
      FirstInFlight(us1);
      FlightIsKnown(ds1, ps, us1, issued0, 0);
      var ok := root.UpdateDone(root.inProgress[0].device);
      Arrived(us1, root.inProgress, us1[0].device);
      forall k | 0 <= k < |ds| ensures Confirmed(root.devices[k], root.inProgress, issued0) == Confirmed(ds1[k], us1, issued0) {
        OneArrived(ds1[k], root.devices[k], us1, root.inProgress, issued0, us1[0].device);
      }
    }
    NoneInFlight(root.devices, issued0);
    forall k | 0 <= k < |ds| ensures Stranded(root.devices[k], ps) == Stranded(ds[k], ps) {
      SamePlanStranded(ds[k], root.devices[k], ps);
    }
    while true
      invariant root.Valid() && root.inProgress == [] && SamePlans(ds, root.devices)
      invariant forall k :: 0 <= k < |ds| ==> Stranded(root.devices[k], root.planned) == Stranded(ds[k], ps)
      invariant forall k :: 0 <= k < |ds| && Stranded(ds[k], ps) ==> root.devices[k].confirmed == Confirmed(ds[k], us, issued0)
      decreases |root.planned|
    {
      ghost var before, ds1, issued := root.planned, root.devices, root.issued;
      UniqueOnes(ds1, before, [], issued);
      var r, n := root.GetNextUpdate();
      SearchKeepsStranded(ds1, before, n, if r.Issue? then before[n + 1..] else []);
      if !r.Issue? {
        NothingLeft(root.devices, before, root.planned, root.issued);
        return;
      }
      FirstIssued(before[n], r.update, root.devices, root.inProgress, issued, root.issued);
      ReadyIsNotStranded(ds1, before, n);
      var ok := root.UpdateDone(r.update.device);
      assert root.inProgress == [] by { NothingElse(r.update, root.inProgress); }
      forall k | 0 <= k < |ds| ensures Stranded(root.devices[k], root.planned) == Stranded(ds1[k], root.planned) {
        SamePlanStranded(ds1[k], root.devices[k], root.planned);
      }
    }
  }

  /** An update is lost, and the root looks for the next one. If the device was not waiting it is served before
      all others: the search issues the rewrite of that very device, and nobody else's place changes, exactly if
      there is anything to be written. */
  method FailThenSearch(root: MeshRoot, dev: nat) returns (r: NextResult)
    requires root.Valid() && InFlight(root.inProgress, dev) && !Waiting(root.planned, dev)
    modifies root
    ensures root.Valid() && root.devices == old(root.devices)
    ensures forall k :: 0 <= k < |root.devices| && root.devices[k].id == dev ==>
              (root.devices[k].planned != NO_ROUTING <==> r.Issue? && r.update.device == dev)
              && (root.devices[k].planned != NO_ROUTING ==>
                    && root.planned == old(root.planned)
                    && r.update.clearFirst && Rewrites(root.devices[k].planned.routes, r.update.routes)
                    && Rewrites(root.devices[k].planned.links, r.update.links))
  {
    hide StateOk, WithoutIdle, Idle, Ready, IssuedFor, InFlight, Landed, FullQueued, Rewrites, Applied;
    ghost var ps := root.planned;
    var _ := root.UpdateFailed(dev);
    ghost var ps1, us1, issued1 := root.planned, root.inProgress, root.issued;
    UniqueOnes(root.devices, ps1, us1, issued1);
    ghost var n;
    r, n := root.GetNextUpdate();
    FirstServed(root.devices, ps, ps1, us1, dev, n, r, root.planned);
    if r.Issue? { RewriteIssued(ps1[n], r.update, root.devices, us1, root.inProgress, issued1, root.issued); }
  }

  // A search of a list headed by the full rewrite of a device that has nothing in flight.
  lemma FirstServed(ds: seq<Device>, ps: seq<Initiator>, ps1: seq<Initiator>, us: seq<Update>, dev: nat,
                    n: nat, r: NextResult, ps2: seq<Initiator>)
    requires DevicesOk(ds) && !InFlight(us, dev) && !Waiting(ps, dev)
    requires |ps1| == |ps| + 1 && ps1[0] == Initiator(dev, true, []) && ps1[1..] == ps
    requires n <= |ps1| && (r.Issue? <==> n < |ps1|)
    requires forall i :: 0 <= i < n ==> !Ready(ps1[i], ds, us)
    requires r.Issue? ==> Ready(ps1[n], ds, us) && ps2 == WithoutIdle(ps1[..n], ds, us) + ps1[n + 1..]
    ensures forall k :: 0 <= k < |ds| && ds[k].id == dev ==>
              (ds[k].planned != NO_ROUTING <==> r.Issue? && ps1[n].device == dev)
              && (ds[k].planned != NO_ROUTING ==> n == 0 && ps2 == ps)
  {
    hide DevicesOk, Ready, WithoutIdle, InFlight;
    forall k | 0 <= k < |ds| && ds[k].id == dev
      ensures ds[k].planned != NO_ROUTING <==> r.Issue? && ps1[n].device == dev
      ensures ds[k].planned != NO_ROUTING ==> n == 0 && ps2 == ps
    {
      TheDevice(ds, ps1[0], us, k);
      if ds[k].planned != NO_ROUTING {
        assert n == 0;
        NothingPassed(ds, us);
        assert ps1[..0] == [] && [] + ps == ps;
      } else if r.Issue? && n > 0 {
        assert ps1[n] == ps[n - 1];
      }
    }
  }

  lemma NothingPassed(ds: seq<Device>, us: seq<Update>)
    ensures WithoutIdle([], ds, us) == []
  {
  }

  lemma RewriteIssued(p: Initiator, u: Update, ds: seq<Device>, us: seq<Update>, us': seq<Update>,
                      issued: map<nat, Routing>, issued': map<nat, Routing>)
    requires IssuedFor(p, u, ds, us, us', issued, issued') && DevicesOk(ds)
    ensures u.device == p.device && u.clearFirst == p.full
    ensures p.full ==> forall k :: 0 <= k < |ds| && ds[k].id == u.device ==>
                         Rewrites(ds[k].planned.routes, u.routes) && Rewrites(ds[k].planned.links, u.links)
  {
    hide Rewrites, Applied, Needed;
    var k :| 0 <= k < |ds| && ds[k].id == u.device && SaysWhatIsNeeded(u, ds[k])
             && Applied(u, ds[k].confirmed) == ds[k].planned && issued' == issued[u.device := ds[k].planned];
    OneDevice(ds, k);
  }

  // Devices that have confirmed what is planned go by the planned tables.
  lemma SettledNodes(ds: seq<Device>, ds0: seq<Device>)
    requires SamePlans(ds0, ds) && forall k :: 0 <= k < |ds| ==> ds[k].confirmed == ds[k].planned
    ensures ConfirmedNodes(ds) == PlannedNodes(ds0)
  {
  }

  /** A route is planned and every update acknowledged. If no device is stranded, a packet the root sends to the
      target is passed on by the tables the devices then really have, and it arrives exactly if it does by the
      tables before the plan, read as NextAsPlanned reads them. */
  method RouteThenSettle(root: MeshRoot, q: RouteRequest, maxHops: nat) returns (r: RouteOutcome, ghost way: seq<nat>, ghost stranded: bool)
    requires root.Valid() && q.target != 0 && HasRoom(root.devices)
    modifies root
    ensures root.Valid() && root.inProgress == []
    ensures var p := AddRoute(old(root.devices), old(root.planned), q, root.undefinedLink, maxHops);
      && p.outcome == r && p.way == way
      && (stranded <==> exists k :: 0 <= k < |p.devices| && Stranded(p.devices[k], p.planned))
    ensures r.RouteDone? && !stranded ==>
              ((exists steps: nat :: Arrives(ConfirmedNodes(root.devices), 0, q.target, steps))
               <==> ArrivesAsPlanned(old(root.devices), way, q, 0, |old(root.devices)|))
  {
    hide StateOk, AddRoute, Arrives, ArrivesAsPlanned, RoutesKept, Rerouted, PlanDone, QueuedAll, Requeued, Stranded, Confirmed, Follows;
    ghost var ds, ps := root.devices, root.planned;
    UniqueOnes(ds, ps, root.inProgress, root.issued);
    r, way := root.RouteAdded(q, maxHops);
    ghost var ds1, ps1 := root.devices, root.planned;
    stranded := exists k :: 0 <= k < |ds1| && Stranded(ds1[k], ps1);
    Settle(root);
    if r.RouteDone? && !stranded {
      ArrivesWhen(ds, ps, q, root.undefinedLink, maxHops);
      SettledNodes(root.devices, ds1);
    }
  }

  // The update for dev has arrived: it was the only one for that device.
  lemma Arrived(us: seq<Update>, us': seq<Update>, dev: nat)
    requires Landed(us, us', dev) && forall i, j :: 0 <= i < j < |us| ==> us[i].device != us[j].device
    ensures |us'| == |us| - 1 && forall id :: InFlight(us', id) <==> InFlight(us, id) && id != dev
  {
    hide InFlight;
    var m :| 0 <= m < |us| && us[m].device == dev && us' == us[..m] + us[m + 1..];
    forall id ensures InFlight(us', id) <==> InFlight(us, id) && id != dev {
      FlightLess(us, m, id);
    }
  }

  lemma OneArrived(d: Device, d': Device, us: seq<Update>, us': seq<Update>, issued: map<nat, Routing>, dev: nat)
    requires InFlight(us, dev) && dev in issued && d' == if d.id == dev then d.(confirmed := issued[dev]) else d
    requires forall id :: InFlight(us', id) <==> InFlight(us, id) && id != dev
    ensures Confirmed(d', us', issued) == Confirmed(d, us, issued)
  {
  }

  lemma NoneInFlight(ds: seq<Device>, issued: map<nat, Routing>)
    ensures forall k :: 0 <= k < |ds| ==> Confirmed(ds[k], [], issued) == ds[k].confirmed
  {
  }

  lemma NothingElse(u: Update, us: seq<Update>)
    requires Landed([u], us, u.device)
    ensures us == []
  {
  }

  lemma UniqueOnes(ds: seq<Device>, ps: seq<Initiator>, us: seq<Update>, issued: map<nat, Routing>)
    requires StateOk(ds, ps, us, issued)
    ensures DevicesOk(ds) && WaitingOk(ps, ds)
  {
  }

  lemma SamePlanStranded(d: Device, d': Device, ps: seq<Initiator>)
    requires d'.id == d.id && d'.planned == d.planned
    ensures Stranded(d', ps) == Stranded(d, ps)
  {
  }

  // The waiting initiators a search leaves are among those there were, and a full one stays.
  lemma {:induction false} KeptIsThere(ps: seq<Initiator>, ds: seq<Device>, us: seq<Update>, p: Initiator)
    ensures p in WithoutIdle(ps, ds, us) ==> p in ps
    ensures p in ps && p.full ==> p in WithoutIdle(ps, ds, us)
    decreases |ps|
  {
    if ps == [] {
    } else {
      KeptIsThere(ps[..|ps| - 1], ds, us, p);
      assert ps == ps[..|ps| - 1] + [ps[|ps| - 1]];
    }
  }

  // A device that is ready for its update is not stranded.
  lemma ReadyIsNotStranded(ds: seq<Device>, ps: seq<Initiator>, n: nat)
    requires DevicesOk(ds) && WaitingOk(ps, ds) && n < |ps| && Ready(ps[n], ds, [])
    ensures forall k :: 0 <= k < |ds| && ds[k].id == ps[n].device ==> !Stranded(ds[k], ps)
  {
    forall k | 0 <= k < |ds| && ds[k].id == ps[n].device ensures !Stranded(ds[k], ps) {
      TheDevice(ds, ps[n], [], k);
    }
  }

  // A search for the next update strands no device and rescues none: what it drops is idle, what it issues ready.
  lemma SearchKeepsStranded(ds: seq<Device>, ps: seq<Initiator>, n: nat, rest: seq<Initiator>)
    requires DevicesOk(ds) && WaitingOk(ps, ds) && n <= |ps|
    requires if n < |ps| then Ready(ps[n], ds, []) && rest == ps[n + 1..] else rest == []
    ensures forall k :: 0 <= k < |ds| ==> Stranded(ds[k], WithoutIdle(ps[..n], ds, []) + rest) == Stranded(ds[k], ps)
  {
    hide Ready, DevicesOk, WaitingOk;
    if n < |ps| { ReadyIsNotStranded(ds, ps, n); }
    assert n < |ps| ==> ps == ps[..n] + [ps[n]] + ps[n + 1..];
    assert n == |ps| ==> ps == ps[..n];
    var kept := WithoutIdle(ps[..n], ds, []);
    forall k | 0 <= k < |ds| ensures Stranded(ds[k], kept + rest) == Stranded(ds[k], ps) {
      if Stranded(ds[k], kept + rest) {
        var p :| p in kept + rest && p.device == ds[k].id && p.full;
        KeptIsThere(ps[..n], ds, [], p);
        assert p in ps;
      }
      if Stranded(ds[k], ps) {
        var p :| p in ps && p.device == ds[k].id && p.full;
        KeptIsThere(ps[..n], ds, [], p);
        assert p in kept + rest;
      }
    }
  }

  ghost predicate SamePlans(ds: seq<Device>, ds': seq<Device>) {
    |ds'| == |ds| && forall k :: 0 <= k < |ds| ==> ds'[k].id == ds[k].id && ds'[k].planned == ds[k].planned
  }

  lemma FirstInFlight(us: seq<Update>)
    requires us != []
    ensures InFlight(us, us[0].device)
  {
  }

  lemma FirstIssued(p: Initiator, u: Update, ds: seq<Device>, us: seq<Update>,
                    issued: map<nat, Routing>, issued': map<nat, Routing>)
    requires IssuedFor(p, u, ds, [], us, issued, issued')
    ensures us == [u] && InFlight(us, u.device) && u.device == p.device
  {
    assert us[0] == u;
  }

  // With nothing in flight, a search that finds nothing to issue leaves only rewrites to empty tables.
  lemma NothingLeft(ds: seq<Device>, ps: seq<Initiator>, ps': seq<Initiator>, issued: map<nat, Routing>)
    requires StateOk(ds, ps', [], issued) && ps' == WithoutIdle(ps[..|ps|], ds, []) + []
    requires forall i :: 0 <= i < |ps| ==> !Ready(ps[i], ds, [])
    ensures forall k :: 0 <= k < |ds| ==> ds[k].confirmed == ds[k].planned || Stranded(ds[k], ps')
  {
    assert ps[..|ps|] == ps && ps' == WithoutIdle(ps, ds, []);
    forall k | 0 <= k < |ds| ensures ds[k].confirmed == ds[k].planned || Stranded(ds[k], ps') {
      assert DeviceSynced(ds[k], ps', [], issued);
      OneDevice(ds, 0);
      if ds[k].id != 0 && Waiting(ps', ds[k].id) {
        var i :| 0 <= i < |ps'| && ps'[i].device == ds[k].id;
        KeptIsBusy(ps, ds, [], i);
        TheDevice(ds, ps'[i], [], k);
        assert ps'[i] in ps';
      }
    }
  }

  // What stays on the list was neither idle nor, if the search found nothing, ready.
  lemma {:induction false} KeptIsBusy(ps: seq<Initiator>, ds: seq<Device>, us: seq<Update>, i: nat)
    requires i < |WithoutIdle(ps, ds, us)| && forall j :: 0 <= j < |ps| ==> !Ready(ps[j], ds, us)
    ensures !Idle(WithoutIdle(ps, ds, us)[i], ds, us) && !Ready(WithoutIdle(ps, ds, us)[i], ds, us)
    decreases |ps|
  {
    if ps == [] {
    } else {
      var rest := ps[..|ps| - 1];
      if i < |WithoutIdle(rest, ds, us)| { KeptIsBusy(rest, ds, us, i); }
    }
  }

  // ------------------------------------------------------------------------------------ examples

  // The root and one more device, which has the tables confirmed and is to have the tables planned.
  function Pair7(confirmed: Routing, planned: Routing): seq<Device> {
    [Device(0, NO_ROUTING, NO_ROUTING), Device(7, confirmed, planned)]
  }

  lemma ReadyToSend(confirmed: Routing, planned: Routing, n: nat)
    requires confirmed != planned
    ensures var ds, ps := Pair7(confirmed, planned), Queued([], 7, [5]);
      ps == [Initiator(7, false, [5])] && Ready(ps[0], ds, [])
      && (n <= |ps| && (forall i :: 0 <= i < n ==> !Ready(ps[i], ds, [])) ==> n == 0)
      && WithoutIdle(ps[..0], ds, []) + ps[1..] == []
  {
    var ds, ps := Pair7(confirmed, planned), Queued([], 7, [5]);
    assert ds[1].id == 7 && ToSend(ps[0], ds[1]);
    assert Ready(ps[0], ds, []);
  }

  // From a device that is up to date: new tables are planned for it, and their update is sent.
  method PlanAndSend(root: MeshRoot, t: Routing)
    requires root.Valid() && root.planned == [] && root.inProgress == [] && RoutingOk(t)
    requires |root.devices| == 2 && root.devices == Pair7(root.devices[1].planned, root.devices[1].planned) && root.devices[1].planned != t
    modifies root
    ensures root.Valid() && root.devices == Pair7(old(root.devices[1].planned), t)
    ensures root.planned == [] && InFlight(root.inProgress, 7) && |root.inProgress| == 1 && 7 in root.issued && root.issued[7] == t
  {
    hide StateOk, Ready, WithoutIdle, Queued, AddRoute, FullQueued;
    ghost var was := root.devices[1].planned;
    var o, n := Handle(root, Replan(1, t, 5));
    assert root.devices == Pair7(was, t);
    o, n := Handle(root, Next);
    ReadyToSend(was, t, n);
    assert root.inProgress[0].device == 7;
  }

  /** A run of events from the start that leaves a device stranded: it has tables, they are to be taken away,
      and the update that does so is lost. */
  method StrandsADevice() returns (root: MeshRoot)
    ensures fresh(root) && root.Valid() && |root.devices| == 2
    ensures Stranded(root.devices[1], root.planned) && root.devices[1].confirmed != root.devices[1].planned
  {
    hide StateOk, Ready, WithoutIdle, Queued, AddRoute;
    root := new MeshRoot(0xFFFF);
    var t := Routing([Entry(0, 0)], [Entry(0, LinkInfo(0, 0, 0))]);
    assert t.links[0].key == 0;
    var o, n := Handle(root, Join(7));
    assert root.devices == Pair7(NO_ROUTING, NO_ROUTING);
    PlanAndSend(root, t);
    o, n := Handle(root, Done(7));
    assert root.devices == Pair7(t, t);
    PlanAndSend(root, NO_ROUTING);
    o, n := Handle(root, Failed(7));
    assert root.planned[0] in root.planned;
  }
}
