/** Runs of events from the start, and what becomes of planning a route in the state they reach: the right hop
    is read and a packet arrives; the wrong hop is read and there is no route, or there is one and the packet is
    lost; hops lead in a circle and the plan never ends. */
module RouteExamples {
  import opened Wrappers
  import opened Tables
  import opened MeshState
  import opened Routes
  import opened MeshRootModule
  import opened MeshRuns

  const UNDEFINED_LINK := 0xFFFF

  function Link(id: nat, next: nat): Entry<LinkInfo> {
    Entry(id, LinkInfo(next, 0, 0))
  }

  // The root, whose confirmed tables are the planned ones, and any other device, which has confirmed nothing.
  function Root(routes: seq<Entry<nat>>, links: seq<Entry<LinkInfo>>): Device {
    Device(0, Routing(routes, links), Routing(routes, links))
  }

  function Dev(id: nat, routes: seq<Entry<nat>>, links: seq<Entry<LinkInfo>>): Device {
    Device(id, NO_ROUTING, Routing(routes, links))
  }

  function New(id: nat): Device {
    Dev(id, [], [])
  }

  // A device with one link, to next, and the route to the root over it.
  function Behind(id: nat, next: nat): Device {
    Dev(id, [Entry(0, 0)], [Link(0, next)])
  }

  function Request(target: nat, prev: nat, next: nat): RouteRequest {
    RouteRequest(target, 0, prev, 0, next, 0)
  }

  // ------------------------------------------------------------------------------ plans, step by step

  lemma NoWay(ds: seq<Device>, target: nat, prev: nat)
    ensures WithRoutes(ds, [], target, prev) == ds
  {
  }

  lemma RootOnly(ds: seq<Device>, target: nat, prev: nat)
    requires ds != []
    ensures WithRoutes(ds, [0], target, prev) == ds[0 := Routed(ds[0], target, prev)]
  {
    hide Routed;
  }

  // The links at the end, at places k and j.
  lemma ConnectedAt(ds: seq<Device>, ps: seq<Initiator>, q: RouteRequest, k: nat, j: nat, dk: Device, dj: Device)
    requires k < |ds| && j < |ds| && k != j && DeviceIndex(ds, q.prev) == k && DeviceIndex(ds, q.target) == j
    requires dk == WithLastHop(ds[k], q.target, q.busOfPrev, q.intraBus, UNDEFINED_LINK)
    requires dj == WithRouteBack(ds[j], q.next, q.busOfTarget, q.intraBus)
    ensures Connected(ds, ps, q, UNDEFINED_LINK).devices == ds[k := dk][j := dj]
    ensures Connected(ds, ps, q, UNDEFINED_LINK).outcome.RouteDone?
  {
    hide WithLastHop, WithRouteBack, QueuedAll;
    assert dk.id == ds[k].id by { LastHopId(ds[k], q.target, q.busOfPrev, q.intraBus, UNDEFINED_LINK); }
    SameIndex(ds, ds[k := dk], q.target);
  }

  // A route straight from the root.
  lemma Direct(ds: seq<Device>, ps: seq<Initiator>, q: RouteRequest, maxHops: nat, j: nat, dk: Device, dj: Device)
    requires q.prev == 0 && ds != [] && ds[0].id == 0 && 0 < j < |ds| && DeviceIndex(ds, q.target) == j
    requires dk == WithLastHop(ds[0], q.target, q.busOfPrev, q.intraBus, UNDEFINED_LINK)
    requires dj == WithRouteBack(ds[j], q.next, q.busOfTarget, q.intraBus)
    ensures AddRoute(ds, ps, q, UNDEFINED_LINK, maxHops).devices == ds[0 := dk][j := dj]
  {
    hide WithLastHop, WithRouteBack, QueuedAll, WithRoutes, Connected;
    NoWay(ds, q.target, 0);
    ConnectedAt(ds, QueuedAll(ps, IdsOf(ds, []), q.target), q, 0, j, dk, dj);
    WalkStops(ds, 0, q.target, 0, maxHops);
  }

  // A route behind a device the root is next to.
  lemma Indirect(ds: seq<Device>, ps: seq<Initiator>, q: RouteRequest, maxHops: nat, root: Device, k: nat, j: nat, dk: Device, dj: Device)
    requires 2 <= maxHops && q.prev != 0 && ds != [] && ds[0].id == 0 && 0 < k < |ds| && 0 < j < |ds| && k != j
    requires DeviceIndex(ds, q.prev) == k && DeviceIndex(ds, q.target) == j
    requires Hopped(ds[0].planned, q.prev) == HopTo(q.prev) && root == Routed(ds[0], q.target, q.prev)
    requires dk == WithLastHop(ds[k], q.target, q.busOfPrev, q.intraBus, UNDEFINED_LINK)
    requires dj == WithRouteBack(ds[j], q.next, q.busOfTarget, q.intraBus)
    ensures AddRoute(ds, ps, q, UNDEFINED_LINK, maxHops).devices == ds[0 := root][k := dk][j := dj]
    ensures AddRoute(ds, ps, q, UNDEFINED_LINK, maxHops).outcome == RouteDone
    ensures Walk(ds, 0, q.target, q.prev, maxHops) == Walked(RouteDone, [0])
  {
    hide WithLastHop, WithRouteBack, QueuedAll, WithRoutes, Connected, Hopped, Routed;
    var ds1 := ds[0 := root];
    WalkStep(ds, 0, q.target, q.prev, maxHops);
    WalkStops(ds1, q.prev, q.target, q.prev, maxHops - 1);
    assert [0] + [] == [0];
    RootOnly(ds, q.target, q.prev);
    SameIndex(ds, ds1, q.prev);
    SameIndex(ds, ds1, q.target);
    ConnectedAt(ds1, QueuedAll(ps, IdsOf(ds, [0]), q.target), q, k, j, dk, dj);
  }

  // A new link gets the next id.
  lemma NewLink(links: seq<Entry<LinkInfo>>, next: nat)
    requires Dense(links) && LinkIndex(links, next) == |links|
    ensures LinkedTo(links, next, 0, 0, UNDEFINED_LINK) == (links + [Link(|links|, next)], |links|)
  {
    LeastFreeIsUnused(links);
    InsertKeepsDense(links, LeastFree(links, 0), LinkInfo(next, 0, 0));
  }

  lemma BackToRoot(id: nat, next: nat)
    ensures WithRouteBack(New(id), next, 0, 0) == Behind(id, next)
  {
    assert [Entry(0, 0)] + [] == [Entry(0, 0)] && [Link(0, next)] + [] == [Link(0, next)];
  }

  // --------------------------------------------------------------------------- devices 2, 3, 5 and 4

  function Joined(): seq<Device> {
    [Root([], []), New(2), New(3), New(5), New(4)]
  }

  function S1(): seq<Device> {
    [Root([Entry(2, 0)], [Link(0, 2)]), Behind(2, 0), New(3), New(5), New(4)]
  }

  // 2 and 5 are next to the root.
  function S2(): seq<Device> {
    [Root([Entry(2, 0), Entry(5, 1)], [Link(0, 2), Link(1, 5)]), Behind(2, 0), New(3), Behind(5, 0), New(4)]
  }

  // And 3 is behind 2.
  function S3(): seq<Device> {
    [Root([Entry(2, 0), Entry(3, 0), Entry(5, 1)], [Link(0, 2), Link(1, 5)]),
     Dev(2, [Entry(0, 0), Entry(3, 1)], [Link(0, 0), Link(1, 3)]), Behind(3, 2), Behind(5, 0), New(4)]
  }

  // The root has been told to reach 4 as it reaches 3.
  function S4(): seq<Device> {
    S3()[0 := Root([Entry(2, 0), Entry(3, 0), Entry(4, 0), Entry(5, 1)], [Link(0, 2), Link(1, 5)])]
  }

  // From S2 on, 3 is behind 5 ...
  function T3(): seq<Device> {
    [Root([Entry(2, 0), Entry(3, 1), Entry(5, 1)], [Link(0, 2), Link(1, 5)]),
     Behind(2, 0), Behind(3, 5), Dev(5, [Entry(0, 0), Entry(3, 1)], [Link(0, 0), Link(1, 3)]), New(4)]
  }

  // ... and then behind 2.
  function T4(): seq<Device> {
    [Root([Entry(2, 0), Entry(3, 0), Entry(5, 1)], [Link(0, 2), Link(1, 5)]),
     Dev(2, [Entry(0, 0), Entry(3, 1)], [Link(0, 0), Link(1, 3)]), Behind(3, 2),
     Dev(5, [Entry(0, 0), Entry(3, 1)], [Link(0, 0), Link(1, 3)]), New(4)]
  }

  // 4 has been planned behind 3, by way of 5.
  function T5(): seq<Device> {
    [Root([Entry(2, 0), Entry(3, 0), Entry(4, 0), Entry(5, 1)], [Link(0, 2), Link(1, 5)]),
     Dev(2, [Entry(0, 0), Entry(3, 1)], [Link(0, 0), Link(1, 3)]), Dev(3, [Entry(0, 0), Entry(4, 1)], [Link(0, 2), Link(1, 4)]),
     Dev(5, [Entry(0, 0), Entry(3, 1), Entry(4, 1)], [Link(0, 0), Link(1, 3)]), Behind(4, 3)]
  }

  lemma To1(ps: seq<Initiator>, maxHops: nat)
    ensures AddRoute(Joined(), ps, Request(2, 0, 0), UNDEFINED_LINK, maxHops).devices == S1()
  {
    hide AddRoute;
    var ds := Joined();
    BackToRoot(2, 0);
    NewLink([], 2);
    Direct(ds, ps, Request(2, 0, 0), maxHops, 1, S1()[0], S1()[1]);
    assert ds[0 := S1()[0]][1 := S1()[1]] == S1();
  }

  lemma To2(ps: seq<Initiator>, maxHops: nat)
    ensures AddRoute(S1(), ps, Request(5, 0, 0), UNDEFINED_LINK, maxHops).devices == S2()
  {
    hide AddRoute;
    var ds := S1();
    BackToRoot(5, 0);
    NewLink([Link(0, 2)], 5);
    assert [Link(0, 2)] + [Link(1, 5)] == [Link(0, 2), Link(1, 5)];
    Direct(ds, ps, Request(5, 0, 0), maxHops, 3, S2()[0], S2()[3]);
    assert ds[0 := S2()[0]][3 := S2()[3]] == S2();
  }

  lemma To3(ps: seq<Initiator>, maxHops: nat)
    requires 2 <= maxHops
    ensures AddRoute(S2(), ps, Request(3, 2, 2), UNDEFINED_LINK, maxHops).devices == S3()
    ensures AddRoute(S2(), ps, Request(3, 2, 2), UNDEFINED_LINK, maxHops).outcome == RouteDone
    ensures Walk(S2(), 0, 3, 2, maxHops).way == [0]
  {
    hide AddRoute, Walk;
    var ds := S2();
    BackToRoot(3, 2);
    assert ds[0].planned.links[0].key == 0;
    assert Hopped(ds[0].planned, 2) == HopTo(2) && Routed(ds[0], 3, 2) == S3()[0];
    NewLink([Link(0, 0)], 3);
    assert [Link(0, 0)] + [Link(1, 3)] == [Link(0, 0), Link(1, 3)];
    Indirect(ds, ps, Request(3, 2, 2), maxHops, S3()[0], 1, 2, S3()[1], S3()[2]);
    assert ds[0 := S3()[0]][1 := S3()[1]][2 := S3()[2]] == S3();
  }

  lemma S2IsOk()
    ensures DevicesOk(S2())
  {
    var ds := S2();
    assert ds[0].planned.links[0].key == 0 && ds[0].planned.links[1].key == 1;
    assert ds[1].planned.links[0].key == 0 && ds[3].planned.links[0].key == 0;
  }

  /** The right hop is read: a packet for 3 is carried from the root over 2. */
  lemma RightHop(ps: seq<Initiator>, maxHops: nat)
    requires 2 <= maxHops
    ensures Carried(S3(), [0, 2, 3], 3) && Agrees(S2()[0].planned, 2) && Arrives(PlannedNodes(S3()), 0, 3, 2)
  {
    hide AddRoute, Walk, Carried;
    S2IsOk();
    To3(ps, maxHops);
    var way := Walk(S2(), 0, 3, 2, maxHops).way;
    assert IdsOf(S2(), way) == [0];
    DeliveredWhenAgreed(S2(), ps, Request(3, 2, 2), UNDEFINED_LINK, maxHops);
    var t := S2()[0].planned;
    assert IndexOf(t.routes, 2) == 0 && IndexOf(t.links, 0) == 0;
    assert [0] + [2, 3] == [0, 2, 3];
    var ns := PlannedNodes(S3());
    assert NodeIndex(ns, 0) == 0 && NextFrom(ns, 0, 3) == Some(2);
    assert NodeIndex(ns, 2) == 1 && NextFrom(ns, 2, 3) == Some(3);
  }

  /** The root has routes to 2 and 3 over link 0 and to 5 over link 1. Asked for a route behind 3 it reads the
      link at the index of 3's route, which leads to 5; 5 has no route to 3, and so the plan ends without one,
      but the root has been rewritten. */
  lemma WrongHop(ps: seq<Initiator>, maxHops: nat)
    requires 2 <= maxHops
    ensures var r := AddRoute(S3(), ps, Request(4, 3, 3), UNDEFINED_LINK, maxHops);
      r.outcome == NoRoute && r.way == [0] && r.devices == S4() != S3() && !Agrees(S3()[0].planned, 3)
  {
    hide WithRoutes, QueuedAll, Walk, Hopped, Routed, Agrees, Connected;
    var ds := S3();
    RootReadsWrong();
    FiveReadsNothing();
    assert DeviceIndex(S4(), 5) == 3 && DeviceIndex(ds, 0) == 0 by { DeviceIndexIs(S4(), 5, 3); }
    hide DeviceIndex;
    WalkStep(ds, 0, 4, 3, maxHops);
    WalkStops(S4(), 5, 4, 3, maxHops - 1);
    assert [0] + [] == [0];
    RootOnly(ds, 4, 3);
    assert |S4()[0].planned.routes| != |ds[0].planned.routes|;
  }

  lemma RootReadsWrong()
    ensures Hopped(S3()[0].planned, 3) == HopTo(5) && Routed(S3()[0], 4, 3) == S4()[0] && !Agrees(S3()[0].planned, 3)
  {
    var t := S3()[0].planned;
    assert t.links[0].key == 0;
    assert IndexOf(t.routes, 3) == 1 && IndexOf(t.links, 0) == 0;
  }

  lemma FiveReadsNothing()
    ensures Hopped(S4()[3].planned, 3) == HopNone
  {
    assert IndexOf(S4()[3].planned.routes, 3) == 1;
  }

  lemma ToT3(ps: seq<Initiator>, maxHops: nat)
    requires 2 <= maxHops
    ensures AddRoute(S2(), ps, Request(3, 5, 5), UNDEFINED_LINK, maxHops).devices == T3()
  {
    hide AddRoute, Walk;
    var ds := S2();
    BackToRoot(3, 5);
    assert ds[0].planned.links[1].key == 1;
    assert Hopped(ds[0].planned, 5) == HopTo(5) && Routed(ds[0], 3, 5) == T3()[0];
    NewLink([Link(0, 0)], 3);
    assert [Link(0, 0)] + [Link(1, 3)] == [Link(0, 0), Link(1, 3)];
    Indirect(ds, ps, Request(3, 5, 5), maxHops, T3()[0], 3, 2, T3()[3], T3()[2]);
    assert ds[0 := T3()[0]][3 := T3()[3]][2 := T3()[2]] == T3();
  }

  lemma ToT4(ps: seq<Initiator>, maxHops: nat)
    requires 2 <= maxHops
    ensures AddRoute(T3(), ps, Request(3, 2, 2), UNDEFINED_LINK, maxHops).devices == T4()
  {
    hide AddRoute, Walk;
    var ds := T3();
    assert ds[0].planned.links[0].key == 0;
    assert Hopped(ds[0].planned, 2) == HopTo(2) && Routed(ds[0], 3, 2) == T4()[0];
    NewLink([Link(0, 0)], 3);
    assert [Link(0, 0)] + [Link(1, 3)] == [Link(0, 0), Link(1, 3)];
    assert WithRouteBack(Behind(3, 5), 2, 0, 0) == Behind(3, 2);
    Indirect(ds, ps, Request(3, 2, 2), maxHops, T4()[0], 1, 2, T4()[1], T4()[2]);
    assert ds[0 := T4()[0]][1 := T4()[1]][2 := T4()[2]] == T4();
  }

  // The two hops of the last plan: from the root to 5, and from 5 to 3.
  lemma TwoHops(maxHops: nat)
    requires 2 <= maxHops
    ensures Walk(T4(), 0, 4, 3, maxHops) == Walked(RouteDone, [0, 3])
    ensures WithRoutes(T4(), [0, 3], 4, 3) == T4()[0 := T5()[0]][3 := T5()[3]]
    ensures !Agrees(T4()[0].planned, 3)
  {
    hide Walk, Hopped, Routed, Agrees;
    var ds := T4();
    var ds1 := ds[0 := T5()[0]];
    var ds2 := ds1[3 := T5()[3]];
    RootReads5();
    FiveReads3();
    assert DeviceIndex(ds1, 5) == 3 by { DeviceIndexIs(ds1, 5, 3); }
    WalkStep(ds, 0, 4, 3, maxHops);
    WalkStep(ds1, 5, 4, 3, maxHops - 1);
    WalkStops(ds2, 3, 4, 3, maxHops - 2);
    assert [0] + ([3] + []) == [0, 3];
  }

  lemma RootReads5()
    ensures Hopped(T4()[0].planned, 3) == HopTo(5) && Routed(T4()[0], 4, 3) == T5()[0] && !Agrees(T4()[0].planned, 3)
  {
    var t := T4()[0].planned;
    assert t.links[0].key == 0;
    assert IndexOf(t.routes, 3) == 1 && IndexOf(t.links, 0) == 0;
  }

  lemma FiveReads3()
    ensures Hopped(T4()[3].planned, 3) == HopTo(3) && Routed(T4()[3], 4, 3) == T5()[3]
  {
    var t := T4()[3].planned;
    assert t.links[1].key == 1 && IndexOf(t.routes, 3) == 1;
  }

  lemma ToT5(ps: seq<Initiator>, maxHops: nat)
    requires 2 <= maxHops
    ensures AddRoute(T4(), ps, Request(4, 3, 3), UNDEFINED_LINK, maxHops).devices == T5()
    ensures AddRoute(T4(), ps, Request(4, 3, 3), UNDEFINED_LINK, maxHops).outcome == RouteDone
  {
    hide Walk, WithRoutes, QueuedAll, WithLastHop, WithRouteBack, Connected;
    var ds, q := T4(), Request(4, 3, 3);
    var ds1 := ds[0 := T5()[0]][3 := T5()[3]];
    TwoHops(maxHops);
    LastLinkOfT5();
    BackToRoot(4, 3);
    assert DeviceIndex(ds1, 3) == 2 && DeviceIndex(ds1, 4) == 4 by {
      DeviceIndexIs(ds1, 3, 2);
      DeviceIndexIs(ds1, 4, 4);
    }
    ConnectedAt(ds1, QueuedAll(ps, IdsOf(ds, [0, 3]), 4), q, 2, 4, T5()[2], T5()[4]);
    assert ds1[2 := T5()[2]][4 := T5()[4]] == T5();
  }

  lemma LastLinkOfT5()
    ensures WithLastHop(Behind(3, 2), 4, 0, 0, UNDEFINED_LINK) == T5()[2]
  {
    NewLink([Link(0, 2)], 4);
    assert [Link(0, 2)] + [Link(1, 4)] == [Link(0, 2), Link(1, 4)];
  }

  /** The wrong hop is read and the plan is done all the same; but the root sends packets for 4 to 2, which knows
      no route to 4: they are lost. */
  lemma LostPacket(ps: seq<Initiator>, maxHops: nat, steps: nat)
    requires 2 <= maxHops
    ensures var r := AddRoute(T4(), ps, Request(4, 3, 3), UNDEFINED_LINK, maxHops);
      r.outcome == RouteDone && r.devices == T5() && !Agrees(T4()[0].planned, 3) && !Arrives(PlannedNodes(r.devices), 0, 4, steps)
  {
    hide AddRoute;
    ToT5(ps, maxHops);
    TwoHops(maxHops);
    var ns := PlannedNodes(T5());
    assert NodeIndex(ns, 0) == 0 && NextFrom(ns, 0, 4) == Some(2);
    assert NodeIndex(ns, 2) == 1 && NextFrom(ns, 2, 4) == None;
  }

  // ------------------------------------------------------------------------------ the runs of events

  lemma NobodyElse(ds: seq<Device>, id: nat)
    requires forall i :: 0 <= i < |ds| ==> ds[i].id != id
    ensures !HasDevice(ds, id)
  {
  }

  method Join(root: MeshRoot, id: nat)
    requires root.Valid() && forall i :: 0 <= i < |root.devices| ==> root.devices[i].id != id
    modifies root
    ensures root.Valid() && root.devices == old(root.devices) + [New(id)]
  {
    hide StateOk;
    NobodyElse(root.devices, id);
    var _, _ := Handle(root, Event.Join(id));
  }

  lemma RoomForAll(ds: seq<Device>)
    requires forall k :: 0 <= k < |ds| ==> |ds[k].planned.links| <= 3
    ensures HasRoom(ds)
  {
  }

  method Plan(root: MeshRoot, q: RouteRequest, maxHops: nat)
    requires root.Valid() && q.target != 0 && root.undefinedLink == UNDEFINED_LINK
    requires forall k :: 0 <= k < |root.devices| ==> |root.devices[k].planned.links| <= 3
    modifies root
    ensures root.Valid()
    ensures root.devices == AddRoute(old(root.devices), old(root.planned), q, UNDEFINED_LINK, maxHops).devices
  {
    hide StateOk, AddRoute;
    RoomForAll(root.devices);
    var _, _ := Handle(root, Route(q, maxHops));
  }

  // 2, 3, 5 and 4 join; 2 and 5 are next to the root.
  method Begin(maxHops: nat) returns (root: MeshRoot)
    requires 2 <= maxHops
    ensures fresh(root) && root.Valid() && root.devices == S2() && root.undefinedLink == UNDEFINED_LINK
  {
    hide StateOk, AddRoute;
    root := new MeshRoot(UNDEFINED_LINK);
    Join(root, 2);
    Join(root, 3);
    Join(root, 5);
    Join(root, 4);
    assert root.devices == Joined();
    To1(root.planned, maxHops);
    Plan(root, Request(2, 0, 0), maxHops);
    To2(root.planned, maxHops);
    Plan(root, Request(5, 0, 0), maxHops);
  }

  /** A run of events from the start to tables where the wrong hop leads nowhere: there is no route, and the root
      has been rewritten. */
  method LosesItsWay(maxHops: nat) returns (root: MeshRoot)
    requires 2 <= maxHops
    ensures fresh(root) && root.Valid() && root.devices == S4()
  {
    hide StateOk, AddRoute;
    root := Begin(maxHops);
    To3(root.planned, maxHops);
    Plan(root, Request(3, 2, 2), maxHops);
    WrongHop(root.planned, maxHops);
    Plan(root, Request(4, 3, 3), maxHops);
  }

  /** A run of events from the start, every plan in it done, after which packets for 4 are lost. */
  method LosesPackets(maxHops: nat) returns (root: MeshRoot)
    requires 2 <= maxHops
    ensures fresh(root) && root.Valid() && HasDevice(root.devices, 4)
    ensures forall steps: nat :: !Arrives(PlannedNodes(root.devices), 0, 4, steps)
  {
    hide StateOk, AddRoute;
    root := Begin(maxHops);
    ToT3(root.planned, maxHops);
    Plan(root, Request(3, 5, 5), maxHops);
    ToT4(root.planned, maxHops);
    Plan(root, Request(3, 2, 2), maxHops);
    forall steps: nat ensures !Arrives(PlannedNodes(T5()), 0, 4, steps) {
      LostPacket(root.planned, maxHops, steps);
    }
    ToT5(root.planned, maxHops);
    Plan(root, Request(4, 3, 3), maxHops);
    assert root.devices[4].id == 4;
  }

  // ------------------------------------------------------------- devices 12, 15, 20 and 9: a circle

  function C0(): seq<Device> {
    [Root([], []), New(12), New(15), New(20), New(9)]
  }

  function C1(): seq<Device> {
    [Root([Entry(12, 0)], [Link(0, 12)]), Behind(12, 0), New(15), New(20), New(9)]
  }

  function C2(): seq<Device> {
    [Root([Entry(12, 0), Entry(20, 1)], [Link(0, 12), Link(1, 20)]), Behind(12, 0), New(15), Behind(20, 0), New(9)]
  }

  // The root's links to 12, 20 and 15.
  function Links3(): seq<Entry<LinkInfo>> {
    [Link(0, 12), Link(1, 20), Link(2, 15)]
  }

  function C3(): seq<Device> {
    [Root([Entry(12, 0), Entry(15, 2), Entry(20, 1)], Links3()), Behind(12, 0), Behind(15, 0), Behind(20, 0), New(9)]
  }

  // 15 is behind 12 as well ...
  function C4(): seq<Device> {
    [Root([Entry(12, 0), Entry(15, 0), Entry(20, 1)], Links3()),
     Dev(12, [Entry(0, 0), Entry(15, 1)], [Link(0, 0), Link(1, 15)]), Behind(15, 0), Behind(20, 0), New(9)]
  }

  // ... and so is 9.
  function C5(): seq<Device> {
    [Root([Entry(9, 0), Entry(12, 0), Entry(15, 0), Entry(20, 1)], Links3()),
     Dev(12, [Entry(0, 0), Entry(9, 2), Entry(15, 1)], [Link(0, 0), Link(1, 15), Link(2, 9)]), Behind(15, 0), Behind(20, 0), Behind(9, 12)]
  }

  // 12 is behind 15 ...
  function C6(): seq<Device> {
    C5()[2 := Dev(15, [Entry(0, 0), Entry(12, 1)], [Link(0, 0), Link(1, 12)])]
  }

  // ... and so is 9.
  function C7(): seq<Device> {
    [C5()[0], C5()[1], Dev(15, [Entry(0, 0), Entry(9, 2), Entry(12, 1)], [Link(0, 0), Link(1, 12), Link(2, 9)]), Behind(20, 0), Behind(9, 15)]
  }

  lemma ToC1(ps: seq<Initiator>, maxHops: nat)
    ensures AddRoute(C0(), ps, Request(12, 0, 0), UNDEFINED_LINK, maxHops).devices == C1()
  {
    hide AddRoute;
    var ds := C0();
    BackToRoot(12, 0);
    NewLink([], 12);
    Direct(ds, ps, Request(12, 0, 0), maxHops, 1, C1()[0], C1()[1]);
    assert ds[0 := C1()[0]][1 := C1()[1]] == C1();
  }

  lemma ToC2(ps: seq<Initiator>, maxHops: nat)
    ensures AddRoute(C1(), ps, Request(20, 0, 0), UNDEFINED_LINK, maxHops).devices == C2()
  {
    hide AddRoute;
    var ds := C1();
    BackToRoot(20, 0);
    NewLink([Link(0, 12)], 20);
    assert [Link(0, 12)] + [Link(1, 20)] == [Link(0, 12), Link(1, 20)];
    Direct(ds, ps, Request(20, 0, 0), maxHops, 3, C2()[0], C2()[3]);
    assert ds[0 := C2()[0]][3 := C2()[3]] == C2();
  }

  lemma ToC3(ps: seq<Initiator>, maxHops: nat)
    ensures AddRoute(C2(), ps, Request(15, 0, 0), UNDEFINED_LINK, maxHops).devices == C3()
  {
    hide AddRoute;
    var ds := C2();
    BackToRoot(15, 0);
    NewLink([Link(0, 12), Link(1, 20)], 15);
    assert [Link(0, 12), Link(1, 20)] + [Link(2, 15)] == Links3();
    Direct(ds, ps, Request(15, 0, 0), maxHops, 2, C3()[0], C3()[2]);
    assert ds[0 := C3()[0]][2 := C3()[2]] == C3();
  }

  lemma ToC4(ps: seq<Initiator>, maxHops: nat)
    requires 2 <= maxHops
    ensures AddRoute(C3(), ps, Request(15, 12, 0), UNDEFINED_LINK, maxHops).devices == C4()
  {
    hide AddRoute;
    var ds := C3();
    assert ds[0].planned.links[0].key == 0;
    assert Hopped(ds[0].planned, 12) == HopTo(12) && Routed(ds[0], 15, 12) == C4()[0];
    NewLink([Link(0, 0)], 15);
    assert [Link(0, 0)] + [Link(1, 15)] == [Link(0, 0), Link(1, 15)];
    assert WithRouteBack(Behind(15, 0), 0, 0, 0) == Behind(15, 0);
    Indirect(ds, ps, Request(15, 12, 0), maxHops, C4()[0], 1, 2, C4()[1], C4()[2]);
    assert ds[0 := C4()[0]][1 := C4()[1]][2 := C4()[2]] == C4();
  }

  lemma ToC5(ps: seq<Initiator>, maxHops: nat)
    requires 2 <= maxHops
    ensures AddRoute(C4(), ps, Request(9, 12, 12), UNDEFINED_LINK, maxHops).devices == C5()
  {
    hide AddRoute;
    var ds := C4();
    assert ds[0].planned.links[0].key == 0;
    assert Hopped(ds[0].planned, 12) == HopTo(12) && Routed(ds[0], 9, 12) == C5()[0];
    BackToRoot(9, 12);
    NewLink([Link(0, 0), Link(1, 15)], 9);
    assert [Link(0, 0), Link(1, 15)] + [Link(2, 9)] == [Link(0, 0), Link(1, 15), Link(2, 9)];
    Indirect(ds, ps, Request(9, 12, 12), maxHops, C5()[0], 1, 4, C5()[1], C5()[4]);
    assert ds[0 := C5()[0]][1 := C5()[1]][4 := C5()[4]] == C5();
  }

  // The root reads the way to 15 from its third link, by luck the right one.
  lemma RootTo15(t: Routing, target: nat)
    requires t == C5()[0].planned && (target == 9 || target == 12)
    ensures Hopped(t, 15) == HopTo(15) && Routed(C5()[0], target, 15) == C5()[0]
  {
    assert t.links[0].key == 0;
    assert IndexOf(t.routes, 15) == 2;
    assert Lookup(t.routes, 15) == Some(0);
    assert Put(t.routes, Entry(target, 0)) == t.routes;
  }

  lemma ToC6(ps: seq<Initiator>, maxHops: nat)
    requires 2 <= maxHops
    ensures AddRoute(C5(), ps, Request(12, 15, 0), UNDEFINED_LINK, maxHops).devices == C6()
  {
    hide AddRoute, Hopped, Routed;
    var ds := C5();
    RootTo15(ds[0].planned, 12);
    NewLink([Link(0, 0)], 12);
    assert [Link(0, 0)] + [Link(1, 12)] == [Link(0, 0), Link(1, 12)];
    assert WithRouteBack(ds[1], 0, 0, 0) == ds[1];
    Indirect(ds, ps, Request(12, 15, 0), maxHops, ds[0], 2, 1, C6()[2], ds[1]);
    assert ds[0 := ds[0]][2 := C6()[2]][1 := ds[1]] == C6();
  }

  lemma ToC7(ps: seq<Initiator>, maxHops: nat)
    requires 2 <= maxHops
    ensures AddRoute(C6(), ps, Request(9, 15, 15), UNDEFINED_LINK, maxHops).devices == C7()
  {
    hide AddRoute, Hopped, Routed;
    var ds := C6();
    RootTo15(ds[0].planned, 9);
    NewLink([Link(0, 0), Link(1, 12)], 9);
    assert [Link(0, 0), Link(1, 12)] + [Link(2, 9)] == [Link(0, 0), Link(1, 12), Link(2, 9)];
    assert WithRouteBack(Behind(9, 12), 15, 0, 0) == Behind(9, 15);
    Indirect(ds, ps, Request(9, 15, 15), maxHops, ds[0], 2, 4, C7()[2], C7()[4]);
    assert ds[0 := ds[0]][2 := C7()[2]][4 := C7()[4]] == C7();
  }

  // The root, 12 and 15 once they have learned to reach 30 as they reach 9.
  function Taught(): seq<Device> {
    [Root([Entry(9, 0), Entry(12, 0), Entry(15, 0), Entry(20, 1), Entry(30, 0)], Links3()),
     Dev(12, [Entry(0, 0), Entry(9, 2), Entry(15, 1), Entry(30, 2)], [Link(0, 0), Link(1, 15), Link(2, 9)]),
     Dev(15, [Entry(0, 0), Entry(9, 2), Entry(12, 1), Entry(30, 2)], [Link(0, 0), Link(1, 12), Link(2, 9)]), Behind(20, 0), Behind(9, 15)]
  }

  // What each of them reads and learns, before and after.
  lemma Reads()
    ensures Hopped(C7()[0].planned, 9) == HopTo(12) && Routed(C7()[0], 30, 9) == Taught()[0]
    ensures Hopped(C7()[1].planned, 9) == HopTo(15) && Routed(C7()[1], 30, 9) == Taught()[1]
    ensures Hopped(C7()[2].planned, 9) == HopTo(12) && Routed(C7()[2], 30, 9) == Taught()[2]
    ensures Hopped(Taught()[1].planned, 9) == HopTo(15) && Routed(Taught()[1], 30, 9) == Taught()[1]
    ensures Hopped(Taught()[2].planned, 9) == HopTo(12) && Routed(Taught()[2], 30, 9) == Taught()[2]
  {
    hide Hopped, Routed;
    ReadsRoot();
    ReadsThird(C7()[1]);
    ReadsThird(C7()[2]);
    ReadsThird(Taught()[1]);
    ReadsThird(Taught()[2]);
  }

  lemma ReadsRoot()
    ensures Hopped(C7()[0].planned, 9) == HopTo(12) && Routed(C7()[0], 30, 9) == Taught()[0]
  {
    assert C7()[0].planned.links[0].key == 0;
  }

  lemma ReadsThird(d: Device)
    requires |d.planned.links| == 3 && d.planned.links[2].key == 2 && 3 <= |d.planned.routes| <= 4 && d.id != 0
    requires d.planned.routes[0].key == 0 && d.planned.routes[1] == Entry(9, 2) && 9 < d.planned.routes[2].key < 30
    requires |d.planned.routes| == 4 ==> d.planned.routes[3] == Entry(30, 2)
    ensures Hopped(d.planned, 9) == HopTo(d.planned.links[1].val.nextHop)
    ensures Routed(d, 30, 9) == d.(planned := d.planned.(routes := d.planned.routes[..3] + [Entry(30, 2)]))
  {
    var r := d.planned.routes;
    assert IndexOf(r, 9) == 1;
    assert Lookup(r, 9) == Some(2);
    assert r == r[..3] + r[3..];
    if |r| == 3 { PutBetween(r[..3], Entry(30, 2), r[3..]); } else { PutOver(r[..3], Entry(30, 2), r[3..]); }
    assert r[3..] == [] || r[3..][1..] == [];
  }

  lemma InACircle()
    ensures EntersCircle(C7(), 30, 9, 3, 2)
  {
    hide Hopped, Routed, Running;
    Reads();
    var ds0, ds3 := C7(), Taught();
    var ds1 := ds0[0 := ds3[0]];
    var ds2 := ds1[1 := ds3[1]];
    assert ds2[2 := ds3[2]] == ds3;
    assert DeviceIndex(ds0, 0) == 0 && DeviceIndex(ds1, 12) == 1 && DeviceIndex(ds2, 15) == 2;
    assert DeviceIndex(ds3, 12) == 1 && DeviceIndex(ds3, 15) == 2;
    assert ds3[1 := ds3[1]] == ds3 && ds3[2 := ds3[2]] == ds3;
    assert Leads(ds3, 12, 30, 9, 0, 12) && Leads(ds3, 15, 30, 9, 1, 12) && Leads(ds3, 12, 30, 9, 2, 12);
    RunningStep(ds3, 12, 30, 9, 0);
    RunningStep(ds2, 15, 30, 9, 1);
    RunningStep(ds1, 12, 30, 9, 2);
    RunningStep(ds0, 0, 30, 9, 3);
    assert After(ds3, 12, 30, 9, 0) == (ds3, 12);
    assert After(ds2, 15, 30, 9, 1) == (ds3, 12);
    assert After(ds1, 12, 30, 9, 2) == (ds3, 12);
    assert After(ds0, 0, 30, 9, 3) == (ds3, 12);
  }

  /** 12 and 15 read each other's link on the way to 9: a plan behind 9 is never done. */
  lemma CircleNeverEnds(ps: seq<Initiator>, maxHops: nat)
    ensures AddRoute(C7(), ps, Request(30, 9, 9), UNDEFINED_LINK, maxHops).outcome == StillWalking
  {
    hide EntersCircle, Walk, WithRoutes, QueuedAll;
    InACircle();
    EnteredRuns(C7(), 30, 9, 3, 2, maxHops);
  }

  // 12, 15, 20 and 9 join; the first three are next to the root.
  method BeginCircle(maxHops: nat) returns (root: MeshRoot)
    ensures fresh(root) && root.Valid() && root.devices == C3() && root.undefinedLink == UNDEFINED_LINK
  {
    hide StateOk, AddRoute;
    root := new MeshRoot(UNDEFINED_LINK);
    Join(root, 12);
    Join(root, 15);
    Join(root, 20);
    Join(root, 9);
    assert root.devices == C0();
    ToC1(root.planned, maxHops);
    Plan(root, Request(12, 0, 0), maxHops);
    ToC2(root.planned, maxHops);
    Plan(root, Request(20, 0, 0), maxHops);
    ToC3(root.planned, maxHops);
    Plan(root, Request(15, 0, 0), maxHops);
  }

  /** A run of events from the start to those tables. */
  method GoesInCircles(maxHops: nat) returns (root: MeshRoot)
    requires 2 <= maxHops
    ensures fresh(root) && root.Valid()
    ensures forall hops: nat :: AddRoute(root.devices, root.planned, Request(30, 9, 9), UNDEFINED_LINK, hops).outcome == StillWalking
  {
    hide StateOk, AddRoute;
    root := BeginCircle(maxHops);
    ToC4(root.planned, maxHops);
    Plan(root, Request(15, 12, 0), maxHops);
    ToC5(root.planned, maxHops);
    Plan(root, Request(9, 12, 12), maxHops);
    ToC6(root.planned, maxHops);
    Plan(root, Request(12, 15, 0), maxHops);
    ToC7(root.planned, maxHops);
    Plan(root, Request(9, 15, 15), maxHops);
    forall hops: nat ensures AddRoute(C7(), root.planned, Request(30, 9, 9), UNDEFINED_LINK, hops).outcome == StillWalking {
      CircleNeverEnds(root.planned, hops);
    }
  }
}
