/** The root's list of packets to send again: each call sends the task that has been due longest and either
    rearms it or, the last time, drops it. */
module Resend {
  import opened Wrappers

  datatype Kind = SelfRepeated | FromSanta

  datatype Packet = Packet(kind: Kind, target: nat, bus: nat, nextHop: nat, data: seq<nat>, checksum: nat)

  // A packet to be sent count more times, next at due.
  datatype Task = Task(packet: Packet, count: nat, due: nat)

  datatype ResendResult = NoneExists | NotNow | Interm(task: Task) | Final(task: Task) | Santa(task: Task)

  predicate Sound(ts: seq<Task>) {
    forall i :: 0 <= i < |ts| ==> ts[i].count > 0 && (ts[i].packet.kind.FromSanta? ==> ts[i].count == 1)
  }

  // Task i is due at now, none has been due for longer, and no earlier one as long.
  predicate Longest(ts: seq<Task>, i: nat, now: nat) {
    && i < |ts| && ts[i].due <= now
    && (forall j :: 0 <= j < |ts| ==> ts[i].due <= ts[j].due)
    && (forall j :: 0 <= j < i ==> ts[i].due < ts[j].due)
  }

  // The list once task i has been sent at now.
  function Sent(ts: seq<Task>, i: nat, now: nat, period: nat): seq<Task>
    requires i < |ts|
  {
    if ts[i].packet.kind.FromSanta? || ts[i].count <= 1 then ts[..i] + ts[i + 1..]
    else ts[i := ts[i].(count := ts[i].count - 1, due := now + period)]
  }

  // How often packet p is still to be sent.
  function Owed(ts: seq<Task>, p: Packet): nat {
    if ts == [] then 0 else (if ts[0].packet == p then ts[0].count else 0) + Owed(ts[1..], p)
  }

  // How often packet p has been sent, by what each event sent.
  function Sends(out: seq<Option<Task>>, p: Packet): nat {
    if out == [] then 0 else Sends(out[..|out| - 1], p) + if Carries(out[|out| - 1], p) then 1 else 0
  }

  predicate Carries(sent: Option<Task>, p: Packet) {
    sent.Some? && sent.value.packet == p
  }

  // The tasks due at exactly time t, in list order.
  function DueAt(ts: seq<Task>, t: nat): seq<Task> {
    if ts == [] then [] else (if ts[0].due == t then [ts[0]] else []) + DueAt(ts[1..], t)
  }

  // The list once everything due at now has been sent.
  function Served(ts: seq<Task>, now: nat, period: nat): seq<Task> {
    if ts == [] then []
    else (if ts[0].due > now then [ts[0]] else Sent([ts[0]], 0, now, period)) + Served(ts[1..], now, period)
  }

  function DueCount(ts: seq<Task>, now: nat): nat {
    if ts == [] then 0 else (if ts[0].due <= now then 1 else 0) + DueCount(ts[1..], now)
  }

  lemma {:induction false} OwedSplit(a: seq<Task>, b: seq<Task>, p: Packet)
    ensures Owed(a + b, p) == Owed(a, p) + Owed(b, p)
  {
    if a == [] {
      assert a + b == b;
    } else {
      assert (a + b)[1..] == a[1..] + b;
      OwedSplit(a[1..], b, p);
    }
  }

  lemma OwedOne(t: Task, p: Packet)
    ensures Owed([t], p) == if t.packet == p then t.count else 0
  {
    assert [t][1..] == [];
  }

  lemma {:induction false} DueAtSplit(a: seq<Task>, b: seq<Task>, t: nat)
    ensures DueAt(a + b, t) == DueAt(a, t) + DueAt(b, t)
  {
    if a == [] {
      assert a + b == b;
    } else {
      assert (a + b)[1..] == a[1..] + b && (a + b)[0] == a[0];
      DueAtSplit(a[1..], b, t);
      var x := if a[0].due == t then [a[0]] else [];
      assert x + (DueAt(a[1..], t) + DueAt(b, t)) == (x + DueAt(a[1..], t)) + DueAt(b, t);
    }
  }

  lemma {:induction false} ServedSplit(a: seq<Task>, b: seq<Task>, now: nat, period: nat)
    ensures Served(a + b, now, period) == Served(a, now, period) + Served(b, now, period)
  {
    if a == [] {
      assert a + b == b;
    } else {
      assert (a + b)[1..] == a[1..] + b;
      ServedSplit(a[1..], b, now, period);
    }
  }

  lemma {:induction false} DueCountSplit(a: seq<Task>, b: seq<Task>, now: nat)
    ensures DueCount(a + b, now) == DueCount(a, now) + DueCount(b, now)
  {
    if a == [] {
      assert a + b == b;
    } else {
      assert (a + b)[1..] == a[1..] + b;
      DueCountSplit(a[1..], b, now);
    }
  }

  lemma {:induction false} NoneDueAt(ts: seq<Task>, t: nat)
    requires forall i :: 0 <= i < |ts| ==> ts[i].due != t
    ensures DueAt(ts, t) == []
  {
    if ts == [] {
    } else {
      NoneDueAt(ts[1..], t);
    }
  }

  // The list before and after sending task i, cut at i.
  lemma SentParts(ts: seq<Task>, i: nat, now: nat, period: nat)
    requires i < |ts|
    ensures ts == ts[..i] + ([ts[i]] + ts[i + 1..])
    ensures Sent(ts, i, now, period) == ts[..i] + (Sent([ts[i]], 0, now, period) + ts[i + 1..])
  {
  }

  // Sending a task pays off one of the sends owed to its packet, and of no other packet.
  lemma SentPays(ts: seq<Task>, i: nat, now: nat, period: nat, p: Packet)
    requires i < |ts| && Sound(ts)
    ensures Owed(ts, p) == Owed(Sent(ts, i, now, period), p) + if ts[i].packet == p then 1 else 0
  {
    hide Sent, Owed;
    var a, x, b, y := ts[..i], [ts[i]], ts[i + 1..], Sent([ts[i]], 0, now, period);
    SentParts(ts, i, now, period);
    OwedSplit(a, x + b, p);
    OwedSplit(x, b, p);
    OwedSplit(a, y + b, p);
    OwedSplit(y, b, p);
    SentOnePays(ts[i], now, period, p);
  }

  lemma SentOnePays(t: Task, now: nat, period: nat, p: Packet)
    requires t.count > 0 && (t.packet.kind.FromSanta? ==> t.count == 1)
    ensures Owed([t], p) == Owed(Sent([t], 0, now, period), p) + if t.packet == p then 1 else 0
  {
    assert [t][..0] + [t][1..] == [];
    var t' := t.(count := t.count - 1, due := now + period);
    assert [t][0 := t'] == [t'];
    OwedOne(t, p);
    OwedOne(t', p);
  }

  lemma SentSound(ts: seq<Task>, i: nat, now: nat, period: nat)
    requires i < |ts| && Sound(ts)
    ensures Sound(Sent(ts, i, now, period))
  {
  }

  lemma SentOne(t: Task, now: nat, period: nat)
    ensures var y := Sent([t], 0, now, period); |y| <= 1 && forall j :: 0 <= j < |y| ==> y[j].due == now + period
  {
  }

  // Sending the longest due task takes it from the head of its due time's queue and touches no other queue.
  lemma SentQueues(ts: seq<Task>, i: nat, now: nat, period: nat)
    requires Longest(ts, i, now) && 0 < period
    ensures forall t: nat :: t <= now ==> DueAt(ts, t) == (if t == ts[i].due then [ts[i]] else []) + DueAt(Sent(ts, i, now, period), t)
    ensures Served(Sent(ts, i, now, period), now, period) == Served(ts, now, period)
    ensures DueCount(Sent(ts, i, now, period), now) == DueCount(ts, now) - 1
  {
    hide Sent;
    var a, x, b, y := ts[..i], [ts[i]], ts[i + 1..], Sent([ts[i]], 0, now, period);
    SentParts(ts, i, now, period);
    SentOne(ts[i], now, period);
    forall t: nat | t <= now ensures DueAt(ts, t) == (if t == ts[i].due then x else []) + DueAt(Sent(ts, i, now, period), t) {
      DueAtSplit(a, x + b, t);
      DueAtSplit(x, b, t);
      DueAtSplit(a, y + b, t);
      DueAtSplit(y, b, t);
      NoneDueAt(y, t);
      assert DueAt(x, t) == if t == ts[i].due then x else [] by { assert x[1..] == []; }
      if t == ts[i].due { NoneDueAt(a, t); }
    }
    ServedSplit(a, x + b, now, period);
    ServedSplit(x, b, now, period);
    ServedSplit(a, y + b, now, period);
    ServedSplit(y, b, now, period);
    ServedOne(x, y, now, period);
    DueCountSplit(a, x + b, now);
    DueCountSplit(x, b, now);
    DueCountSplit(a, y + b, now);
    DueCountSplit(y, b, now);
  }

  lemma ServedOne(x: seq<Task>, y: seq<Task>, now: nat, period: nat)
    requires |x| == 1 && x[0].due <= now && 0 < period && y == Sent(x, 0, now, period)
    requires |y| <= 1 && forall j :: 0 <= j < |y| ==> y[j].due == now + period
    ensures Served(x, now, period) == Served(y, now, period) == y
    ensures DueCount(x, now) == 1 && DueCount(y, now) == 0
  {
    assert x[1..] == [] && x == [x[0]];
    if y != [] { assert y[1..] == [] && y == [y[0]]; }
  }

  // Which repeated packets are no longer to be sent.
  datatype Selector = OfChecksum(checksum: nat) | ToTarget(target: nat)

  predicate Selects(sel: Selector, p: Packet) {
    p.kind.SelfRepeated? && match sel case OfChecksum(c) => p.checksum == c case ToTarget(id) => p.target == id
  }

  // The tasks not selected.
  function Kept(ts: seq<Task>, sel: Selector): seq<Task> {
    if ts == [] then [] else (if Selects(sel, ts[0].packet) then [] else [ts[0]]) + Kept(ts[1..], sel)
  }

  // The tasks selected.
  function Dropped(ts: seq<Task>, sel: Selector): (r: seq<Task>)
    ensures forall i :: 0 <= i < |r| ==> Selects(sel, r[i].packet)
  {
    if ts == [] then [] else (if Selects(sel, ts[0].packet) then [ts[0]] else []) + Dropped(ts[1..], sel)
  }

  lemma {:induction false} KeptOwes(ts: seq<Task>, sel: Selector, p: Packet)
    ensures Owed(Kept(ts, sel), p) + Owed(Dropped(ts, sel), p) == Owed(ts, p)
    ensures Owed(Kept(ts, sel), p) == if Selects(sel, p) then 0 else Owed(ts, p)
  {
    if ts == [] {
    } else {
      KeptOwes(ts[1..], sel, p);
      assert ts == [ts[0]] + ts[1..];
      OwedOne(ts[0], p);
      OwedSplit([ts[0]], Kept(ts[1..], sel), p);
      OwedSplit([ts[0]], Dropped(ts[1..], sel), p);
      assert [] + Kept(ts[1..], sel) == Kept(ts[1..], sel) && [] + Dropped(ts[1..], sel) == Dropped(ts[1..], sel);
    }
  }

  lemma {:induction false} KeptSound(ts: seq<Task>, sel: Selector)
    requires Sound(ts)
    ensures Sound(Kept(ts, sel))
  {
    if ts == [] {
    } else {
      KeptSound(ts[1..], sel);
    }
  }

  lemma {:induction false} KeptSplit(a: seq<Task>, b: seq<Task>, sel: Selector)
    ensures Kept(a + b, sel) == Kept(a, sel) + Kept(b, sel)
  {
    if a == [] {
      assert a + b == b;
    } else {
      assert (a + b)[1..] == a[1..] + b;
      KeptSplit(a[1..], b, sel);
    }
  }

  // The places the tasks kept had before, in order.
  lemma {:induction false} KeptPlaces(ts: seq<Task>, sel: Selector) returns (places: seq<nat>)
    ensures |places| == |Kept(ts, sel)| && forall i, j :: 0 <= i < j < |places| ==> places[i] < places[j]
    ensures forall i :: 0 <= i < |places| ==> places[i] < |ts| && Kept(ts, sel)[i] == ts[places[i]]
    ensures forall k :: 0 <= k < |ts| ==>
              (k in places <==> !(ts[k].packet.kind.SelfRepeated?
                                  && match sel
                                     case OfChecksum(c) => ts[k].packet.checksum == c
                                     case ToTarget(id) => ts[k].packet.target == id))
  {
    if ts == [] {
      places := [];
    } else {
      var n := |ts| - 1;
      places := KeptPlaces(ts[..n], sel);
      KeptSplit(ts[..n], [ts[n]], sel);
      assert ts[..n] + [ts[n]] == ts && [ts[n]][1..] == [];
      KeptNothing(sel);
      if !Selects(sel, ts[n].packet) { places := places + [n]; }
    }
  }

  lemma KeptNothing(sel: Selector)
    ensures Kept([], sel) == []
  {
  }

  lemma KeptStep(ts: seq<Task>, i: nat, sel: Selector)
    requires i < |ts|
    ensures Kept(ts[i..], sel) == if Selects(sel, ts[i].packet) then Kept(ts[i + 1..], sel) else [ts[i]] + Kept(ts[i + 1..], sel)
  {
    assert ts[i..][1..] == ts[i + 1..];
  }

  // The list before and after an event, and what the event sends.
  ghost predicate Follows(ts: seq<Task>, e: Event, sent: Option<Task>, ts': seq<Task>, period: nat) {
    match e
    case Add(packet, resends, now) =>
      && sent == None && |ts'| == |ts| + 1 && ts'[..|ts|] == ts && ts'[|ts|].packet == packet
      && (packet.kind.SelfRepeated? ==> ts'[|ts|].count == resends && ts'[|ts|].due == now + period)
      && (packet.kind.FromSanta? ==> ts'[|ts|].count == 1 && ts'[|ts|].due == now)
    case Poll(now) =>
      if forall j :: 0 <= j < |ts| ==> ts[j].due > now then ts' == ts && sent == None
      else exists i: nat :: Longest(ts, i, now) && sent == Some(ts[i]) && ts' == Sent(ts, i, now, period)
    case Remove(sel) => ts' == Kept(ts, sel) && sent == None
  }

  // The lists before, between and after the events, and what each event sends.
  ghost predicate Traced(events: seq<Event>, lists: seq<seq<Task>>, out: seq<Option<Task>>, period: nat) {
    && |lists| == |events| + 1 && |out| == |events|
    && forall e :: 0 <= e < |events| ==> Follows(lists[e], events[e], out[e], lists[e + 1], period)
  }

  // What the removals took from the lists they met.
  function Forgiven(events: seq<Event>, lists: seq<seq<Task>>): seq<Task>
    requires |events| < |lists|
  {
    if events == [] then []
    else
      var k := |events| - 1;
      Forgiven(events[..k], lists) + if events[k].Remove? then Dropped(lists[k], events[k].sel) else []
  }

  lemma {:induction false} SameForgiven(events: seq<Event>, lists: seq<seq<Task>>, lists': seq<seq<Task>>)
    requires |events| < |lists| && lists <= lists'
    ensures Forgiven(events, lists') == Forgiven(events, lists)
  {
    if events == [] {
    } else {
      SameForgiven(events[..|events| - 1], lists, lists');
    }
  }

  datatype Event = Add(packet: Packet, resends: nat, now: nat) | Poll(now: nat) | Remove(sel: Selector)

  // Some event takes packet p out.
  predicate Removed(events: seq<Event>, p: Packet) {
    exists e :: e in events && e.Remove? && Selects(e.sel, p)
  }

  // How often packet p is to be sent because of the events.
  function Added(events: seq<Event>, p: Packet): nat {
    if events == [] then 0
    else
      Added(events[..|events| - 1], p) + match events[|events| - 1]
      case Add(packet, resends, _) => if packet != p then 0 else if packet.kind.FromSanta? then 1 else resends
      case _ => 0
  }

  // After the first e events: what has been sent, is to be sent and is forgiven makes up what was to be sent.
  ghost predicate Balanced(ts0: seq<Task>, events: seq<Event>, e: nat, out: seq<Option<Task>>, ts: seq<Task>, forgiven: seq<Task>)
    requires e <= |events|
  {
    (forall p :: Sends(out, p) + Owed(ts, p) + Owed(forgiven, p) == Owed(ts0, p) + Added(events[..e], p))
    && forall p :: !Removed(events, p) ==> Owed(forgiven, p) == 0
  }

  lemma BalancedAtFirst(ts: seq<Task>, events: seq<Event>, forgiven: seq<Task>, lists: seq<seq<Task>>)
    requires |lists| == 1 && forgiven == Forgiven([], lists)
    ensures Balanced(ts, events, 0, [], ts, forgiven) && events[..0] == []
  {
  }

  lemma InBalance(ts0: seq<Task>, events: seq<Event>, out: seq<Option<Task>>, ts: seq<Task>, forgiven: seq<Task>)
    requires Balanced(ts0, events, |events|, out, ts, forgiven)
    ensures forall p :: Sends(out, p) + Owed(ts, p) + Owed(forgiven, p) == Owed(ts0, p) + Added(events, p)
    ensures forall p :: !Removed(events, p) ==> Owed(forgiven, p) == 0
  {
    assert events[..|events|] == events;
  }

  lemma ForgivenMore(events: seq<Event>, e: nat, lists: seq<seq<Task>>, lists': seq<seq<Task>>)
    requires e < |events| && |lists| == e + 1 && lists <= lists' && |lists'| == e + 2
    ensures Forgiven(events[..e + 1], lists')
            == Forgiven(events[..e], lists) + if events[e].Remove? then Dropped(lists[e], events[e].sel) else []
  {
    assert events[..e + 1][..e] == events[..e];
    SameForgiven(events[..e], lists, lists');
  }

  lemma AddedMore(events: seq<Event>, e: nat, p: Packet)
    requires e < |events|
    ensures Added(events[..e + 1], p) == Added(events[..e], p) + match events[e]
      case Add(packet, resends, _) => if packet != p then 0 else if packet.kind.FromSanta? then 1 else resends
      case _ => 0
  {
    assert events[..e + 1][..e] == events[..e];
  }

  lemma AddBalances(ts0: seq<Task>, events: seq<Event>, e: nat, out: seq<Option<Task>>, ts: seq<Task>, forgiven: seq<Task>,
                    ts': seq<Task>, period: nat)
    requires e < |events| && events[e].Add? && Balanced(ts0, events, e, out, ts, forgiven)
    requires Follows(ts, events[e], None, ts', period)
    ensures Balanced(ts0, events, e + 1, out + [None], ts', forgiven)
  {
    hide Owed, Added, Removed;
    var task := ts'[|ts|];
    assert ts' == ts + [task];
    forall p ensures Owed(ts', p) + Added(events[..e], p) == Owed(ts, p) + Added(events[..e + 1], p) && Sends(out + [None], p) == Sends(out, p) {
      OwedSplit(ts, [task], p);
      OwedOne(task, p);
      AddedMore(events, e, p);
      SendsMore(out, None, p);
    }
  }

  lemma SendsMore(out: seq<Option<Task>>, sent: Option<Task>, p: Packet)
    ensures Sends(out + [sent], p) == Sends(out, p) + if Carries(sent, p) then 1 else 0
  {
    assert (out + [sent])[..|out|] == out;
  }

  lemma PollBalances(ts0: seq<Task>, events: seq<Event>, e: nat, out: seq<Option<Task>>, ts: seq<Task>, forgiven: seq<Task>,
                     sent: Option<Task>, ts': seq<Task>, period: nat)
    requires e < |events| && events[e].Poll? && Balanced(ts0, events, e, out, ts, forgiven) && Sound(ts)
    requires Follows(ts, events[e], sent, ts', period)
    ensures Balanced(ts0, events, e + 1, out + [sent], ts', forgiven)
  {
    hide Owed, Added, Removed, Sound, Sent;
    var now := events[e].now;
    forall p
      ensures Sends(out + [sent], p) + Owed(ts', p) == Sends(out, p) + Owed(ts, p)
      ensures Added(events[..e + 1], p) == Added(events[..e], p)
    {
      AddedMore(events, e, p);
      SendsMore(out, sent, p);
      if exists j :: 0 <= j < |ts| && ts[j].due <= now {
        var i: nat :| Longest(ts, i, now) && sent == Some(ts[i]) && ts' == Sent(ts, i, now, period);
        SentPays(ts, i, now, period, p);
      }
    }
  }

  lemma RemoveBalances(ts0: seq<Task>, events: seq<Event>, e: nat, out: seq<Option<Task>>, ts: seq<Task>, forgiven: seq<Task>, ts': seq<Task>)
    requires e < |events| && events[e].Remove? && Balanced(ts0, events, e, out, ts, forgiven) && ts' == Kept(ts, events[e].sel)
    ensures Balanced(ts0, events, e + 1, out + [None], ts', forgiven + Dropped(ts, events[e].sel))
  {
    hide Owed, Added, Sends, Kept, Dropped;
    var sel := events[e].sel;
    forall p
      ensures Owed(ts', p) + Owed(forgiven + Dropped(ts, sel), p) == Owed(ts, p) + Owed(forgiven, p)
      ensures !Removed(events, p) ==> Owed(forgiven + Dropped(ts, sel), p) == Owed(forgiven, p)
      ensures Added(events[..e + 1], p) == Added(events[..e], p) && Sends(out + [None], p) == Sends(out, p)
    {
      KeptOwes(ts, sel, p);
      OwedSplit(forgiven, Dropped(ts, sel), p);
      AddedMore(events, e, p);
      SendsMore(out, None, p);
      assert events[e] in events;
    }
  }

  lemma Polled(ts: seq<Task>, e: Event, ts': seq<Task>, period: nat, r: ResendResult, i: nat)
    requires e.Poll?
    requires r.NoneExists? <==> ts == []
    requires r.NotNow? <==> ts != [] && forall j :: 0 <= j < |ts| ==> ts[j].due > e.now
    requires r.NoneExists? || r.NotNow? ==> ts' == ts
    requires !(r.NoneExists? || r.NotNow?) ==> Longest(ts, i, e.now) && r.task == ts[i] && ts' == Sent(ts, i, e.now, period)
    ensures Follows(ts, e, if r.NoneExists? || r.NotNow? then None else Some(r.task), ts', period)
  {
  }

  lemma NowKept(ts: seq<Task>, e: Event, ts': seq<Task>, period: nat)
    requires e.Remove? && ts' == Kept(ts, e.sel)
    ensures Follows(ts, e, None, ts', period)
  {
  }

  lemma NowAdded(ts: seq<Task>, e: Event, ts': seq<Task>, period: nat)
    requires e.Add? && |ts'| == |ts| + 1 && ts'[..|ts|] == ts && ts'[|ts|].packet == e.packet
    requires e.packet.kind.SelfRepeated? ==> ts'[|ts|].count == e.resends && ts'[|ts|].due == e.now + period
    requires e.packet.kind.FromSanta? ==> ts'[|ts|].count == 1 && ts'[|ts|].due == e.now
    ensures Follows(ts, e, None, ts', period)
  {
  }

  // ---------------------------------------------------------------------------------- sending times

  // A task on the list after an event was there before, due no later, or the event has added it.
  lemma Origin(ts: seq<Task>, e: Event, sent: Option<Task>, ts': seq<Task>, period: nat, j: nat)
    requires Follows(ts, e, sent, ts', period) && j < |ts'|
    ensures (exists i :: 0 <= i < |ts| && ts[i].packet == ts'[j].packet && ts[i].due <= ts'[j].due)
            || (e.Add? && e.packet == ts'[j].packet && ts'[j].due == e.now + if e.packet.kind.FromSanta? then 0 else period)
  {
    match e {
      case Add(_, _, _) =>
        if j < |ts| { assert ts'[..|ts|][j] == ts[j]; }
      case Poll(now) =>
        if exists k :: 0 <= k < |ts| && ts[k].due <= now {
          var i: nat :| Longest(ts, i, now) && sent == Some(ts[i]) && ts' == Sent(ts, i, now, period);
          if |ts'| == |ts| || j < i {
            assert ts[j].packet == ts'[j].packet && ts[j].due <= ts'[j].due;
          } else {
            assert ts[j + 1] == ts'[j];
          }
        }
      case Remove(sel) =>
        var places := KeptPlaces(ts, sel);
        assert ts[places[j]] == ts'[j];
    }
  }

  // Every task on the list goes back to one that was there at first, or to its addition.
  lemma {:induction false} DueAfter(events: seq<Event>, lists: seq<seq<Task>>, out: seq<Option<Task>>, period: nat, e: nat, j: nat)
    requires Traced(events, lists, out, period) && e <= |events| && j < |lists[e]|
    ensures OnTime(events, lists[0], period, e, lists[e][j])
  {
    if e == 0 {
    } else {
      hide Follows;
      assert Follows(lists[e - 1], events[e - 1], out[e - 1], lists[e - 1 + 1], period);
      var ts, t := lists[e - 1], lists[e][j];
      Origin(ts, events[e - 1], out[e - 1], lists[e], period, j);
      if exists i :: 0 <= i < |ts| && ts[i].packet == t.packet && ts[i].due <= t.due {
        var i :| 0 <= i < |ts| && ts[i].packet == t.packet && ts[i].due <= t.due;
        DueAfter(events, lists, out, period, e - 1, i);
      }
    }
  }

  // The task was on the list ts0, due no later; or one of the first e events added its packet, a period before
  // it is due if it is a repeated one.
  ghost predicate OnTime(events: seq<Event>, ts0: seq<Task>, period: nat, e: nat, t: Task)
    requires e <= |events|
  {
    (exists i :: 0 <= i < |ts0| && ts0[i].packet == t.packet && ts0[i].due <= t.due)
    || exists k :: 0 <= k < e && events[k].Add? && events[k].packet == t.packet
                   && events[k].now + (if t.packet.kind.FromSanta? then 0 else period) <= t.due
  }

  // Packet p is added by event k, by no other, and was not on the list ts0.
  ghost predicate AddedOnce(ts0: seq<Task>, events: seq<Event>, k: nat, p: Packet) {
    && k < |events| && events[k].Add? && events[k].packet == p
    && (forall e :: 0 <= e < |events| && e != k && events[e].Add? ==> events[e].packet != p)
    && (forall i :: 0 <= i < |ts0| ==> ts0[i].packet != p)
  }

  // There is at most one task for p, and it is due at time due or later.
  predicate AtMostOne(ts: seq<Task>, p: Packet, due: nat) {
    && (forall i :: 0 <= i < |ts| && ts[i].packet == p ==> due <= ts[i].due)
    && (forall i, j :: 0 <= i < j < |ts| ==> ts[i].packet != p || ts[j].packet != p)
  }

  // The time n periods after start.
  function Periods(start: nat, n: nat, period: nat): nat {
    start + n * period
  }

  // The n-th send of packet p comes n periods or more after its addition by event k.
  ghost predicate PeriodsApart(events: seq<Event>, out: seq<Option<Task>>, period: nat, k: nat, p: Packet) {
    && k < |events| == |out| && events[k].Add?
    && forall e :: 0 <= e < |events| && Carries(out[e], p) ==>
         events[e].Poll? && Periods(events[k].now, Sends(out[..e], p) + 1, period) <= events[e].now
  }

  // With n sends so far: before its addition there is no task for p; after it the one there is comes due n + 1
  // periods after the addition or later.
  ghost predicate SpacedAt(ts: seq<Task>, added: bool, n: nat, start: nat, period: nat, p: Packet) {
    if added then AtMostOne(ts, p, Periods(start, n + 1, period))
    else n == 0 && forall i :: 0 <= i < |ts| ==> ts[i].packet != p
  }

  lemma SpacedStep(ts: seq<Task>, e: Event, sent: Option<Task>, ts': seq<Task>, period: nat, p: Packet,
                   added: bool, now: bool, n: nat, start: nat)
    requires Follows(ts, e, sent, ts', period) && p.kind.SelfRepeated? && SpacedAt(ts, added, n, start, period, p)
    requires now <==> e.Add? && e.packet == p
    requires now ==> !added && e.now == start
    ensures SpacedAt(ts', added || now, if Carries(sent, p) then n + 1 else n, start, period, p)
  {
    hide Follows, AtMostOne, Periods;
    OnePeriodMore(start, n, period);
    OnePeriodMore(start, n + 1, period);
    if now {
      FirstDue(ts, e, sent, ts', period, p);
    } else if added {
      NextDue(ts, e, sent, ts', period, p, Periods(start, n + 1, period));
    } else {
      StillNone(ts, e, sent, ts', period, p);
    }
  }

  lemma {:induction false} Spaced(events: seq<Event>, lists: seq<seq<Task>>, out: seq<Option<Task>>, period: nat, k: nat, p: Packet, e: nat)
    requires Traced(events, lists, out, period) && AddedOnce(lists[0], events, k, p) && p.kind.SelfRepeated? && e <= |events|
    ensures SpacedAt(lists[e], k < e, Sends(out[..e], p), events[k].now, period, p)
  {
    hide Follows, SpacedAt, Sends, Carries, AddedOnce, Traced;
    TraceSizes(events, lists, out, period);
    TheAddition(lists[0], events, k, p, period);
    if e == 0 {
      assert out[..0] == [];
      NothingSentYet(p);
    } else {
      Spaced(events, lists, out, period, k, p, e - 1);
      var sent := TraceAt(events, lists, out, period, e - 1);
      assert out[..e] == out[..e - 1] + [sent];
      SendsMore(out[..e - 1], sent, p);
      SpacedStep(lists[e - 1], events[e - 1], sent, lists[e], period, p, k < e - 1, k == e - 1, Sends(out[..e - 1], p), events[k].now);
    }
  }

  lemma TheAddition(ts0: seq<Task>, events: seq<Event>, k: nat, p: Packet, period: nat)
    requires AddedOnce(ts0, events, k, p)
    ensures k < |events| && events[k].Add? && forall e :: 0 <= e < |events| ==> (events[e].Add? && events[e].packet == p <==> e == k)
    ensures SpacedAt(ts0, false, 0, events[k].now, period, p)
  {
  }

  lemma NothingSentYet(p: Packet)
    ensures Sends([], p) == 0
  {
  }

  lemma TraceSizes(events: seq<Event>, lists: seq<seq<Task>>, out: seq<Option<Task>>, period: nat)
    requires Traced(events, lists, out, period)
    ensures |lists| == |events| + 1 && |out| == |events|
  {
  }

  lemma TraceAt(events: seq<Event>, lists: seq<seq<Task>>, out: seq<Option<Task>>, period: nat, e: nat) returns (sent: Option<Task>)
    requires Traced(events, lists, out, period) && e < |events|
    ensures |lists| == |events| + 1 && |out| == |events| && sent == out[e]
    ensures Follows(lists[e], events[e], sent, lists[e + 1], period)
  {
    sent := out[e];
  }

  lemma OnePeriodMore(start: nat, n: nat, period: nat)
    ensures Periods(start, n + 1, period) == Periods(start, n, period) + period
    ensures Periods(start, 1, period) == start + period
  {
  }

  lemma FirstDue(ts: seq<Task>, e: Event, sent: Option<Task>, ts': seq<Task>, period: nat, p: Packet)
    requires Follows(ts, e, sent, ts', period) && e.Add? && e.packet == p && p.kind.SelfRepeated?
    requires forall i :: 0 <= i < |ts| ==> ts[i].packet != p
    ensures AtMostOne(ts', p, e.now + period) && sent == None
  {
    assert forall i :: 0 <= i < |ts| ==> ts'[i] == ts'[..|ts|][i];
  }

  lemma StillNone(ts: seq<Task>, e: Event, sent: Option<Task>, ts': seq<Task>, period: nat, p: Packet)
    requires Follows(ts, e, sent, ts', period) && !(e.Add? && e.packet == p)
    requires forall i :: 0 <= i < |ts| ==> ts[i].packet != p
    ensures !Carries(sent, p) && forall j :: 0 <= j < |ts'| ==> ts'[j].packet != p
  {
    forall j | 0 <= j < |ts'| ensures ts'[j].packet != p {
      Origin(ts, e, sent, ts', period, j);
    }
  }

  lemma NextDue(ts: seq<Task>, e: Event, sent: Option<Task>, ts': seq<Task>, period: nat, p: Packet, due: nat)
    requires Follows(ts, e, sent, ts', period) && !(e.Add? && e.packet == p) && AtMostOne(ts, p, due)
    ensures Carries(sent, p) ==> e.Poll? && due <= e.now
    ensures AtMostOne(ts', p, if Carries(sent, p) then due + period else due)
  {
    match e {
      case Add(_, _, _) =>
        assert forall i :: 0 <= i < |ts| ==> ts'[i] == ts'[..|ts|][i];
      case Poll(now) =>
        if exists k :: 0 <= k < |ts| && ts[k].due <= now {
          var i: nat :| Longest(ts, i, now) && sent == Some(ts[i]) && ts' == Sent(ts, i, now, period);
          SentDue(ts, i, now, period, p, due);
        }
      case Remove(sel) =>
        var places := KeptPlaces(ts, sel);
        hide Kept;
        forall i, j | 0 <= i < j < |ts'| ensures ts'[i].packet != p || ts'[j].packet != p {
          assert places[i] < places[j] && ts'[i] == ts[places[i]] && ts'[j] == ts[places[j]];
        }
    }
  }

  lemma SentDue(ts: seq<Task>, i: nat, now: nat, period: nat, p: Packet, due: nat)
    requires Longest(ts, i, now) && AtMostOne(ts, p, due)
    ensures ts[i].packet == p ==> due <= now
    ensures AtMostOne(Sent(ts, i, now, period), p, if ts[i].packet == p then due + period else due)
  {
    var ts' := Sent(ts, i, now, period);
    if |ts'| < |ts| {
      assert forall j :: 0 <= j < |ts'| ==> ts'[j] == ts[if j < i then j else j + 1];
    } else {
      assert forall j :: 0 <= j < |ts'| && j != i ==> ts'[j] == ts[j];
    }
  }

  lemma AllOnTime(events: seq<Event>, lists: seq<seq<Task>>, out: seq<Option<Task>>, period: nat)
    requires Traced(events, lists, out, period)
    ensures forall e :: 0 <= e < |events| && out[e].Some? ==>
              events[e].Poll? && out[e].value.due <= events[e].now && OnTime(events, lists[0], period, e, out[e].value)
  {
    hide OnTime;
    forall e | 0 <= e < |events| && out[e].Some?
      ensures events[e].Poll? && out[e].value.due <= events[e].now && OnTime(events, lists[0], period, e, out[e].value)
    {
      var i := SentFrom(lists[e], events[e], out[e], lists[e + 1], period);
      DueAfter(events, lists, out, period, e, i);
    }
  }

  lemma SentFrom(ts: seq<Task>, e: Event, sent: Option<Task>, ts': seq<Task>, period: nat) returns (i: nat)
    requires Follows(ts, e, sent, ts', period) && sent.Some?
    ensures e.Poll? && i < |ts| && sent == Some(ts[i]) && ts[i].due <= e.now
  {
    i :| Longest(ts, i, e.now) && sent == Some(ts[i]) && ts' == Sent(ts, i, e.now, period);
  }

  lemma AllSpaced(events: seq<Event>, lists: seq<seq<Task>>, out: seq<Option<Task>>, period: nat)
    requires Traced(events, lists, out, period)
    ensures forall k: nat, p :: AddedOnce(lists[0], events, k, p) && p.kind.SelfRepeated? ==> PeriodsApart(events, out, period, k, p)
  {
    forall k: nat, p | AddedOnce(lists[0], events, k, p) && p.kind.SelfRepeated? ensures PeriodsApart(events, out, period, k, p) {
      assert events[k].Add?;
      forall e | 0 <= e < |events| && Carries(out[e], p)
        ensures events[e].Poll? && Periods(events[k].now, Sends(out[..e], p) + 1, period) <= events[e].now
      {
        hide AddedOnce, Follows, Sends, Periods;
        Spaced(events, lists, out, period, k, p, e);
        assert Follows(lists[e], events[e], out[e], lists[e + 1], period);
        var i := SentFrom(lists[e], events[e], out[e], lists[e + 1], period);
      }
    }
  }

  class ResendList {
    var tasks: seq<Task>
    const period: nat

    constructor (period: nat)
      ensures tasks == [] && this.period == period
    {
      tasks := [];
      this.period := period;
    }

    // Scans for the task that has been due longest; the end of the list when none is due.
    method FindLongest(now: nat) returns (oldest: nat)
      ensures oldest < |tasks| ==> Longest(tasks, oldest, now)
      ensures oldest >= |tasks| ==> oldest == |tasks| && forall j :: 0 <= j < |tasks| ==> tasks[j].due > now
    {
      var oldestTime := now;
      oldest := |tasks|;
      var it := 0;
      while it < |tasks|
        invariant 0 <= it <= |tasks| && (oldest == |tasks| || oldest < it)
        invariant oldest == |tasks| ==> oldestTime == now && forall j :: 0 <= j < it ==> tasks[j].due > now
        invariant oldest < it ==> oldestTime == tasks[oldest].due <= now
        invariant oldest < it ==> forall j :: 0 <= j < it ==> oldestTime <= tasks[j].due
        invariant oldest < it ==> forall j :: 0 <= j < oldest ==> oldestTime < tasks[j].due
      {
        if oldest == |tasks| {
          if tasks[it].due <= oldestTime {
            oldestTime, oldest := tasks[it].due, it;
          }
        } else if tasks[it].due < oldestTime {
          oldestTime, oldest := tasks[it].due, it;
        }
        it := it + 1;
      }
    }

    /** Sends the task that has been due longest, the first of them in the list; a repeated task with sends
        left is rearmed one period from now, any other is dropped. */
    method GetResendTask(now: nat) returns (r: ResendResult, ghost i: nat)
      requires Sound(tasks)
      modifies this
      ensures Sound(tasks)
      ensures r.NoneExists? <==> old(tasks) == []
      ensures r.NotNow? <==> old(tasks) != [] && forall j :: 0 <= j < |old(tasks)| ==> old(tasks)[j].due > now
      ensures r.NoneExists? || r.NotNow? ==> tasks == old(tasks)
      ensures !(r.NoneExists? || r.NotNow?) ==> Longest(old(tasks), i, now) && r.task == old(tasks)[i]
      ensures !(r.NoneExists? || r.NotNow?) ==> tasks == Sent(old(tasks), i, now, period)
      ensures r.Interm? || r.Final? ==> r.task.packet.kind.SelfRepeated? && (r.Final? <==> r.task.count == 1)
      ensures r.Interm? ==> |tasks| == |old(tasks)| && tasks[i] == Task(r.task.packet, r.task.count - 1, now + period)
                            && forall j :: 0 <= j < |tasks| && j != i ==> tasks[j] == old(tasks)[j]
      ensures r.Final? || r.Santa? ==> tasks == old(tasks)[..i] + old(tasks)[i + 1..]
      ensures r.Santa? ==> r.task.packet.kind.FromSanta?
    {
      i := 0;
      if |tasks| == 0 { return NoneExists, 0; }
      var oldest := FindLongest(now);
      if oldest == |tasks| { return NotNow, 0; }
      i := oldest;
      SentSound(tasks, oldest, now, period);
      var task := tasks[oldest];
      match task.packet.kind {
        case SelfRepeated =>
          if task.count == 1 {
            tasks := tasks[..oldest] + tasks[oldest + 1..];
            r := Final(task);
          } else {
            tasks := tasks[oldest := task.(count := task.count - 1, due := now + period)];
            r := Interm(task);
          }
        case FromSanta =>
          tasks := tasks[..oldest] + tasks[oldest + 1..];
          r := Santa(task);
      }
    }

    /** A new task: a repeated packet first goes out again one period from now, for the given number of times;
        one from Santa goes out at once. */
    method AddTask(packet: Packet, resends: nat, now: nat)
      requires Sound(tasks) && resends > 0
      modifies this
      ensures Sound(tasks)
      ensures |tasks| == |old(tasks)| + 1 && tasks[..|old(tasks)|] == old(tasks)
      ensures tasks[|old(tasks)|].packet == packet
      ensures packet.kind.SelfRepeated? ==> tasks[|old(tasks)|].count == resends && tasks[|old(tasks)|].due == now + period
      ensures packet.kind.FromSanta? ==> tasks[|old(tasks)|].count == 1 && tasks[|old(tasks)|].due == now
    {
      match packet.kind {
        case SelfRepeated =>
          tasks := tasks + [Task(packet, resends, now + period)];
        case FromSanta =>
          tasks := tasks + [Task(packet, 1, now)];
      }
    }

    /** Takes out of the list the repeated packets of the given checksum, or to the given device. Every other
        task stays, in order; places are those the tasks that stay had before. */
    method Remove(sel: Selector) returns (ghost places: seq<nat>)
      requires Sound(tasks)
      modifies this
      ensures Sound(tasks) && tasks == Kept(old(tasks), sel)
      ensures |places| == |tasks| && forall i, j :: 0 <= i < j < |places| ==> places[i] < places[j]
      ensures forall i :: 0 <= i < |places| ==> places[i] < |old(tasks)| && tasks[i] == old(tasks)[places[i]]
      ensures forall k :: 0 <= k < |old(tasks)| ==>
                (k in places <==> !(old(tasks)[k].packet.kind.SelfRepeated?
                                    && match sel
                                       case OfChecksum(c) => old(tasks)[k].packet.checksum == c
                                       case ToTarget(id) => old(tasks)[k].packet.target == id))
    {
      hide Kept, Sound, Selects;
      KeptSound(tasks, sel);
      places := KeptPlaces(tasks, sel);
      RemoveLoop(sel);
    }

    // The search for tasks to take out.
    method RemoveLoop(sel: Selector)
      modifies this
      ensures tasks == Kept(old(tasks), sel)
    {
      hide Kept, Selects;
      KeptNothing(sel);
      if |tasks| == 0 {
        assert tasks == [];
        return;
      }
      ghost var all := tasks;
      var it := 0;
      assert tasks[0..] == tasks;
      while it < |tasks|
        invariant 0 <= it <= |tasks| && Kept(all, sel) == tasks[..it] + Kept(tasks[it..], sel)
        decreases |tasks| - it
      {
        ghost var ts, i := tasks, it;
        KeptStep(ts, i, sel);
        if Selects(sel, tasks[it].packet) {
          tasks := tasks[..it] + tasks[it + 1..];
          assert tasks[..i] == ts[..i] && tasks[i..] == ts[i + 1..];
        } else {
          it := it + 1;
          assert tasks[..it] == ts[..i] + [ts[i]];
        }
      }
      assert tasks[..it] == tasks && tasks[it..] == [];
      assert tasks + [] == tasks;
    }

    /** Over any run of additions, removals and calls at any times, every packet has been sent exactly as often
        as it was to be, less what is still to come and what removals forgave: the tasks each removal selects of
        those on the list when it happens. For a packet no event removes that is nothing. A repeated packet is
        first sent no earlier than a period after it was added, and two sends of a packet added once are at
        least a period apart: the n-th comes n periods or more after the addition. */
    method Run(events: seq<Event>) returns (out: seq<Option<Task>>, ghost lists: seq<seq<Task>>)
      requires Sound(tasks) && forall i :: 0 <= i < |events| && events[i].Add? ==> events[i].resends > 0
      modifies this
      ensures Sound(tasks) && Traced(events, lists, out, period) && lists[0] == old(tasks) && lists[|events|] == tasks
      ensures forall p :: Sends(out, p) + Owed(tasks, p) + Owed(Forgiven(events, lists), p) == Owed(old(tasks), p) + Added(events, p)
      ensures forall p :: !Removed(events, p) ==> Owed(Forgiven(events, lists), p) == 0
      ensures forall e :: 0 <= e < |events| && out[e].Some? ==>
                events[e].Poll? && out[e].value.due <= events[e].now && OnTime(events, old(tasks), period, e, out[e].value)
      ensures forall k: nat, p :: AddedOnce(old(tasks), events, k, p) && p.kind.SelfRepeated? ==> PeriodsApart(events, out, period, k, p)
    {
      hide Sound, Sent, Follows, Balanced, Owed, Sends, Added, Kept, Dropped, Forgiven, AddedOnce, OnTime, Carries;
      out, lists := [], [tasks];
      ghost var ts0, forgiven := tasks, Forgiven([], lists);
      BalancedAtFirst(ts0, events, forgiven, lists);
      for e := 0 to |events|
        invariant Sound(tasks) && |lists| == e + 1 && |out| == e && lists[0] == ts0 && lists[e] == tasks
        invariant forall i :: 0 <= i < e ==> Follows(lists[i], events[i], out[i], lists[i + 1], period)
        invariant forgiven == Forgiven(events[..e], lists) && Balanced(ts0, events, e, out, tasks, forgiven)
      {
        ghost var before, lists0, forgiven0 := tasks, lists, forgiven;
        var sent := None;
        match events[e] {
          case Add(packet, resends, now) =>
            AddTask(packet, resends, now);
            NowAdded(before, events[e], tasks, period);
            AddBalances(ts0, events, e, out, before, forgiven, tasks, period);
          case Poll(now) =>
            var r, i := GetResendTask(now);
            if !(r.NoneExists? || r.NotNow?) { sent := Some(r.task); }
            Polled(before, events[e], tasks, period, r, i);
            PollBalances(ts0, events, e, out, before, forgiven, sent, tasks, period);
          case Remove(sel) =>
            var _ := Remove(sel);
            NowKept(before, events[e], tasks, period);
            forgiven := forgiven + Dropped(before, sel);
            RemoveBalances(ts0, events, e, out, before, forgiven0, tasks);
        }
        out := out + [sent];
        lists := lists + [tasks];
        ForgivenMore(events, e, lists0, lists);
      }
      assert events[..|events|] == events;
      InBalance(ts0, events, out, tasks, forgiven);
      AllOnTime(events, lists, out, period);
      AllSpaced(events, lists, out, period);
    }

    /** Calling again and again without the clock moving sends every due task exactly once, in order of due
        times and, among equal ones, in list order; then nothing is due any more. */
    method Drain(now: nat) returns (out: seq<Task>)
      requires Sound(tasks) && 0 < period
      modifies this
      ensures forall t: nat :: DueAt(out, t) == if t <= now then DueAt(old(tasks), t) else []
      ensures forall i, j :: 0 <= i < j < |out| ==> out[i].due <= out[j].due
      ensures tasks == Served(old(tasks), now, period) && Sound(tasks)
      ensures forall i :: 0 <= i < |tasks| ==> tasks[i].due > now
    {
      out := [];
      ghost var ts := tasks;
      while true
        invariant Sound(tasks) && Draining(ts, tasks, out, now, period)
        decreases DueCount(tasks, now)
      {
        ghost var before := tasks;
        var r, i := GetResendTask(now);
        if r.NoneExists? || r.NotNow? {
          Drained(ts, tasks, out, now, period);
          return;
        }
        SentQueues(before, i, now, period);
        DrainStep(ts, before, out, now, period, i);
        out := out + [r.task];
      }
    }
  }

  // What has been sent and what is still due make up what was due.
  ghost predicate Draining(ts: seq<Task>, now': seq<Task>, out: seq<Task>, now: nat, period: nat) {
    && (forall t: nat :: t <= now ==> DueAt(ts, t) == DueAt(out, t) + DueAt(now', t))
    && (forall i :: 0 <= i < |out| ==> out[i].due <= now && forall j :: 0 <= j < |now'| && now'[j].due <= now ==> out[i].due <= now'[j].due)
    && (forall i, j :: 0 <= i < j < |out| ==> out[i].due <= out[j].due)
    && Served(now', now, period) == Served(ts, now, period)
  }

  lemma DrainStep(ts: seq<Task>, before: seq<Task>, out: seq<Task>, now: nat, period: nat, i: nat)
    requires Draining(ts, before, out, now, period) && Longest(before, i, now) && Sound(before) && 0 < period
    ensures Draining(ts, Sent(before, i, now, period), out + [before[i]], now, period)
  {
    hide Served, Sound, Sent, DueAt;
    SentQueues(before, i, now, period);
    var after, out' := Sent(before, i, now, period), out + [before[i]];
    forall t: nat | t <= now ensures DueAt(ts, t) == DueAt(out', t) + DueAt(after, t) {
      DueAtSplit(out, [before[i]], t);
      DueAtOne(before[i], t);
    }
    forall j | 0 <= j < |after| && after[j].due <= now
      ensures before[i].due <= after[j].due && forall k :: 0 <= k < |out| ==> out[k].due <= after[j].due
    {
      StillDue(before, i, now, period, j);
    }
  }

  lemma DueAtOne(x: Task, t: nat)
    ensures DueAt([x], t) == if t == x.due then [x] else []
  {
    assert [x][1..] == [];
  }

  lemma StillDue(ts: seq<Task>, i: nat, now: nat, period: nat, j: nat)
    requires i < |ts| && 0 < period && j < |Sent(ts, i, now, period)| && Sent(ts, i, now, period)[j].due <= now
    ensures exists k :: 0 <= k < |ts| && ts[k] == Sent(ts, i, now, period)[j]
  {
    var s := Sent(ts, i, now, period);
    if |s| == |ts| || j < i {
      assert ts[j] == s[j];
    } else {
      assert ts[j + 1] == s[j];
    }
  }

  lemma Drained(ts: seq<Task>, rest: seq<Task>, out: seq<Task>, now: nat, period: nat)
    requires Draining(ts, rest, out, now, period) && forall j :: 0 <= j < |rest| ==> rest[j].due > now
    ensures forall t: nat :: DueAt(out, t) == if t <= now then DueAt(ts, t) else []
    ensures rest == Served(ts, now, period)
  {
    forall t: nat ensures DueAt(out, t) == if t <= now then DueAt(ts, t) else [] {
      if t <= now { NoneDueAt(rest, t); } else { NoneDueAt(out, t); }
    }
    NothingToServe(rest, now, period);
  }

  lemma {:induction false} NothingToServe(ts: seq<Task>, now: nat, period: nat)
    requires forall j :: 0 <= j < |ts| ==> ts[j].due > now
    ensures Served(ts, now, period) == ts
  {
    if ts == [] {
    } else {
      NothingToServe(ts[1..], now, period);
    }
  }
}
