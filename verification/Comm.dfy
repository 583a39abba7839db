/** Packets between the communication stack and the central unit: framing over a byte stream that arrives in
    arbitrary chunks, the blocking synchronous request, and the queue of packets put off meanwhile. */
module Comm {
  import opened Wrappers
  import opened Tags
  import opened Layout
  import opened HeapSteps
  import opened HeapModule

  const MAX_PACKET_SIZE := 80
  const HEADER_SIZE := 5
  const SYNC_REQUEST := 56   // status byte of a request that blocks for its reply
  const SYNC_RESPONSE := 57  // status byte of the reply

  datatype Packet = Packet(src: byte, addr: nat, data: seq<byte>)

  // What the next receive call on the socket finds.
  datatype Chunk = WouldBlock | Broken | Bytes(count: nat)

  datatype Status = Ok | Pending | Failed | Stopped

  datatype ReadResult = Received(packet: Packet) | ReadFailed | NothingYet

  predicate Sendable(p: Packet) {
    p.addr < UINT16 && |p.data| <= MAX_PACKET_SIZE
  }

  function Header(src: byte, addr: nat, size: nat): (h: seq<byte>)
    requires addr < UINT16 && size < UINT16
    ensures |h| == HEADER_SIZE
  {
    [size % 256, size / 256, addr % 256, addr / 256, src]
  }

  function Frame(p: Packet): (f: seq<byte>)
    requires p.addr < UINT16 && |p.data| < UINT16
    ensures |f| == HEADER_SIZE + |p.data|
  {
    Header(p.src, p.addr, |p.data|) + p.data
  }

  predicate AllSendable(ps: seq<Packet>) {
    forall i :: 0 <= i < |ps| ==> Sendable(ps[i])
  }

  // The bytes of packets sent one after the other.
  function Frames(ps: seq<Packet>): seq<byte>
    requires AllSendable(ps)
  {
    if ps == [] then [] else Frame(ps[0]) + Frames(ps[1..])
  }

  // No marks on n packets.
  function Nones(n: nat): (m: seq<bool>)
    ensures |m| == n && forall i :: 0 <= i < n ==> !m[i]
  {
    seq(n, _ => false)
  }

  // What is left of a packet log when the marked ones, taken as replies, are struck out.
  function Unmarked(log: seq<Packet>, marks: seq<bool>): seq<Packet>
    requires |log| == |marks|
  {
    if log == [] then []
    else
      var rest := Unmarked(log[..|log| - 1], marks[..|log| - 1]);
      if marks[|log| - 1] then rest else rest + [log[|log| - 1]]
  }

  // The marked ones of a packet log, in order.
  function Marked(log: seq<Packet>, marks: seq<bool>): seq<Packet>
    requires |log| == |marks|
  {
    if log == [] then []
    else
      var rest := Marked(log[..|log| - 1], marks[..|log| - 1]);
      if marks[|log| - 1] then rest + [log[|log| - 1]] else rest
  }

  lemma UnmarkedMore(log: seq<Packet>, marks: seq<bool>, p: Packet, mark: bool)
    requires |log| == |marks|
    ensures Unmarked(log + [p], marks + [mark]) == if mark then Unmarked(log, marks) else Unmarked(log, marks) + [p]
  {
    assert (log + [p])[..|log|] == log && (marks + [mark])[..|log|] == marks;
  }

  // Of the receive calls c0, those in c are still to be made.
  predicate Calls(c0: seq<Chunk>, c: seq<Chunk>) {
    |c| <= |c0| && c == c0[|c0| - |c|..]
  }

  predicate Unbroken(cs: seq<Chunk>) {
    forall i :: 0 <= i < |cs| ==> !cs[i].Broken?
  }

  // Receiving came to an end: the calls c0 go on to the first that finds the connection broken, or all of them
  // have been made and none did.
  predicate Interrupted(c0: seq<Chunk>, c: seq<Chunk>) {
    if Unbroken(c0) then c == []
    else |c| < |c0| && c0[|c0| - |c| - 1].Broken? && Unbroken(c0[..|c0| - |c| - 1])
  }

  // How many bytes the calls find, if the stream has as many and so many are asked for.
  function Offered(cs: seq<Chunk>): nat {
    if cs == [] then 0
    else Offered(cs[..|cs| - 1]) + if cs[|cs| - 1].Bytes? then cs[|cs| - 1].count else 0
  }

  // The calls bring size bytes: none finds the connection broken, some call finds bytes (even if none are
  // asked for), and they find enough.
  predicate Bring(cs: seq<Chunk>, size: nat) {
    Unbroken(cs) && (exists i :: 0 <= i < |cs| && cs[i].Bytes?) && size <= Offered(cs)
  }

  // The first n calls bring size bytes, and no fewer do.
  predicate Shortest(cs: seq<Chunk>, n: nat, size: nat) {
    n <= |cs| && Bring(cs[..n], size) && forall j :: 0 <= j < n ==> !Bring(cs[..j], size)
  }

  // The first n calls bring a packet: first its header, then its bytes.
  predicate BringPacket(cs: seq<Chunk>, n: nat, size: nat) {
    n <= |cs| && exists h :: 0 <= h <= n && Shortest(cs, h, HEADER_SIZE) && Shortest(cs[h..], n - h, size)
  }

  // How many of the packets, one after the other, the calls bring.
  ghost function Came(cs: seq<Chunk>, ps: seq<Packet>): (n: nat)
    ensures n <= |ps|
    decreases |ps|
  {
    if ps == [] then 0
    else if exists n: nat :: BringPacket(cs, n, |ps[0].data|) then
      var n: nat :| BringPacket(cs, n, |ps[0].data|);
      1 + Came(cs[n..], ps[1..])
    else 0
  }

  // A stream socket. The bytes still to come are input; how many each receive call finds is up to chunks.
  class Connection {
    var input: seq<byte>
    var chunks: seq<Chunk>

    constructor (input: seq<byte>, chunks: seq<Chunk>)
      ensures this.input == input && this.chunks == chunks
    {
      this.input, this.chunks := input, chunks;
    }

    /** One receive call into buff[pos..size]. */
    method TryGet(buff: array<byte>, pos: nat, size: nat) returns (status: Status, newPos: nat)
      requires pos <= size <= buff.Length
      modifies this, buff
      ensures pos <= newPos <= size && newPos - pos <= |old(input)|
      ensures input == old(input)[newPos - pos..]
      ensures buff[pos..newPos] == old(input)[..newPos - pos]
      ensures buff[..pos] == old(buff[..pos])
      ensures if old(chunks) == [] then status == Stopped && newPos == pos && chunks == [] else chunks == old(chunks)[1..]
      ensures old(chunks) != [] && !old(chunks)[0].Bytes? ==> newPos == pos && status == if old(chunks)[0].Broken? then Failed else Pending
      ensures old(chunks) != [] && old(chunks)[0].Bytes? ==> status == if newPos == size then Ok else Pending
      ensures old(chunks) != [] && old(chunks)[0].Bytes? ==> newPos == Least(pos + old(chunks)[0].count, size, pos + |old(input)|)
    {
      newPos := pos;
      if chunks == [] { return Stopped, pos; }
      var chunk := chunks[0];
      chunks := chunks[1..];
      if chunk.WouldBlock? { return Pending, pos; }
      if chunk.Broken? { return Failed, pos; }
      var n := size - pos;
      if chunk.count < n { n := chunk.count; }
      if |input| < n { n := |input|; }
      ghost var before := buff[..];
      forall i | 0 <= i < n { buff[pos + i] := input[i]; }
      newPos := pos + n;
      assert buff[pos..newPos] == input[..n];
      input := input[n..];
      status := if newPos < size then Pending else Ok;
    }

    /** Receives until size bytes are there. It succeeds exactly if the stream has them and some first calls of
        the schedule bring them; it then has made the shortest such calls, and what it got are the next size
        bytes of the stream, however it was chopped up. Otherwise receiving was interrupted. */
    method GetBytes(buff: array<byte>, size: nat) returns (status: Status)
      requires size <= buff.Length
      modifies this, buff
      ensures Calls(old(chunks), chunks)
      ensures status == Ok <==> size <= |old(input)| && exists n :: 0 <= n <= |old(chunks)| && Bring(old(chunks)[..n], size)
      ensures status == Ok ==> Shortest(old(chunks), |old(chunks)| - |chunks|, size)
      ensures status == Ok ==> buff[..size] == old(input)[..size] && input == old(input)[size..]
      ensures status != Ok ==> Interrupted(old(chunks), chunks) && status == if Unbroken(old(chunks)) then Stopped else Failed
    {
      hide Bring, Unbroken, Offered;
      var pos := 0;
      ghost var all, cs := input, chunks;
      NoCalls(cs, size);
      status := Pending;
      while status == Pending
        invariant 0 <= pos <= size && pos <= |all| && buff[..pos] == all[..pos] && input == all[pos..]
        invariant Calls(cs, chunks) && Receiving(cs, |cs| - |chunks|, size, |all|, pos, status)
        decreases |chunks|, status == Pending
      {
        ghost var pos0, n := pos, |cs| - |chunks|;
        status, pos := TryGet(buff, pos, size);
        assert buff[..pos] == buff[..pos0] + buff[pos0..pos];
        assert all[..pos] == all[..pos0] + all[pos0..][..pos - pos0];
        assert all[pos0..][pos - pos0..] == all[pos..];
        ReceivingGoesOn(cs, n, size, |all|, pos0, status, pos);
      }
      ReceivingIsOver(cs, |cs| - |chunks|, size, |all|, pos, status);
    }

    /** Reads one packet. If the stream is made of frames, the first one's packet is read, and the frames of the
        others are left, exactly if the calls bring its header and then its bytes; no call is made beyond
        those. Otherwise receiving was interrupted. */
    method GetPacket(ghost pending: seq<Packet>) returns (r: ReadResult)
      requires AllSendable(pending)
      requires input == Frames(pending)
      modifies this
      ensures Calls(old(chunks), chunks)
      ensures r.Received? <==> pending != [] && exists n: nat :: BringPacket(old(chunks), n, |pending[0].data|)
      ensures r.Received? ==> r.packet == pending[0] && input == Frames(pending[1..])
      ensures r.Received? ==> BringPacket(old(chunks), |old(chunks)| - |chunks|, |pending[0].data|)
      ensures !r.Received? ==> Interrupted(old(chunks), chunks) && r == if Unbroken(old(chunks)) then NothingYet else ReadFailed
    {
      hide Shortest, Frames, Bring, Unbroken, Interrupted, BringPacket;
      var buff := new byte[MAX_PACKET_SIZE];
      ghost var cs := chunks;
      HeaderThere(pending);
      var status := GetBytes(buff, HEADER_SIZE);
      if status != Ok {
        NoHeader(cs, pending);
        return if status == Stopped then NothingYet else ReadFailed;
      }
      ghost var h := buff[..HEADER_SIZE];
      HeaderRead(pending, h);
      var size: nat := buff[1];
      size := size * 256 + buff[0];
      var addr: nat := buff[3];
      addr := addr * 256 + buff[2];
      var src := buff[4];
      assert buff[0] == h[0] && buff[1] == h[1] && buff[2] == h[2] && buff[3] == h[3] && buff[4] == h[4];
      ghost var c1 := chunks;
      status := GetBytes(buff, size);
      PacketCalls(cs, c1, chunks, size, status);
      if status == Stopped { return NothingYet; }
      if status != Ok { return ReadFailed; }
      return Received(Packet(src, addr, buff[..size]));
    }
  }

  function Least(a: int, b: int, c: int): (m: int)
    ensures m in {a, b, c} && m <= a && m <= b && m <= c
  {
    if a <= b && a <= c then a else if b <= c then b else c
  }

  // The loop has made the first n calls and stands at pos, of left bytes the stream had.
  ghost predicate Receiving(cs: seq<Chunk>, n: nat, size: nat, left: nat, pos: nat, status: Status) {
    && n <= |cs|
    && match status
       case Ok => pos == size <= left && Shortest(cs, n, size)
       case Failed => n > 0 && cs[n - 1].Broken? && Unbroken(cs[..n - 1]) && Fruitless(cs, n - 1, size, left)
       case Stopped => n == |cs| && Unbroken(cs) && Fruitless(cs, n, size, left)
       case Pending => pos == Least(Offered(cs[..n]), size, left) && Unbroken(cs[..n]) && Fruitless(cs, n, size, left)
  }

  // If the stream had the bytes, none of the first n calls completed them.
  ghost predicate Fruitless(cs: seq<Chunk>, n: nat, size: nat, left: nat)
    requires n <= |cs|
  {
    size <= left ==> forall j :: 0 <= j <= n ==> !Bring(cs[..j], size)
  }

  lemma NoCalls(cs: seq<Chunk>, size: nat)
    ensures Offered(cs[..0]) == 0 && Unbroken(cs[..0]) && !Bring(cs[..0], size)
  {
  }

  lemma OneMoreCall(cs: seq<Chunk>, n: nat, size: nat)
    requires n < |cs|
    ensures Unbroken(cs[..n + 1]) <==> Unbroken(cs[..n]) && !cs[n].Broken?
    ensures Offered(cs[..n + 1]) == Offered(cs[..n]) + if cs[n].Bytes? then cs[n].count else 0
    ensures cs[n].Bytes? ==> (Bring(cs[..n + 1], size) <==> Unbroken(cs[..n]) && size <= Offered(cs[..n + 1]))
    ensures cs[n].WouldBlock? ==> (Bring(cs[..n + 1], size) <==> Bring(cs[..n], size))
    ensures n + 1 == |cs| ==> cs[..n + 1] == cs
    ensures n + 1 == |cs| && !cs[n].Broken? ==> (Unbroken(cs) <==> Unbroken(cs[..n]))
  {
    var a, b := cs[..n], cs[..n + 1];
    assert b == a + [cs[n]] && b[..|b| - 1] == a;
    if cs[n].Bytes? { assert b[n].Bytes?; }
    if exists i :: 0 <= i < |a| && a[i].Bytes? {
      var i :| 0 <= i < |a| && a[i].Bytes?;
      assert b[i].Bytes?;
    }
  }

  lemma ReceivingGoesOn(cs: seq<Chunk>, n: nat, size: nat, left: nat, pos: nat, status: Status, pos': nat)
    requires Receiving(cs, n, size, left, pos, Pending) && pos' <= size
    requires n == |cs| ==> status == Stopped && pos' == pos
    requires n < |cs| && !cs[n].Bytes? ==> pos' == pos && status == if cs[n].Broken? then Failed else Pending
    requires n < |cs| && cs[n].Bytes? ==> pos' == Least(pos + cs[n].count, size, left) && status == if pos' == size then Ok else Pending
    ensures Receiving(cs, if n < |cs| then n + 1 else n, size, left, pos', status)
  {
    hide Bring, Unbroken, Offered;
    if n < |cs| {
      OneMoreCall(cs, n, size);
    } else {
      assert cs[..n] == cs;
    }
  }

  lemma ReceivingIsOver(cs: seq<Chunk>, n: nat, size: nat, left: nat, pos: nat, status: Status)
    requires Receiving(cs, n, size, left, pos, status) && status != Pending
    ensures status == Ok <==> size <= left && exists n :: 0 <= n <= |cs| && Bring(cs[..n], size)
    ensures status != Ok ==> Interrupted(cs, cs[n..]) && status == if Unbroken(cs) then Stopped else Failed
  {
    if status == Failed {
      assert !Unbroken(cs);
      forall j | n - 1 < j <= |cs| ensures !Bring(cs[..j], size) {
        assert cs[..j][n - 1].Broken?;
      }
    }
  }

  // A stream of frames has a header and the first packet's bytes unless it is empty.
  lemma HeaderThere(ps: seq<Packet>)
    requires AllSendable(ps)
    ensures HEADER_SIZE <= |Frames(ps)| <==> ps != []
  {
  }

  lemma NoHeader(cs: seq<Chunk>, ps: seq<Packet>)
    requires ps == [] || forall n :: 0 <= n <= |cs| ==> !Bring(cs[..n], HEADER_SIZE)
    ensures ps != [] ==> forall n: nat :: !BringPacket(cs, n, |ps[0].data|)
  {
  }

  // With the header there and the calls c1 left, the packet comes exactly if they bring its bytes.
  lemma PacketCalls(cs: seq<Chunk>, c1: seq<Chunk>, c: seq<Chunk>, size: nat, status: Status)
    requires Calls(cs, c1) && Shortest(cs, |cs| - |c1|, HEADER_SIZE) && Calls(c1, c)
    requires status == Ok <==> exists n :: 0 <= n <= |c1| && Bring(c1[..n], size)
    requires status == Ok ==> Shortest(c1, |c1| - |c|, size)
    requires status != Ok ==> Interrupted(c1, c) && status == if Unbroken(c1) then Stopped else Failed
    ensures Calls(cs, c)
    ensures status == Ok <==> exists n: nat :: BringPacket(cs, n, size)
    ensures status == Ok ==> BringPacket(cs, |cs| - |c|, size)
    ensures status != Ok ==> Interrupted(cs, c) && status == if Unbroken(cs) then Stopped else Failed
  {
    hide Shortest, Bring, Interrupted, Unbroken, BringPacket;
    var n := |cs| - |c1|;
    BytesAfterHeader(cs, n, size);
    if status == Ok {
      HeaderAndBytes(cs, n, |c1| - |c|, size);
    } else {
      ShortestUnbroken(cs, n, HEADER_SIZE);
      InterruptedLater(cs, n, |cs| - |c|);
      assert cs[|cs| - |c|..] == c;
    }
  }

  // If the first n calls bring the header, a packet comes only if the calls after them bring its bytes.
  lemma BytesAfterHeader(cs: seq<Chunk>, n: nat, size: nat)
    requires n <= |cs| && Shortest(cs, n, HEADER_SIZE)
    ensures (exists k: nat :: BringPacket(cs, k, size)) ==> exists j :: 0 <= j <= |cs[n..]| && Bring(cs[n..][..j], size)
  {
    hide Bring;
    if exists k: nat :: BringPacket(cs, k, size) {
      var k: nat :| BringPacket(cs, k, size);
      var h :| 0 <= h <= k && Shortest(cs, h, HEADER_SIZE) && Shortest(cs[h..], k - h, size);
      OneShortest(cs, h, n, HEADER_SIZE);
      assert Bring(cs[n..][..k - n], size);
    }
  }

  // The calls made did not find the connection broken.
  predicate CallsUnbroken(c0: seq<Chunk>, c: seq<Chunk>) {
    |c| <= |c0| && Unbroken(c0[..|c0| - |c|])
  }

  lemma NoneMade(cs: seq<Chunk>)
    ensures CallsUnbroken(cs, cs)
  {
  }

  lemma CallsGoOn(c0: seq<Chunk>, c1: seq<Chunk>, c: seq<Chunk>)
    requires Calls(c0, c1) && CallsUnbroken(c0, c1) && Calls(c1, c)
    ensures Calls(c0, c) && (Interrupted(c1, c) ==> Interrupted(c0, c)) && (CallsUnbroken(c1, c) ==> CallsUnbroken(c0, c))
  {
    InterruptedLater(c0, |c0| - |c1|, |c0| - |c|);
    assert c0[..|c0| - |c|] == c0[..|c0| - |c1|] + c1[..|c1| - |c|];
  }

  lemma OnePacket(cs: seq<Chunk>, n: nat, m: nat, size: nat)
    requires BringPacket(cs, n, size) && BringPacket(cs, m, size)
    ensures n == m <= |cs| && Unbroken(cs[..n])
  {
    hide Shortest;
    var h :| 0 <= h <= n && Shortest(cs, h, HEADER_SIZE) && Shortest(cs[h..], n - h, size);
    var k :| 0 <= k <= m && Shortest(cs, k, HEADER_SIZE) && Shortest(cs[k..], m - k, size);
    OneShortest(cs, h, k, HEADER_SIZE);
    OneShortest(cs[h..], n - h, m - h, size);
    ShortestUnbroken(cs, h, HEADER_SIZE);
    ShortestUnbroken(cs[h..], n - h, size);
    assert cs[..n] == cs[..h] + cs[h..][..n - h];
  }

  lemma ShortestUnbroken(cs: seq<Chunk>, n: nat, size: nat)
    requires Shortest(cs, n, size)
    ensures n <= |cs| && Unbroken(cs[..n])
  {
  }

  // What comes is the first packet and what the calls behind it bring, or nothing.
  lemma CameOrNot(cs: seq<Chunk>, ps: seq<Packet>, n: nat)
    requires ps != [] ==> BringPacket(cs, n, |ps[0].data|) || forall n: nat :: !BringPacket(cs, n, |ps[0].data|)
    ensures Came(cs, ps) > 0 <==> ps != [] && BringPacket(cs, n, |ps[0].data|)
    ensures ps != [] && BringPacket(cs, n, |ps[0].data|) ==> Came(cs, ps) == 1 + Came(cs[n..], ps[1..]) && Unbroken(cs[..n])
  {
    hide BringPacket, Unbroken;
    if ps != [] && BringPacket(cs, n, |ps[0].data|) {
      OnePacket(cs, n, n, |ps[0].data|);
      forall m: nat | BringPacket(cs, m, |ps[0].data|) ensures n == m {
        OnePacket(cs, n, m, |ps[0].data|);
      }
    }
  }

  lemma OneShortest(cs: seq<Chunk>, n: nat, m: nat, size: nat)
    requires Shortest(cs, n, size) && Shortest(cs, m, size)
    ensures n == m
  {
  }

  lemma InterruptedLater(cs: seq<Chunk>, n: nat, m: nat)
    requires n <= m <= |cs| && Unbroken(cs[..n])
    ensures Unbroken(cs) <==> Unbroken(cs[n..])
    ensures Interrupted(cs[n..], cs[m..]) ==> Interrupted(cs, cs[m..])
  {
    assert cs == cs[..n] + cs[n..];
    if Unbroken(cs[n..]) {
      forall i | 0 <= i < |cs| ensures !cs[i].Broken? {
        assert cs[i] == if i < n then cs[..n][i] else cs[n..][i - n];
      }
    } else {
      var i :| 0 <= i < |cs[n..]| && cs[n..][i].Broken?;
      assert cs[n + i].Broken?;
    }
    if Interrupted(cs[n..], cs[m..]) && !Unbroken(cs) {
      assert cs[..m - 1] == cs[..n] + cs[n..][..m - 1 - n];
    }
  }

  // How many of the calls find at least one byte.
  function Finds(cs: seq<Chunk>): nat {
    if cs == [] then 0
    else
      var last := cs[|cs| - 1];
      Finds(cs[..|cs| - 1]) + if last.Bytes? && last.count > 0 then 1 else 0
  }

  // As many calls that find something are enough for the packets: one a byte, and one for no bytes.
  function Enough(ps: seq<Packet>): nat {
    if ps == [] then 0 else HEADER_SIZE + AtLeastOne(|ps[0].data|) + Enough(ps[1..])
  }

  function AtLeastOne(n: nat): nat {
    if n == 0 then 1 else n
  }

  lemma {:induction false} FindsSplit(a: seq<Chunk>, b: seq<Chunk>)
    ensures Finds(a + b) == Finds(a) + Finds(b)
  {
    if b == [] {
      assert a + b == a;
    } else {
      FindsSplit(a, b[..|b| - 1]);
      assert (a + b)[..|a + b| - 1] == a + b[..|b| - 1];
    }
  }

  lemma {:induction false} FindsOffer(cs: seq<Chunk>)
    ensures Finds(cs) <= Offered(cs) && (Finds(cs) > 0 ==> exists i :: 0 <= i < |cs| && cs[i].Bytes?)
  {
    if cs == [] {
    } else {
      var k := |cs| - 1;
      FindsOffer(cs[..k]);
      if Finds(cs[..k]) > 0 {
        var i :| 0 <= i < k && cs[..k][i].Bytes?;
        assert cs[i].Bytes?;
      }
    }
  }

  lemma FirstToBring(cs: seq<Chunk>, size: nat) returns (n: nat)
    requires Bring(cs, size)
    ensures n <= |cs| && Shortest(cs, n, size)
  {
    hide Bring;
    assert cs[..|cs|] == cs;
    n := 0;
    while !Bring(cs[..n], size)
      invariant n <= |cs| && forall j :: 0 <= j < n ==> !Bring(cs[..j], size)
      decreases |cs| - n
    {
      n := n + 1;
    }
  }

  // With a call less they would not have brought the bytes.
  lemma ShortestFinds(cs: seq<Chunk>, n: nat, size: nat)
    requires Unbroken(cs) && n <= |cs| && Shortest(cs, n, size)
    ensures Finds(cs[..n]) <= AtLeastOne(size)
  {
    hide Finds, Offered;
    NoCalls(cs, size);
    var k := n - 1;
    assert !Bring(cs[..k], size);
    FindsOffer(cs[..k]);
    FindsSplit(cs[..k], [cs[k]]);
    FindsInOne(cs[k]);
    assert cs[..k] + [cs[k]] == cs[..n];
  }

  lemma FindsInOne(c: Chunk)
    ensures Finds([c]) <= 1
  {
    assert [c][..0] == [];
  }

  lemma SteadyBrings(cs: seq<Chunk>, size: nat) returns (n: nat)
    requires Unbroken(cs) && AtLeastOne(size) <= Finds(cs)
    ensures n <= |cs| && Shortest(cs, n, size) && Finds(cs) <= Finds(cs[n..]) + AtLeastOne(size)
  {
    hide Finds, Offered, Shortest;
    FindsOffer(cs);
    n := FirstToBring(cs, size);
    ShortestFinds(cs, n, size);
    FindsSplit(cs[..n], cs[n..]);
    assert cs[..n] + cs[n..] == cs;
  }

  lemma StillUnbroken(cs: seq<Chunk>, n: nat)
    requires n <= |cs| && Unbroken(cs)
    ensures Unbroken(cs[n..])
  {
  }

  lemma NothingToCome(cs: seq<Chunk>)
    ensures Came(cs, []) == 0
  {
  }

  lemma HeaderAndBytes(cs: seq<Chunk>, h: nat, m: nat, size: nat)
    requires h <= |cs| && m <= |cs[h..]| && Shortest(cs, h, HEADER_SIZE) && Shortest(cs[h..], m, size)
    ensures BringPacket(cs, h + m, size) && cs[h..][m..] == cs[h + m..]
  {
  }

  /** However the stream is chopped up: if no call finds the connection broken, and as many calls find bytes as
      the packets have, all the packets come. */
  lemma {:induction false} SteadyBringsAll(cs: seq<Chunk>, ps: seq<Packet>)
    requires Unbroken(cs) && Enough(ps) <= Finds(cs)
    ensures Came(cs, ps) == |ps|
    decreases |ps|
  {
    hide Shortest, Finds, Came, Unbroken, BringPacket;
    if ps == [] {
      NothingToCome(cs);
    } else {
      var h := SteadyBrings(cs, HEADER_SIZE);
      StillUnbroken(cs, h);
      var m := SteadyBrings(cs[h..], |ps[0].data|);
      StillUnbroken(cs[h..], m);
      HeaderAndBytes(cs, h, m, |ps[0].data|);
      CameOrNot(cs, ps, h + m);
      SteadyBringsAll(cs[h + m..], ps[1..]);
    }
  }

  /** A packet of one byte, its header found by one call and its byte by another, comes. */
  lemma ComesInTwoCalls()
    ensures Came([Bytes(5), Bytes(1)], [Packet(SYNC_RESPONSE, 1, [9])]) == 1
  {
    var cs, p := [Bytes(5), Bytes(1)], Packet(SYNC_RESPONSE, 1, [9]);
    NoCalls(cs, HEADER_SIZE);
    OneMoreCall(cs, 0, HEADER_SIZE);
    NoCalls(cs[1..], 1);
    OneMoreCall(cs[1..], 0, 1);
    assert Shortest(cs, 1, HEADER_SIZE) && Shortest(cs[1..], 1, 1);
    assert BringPacket(cs, 2, 1);
    CameOrNot(cs, [p], 2);
  }

  lemma ThreeParts(a: seq<byte>, b: seq<byte>, c: seq<byte>, s: seq<byte>)
    requires s == a + b + c
    ensures s[..|a|] == a && s[|a|..][..|b|] == b && s[|a|..][|b|..] == c
  {
  }

  // The header at the start of a stream of frames, read back.
  lemma HeaderRead(ps: seq<Packet>, h: seq<byte>)
    requires AllSendable(ps)
    requires HEADER_SIZE <= |Frames(ps)| && h == Frames(ps)[..HEADER_SIZE]
    ensures ps != [] && h[4] == ps[0].src
    ensures h[0] as int + 256 * (h[1] as int) == |ps[0].data| <= MAX_PACKET_SIZE && h[2] as int + 256 * (h[3] as int) == ps[0].addr
    ensures var rest := Frames(ps)[HEADER_SIZE..];
      |ps[0].data| <= |rest| && rest[..|ps[0].data|] == ps[0].data && rest[|ps[0].data|..] == Frames(ps[1..])
  {
    var p := ps[0];
    var f, fs, header := Frame(p), Frames(ps[1..]), Header(p.src, p.addr, |p.data|);
    assert Frames(ps) == f + fs;
    hide Frames, Frame;
    ThreeParts(header, p.data, fs, Frames(ps));
  }

  /** Sends h's request with the header in front of it, and clears the handle. */
  method SendWithinMaster(heap: Heap, h: nat, addr: nat, destination: byte) returns (ok: bool, sent: seq<byte>)
    requires heap.Valid() && heap.LiveHandle(h) && addr < UINT16
    modifies heap, heap.mem
    ensures heap.Valid()
    ensures var v := old(heap.View());
      && heap.View() == v[h := Some(Pair([], []))]
      && v[h].Some? && |v[h].value.request| < UINT16
      && (ok <==> HEADER_SIZE <= old(heap.Freeable()) + |v[h].value.response|)
      && sent == if ok then Frame(Packet(destination, addr, v[h].value.request)) else []
  {
    hide Wf, ViewOf, BlockOf, GapOk;
    ghost var v := heap.View();
    var size := heap.objs[h].rq;
    heap.LengthsInView(h);
    WholeFits(heap, h);
    ghost var room, rsp := heap.Freeable(), heap.objs[h].rsp;
    heap.LiveInView();
    FreeableIsBudget(heap.mem[..], heap.objs);
    heap.RequestToResponse(h);
    heap.LiveInView();
    FreeableIsBudget(heap.mem[..], heap.objs);
    HeldChanged(v, h, heap.View()[h], |v|);
    heap.LengthsInView(h);
    ok := heap.PrependBytes(h, Header(destination, addr, size));
    heap.LiveInView();
    heap.LengthsInView(h);
    sent := [];
    if ok {
      var ob := heap.objs[h];
      BlockInBounds(heap.mem[..], heap.objs, h);
      heap.BlockInView(h);
      PartOfBlock(heap.mem[..], ob, 0, ob.rsp);
      sent := heap.mem[ob.ptr + ob.rq..ob.End()];
      ResponseBytes(heap.mem[..], ob);
    }
    heap.ResponseToRequest(h);
    heap.LiveInView();
    heap.ResponseToRequest(h);
  }

  lemma WholeFits(heap: Heap, h: nat)
    requires heap.Valid() && heap.LiveHandle(h)
    ensures heap.objs[h].rq + heap.objs[h].rsp < UINT16
  {
    BlockInBounds(heap.mem[..], heap.objs, h);
  }

  lemma ResponseBytes(m: seq<byte>, ob: Obj)
    requires ob.Live() && ob.End() <= |m|
    ensures BlockOf(m, ob).Some? && m[ob.ptr + ob.rq..ob.End()] == BlockOf(m, ob).value.response
  {
  }

  predicate IsReply(p: Packet, id: nat) {
    p.src == SYNC_RESPONSE && p.addr == id
  }

  /** The communication layer: packets read while a request blocks for its reply wait in a queue. */
  class CommLayer {
    const conn: Connection
    var queue: seq<Packet>
    var packetId: nat
    var sent: seq<byte>
    var lost: bool                   // a receive call failed or the observation ended inside a packet
    ghost var pending: seq<Packet>   // sent to us, not yet read
    ghost var log: seq<Packet>       // read so far
    ghost var marks: seq<bool>       // which of them were taken as replies to requests
    ghost var delivered: seq<Packet> // handed to the main loop so far

    // What was handed over and what waits is what was read, replies struck out, in order.
    ghost predicate Valid()
      reads this, conn
    {
      && AllSendable(pending)
      && (!lost ==> conn.input == Frames(pending))
      && packetId < UINT16
      && |marks| == |log|
      && (forall i :: 0 <= i < |log| && marks[i] ==> log[i].src == SYNC_RESPONSE)
      && delivered + queue == Unmarked(log, marks)
    }

    // How many of the packets still to come the calls still to be made bring.
    ghost function Coming(): (n: nat)
      reads this, conn
      ensures n <= |pending|
    {
      if lost then 0 else Came(conn.chunks, pending)
    }

    constructor (conn: Connection, ghost pending: seq<Packet>)
      requires AllSendable(pending)
      requires conn.input == Frames(pending)
      ensures Valid() && this.conn == conn && this.pending == pending && log == [] && queue == [] && delivered == []
      ensures packetId == 0 && sent == [] && !lost
    {
      this.conn := conn;
      queue, packetId, sent, lost := [], 0, [], false;
      this.pending, log, marks, delivered := pending, [], [], [];
    }

    // Reads one packet off the stream, if one comes, and enters it into the log, without a mark.
    method ReadPacket() returns (r: ReadResult)
      requires Valid() && !lost
      modifies this`lost, this`pending, this`log, this`marks, conn
      ensures r.Received? <==> old(Coming()) > 0
      ensures Coming() + |log| == old(Coming() + |log|)
      ensures r.Received? ==> !lost && r.packet == old(pending)[0] && pending == old(pending)[1..]
      ensures r.Received? ==> log == old(log) + [r.packet] && marks == old(marks) + [false]
      ensures !r.Received? ==> lost && pending == old(pending) && log == old(log) && marks == old(marks)
      ensures Calls(old(conn.chunks), conn.chunks) && (r.Received? ==> CallsUnbroken(old(conn.chunks), conn.chunks))
      ensures !r.Received? ==> Interrupted(old(conn.chunks), conn.chunks) && r == if Unbroken(old(conn.chunks)) then NothingYet else ReadFailed
      ensures AllSendable(pending) && (!lost ==> conn.input == Frames(pending))
    {
      hide Frames, BringPacket, Interrupted, Unbroken;
      ghost var cs := conn.chunks;
      r := conn.GetPacket(pending);
      CameOrNot(cs, pending, |cs| - |conn.chunks|);
      if r.Received? {
        pending, log, marks := pending[1..], log + [r.packet], marks + [false];
      } else {
        lost := true;
      }
    }

    // Takes the oldest packet from the queue and hands it over.
    method TakeOldest() returns (p: Packet)
      requires Valid() && queue != []
      modifies this`queue, this`delivered
      ensures Valid() && p == old(queue)[0] && queue == old(queue)[1..] && delivered == old(delivered) + [p]
    {
      hide Frames, Unmarked, AllSendable;
      p := queue[0];
      assert delivered + queue == (delivered + [p]) + queue[1..];
      delivered := delivered + [p];
      queue := queue[1..];
    }

    /** Hands the main loop its next packet: the oldest one put off, or else the next one on the stream. */
    method TryGetMessage() returns (r: ReadResult)
      requires Valid()
      modifies this, conn
      ensures Valid() && log + pending == old(log + pending) && Coming() + |log| == old(Coming() + |log|)
      ensures r.Received? <==> old(queue) != [] || old(Coming()) > 0
      ensures r.Received? ==> delivered == old(delivered) + [r.packet]
      ensures r.Received? ==> old(queue + pending) != [] && r.packet == old(queue + pending)[0]
      ensures !r.Received? ==> delivered == old(delivered) && queue == old(queue)
      ensures !r.Received? ==> old(lost) || Interrupted(old(conn.chunks), conn.chunks)
      ensures old(queue) != [] ==> log == old(log) && queue == old(queue)[1..] && conn.chunks == old(conn.chunks)
      ensures old(queue) == [] ==> queue == [] && log == old(log) + if r.Received? then [r.packet] else []
      ensures packetId == old(packetId) && sent == old(sent)
      ensures old(log) <= log && marks == old(marks) + Nones(|log| - |old(log)|)
    {
      hide Frames, Unmarked, AllSendable, Came, Interrupted, Calls, CallsUnbroken, Unbroken;
      if queue != [] {
        var p := TakeOldest();
        assert marks == old(marks) + Nones(0);
        return Received(p);
      }
      if lost {
        assert marks == marks + Nones(0);
        return ReadFailed;
      }
      ghost var log0, marks0 := log, marks;
      r := ReadPacket();
      if r.Received? {
        UnmarkedMore(log0, marks0, r.packet, false);
        assert old(pending) == [r.packet] + pending;
        assert log0 + old(pending) == log + pending;
        assert delivered + [r.packet] + queue == delivered + queue + [r.packet];
        delivered := delivered + [r.packet];
        assert marks == marks0 + Nones(1);
      } else {
        assert marks == marks0 + Nones(0);
      }
    }

    // One turn of the wait for a reply: read a packet and take it as the reply, or put it off.
    method AwaitStep() returns (reply: Option<Packet>)
      requires Valid() && !lost
      modifies this`lost, this`pending, this`log, this`marks, this`queue, conn
      ensures Valid() && log + pending == old(log + pending)
      ensures Coming() + |log| == old(Coming() + |log|) && (lost <==> old(Coming()) == 0)
      ensures reply.Some? ==> AwaitReply(old(pending), old(marks), old(queue), reply.value, packetId, pending, marks, queue)
      ensures reply.None? && !lost ==> AwaitMore(old(pending), old(marks), old(queue), packetId, pending, marks, queue)
      ensures lost ==> pending == old(pending) && marks == old(marks) && queue == old(queue) && reply == None
      ensures Calls(old(conn.chunks), conn.chunks)
      ensures if lost then Interrupted(old(conn.chunks), conn.chunks) else CallsUnbroken(old(conn.chunks), conn.chunks)
    {
      hide Frames, Unmarked, AllSendable, Came, Interrupted, Calls, CallsUnbroken, Unbroken;
      ghost var log0, marks0, pending0 := log, marks, pending;
      var r := ReadPacket();
      if !r.Received? { return None; }
      var p := r.packet;
      assert pending0 == [p] + pending && log0 + pending0 == log + pending;
      if IsReply(p, packetId) {
        marks := marks0 + [true];
        UnmarkedMore(log0, marks0, p, true);
        return Some(p);
      }
      UnmarkedMore(log0, marks0, p, false);
      assert delivered + (queue + [p]) == delivered + queue + [p];
      queue := queue + [p];
      return None;
    }

    /** Sends a request and blocks until its reply comes: the first packet with the status byte of a reply and
        this request's id. Every packet that comes before it is put off, in order, behind those put off already;
        n is how many there were. There is a reply exactly if it is among the packets that come at all. */
    method SyncRequest(data: seq<byte>) returns (reply: Option<Packet>, ghost n: nat)
      requires Valid() && |data| < UINT16
      modifies this, conn
      ensures Valid() && log + pending == old(log + pending) && delivered == old(delivered)
      ensures packetId == (old(packetId) + 1) % UINT16
      ensures sent == old(sent) + Frame(Packet(SYNC_REQUEST, packetId, data))
      ensures n <= old(Coming()) && queue == old(queue) + old(pending)[..n]
      ensures log == old(log) + old(pending)[..n] + if reply.Some? then [reply.value] else []
      ensures Coming() + |log| == old(Coming() + |log|)
      ensures forall i :: 0 <= i < n ==> old(pending)[i].src != SYNC_RESPONSE || old(pending)[i].addr != packetId
      ensures reply.Some? <==> n < old(Coming())
      ensures reply.Some? ==> reply.value == old(pending)[n] && reply.value.src == SYNC_RESPONSE && reply.value.addr == packetId
      ensures reply.Some? ==> pending == old(pending)[n + 1..] && marks == old(marks) + Nones(n) + [true]
      ensures reply.None? ==> lost && pending == old(pending)[n..] && marks == old(marks) + Nones(n)
      ensures reply.None? ==> old(lost) || Interrupted(old(conn.chunks), conn.chunks)
    {
      hide AwaitMore, AwaitReply, Frames, Unmarked, AllSendable, Awaiting, Frame, Came, Interrupted, CallsUnbroken, Unbroken;
      packetId := (packetId + 1) % UINT16;
      ghost var before, cs := packetId, conn.chunks;
      sent := sent + Frame(Packet(SYNC_REQUEST, packetId, data));
      n := 0;
      reply := None;
      ghost var ps, ms, q := pending, marks, queue;
      AwaitStart(ps, ms, q, packetId);
      NoneMade(cs);
      while !lost
        invariant Valid() && log + pending == old(log + pending) && delivered == old(delivered)
        invariant packetId == before && sent == old(sent) + Frame(Packet(SYNC_REQUEST, packetId, data))
        invariant Coming() + |log| == old(Coming() + |log|) && |log| == |old(log)| + n
        invariant Calls(cs, conn.chunks) && (lost ==> old(lost) || Interrupted(cs, conn.chunks)) && (!lost ==> CallsUnbroken(cs, conn.chunks))
        invariant reply == None && Awaiting(ps, ms, q, n, packetId, pending, marks, queue)
        decreases !lost, |pending|
      {
        ghost var ps1, ms1, q1 := pending, marks, queue;
        ghost var c1 := conn.chunks;
        reply := AwaitStep();
        CallsGoOn(cs, c1, conn.chunks);
        if reply.Some? {
          AwaitEnds(ps, ms, q, n, packetId, ps1, ms1, q1, reply.value, pending, marks, queue);
          LogIs(old(log), ps, log, pending, n + 1);
          assert ps[..n + 1] == ps[..n] + [ps[n]];
          return;
        }
        if !lost {
          AwaitContinues(ps, ms, q, n, packetId, ps1, ms1, q1, pending, marks, queue);
          n := n + 1;
        }
      }
      AwaitBroken(ps, ms, q, n, packetId, pending, marks, queue);
      LogIs(old(log), ps, log, pending, n);
    }
  }

  lemma LogIs(log0: seq<Packet>, pending0: seq<Packet>, log: seq<Packet>, pending: seq<Packet>, n: nat)
    requires n <= |pending0| && |log| == |log0| + n && log + pending == log0 + pending0
    ensures log == log0 + pending0[..n]
  {
    assert log == (log0 + pending0)[..|log|];
  }

  // While waiting for the reply to request id: n packets of ps have been put off, none of them the reply.
  ghost predicate Awaiting(ps: seq<Packet>, ms: seq<bool>, q: seq<Packet>, n: nat, id: nat,
                           pending: seq<Packet>, marks: seq<bool>, queue: seq<Packet>) {
    && n <= |ps| && pending == ps[n..] && queue == q + ps[..n]
    && marks == ms + Nones(n)
    && forall i :: 0 <= i < n ==> !IsReply(ps[i], id)
  }

  ghost predicate AwaitMore(ps: seq<Packet>, ms: seq<bool>, q: seq<Packet>, id: nat,
                            pending: seq<Packet>, marks: seq<bool>, queue: seq<Packet>) {
    && ps != [] && !IsReply(ps[0], id) && pending == ps[1..] && queue == q + [ps[0]] && marks == ms + [false]
  }

  ghost predicate AwaitReply(ps: seq<Packet>, ms: seq<bool>, q: seq<Packet>, p: Packet, id: nat,
                             pending: seq<Packet>, marks: seq<bool>, queue: seq<Packet>) {
    && ps != [] && p == ps[0] && IsReply(p, id) && pending == ps[1..] && queue == q && marks == ms + [true]
  }

  lemma AwaitStart(ps: seq<Packet>, ms: seq<bool>, q: seq<Packet>, id: nat)
    ensures Awaiting(ps, ms, q, 0, id, ps, ms, q)
  {
    assert ms + Nones(0) == ms;
    assert q + ps[..0] == q;
  }

  lemma AwaitContinues(ps: seq<Packet>, ms: seq<bool>, q: seq<Packet>, n: nat, id: nat,
                       ps1: seq<Packet>, ms1: seq<bool>, q1: seq<Packet>,
                       pending: seq<Packet>, marks: seq<bool>, queue: seq<Packet>)
    requires Awaiting(ps, ms, q, n, id, ps1, ms1, q1) && AwaitMore(ps1, ms1, q1, id, pending, marks, queue)
    ensures Awaiting(ps, ms, q, n + 1, id, pending, marks, queue) && |pending| < |ps1|
  {
    assert ps[..n + 1] == ps[..n] + [ps[n]];
    assert ms + Nones(n + 1) == ms + Nones(n) + [false];
  }

  lemma AwaitEnds(ps: seq<Packet>, ms: seq<bool>, q: seq<Packet>, n: nat, id: nat,
                  ps1: seq<Packet>, ms1: seq<bool>, q1: seq<Packet>, p: Packet,
                  pending: seq<Packet>, marks: seq<bool>, queue: seq<Packet>)
    requires Awaiting(ps, ms, q, n, id, ps1, ms1, q1) && AwaitReply(ps1, ms1, q1, p, id, pending, marks, queue)
    ensures n < |ps| && p == ps[n] && IsReply(p, id) && pending == ps[n + 1..] && queue == q + ps[..n]
    ensures marks == ms + Nones(n) + [true] && forall i :: 0 <= i < n ==> !IsReply(ps[i], id)
  {
  }

  lemma AwaitBroken(ps: seq<Packet>, ms: seq<bool>, q: seq<Packet>, n: nat, id: nat,
                    pending: seq<Packet>, marks: seq<bool>, queue: seq<Packet>)
    requires Awaiting(ps, ms, q, n, id, pending, marks, queue)
    ensures n <= |ps| && pending == ps[n..] && queue == q + ps[..n] && marks == ms + Nones(n)
    ensures forall i :: 0 <= i < n ==> !IsReply(ps[i], id)
  {
  }

  datatype Call = Deliver | Request(data: seq<byte>)

  // What a call gave: the main loop's next packet, or the reply to the request of that id.
  datatype Answer = Delivery(result: ReadResult) | Reply(id: nat, reply: Option<Packet>)

  function ReplyOf(answer: Answer): (r: seq<Packet>)
    ensures |r| <= 1
  {
    if answer.Reply? && answer.reply.Some? then [answer.reply.value] else []
  }

  function PacketOf(answer: Answer): seq<Packet> {
    if answer.Delivery? && answer.result.Received? then [answer.result.packet] else []
  }

  function Replies(answers: seq<Answer>): seq<Packet> {
    if answers == [] then [] else Replies(answers[..|answers| - 1]) + ReplyOf(answers[|answers| - 1])
  }

  function Deliveries(answers: seq<Answer>): seq<Packet> {
    if answers == [] then [] else Deliveries(answers[..|answers| - 1]) + PacketOf(answers[|answers| - 1])
  }

  lemma AnswersListed(answers: seq<Answer>, answer: Answer)
    ensures Replies(answers + [answer]) == Replies(answers) + ReplyOf(answer)
    ensures Deliveries(answers + [answer]) == Deliveries(answers) + PacketOf(answer)
  {
    assert (answers + [answer])[..|answers|] == answers;
  }

  // How many of the calls are requests.
  function Requests(calls: seq<Call>): (n: nat)
    ensures n <= |calls|
  {
    if calls == [] then 0 else Requests(calls[..|calls| - 1]) + if calls[|calls| - 1].Request? then 1 else 0
  }

  // The id of the last request among the calls, the one before them having had id first.
  function IdAfter(calls: seq<Call>, first: nat): nat {
    (first + Requests(calls)) % UINT16
  }

  function NextId(call: Call, id: nat): nat {
    if call.Request? then (id + 1) % UINT16 else id
  }

  lemma RequestsMore(calls: seq<Call>, call: Call, first: nat)
    ensures Requests(calls + [call]) == Requests(calls) + if call.Request? then 1 else 0
    ensures IdAfter(calls + [call], first) == NextId(call, IdAfter(calls, first))
  {
    assert (calls + [call])[..|calls|] == calls;
  }

  // Every call has its answer; a request's reply is one to its own id, and ids count up from first.
  predicate Answers(calls: seq<Call>, answers: seq<Answer>, first: nat) {
    && |answers| == |calls|
    && forall i :: 0 <= i < |calls| ==> Fitting(calls[i], answers[i], IdAfter(calls[..i + 1], first))
  }

  predicate Fitting(call: Call, answer: Answer, id: nat) {
    if call.Deliver? then answer.Delivery?
    else
      && answer.Reply? && answer.id == id
      && (answer.reply.Some? ==> answer.reply.value.src == SYNC_RESPONSE && answer.reply.value.addr == id)
  }

  lemma MarkedMore(log: seq<Packet>, marks: seq<bool>, p: Packet, mark: bool)
    requires |log| == |marks|
    ensures Marked(log + [p], marks + [mark]) == if mark then Marked(log, marks) + [p] else Marked(log, marks)
  {
    assert (log + [p])[..|log|] == log && (marks + [mark])[..|log|] == marks;
  }

  // Packets without a mark add nothing to the marked ones.
  lemma {:induction false} NoneMarked(log: seq<Packet>, marks: seq<bool>, more: seq<Packet>)
    requires |log| == |marks|
    ensures Marked(log + more, marks + Nones(|more|)) == Marked(log, marks)
  {
    if more == [] {
      assert log + more == log && marks + Nones(0) == marks;
    } else {
      var k := |more| - 1;
      NoneMarked(log, marks, more[..k]);
      MarkedMore(log + more[..k], marks + Nones(k), more[k], false);
      assert log + more[..k] + [more[k]] == log + more;
      assert marks + Nones(k) + [false] == marks + Nones(|more|);
    }
  }

  // The run so far has given the answers, marked exactly the replies among them, and delivered the rest.
  ghost predicate Accounted(calls: seq<Call>, answers: seq<Answer>, first: nat, log0: seq<Packet>, marks0: seq<bool>,
                            delivered0: seq<Packet>, log: seq<Packet>, marks: seq<bool>, delivered: seq<Packet>, id: nat) {
    && Answers(calls, answers, first) && id == IdAfter(calls, first)
    && log0 <= log && marks0 <= marks && |log0| == |marks0| && |log| == |marks|
    && Marked(log, marks) == Marked(log0, marks0) + Replies(answers)
    && delivered == delivered0 + Deliveries(answers)
  }

  lemma AnswersMore(calls: seq<Call>, call: Call, answers: seq<Answer>, answer: Answer, first: nat)
    requires Answers(calls, answers, first) && Fitting(call, answer, IdAfter(calls + [call], first))
    ensures Answers(calls + [call], answers + [answer], first)
  {
    hide Fitting, IdAfter;
    var all := calls + [call];
    forall i | 0 <= i < |all| ensures Fitting(all[i], (answers + [answer])[i], IdAfter(all[..i + 1], first)) {
      assert all[..i + 1] == if i < |calls| then calls[..i + 1] else all;
    }
  }

  // One more call: what it read beyond log came without a mark, but for its reply.
  lemma AccountedMore(calls: seq<Call>, answers: seq<Answer>, first: nat, log0: seq<Packet>, marks0: seq<bool>,
                      delivered0: seq<Packet>, log: seq<Packet>, marks: seq<bool>, delivered: seq<Packet>, id: nat,
                      call: Call, answer: Answer, more: seq<Packet>, log': seq<Packet>, marks': seq<bool>)
    requires Accounted(calls, answers, first, log0, marks0, delivered0, log, marks, delivered, id)
    requires Fitting(call, answer, NextId(call, id)) && |log| == |marks|
    requires log' == log + more + ReplyOf(answer)
    requires marks' == marks + Nones(|more|) + if ReplyOf(answer) == [] then [] else [true]
    ensures Accounted(calls + [call], answers + [answer], first, log0, marks0, delivered0, log', marks',
                      delivered + PacketOf(answer), NextId(call, id))
  {
    hide Answers, Fitting, Marked, Replies, Deliveries, IdAfter, PacketOf, NextId;
    AnswersListed(answers, answer);
    RequestsMore(calls, call, first);
    AnswersMore(calls, call, answers, answer, first);
    NoneMarked(log, marks, more);
    if ReplyOf(answer) == [] {
      assert log' == log + more && marks' == marks + Nones(|more|);
    } else {
      MarkedMore(log + more, marks + Nones(|more|), ReplyOf(answer)[0], true);
    }
  }

  // Of a run's answers so far: unless everything that comes has been read and delivered, every call for a
  // packet delivered one. In any case no more has been put in the queue than was read.
  predicate Served(calls: seq<Call>, delivered: nat, queue: nat, coming: nat, log: nat,
                   delivered': nat, queue': nat, coming': nat, log': nat) {
    && coming' + log' == coming + log
    && delivered' + queue' + log <= delivered + queue + log'
    && ((queue' == 0 && coming' == 0) || delivered' == delivered + |calls| - Requests(calls))
  }

  lemma ServedMore(calls: seq<Call>, call: Call, d: nat, q: nat, c: nat, l: nat,
                   d1: nat, q1: nat, c1: nat, l1: nat, d2: nat, q2: nat, c2: nat, l2: nat)
    requires Served(calls, d, q, c, l, d1, q1, c1, l1)
    requires c2 + l2 == c1 + l1 && d2 + q2 + l1 <= d1 + q1 + l2 && l1 <= l2
    requires call.Request? ==> d2 == d1 && (q1 == 0 && c1 == 0 ==> q2 == 0)
    requires call.Deliver? ==> if q1 == 0 && c1 == 0 then q2 == 0 else d2 == d1 + 1
    ensures Served(calls + [call], d, q, c, l, d2, q2, c2, l2)
  {
    RequestsMore(calls, call, 0);
  }

  /** Over any run of the main loop and its requests, nothing the central unit sent is lost, duplicated or
      reordered. Of the packets read, those struck out are exactly the replies the requests returned, in order,
      at most one a request and each to its request's own id, ids counting up by one a request; all others have
      been delivered, or wait in the queue. With those still to come they are all that was sent. The run reads
      no more than the receive calls bring, and if it asks for packets often enough it reads and delivers all
      they bring. */
  method Run(layer: CommLayer, calls: seq<Call>) returns (answers: seq<Answer>)
    requires layer.Valid() && forall i :: 0 <= i < |calls| && calls[i].Request? ==> |calls[i].data| < UINT16
    modifies layer, layer.conn
    ensures layer.Valid()
    ensures layer.log + layer.pending == old(layer.log + layer.pending)
    ensures |layer.marks| == |layer.log| && layer.delivered + layer.queue == Unmarked(layer.log, layer.marks)
    ensures |answers| == |calls| && forall i :: 0 <= i < |calls| ==>
              match calls[i]
              case Deliver => answers[i].Delivery?
              case Request(_) =>
                && answers[i].Reply? && answers[i].id == (old(layer.packetId) + Requests(calls[..i + 1])) % UINT16
                && (answers[i].reply.Some? ==>
                      answers[i].reply.value.src == SYNC_RESPONSE && answers[i].reply.value.addr == answers[i].id)
    ensures old(layer.log) <= layer.log && old(layer.marks) <= layer.marks && |old(layer.log)| == |old(layer.marks)|
    ensures Marked(layer.log, layer.marks) == Marked(old(layer.log), old(layer.marks)) + Replies(answers)
    ensures layer.delivered == old(layer.delivered) + Deliveries(answers)
    ensures layer.Coming() + |layer.log| == old(layer.Coming() + |layer.log|)
    ensures |calls| - Requests(calls) >= old(|layer.queue| + layer.Coming()) ==>
              layer.queue == [] && layer.log == old(layer.log + layer.pending[..layer.Coming()])
  {
    hide Accounted, Frames, AllSendable, Came, Served, Interrupted, Unbroken, Calls, Unmarked, Marked, Replies, Deliveries, Frame;
    answers := [];
    ghost var first, log0, marks0, delivered0 := layer.packetId, layer.log, layer.marks, layer.delivered;
    ghost var d, q, c, l := |layer.delivered|, |layer.queue|, layer.Coming(), |layer.log|;
    NothingYetAccounted(first, log0, marks0, delivered0);
    NothingServed(d, q, c, l);
    for i := 0 to |calls|
      invariant layer.Valid() && layer.log + layer.pending == old(layer.log + layer.pending)
      invariant Accounted(calls[..i], answers, first, log0, marks0, delivered0, layer.log, layer.marks, layer.delivered, layer.packetId)
      invariant Served(calls[..i], d, q, c, l, |layer.delivered|, |layer.queue|, layer.Coming(), |layer.log|)
    {
      assert calls[..i + 1] == calls[..i] + [calls[i]];
      ghost var log, marks, delivered, id := layer.log, layer.marks, layer.delivered, layer.packetId;
      ghost var d1, q1, c1, l1 := |layer.delivered|, |layer.queue|, layer.Coming(), |layer.log|;
      match calls[i] {
        case Deliver =>
          var r := layer.TryGetMessage();
          ghost var more := layer.log[|log|..];
          AccountedMore(calls[..i], answers, first, log0, marks0, delivered0, log, marks, delivered, id, calls[i], Delivery(r), more, layer.log, layer.marks);
          assert delivered + PacketOf(Delivery(r)) == layer.delivered;
          answers := answers + [Delivery(r)];
        case Request(data) =>
          ghost var pending := layer.pending;
          var reply, n := layer.SyncRequest(data);
          AccountedMore(calls[..i], answers, first, log0, marks0, delivered0, log, marks, delivered, id, calls[i], Reply(layer.packetId, reply), pending[..n], layer.log, layer.marks);
          assert delivered + [] == layer.delivered;
          answers := answers + [Reply(layer.packetId, reply)];
      }
      ServedMore(calls[..i], calls[i], d, q, c, l, d1, q1, c1, l1, |layer.delivered|, |layer.queue|, layer.Coming(), |layer.log|);
    }
    assert calls[..|calls|] == calls;
    AccountedFor(calls, answers, first, log0, marks0, delivered0, layer.log, layer.marks, layer.delivered, layer.packetId);
    AllServed(calls, d, q, c, l, |layer.delivered|, |layer.queue|, layer.Coming(), |layer.log|);
    if |calls| - Requests(calls) >= q + c {
      LogIs(log0, old(layer.pending), layer.log, layer.pending, c);
    }
  }

  lemma NothingServed(d: nat, q: nat, c: nat, l: nat)
    ensures Served([], d, q, c, l, d, q, c, l)
  {
  }

  lemma AllServed(calls: seq<Call>, d: nat, q: nat, c: nat, l: nat, d1: nat, q1: nat, c1: nat, l1: nat)
    requires Served(calls, d, q, c, l, d1, q1, c1, l1)
    ensures c1 + l1 == c + l && (|calls| - Requests(calls) >= q + c ==> q1 == 0 && c1 == 0)
  {
  }

  lemma NothingYetAccounted(first: nat, log: seq<Packet>, marks: seq<bool>, delivered: seq<Packet>)
    requires |log| == |marks| && first < UINT16
    ensures Accounted([], [], first, log, marks, delivered, log, marks, delivered, first)
  {
  }

  lemma AccountedFor(calls: seq<Call>, answers: seq<Answer>, first: nat, log0: seq<Packet>, marks0: seq<bool>,
                     delivered0: seq<Packet>, log: seq<Packet>, marks: seq<bool>, delivered: seq<Packet>, id: nat)
    requires Accounted(calls, answers, first, log0, marks0, delivered0, log, marks, delivered, id)
    ensures Answers(calls, answers, first) && log0 <= log && marks0 <= marks && |log0| == |marks0| && |log| == |marks|
    ensures Marked(log, marks) == Marked(log0, marks0) + Replies(answers) && delivered == delivered0 + Deliveries(answers)
  {
  }
}
