/** The checksum by which the root and a device compare their tables: an 8-bit Fletcher sum kept with
    end-around carries (Appendix I of RFC 1146), over the bytes of the confirmed tables. */
module Fletcher {
  import opened Tags
  import opened Tables
  import opened MeshState

  // The sum of the bytes, and the sum of the sums after each byte.
  function Sum(s: seq<byte>): nat {
    if s == [] then 0 else Sum(s[..|s| - 1]) + s[|s| - 1]
  }

  function SumOfSums(s: seq<byte>): nat {
    if s == [] then 0 else SumOfSums(s[..|s| - 1]) + Sum(s)
  }

  // Every byte counts as often as there are bytes from it to the end.
  function Weighted(s: seq<byte>): nat {
    if s == [] then 0 else |s| * s[0] + Weighted(s[1..])
  }

  function Checksum(s: seq<byte>): (c: nat)
    ensures c < UINT16
  {
    SumOfSums(s) % 255 * 256 + Sum(s) % 255
  }

  lemma SumMore(s: seq<byte>, b: byte)
    ensures Sum(s + [b]) == Sum(s) + b && SumOfSums(s + [b]) == SumOfSums(s) + Sum(s) + b
  {
    assert (s + [b])[..|s|] == s;
  }

  lemma OneMore(n: nat, w: nat)
    ensures (n + 1) * w == n * w + w
  {
  }

  lemma Spread(n: nat, a: nat, b: nat)
    ensures n * (a + b) == n * a + n * b
  {
  }

  lemma {:induction false} SumSplit(a: seq<byte>, b: seq<byte>)
    ensures Sum(a + b) == Sum(a) + Sum(b)
    ensures SumOfSums(a + b) == SumOfSums(a) + |b| * Sum(a) + SumOfSums(b)
  {
    if b == [] {
      assert a + b == a;
    } else {
      var b0, x := b[..|b| - 1], b[|b| - 1];
      SumSplit(a, b0);
      hide Sum, SumOfSums;
      assert a + b == (a + b0) + [x] && b == b0 + [x];
      SumMore(a + b0, x);
      SumMore(b0, x);
      OneMore(|b0|, Sum(a));
    }
  }

  /** The running sum of sums is the sum of the bytes weighted by their distance from the end. */
  lemma {:induction false} SumOfSumsIsWeighted(s: seq<byte>)
    ensures SumOfSums(s) == Weighted(s)
  {
    if s == [] {
    } else {
      assert s == [s[0]] + s[1..];
      SumSplit([s[0]], s[1..]);
      SumMore([], s[0]);
      assert [] + [s[0]] == [s[0]];
      SumOfSumsIsWeighted(s[1..]);
    }
  }

  // What changing one byte does to the sums.
  lemma SumsWithByte(a: seq<byte>, b: byte, c: seq<byte>)
    ensures Sum(a + [b] + c) == Sum(a) + b + Sum(c)
    ensures SumOfSums(a + [b] + c) == SumOfSums(a) + (1 + |c|) * Sum(a) + (1 + |c|) * b + SumOfSums(c)
  {
    hide Sum, SumOfSums;
    SumSplit(a + [b], c);
    SumMore(a, b);
    Spread(|c|, Sum(a), b);
    OneMore(|c|, Sum(a));
    OneMore(|c|, b);
  }

  lemma Congruent(x: nat, y: nat)
    ensures x % 255 == y % 255 <==> exists q: int :: x == y + 255 * q
  {
    assert x == y + 255 * (x / 255 - y / 255) + (x % 255 - y % 255);
    if x % 255 == y % 255 { assert x == y + 255 * (x / 255 - y / 255); }
    forall q: int | x == y + 255 * q ensures x % 255 == y % 255 {
      assert x % 255 == y % 255 by {
        var d := q - (x / 255 - y / 255);
        assert 255 * d == x % 255 - y % 255;
      }
    }
  }

  lemma HalvesAgree(s: seq<byte>, t: seq<byte>)
    ensures Checksum(s) == Checksum(t) <==> Sum(s) % 255 == Sum(t) % 255 && SumOfSums(s) % 255 == SumOfSums(t) % 255
  {
  }

  // The two bytes that are one number modulo 255.
  predicate Alike(x: byte, y: byte) {
    (x == 0 && y == 255) || (x == 255 && y == 0)
  }

  /** A single changed byte goes unnoticed exactly when it turns 0 into 255 or 255 into 0. */
  lemma OneByteChanged(s: seq<byte>, i: nat, b: byte)
    requires i < |s| && s[i] != b
    ensures Checksum(s[i := b]) == Checksum(s) <==> Alike(s[i], b)
  {
    hide Sum, SumOfSums, Checksum;
    var t, a, c, x := s[i := b], s[..i], s[i + 1..], s[i];
    assert s == a + [x] + c && t == a + [b] + c;
    var r, r2, w := Sum(a) + Sum(c), SumOfSums(a) + (1 + |c|) * Sum(a) + SumOfSums(c), 1 + |c|;
    SumsWithByte(a, x, c);
    SumsWithByte(a, b, c);
    HalvesAgree(t, s);
    ByteChange(r, x, b);
    if Alike(x, b) { WeightedChange(r2, w, x, b); }
  }

  lemma ByteChange(r: nat, x: byte, b: byte)
    requires x != b
    ensures (r + b) % 255 == (r + x) % 255 <==> Alike(x, b)
  {
    Congruent(r + b, r + x);
    if (r + b) % 255 == (r + x) % 255 {
      var q: int :| r + b == r + x + 255 * q;
      assert -1 <= q <= 1;
    }
    if x == 0 && b == 255 {
      assert r + b == r + x + 255 * 1;
    } else if x == 255 && b == 0 {
      assert r + b == r + x + 255 * -1;
    }
  }

  lemma WeightedChange(r: nat, w: nat, x: byte, b: byte)
    requires Alike(x, b)
    ensures (r + w * b) % 255 == (r + w * x) % 255
  {
    Congruent(r + w * b, r + w * x);
    if x == 0 {
      assert r + w * b == r + w * x + 255 * w;
    } else {
      Congruent(r + w * x, r + w * b);
      assert r + w * x == r + w * b + 255 * w;
    }
  }

  lemma PairSums(a: seq<byte>, x: byte, y: byte, c: seq<byte>, xy: nat, r: nat)
    requires xy == x + y && r == SumOfSums(a) + Sum(a) + (1 + |c|) * Sum(a) + (1 + |c|) * xy + SumOfSums(c)
    ensures Sum(a + [x] + [y] + c) == Sum(a) + xy + Sum(c) && SumOfSums(a + [x] + [y] + c) == r + x
  {
    hide Sum, SumOfSums;
    SumsWithByte(a + [x], y, c);
    SumMore(a, x);
    TwoSpreads(1 + |c|, Sum(a), x, y);
  }

  lemma TwoSpreads(w: nat, a: nat, x: nat, y: nat)
    ensures w * (a + x) + w * y == w * a + w * (x + y)
  {
  }

  // s with the bytes at i and i + 1 in each other's place.
  function Swapped(s: seq<byte>, i: nat): seq<byte>
    requires i + 1 < |s|
  {
    s[i := s[i + 1]][i + 1 := s[i]]
  }

  lemma SwapParts(s: seq<byte>, i: nat)
    requires i + 1 < |s|
    ensures s == s[..i] + [s[i]] + [s[i + 1]] + s[i + 2..]
    ensures Swapped(s, i) == s[..i] + [s[i + 1]] + [s[i]] + s[i + 2..]
  {
  }

  /** Two neighbouring bytes changing places go unnoticed exactly when they are equal, or 0 and 255. */
  lemma NeighboursSwapped(s: seq<byte>, i: nat)
    requires i + 1 < |s|
    ensures Checksum(Swapped(s, i)) == Checksum(s) <==> s[i] == s[i + 1] || Alike(s[i], s[i + 1])
  {
    hide Sum, SumOfSums, Checksum, Swapped, Alike;
    var a, c, x, y := s[..i], s[i + 2..], s[i], s[i + 1];
    var xy := (x as int) + y;
    var r := SumOfSums(a) + Sum(a) + (1 + |c|) * Sum(a) + (1 + |c|) * xy + SumOfSums(c);
    SwapParts(s, i);
    PairSums(a, x, y, c, xy, r);
    PairSums(a, y, x, c, xy, r);
    HalvesAgree(Swapped(s, i), s);
    if x != y { ByteChange(r, x, y); }
  }

  // ---------------------------------------------------------------------------- the program's sum

  /** One byte more: sums in eight bits, a carry out of the top added back in, 255 taken for 0. */
  method Update(state: nat, bt: byte) returns (r: nat)
    requires state < UINT16
    ensures r % 256 == (state % 256 + bt) % 255
    ensures r / 256 == (state / 256 + r % 256) % 255
    ensures r < UINT16
  {
    var tmp := state % 256;
    var tmp1 := state / 256;
    tmp := AddWithCarry(tmp, bt);
    tmp1 := AddWithCarry(tmp1, tmp);
    r := tmp1 * 256 + tmp;
  }

  lemma Mod255(n: nat)
    requires n <= 510
    ensures n % 255 == if n < 255 then n else if n < 510 then n - 255 else 0
  {
  }

  // Eight-bit addition with end-around carry is addition modulo 255.
  method AddWithCarry(a: byte, b: byte) returns (r: byte)
    ensures r == (a + b) % 255
  {
    Mod255((a as int) + b);
    var t: int := ((a as int) + b) % 256;
    if t < b { t := (t + 1) % 256; }
    if t == 0xFF { t := 0; }
    r := t;
  }

  // A 16-bit field, low byte first.
  function Word(n: nat): (w: seq<byte>)
    ensures |w| == 2
  {
    [n % 256, n / 256 % 256]
  }

  function RouteBytes(ts: seq<Entry<nat>>): seq<byte> {
    if ts == [] then [] else RouteBytes(ts[..|ts| - 1]) + Word(ts[|ts| - 1].key) + Word(ts[|ts| - 1].val)
  }

  function LinkBytes(ts: seq<Entry<LinkInfo>>): seq<byte> {
    if ts == [] then []
    else LinkBytes(ts[..|ts| - 1]) + Word(ts[|ts| - 1].key) + Word(ts[|ts| - 1].val.bus) + Word(ts[|ts| - 1].val.nextHop)
  }

  // A size as a 16-bit number.
  function Size16(n: nat): (r: nat)
    ensures r <= n && r < UINT16
  {
    n % UINT16
  }

  // The bytes the checksum of a device's tables is taken over; the sizes are 16-bit numbers.
  function TableBytes(t: Routing): seq<byte> {
    var n, k := Size16(|t.routes|), Size16(|t.links|);
    Word(n) + RouteBytes(t.routes[..n]) + (Word(k) + LinkBytes(t.links[..k]))
  }

  // A 16-bit field lies at this place, low byte first.
  predicate WordAt(b: seq<byte>, at: nat, n: nat) {
    at + 2 <= |b| && b[at] == n % 256 && b[at + 1] == n / 256 % 256
  }

  // Which byte lies where: the number of routes, each route's target and link id, the number of links, each
  // link's id, bus and next hop.
  predicate LaidOut(b: seq<byte>, t: Routing) {
    var n, k := Size16(|t.routes|), Size16(|t.links|);
    && |b| == 4 + 4 * n + 6 * k
    && WordAt(b, 0, n)
    && (forall i :: 0 <= i < n ==> WordAt(b, 2 + 4 * i, t.routes[i].key) && WordAt(b, 4 + 4 * i, t.routes[i].val))
    && WordAt(b, 2 + 4 * n, k)
    && (forall i :: 0 <= i < k ==>
          && WordAt(b, 4 + 4 * n + 6 * i, t.links[i].key)
          && WordAt(b, 6 + 4 * n + 6 * i, t.links[i].val.bus)
          && WordAt(b, 8 + 4 * n + 6 * i, t.links[i].val.nextHop))
  }

  lemma Within(a: seq<byte>, b: seq<byte>, c: seq<byte>, at: nat, n: nat)
    requires WordAt(b, at, n)
    ensures WordAt(a + b + c, |a| + at, n)
  {
  }

  lemma {:induction false} RouteBytesAt(ts: seq<Entry<nat>>)
    ensures |RouteBytes(ts)| == 4 * |ts|
    ensures forall i :: 0 <= i < |ts| ==> WordAt(RouteBytes(ts), 4 * i, ts[i].key) && WordAt(RouteBytes(ts), 4 * i + 2, ts[i].val)
  {
    if ts == [] {
    } else {
      var k := |ts| - 1;
      RouteBytesAt(ts[..k]);
      forall i | 0 <= i < |ts| ensures WordAt(RouteBytes(ts), 4 * i, ts[i].key) && WordAt(RouteBytes(ts), 4 * i + 2, ts[i].val) {
        if i < k { assert ts[..k][i] == ts[i]; }
      }
    }
  }

  lemma {:induction false} LinkBytesAt(ts: seq<Entry<LinkInfo>>)
    ensures |LinkBytes(ts)| == 6 * |ts|
    ensures forall i :: 0 <= i < |ts| ==>
              && WordAt(LinkBytes(ts), 6 * i, ts[i].key)
              && WordAt(LinkBytes(ts), 6 * i + 2, ts[i].val.bus)
              && WordAt(LinkBytes(ts), 6 * i + 4, ts[i].val.nextHop)
  {
    if ts == [] {
    } else {
      var k := |ts| - 1;
      LinkBytesAt(ts[..k]);
      forall i | 0 <= i < |ts|
        ensures WordAt(LinkBytes(ts), 6 * i, ts[i].key) && WordAt(LinkBytes(ts), 6 * i + 2, ts[i].val.bus)
        ensures WordAt(LinkBytes(ts), 6 * i + 4, ts[i].val.nextHop)
      {
        if i < k { assert ts[..k][i] == ts[i]; }
      }
    }
  }

  /** The bytes the checksum is taken over are laid out as they are for the devices. */
  lemma TableBytesAt(t: Routing)
    ensures LaidOut(TableBytes(t), t)
  {
    hide RouteBytes, LinkBytes, WordAt, Word;
    var n, k := Size16(|t.routes|), Size16(|t.links|);
    var a, rs, c, ls := Word(n), RouteBytes(t.routes[..n]), Word(k), LinkBytes(t.links[..k]);
    var b := a + rs + (c + ls);
    RouteBytesAt(t.routes[..n]);
    LinkBytesAt(t.links[..k]);
    WordIsThere(n);
    WordIsThere(k);
    assert b == [] + a + (rs + (c + ls)) == a + rs + (c + ls) == (a + rs) + c + ls == (a + rs + c) + ls + [];
    Within([], a, rs + (c + ls), 0, n);
    Within(a + rs, c, ls, 0, k);
    forall i | 0 <= i < n ensures WordAt(b, 2 + 4 * i, t.routes[i].key) && WordAt(b, 4 + 4 * i, t.routes[i].val) {
      assert t.routes[..n][i] == t.routes[i];
      Within(a, rs, c + ls, 4 * i, t.routes[i].key);
      Within(a, rs, c + ls, 4 * i + 2, t.routes[i].val);
    }
    forall i | 0 <= i < k
      ensures WordAt(b, 4 + 4 * n + 6 * i, t.links[i].key) && WordAt(b, 6 + 4 * n + 6 * i, t.links[i].val.bus)
      ensures WordAt(b, 8 + 4 * n + 6 * i, t.links[i].val.nextHop)
    {
      assert t.links[..k][i] == t.links[i];
      Within(a + rs + c, ls, [], 6 * i, t.links[i].key);
      Within(a + rs + c, ls, [], 6 * i + 2, t.links[i].val.bus);
      Within(a + rs + c, ls, [], 6 * i + 4, t.links[i].val.nextHop);
    }
  }

  lemma WordIsThere(n: nat)
    ensures WordAt(Word(n), 0, n)
  {
  }

  const FOURTEEN_BYTES: seq<byte> := [1, 0, 5, 0] + [0, 0, 1, 0] + [0, 0, 1, 0] + [5] + [0]

  /** One route and one link, byte for byte. */
  lemma OneRouteOneLink()
    ensures var t := Routing([Entry(5, 0)], [Entry(0, LinkInfo(5, 1, 0))]);
      TableBytes(t) == [1, 0, 5, 0, 0, 0, 1, 0, 0, 0, 1, 0, 5, 0] && Checksum(TableBytes(t)) == 24589
  {
    hide Checksum, TableBytes;
    var t := Routing([Entry(5, 0)], [Entry(0, LinkInfo(5, 1, 0))]);
    TableBytesAt(t);
    var b := TableBytes(t);
    assert WordAt(b, 0, 1) && WordAt(b, 2, t.routes[0].key) && WordAt(b, 4, t.routes[0].val) && WordAt(b, 6, 1);
    assert WordAt(b, 8, t.links[0].key) && WordAt(b, 10, t.links[0].val.bus) && WordAt(b, 12, t.links[0].val.nextHop);
    assert b == FOURTEEN_BYTES;
    FourteenBytesSum();
  }

  lemma FourteenBytesSum()
    ensures Checksum(FOURTEEN_BYTES) == 24589
  {
    hide Sum, SumOfSums;
    var b4 := [1, 0, 5, 0];
    var b8 := b4 + [0, 0, 1, 0];
    var b12 := b8 + [0, 0, 1, 0];
    SumNone();
    SumFourMore([], 1, 0, 5, 0);
    assert [] + b4 == b4;
    SumFourMore(b4, 0, 0, 1, 0);
    SumFourMore(b8, 0, 0, 1, 0);
    SumMore(b12, 5);
    SumMore(b12 + [5], 0);
  }

  lemma SumNone()
    ensures Sum([]) == 0 && SumOfSums([]) == 0
  {
  }

  lemma SumFourMore(s: seq<byte>, b0: byte, b1: byte, b2: byte, b3: byte)
    ensures Sum(s + [b0, b1, b2, b3]) == Sum(s) + b0 + b1 + b2 + b3
    ensures SumOfSums(s + [b0, b1, b2, b3]) == SumOfSums(s) + 4 * Sum(s) + 4 * b0 + 3 * b1 + 2 * b2 + b3
  {
    hide Sum, SumOfSums;
    SumMore(s, b0);
    SumMore(s + [b0], b1);
    SumMore(s + [b0] + [b1], b2);
    SumMore(s + [b0] + [b1] + [b2], b3);
    assert s + [b0] + [b1] + [b2] + [b3] == s + [b0, b1, b2, b3];
  }

  // The checksum goes on from that of the bytes done to that of done + [b].
  method UpdateWith(state: nat, b: byte, ghost done: seq<byte>) returns (r: nat)
    requires state == Checksum(done)
    ensures r == Checksum(done + [b])
  {
    hide Sum, SumOfSums;
    HalvesOf(done);
    r := Update(state, b);
    SumMore(done, b);
    OnePerByte(Sum(done), SumOfSums(done), b);
  }

  lemma HalvesOf(s: seq<byte>)
    ensures Checksum(s) % 256 == Sum(s) % 255 && Checksum(s) / 256 == SumOfSums(s) % 255
  {
  }

  lemma OnePerByte(a: nat, c: nat, b: byte)
    ensures (a % 255 + b) % 255 == (a + b) % 255
    ensures (c % 255 + (a + b) % 255) % 255 == (c + a + b) % 255
  {
    Reduced(a, b);
    Reduced(c, (a + b) % 255);
    Reduced(a + b, c);
  }

  lemma Reduced(a: nat, b: nat)
    ensures (a % 255 + b) % 255 == (a + b) % 255
  {
    Congruent(a + b, a % 255 + b);
    assert a + b == a % 255 + b + 255 * (a / 255);
  }

  method UpdateWithWord(state: nat, n: nat, ghost done: seq<byte>) returns (r: nat)
    requires state == Checksum(done)
    ensures r == Checksum(done + Word(n))
  {
    r := UpdateWith(state, n % 256, done);
    r := UpdateWith(r, n / 256 % 256, done + [n % 256]);
    assert done + [n % 256] + [n / 256 % 256] == done + Word(n);
  }

  /** The checksum of a device's tables is that of their bytes, each in its place. */
  method TableChecksum(t: Routing) returns (r: nat)
    ensures r == Checksum(TableBytes(t)) && LaidOut(TableBytes(t), t)
  {
    hide Checksum, Word, LaidOut;
    TableBytesAt(t);
    r := 0;
    EmptySum();
    var sz := |t.routes| % UINT16;
    r := UpdateWithWord(r, sz, []);
    assert [] + Word(sz) == Word(sz);
    ghost var head := Word(sz);
    assert head + RouteBytes(t.routes[..0]) == head;
    var i := 0;
    while i < sz
      invariant 0 <= i <= sz && r == Checksum(head + RouteBytes(t.routes[..i]))
    {
      ghost var done := head + RouteBytes(t.routes[..i]);
      r := UpdateWithWord(r, t.routes[i].key, done);
      r := UpdateWithWord(r, t.routes[i].val, done + Word(t.routes[i].key));
      assert t.routes[..i + 1][..i] == t.routes[..i];
      Regrouped(head, RouteBytes(t.routes[..i]), Word(t.routes[i].key), Word(t.routes[i].val));
      i := i + 1;
    }
    ghost var routes := head + RouteBytes(t.routes[..sz]);
    sz := |t.links| % UINT16;
    r := UpdateWithWord(r, sz, routes);
    head := routes + Word(sz);
    assert head + LinkBytes(t.links[..0]) == head;
    i := 0;
    while i < sz
      invariant 0 <= i <= sz && r == Checksum(head + LinkBytes(t.links[..i]))
    {
      ghost var done := head + LinkBytes(t.links[..i]);
      var link := t.links[i];
      r := UpdateWithWord(r, link.key, done);
      r := UpdateWithWord(r, link.val.bus, done + Word(link.key));
      r := UpdateWithWord(r, link.val.nextHop, done + Word(link.key) + Word(link.val.bus));
      assert t.links[..i + 1][..i] == t.links[..i];
      Regrouped(head, LinkBytes(t.links[..i]), Word(link.key), Word(link.val.bus));
      Regrouped(head, LinkBytes(t.links[..i]) + Word(link.key), Word(link.val.bus), Word(link.val.nextHop));
      i := i + 1;
    }
    assert head + LinkBytes(t.links[..sz]) == TableBytes(t);
  }

  lemma EmptySum()
    ensures Checksum([]) == 0
  {
  }

  lemma Regrouped(a: seq<byte>, b: seq<byte>, c: seq<byte>, d: seq<byte>)
    ensures a + b + c + d == a + (b + c + d) && a + b + c == a + (b + c)
  {
  }

  // The tables without their intra-bus ids.
  function WithoutIntraBus(ts: seq<Entry<LinkInfo>>): (r: seq<Entry<LinkInfo>>)
    ensures |r| == |ts| && forall i :: 0 <= i < |ts| ==> r[i] == Entry(ts[i].key, ts[i].val.(intraBus := 0))
  {
    seq(|ts|, i requires 0 <= i < |ts| => Entry(ts[i].key, ts[i].val.(intraBus := 0)))
  }

  // Tables as the program can hold them: 16-bit fields, fewer than 65536 entries.
  predicate Fits16(t: Routing) {
    && |t.routes| < UINT16 && |t.links| < UINT16
    && (forall i :: 0 <= i < |t.routes| ==> t.routes[i].key < UINT16 && t.routes[i].val < UINT16)
    && (forall i :: 0 <= i < |t.links| ==>
          t.links[i].key < UINT16 && t.links[i].val.bus < UINT16 && t.links[i].val.nextHop < UINT16)
  }

  lemma WordIs(a: nat, b: nat)
    requires a < UINT16 && b < UINT16 && Word(a) == Word(b)
    ensures a == b
  {
    assert Word(a)[0] == Word(b)[0] && Word(a)[1] == Word(b)[1];
    assert a == a % 256 + a / 256 % 256 * 256 && b == b % 256 + b / 256 % 256 * 256;
  }

  // Equal concatenations with parts of equal length have equal parts.
  lemma SameParts(a: seq<byte>, b: seq<byte>, c: seq<byte>, d: seq<byte>)
    requires a + b == c + d && (|a| == |c| || |b| == |d|)
    ensures a == c && b == d
  {
    assert |a| == |c|;
    assert a == (a + b)[..|a|] == c && b == (a + b)[|a|..] == d;
  }

  lemma {:induction false} RoutesFromBytes(a: seq<Entry<nat>>, b: seq<Entry<nat>>)
    requires |a| == |b|
    requires forall i :: 0 <= i < |a| ==> a[i].key < UINT16 && a[i].val < UINT16
    requires forall i :: 0 <= i < |b| ==> b[i].key < UINT16 && b[i].val < UINT16
    ensures |RouteBytes(a)| == |RouteBytes(b)|
    ensures RouteBytes(a) == RouteBytes(b) <==> a == b
  {
    if a == [] {
    } else {
      var k := |a| - 1;
      RoutesFromBytes(a[..k], b[..k]);
      assert a == a[..k] + [a[k]] && b == b[..k] + [b[k]];
      if RouteBytes(a) == RouteBytes(b) {
        SameParts(RouteBytes(a[..k]) + Word(a[k].key), Word(a[k].val), RouteBytes(b[..k]) + Word(b[k].key), Word(b[k].val));
        SameParts(RouteBytes(a[..k]), Word(a[k].key), RouteBytes(b[..k]), Word(b[k].key));
        WordIs(a[k].key, b[k].key);
        WordIs(a[k].val, b[k].val);
      }
    }
  }

  // Two links alike but for their intra-bus ids.
  predicate SameLink(x: Entry<LinkInfo>, y: Entry<LinkInfo>) {
    x.key == y.key && x.val.bus == y.val.bus && x.val.nextHop == y.val.nextHop
  }

  lemma {:induction false} LinksFromBytes(a: seq<Entry<LinkInfo>>, b: seq<Entry<LinkInfo>>)
    requires |a| == |b|
    requires forall i :: 0 <= i < |a| ==> a[i].key < UINT16 && a[i].val.bus < UINT16 && a[i].val.nextHop < UINT16
    requires forall i :: 0 <= i < |b| ==> b[i].key < UINT16 && b[i].val.bus < UINT16 && b[i].val.nextHop < UINT16
    ensures |LinkBytes(a)| == |LinkBytes(b)|
    ensures LinkBytes(a) == LinkBytes(b) <==> forall i :: 0 <= i < |a| ==> SameLink(a[i], b[i])
  {
    if a == [] {
    } else {
      var k := |a| - 1;
      var x, y := a[k], b[k];
      LinksFromBytes(a[..k], b[..k]);
      assert LinkBytes(a) == LinkBytes(a[..k]) + Word(x.key) + Word(x.val.bus) + Word(x.val.nextHop);
      assert LinkBytes(b) == LinkBytes(b[..k]) + Word(y.key) + Word(y.val.bus) + Word(y.val.nextHop);
      hide LinkBytes, Word;
      assert forall i :: 0 <= i < k ==> a[..k][i] == a[i] && b[..k][i] == b[i];
      if LinkBytes(a) == LinkBytes(b) {
        var u, v := LinkBytes(a[..k]), LinkBytes(b[..k]);
        SameParts(u + Word(x.key) + Word(x.val.bus), Word(x.val.nextHop), v + Word(y.key) + Word(y.val.bus), Word(y.val.nextHop));
        SameParts(u + Word(x.key), Word(x.val.bus), v + Word(y.key), Word(y.val.bus));
        SameParts(u, Word(x.key), v, Word(y.key));
        WordIs(x.key, y.key);
        WordIs(x.val.bus, y.val.bus);
        WordIs(x.val.nextHop, y.val.nextHop);
      }
    }
  }

  lemma SameWithoutIntraBus(a: seq<Entry<LinkInfo>>, b: seq<Entry<LinkInfo>>)
    ensures WithoutIntraBus(a) == WithoutIntraBus(b) <==> |a| == |b| && forall i :: 0 <= i < |a| ==> SameLink(a[i], b[i])
  {
    if WithoutIntraBus(a) == WithoutIntraBus(b) {
      assert |WithoutIntraBus(a)| == |a| && |WithoutIntraBus(b)| == |b|;
      forall i | 0 <= i < |a| ensures SameLink(a[i], b[i]) {
        assert WithoutIntraBus(a)[i] == WithoutIntraBus(b)[i];
      }
    }
  }

  /** What the checksum is taken over: two devices' tables give the same bytes exactly if they agree in
      everything but the intra-bus ids of their links. */
  lemma IntraBusUnseen(t: Routing, t': Routing)
    requires Fits16(t) && Fits16(t')
    ensures TableBytes(t) == TableBytes(t') <==> t.routes == t'.routes && WithoutIntraBus(t.links) == WithoutIntraBus(t'.links)
  {
    hide WithoutIntraBus, Word, RouteBytes, LinkBytes;
    var n, n', k, k' := |t.routes|, |t'.routes|, |t.links|, |t'.links|;
    assert t.routes[..n] == t.routes && t'.routes[..n'] == t'.routes && t.links[..k] == t.links && t'.links[..k'] == t'.links;
    SameWithoutIntraBus(t.links, t'.links);
    var rest, rest' := Word(k) + LinkBytes(t.links), Word(k') + LinkBytes(t'.links);
    if TableBytes(t) == TableBytes(t') {
      Regrouped(Word(n), RouteBytes(t.routes), rest, []);
      Regrouped(Word(n'), RouteBytes(t'.routes), rest', []);
      SameParts(Word(n), RouteBytes(t.routes) + rest, Word(n'), RouteBytes(t'.routes) + rest');
      WordIs(n, n');
      RoutesFromBytes(t.routes, t'.routes);
      SameParts(RouteBytes(t.routes), rest, RouteBytes(t'.routes), rest');
      SameParts(Word(k), LinkBytes(t.links), Word(k'), LinkBytes(t'.links));
      WordIs(k, k');
      LinksFromBytes(t.links, t'.links);
    } else if n == n' && k == k' {
      LinksFromBytes(t.links, t'.links);
    }
  }

  /** Two devices' tables that differ, in an intra-bus id, and have one checksum. */
  lemma OneChecksumTwoTables()
    ensures var t, t' := Routing([Entry(5, 0)], [Entry(0, LinkInfo(5, 0, 1))]), Routing([Entry(5, 0)], [Entry(0, LinkInfo(5, 0, 2))]);
      RoutingOk(t) && RoutingOk(t') && t != t' && Checksum(TableBytes(t)) == Checksum(TableBytes(t'))
  {
    var t, t' := Routing([Entry(5, 0)], [Entry(0, LinkInfo(5, 0, 1))]), Routing([Entry(5, 0)], [Entry(0, LinkInfo(5, 0, 2))]);
    assert t.links[0].key == 0 && t'.links[0].key == 0 && t.links != t'.links by { assert t.links[0] != t'.links[0]; }
    SameWithoutIntraBus(t.links, t'.links);
    IntraBusUnseen(t, t');
  }
}
