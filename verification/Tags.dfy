/** The boundary tags of the memory manager: the length of a gap, written as a 1 to 3 byte
    variable-length number forward from the gap's left end and backward from its right end. */
module Tags {

  type byte = x: int | 0 <= x < 256

  const UINT16 := 0x1_0000

  function Zeros(n: nat): (s: seq<byte>)
    ensures |s| == n
  {
    seq(n, _ => 0)
  }

  // A number is written seven bits a byte, low bits first, all but the last byte marked by their top
  // bit; every byte after the first stands for one more than its seven bits, so that no number has
  // two codes. A 16-bit number takes at most three bytes.
  function TagLen(n: nat): (l: nat)
    ensures 1 <= l <= n + 1
    ensures n != 0 ==> l <= n
    ensures n >= 2 ==> 2 * l <= n
    ensures n < UINT16 ==> l == if n < 128 then 1 else if n < 16512 then 2 else 3
  {
    if n < 128 then 1 else 1 + TagLen(n / 128 - 1)
  }

  // The bytes of m from a upwards start with the tag of n.
  predicate TagForward(m: seq<byte>, a: nat, n: nat)
    decreases n
  {
    a < |m| && if n < 128 then m[a] == n else m[a] == n % 128 + 128 && TagForward(m, a + 1, n / 128 - 1)
  }

  // The bytes of m from e downwards start with the tag of n.
  predicate TagBackward(m: seq<byte>, e: nat, n: nat) {
    e < |m| && if n < 128 then m[e] == n else m[e] == n % 128 + 128 && e != 0 && TagBackward(m, e - 1, n / 128 - 1)
  }

  lemma TagForwardFrame(m: seq<byte>, m': seq<byte>, a: nat, n: nat)
    requires TagForward(m, a, n) && |m'| == |m|
    requires forall i :: a <= i < a + TagLen(n) && i < |m| ==> m'[i] == m[i]
    ensures TagForward(m', a, n)
    decreases n
  {
    if n < 128 {
    } else {
      TagForwardFrame(m, m', a + 1, n / 128 - 1);
    }
  }

  lemma TagBackwardFrame(m: seq<byte>, m': seq<byte>, e: nat, n: nat)
    requires TagBackward(m, e, n) && |m'| == |m|
    requires forall i :: e - TagLen(n) < i <= e && 0 <= i ==> m'[i] == m[i]
    ensures TagBackward(m', e, n)
  {
    if n < 128 {
    } else {
      TagBackwardFrame(m, m', e - 1, n / 128 - 1);
    }
  }

  predicate ReadableForward(m: seq<byte>, a: nat) {
    a < |m| && (m[a] >= 128 ==> a + 1 < |m| && (m[a + 1] >= 128 ==> a + 2 < |m|))
  }

  predicate ReadableBackward(m: seq<byte>, e: nat) {
    e < |m| && (m[e] >= 128 ==> e >= 1 && (m[e - 1] >= 128 ==> e >= 2))
  }

  // The value of up to three tag bytes, before truncation to 16 bits.
  function TagValue(b0: byte, b1: byte, b2: byte): nat {
    if b0 < 128 then b0
    else if b1 < 128 then 128 + b0 % 128 + b1 * 128
    else 16512 + b0 % 128 + b1 % 128 * 128 + b2 * 16384
  }

  function ForwardValue(m: seq<byte>, a: nat): nat
    requires ReadableForward(m, a)
  {
    TagValue(m[a],
             if m[a] >= 128 then m[a + 1] else 0,
             if m[a] >= 128 && m[a + 1] >= 128 then m[a + 2] else 0)
  }

  function BackwardValue(m: seq<byte>, e: nat): nat
    requires ReadableBackward(m, e)
  {
    TagValue(m[e],
             if m[e] >= 128 then m[e - 1] else 0,
             if m[e] >= 128 && m[e - 1] >= 128 then m[e - 2] else 0)
  }

  // The two parsers return a 16-bit number.
  function ParseForward(m: seq<byte>, a: nat): (n: nat)
    requires ReadableForward(m, a)
    ensures n < UINT16
  {
    ForwardValue(m, a) % UINT16
  }

  function ParseBackward(m: seq<byte>, e: nat): (n: nat)
    requires ReadableBackward(m, e)
    ensures n < UINT16
  {
    BackwardValue(m, e) % UINT16
  }

  /** Reading forward gives n exactly when the bytes there are the forward tag of n: parsing inverts
      writing, and no 16-bit gap length has two tags. */
  lemma ForwardRoundTrip(m: seq<byte>, a: nat, n: nat)
    requires n < UINT16
    ensures TagForward(m, a, n) <==> ReadableForward(m, a) && ForwardValue(m, a) == n
    ensures TagForward(m, a, n) ==> ReadableForward(m, a) && ParseForward(m, a) == n
  {
    if n >= 128 {
      var n1 := n / 128 - 1;
      assert TagForward(m, a, n) <==> a < |m| && m[a] == n % 128 + 128 && TagForward(m, a + 1, n1);
      if n1 >= 128 {
        var n2 := n1 / 128 - 1;
        assert TagForward(m, a + 1, n1) <==> a + 1 < |m| && m[a + 1] == n1 % 128 + 128 && TagForward(m, a + 2, n2);
        assert TagForward(m, a + 2, n2) <==> a + 2 < |m| && m[a + 2] == n2;
      } else {
        assert TagForward(m, a + 1, n1) <==> a + 1 < |m| && m[a + 1] == n1;
      }
    }
  }

  lemma BackwardRoundTrip(m: seq<byte>, e: nat, n: nat)
    requires n < UINT16
    ensures TagBackward(m, e, n) <==> ReadableBackward(m, e) && BackwardValue(m, e) == n
    ensures TagBackward(m, e, n) ==> ReadableBackward(m, e) && ParseBackward(m, e) == n
  {
    if n >= 128 {
      var n1 := n / 128 - 1;
      assert TagBackward(m, e, n) <==> 1 <= e < |m| && m[e] == n % 128 + 128 && TagBackward(m, e - 1, n1);
      if n1 >= 128 {
        var n2 := n1 / 128 - 1;
        if e >= 1 {
          assert TagBackward(m, e - 1, n1) <==> 2 <= e && e - 1 < |m| && m[e - 1] == n1 % 128 + 128 && TagBackward(m, e - 2, n2);
          if e >= 2 { assert TagBackward(m, e - 2, n2) <==> e - 2 < |m| && m[e - 2] == n2; }
        }
      } else if e >= 1 {
        assert TagBackward(m, e - 1, n1) <==> e - 1 < |m| && m[e - 1] == n1;
      }
    }
  }

  // Bytes a..b of m form a gap carrying both of its tags.
  predicate GapOk(m: seq<byte>, a: nat, b: nat) {
    && a < b <= |m|
    && b - a < UINT16
    && TagForward(m, a, b - a)
    && TagBackward(m, b - 1, b - a)
  }

  // The tags of a gap lie inside the gap, so nothing outside it can disturb them.
  lemma GapFrame(m: seq<byte>, m': seq<byte>, a: nat, b: nat)
    requires GapOk(m, a, b) && |m'| == |m|
    requires forall i :: a <= i < b ==> m'[i] == m[i]
    ensures GapOk(m', a, b)
  {
    TagForwardFrame(m, m', a, b - a);
    TagBackwardFrame(m, m', b - 1, b - a);
  }

  lemma OneByteGap(m: seq<byte>, a: nat)
    requires a < |m| && m[a] == 1
    ensures GapOk(m, a, a + 1)
  {
  }

  lemma GapParses(m: seq<byte>, a: nat, b: nat)
    requires GapOk(m, a, b)
    ensures ReadableForward(m, a) && ParseForward(m, a) == b - a
    ensures ReadableBackward(m, b - 1) && ParseBackward(m, b - 1) == b - a
  {
    ForwardRoundTrip(m, a, b - a);
    BackwardRoundTrip(m, b - 1, b - a);
  }

  /** Both tags of one gap fit into it side by side; only in a one-byte gap do they share a byte, and
      there they agree on it. Writing either leaves the other readable. */
  lemma BothTagsSurvive(m: seq<byte>, m': seq<byte>, a: nat, b: nat)
    requires a < b <= |m| == |m'| && b - a < UINT16
    ensures TagForward(m, a, b - a) && TagBackward(m', b - 1, b - a)
            && (forall i :: 0 <= i < |m| && !(b - 1 - TagLen(b - a) < i <= b - 1) ==> m'[i] == m[i])
            ==> GapOk(m', a, b)
    ensures TagBackward(m, b - 1, b - a) && TagForward(m', a, b - a)
            && (forall i :: 0 <= i < |m| && !(a <= i < a + TagLen(b - a)) ==> m'[i] == m[i])
            ==> GapOk(m', a, b)
  {
    var n := b - a;
    if n >= 2 {
      if TagForward(m, a, n) && forall i :: 0 <= i < |m| && !(b - 1 - TagLen(n) < i <= b - 1) ==> m'[i] == m[i] {
        TagForwardFrame(m, m', a, n);
      }
      if TagBackward(m, b - 1, n) && forall i :: 0 <= i < |m| && !(a <= i < a + TagLen(n)) ==> m'[i] == m[i] {
        TagBackwardFrame(m, m', b - 1, n);
      }
    }
  }
}
