/** The variable-length code of unsigned integers in packets: seven bits a byte, low bits first, without
    redundancy. The encoder works on a little-endian byte array with shifts and borrows, the decoder
    with a sliding 16-bit accumulator; both are tied to one arithmetic definition of the code. */
module VarInt {
  import opened Tags

  // The code of n. The boundary tags of the memory manager are the same code (TagIsCode).
  function Code(n: nat): (c: seq<byte>)
    ensures c != []
  {
    if n < 128 then [n] else [n % 128 + 128] + Code(n / 128 - 1)
  }

  // The number a little-endian byte string stands for.
  function Value(s: seq<byte>): nat {
    if s == [] then 0 else s[0] + 256 * Value(s[1..])
  }

  function Pow256(k: nat): (p: nat)
    ensures 1 <= p
  {
    if k == 0 then 1 else 256 * Pow256(k - 1)
  }

  function Pow128(k: nat): (p: nat)
    ensures 1 <= p
  {
    if k == 0 then 1 else 128 * Pow128(k - 1)
  }

  // The first number whose code is longer than k bytes.
  function Limit(k: nat): nat {
    if k == 0 then 0 else 128 * (Limit(k - 1) + 1)
  }

  // --------------------------------------------------------------------------- the code itself

  /** A gap's forward tag is the code of its length; its backward tag is the same code read downwards. */
  lemma TagIsCode(m: seq<byte>, a: nat, n: nat)
    ensures TagLen(n) == |Code(n)|
    ensures TagForward(m, a, n) <==> a + |Code(n)| <= |m| && m[a..a + |Code(n)|] == Code(n)
    ensures TagBackward(m, a, n) <==> |Code(n)| <= a + 1 <= |m| && forall i :: 0 <= i < |Code(n)| ==> m[a - i] == Code(n)[i]
  {
    ForwardTagIsCode(m, a, n);
    BackwardTagIsCode(m, a, n);
  }

  lemma HeadAndRest(m: seq<byte>, a: nat, b: byte, rest: seq<byte>)
    requires a + 1 + |rest| <= |m|
    ensures m[a..a + 1 + |rest|] == [b] + rest <==> m[a] == b && m[a + 1..a + 1 + |rest|] == rest
  {
    var s := m[a..a + 1 + |rest|];
    assert s[0] == m[a] && s[1..] == m[a + 1..a + 1 + |rest|] && s == [s[0]] + s[1..];
    assert ([b] + rest)[0] == b && ([b] + rest)[1..] == rest;
  }

  lemma {:induction false} ForwardTagIsCode(m: seq<byte>, a: nat, n: nat)
    ensures TagLen(n) == |Code(n)|
    ensures TagForward(m, a, n) <==> a + |Code(n)| <= |m| && m[a..a + |Code(n)|] == Code(n)
    decreases n
  {
    if n >= 128 {
      var k, rest := n / 128 - 1, Code(n / 128 - 1);
      ForwardTagIsCode(m, a + 1, k);
      assert TagForward(m, a, n) <==> a < |m| && m[a] == n % 128 + 128 && TagForward(m, a + 1, k);
      assert Code(n) == [n % 128 + 128] + rest && TagLen(n) == 1 + TagLen(k);
      hide Code, TagForward, TagLen;
      if a + 1 + |rest| <= |m| { HeadAndRest(m, a, n % 128 + 128, rest); }
    } else if a < |m| {
      assert m[a..a + 1] == [m[a]];
    }
  }

  lemma {:induction false} BackwardTagIsCode(m: seq<byte>, a: nat, n: nat)
    ensures TagBackward(m, a, n) <==> |Code(n)| <= a + 1 <= |m| && forall i :: 0 <= i < |Code(n)| ==> m[a - i] == Code(n)[i]
    decreases n
  {
    if n >= 128 {
      if a > 0 { BackwardTagIsCode(m, a - 1, n / 128 - 1); }
      BackwardStep(m, a, n);
    } else if a < |m| {
      assert Code(n)[0] == n;
      assert m[a - 0] == m[a];
    }
  }

  lemma BackwardStep(m: seq<byte>, a: nat, n: nat)
    requires 128 <= n
    requires a > 0 ==> var rest := Code(n / 128 - 1);
      (TagBackward(m, a - 1, n / 128 - 1) <==> |rest| <= a <= |m| && forall i :: 0 <= i < |rest| ==> m[a - 1 - i] == rest[i])
    ensures TagBackward(m, a, n) <==> |Code(n)| <= a + 1 <= |m| && forall i :: 0 <= i < |Code(n)| ==> m[a - i] == Code(n)[i]
  {
    var rest := Code(n / 128 - 1);
    assert Code(n) == [n % 128 + 128] + rest;
    if TagBackward(m, a, n) {
      forall i | 0 <= i < |Code(n)| ensures m[a - i] == Code(n)[i] {
        if i > 0 { assert m[a - 1 - (i - 1)] == rest[i - 1]; }
      }
    }
    if |Code(n)| <= a + 1 <= |m| && forall i :: 0 <= i < |Code(n)| ==> m[a - i] == Code(n)[i] {
      assert m[a - 0] == Code(n)[0];
      forall i | 0 <= i < |rest| ensures m[a - 1 - i] == rest[i] {
        assert m[a - (i + 1)] == Code(n)[i + 1];
      }
    }
  }

  /** Exactly how many bytes a number takes. */
  lemma {:induction false} CodeLength(n: nat, k: nat)
    ensures |Code(n)| <= k <==> n < Limit(k)
    decreases n
  {
    if n < 128 || k == 0 {
    } else {
      CodeLength(n / 128 - 1, k - 1);
    }
  }

  // The number coded at s[p..], read as far as the first byte without its top bit.
  function CodeValue(s: seq<byte>, p: nat): nat
    decreases |s| - p
  {
    if p >= |s| then 0
    else if s[p] < 128 then s[p]
    else s[p] % 128 + 128 * (1 + CodeValue(s, p + 1))
  }

  // Where that byte is, |s| if there is none.
  function Terminator(s: seq<byte>, p: nat): (t: nat)
    ensures p <= |s| ==> p <= t <= |s|
    ensures forall i :: p <= i < t && i < |s| ==> s[i] >= 128
    ensures t < |s| ==> s[t] < 128
    decreases |s| - p
  {
    if p >= |s| || s[p] < 128 then p else Terminator(s, p + 1)
  }

  lemma {:induction false} TerminatorIs(s: seq<byte>, p: nat, t: nat)
    requires p <= t < |s| && s[t] < 128 && forall i :: p <= i < t ==> s[i] >= 128
    ensures Terminator(s, p) == t
    decreases t - p
  {
    if p == t {
    } else {
      TerminatorIs(s, p + 1, t);
    }
  }

  /** Reading a code gives the number back and stops at its last byte, whatever follows. */
  lemma {:induction false} DecodesCode(s: seq<byte>, p: nat, n: nat)
    requires p + |Code(n)| <= |s| && s[p..p + |Code(n)|] == Code(n)
    ensures CodeValue(s, p) == n && Terminator(s, p) == p + |Code(n)| - 1
    decreases n
  {
    var c := Code(n);
    assert s[p] == s[p..p + |c|][0] == c[0];
    if n < 128 {
    } else {
      var rest := Code(n / 128 - 1);
      assert c == [n % 128 + 128] + rest;
      assert s[p + 1..p + 1 + |rest|] == s[p..p + |c|][1..] == rest;
      DecodesCode(s, p + 1, n / 128 - 1);
    }
  }

  /** Every terminated byte string is the code of the number it reads as: no number has two codes. */
  lemma {:induction false} CodesDecoded(s: seq<byte>, p: nat)
    requires p <= |s| && Terminator(s, p) < |s|
    ensures Code(CodeValue(s, p)) == s[p..Terminator(s, p) + 1]
    decreases |s| - p
  {
    if s[p] < 128 {
    } else {
      CodesDecoded(s, p + 1);
      var n := CodeValue(s, p);
      assert n % 128 + 128 == s[p] && n / 128 - 1 == CodeValue(s, p + 1);
      assert s[p..Terminator(s, p) + 1] == [s[p]] + s[p + 1..Terminator(s, p) + 1];
    }
  }

  // ------------------------------------------------------------------------- byte arithmetic

  lemma {:induction false} ValueBound(s: seq<byte>)
    ensures Value(s) < Pow256(|s|)
  {
    if s == [] {
    } else {
      ValueBound(s[1..]);
    }
  }

  lemma {:induction false} ValueAppend(s: seq<byte>, b: byte)
    ensures Value(s + [b]) == Value(s) + b * Pow256(|s|)
  {
    if s != [] {
      assert (s + [b])[1..] == s[1..] + [b];
      ValueAppend(s[1..], b);
      Distribute(Value(s[1..]), b, Pow256(|s| - 1));
    } else {
      assert (s + [b])[1..] == [];
    }
  }

  lemma Distribute(v: nat, b: nat, p: nat)
    ensures 256 * (v + b * p) == 256 * v + b * (256 * p)
  {
  }

  lemma {:induction false} ValueZeros(s: seq<byte>, k: nat)
    requires k <= |s| && forall i :: k <= i < |s| ==> s[i] == 0
    ensures Value(s) == Value(s[..k])
    decreases |s|
  {
    if k < |s| {
      var t := s[..|s| - 1];
      assert s == t + [0];
      ValueAppend(t, 0);
      ValueZeros(t, k);
      assert t[..k] == s[..k];
    } else {
      assert s[..k] == s;
    }
  }

  // One seven-bit shift of the bytes, low end first.
  function Shifted(s: seq<byte>): (r: seq<byte>)
    ensures |r| == |s|
  {
    if s == [] then []
    else if |s| == 1 then [s[0] / 128]
    else [s[0] / 128 + s[1] % 128 * 2] + Shifted(s[1..])
  }

  lemma {:induction false} ShiftedValue(s: seq<byte>)
    ensures Value(Shifted(s)) == Value(s) / 128
  {
    if |s| == 1 {
      assert s[1..] == [] && Shifted(s)[1..] == [];
    } else if |s| > 1 {
      ShiftedValue(s[1..]);
      var v, rest := Value(s[1..]), Value(s[1..][1..]);
      assert v == s[1] + 256 * rest && Value(s) == s[0] + 256 * v;
      assert Shifted(s)[1..] == Shifted(s[1..]) && Shifted(s)[0] == s[0] / 128 + s[1] % 128 * 2;
      assert Value(Shifted(s)) == Shifted(s)[0] + 256 * Value(Shifted(s[1..]));
      hide Value, Shifted;
      ShiftedDigits(s[0], s[1], rest);
    }
  }

  lemma ShiftedDigits(b0: byte, b1: byte, rest: nat)
    ensures b0 / 128 + b1 % 128 * 2 + 256 * ((b1 + 256 * rest) / 128) == (b0 + 256 * (b1 + 256 * rest)) / 128
  {
    var q, r := b1 / 128, b1 % 128;
    assert b1 + 256 * rest == r + 128 * (q + 2 * rest);
    assert (b1 + 256 * rest) / 128 == q + 2 * rest;
    assert (b0 + 256 * (b1 + 256 * rest)) / 128 == b0 / 128 + 2 * (b1 + 256 * rest);
  }

  // Every byte keeps its top bit, and takes the low seven bits of the next one.
  lemma {:induction false} ShiftedAt(s: seq<byte>, i: nat)
    requires i < |s|
    ensures Shifted(s)[i] == s[i] / 128 + if i + 1 < |s| then s[i + 1] % 128 * 2 else 0
  {
    if i == 0 {
    } else {
      ShiftedAt(s[1..], i - 1);
    }
  }

  // One borrow-propagating decrement, modulo the width.
  function Decremented(s: seq<byte>): (r: seq<byte>)
    ensures |r| == |s|
  {
    if s == [] then [] else if s[0] == 0 then [255] + Decremented(s[1..]) else [s[0] - 1] + s[1..]
  }

  lemma {:induction false} DecrementedValue(s: seq<byte>)
    ensures Value(Decremented(s)) == if Value(s) > 0 then Value(s) - 1 else Pow256(|s|) - 1
  {
    if s == [] {
    } else {
      DecrementedValue(s[1..]);
      assert Decremented(s)[1..] == if s[0] == 0 then Decremented(s[1..]) else s[1..];
    }
  }

  // -------------------------------------------------------------------------------- encoding

  method ShiftRight7(a: array<byte>, cnt: nat)
    requires 1 <= cnt <= a.Length
    modifies a
    ensures a[..cnt] == Shifted(old(a[..cnt])) && a[cnt..] == old(a[cnt..])
    ensures Value(a[..cnt]) == old(Value(a[..cnt])) / 128
  {
    hide Value, Shifted;
    ghost var s := a[..cnt];
    ShiftedValue(s);
    var i := 0;
    while i < cnt - 1
      invariant 0 <= i <= cnt - 1
      invariant forall j :: 0 <= j < i ==> a[j] == Shifted(s)[j]
      invariant forall j :: i <= j < a.Length ==> a[j] == old(a[j])
    {
      ShiftedAt(s, i);
      a[i] := a[i] / 128;
      a[i] := a[i] + a[i + 1] % 128 * 2;
      i := i + 1;
    }
    ShiftedAt(s, i);
    a[i] := a[i] / 128;
  }

  method Subtract1(a: array<byte>, cnt: nat)
    requires cnt <= a.Length
    modifies a
    ensures a[..cnt] == Decremented(old(a[..cnt])) && a[cnt..] == old(a[cnt..])
    ensures old(Value(a[..cnt])) > 0 ==> Value(a[..cnt]) == old(Value(a[..cnt])) - 1
  {
    ghost var s := a[..cnt];
    DecrementedValue(s);
    var i := 0;
    while i < cnt
      invariant 0 <= i <= cnt
      invariant forall j :: 0 <= j < i ==> s[j] == 0 && a[j] == 255
      invariant forall j :: i <= j < a.Length ==> a[j] == old(a[j])
    {
      var b: int := a[i];
      a[i] := (b + 255) % 256;
      if a[i] != 255 {
        BorrowStops(s, i, a[..cnt]);
        return;
      }
      i := i + 1;
    }
    BorrowStops(s, i, a[..cnt]);
  }

  // The bytes below i were zero and have become 255; byte i, if there is one, has absorbed the borrow.
  lemma {:induction false} BorrowStops(s: seq<byte>, i: nat, r: seq<byte>)
    requires i <= |s| == |r|
    requires forall j :: 0 <= j < i ==> s[j] == 0 && r[j] == 255
    requires i < |s| ==> s[i] != 0 && r[i] == s[i] - 1
    requires forall j :: i < j < |s| ==> r[j] == s[j]
    ensures r == Decremented(s)
  {
    if i > 0 {
      BorrowStops(s[1..], i - 1, r[1..]);
      assert r == [r[0]] + r[1..];
    } else if s != [] {
      assert r == [r[0]] + s[1..];
    }
  }

  method IsLess128(a: array<byte>, cnt: nat) returns (r: bool)
    requires 1 <= cnt <= a.Length
    ensures r <==> Value(a[..cnt]) < 128
  {
    var i := cnt - 1;
    while i > 0
      invariant 0 <= i < cnt
      invariant forall j :: i < j < cnt ==> a[j] == 0
    {
      if a[i] != 0 {
        HighByte(a[..cnt], i);
        return false;
      }
      i := i - 1;
    }
    ValueZeros(a[..cnt], 1);
    assert a[..cnt][..1] == [a[0]];
    return a[0] < 128;
  }

  lemma {:induction false} HighByte(s: seq<byte>, i: nat)
    requires 0 < i < |s| && s[i] != 0
    ensures Value(s) >= 128
  {
    if i > 1 {
      HighByte(s[1..], i - 1);
    } else {
      assert s[1..][0] == s[1];
    }
  }

  method StripZeros(num: seq<byte>) returns (cnt: nat)
    ensures cnt <= |num| && (cnt == 0 || num[cnt - 1] != 0)
    ensures Value(num[..cnt]) == Value(num)
    ensures cnt == 0 ==> Value(num) == 0
  {
    cnt := |num|;
    while cnt > 0 && num[cnt - 1] == 0
      invariant 0 <= cnt <= |num| && forall i :: cnt <= i < |num| ==> num[i] == 0
    {
      cnt := cnt - 1;
    }
    ValueZeros(num, cnt);
  }

  /** Writes the code of the number num stands for at dst[pos..] and returns the position behind it. */
  method EncodeUint(num: seq<byte>, dst: array<byte>, pos: nat) returns (end: nat)
    requires 1 <= |num| <= 16
    requires pos + |Code(Value(num))| <= dst.Length
    modifies dst
    ensures end == pos + |Code(Value(num))| && dst[pos..end] == Code(Value(num))
    ensures dst[..pos] == old(dst[..pos]) && dst[end..] == old(dst[end..])
  {
    ghost var n := Value(num);
    var cnt := StripZeros(num);
    if cnt == 0 {
      dst[pos] := 0;
      end := pos + 1;
      assert dst[pos..end] == [0];
      return;
    }
    var buff := new byte[16];
    forall i | 0 <= i < cnt { buff[i] := num[i]; }
    assert buff[..cnt] == num[..cnt];
    end := EmitCode(buff, cnt, dst, pos);
  }

  lemma CodeStep(s: seq<byte>, v: nat)
    requires s != [] && v == Value(s)
    ensures s[0] % 128 == v % 128
    ensures Code(v) == if v < 128 then [v] else [v % 128 + 128] + Code(v / 128 - 1)
  {
    var rest := Value(s[1..]);
    assert v == s[0] + 256 * rest;
    hide Value;
  }

  lemma OneMoreByte(e: seq<byte>, e': seq<byte>, pos: nat, end: nat, b: byte)
    requires pos <= end < |e| && e' == e[end := b]
    ensures e'[pos..end + 1] == e[pos..end] + [b]
  {
  }

  lemma Regroup(a: seq<byte>, b: byte, c: seq<byte>)
    ensures a + ([b] + c) == (a + [b]) + c
  {
  }

  // The encoding loop, on a copy of the number: emit the low seven bits, shift, subtract one.
  method EmitCode(buff: array<byte>, cnt: nat, dst: array<byte>, pos: nat) returns (end: nat)
    requires buff != dst && 1 <= cnt <= buff.Length
    requires pos + |Code(Value(buff[..cnt]))| <= dst.Length
    modifies buff, dst
    ensures end == pos + old(|Code(Value(buff[..cnt]))|) && dst[pos..end] == old(Code(Value(buff[..cnt])))
    ensures dst[..pos] == old(dst[..pos]) && dst[end..] == old(dst[end..])
  {
    hide Code, Value, Shifted, Decremented;
    ghost var c, d := Code(Value(buff[..cnt])), dst[..];
    end := pos;
    while true
      invariant pos <= end && end + |Code(Value(buff[..cnt]))| == pos + |c|
      invariant dst[pos..end] + Code(Value(buff[..cnt])) == c
      invariant forall i :: 0 <= i < dst.Length && !(pos <= i < pos + |c|) ==> dst[i] == d[i]
      decreases Value(buff[..cnt])
    {
      ghost var v := Value(buff[..cnt]);
      CodeStep(buff[..cnt], v);
      ghost var done, e := dst[pos..end], dst[..];
      dst[end] := buff[0] % 128;
      var last := IsLess128(buff, cnt);
      if last {
        OneMoreByte(e, dst[..], pos, end, v);
        end := end + 1;
        assert forall i :: 0 <= i < dst.Length && !(pos <= i < end) ==> dst[i] == d[i];
        return;
      }
      ghost var w := v / 128 - 1;
      ghost var rest := Code(w);
      Regroup(done, v % 128 + 128, rest);
      dst[end] := dst[end] + 128;
      OneMoreByte(e, dst[..], pos, end, v % 128 + 128);
      end := end + 1;
      assert dst[pos..end] + rest == c;
      ShiftRight7(buff, cnt);
      Subtract1(buff, cnt);
      assert Value(buff[..cnt]) == w;
    }
  }

  // -------------------------------------------------------------------------- output buffer size

  lemma {:induction false} LimitBound(k: nat)
    ensures Pow128(k) <= Limit(k) + 1 && (0 < k ==> Pow128(k) <= Limit(k))
  {
    if k == 0 {
    } else {
      LimitBound(k - 1);
    }
  }

  lemma PowersMeet()
    ensures Pow256(7) == Pow128(8) && Pow256(14) == Pow128(16)
  {
    assert Pow256(7) == 0x100_0000_0000_0000 && Pow128(8) == 0x100_0000_0000_0000;
    assert Pow256(14) == 256 * 256 * 256 * 256 * 256 * 256 * 256 * Pow256(7);
    assert Pow128(16) == 128 * 128 * 128 * 128 * 128 * 128 * 128 * 128 * Pow128(8);
  }

  /** The encoder's 16-byte output buffer holds a code exactly when the number is below Limit(16). Every
      number of up to 14 bytes is; a 15-byte number, which the encoder's own size check lets through,
      need not be. */
  lemma OutputBufferFits(num: seq<byte>)
    ensures |Code(Value(num))| <= 16 <==> Value(num) < Limit(16)
    ensures |num| <= 14 ==> Value(num) < Limit(16)
    ensures var wide := Zeros(14) + [2]; |wide| == 15 && |Code(Value(wide))| > 16
  {
    hide Value, Code, Limit, Pow256, Pow128;
    CodeLength(Value(num), 16);
    PowersMeet();
    if |num| <= 14 {
      ValueBound(num);
      Pow256Grows(|num|, 14);
      LimitBound(16);
    }
    ValueAppend(Zeros(14), 2);
    CodeLength(Value(Zeros(14) + [2]), 16);
    LimitAbove(16);
  }

  lemma {:induction false} LimitAbove(k: nat)
    ensures 127 * Limit(k) + 128 == 128 * Pow128(k)
  {
    if k == 0 {
    } else {
      LimitAbove(k - 1);
    }
  }

  lemma {:induction false} Pow256Grows(j: nat, k: nat)
    requires j <= k
    ensures Pow256(j) <= Pow256(k)
  {
    if j == k {
    } else {
      Pow256Grows(j, k - 1);
    }
  }

  // -------------------------------------------------------------------------------- decoding

  // The number the digits s[p..p+k] stand for, taking every one of them as continued.
  function Partial(s: seq<byte>, p: nat, k: nat): nat
    requires p + k < |s|
  {
    if k == 0 then s[p] % 128 else Partial(s, p, k - 1) + (1 + s[p + k] % 128) * Pow128(k)
  }

  lemma {:induction false} PartialIsValue(s: seq<byte>, p: nat, k: nat)
    requires p + k < |s| && s[p + k] < 128 && forall i :: p <= i < p + k ==> s[i] >= 128
    ensures Partial(s, p, k) == CodeValue(s, p)
    decreases k
  {
    if k == 0 {
    } else {
      PartialIsValue(s, p + 1, k - 1);
      PartialShift(s, p, k);
    }
  }

  lemma {:induction false} PartialShift(s: seq<byte>, p: nat, k: nat)
    requires 0 < k && p + k < |s|
    ensures Partial(s, p, k) == s[p] % 128 + 128 * (1 + Partial(s, p + 1, k - 1))
  {
    if k > 1 {
      PartialShift(s, p, k - 1);
      Distribute128(1 + Partial(s, p + 1, k - 2), 1 + s[p + k] % 128, Pow128(k - 1));
    } else {
      assert Pow128(1) == 128 * Pow128(0);
    }
  }

  lemma Distribute128(v: nat, b: nat, p: nat)
    ensures 128 * (v + b * p) == 128 * v + b * (128 * p)
  {
  }

  lemma {:induction false} PartialGrows(s: seq<byte>, p: nat, j: nat, k: nat)
    requires j <= k && p + k < |s|
    ensures Partial(s, p, j) <= Partial(s, p, k)
  {
    if j == k {
    } else {
      PartialGrows(s, p, j, k - 1);
      assert Partial(s, p, k) == Partial(s, p, k - 1) + (1 + s[p + k] % 128) * Pow128(k);
      hide Partial, Pow128;
      AtLeast(1 + s[p + k] % 128, Pow128(k));
    }
  }

  // What the sliding accumulator relies on: a digit of weight 128^(i+1) is its value shifted left by
  // 7 - i bits at byte i.
  lemma Weights(i: nat)
    requires 1 <= i <= 7
    ensures Pow128(i + 1) == Pow2(7 - i) * Pow256(i) && Pow256(i) <= Pow128(i + 1)
    ensures 1 <= Pow2(7 - i) <= 64
  {
    assert Pow128(1) == 128 && Pow128(2) == 0x4000 && Pow128(3) == 0x20_0000 && Pow128(4) == 0x1000_0000;
    assert Pow128(5) == 0x8_0000_0000 && Pow128(6) == 0x400_0000_0000 && Pow128(7) == 0x2_0000_0000_0000 && Pow128(8) == 0x100_0000_0000_0000;
    assert Pow256(1) == 0x100 && Pow256(2) == 0x1_0000 && Pow256(3) == 0x100_0000 && Pow256(4) == 0x1_0000_0000;
    assert Pow256(5) == 0x100_0000_0000 && Pow256(6) == 0x1_0000_0000_0000 && Pow256(7) == 0x100_0000_0000_0000;
    assert Pow2(0) == 1 && Pow2(1) == 2 && Pow2(2) == 4 && Pow2(3) == 8 && Pow2(4) == 16 && Pow2(5) == 32 && Pow2(6) == 64;
  }

  function Pow2(k: nat): nat {
    if k == 0 then 1 else 2 * Pow2(k - 1)
  }

  // The state of the decoding loop: i + 1 digits read, i bytes out, the rest in the accumulator.
  ghost predicate Decoding(s: seq<byte>, p: nat, i: nat, out: seq<byte>, interm: nat) {
    && p + i < |s| && |out| == i
    && Value(out) + interm * Pow256(i) == Partial(s, p, i)
  }

  // The accumulator after one more digit: the digit counts one more than its seven bits. It stays a
  // 16-bit number.
  function AddDigit(interm: nat, b: byte, i: nat): (x: nat)
    requires interm < 256 && 1 <= i <= 7
    ensures x < UINT16
  {
    Weights(i);
    DigitBound(1 + b % 128, Pow2(7 - i));
    interm + (1 + b % 128) * Pow2(7 - i)
  }

  lemma DigitBound(d: nat, w: nat)
    requires d <= 128 && w <= 64
    ensures d * w <= 8192
  {
    assert d * w <= 128 * w;
  }

  lemma DecodeStep(s: seq<byte>, p: nat, i: nat, out: seq<byte>, interm: nat, x: nat)
    requires 1 <= i <= 7 && p + i + 1 < |s| && interm < 256 && Decoding(s, p, i, out, interm)
    requires x == AddDigit(interm, s[p + i + 1], i)
    ensures Decoding(s, p, i + 1, out + [x % 256], x / 256)
  {
    var d, w := 1 + s[p + i + 1] % 128, Pow256(i);
    Weights(i);
    ValueAppend(out, x % 256);
    calc {
      Value(out + [x % 256]) + x / 256 * Pow256(i + 1);
      { Carry(x, w); }
      Value(out) + x * w;
      { Expand(interm, d, Pow2(7 - i), w); }
      Partial(s, p, i) + d * Pow128(i + 1);
      Partial(s, p, i + 1);
    }
  }

  lemma Carry(x: nat, w: nat)
    ensures x % 256 * w + x / 256 * (256 * w) == x * w
  {
    assert x == x % 256 + 256 * (x / 256);
  }

  lemma Expand(a: nat, d: nat, q: nat, w: nat)
    ensures (a + d * q) * w == a * w + d * (q * w)
  {
  }

  lemma FirstStep(s: seq<byte>, p: nat, x: nat)
    requires p + 1 < |s| && x == (s[p] as int) % 128 + 128 + (s[p + 1] as int) % 128 * 128
    ensures Decoding(s, p, 1, [x % 256], x / 256)
  {
    assert Partial(s, p, 1) == s[p] % 128 + (1 + s[p + 1] % 128) * Pow128(1);
    assert Pow128(1) == 128 && Pow256(1) == 256;
    assert [x % 256][1..] == [];
  }

  lemma DecodingValue(s: seq<byte>, p: nat, i: nat, out: seq<byte>, interm: nat)
    requires Decoding(s, p, i, out, interm)
    ensures Value(out) + interm * Pow256(|out|) == Partial(s, p, i)
  {
  }

  lemma SingleByte(s: seq<byte>, p: nat, out: seq<byte>)
    requires p < |s| && s[p] < 128 && out != [] && out[0] == s[p] && forall i :: 1 <= i < |out| ==> out[i] == 0
    ensures Value(out) == CodeValue(s, p) < Pow256(1)
  {
    ValueZeros(out, 1);
    assert out[..1] == [s[p]];
  }

  lemma TooWide(out: seq<byte>, interm: nat, target: nat)
    requires interm != 0 && |out| == target
    ensures Value(out) + interm * Pow256(|out|) >= Pow256(target)
  {
    AtLeast(interm, Pow256(|out|));
  }

  lemma NoTerminatorBefore(s: seq<byte>, p: nat, k: nat)
    requires p <= k < |s| && forall j :: p <= j <= k ==> s[j] >= 128
    ensures Terminator(s, p) > k
  {
  }

  // With i + 2 digits, a number needs more than i bytes.
  lemma RunsOver(s: seq<byte>, p: nat, i: nat, target: nat)
    requires 1 <= i <= 7 && target == i && p + i + 1 < |s| && forall j :: p <= j <= p + i ==> s[j] >= 128
    ensures Terminator(s, p) == |s| || CodeValue(s, p) >= Pow256(target)
  {
    var t := Terminator(s, p);
    if t < |s| {
      PartialIsValue(s, p, t - p);
      PartialGrows(s, p, i + 1, t - p);
      Weights(i);
      AtLeast(1 + s[p + i + 1] % 128, Pow128(i + 1));
    }
  }

  lemma AtLeast(d: nat, w: nat)
    requires 1 <= d
    ensures d * w >= w
  {
  }

  // The byte at s[pos + i] is the last digit: what is left in the accumulator is the top byte.
  method FinishNumber(s: seq<byte>, pos: nat, i: nat, interm: byte, dst: array<byte>, target: nat) returns (ok: bool)
    requires 1 <= i <= target <= dst.Length && pos + i < |s| && s[pos + i] < 128
    requires forall j :: pos <= j < pos + i ==> s[j] >= 128
    requires Decoding(s, pos, i, dst[..i], interm)
    requires forall j :: i <= j < target ==> dst[j] == 0
    modifies dst
    ensures ok <==> CodeValue(s, pos) < Pow256(target)
    ensures ok ==> Value(dst[..target]) == CodeValue(s, pos)
    ensures dst[target..] == old(dst[target..])
  {
    hide CodeValue, Value, Decoding, Pow256;
    PartialIsValue(s, pos, i);
    ghost var out := dst[..i];
    DecodingValue(s, pos, i, out, interm);
    var n := i;
    if interm != 0 {
      if n < target {
        dst[n] := interm;
        n := n + 1;
        assert dst[..n] == out + [interm];
        ValueAppend(out, interm);
      } else {
        TooWide(out, interm, target);
        return false;
      }
    }
    ValueZeros(dst[..target], n);
    assert dst[..target][..n] == dst[..n];
    ValueBound(dst[..target]);
    return true;
  }

  // A byte without the top bit comes within the first eight, at most one position behind the bytes
  // given (the end is checked before stepping on), and the number fits into target bytes.
  predicate Decodable(s: seq<byte>, pos: nat, maxSize: nat, target: nat) {
    var t := Terminator(s, pos);
    0 < maxSize && t <= pos + maxSize && t < pos + 8 && CodeValue(s, pos) < Pow256(target)
  }

  /** A complete code within the bytes given is read back, and only it is consumed, whatever follows;
      the decoder takes it exactly when it has at most eight bytes and the number fits the target. */
  lemma RoundTrip(n: nat, s: seq<byte>, pos: nat, maxSize: nat, target: nat)
    requires pos + maxSize < |s| && |Code(n)| <= maxSize && s[pos..pos + |Code(n)|] == Code(n)
    ensures CodeValue(s, pos) == n && Terminator(s, pos) + 1 == pos + |Code(n)|
    ensures Decodable(s, pos, maxSize, target) <==> n < Limit(8) && n < Pow256(target)
  {
    DecodesCode(s, pos, n);
    CodeLength(n, 8);
  }

  /** Every number of up to seven bytes survives encoding and decoding. */
  lemma SevenBytesRoundTrip(num: seq<byte>, s: seq<byte>, pos: nat, maxSize: nat, target: nat)
    requires |num| <= 7 && |num| <= target
    requires var c := Code(Value(num)); pos + maxSize < |s| && |c| <= maxSize && s[pos..pos + |c|] == c
    ensures Decodable(s, pos, maxSize, target) && CodeValue(s, pos) == Value(num)
  {
    RoundTrip(Value(num), s, pos, maxSize, target);
    ValueBound(num);
    Pow256Grows(|num|, target);
    Pow256Grows(|num|, 7);
    PowersMeet();
    LimitBound(8);
  }

  /** When the decoder consumes more than it was given: exactly when every byte given asks for another
      one and the byte behind them ends a number that fits. Anything decoded from fewer bytes stays inside. */
  lemma ConsumesOneTooMany(s: seq<byte>, pos: nat, maxSize: nat, target: nat)
    requires pos + maxSize < |s|
    ensures Decodable(s, pos, maxSize, target) && Terminator(s, pos) + 1 > pos + maxSize
            <==> 0 < maxSize < 8 && (forall i :: pos <= i < pos + maxSize ==> s[i] >= 128)
                 && s[pos + maxSize] < 128 && CodeValue(s, pos) < Pow256(target)
    ensures Decodable([128, 5], 0, 1, 2) && Terminator([128, 5], 0) == 1
  {
    if (forall i :: pos <= i < pos + maxSize ==> s[i] >= 128) && s[pos + maxSize] < 128 {
      TerminatorIs(s, pos, pos + maxSize);
    }
    TerminatorIs([128, 5], 0, 1);
    assert Pow256(2) == 256 * Pow256(1) == 65536;
  }

  /** Decodes the number at s[pos..], given maxSize bytes, into the first target bytes of dst. */
  method DecodeUint(s: seq<byte>, pos: nat, maxSize: nat, dst: array<byte>, target: nat) returns (ok: bool, end: nat)
    requires pos + maxSize < |s| && 1 <= target <= 8 && target <= dst.Length
    modifies dst
    ensures ok <==> Decodable(s, pos, maxSize, target)
    ensures ok ==> Value(dst[..target]) == CodeValue(s, pos) && end == Terminator(s, pos) + 1
    ensures dst[target..] == old(dst[target..])
  {
    hide CodeValue, Value, Decoding, AddDigit, Pow256, Terminator;
    forall i | 0 <= i < target { dst[i] := 0; }
    ghost var z := dst[..target];
    if maxSize == 0 { return false, pos; }
    var last := pos + maxSize;
    var cur := pos;
    var interm: nat := s[cur] % 128;
    if s[cur] < 128 {
      TerminatorIs(s, pos, pos);
      dst[0] := interm;
      SingleByte(s, pos, dst[..target]);
      Pow256Grows(1, target);
      return true, cur + 1;
    }
    cur := cur + 1;
    interm := interm + 128 + (s[cur] as int) % 128 * 128;
    dst[0] := interm % 256;
    var n := 1;
    FirstStep(s, pos, interm);
    interm := interm / 256;
    assert dst[..n] == [dst[0]];
    var i := 1;
    while i < 8
      invariant 1 <= i <= 8 && cur == pos + i && n == i <= target && cur <= last
      invariant interm < 256 && Decoding(s, pos, i, dst[..n], interm)
      invariant forall j :: pos <= j < cur ==> s[j] >= 128
      invariant forall j :: n <= j < target ==> dst[j] == 0
      invariant dst[target..] == old(dst[target..])
    {
      if s[cur] < 128 {
        TerminatorIs(s, pos, cur);
        ok := FinishNumber(s, pos, i, interm, dst, target);
        return ok, cur + 1;
      }
      if cur == last {
        NoTerminatorBefore(s, pos, cur);
        return false, cur;
      }
      cur := cur + 1;
      ghost var before := interm;
      interm := AddDigit(interm, s[cur], i);
      if n < target {
        DecodeStep(s, pos, i, dst[..n], before, interm);
        ghost var out := dst[..n];
        dst[n] := interm % 256;
        n := n + 1;
        assert dst[..n] == out + [interm % 256];
      } else {
        RunsOver(s, pos, i, target);
        return false, cur;
      }
      interm := interm / 256;
      i := i + 1;
    }
    NoTerminatorBefore(s, pos, cur - 1);
    return false, cur;
  }
}
