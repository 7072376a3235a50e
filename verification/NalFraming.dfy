/** Emulation prevention and byte-stream framing (ITU-T H.264, sections 7.3.1 and 7.4.1 and
    Annex B; h264_nal.c). */
module NalFraming {
  import opened Bits
  import opened Wrappers

  /** The payload with an 0x03 put before every byte up to 0x03 that follows two zeros. The
      count is the number of zeros just written. */
  function Escape(rbsp: seq<Byte>, count: nat): seq<Byte>
    decreases |rbsp|, count
  {
    if rbsp == [] then []
    else if count == 2 && rbsp[0] <= 3 then [3] + Escape(rbsp, 0)
    else [rbsp[0]] + Escape(rbsp[1..], if rbsp[0] == 0 then count + 1 else 0)
  }

  function Prepend(head: seq<Byte>, used: nat, rest: Option<(seq<Byte>, nat)>): Option<(seq<Byte>, nat)> {
    match rest
    case None => None
    case Some((bytes, n)) => Some((head + bytes, used + n))
  }

  /** The payload and the number of bytes used, or None for a malformed NAL unit or one whose
      payload does not fit. */
  function Unescape(nal: seq<Byte>, count: nat, room: nat): Option<(seq<Byte>, nat)> {
    if nal == [] then Some(([], 0))
    else if count == 2 && nal[0] < 3 then None
    else if count == 2 && nal[0] == 3 then
      if |nal| > 1 && nal[1] > 3 then None
      else if |nal| == 1 then Some(([], 0))
      else if room == 0 then None
      else Prepend([nal[1]], 2, Unescape(nal[2..], if nal[1] == 0 then 1 else 0, room - 1))
    else if room == 0 then None
    else Prepend([nal[0]], 1, Unescape(nal[1..], if nal[0] == 0 then count + 1 else 0, room - 1))
  }

  lemma EscapeNothing(rest: seq<Byte>, count: nat)
    ensures rest == [] <==> Escape(rest, count) == []
  {
  }

  lemma EscapeStep(rest: seq<Byte>, count: nat, done: seq<Byte>)
    requires rest != []
    ensures done + Escape(rest, count)
         == if count == 2 && rest[0] <= 3 then done + [3] + Escape(rest, 0)
            else done + [rest[0]] + Escape(rest[1..], if rest[0] == 0 then count + 1 else 0)
  {
  }

  lemma StoredNext(was: seq<Byte>, j: nat, b: Byte, now: seq<Byte>)
    requires 1 <= j < |was| && now == was[j := b]
    ensures now[1..j + 1] == was[1..j] + [b]
  {
  }

  method RbspToNal(rbsp: array<Byte>, rbspSize: nat, nal: array<Byte>, nalSize: nat) returns (r: int)
    requires rbspSize <= rbsp.Length && nalSize <= nal.Length && rbsp != nal
    modifies nal
    ensures var payload := Escape(rbsp[..rbspSize], 0);
            if rbspSize == 0 || 1 + |payload| <= nalSize then
              r == 1 + |payload|
              && (nalSize > 0 ==> nal[0] == 0 && nal[1..r] == payload && nal[r..] == old(nal[r..]))
            else r == -1
    ensures nal[nalSize..] == old(nal[nalSize..])
  {
    hide Escape;
    var i, j, count := 0, 1, 0;
    if nalSize > 0 {
      nal[0] := 0;
    }
    ghost var payload := Escape(rbsp[..rbspSize], 0);
    assert rbsp[0..rbspSize] == rbsp[..rbspSize];
    while i < rbspSize
      invariant 0 <= i <= rbspSize && 0 <= count <= 2
      invariant i == 0 ==> j == 1 && count == 0
      invariant i > 0 ==> 1 <= j <= nalSize
      invariant nalSize > 0 ==> nal[0] == 0 && nal[1..j] + Escape(rbsp[i..rbspSize], count) == payload
      invariant nalSize == 0 ==> i == 0
      invariant forall k :: j <= k < nal.Length && k > 0 ==> nal[k] == old(nal[k])
      invariant nalSize == 0 ==> nal[..] == old(nal[..])
      decreases rbspSize - i, count
    {
      ghost var rest := rbsp[i..rbspSize];
      EscapeNothing(rest, count);
      if j >= nalSize {
        return -1;
      }
      ghost var done, was := nal[1..j], nal[..];
      assert rest[0] == rbsp[i] && rest[1..] == rbsp[i + 1..rbspSize];
      EscapeStep(rest, count, done);
      if count == 2 && rbsp[i] <= 3 {
        nal[j] := 3;
        StoredNext(was, j, 3, nal[..]);
        j := j + 1;
        count := 0;
        continue;
      }
      nal[j] := rbsp[i];
      StoredNext(was, j, rbsp[i], nal[..]);
      count := if rbsp[i] == 0 then count + 1 else 0;
      i := i + 1;
      j := j + 1;
    }
    EscapeNothing(rbsp[i..rbspSize], count);
    return j;
  }

  lemma PrependNothing(rest: Option<(seq<Byte>, nat)>)
    ensures Prepend([], 0, rest) == rest
  {
    if rest.Some? {
      assert [] + rest.value.0 == rest.value.0;
    }
  }

  lemma PrependTwice(a: seq<Byte>, m: nat, b: seq<Byte>, n: nat, rest: Option<(seq<Byte>, nat)>)
    ensures Prepend(a, m, Prepend(b, n, rest)) == Prepend(a + b, m + n, rest)
  {
    if rest.Some? {
      assert a + (b + rest.value.0) == (a + b) + rest.value.0;
    }
  }

  /** Where the first byte of what is left takes nal_to_rbsp. */
  lemma UnescapeStep(bytes: seq<Byte>, i: nat, count: nat, room: nat)
    requires i < |bytes|
    ensures Unescape(bytes[i..], count, room)
         == if count == 2 && bytes[i] < 3 then None
            else if count == 2 && bytes[i] == 3 then
              if i + 1 == |bytes| then Some(([], 0))
              else if bytes[i + 1] > 3 || room == 0 then None
              else Prepend([bytes[i + 1]], 2, Unescape(bytes[i + 2..], if bytes[i + 1] == 0 then 1 else 0, room - 1))
            else if room == 0 then None
            else Prepend([bytes[i]], 1, Unescape(bytes[i + 1..], if bytes[i] == 0 then count + 1 else 0, room - 1))
  {
    hide Prepend;
    assert bytes[i..][1..] == bytes[i + 1..];
    if i + 1 < |bytes| {
      assert bytes[i..][2..] == bytes[i + 2..];
    }
  }

  lemma UnescapeNothing(count: nat, room: nat)
    ensures Unescape([], count, room) == Some(([], 0))
  {
  }

  method NalToRbsp(nal: array<Byte>, from: nat, nalSize: nat, rbsp: array<Byte>, room: nat) returns (r: int, used: nat)
    requires from + nalSize <= nal.Length && room <= rbsp.Length && rbsp != nal
    modifies rbsp
    ensures match Unescape(nal[from..from + nalSize], 0, room)
            case None => r == -1
            case Some((payload, n)) => r == |payload| <= room && rbsp[..r] == payload && used == n
  {
    hide Unescape;
    var i, j, count := 0, 0, 0;
    ghost var bytes := nal[from..from + nalSize];
    ghost var result := Unescape(bytes, 0, room);
    assert bytes[0..] == bytes;
    PrependNothing(result);
    assert rbsp[..0] == [];
    while i < nalSize
      invariant 0 <= i <= nalSize && 0 <= j <= room && 0 <= count <= 2
      invariant Prepend(rbsp[..j], i, Unescape(bytes[i..], count, room - j)) == result
    {
      ghost var from0 := i;
      UnescapeStep(bytes, i, count, room - j);
      if count == 2 && nal[from + i] < 3 {
        return -1, 0;
      }
      if count == 2 && nal[from + i] == 3 {
        if i < nalSize - 1 && nal[from + i + 1] > 3 {
          return -1, 0;
        }
        if i == nalSize - 1 {
          break;
        }
        i := i + 1;
        count := 0;
      }
      if j >= room {
        return -1, 0;
      }
      PrependTwice(rbsp[..j], from0, [nal[from + i]], i + 1 - from0, Unescape(bytes[i + 1..], if nal[from + i] == 0 then count + 1 else 0, room - j - 1));
      rbsp[j] := nal[from + i];
      assert rbsp[..j + 1] == rbsp[..j] + [nal[from + i]];
      count := if nal[from + i] == 0 then count + 1 else 0;
      j := j + 1;
      i := i + 1;
    }
    assert i == nalSize ==> bytes[i..] == [];
    UnescapeNothing(count, room - j);
    return j, i;
  }

  /** The zero count after a byte that is copied; an escape in front of it resets the count. */
  function NextCount(b: Byte, count: nat): nat {
    if b != 0 then 0 else if count == 2 then 1 else count + 1
  }

  /** One byte of payload as it is sent. */
  function Sent(b: Byte, count: nat): seq<Byte> {
    if count == 2 && b <= 3 then [3, b] else [b]
  }

  lemma UnescapeOne(b: Byte, count: nat, rest: seq<Byte>, room: nat)
    requires count <= 2 && room > 0
    ensures Unescape(Sent(b, count) + rest, count, room)
         == Prepend([b], |Sent(b, count)|, Unescape(rest, NextCount(b, count), room - 1))
  {
    if count == 2 && b <= 3 {
      assert ([3, b] + rest)[2..] == rest;
    } else {
      assert ([b] + rest)[1..] == rest;
    }
  }

  lemma EscapeOne(x: seq<Byte>, count: nat)
    requires x != [] && count <= 2
    ensures Escape(x, count) == Sent(x[0], count) + Escape(x[1..], NextCount(x[0], count))
  {
    if count == 2 && x[0] <= 3 {
      var rest := Escape(x[1..], NextCount(x[0], 0));
      assert Escape(x, 0) == [x[0]] + rest;
      assert [3] + ([x[0]] + rest) == [3, x[0]] + rest;
    }
  }

  /** nal_to_rbsp undoes rbsp_to_nal. */
  lemma {:induction false} UnescapeEscape(x: seq<Byte>, count: nat, room: nat)
    requires count <= 2 && |x| <= room
    ensures Unescape(Escape(x, count), count, room) == Some((x, |Escape(x, count)|))
  {
    if x != [] {
      hide Escape, Unescape;
      EscapeOne(x, count);
      UnescapeOne(x[0], count, Escape(x[1..], NextCount(x[0], count)), room);
      UnescapeEscape(x[1..], NextCount(x[0], count), room - 1);
      assert [x[0]] + x[1..] == x;
    }
  }

  /** All of the NAL unit was used, or all but an 0x03 that ends it after two zeros. */
  predicate OnlyTrailingThree(nal: seq<Byte>, count: nat, used: nat)
    ensures OnlyTrailingThree(nal, count, used) ==> used <= |nal|
  {
    used == |nal|
    || (used + 1 == |nal| && nal[used] == 3
        && (if used == 0 then count == 2 else nal[used - 1] == 0)
        && (if used == 1 then count > 0 else used > 1 ==> nal[used - 2] == 0))
  }

  /** What nal_to_rbsp accepts is the escaped form of what it returns, over the bytes used. */
  lemma {:induction false} EscapeUnescape(nal: seq<Byte>, count: nat, room: nat)
    requires count <= 2
    ensures match Unescape(nal, count, room)
            case None => true
            case Some((x, used)) => OnlyTrailingThree(nal, count, used) && Escape(x, count) == nal[..used]
    decreases |nal|, 1
  {
    if nal != [] && room > 0 && !(count == 2 && nal[0] < 3) {
      var escaped := count == 2 && nal[0] == 3;
      if !escaped {
        assert nal == Sent(nal[0], count) + nal[1..];
        EscapeUnescapeOne(nal[0], nal[1..], count, room);
      } else if |nal| > 1 && nal[1] <= 3 {
        assert nal == Sent(nal[1], count) + nal[2..];
        EscapeUnescapeOne(nal[1], nal[2..], count, room);
      }
    }
  }

  lemma {:induction false} EscapeUnescapeOne(b: Byte, rest: seq<Byte>, count: nat, room: nat)
    requires count <= 2 && room > 0
    ensures match Unescape(Sent(b, count) + rest, count, room)
            case None => true
            case Some((x, used)) =>
              OnlyTrailingThree(Sent(b, count) + rest, count, used)
              && Escape(x, count) == (Sent(b, count) + rest)[..used]
    decreases |Sent(b, count)| + |rest|, 0
  {
    hide Escape, Unescape;
    UnescapeOne(b, count, rest, room);
    EscapeUnescape(rest, NextCount(b, count), room - 1);
    match Unescape(rest, NextCount(b, count), room - 1)
    case None =>
    case Some((x, used)) =>
      EscapeOne([b] + x, count);
      assert ([b] + x)[1..] == x;
      var nal := Sent(b, count) + rest;
      assert nal[..|Sent(b, count)| + used] == Sent(b, count) + rest[..used];
  }

  /** Emulation prevention is a bijection: the NAL units that are accepted and used up to their
      last byte are exactly the escaped payloads. */
  lemma EmulationPreventionBijection(nal: seq<Byte>, x: seq<Byte>)
    ensures Unescape(nal, 0, |x|) == Some((x, |nal|)) <==> nal == Escape(x, 0)
  {
    UnescapeEscape(x, 0, |x|);
    EscapeUnescape(nal, 0, |x|);
  }

  // ---------- Byte by byte ----------

  /** Byte i - d of the payload is zero, or one of the `count` zeros in front of it. */
  predicate ZeroBefore(s: seq<Byte>, count: nat, i: nat, d: nat)
    requires i <= |s| && d > 0
  {
    if i >= d then s[i - d] == 0 else count >= d - i
  }

  /** Byte i is at most 3 and follows two zeros. */
  predicate MustEscape(x: seq<Byte>, count: nat, i: nat) {
    i < |x| && x[i] <= 3 && ZeroBefore(x, count, i, 1) && ZeroBefore(x, count, i, 2)
  }

  lemma MustEscapeNext(x: seq<Byte>, count: nat, i: nat)
    requires x != [] && count <= 2 && !MustEscape(x, count, 0)
    ensures MustEscape(x, count, i + 1) <==> MustEscape(x[1..], if x[0] == 0 then count + 1 else 0, i)
    ensures x[0] == 0 ==> count < 2
  {
    assert !(count == 2 && x[0] <= 3);
  }

  /** The first 03 is put before the first byte that must be escaped, and counting starts anew. */
  lemma {:induction false} EscapeFirst(x: seq<Byte>, count: nat, k: nat)
    requires count <= 2 && MustEscape(x, count, k) && forall i: nat :: i < k ==> !MustEscape(x, count, i)
    ensures Escape(x, count) == x[..k] + [3] + Escape(x[k..], 0)
  {
    if k == 0 {
      assert x[..0] + [3] == [3] && x[0..] == x;
    } else {
      var next := if x[0] == 0 then count + 1 else 0;
      assert !MustEscape(x, count, 0);
      forall i: nat | i < k - 1 ensures !MustEscape(x[1..], next, i) {
        MustEscapeNext(x, count, i);
      }
      MustEscapeNext(x, count, k - 1);
      EscapeFirst(x[1..], next, k - 1);
      assert Escape(x, count) == [x[0]] + Escape(x[1..], next);
      hide Escape, MustEscape;
      assert x[1..][k - 1..] == x[k..] && [x[0]] + (x[1..][..k - 1] + [3] + Escape(x[k..], 0)) == x[..k] + [3] + Escape(x[k..], 0);
    }
  }

  /** Without such a byte the payload is sent as it is. */
  lemma {:induction false} EscapeNothingNeeded(x: seq<Byte>, count: nat)
    requires count <= 2 && forall i: nat :: i < |x| ==> !MustEscape(x, count, i)
    ensures Escape(x, count) == x
  {
    if x != [] {
      var next := if x[0] == 0 then count + 1 else 0;
      assert !MustEscape(x, count, 0);
      forall i: nat | i < |x[1..]| ensures !MustEscape(x[1..], next, i) {
        MustEscapeNext(x, count, i);
      }
      MustEscapeNext(x, count, 0);
      EscapeNothingNeeded(x[1..], next);
    }
  }

  /** Byte i follows two zeros and is 0, 1 or 2, or an 03 with something over 03 behind it. */
  predicate Malformed(nal: seq<Byte>, count: nat, i: nat) {
    i < |nal| && ZeroBefore(nal, count, i, 1) && ZeroBefore(nal, count, i, 2)
    && (nal[i] <= 2 || (nal[i] == 3 && i + 1 < |nal| && nal[i + 1] > 3))
  }

  lemma MalformedNext(nal: seq<Byte>, count: nat, i: nat)
    requires nal != [] && count <= 2 && !Malformed(nal, count, 0)
    ensures Malformed(nal, count, i + 1) <==> Malformed(nal[1..], if nal[0] == 0 then count + 1 else 0, i)
    ensures nal[0] == 0 ==> count < 2
  {
    assert !(count == 2 && nal[0] <= 2);
  }

  lemma MalformedHere(nal: seq<Byte>, count: nat)
    requires nal != [] && count <= 2
    ensures Malformed(nal, count, 0) <==> count == 2 && (nal[0] <= 2 || (nal[0] == 3 && |nal| > 1 && nal[1] > 3))
  {
  }

  lemma PrependSome(head: seq<Byte>, used: nat, rest: Option<(seq<Byte>, nat)>)
    ensures Prepend(head, used, rest).None? <==> rest.None?
  {
  }

  /** When the first byte is well-formed, a later one is malformed exactly if it is so in the rest. */
  lemma MalformedShift(nal: seq<Byte>, count: nat, next: nat)
    requires nal != [] && count <= 2 && !Malformed(nal, count, 0) && next == if nal[0] == 0 then count + 1 else 0
    ensures (exists i: nat :: Malformed(nal, count, i)) <==> exists i: nat :: Malformed(nal[1..], next, i)
  {
    hide Malformed;
    if i: nat :| Malformed(nal, count, i) {
      MalformedNext(nal, count, i - 1);
    }
    if i: nat :| Malformed(nal[1..], next, i) {
      MalformedNext(nal, count, i);
    }
  }

  lemma NoneMalformed(count: nat)
    ensures forall i: nat :: !Malformed([], count, i)
  {
  }

  /** With enough room, nal_to_rbsp rejects exactly the units with a malformed byte. */
  lemma {:induction false} RejectedExactly(nal: seq<Byte>, count: nat, room: nat)
    requires count <= 2 && |nal| <= room
    ensures Unescape(nal, count, room).None? <==> exists i: nat :: Malformed(nal, count, i)
    decreases |nal|
  {
    hide Malformed, Prepend;
    if nal != [] {
      if count == 2 && nal[0] < 3 {
        MalformedHere(nal, count);
      } else if count == 2 && nal[0] == 3 && |nal| > 1 && nal[1] > 3 {
        MalformedHere(nal, count);
      } else if count == 2 && nal[0] == 3 && |nal| > 1 {
        MalformedHere(nal, count);
        MalformedHere(nal[1..], 0);
        RejectedExactly(nal[2..], if nal[1] == 0 then 1 else 0, room - 1);
        PrependSome([nal[1]], 2, Unescape(nal[2..], if nal[1] == 0 then 1 else 0, room - 1));
        assert nal[1..][1..] == nal[2..];
        MalformedShift(nal, 2, 0);
        MalformedShift(nal[1..], 0, if nal[1] == 0 then 1 else 0);
      } else {
        MalformedHere(nal, count);
        var next := if nal[0] == 0 then count + 1 else 0;
        MalformedShift(nal, count, next);
        if nal[0] == 3 && count == 2 {
          assert nal[1..] == [];
          NoneMalformed(next);
        } else {
          MalformedNext(nal, count, 0);
          RejectedExactly(nal[1..], next, room - 1);
          PrependSome([nal[0]], 1, Unescape(nal[1..], next, room - 1));
        }
      }
    } else {
      NoneMalformed(count);
    }
  }

  /** No 00 00 00, 00 00 01 or 00 00 02. */
  predicate Clean(s: seq<Byte>) {
    forall k :: 0 <= k && k + 2 < |s| ==> !(s[k] == 0 && s[k + 1] == 0 && s[k + 2] <= 2)
  }

  /** No start code arises when s follows `count` zeros. */
  predicate SafeAfter(count: nat, s: seq<Byte>) {
    Clean(s)
    && (count >= 1 && |s| > 1 ==> !(s[0] == 0 && s[1] <= 2))
    && (count == 2 && |s| > 0 ==> s[0] > 2)
  }

  lemma SafeCons(b: Byte, s: seq<Byte>, count: nat, next: nat)
    requires SafeAfter(next, s)
    requires if b == 0 then next == count + 1 <= 2 else count == 2 ==> b > 2
    ensures SafeAfter(count, [b] + s)
  {
    var t := [b] + s;
    forall k | 0 <= k && k + 2 < |t| ensures !(t[k] == 0 && t[k + 1] == 0 && t[k + 2] <= 2) {
      if k > 0 {
        assert t[k] == s[k - 1] && t[k + 1] == s[k] && t[k + 2] == s[k + 1];
      }
    }
  }

  /** An escaped payload cannot be taken for a start code, even after `count` zeros. */
  lemma {:induction false} EscapeClean(x: seq<Byte>, count: nat)
    requires count <= 2
    ensures SafeAfter(count, Escape(x, count))
  {
    if x != [] {
      hide SafeAfter;
      var next := NextCount(x[0], count);
      var rest := Escape(x[1..], next);
      EscapeClean(x[1..], next);
      EscapeOne(x, count);
      if count == 2 && x[0] <= 3 {
        SafeCons(x[0], rest, 0, next);
        SafeCons(3, [x[0]] + rest, 2, 0);
        assert [3] + ([x[0]] + rest) == [3, x[0]] + rest;
      } else {
        SafeCons(x[0], rest, count, next);
      }
    } else {
      assert Escape(x, count) == [];
    }
  }

  function ZeroBytes(n: nat): (s: seq<Byte>)
    ensures |s| == n
  {
    seq(n, i => 0)
  }

  /** At most one byte is added for every two after the first. */
  lemma {:induction false} EscapeLength(x: seq<Byte>, count: nat)
    requires count <= 2
    ensures |x| <= |Escape(x, count)| <= |x| + (if x == [] then 0 else (|x| - 1 + count) / 2)
    decreases |x|, count
  {
    if x != [] {
      if count == 2 && x[0] <= 3 {
        EscapeLength(x, 0);
      } else {
        EscapeLength(x[1..], if x[0] == 0 then count + 1 else 0);
      }
    }
  }

  /** All zeros need that many. */
  lemma {:induction false} EscapeLengthTight(n: nat, count: nat)
    requires count <= 2 && n > 0
    ensures |Escape(ZeroBytes(n), count)| == n + (n - 1 + count) / 2
    decreases n, count
  {
    var x := ZeroBytes(n);
    assert x[1..] == ZeroBytes(n - 1);
    if count == 2 {
      EscapeLengthTight(n, 0);
    } else if n > 1 {
      EscapeLengthTight(n - 1, count + 1);
    } else {
      assert Escape(x[1..], count + 1) == [];
    }
  }

  lemma {:induction false} EscapeLast(x: seq<Byte>, count: nat)
    requires x != []
    ensures var e := Escape(x, count); e != [] && e[|e| - 1] == x[|x| - 1]
    decreases |x|, count
  {
    if count == 2 && x[0] <= 3 {
      EscapeLast(x, 0);
    } else if |x| > 1 {
      EscapeLast(x[1..], if x[0] == 0 then count + 1 else 0);
    } else {
      assert x[1..] == [];
    }
  }

  // ---------- Start codes ----------

  predicate StartCodeAt(s: seq<Byte>, k: int) {
    0 <= k && k + 2 < |s| && s[k] == 0 && s[k + 1] == 0 && s[k + 2] == 1
  }

  predicate EndCodeAt(s: seq<Byte>, k: int) {
    0 <= k && k + 2 < |s| && s[k] == 0 && s[k + 1] == 0 && s[k + 2] <= 1
  }

  /** start follows the first start code; end is the next 00 00 00 or 00 00 01, or the end of
      the buffer. Both are 0 when there is no start code. */
  predicate Found(s: seq<Byte>, start: nat, end: nat) {
    if start == 0 then end == 0 && forall k :: 0 <= k < |s| ==> !StartCodeAt(s, k)
    else
      StartCodeAt(s, start - 3) && (forall k :: 0 <= k < start - 3 ==> !StartCodeAt(s, k))
      && start <= end <= |s|
      && (forall k :: start <= k < end ==> !EndCodeAt(s, k))
      && (end == |s| || EndCodeAt(s, end))
  }

  method FindNalUnit(buf: array<Byte>, size: nat) returns (r: int, start: nat, end: nat)
    requires size <= buf.Length
    ensures Found(buf[..size], start, end) && r == end - start
  {
    var i := 0;
    start, end := 0, 0;
    ghost var s := buf[..size];
    while i + 2 < size
          && (buf[i] != 0 || buf[i + 1] != 0 || buf[i + 2] != 1)
          && (i + 3 >= size || buf[i] != 0 || buf[i + 1] != 0 || buf[i + 2] != 0 || buf[i + 3] != 1)
      invariant 0 <= i && forall k :: 0 <= k < i ==> !StartCodeAt(s, k)
    {
      i := i + 1;
    }
    if i + 2 >= size {
      return 0, 0, 0;
    }
    if buf[i] != 0 || buf[i + 1] != 0 || buf[i + 2] != 1 {
      i := i + 1;
    }
    if i + 2 >= size || buf[i] != 0 || buf[i + 1] != 0 || buf[i + 2] != 1 {
      assert false; // this second test of the C code never succeeds
    }
    assert StartCodeAt(s, i);
    i := i + 3;
    start := i;
    while i + 2 < size
          && (buf[i] != 0 || buf[i + 1] != 0 || buf[i + 2] != 0)
          && (buf[i] != 0 || buf[i + 1] != 0 || buf[i + 2] != 1)
      invariant start <= i <= size && forall k :: start <= k < i ==> !EndCodeAt(s, k)
    {
      i := i + 1;
    }
    if i + 2 >= size {
      end := size;
      return end - start, start, end;
    }
    end := i;
    return end - start, start, end;
  }

  lemma LeadFound(lead: seq<Byte>, rest: seq<Byte>, start: nat, end: nat)
    requires lead == [0, 0, 1] || lead == [0, 0, 0, 1]
    requires Found(lead + rest, start, end)
    ensures start == |lead|
  {
    assert StartCodeAt(lead + rest, |lead| - 3);
  }

  lemma PayloadHasNoEnd(lead: seq<Byte>, payload: seq<Byte>, tail: seq<Byte>)
    requires Clean(payload) && payload != [] && payload[|payload| - 1] != 0
    ensures forall k :: |lead| <= k < |lead| + |payload| ==> !EndCodeAt(lead + payload + tail, k)
  {
    var s, stop := lead + payload + tail, |lead| + |payload|;
    forall k | |lead| <= k < stop ensures !EndCodeAt(s, k) {
      if k + 2 < stop {
        assert s[k] == payload[k - |lead|] && s[k + 1] == payload[k + 1 - |lead|] && s[k + 2] == payload[k + 2 - |lead|];
      } else {
        assert s[stop - 1] == payload[|payload| - 1];
      }
    }
  }

  lemma TailEnds(front: seq<Byte>, tail: seq<Byte>)
    requires EndCodeAt(tail, 0)
    ensures EndCodeAt(front + tail, |front|)
  {
  }

  /** An escaped payload that ends in a nonzero byte, after a three- or four-byte start code
      and before another start code or the end of the buffer, is found exactly. */
  lemma FramingExact(lead: seq<Byte>, payload: seq<Byte>, tail: seq<Byte>, start: nat, end: nat)
    requires lead == [0, 0, 1] || lead == [0, 0, 0, 1]
    requires Clean(payload) && payload != [] && payload[|payload| - 1] != 0
    requires tail == [] || EndCodeAt(tail, 0)
    requires Found(lead + payload + tail, start, end)
    ensures start == |lead| && end == |lead| + |payload|
    ensures (lead + payload + tail)[start..end] == payload
  {
    hide StartCodeAt, EndCodeAt, Clean;
    var s := lead + payload + tail;
    assert lead + (payload + tail) == s;
    LeadFound(lead, payload + tail, start, end);
    PayloadHasNoEnd(lead, payload, tail);
    var stop := |lead| + |payload|;
    if tail != [] {
      TailEnds(lead + payload, tail);
    }
    assert s[|lead|..stop] == payload;
  }
}
