/** The one's-complement checksum of internal/ra/ra.go over replicated Router Advertisements,
    and the template cache that feeds it. Words are sums of big-endian byte pairs; the uint32
    accumulator is modelled with its wrap. */
module Checksum {
  import opened Optional

  type Byte = n: nat | n < 256

  const TWO_TO_16: nat := 0x1_0000
  const TWO_TO_32: nat := 0x1_0000_0000
  const MAX_FOLD: nat := 0xffff

  // ---------------------------------------------------------------- the sum

  function Word(hi: nat, lo: nat): nat {
    hi * 256 + lo
  }

  function Add32(a: nat, b: nat): (s: nat)
    ensures s < TWO_TO_32
  {
    (a + b) % TWO_TO_32
  }

  /** Wrapping at each addition or once at the end is the same. */
  lemma Add32Wraps(a: nat, b: nat)
    ensures Add32(a % TWO_TO_32, b) == (a + b) % TWO_TO_32
    ensures Add32(a, b % TWO_TO_32) == (a + b) % TWO_TO_32
  {
    var p, q := a / TWO_TO_32, b / TWO_TO_32;
    WholeTurns(a % TWO_TO_32 + b, p);
    assert a % TWO_TO_32 + b + p * TWO_TO_32 == a + b;
    WholeTurns(a + b % TWO_TO_32, q);
    assert a + b % TWO_TO_32 + q * TWO_TO_32 == a + b;
  }

  lemma {:induction false} WholeTurns(n: nat, k: nat)
    ensures (n + k * TWO_TO_32) % TWO_TO_32 == n % TWO_TO_32
  {
  }

  /** The sum of the 16-bit words of b, the last one padded with a zero byte. */
  function WordSum(b: seq<Byte>): (s: nat)
    ensures s <= 32768 * |b| + 32768
    ensures |b| % 2 == 0 ==> s <= 32768 * |b|
  {
    if |b| == 0 then 0
    else if |b| == 1 then Word(b[0], 0)
    else Word(b[0], b[1]) + WordSum(b[2..])
  }

  lemma {:induction false} WordSumSplit(a: seq<Byte>, b: seq<Byte>)
    requires |a| % 2 == 0
    ensures WordSum(a + b) == WordSum(a) + WordSum(b)
  {
    if a == [] {
      assert a + b == b;
    } else {
      assert (a + b)[2..] == a[2..] + b;
      WordSumSplit(a[2..], b);
    }
  }

  method Sum16(b: seq<Byte>) returns (s: nat)
    ensures s == WordSum(b) % TWO_TO_32
  {
    s := 0;
    var i := 0;
    while i + 1 < |b|
      invariant i <= |b| && i % 2 == 0
      invariant s == WordSum(b[..i]) % TWO_TO_32
    {
      NextSum(b, i, s);
      s := Add32(s, Word(b[i], b[i + 1]));
      i := i + 2;
    }
    LastSum(b, i, s);
    if |b| % 2 == 1 {
      s := Add32(s, Word(b[|b| - 1], 0));
    }
  }

  /** One turn of the loop. */
  lemma NextSum(b: seq<Byte>, i: nat, s: nat)
    requires i % 2 == 0 && i + 1 < |b| && s == WordSum(b[..i]) % TWO_TO_32
    ensures Add32(s, Word(b[i], b[i + 1])) == WordSum(b[..i + 2]) % TWO_TO_32
  {
    assert b[..i + 2] == b[..i] + [b[i], b[i + 1]];
    WordSumSplit(b[..i], [b[i], b[i + 1]]);
    Add32Wraps(WordSum(b[..i]), Word(b[i], b[i + 1]));
  }

  /** The odd byte, when there is one. */
  lemma LastSum(b: seq<Byte>, i: nat, s: nat)
    requires i % 2 == 0 && i <= |b| <= i + 1 && s == WordSum(b[..i]) % TWO_TO_32
    ensures |b| % 2 == 1 ==> i == |b| - 1 && Add32(s, Word(b[i], 0)) == WordSum(b) % TWO_TO_32
    ensures |b| % 2 == 0 ==> s == WordSum(b) % TWO_TO_32
  {
    if i == |b| {
      assert b[..i] == b;
    } else {
      assert b == b[..i] + [b[i]];
      WordSumSplit(b[..i], [b[i]]);
      Add32Wraps(WordSum(b[..i]), Word(b[i], 0));
    }
  }

  // ---------------------------------------------------------------- the fold

  /** The carry-around fold, as a value: zero only for zero, otherwise the residue modulo
      0xffff with 0xffff standing for zero. */
  function Fold(s: nat): (f: nat)
    ensures f <= MAX_FOLD
  {
    if s == 0 then 0 else 1 + (s - 1) % MAX_FOLD
  }

  /** One carry-around keeps the value of the fold. */
  lemma CarryKeepsFold(s: nat)
    ensures Fold(s % TWO_TO_16 + s / TWO_TO_16) == Fold(s)
  {
  }

  method Fold16(sum: nat) returns (f: nat)
    requires sum < TWO_TO_32
    ensures f == Fold(sum) && f < TWO_TO_16
  {
    var s: nat := sum;
    while s / TWO_TO_16 != 0
      invariant Fold(s) == Fold(sum) && s < TWO_TO_32
      decreases s
    {
      CarryKeepsFold(s);
      s := s % TWO_TO_16 + s / TWO_TO_16;
    }
    f := s;
  }

  // ---------------------------------------------------------------- the packet

  /** Pseudo-header plus message of an IPv6 packet whose payload is ICMPv6. */
  function PacketSum(raw: seq<Byte>): nat
    requires |raw| >= 40
  {
    WordSum(raw[8..24]) + WordSum(raw[24..40]) + (|raw| - 40) + 58 + WordSum(raw[40..])
  }

  /** What a receiver accepts: section 2.3 of RFC 4443, section 8.1 of RFC 8200. */
  predicate ValidPacket(raw: seq<Byte>) {
    |raw| >= 44 && Fold(PacketSum(raw)) == MAX_FOLD
  }

  function BigEndian32(n: nat): seq<Byte>
    requires n < TWO_TO_32
  {
    [n / 0x100_0000, n / 0x1_0000 % 256, n / 256 % 256, n % 256]
  }

  /** The pseudo-header of section 8.1 of RFC 8200: source, destination, upper-layer length in four
      bytes, three zero bytes, next header 58. */
  function PseudoHeader(raw: seq<Byte>): seq<Byte>
    requires 40 <= |raw| < 40 + TWO_TO_32
  {
    raw[8..24] + raw[24..40] + BigEndian32(|raw| - 40) + [0, 0, 0, 58]
  }

  lemma SumOfTwo(front: seq<Byte>, part: seq<Byte>, whole: seq<Byte>)
    requires |front| % 2 == 0 && whole == front + part
    ensures WordSum(whole) == WordSum(front) + WordSum(part)
  {
    WordSumSplit(front, part);
  }

  lemma EvenSum(m: nat, n: nat)
    requires m % 2 == 0 && n % 2 == 0
    ensures (m + n) % 2 == 0
  {
  }

  lemma SumOfThree(a: seq<Byte>, b: seq<Byte>, d: seq<Byte>, ab: seq<Byte>, abd: seq<Byte>)
    requires |a| % 2 == 0 && |b| % 2 == 0 && ab == a + b && abd == ab + d
    ensures WordSum(abd) == WordSum(a) + WordSum(b) + WordSum(d)
  {
    assert |ab| % 2 == 0 by {
      EvenSum(|a|, |b|);
    }
    SumOfTwo(a, b, ab);
    SumOfTwo(ab, d, abd);
  }

  lemma PseudoSum(raw: seq<Byte>)
    requires 40 <= |raw| < 40 + TWO_TO_32
    ensures var n := |raw| - 40;
            WordSum(PseudoHeader(raw) + raw[40..])
            == WordSum(raw[8..24]) + WordSum(raw[24..40]) + (n / TWO_TO_16 + n % TWO_TO_16) + 58 + WordSum(raw[40..])
  {
    var n := |raw| - 40;
    var front := raw[8..24] + raw[24..40] + BigEndian32(n);
    SumOfThree(raw[8..24], raw[24..40], BigEndian32(n), raw[8..24] + raw[24..40], front);
    SumOfThree(front, [0, 0, 0, 58], raw[40..], PseudoHeader(raw), PseudoHeader(raw) + raw[40..]);
    FourBytes(BigEndian32(n));
    FourBytes([0, 0, 0, 58]);
    LengthWords(n);
  }

  lemma FourBytes(b: seq<Byte>)
    requires |b| == 4
    ensures WordSum(b) == Word(b[0], b[1]) + Word(b[2], b[3])
  {
  }

  lemma LengthWords(n: nat)
    requires n < TWO_TO_32
    ensures Word(n / 0x100_0000, n / 0x1_0000 % 256) == n / TWO_TO_16
    ensures Word(n / 256 % 256, n % 256) == n % TWO_TO_16
  {
  }

  lemma FoldLength(s: nat, n: nat)
    requires s > 0
    ensures Fold(s + n) == Fold(s + (n / TWO_TO_16 + n % TWO_TO_16))
  {
  }

  /** The sum of PatchChecksum folds to the one's-complement sum of pseudo-header and message. */
  lemma PacketSumIsRfc(raw: seq<Byte>)
    requires 40 <= |raw| < 40 + TWO_TO_32
    ensures Fold(PacketSum(raw)) == Fold(WordSum(PseudoHeader(raw) + raw[40..]))
    ensures ValidPacket(raw) <==> |raw| >= 44 && Fold(WordSum(PseudoHeader(raw) + raw[40..])) == MAX_FOLD
  {
    PseudoSum(raw);
    FoldLength(WordSum(raw[8..24]) + WordSum(raw[24..40]) + 58 + WordSum(raw[40..]), |raw| - 40);
  }

  function Field(raw: seq<Byte>): nat
    requires |raw| >= 44
  {
    Word(raw[42], raw[43])
  }

  function SetField(raw: seq<Byte>, c: nat): seq<Byte>
    requires |raw| >= 44 && c < TWO_TO_16
  {
    raw[42 := c / 256][43 := c % 256]
  }

  /** The checksum field contributes its value to the sum and nothing else depends on it. */
  lemma FieldAdds(raw: seq<Byte>, c: nat)
    requires |raw| >= 44 && c < TWO_TO_16
    ensures PacketSum(SetField(raw, c)) + Field(raw) == PacketSum(raw) + c
  {
    var raw' := SetField(raw, c);
    assert raw'[8..24] == raw[8..24];
    assert raw'[24..40] == raw[24..40];
    MessageSum(raw);
    MessageSum(raw');
    assert raw'[44..] == raw[44..];
  }

  lemma MessageSum(raw: seq<Byte>)
    requires |raw| >= 44
    ensures WordSum(raw[40..]) == Word(raw[40], raw[41]) + Field(raw) + WordSum(raw[44..])
  {
  }

  /** For an IPv6-sized payload no uint32 in the computation wraps. */
  lemma NoWrap(raw: seq<Byte>)
    requires 40 <= |raw| <= 40 + 65535
    ensures 0 < PacketSum(raw) == PacketSum(raw) % TWO_TO_32
  {
  }

  /** Writing the complement of the fold gives a valid packet exactly when the field was
      0x0000 or 0xffff before. */
  lemma PatchValidIff(raw: seq<Byte>)
    requires |raw| >= 44
    ensures ValidPacket(SetField(raw, MAX_FOLD - Fold(PacketSum(raw)))) <==> Field(raw) in {0, MAX_FOLD}
  {
    var s, f := PacketSum(raw), Field(raw);
    var c := MAX_FOLD - Fold(s);
    FieldAdds(raw, c);
    MessageSum(raw);
    assert f <= s - 58;
    FoldComplement(s, f);
  }

  lemma FoldComplement(s: nat, f: nat)
    requires s > 0 && f <= MAX_FOLD && f < s
    ensures Fold(s - f + (MAX_FOLD - Fold(s))) == MAX_FOLD <==> f in {0, MAX_FOLD}
  {
  }

  /** No other value below 0xffff in the field gives a valid packet. */
  lemma ChecksumIsUnique(raw: seq<Byte>, c: nat)
    requires |raw| >= 44 && Field(raw) == 0 && c < MAX_FOLD
    ensures ValidPacket(SetField(raw, c)) <==> c == MAX_FOLD - Fold(PacketSum(raw))
  {
    var s := PacketSum(raw);
    FieldAdds(raw, c);
    FoldUnique(s, c);
  }

  lemma FoldUnique(s: nat, c: nat)
    requires s > 0 && c < MAX_FOLD
    ensures Fold(s + c) == MAX_FOLD <==> c == MAX_FOLD - Fold(s)
  {
  }

  /** The sum of PatchChecksum, each addition in a uint32. */
  method PacketSum16(raw: array<Byte>) returns (s: nat)
    requires raw.Length >= 44
    ensures s == PacketSum(raw[..]) % TWO_TO_32
  {
    ghost var was := raw[..];
    assert was[8..24] == raw[8..24] && was[24..40] == raw[24..40] && was[40..] == raw[40..];
    var src := Sum16(raw[8..24]);
    var dst := Sum16(raw[24..40]);
    var msg := Sum16(raw[40..]);
    ghost var a, b, n := WordSum(was[8..24]), WordSum(was[24..40]), raw.Length - 40;
    s := Add32(src, dst);
    WrapBoth(a, b);
    s := Add32(s, (raw.Length - 40) % TWO_TO_32);
    WrapBoth(a + b, n);
    s := Add32(s, 58);
    Add32Wraps(a + b + n, 58);
    s := Add32(s, msg);
    WrapBoth(a + b + n + 58, WordSum(was[40..]));
  }

  lemma WrapBoth(a: nat, b: nat)
    ensures Add32(a % TWO_TO_32, b % TWO_TO_32) == (a + b) % TWO_TO_32
  {
  }

  lemma FieldDecides(raw: seq<Byte>)
    requires 44 <= |raw| <= 40 + 65535
    ensures ValidPacket(SetField(raw, MAX_FOLD - Fold(PacketSum(raw) % TWO_TO_32))) <==> Field(raw) in {0, MAX_FOLD}
  {
    NoWrap(raw);
    PatchValidIff(raw);
  }

  method WriteField(raw: array<Byte>, c: nat)
    requires raw.Length >= 44 && c < TWO_TO_16
    modifies raw
    ensures raw[..] == SetField(old(raw[..]), c)
  {
    raw[42], raw[43] := c / 256, c % 256;
  }

  /** PatchChecksum: a buffer under 44 bytes is left alone. */
  method PatchChecksum(raw: array<Byte>)
    modifies raw
    ensures raw.Length < 44 ==> raw[..] == old(raw[..])
    ensures raw.Length >= 44 ==> raw[..] == SetField(old(raw[..]), MAX_FOLD - Fold(PacketSum(old(raw[..])) % TWO_TO_32))
    ensures 44 <= raw.Length <= 40 + 65535 ==> (ValidPacket(raw[..]) <==> Field(old(raw[..])) in {0, MAX_FOLD})
  {
    if raw.Length < 44 {
      return;
    }
    ghost var was := raw[..];
    var s := PacketSum16(raw);
    var f := Fold16(s);
    WriteField(raw, MAX_FOLD - f);
    if raw.Length <= 40 + 65535 {
      FieldDecides(was);
    }
  }

  function WithDst(template: seq<Byte>, dst: seq<Byte>): (raw: seq<Byte>)
    requires |template| >= 40 && |dst| == 16
    ensures |raw| == |template|
  {
    template[..24] + dst + template[40..]
  }

  method CopyWithDst(template: array<Byte>, dst: seq<Byte>) returns (raw: array<Byte>)
    requires template.Length >= 40 && |dst| == 16
    ensures fresh(raw) && raw[..] == WithDst(template[..], dst)
  {
    raw := new Byte[template.Length];
    for i := 0 to raw.Length
      invariant forall j :: 0 <= j < i ==> raw[j] == template[j]
    {
      raw[i] := template[i];
    }
    for i := 24 to 40
      invariant forall j :: 0 <= j < raw.Length && !(24 <= j < i) ==> raw[j] == template[j]
      invariant forall j :: 24 <= j < i ==> raw[j] == dst[j - 24]
    {
      raw[i] := dst[i - 24];
    }
  }

  /** raw is the template but for its destination and its checksum field. */
  predicate IsReplica(raw: seq<Byte>, template: seq<Byte>, dst: seq<Byte>) {
    && |raw| == |template| >= 44
    && raw[..24] == template[..24] && raw[24..40] == dst && raw[40..42] == template[40..42]
    && raw[44..] == template[44..]
  }

  lemma OnlyDstAndField(template: seq<Byte>, dst: seq<Byte>, c: nat)
    requires |template| >= 44 && |dst| == 16 && c < TWO_TO_16
    ensures Field(WithDst(template, dst)) == Field(template)
    ensures IsReplica(SetField(WithDst(template, dst), c), template, dst)
  {
  }

  /** The per-subscriber copy: template, destination, checksum. */
  method Replicate(template: array<Byte>, dst: seq<Byte>) returns (raw: array<Byte>)
    requires template.Length >= 44 && |dst| == 16
    requires template[42] == 0 && template[43] == 0
    ensures fresh(raw) && IsReplica(raw[..], template[..], dst)
    ensures template.Length <= 40 + 65535 ==> ValidPacket(raw[..])
  {
    raw := CopyWithDst(template, dst);
    OnlyDstAndField(template[..], dst, MAX_FOLD - Fold(PacketSum(raw[..]) % TWO_TO_32));
    assert |raw[..]| == raw.Length;
    PatchChecksum(raw);
  }

  // ---------------------------------------------------------------- the template cache

  /** cfg stands for the identity of the running configuration. */
  datatype GroupState = GroupState(cfg: nat, raw: array<Byte>, refresh: nat)

  /** What resolving a group yields: nothing on a transient failure or a zero refresh. */
  datatype Resolved = Resolved(raw: seq<Byte>, refresh: nat)

  /** The template made from what was resolved: its bytes with a zero checksum field. */
  predicate IsTemplate(raw: seq<Byte>, refresh: nat, from: Resolved) {
    |from.raw| >= 44 && raw == SetField(from.raw, 0) && refresh == from.refresh > 0
  }

  class Engine {
    var states: map<string, GroupState>

    /** What each cached state was made from. */
    ghost var sources: map<string, Resolved>

    constructor ()
      ensures states == map[] && Valid()
    {
      states := map[];
      sources := map[];
    }

    /** Every cached template still has the bytes it was made from, but for a zero checksum field. */
    ghost predicate Valid()
      reads this, set key | key in states :: states[key].raw
    {
      && sources.Keys == states.Keys
      && forall key :: key in states ==> IsTemplate(states[key].raw[..], states[key].refresh, sources[key])
    }

    /** Resolves only when the configuration changed; a failure is not cached. */
    method GroupStateFor(key: string, cfg: nat, resolve: () -> Option<Resolved>) returns (r: Option<GroupState>)
      requires Valid()
      requires resolve().Some? ==> |resolve().value.raw| >= 44
      modifies this
      ensures Valid()
      ensures key in old(states) && old(states)[key].cfg == cfg ==>
                r == Some(old(states)[key]) && states == old(states) && sources == old(sources)
      ensures !(key in old(states) && old(states)[key].cfg == cfg) && r.Some? ==>
                fresh(r.value.raw) && resolve().Some? && sources == old(sources)[key := resolve().value]
      ensures r.Some? ==> states == old(states)[key := r.value] && r.value.cfg == cfg
      ensures r.Some? ==> key in sources && IsTemplate(r.value.raw[..], r.value.refresh, sources[key])
      ensures r.None? ==> states == old(states) && sources == old(sources)
      ensures r.None? ==> resolve().None? || resolve().value.refresh == 0
    {
      if key in states && states[key].cfg == cfg {
        return Some(states[key]);
      }
      var got := resolve();
      if got.None? || got.value.refresh == 0 {
        return None;
      }
      var raw := new Byte[|got.value.raw|](i requires 0 <= i < |got.value.raw| => got.value.raw[i]);
      assert raw[..] == got.value.raw;
      raw[42], raw[43] := 0, 0;
      var st := GroupState(cfg, raw, got.value.refresh);
      states := states[key := st];
      sources := sources[key := got.value];
      r := Some(st);
    }

    /** What an emit sends: the group's advertisement as resolved, with destination and checksum of
        its own. */
    method Advertise(key: string, cfg: nat, resolve: () -> Option<Resolved>, dst: seq<Byte>)
      returns (packet: Option<array<Byte>>)
      requires Valid() && |dst| == 16
      requires resolve().Some? ==> |resolve().value.raw| >= 44
      modifies this
      ensures Valid()
      ensures packet.Some? ==> fresh(packet.value) && key in sources
      ensures packet.Some? ==> IsReplica(packet.value[..], sources[key].raw, dst)
      ensures packet.Some? && packet.value.Length <= 40 + 65535 ==> ValidPacket(packet.value[..])
      ensures packet.None? ==> resolve().None? || resolve().value.refresh == 0
    {
      var st := GroupStateFor(key, cfg, resolve);
      if st.None? {
        return None;
      }
      var raw := Replicate(st.value.raw, dst);
      assert IsReplica(raw[..], sources[key].raw, dst) by {
        SameButField(raw[..], st.value.raw[..], sources[key].raw, dst);
      }
      packet := Some(raw);
    }
  }

  lemma SameButField(raw: seq<Byte>, template: seq<Byte>, source: seq<Byte>, dst: seq<Byte>)
    requires |source| >= 44 && template == SetField(source, 0) && IsReplica(raw, template, dst)
    ensures IsReplica(raw, source, dst)
  {
  }
}
