/**
 The binary wire format of `networking/packets.go` and `modtool/packets.go`: big-endian integers cut to
 their width, length-prefixed strings, and packets that carry their size in front.

 Reading past the end of a slice panics; `Panic` stands for that.
 */
module Wire {

  newtype byte = x: int | 0 <= x < 0x100

  type Bytes = seq<byte>

  datatype Result<+T> = Ok(value: T) | Panic {
    predicate IsFailure() { Panic? }

    function PropagateFailure<U>(): Result<U>
      requires Panic?
    {
      Panic
    }

    function Extract(): T
      requires Ok?
    {
      value
    }
  }

  const TWO16 := 0x1_0000
  const TWO32 := 0x1_0000_0000

  // ---- Integers ----

  /** `binary.BigEndian.PutUint16` of `uint16(x)`. */
  function Short(x: int): (r: Bytes)
    ensures |r| == 2
  {
    [(x / 0x100 % 0x100) as byte, (x % 0x100) as byte]
  }

  /** `binary.BigEndian.PutUint32` of `uint32(x)`. */
  function Int(x: int): (r: Bytes)
    ensures |r| == 4
  {
    Short(x / TWO16) + Short(x)
  }

  function U16(b: Bytes): nat
    requires |b| == 2
  {
    0x100 * b[0] as int + b[1] as int
  }

  function U32(b: Bytes): nat
    requires |b| == 4
  {
    TWO16 * U16(b[..2]) + U16(b[2..])
  }

  /** `int16(x)` of an unsigned 16-bit value. */
  function Signed16(x: int): int {
    if x < TWO16 / 2 then x else x - TWO16
  }

  /** `int32(x)` of an unsigned 32-bit value. */
  function Signed32(x: int): int {
    if x < TWO32 / 2 then x else x - TWO32
  }

  lemma U16OfShort(x: int)
    ensures U16(Short(x)) == x % TWO16
  {
  }

  lemma U32OfInt(x: int)
    ensures U32(Int(x)) == x % TWO32
  {
    U16OfShort(x / TWO16);
    U16OfShort(x);
    assert Int(x)[..2] == Short(x / TWO16) && Int(x)[2..] == Short(x);
  }

  lemma Signed32Mod(x: int)
    ensures -0x8000_0000 <= x < 0x8000_0000 <==> Signed32(x % TWO32) == x
  {
  }

  /** `shortToBytes` fills a two-byte buffer. */
  method ShortToBytes(x: int) returns (out: array<byte>)
    ensures fresh(out) && out[..] == Short(x)
  {
    out := new byte[2];
    out[0] := (x / 0x100 % 0x100) as byte;
    out[1] := (x % 0x100) as byte;
  }

  /** `integerToBytes` fills a four-byte buffer. */
  method IntegerToBytes(x: int) returns (out: array<byte>)
    ensures fresh(out) && out[..] == Int(x)
  {
    out := new byte[4];
    var high := x / TWO16;
    out[0] := (high / 0x100 % 0x100) as byte;
    out[1] := (high % 0x100) as byte;
    out[2] := (x / 0x100 % 0x100) as byte;
    out[3] := (x % 0x100) as byte;
  }

  // ---- Reading ----

  function ReadShort(data: Bytes): Result<(int, Bytes)> {
    if |data| < 2 then Panic else Ok((Signed16(U16(data[..2])), data[2..]))
  }

  /** `ReadInt` of the networking service, which does not sign-extend. */
  function ReadUint(data: Bytes): Result<(int, Bytes)> {
    if |data| < 4 then Panic else Ok((U32(data[..4]), data[4..]))
  }

  /** `ReadInt` of the moderation tool, which does. */
  function ReadInt(data: Bytes): Result<(int, Bytes)> {
    if |data| < 4 then Panic else Ok((Signed32(U32(data[..4])), data[4..]))
  }

  function ReadString(data: Bytes): Result<(Bytes, Bytes)> {
    var (n, rest) :- ReadShort(data);
    if n < 0 || |rest| < n then Panic else Ok((rest[..n], rest[n..]))
  }

  // ---- Writing ----

  datatype Value =
    | AShort(short: int) | AnInt(number: int) | AString(str: Bytes) | ABool(flag: bool) | Raw(raw: Bytes) | Unknown

  function String(s: Bytes): Bytes {
    Short(|s|) + s
  }

  function ValueBytes(v: Value): Bytes {
    match v
    case AShort(x) => Short(x)
    case AnInt(x) => Int(x)
    case AString(s) => String(s)
    case ABool(b) => [if b then 1 else 0]
    case Raw(b) => b
    case Unknown => []
  }

  function AllBytes(vs: seq<Value>): Bytes {
    if vs == [] then [] else AllBytes(vs[..|vs| - 1]) + ValueBytes(vs[|vs| - 1])
  }

  function AddSize(packet: Bytes): Bytes {
    Int(|packet|) + packet
  }

  function Compose(header: int, values: seq<Value>): Bytes {
    AddSize(Short(header) + AllBytes(values))
  }

  /** The loop of `compose`. */
  method ComposePacket(header: int, values: seq<Value>) returns (out: Bytes)
    ensures out == Compose(header, values)
  {
    var head := ShortToBytes(header);
    var packet := head[..];
    for i := 0 to |values|
      invariant packet == Short(header) + AllBytes(values[..i])
    {
      assert values[..i + 1][..i] == values[..i];
      packet := packet + ValueBytes(values[i]);
    }
    assert values[..|values|] == values;
    var size := IntegerToBytes(|packet|);
    out := size[..] + packet;
  }

  /** The first value comes first. */
  lemma {:induction false} ValuesInOrder(v: Value, vs: seq<Value>)
    ensures AllBytes([v] + vs) == ValueBytes(v) + AllBytes(vs)
  {
    if vs == [] {
      assert ([v] + vs)[..0] == [];
    } else {
      var n := |vs| - 1;
      ValuesInOrder(v, vs[..n]);
      assert ([v] + vs)[..n + 1] == [v] + vs[..n];
    }
  }

  // ---- What reading undoes ----

  lemma ReadIntOf(x: int, rest: Bytes)
    ensures ReadUint(Int(x) + rest) == Ok((x % TWO32, rest))
    ensures ReadInt(Int(x) + rest) == Ok((Signed32(x % TWO32), rest))
  {
    U32OfInt(x);
    assert (Int(x) + rest)[..4] == Int(x) && (Int(x) + rest)[4..] == rest;
  }

  lemma ReadShortOf(x: int, rest: Bytes)
    ensures ReadShort(Short(x) + rest) == Ok((Signed16(x % TWO16), rest))
  {
    U16OfShort(x);
    assert (Short(x) + rest)[..2] == Short(x) && (Short(x) + rest)[2..] == rest;
  }

  /** A string comes back exactly if it has at most 32767 bytes, and then nothing after it is touched. */
  lemma ReadStringOf(s: Bytes, rest: Bytes)
    ensures var r := ReadString(String(s) + rest);
      && (r.Ok? && r.value.0 == s <==> |s| <= 0x7FFF)
      && (|s| <= 0x7FFF ==> r == Ok((s, rest)))
  {
  }

  /** Each kind of value reads back, with what follows it untouched. */
  lemma ValueReads(v: Value, rest: Bytes)
    ensures v.AShort? ==> ReadShort(ValueBytes(v) + rest) == Ok((Signed16(v.short % TWO16), rest))
    ensures v.AnInt? ==> ReadInt(ValueBytes(v) + rest) == Ok((Signed32(v.number % TWO32), rest))
    ensures v.AString? && |v.str| <= 0x7FFF ==> ReadString(ValueBytes(v) + rest) == Ok((v.str, rest))
    ensures v.ABool? ==>
      |ValueBytes(v)| == 1 && (ValueBytes(v)[0] == 1 <==> v.flag) && (ValueBytes(v)[0] == 0 <==> !v.flag)
    ensures v.Raw? ==> ValueBytes(v) == v.raw
    ensures v.Unknown? ==> ValueBytes(v) == []
  {
    if v.AShort? {
      ReadShortOf(v.short, rest);
    } else if v.AnInt? {
      ReadIntOf(v.number, rest);
    } else if v.AString? {
      ReadStringOf(v.str, rest);
    }
  }

  // ---- Packets ----

  datatype Message = Message(header: int, data: Bytes)

  /** `ParseMessage`: the size prefix is read but not checked. */
  function ParseMessage(data: Bytes): Result<Message> {
    var (_, rest) :- ReadUint(data);
    var (header, body) :- ReadShort(rest);
    Ok(Message(header, body))
  }

  /** A composed packet parses to its header modulo signed 16 bits and exactly the bytes of its values. */
  lemma ParseOfCompose(header: int, values: seq<Value>)
    ensures ParseMessage(Compose(header, values)) == Ok(Message(Signed16(header % TWO16), AllBytes(values)))
  {
    var body := Short(header) + AllBytes(values);
    ReadIntOf(|body|, body);
    ReadShortOf(header, AllBytes(values));
  }

  function Concat(ps: seq<Bytes>): Bytes {
    if ps == [] then [] else ps[0] + Concat(ps[1..])
  }

  /** The first packet of a byte stream by its size prefix, and the rest. */
  function FirstPacket(data: Bytes): Result<(Bytes, Bytes)> {
    var (n, rest) :- ReadUint(data);
    if |rest| < n then Panic else Ok((data[..4 + n], rest[n..]))
  }

  /** Cuts a byte stream back into packets. */
  function Split(data: Bytes): Result<seq<Bytes>>
    decreases |data|
  {
    if data == [] then Ok([])
    else
      var (p, rest) :- FirstPacket(data);
      var ps :- Split(rest);
      Ok([p] + ps)
  }

  /** The packets `addSize` makes of these bodies. */
  function Packets(bodies: seq<Bytes>): seq<Bytes> {
    if bodies == [] then [] else [AddSize(bodies[0])] + Packets(bodies[1..])
  }

  lemma TakeDrop(a: Bytes, rest: Bytes)
    ensures (a + rest)[..|a|] == a && (a + rest)[|a|..] == rest
  {
  }

  lemma ReadSize(b: Bytes, rest: Bytes)
    ensures ReadUint(AddSize(b) + rest) == Ok((|b| % TWO32, b + rest))
  {
    assert AddSize(b) + rest == Int(|b|) + (b + rest);
    ReadIntOf(|b|, b + rest);
  }

  lemma FirstFitting(b: Bytes, rest: Bytes)
    requires |b| < TWO32
    ensures FirstPacket(AddSize(b) + rest) == Ok((AddSize(b), rest))
  {
    ReadSize(b, rest);
    TakeDrop(b, rest);
    TakeDrop(AddSize(b), rest);
  }

  lemma SplitStep(data: Bytes, p: Bytes, rest: Bytes)
    requires data != [] && FirstPacket(data) == Ok((p, rest))
    ensures Split(data) == if Split(rest).Panic? then Panic else Ok([p] + Split(rest).value)
  {
  }

  lemma SplitOversized(b: Bytes, rest: Bytes)
    requires |b| >= TWO32
    ensures var r := Split(AddSize(b) + rest); r.Ok? ==> r.value != [] && r.value[0] != AddSize(b)
  {
  }

  /** A stream of packets is uniquely splittable exactly when every size fits its 32-bit prefix. */
  lemma {:induction false} SplitOfConcat(bodies: seq<Bytes>)
    ensures Split(Concat(Packets(bodies))) == Ok(Packets(bodies)) <==> forall b :: b in bodies ==> |b| < TWO32
  {
    if bodies != [] {
      var b, ps := bodies[0], Packets(bodies[1..]);
      SplitOfConcat(bodies[1..]);
      assert Packets(bodies)[1..] == ps && Concat(Packets(bodies)) == AddSize(b) + Concat(ps);
      assert forall c :: c in bodies <==> c == b || c in bodies[1..];
      if |b| < TWO32 {
        FirstFitting(b, Concat(ps));
        SplitStep(AddSize(b) + Concat(ps), AddSize(b), Concat(ps));
      } else {
        SplitOversized(b, Concat(ps));
      }
    }
  }

  // ---- The write loop of a connection ----

  lemma DropAppend(ps: seq<Bytes>, qs: seq<Bytes>)
    requires ps != []
    ensures (ps + qs)[0] == ps[0] && (ps + qs)[1..] == ps[1..] + qs
  {
  }

  lemma {:induction false} ConcatAppend(ps: seq<Bytes>, qs: seq<Bytes>)
    ensures Concat(ps + qs) == Concat(ps) + Concat(qs)
  {
    if ps == [] {
      assert ps + qs == qs;
    } else {
      DropAppend(ps, qs);
      ConcatAppend(ps[1..], qs);
    }
  }

  /** One frame of `Client.write`: the packet received, and the `queued` ones behind it. */
  method WriteFrame(sent: seq<Bytes>, start: nat, queued: nat) returns (frame: Bytes)
    requires start + queued < |sent|
    ensures frame == Concat(sent[start..start + 1 + queued])
  {
    frame := sent[start];
    assert sent[start..start + 1] == [frame];
    for i := 0 to queued
      invariant frame == Concat(sent[start..start + 1 + i])
    {
      var next := start + 1 + i;
      ConcatAppend(sent[start..next], [sent[next]]);
      assert sent[start..next + 1] == sent[start..next] + [sent[next]];
      frame := frame + sent[next];
    }
  }

  /** A packet long enough for `ParseMessage`. */
  predicate Parses(packet: Bytes) {
    |packet| >= 6
  }

  lemma ParsesIff(packet: Bytes)
    ensures Parses(packet) <==> ParseMessage(packet).Ok?
  {
  }

  function Flatten(bs: seq<seq<Bytes>>): seq<Bytes> {
    if bs == [] then [] else Flatten(bs[..|bs| - 1]) + bs[|bs| - 1]
  }

  lemma FlattenSnoc(bs: seq<seq<Bytes>>, b: seq<Bytes>)
    ensures Flatten(bs + [b]) == Flatten(bs) + b
  {
  }

  /** Where batch `k` starts in the list that the batches make up. */
  function Offset(batches: seq<seq<Bytes>>, k: nat): nat
    requires k <= |batches|
  {
    |Flatten(batches[..k])|
  }

  /** Batch `k` of `n` packets is the packet received and as many as were queued then, or all that come, if fewer do. */
  ghost predicate SizedAsQueued(n: nat, queued: seq<nat>, batches: seq<seq<Bytes>>, k: nat) {
    k < |batches| &&
    var more := n - Offset(batches, k) - 1;
    |batches[k]| == 1 + if k < |queued| && queued[k] <= more then queued[k] else more
  }

  lemma SizedAppend(n: nat, queued: seq<nat>, batches: seq<seq<Bytes>>, batch: seq<Bytes>)
    requires forall k :: 0 <= k < |batches| ==> SizedAsQueued(n, queued, batches, k)
    requires |Flatten(batches)| < n && |batch| == 1 + Queued(queued, |batches|, n - |Flatten(batches)| - 1)
    ensures forall k :: 0 <= k <= |batches| ==> SizedAsQueued(n, queued, batches + [batch], k)
  {
    hide Flatten;
    var all := batches + [batch];
    assert all[..|batches|] == batches;
    forall k: nat | k < |batches| ensures SizedAsQueued(n, queued, all, k) {
      assert all[..k] == batches[..k] && SizedAsQueued(n, queued, batches, k);
    }
  }

  /** What `len(c.send)` says in iteration `k`, with `left` packets still to come. */
  function Queued(queued: seq<nat>, k: nat, left: nat): (n: nat)
    ensures n <= left
  {
    if k < |queued| && queued[k] <= left then queued[k] else left
  }

  /** Some packet that starts a frame, from frame `k` on, is too short. */
  predicate PanicsFrom(sent: seq<Bytes>, queued: seq<nat>, start: nat, k: nat)
    requires start <= |sent|
    decreases |sent| - start
  {
    start < |sent| &&
    (!Parses(sent[start]) || PanicsFrom(sent, queued, start + 1 + Queued(queued, k, |sent| - start - 1), k + 1))
  }

  predicate Panics(sent: seq<Bytes>, queued: seq<nat>) {
    PanicsFrom(sent, queued, 0, 0)
  }

  lemma {:induction false} AllParse(sent: seq<Bytes>, queued: seq<nat>, start: nat, k: nat)
    requires start <= |sent| && forall p :: p in sent ==> Parses(p)
    ensures !PanicsFrom(sent, queued, start, k)
    decreases |sent| - start
  {
    if start < |sent| {
      AllParse(sent, queued, start + 1 + Queued(queued, k, |sent| - start - 1), k + 1);
    }
  }

  function Zeros(n: nat): (zs: seq<nat>)
    ensures |zs| == n && forall k :: 0 <= k < n ==> zs[k] == 0
  {
    seq(n, _ => 0)
  }

  /** When nothing is ever queued, each packet starts a frame. */
  lemma {:induction false} FramesOfOne(sent: seq<Bytes>, start: nat, i: nat)
    requires start <= i < |sent| && !Parses(sent[i])
    ensures PanicsFrom(sent, Zeros(|sent|), start, start)
    decreases i - start
  {
    if start < i {
      FramesOfOne(sent, start + 1, i);
    }
  }

  /** Whatever is queued when, nothing panics, if and only if every packet sent is long enough. */
  lemma NeverPanicsIff(sent: seq<Bytes>)
    ensures (forall queued :: !Panics(sent, queued)) <==> forall p :: p in sent ==> Parses(p)
  {
    if forall p :: p in sent ==> Parses(p) {
      forall queued ensures !Panics(sent, queued) {
        AllParse(sent, queued, 0, 0);
      }
    } else {
      var i :| 0 <= i < |sent| && !Parses(sent[i]);
      FramesOfOne(sent, 0, i);
      assert Panics(sent, Zeros(|sent|));
    }
  }

  /** `Client.write` over everything sent on the channel until it is closed.  `queued[k]` is what `len(c.send)`
      says in iteration k (the channel holds no more than what is still to come).  Each websocket message is
      one frame.  The packet that starts a frame is parsed for the log, which panics if it is too short; the packets
      queued behind it are not looked at. */
  method Write(sent: seq<Bytes>, queued: seq<nat>)
    returns (frames: seq<Bytes>, batches: seq<seq<Bytes>>, panicked: bool)
    ensures |frames| == |batches| && forall k :: 0 <= k < |frames| ==> IsFrame(frames[k], batches[k])
    ensures var done := Flatten(batches);
      && done <= sent && Concat(frames) == Concat(done)
      && if panicked then |done| < |sent| && !Parses(sent[|done|]) else done == sent
    ensures panicked == Panics(sent, queued)
    ensures forall k :: 0 <= k < |batches| ==> SizedAsQueued(|sent|, queued, batches, k)
  {
    frames, batches, panicked := [], [], false;
    var start := 0;
    while start < |sent|
      invariant start <= |sent| && |frames| == |batches|
      invariant forall k :: 0 <= k < |frames| ==> IsFrame(frames[k], batches[k])
      invariant Flatten(batches) == sent[..start] && Concat(frames) == Concat(sent[..start])
      invariant PanicsFrom(sent, queued, start, |frames|) == Panics(sent, queued)
      invariant forall k :: 0 <= k < |batches| ==> SizedAsQueued(|sent|, queued, batches, k)
    {
      if ParseMessage(sent[start]).Panic? {
        ParsesIff(sent[start]);
        return frames, batches, true;
      }
      ParsesIff(sent[start]);
      var numMessages := Queued(queued, |frames|, |sent| - start - 1);
      var frame := WriteFrame(sent, start, numMessages);
      var next := start + 1 + numMessages;
      FrameAppended(sent, start, next, frames, batches, frame);
      SizedAppend(|sent|, queued, batches, sent[start..next]);
      frames, batches, start := frames + [frame], batches + [sent[start..next]], next;
    }
    assert sent[..start] == sent;
  }

  /** `frame` is a batch of packets, the first of which parses. */
  predicate IsFrame(frame: Bytes, batch: seq<Bytes>) {
    batch != [] && frame == Concat(batch) && Parses(batch[0])
  }

  lemma FrameAppended(sent: seq<Bytes>, start: nat, next: nat, frames: seq<Bytes>, batches: seq<seq<Bytes>>,
          frame: Bytes)
    requires start < next <= |sent| && frame == Concat(sent[start..next])
    requires Flatten(batches) == sent[..start] && Concat(frames) == Concat(sent[..start])
    ensures Flatten(batches + [sent[start..next]]) == sent[..next] && Concat(frames + [frame]) == Concat(sent[..next])
  {
    var batch := sent[start..next];
    ConcatAppend(frames, [frame]);
    ConcatAppend(sent[..start], batch);
    FlattenSnoc(batches, batch);
    assert sent[..start] + batch == sent[..next];
  }

  /** What a service composes: a header and values. */
  datatype Composed = Composed(header: int, values: seq<Value>)

  function Body(c: Composed): Bytes {
    Short(c.header) + AllBytes(c.values)
  }

  function Bodies(cs: seq<Composed>): seq<Bytes> {
    if cs == [] then [] else [Body(cs[0])] + Bodies(cs[1..])
  }

  lemma {:induction false} PacketsOf(cs: seq<Composed>)
    ensures var ps := Packets(Bodies(cs));
      |ps| == |cs| && forall k :: 0 <= k < |cs| ==> ps[k] == Compose(cs[k].header, cs[k].values)
  {
    if cs != [] {
      PacketsOf(cs[1..]);
      assert Bodies(cs)[1..] == Bodies(cs[1..]);
    }
  }

  /** Each packet is composed from what `cs` says. */
  ghost predicate AreComposed(ps: seq<Bytes>, cs: seq<Composed>) {
    && |ps| == |cs|
    && forall k :: 0 <= k < |cs| ==>
         && ps[k] == Compose(cs[k].header, cs[k].values)
         && ParseMessage(ps[k]) == Ok(Message(Signed16(cs[k].header % TWO16), AllBytes(cs[k].values)))
  }

  lemma PacketsComposed(cs: seq<Composed>)
    ensures AreComposed(Packets(Bodies(cs)), cs) && forall p :: p in Packets(Bodies(cs)) ==> Parses(p)
  {
    PacketsOf(cs);
    forall k | 0 <= k < |cs|
      ensures ParseMessage(Compose(cs[k].header, cs[k].values)) ==
        Ok(Message(Signed16(cs[k].header % TWO16), AllBytes(cs[k].values)))
    {
      ParseOfCompose(cs[k].header, cs[k].values);
    }
    forall p | p in Packets(Bodies(cs)) ensures Parses(p) {
      var k :| 0 <= k < |cs| && Packets(Bodies(cs))[k] == p;
      ParsesIff(p);
    }
  }

  /** Splits as the packets it is made of. */
  ghost predicate SplitsInto(data: Bytes, ps: seq<Bytes>) {
    Split(data) == Ok(ps)
  }

  lemma {:induction false} PacketsPart(bodies: seq<Bytes>, i: nat, j: nat)
    requires i <= j <= |bodies| && |Packets(bodies)| == |bodies|
    ensures |Packets(bodies[i..j])| == j - i && Packets(bodies)[i..j] == Packets(bodies[i..j])
  {
    if i > 0 {
      PacketsPart(bodies[1..], i - 1, j - 1);
      assert bodies[1..][i - 1..j - 1] == bodies[i..j];
      assert Packets(bodies)[1..][i - 1..j - 1] == Packets(bodies)[i..j];
    } else if j > 0 {
      PacketsPart(bodies[1..], 0, j - 1);
      assert bodies[0..j][1..] == bodies[1..][0..j - 1];
      assert Packets(bodies)[0..j] == [AddSize(bodies[0])] + Packets(bodies)[1..][0..j - 1];
    }
  }

  lemma {:induction false} PacketsLength(bodies: seq<Bytes>)
    ensures |Packets(bodies)| == |bodies|
  {
    if bodies != [] {
      PacketsLength(bodies[1..]);
    }
  }

  /** The size of every packet fits the 32 bits of its prefix. */
  ghost predicate AllFit(ps: seq<Bytes>) {
    forall p :: p in ps ==> |p| - 4 < TWO32
  }

  lemma {:induction false} PacketsFit(bodies: seq<Bytes>)
    ensures AllFit(Packets(bodies)) <==> forall b :: b in bodies ==> |b| < TWO32
  {
    if bodies != [] {
      var ps := Packets(bodies[1..]);
      PacketsFit(bodies[1..]);
      assert forall b :: b in bodies <==> b == bodies[0] || b in bodies[1..];
      assert forall p :: p in Packets(bodies) <==> p == AddSize(bodies[0]) || p in ps;
      assert AllFit(Packets(bodies)) <==> |bodies[0]| < TWO32 && AllFit(ps);
    }
  }

  /** A stretch of the packets splits back into just those packets exactly when their sizes fit. */
  lemma StretchSplits(bodies: seq<Bytes>, i: nat, j: nat)
    requires i <= j <= |bodies| && |Packets(bodies)| == |bodies|
    ensures var ps := Packets(bodies)[i..j]; SplitsInto(Concat(ps), ps) <==> AllFit(ps)
  {
    PacketsPart(bodies, i, j);
    SplitOfConcat(bodies[i..j]);
    PacketsFit(bodies[i..j]);
  }

  lemma {:induction false} BatchIsStretch(batches: seq<seq<Bytes>>, k: nat)
    requires k < |batches|
    ensures Offset(batches, k) + |batches[k]| <= |Flatten(batches)|
    ensures Flatten(batches)[Offset(batches, k)..Offset(batches, k) + |batches[k]|] == batches[k]
  {
    var n := |batches| - 1;
    if k < n {
      BatchIsStretch(batches[..n], k);
      assert batches[..n][..k] == batches[..k];
      var o := Offset(batches, k);
      assert Flatten(batches) == Flatten(batches[..n]) + batches[n];
      assert Flatten(batches)[o..o + |batches[k]|] == Flatten(batches[..n])[o..o + |batches[k]|];
    }
  }

  /** Frame `k` splits into the packets of batch `k` exactly when their sizes fit. */
  ghost predicate SplitsAsBatched(frames: seq<Bytes>, batches: seq<seq<Bytes>>, k: nat) {
    && k < |frames| && k < |batches| && batches[k] != []
    && (SplitsInto(frames[k], batches[k]) <==> AllFit(batches[k]))
  }

  lemma FrameSplits(bodies: seq<Bytes>, frames: seq<Bytes>, batches: seq<seq<Bytes>>, k: nat)
    requires k < |frames| == |batches| && IsFrame(frames[k], batches[k]) && Flatten(batches) == Packets(bodies)
    ensures SplitsAsBatched(frames, batches, k)
  {
    hide SplitsInto, AllFit, Flatten, Packets, Parses;
    PacketsLength(bodies);
    BatchIsStretch(batches, k);
    StretchSplits(bodies, Offset(batches, k), Offset(batches, k) + |batches[k]|);
  }

  lemma StreamSplits(bodies: seq<Bytes>)
    ensures var ps := Packets(bodies); SplitsInto(Concat(ps), ps) <==> AllFit(ps)
  {
    SplitOfConcat(bodies);
    PacketsFit(bodies);
  }

  /** Batching is transparent: whatever the batch sizes, composed packets are written without a panic, each with its
      header modulo signed 16 bits and the bytes of its values.  Splitting by size prefix recovers the packets of a
      frame, and all packets from the whole stream, in order, exactly when their sizes fit the prefix. */
  method WriteComposed(cs: seq<Composed>, queued: seq<nat>) returns (frames: seq<Bytes>, batches: seq<seq<Bytes>>)
    ensures |frames| == |batches| && forall k :: 0 <= k < |frames| ==> SplitsAsBatched(frames, batches, k)
    ensures AreComposed(Flatten(batches), cs)
    ensures SplitsInto(Concat(frames), Flatten(batches)) <==> AllFit(Flatten(batches))
  {
    hide SplitsInto, AllFit, SplitsAsBatched, AreComposed, IsFrame, Parses;
    var bodies := Bodies(cs);
    PacketsComposed(cs);
    var panicked;
    frames, batches, panicked := Write(Packets(bodies), queued);
    assert Flatten(batches) == Packets(bodies);
    forall k | 0 <= k < |frames| ensures SplitsAsBatched(frames, batches, k) {
      FrameSplits(bodies, frames, batches, k);
    }
    StreamSplits(bodies);
  }
}
