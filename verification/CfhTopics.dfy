/**
 The nested "call for help" topics packet: the serializers of `modtool/composers.go` and the decoder of
 `modtool/composers_test.go`.
 */
module CfhTopics {
  import opened Wire

  datatype Topic = Topic(name: Bytes, id: int, action: Bytes)
  datatype Category = Category(name: Bytes, topics: seq<Topic>)

  const HEADER := 325

  // ---- Composing ----

  function EncodeAll<T>(encode: T -> Bytes, xs: seq<T>): Bytes {
    if xs == [] then [] else encode(xs[0]) + EncodeAll(encode, xs[1..])
  }

  function Counted<T>(encode: T -> Bytes, xs: seq<T>): Bytes {
    Int(|xs|) + EncodeAll(encode, xs)
  }

  function TopicBytes(t: Topic): Bytes {
    String(t.name) + (Int(t.id) + String(t.action))
  }

  function CategoryBytes(c: Category): Bytes {
    String(c.name) + Counted(TopicBytes, c.topics)
  }

  function Packet(cs: seq<Category>): Bytes {
    Compose(HEADER, [Raw(Counted(CategoryBytes, cs))])
  }

  lemma Assoc(a: Bytes, b: Bytes, c: Bytes)
    ensures (a + b) + c == a + (b + c)
  {
  }

  /** The loop of `SerializeAll`. */
  method SerializeAll<T>(encode: T -> Bytes, xs: seq<T>) returns (packet: Bytes)
    ensures packet == Counted(encode, xs)
  {
    packet := Int(|xs|);
    for i := 0 to |xs|
      invariant packet + EncodeAll(encode, xs[i..]) == Counted(encode, xs)
    {
      assert xs[i..][1..] == xs[i + 1..];
      Assoc(packet, encode(xs[i]), EncodeAll(encode, xs[i + 1..]));
      packet := packet + encode(xs[i]);
    }
    assert packet + [] == packet;
  }

  lemma PacketParses(cs: seq<Category>)
    ensures ParseMessage(Packet(cs)) == Ok(Message(325, Counted(CategoryBytes, cs)))
  {
    hide ParseMessage, Compose, Counted;
    var body := Counted(CategoryBytes, cs);
    assert AllBytes([Raw(body)]) == body by {
      assert [Raw(body)][..0] == [];
    }
    assert Signed16(325 % TWO16) == 325;
    ParseOfCompose(HEADER, [Raw(body)]);
  }

  /** The packet has header 325, and the count of categories with each of them behind it. */
  method CfhTopicsComposer(cs: seq<Category>) returns (packet: Bytes)
    ensures packet == Packet(cs)
    ensures ParseMessage(packet) == Ok(Message(325, Counted(CategoryBytes, cs)))
  {
    PacketParses(cs);
    var body := SerializeAll(CategoryBytes, cs);
    packet := ComposePacket(HEADER, [Raw(body)]);
  }

  // ---- Decoding ----

  type Reader<T> = Bytes -> Result<(T, Bytes)>

  function ReadMany<T>(read: Reader<T>, n: nat, data: Bytes): Result<(seq<T>, Bytes)> {
    if n == 0 then Ok(([], data))
    else
      var (x, d) :- read(data);
      var (xs, d) :- ReadMany(read, n - 1, d);
      Ok(([x] + xs, d))
  }

  function ReadTopic(data: Bytes): Result<(Topic, Bytes)> {
    var (name, d) :- ReadString(data);
    var (id, d) :- ReadInt(d);
    var (action, d) :- ReadString(d);
    Ok((Topic(name, id, action), d))
  }

  /** A negative count makes `make` panic. */
  function ReadCounted<T>(read: Reader<T>, data: Bytes): Result<(seq<T>, Bytes)> {
    var (n, d) :- ReadInt(data);
    if n < 0 then Panic else ReadMany(read, n, d)
  }

  function ReadCategory(data: Bytes): Result<(Category, Bytes)> {
    var (name, d) :- ReadString(data);
    var (topics, d) :- ReadCounted(ReadTopic, d);
    Ok((Category(name, topics), d))
  }

  datatype Consumed = Categories(categories: seq<Category>) | WrongLength | WrongHeader | Panicked

  /** `DeserializeCfhTopicsData`: bytes after the last category are ignored. */
  function Deserialize(body: Bytes): Consumed {
    match ReadCounted(ReadCategory, body)
    case Panic => Panicked
    case Ok((cs, _)) => Categories(cs)
  }

  /** `ConsumeCfhTopicsMessageComposer` */
  function Consume(raw: Bytes): Consumed {
    match ReadUint(raw)
    case Panic => Panicked
    case Ok((length, data)) =>
      if length != |data| then WrongLength
      else
        match ReadShort(data)
        case Panic => Panicked
        case Ok((header, body)) =>
          if header != HEADER then WrongHeader else Deserialize(body)
  }

  /** What is read so far, followed by the rest. */
  function Behind<T>(front: seq<T>, r: Result<(seq<T>, Bytes)>): Result<(seq<T>, Bytes)> {
    match r
    case Panic => Panic
    case Ok((xs, d)) => Ok((front + xs, d))
  }

  lemma BehindBehind<T>(front: seq<T>, x: T, r: Result<(seq<T>, Bytes)>)
    ensures Behind(front, Behind([x], r)) == Behind(front + [x], r)
  {
    if r.Ok? {
      assert front + ([x] + r.value.0) == (front + [x]) + r.value.0;
    }
  }

  /** The loops of `ReadCfhCategory` and `DeserializeCfhTopicsData`, which fill a slice of the announced length. */
  method Fill<T>(read: Reader<T>, n: nat, data: Bytes) returns (r: Result<(seq<T>, Bytes)>)
    ensures r == ReadMany(read, n, data)
  {
    var xs: seq<T>, d := [], data;
    assert ReadMany(read, n, data).Ok? ==> [] + ReadMany(read, n, data).value.0 == ReadMany(read, n, data).value.0;
    for i := 0 to n
      invariant ReadMany(read, n, data) == Behind(xs, ReadMany(read, n - i, d))
    {
      match read(d)
      case Panic => return Panic;
      case Ok((x, d')) =>
        BehindBehind(xs, x, ReadMany(read, n - i - 1, d'));
        xs, d := xs + [x], d';
    }
    assert xs + [] == xs;
    r := Ok((xs, d));
  }

  // ---- Round trip ----

  predicate GoodTopic(t: Topic) {
    |t.name| <= 0x7FFF && |t.action| <= 0x7FFF && -0x8000_0000 <= t.id < 0x8000_0000
  }

  predicate Good(c: Category) {
    |c.name| <= 0x7FFF && forall t :: t in c.topics ==> GoodTopic(t)
  }

  /** `r` is what reading one item must give when `x` was written in front of `rest`: the item and `rest` if
      it is good, and anything but the item otherwise. */
  ghost predicate Reads<T>(r: Result<(T, Bytes)>, x: T, good: bool, rest: Bytes) {
    if good then r == Ok((x, rest)) else r.Ok? ==> r.value.0 != x
  }

  lemma ReadTopicOf(t: Topic, rest: Bytes)
    ensures Reads(ReadTopic(TopicBytes(t) + rest), t, GoodTopic(t), rest)
  {
    var tail := String(t.action) + rest;
    assert TopicBytes(t) + rest == String(t.name) + (Int(t.id) + tail);
    ReadStringOf(t.name, Int(t.id) + tail);
    ReadIntOf(t.id, tail);
    Signed32Mod(t.id);
    ReadStringOf(t.action, rest);
  }

  ghost predicate AllGood<T>(good: T -> bool, xs: seq<T>) {
    forall x :: x in xs ==> good(x)
  }

  /** `read` undoes `encode` on good items in front of anything, and never gives back a bad one. */
  ghost predicate Inverts<T>(read: Reader<T>, encode: T -> Bytes, good: T -> bool, x: T) {
    forall rest :: Reads(read(encode(x) + rest), x, good(x), rest)
  }

  lemma ManyStep<T>(read: Reader<T>, xs: seq<T>, data: Bytes, good: bool, goods: bool, tail: Bytes, rest: Bytes)
    requires xs != []
    requires Reads(read(data), xs[0], good, tail)
    requires Reads(ReadMany(read, |xs| - 1, tail), xs[1..], goods, rest)
    ensures Reads(ReadMany(read, |xs|, data), xs, good && goods, rest)
  {
    assert xs == [xs[0]] + xs[1..];
    if ReadMany(read, |xs|, data).Ok? {
      var (x, d) := read(data).value;
      var ys := ReadMany(read, |xs| - 1, d).value.0;
      assert ([x] + ys)[0] == x && ([x] + ys)[1..] == ys;
    }
  }

  lemma {:induction false} ReadManyOf<T>(read: Reader<T>, encode: T -> Bytes, good: T -> bool, xs: seq<T>, rest: Bytes)
    requires forall x :: x in xs ==> Inverts(read, encode, good, x)
    ensures Reads(ReadMany(read, |xs|, EncodeAll(encode, xs) + rest), xs, AllGood(good, xs), rest)
  {
    if xs == [] {
      assert [] + rest == rest;
    } else {
      var tail := EncodeAll(encode, xs[1..]) + rest;
      Assoc(encode(xs[0]), EncodeAll(encode, xs[1..]), rest);
      assert Inverts(read, encode, good, xs[0]);
      assert Reads(read(encode(xs[0]) + tail), xs[0], good(xs[0]), tail);
      ReadManyOf(read, encode, good, xs[1..], rest);
      assert AllGood(good, xs) <==> good(xs[0]) && AllGood(good, xs[1..]);
      ManyStep(read, xs, EncodeAll(encode, xs) + rest, good(xs[0]), AllGood(good, xs[1..]), tail, rest);
    }
  }

  lemma ReadCountedOf<T>(read: Reader<T>, encode: T -> Bytes, good: T -> bool, xs: seq<T>, rest: Bytes)
    requires |xs| < TWO32 / 2
    requires forall x :: x in xs ==> Inverts(read, encode, good, x)
    ensures Reads(ReadCounted(read, Counted(encode, xs) + rest), xs, AllGood(good, xs), rest)
  {
    var tail := EncodeAll(encode, xs) + rest;
    Assoc(Int(|xs|), EncodeAll(encode, xs), rest);
    ReadIntOf(|xs|, tail);
    Signed32Mod(|xs|);
    ReadManyOf(read, encode, good, xs, rest);
  }

  /** A list takes at least `size` bytes for each item if every item does. */
  lemma {:induction false} EncodeAllLong<T>(encode: T -> Bytes, xs: seq<T>, size: nat)
    requires forall x :: x in xs ==> |encode(x)| >= size
    ensures |EncodeAll(encode, xs)| >= size * |xs|
  {
    if xs != [] {
      EncodeAllLong(encode, xs[1..], size);
      assert size * |xs| == size + size * |xs[1..]|;
    }
  }

  lemma {:induction false} EncodeAllHolds<T>(encode: T -> Bytes, xs: seq<T>, x: T)
    requires x in xs
    ensures |encode(x)| <= |EncodeAll(encode, xs)|
  {
    if xs[0] != x {
      EncodeAllHolds(encode, xs[1..], x);
    }
  }

  lemma CategoryStep(c: Category, data: Bytes, tail: Bytes, rest: Bytes)
    requires Reads(ReadString(data), c.name, |c.name| <= 0x7FFF, tail)
    requires Reads(ReadCounted(ReadTopic, tail), c.topics, AllGood(GoodTopic, c.topics), rest)
    ensures Reads(ReadCategory(data), c, Good(c), rest)
  {
  }

  lemma ReadCategoryOf(c: Category, rest: Bytes)
    requires |CategoryBytes(c)| < TWO32
    ensures Reads(ReadCategory(CategoryBytes(c) + rest), c, Good(c), rest)
  {
    var tail := Counted(TopicBytes, c.topics) + rest;
    EncodeAllLong(TopicBytes, c.topics, 8);
    Assoc(String(c.name), Counted(TopicBytes, c.topics), rest);
    ReadStringOf(c.name, tail);
    forall t | t in c.topics ensures Inverts(ReadTopic, TopicBytes, GoodTopic, t) {
      forall r ensures Reads(ReadTopic(TopicBytes(t) + r), t, GoodTopic(t), r) {
        ReadTopicOf(t, r);
      }
    }
    ReadCountedOf(ReadTopic, TopicBytes, GoodTopic, c.topics, rest);
    assert String(c.name) + tail == CategoryBytes(c) + rest;
    CategoryStep(c, CategoryBytes(c) + rest, tail, rest);
  }

  lemma DeserializeOf(cs: seq<Category>)
    requires |Counted(CategoryBytes, cs)| < TWO32
    ensures Deserialize(Counted(CategoryBytes, cs)) == Categories(cs) <==> AllGood(Good, cs)
  {
    EncodeAllLong(CategoryBytes, cs, 6);
    forall c | c in cs ensures Inverts(ReadCategory, CategoryBytes, Good, c) {
      EncodeAllHolds(CategoryBytes, cs, c);
      forall r ensures Reads(ReadCategory(CategoryBytes(c) + r), c, Good(c), r) {
        ReadCategoryOf(c, r);
      }
    }
    ReadCountedOf(ReadCategory, CategoryBytes, Good, cs, []);
    assert Counted(CategoryBytes, cs) + [] == Counted(CategoryBytes, cs);
  }

  lemma ConsumeStep(raw: Bytes, inner: Bytes, body: Bytes)
    requires ReadUint(raw) == Ok((|inner| % TWO32, inner)) && ReadShort(inner) == Ok((HEADER, body))
    ensures Consume(raw) == if |inner| < TWO32 then Deserialize(body) else WrongLength
  {
    hide Deserialize, ReadUint, ReadShort;
  }

  /** Decoding a composed packet gives the original categories and topics if and only if every string has at
      most 32767 bytes, every id fits 32 signed bits, and the packet's size fits its prefix. */
  lemma RoundTripIff(cs: seq<Category>)
    ensures Consume(Packet(cs)) == Categories(cs) <==> AllGood(Good, cs) && |Packet(cs)| - 4 < TWO32
  {
    var body := Counted(CategoryBytes, cs);
    var inner := Short(HEADER) + body;
    assert AllBytes([Raw(body)]) == body by {
      assert [Raw(body)][..0] == [];
    }
    ReadIntOf(|inner|, inner);
    ReadShortOf(HEADER, body);
    ConsumeStep(Packet(cs), inner, body);
    if |inner| < TWO32 {
      DeserializeOf(cs);
    }
  }
}
