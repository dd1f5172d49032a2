/** USB Power Delivery messages: the 16-bit header, power data objects, request data
    objects, and their framing for the FUSB302B transmit and receive FIFOs. Bit fields are
    bit-vectors, so shifting, masking and OR-ing are exactly the firmware's. */
module PdMessage {

  const MAX_OBJECTS := 7

  const GOODCRC: bv8 := 0x01
  const ACCEPT: bv8 := 0x03
  const PS_RDY: bv8 := 0x06
  const GET_SOURCE_CAP: bv8 := 0x07
  const GET_SINK_CAP: bv8 := 0x08
  const SOFT_RESET: bv8 := 0x0D
  const NOT_SUPPORTED: bv8 := 0x10

  const SOURCE_CAP: bv8 := 0x01
  const REQUEST: bv8 := 0x02
  const SINK_CAP: bv8 := 0x04

  /** `num_of_obj` is the number of data objects that carry meaning. */
  datatype PdMsg = PdMsg(kind: bv8, specRev: bv8, id: bv8, extended: bool, objects: seq<bv32>)

  /** Every field fits its place in the header (section 6.2.1.1 of the USB Power Delivery
      Specification). */
  predicate WellFormed(m: PdMsg) {
    m.kind < 32 && m.specRev < 4 && m.id < 8 && |m.objects| <= MAX_OBJECTS
  }

  function Count(n: nat): bv16
    requires n <= MAX_OBJECTS
  {
    if n == 0 then 0 else if n == 1 then 1 else if n == 2 then 2 else if n == 3 then 3
    else if n == 4 then 4 else if n == 5 then 5 else if n == 6 then 6 else 7
  }

  function CountOf(c: bv16): (n: nat)
    ensures n <= MAX_OBJECTS
  {
    if c == 0 then 0 else if c == 1 then 1 else if c == 2 then 2 else if c == 3 then 3
    else if c == 4 then 4 else if c == 5 then 5 else if c == 6 then 6 else 7
  }

  // ---------------------------------------------------------------- header

  function CodedHeader(m: PdMsg): bv16
    requires |m.objects| <= MAX_OBJECTS
  {
    (m.kind as bv16) | ((m.specRev as bv16) << 6) | ((m.id as bv16) << 9)
    | (Count(|m.objects|) << 12) | (if m.extended then 0x8000 else 0)
  }

  datatype Header = Header(kind: bv8, specRev: bv8, id: bv8, num: nat, extended: bool)

  function DecodeHeader(h: bv16): (r: Header)
    ensures r.num <= MAX_OBJECTS
  {
    Header((h & 0x1F) as bv8, ((h >> 6) & 0x3) as bv8, ((h >> 9) & 0x7) as bv8,
           CountOf((h >> 12) & 0x7), ((h >> 15) & 1) == 1)
  }

  function HeaderOf(m: PdMsg): Header {
    Header(m.kind, m.specRev, m.id, |m.objects|, m.extended)
  }

  /** Decoding undoes encoding on every well-formed message. */
  lemma HeaderRoundTrip(m: PdMsg)
    requires WellFormed(m)
    ensures DecodeHeader(CodedHeader(m)) == HeaderOf(m)
  {
  }

  /** Encoding undoes decoding on every header word, up to the two role bits (5 and 8) that
      a sink always sends as zero. */
  lemma HeaderNormalForm(h: bv16, objects: seq<bv32>)
    requires |objects| == DecodeHeader(h).num
    ensures var d := DecodeHeader(h);
            && WellFormed(PdMsg(d.kind, d.specRev, d.id, d.extended, objects))
            && CodedHeader(PdMsg(d.kind, d.specRev, d.id, d.extended, objects)) == h & 0xFEDF
  {
  }

  /** Where the fields stand in the header word (section 6.2.1.1 of the USB Power Delivery
      Specification): type in bits 0 to 4, revision in 6 and 7, id in 9 to 11, number of
      objects in 12 to 14, extended in 15; both roles zero. */
  lemma HeaderBits(m: PdMsg)
    requires WellFormed(m)
    ensures var h := CodedHeader(m);
            && (h & 0x1F) as bv8 == m.kind && ((h >> 6) & 0x3) as bv8 == m.specRev && ((h >> 9) & 0x7) as bv8 == m.id
            && (h >> 12) & 0x7 == Count(|m.objects|) && (h >> 15 == 1 <==> m.extended) && h & 0x0120 == 0
  {
  }

  // ---------------------------------------------------------------- bytes on the wire

  function Lo(h: bv16): bv8 {
    (h & 0xFF) as bv8
  }

  function Hi(h: bv16): bv8 {
    ((h >> 8) & 0xFF) as bv8
  }

  function Half(lo: bv8, hi: bv8): bv16 {
    (lo as bv16) | ((hi as bv16) << 8)
  }

  function WordBytes(d: bv32): (r: seq<bv8>)
    ensures |r| == 4
  {
    [(d & 0xFF) as bv8, ((d >> 8) & 0xFF) as bv8, ((d >> 16) & 0xFF) as bv8, ((d >> 24) & 0xFF) as bv8]
  }

  function Word(b: seq<bv8>): bv32
    requires |b| == 4
  {
    (b[0] as bv32) | ((b[1] as bv32) << 8) | ((b[2] as bv32) << 16) | ((b[3] as bv32) << 24)
  }

  lemma WordRoundTrip(d: bv32)
    ensures Word(WordBytes(d)) == d
  {
  }

  lemma HalfRoundTrip(h: bv16)
    ensures Half(Lo(h), Hi(h)) == h
  {
  }

  function ObjectBytes(objects: seq<bv32>): (r: seq<bv8>)
    ensures |r| == 4 * |objects|
  {
    if objects == [] then []
    else ObjectBytes(objects[..|objects| - 1]) + WordBytes(objects[|objects| - 1])
  }

  function Objects(b: seq<bv8>): (r: seq<bv32>)
    requires |b| % 4 == 0
    ensures |r| == |b| / 4
  {
    if b == [] then [] else Objects(b[..|b| - 4]) + [Word(b[|b| - 4..])]
  }

  lemma ObjectsSnoc(head: seq<bv8>, tail: seq<bv8>)
    requires |head| % 4 == 0 && |tail| == 4
    ensures Objects(head + tail) == Objects(head) + [Word(tail)]
  {
    assert (head + tail)[..|head|] == head && (head + tail)[|head|..] == tail;
  }

  lemma {:induction false} ObjectsRoundTrip(objects: seq<bv32>)
    ensures Objects(ObjectBytes(objects)) == objects
  {
    if objects == [] {
    } else {
      var init, last := objects[..|objects| - 1], objects[|objects| - 1];
      var head, tail := ObjectBytes(init), WordBytes(last);
      ObjectsRoundTrip(init);
      WordRoundTrip(last);
      ObjectsSnoc(head, tail);
      assert init + [last] == objects;
    }
  }

  /** Objects travel one after the other, least significant byte first. */
  lemma {:induction false} LittleEndian(objects: seq<bv32>, k: nat)
    requires k < |objects|
    ensures var b, d := ObjectBytes(objects), objects[k];
            && b[4 * k] == (d & 0xFF) as bv8 && b[4 * k + 1] == ((d >> 8) & 0xFF) as bv8
            && b[4 * k + 2] == ((d >> 16) & 0xFF) as bv8 && b[4 * k + 3] == ((d >> 24) & 0xFF) as bv8
  {
    var init := objects[..|objects| - 1];
    if k < |init| {
      LittleEndian(init, k);
      assert init[k] == objects[k];
    }
  }

  /** The bytes a message occupies between the start of packet and the CRC. */
  function Payload(m: PdMsg): (r: seq<bv8>)
    requires |m.objects| <= MAX_OBJECTS
    ensures |r| == 2 + 4 * |m.objects|
  {
    [Lo(CodedHeader(m)), Hi(CodedHeader(m))] + ObjectBytes(m.objects)
  }

  // ---------------------------------------------------------------- transmit FIFO

  const FRAME_CAPACITY := 40
  const SOP1: bv8 := 0x12
  const SOP2: bv8 := 0x13
  const PACKSYM: bv8 := 0x80
  const JAM_CRC: bv8 := 0xFF
  const EOP: bv8 := 0x14
  const TXOFF: bv8 := 0xFE
  const TXON: bv8 := 0xA1

  function PackToken(n: nat): bv8
    requires n <= MAX_OBJECTS
  {
    PACKSYM | (((Count(n) as bv8) << 2) + 2)
  }

  /** The five low bits of the PACKSYM token are the number of payload bytes that follow. */
  function PackedLength(token: bv8): bv8 {
    token & 0x1F
  }

  function Frame(m: PdMsg): seq<bv8>
    requires |m.objects| <= MAX_OBJECTS
  {
    [SOP1, SOP1, SOP1, SOP2, PackToken(|m.objects|)] + Payload(m) + [JAM_CRC, EOP, TXOFF, TXON]
  }

  /** A frame fits the 40-byte buffer, opens with SOP, announces exactly the payload it
      carries, puts the low byte of the header first, and ends in the four tokens that have
      the CRC appended and the packet closed and sent. */
  lemma FrameShape(m: PdMsg)
    requires |m.objects| <= MAX_OBJECTS
    ensures var n := |Payload(m)|;
            && |Frame(m)| == n + 9 <= FRAME_CAPACITY
            && PackedLength(Frame(m)[4]) as int == n && Frame(m)[4] & 0xE0 == PACKSYM
            && Frame(m)[5..5 + n] == Payload(m)
            && Frame(m)[..4] == [0x12, 0x12, 0x12, 0x13]
            && Frame(m)[5 + n..] == [0xFF, 0x14, 0xFE, 0xA1]
            && Frame(m)[5] == (CodedHeader(m) & 0xFF) as bv8 && Frame(m)[6] == (CodedHeader(m) >> 8) as bv8
            && Frame(m)[7..5 + n] == ObjectBytes(m.objects)
  {
    assert Frame(m)[7..5 + |Payload(m)|] == ObjectBytes(m.objects);
    var n := |Payload(m)|;
    assert Frame(m)[5..5 + n] == Payload(m);
    assert PackedLength(PackToken(|m.objects|)) ==
           (match |m.objects| case 0 => 2 case 1 => 6 case 2 => 10 case 3 => 14 case 4 => 18 case 5 => 22 case 6 => 26 case _ => 30);
  }

  /** `send_message`: fills the buffer token by token; `n` bytes of it go to the FIFO. */
  method SendMessage(m: PdMsg, buf: array<bv8>) returns (n: nat)
    requires |m.objects| <= MAX_OBJECTS && buf.Length == FRAME_CAPACITY
    modifies buf
    ensures n == |Frame(m)| <= buf.Length && buf[..n] == Frame(m)
  {
    var start := [SOP1, SOP1, SOP1, SOP2, PackToken(|m.objects|)] + [Lo(CodedHeader(m)), Hi(CodedHeader(m))];
    n := SendParts(start, m.objects, [JAM_CRC, EOP, TXOFF, TXON], buf);
  }

  /** The stores of `send_message`: opening tokens and header, the objects little-endian,
      then the closing tokens. */
  method SendParts(start: seq<bv8>, objects: seq<bv32>, end: seq<bv8>, buf: array<bv8>) returns (n: nat)
    requires |start| + 4 * |objects| + |end| <= buf.Length
    modifies buf
    ensures n == |start| + 4 * |objects| + |end|
    ensures buf[..n] == start + ObjectBytes(objects) + end
  {
    PutTokens(buf, start, 0);
    n := |start|;
    for i := 0 to |objects|
      invariant n == |start| + 4 * i
      invariant buf[..n] == start + ObjectBytes(objects[..i])
    {
      assert objects[..i + 1][..i] == objects[..i];
      PutTokens(buf, WordBytes(objects[i]), n);
      n := n + 4;
    }
    assert objects[..|objects|] == objects;
    PutTokens(buf, end, n);
    n := n + |end|;
  }

  /** A run of `*pbuf++ = ...` stores. */
  method PutTokens(buf: array<bv8>, bytes: seq<bv8>, at: nat)
    requires at + |bytes| <= buf.Length
    modifies buf
    ensures buf[..at + |bytes|] == old(buf[..at]) + bytes
  {
    for i := 0 to |bytes|
      invariant buf[..at + i] == old(buf[..at]) + bytes[..i]
    {
      buf[at + i] := bytes[i];
      assert buf[..at + i + 1] == buf[..at + i] + [bytes[i]];
    }
  }

  // ---------------------------------------------------------------- receive FIFO

  const RX_TOKEN_BITS: bv8 := 0xE0
  const RX_SOP: bv8 := 0xE0

  /** Reading `n` bytes from the FIFO register; an exhausted FIFO reads as zeros. */
  function Take(fifo: seq<bv8>, n: nat): (r: (seq<bv8>, seq<bv8>))
    ensures |r.0| == n && |r.1| <= |fifo|
    ensures n <= |fifo| ==> r.0 == fifo[..n] && r.1 == fifo[n..]
  {
    if n <= |fifo| then (fifo[..n], fifo[n..]) else (fifo + seq(n - |fifo|, _ => 0), [])
  }

  datatype Received = Received(ok: bool, msg: PdMsg, rest: seq<bv8>)

  /** The part of `read_message` after the header: objects, then the CRC. */
  function ReadBody(sop: bool, h: Header, fifo: seq<bv8>): (r: Received)
    ensures |r.rest| <= |fifo|
  {
    var (body, f1) := Take(fifo, 4 * h.num);
    Received(sop, PdMsg(h.kind, h.specRev, h.id, h.extended, Objects(body)), Take(f1, 4).1)
  }

  /** `read_message` with the bus lock held: token, header, as many objects as the header
      announces, and the CRC. */
  function ReadMessage(fifo: seq<bv8>): (r: Received)
    ensures fifo != [] ==> |r.rest| < |fifo|
  {
    var (token, f1) := Take(fifo, 1);
    var (half, f2) := Take(f1, 2);
    ReadBody(token[0] & RX_TOKEN_BITS == RX_SOP, DecodeHeader(Half(half[0], half[1])), f2)
  }

  /** From the bytes themselves: a token whose top three bits are set is SOP; the header is
      little-endian and announces the objects; they are followed by four bytes of CRC. */
  lemma ReadsFromBytes(token: bv8, h: bv16, body: seq<bv8>, crc: seq<bv8>, more: seq<bv8>)
    requires |body| == 4 * CountOf((h >> 12) & 0x7) && |crc| == 4
    ensures ReadMessage([token, (h & 0xFF) as bv8, ((h >> 8) & 0xFF) as bv8] + body + crc + more) ==
              Received(token & 0xE0 == 0xE0,
                       PdMsg((h & 0x1F) as bv8, ((h >> 6) & 0x3) as bv8, ((h >> 9) & 0x7) as bv8,
                             ((h >> 15) & 1) == 1, Objects(body)),
                       more)
  {
    var lo, hi := Lo(h), Hi(h);
    HalfRoundTrip(h);
    Opening(token, lo, hi, body + crc + more);
    assert [token, lo, hi] + body + crc + more == [token, lo, hi] + (body + crc + more);
    ReadParts(token, lo, hi, body + crc + more);
    ReadBodyParts(token & RX_TOKEN_BITS == RX_SOP, DecodeHeader(h), body, crc, more);
  }

  lemma Opening(token: bv8, lo: bv8, hi: bv8, rest: seq<bv8>)
    ensures [token, lo, hi] + rest == [token] + [lo, hi] + rest
  {
  }

  /** A packet as the PHY leaves it in the FIFO: any start-of-packet token, a payload and a
      CRC of four bytes. */
  datatype Packet = Packet(token: bv8, msg: PdMsg, crc: seq<bv8>)

  predicate GoodPacket(p: Packet) {
    WellFormed(p.msg) && |p.crc| == 4
  }

  function PacketBytes(p: Packet): seq<bv8>
    requires GoodPacket(p)
  {
    [p.token] + Payload(p.msg) + p.crc
  }

  lemma ReadBodyParts(sop: bool, h: Header, body: seq<bv8>, crc: seq<bv8>, more: seq<bv8>)
    requires |body| == 4 * h.num && |crc| == 4
    ensures ReadBody(sop, h, body + crc + more)
            == Received(sop, PdMsg(h.kind, h.specRev, h.id, h.extended, Objects(body)), more)
  {
    assert (body + crc + more)[..|body|] == body;
    assert (body + crc + more)[|body|..] == crc + more;
    assert (crc + more)[4..] == more;
  }

  lemma ReadParts(token: bv8, lo: bv8, hi: bv8, rest: seq<bv8>)
    ensures ReadMessage([token] + [lo, hi] + rest)
            == ReadBody(token & RX_TOKEN_BITS == RX_SOP, DecodeHeader(Half(lo, hi)), rest)
  {
    var fifo := [token] + [lo, hi] + rest;
    assert fifo[1..] == [lo, hi] + rest;
    assert fifo[1..][2..] == rest;
  }

  /** Reading the bytes of one packet recovers its message and consumes exactly them. */
  lemma ReadPacket(p: Packet, more: seq<bv8>)
    requires GoodPacket(p)
    ensures ReadMessage(PacketBytes(p) + more) == Received(p.token & RX_TOKEN_BITS == RX_SOP, p.msg, more)
  {
    var h := CodedHeader(p.msg);
    HalfRoundTrip(h);
    HeaderRoundTrip(p.msg);
    ObjectsRoundTrip(p.msg.objects);
    var body := ObjectBytes(p.msg.objects);
    Regroup(p.token, [Lo(h), Hi(h)], body, p.crc, more);
    ReadParts(p.token, Lo(h), Hi(h), body + p.crc + more);
    ReadBodyParts(p.token & RX_TOKEN_BITS == RX_SOP, DecodeHeader(h), body, p.crc, more);
  }

  lemma Regroup(token: bv8, half: seq<bv8>, body: seq<bv8>, crc: seq<bv8>, more: seq<bv8>)
    ensures [token] + (half + body) + crc + more == [token] + half + (body + crc + more)
  {
  }

  /** What was sent is what is read: the payload inside a transmitted frame, delivered behind
      a start-of-packet token, decodes to the message. */
  lemma SendThenRead(m: PdMsg, crc: seq<bv8>)
    requires WellFormed(m) && |crc| == 4
    ensures var n := |Payload(m)|;
            5 + n <= |Frame(m)| && ReadMessage([RX_SOP] + Frame(m)[5..5 + n] + crc) == Received(true, m, [])
  {
    FrameShape(m);
    ReadPacket(Packet(RX_SOP, m, crc), []);
    assert PacketBytes(Packet(RX_SOP, m, crc)) + [] == [RX_SOP] + Payload(m) + crc;
  }

  // ---------------------------------------------------------------- the drain loop

  /** What one `read_message` hands to the queue. */
  function Passed(r: Received): seq<PdMsg> {
    if r.ok then [r.msg] else []
  }

  function Drained(fifo: seq<bv8>): seq<PdMsg>
    decreases |fifo|
  {
    if fifo == [] then [] else Passed(ReadMessage(fifo)) + Drained(ReadMessage(fifo).rest)
  }

  lemma DrainedAppend(queue: seq<PdMsg>, passed: seq<PdMsg>, more: seq<PdMsg>)
    ensures queue + (passed + more) == queue + passed + more
  {
  }

  /** The reader task's inner loop: read messages until RX_EMPTY, passing on the good ones. */
  method Drain(bytes: seq<bv8>) returns (delivered: seq<PdMsg>)
    ensures delivered == Drained(bytes)
  {
    var fifo := bytes;
    delivered := [];
    while fifo != []
      invariant Drained(bytes) == delivered + Drained(fifo)
      decreases |fifo|
    {
      var r := ReadMessage(fifo);
      DrainedAppend(delivered, Passed(r), Drained(r.rest));
      delivered := delivered + Passed(r);
      fifo := r.rest;
    }
  }

  function StreamBytes(ps: seq<Packet>): seq<bv8>
    requires forall i :: 0 <= i < |ps| ==> GoodPacket(ps[i])
  {
    if ps == [] then [] else PacketBytes(ps[0]) + StreamBytes(ps[1..])
  }

  /** The messages addressed to us: those behind a plain SOP token, in order. */
  function SopMessages(ps: seq<Packet>): seq<PdMsg> {
    if ps == [] then []
    else (if ps[0].token & RX_TOKEN_BITS == RX_SOP then [ps[0].msg] else []) + SopMessages(ps[1..])
  }

  /** However many packets are queued, the loop never loses its place between them. */
  lemma {:induction false} DrainStaysInSync(ps: seq<Packet>)
    requires forall i :: 0 <= i < |ps| ==> GoodPacket(ps[i])
    ensures Drained(StreamBytes(ps)) == SopMessages(ps)
  {
    if ps == [] {
    } else {
      ReadPacket(ps[0], StreamBytes(ps[1..]));
      DrainStaysInSync(ps[1..]);
    }
  }
}
