/** Frames: a head of sixteen bytes with the operation code and the size of the body, and the body. */
module Framing {
  import opened TextStream
  import opened Wire
  import S = CodecServer
  import C = CodecClient

  const MARK: u32 := 0xFFFF_FFFF
  const HEAD_SIZE: nat := 16

  function HeadBytes(opcode: u32, bodysize: u32): seq<byte> {
    U32Bytes(MARK) + U32Bytes(opcode) + U32Bytes(bodysize) + U32Bytes(MARK)
  }

  function Frame(opcode: u32, body: seq<byte>): seq<byte> {
    HeadBytes(opcode, Count(|body|)) + body
  }

  // ---------------------------------------------------------------- writing a frame

  /** `Send::Enqueue` of the server. */
  method ServerEnqueue(opcode: u32, body: seq<byte>) returns (data: seq<byte>)
    ensures data == Frame(opcode, body)
  {
    var buffer := new S.Buffer([]);
    buffer.WriteUInt32(MARK);
    buffer.WriteUInt32(opcode);
    buffer.WriteUInt32(Count(|body|));
    buffer.WriteUInt32(MARK);
    buffer.data := buffer.data + body;
    data := buffer.data;
  }

  /** The head as the client first writes it, with zero for the size. */
  method WriteHead(opcode: u32, littleEndian: bool) returns (buffer: C.Buffer, indexBodySize: nat)
    ensures fresh(buffer) && buffer.Valid() && indexBodySize == 8
    ensures buffer.data == HeadBytes(opcode, 0)
  {
    buffer := new C.Buffer([], littleEndian);
    buffer.WriteUInt32(MARK);
    buffer.WriteUInt32(opcode);
    indexBodySize := |buffer.data|;
    buffer.WriteUInt32(0);
    buffer.WriteUInt32(MARK);
    FillHead(buffer);
  }

  function Zeros(n: nat): seq<byte> {
    if n == 0 then [] else Zeros(n - 1) + [0]
  }

  /** Zeros up to the size of a head. */
  method FillHead(buffer: C.Buffer)
    requires buffer.Valid()
    modifies buffer`data
    ensures buffer.Valid()
    ensures buffer.data
         == old(buffer.data) + if |old(buffer.data)| < HEAD_SIZE then Zeros(HEAD_SIZE - |old(buffer.data)|) else []
  {
    var i, l := 0, |buffer.data|;
    while i < HEAD_SIZE - l
      invariant buffer.Valid() && 0 <= i && (i <= HEAD_SIZE - l || i == 0)
      invariant buffer.data == old(buffer.data) + Zeros(i)
    {
      buffer.WriteUInt8(0);
      i := i + 1;
    }
  }

  /** The size is pushed at the end, popped byte by byte, and put into its place. */
  method PatchBodySize(buffer: C.Buffer, indexBodySize: nat, bodysize: u32)
    requires buffer.Valid() && indexBodySize + 4 <= |buffer.data|
    modifies buffer`data
    ensures buffer.Valid()
    ensures buffer.data
         == old(buffer.data)[..indexBodySize] + U32Bytes(bodysize) + old(buffer.data)[indexBodySize + 4..]
  {
    ghost var was := buffer.data;
    var n := |buffer.data|;
    buffer.WriteUInt32(bodysize);
    var d, c, b, a := buffer.data[n + 3], buffer.data[n + 2], buffer.data[n + 1], buffer.data[n];
    buffer.data := buffer.data[..n];
    assert buffer.data == was;
    buffer.data := buffer.data[indexBodySize := a][indexBodySize + 1 := b]
                              [indexBodySize + 2 := c][indexBodySize + 3 := d];
  }

  lemma Patched(opcode: u32, bodysize: u32, body: seq<byte>)
    ensures var data := HeadBytes(opcode, 0) + body;
            data[..8] + U32Bytes(bodysize) + data[12..] == HeadBytes(opcode, bodysize) + body
  {
    var data := HeadBytes(opcode, 0) + body;
    assert data[..8] == U32Bytes(MARK) + U32Bytes(opcode);
    assert data[12..] == U32Bytes(MARK) + body;
  }

  /** `Send.Enqueue` of the client: the size is patched into the head after the body is written, and the
      frame is the same that the server would write. */
  method ClientEnqueue(opcode: u32, body: seq<byte>, littleEndian: bool) returns (data: seq<byte>)
    ensures data == Frame(opcode, body)
  {
    var buffer, indexBodySize := WriteHead(opcode, littleEndian);
    var begin := |buffer.data|;
    for j := 0 to |body|
      invariant buffer.Valid() && buffer.data == HeadBytes(opcode, 0) + body[..j]
    {
      buffer.data := buffer.data + [body[j]];
    }
    assert body[..|body|] == body;
    var end := |buffer.data|;
    PatchBodySize(buffer, indexBodySize, Count(end - begin));
    Patched(opcode, Count(|body|), body);
    data := buffer.data;
  }

  // ---------------------------------------------------------------- splitting a stream

  datatype Packet = Packet(opcode: u32, body: seq<byte>)

  datatype Taken = Taken(packet: Packet, rest: seq<byte>) | Refused

  function Take(s: seq<byte>, n: nat): seq<byte> {
    if n <= |s| then s[..n] else s
  }

  function Drop(s: seq<byte>, n: nat): (r: seq<byte>)
    ensures |r| <= |s| && (n > 0 && s != [] ==> |r| < |s|)
  {
    if n <= |s| then s[n..] else []
  }

  /** The bytes of a buffer with the given size after it has received what is left of the stream. */
  function Filled(s: seq<byte>, n: nat): (r: seq<byte>)
    ensures |r| == n && (n <= |s| ==> r == s[..n])
  {
    if n <= |s| then s[..n] else s + seq(n - |s|, _ => 0)
  }

  /** Only as many bytes as were received matter. */
  lemma FilledOfTake(s: seq<byte>, n: nat)
    ensures Filled(Take(s, n), n) == Filled(s, n)
  {
  }

  datatype Head = Head(opcode: u32, bodysize: u32)

  function ClientHead(h: seq<byte>): Head {
    var begin := C.U32(Some(h));
    var opcode := C.U32(begin.rest);
    var bodysize := C.U32(opcode.rest);
    Head(opcode.value, bodysize.value)
  }

  function ServerHead(h: seq<byte>): Head {
    var begin := S.U32(Some(h));
    var opcode := S.U32(begin.rest);
    var bodysize := S.U32(opcode.rest);
    Head(opcode.value, bodysize.value)
  }

  /** The client's `ReceivePacket`; every receive call gets all the bytes it asks for, as far as the
      stream goes. */
  function ClientTake(s: seq<byte>): (r: Taken)
    ensures r.Taken? ==> |r.rest| < |s|
  {
    if s == [] then Refused
    else
      var head := ClientHead(Take(s, HEAD_SIZE));
      var rest := Drop(s, HEAD_SIZE);
      Taken(Packet(head.opcode, Take(rest, head.bodysize)), Drop(rest, head.bodysize))
  }

  /** The server's `onSocketReadable`: a head must be whole and its size, a signed number, positive: an
      empty buffer has no first byte to receive into. A body that is cut short is filled with zeros. */
  function ServerTake(s: seq<byte>): (r: Taken)
    ensures r.Taken? ==> |r.rest| < |s|
  {
    if |s| < HEAD_SIZE then Refused
    else
      var head, rest := ServerHead(Take(s, HEAD_SIZE)), Drop(s, HEAD_SIZE);
      if head.bodysize == 0 || head.bodysize >= 0x8000_0000 then Refused
      else Taken(Packet(head.opcode, Filled(rest, head.bodysize)), Drop(rest, head.bodysize))
  }

  function Split(take: seq<byte> -> Taken, s: seq<byte>): seq<Packet>
    requires forall t :: take(t).Taken? ==> |take(t).rest| < |t|
    decreases |s|
  {
    match take(s)
    case Refused => []
    case Taken(packet, rest) => [packet] + Split(take, rest)
  }

  function Stream(ps: seq<Packet>): seq<byte> {
    if ps == [] then [] else Frame(ps[0].opcode, ps[0].body) + Stream(ps[1..])
  }

  lemma HeadIsRead(opcode: u32, bodysize: u32)
    ensures |HeadBytes(opcode, bodysize)| == HEAD_SIZE
    ensures ClientHead(HeadBytes(opcode, bodysize)) == Head(opcode, bodysize)
    ensures ServerHead(HeadBytes(opcode, bodysize)) == Head(opcode, bodysize)
  {
    var h := HeadBytes(opcode, bodysize);
    U32Back(opcode);
    U32Back(bodysize);
    assert h[4..] == U32Bytes(opcode) + U32Bytes(bodysize) + U32Bytes(MARK);
    assert h[4..][4..] == U32Bytes(bodysize) + U32Bytes(MARK);
  }

  lemma HeadParts(h: seq<byte>, body: seq<byte>, rest: seq<byte>)
    requires |h| == HEAD_SIZE
    ensures var s := h + body + rest; |s| >= HEAD_SIZE && Take(s, HEAD_SIZE) == h && Drop(s, HEAD_SIZE) == body + rest
    ensures Take(body + rest, |body|) == body && Drop(body + rest, |body|) == rest
  {
  }

  lemma ClientTakesHead(h: seq<byte>, opcode: u32, body: seq<byte>, rest: seq<byte>)
    requires |h| == HEAD_SIZE && |body| < 0x1_0000_0000 && ClientHead(h) == Head(opcode, |body|)
    ensures ClientTake(h + body + rest) == Taken(Packet(opcode, body), rest)
  {
    HeadParts(h, body, rest);
  }

  lemma ServerTakesHead(h: seq<byte>, opcode: u32, body: seq<byte>, rest: seq<byte>)
    requires |h| == HEAD_SIZE && 0 < |body| < 0x8000_0000 && ServerHead(h) == Head(opcode, |body|)
    ensures ServerTake(h + body + rest) == Taken(Packet(opcode, body), rest)
  {
    HeadParts(h, body, rest);
  }

  lemma ClientTakesFrame(opcode: u32, body: seq<byte>, rest: seq<byte>)
    requires |body| < 0x1_0000_0000
    ensures ClientTake(Frame(opcode, body) + rest) == Taken(Packet(opcode, body), rest)
  {
    HeadIsRead(opcode, Count(|body|));
    ClientTakesHead(HeadBytes(opcode, Count(|body|)), opcode, body, rest);
  }

  lemma ServerTakesFrame(opcode: u32, body: seq<byte>, rest: seq<byte>)
    requires 0 < |body| < 0x8000_0000
    ensures ServerTake(Frame(opcode, body) + rest) == Taken(Packet(opcode, body), rest)
  {
    HeadIsRead(opcode, Count(|body|));
    ServerTakesHead(HeadBytes(opcode, Count(|body|)), opcode, body, rest);
  }

  /** The client splits any sequence of frames into their packets. */
  lemma {:induction false} ClientSplits(ps: seq<Packet>)
    requires forall i | 0 <= i < |ps| :: |ps[i].body| < 0x1_0000_0000
    ensures Split(ClientTake, Stream(ps)) == ps
  {
    if ps != [] {
      ClientTakesFrame(ps[0].opcode, ps[0].body, Stream(ps[1..]));
      ClientSplits(ps[1..]);
    }
  }

  /** The server splits any sequence of frames with bodies into their packets. */
  lemma {:induction false} ServerSplits(ps: seq<Packet>)
    requires forall i | 0 <= i < |ps| :: 0 < |ps[i].body| < 0x8000_0000
    ensures Split(ServerTake, Stream(ps)) == ps
  {
    if ps != [] {
      ServerTakesFrame(ps[0].opcode, ps[0].body, Stream(ps[1..]));
      ServerSplits(ps[1..]);
    }
  }

  // ---------------------------------------------------------------- sockets

  class Socket {
    var stream: seq<byte>

    constructor (stream: seq<byte>)
      ensures this.stream == stream
    {
      this.stream := stream;
    }

    method Receive(n: nat) returns (bytes: seq<byte>)
      modifies this
      ensures bytes == Take(old(stream), n) && stream == Drop(old(stream), n)
    {
      bytes := Take(stream, n);
      stream := Drop(stream, n);
    }
  }

  /** `ReceivePacket` */
  method ReceivePacket(socket: Socket, littleEndian: bool) returns (packet: Option<Packet>)
    modifies socket
    ensures match ClientTake(old(socket.stream))
            case Refused => packet == None
            case Taken(p, rest) => packet == Some(p) && socket.stream == rest
  {
    ghost var s := socket.stream;
    var header := socket.Receive(HEAD_SIZE);
    if header == [] {
      return None;
    }
    var buffer := new C.Buffer(header, littleEndian);
    var _ := buffer.ReadUInt32();
    var opcode := buffer.ReadUInt32();
    var bodysize := buffer.ReadUInt32();
    var body := socket.Receive(bodysize);
    return Some(Packet(opcode, body));
  }

  /** The receive thread, until the stream ends. */
  method ReceivePackets(socket: Socket, littleEndian: bool) returns (packets: seq<Packet>)
    modifies socket
    ensures packets == Split(ClientTake, old(socket.stream))
  {
    packets := [];
    while true
      invariant packets + Split(ClientTake, socket.stream) == Split(ClientTake, old(socket.stream))
      decreases |socket.stream|
    {
      ghost var s, done := socket.stream, packets;
      var packet := ReceivePacket(socket, littleEndian);
      if packet == None {
        assert packets + [] == packets;
        return;
      }
      packets := packets + [packet.value];
      assert done + ([packet.value] + Split(ClientTake, socket.stream)) == packets + Split(ClientTake, socket.stream);
    }
  }

  /** One `onSocketReadable`: the head, then the body. */
  method OnSocketReadable(socket: Socket) returns (packet: Option<Packet>)
    modifies socket
    ensures match ServerTake(old(socket.stream))
            case Refused => packet == None
            case Taken(p, rest) => packet == Some(p) && socket.stream == rest
  {
    var data := socket.Receive(HEAD_SIZE);
    if |data| != HEAD_SIZE {
      return None;
    }
    var buffer := new S.Buffer(data);
    var _ := buffer.ReadUInt32();
    var opcode := buffer.ReadUInt32();
    var bodysize := buffer.ReadUInt32();
    if bodysize == 0 || bodysize >= 0x8000_0000 {
      return None;
    }
    FilledOfTake(socket.stream, bodysize);
    var body := socket.Receive(bodysize);
    return Some(Packet(opcode, Filled(body, bodysize)));
  }
}
