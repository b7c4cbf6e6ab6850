// Length-prefixed framing of protocol messages, and the incremental readers built on it.
//
// A frame is a four byte little-endian length followed by that many payload bytes. The
// protobuf codec is a parameter: its decoder may reject a payload, and only the session
// theorem asks that it reads back what its encoder wrote.
module Framing {
  import opened MachineInts
  import opened Wrappers

  type byte = b: int | 0 <= b < 0x100
  type bytes = seq<byte>

  const MAX_MESSAGE_SIZE: nat := 16 * 1024 * 1024

  datatype FrameError = TooLarge(size: nat) | Incomplete | Decode

  datatype WireError = Io | Disconnected | Frame(error: FrameError)

  datatype Codec<!M> = Codec(encode: M -> bytes, decode: bytes -> Option<M>)

  ghost predicate ReadsBack<M(!new)>(c: Codec<M>) {
    forall m :: c.decode(c.encode(m)) == Some(m)
  }

  // ---------------------------------------------------------------- the frame format

  function PutU32Le(n: nat): (b: bytes)
    requires n <= U32_MAX
  {
    [n % 0x100, n / 0x100 % 0x100, n / 0x1_0000 % 0x100, n / 0x100_0000]
  }

  function GetU32Le(b: bytes): nat
    requires |b| >= 4
  {
    var b0: int, b1: int, b2: int, b3: int := b[0], b[1], b[2], b[3];
    b0 + 0x100 * b1 + 0x1_0000 * b2 + 0x100_0000 * b3
  }

  lemma LengthPrefixReadsBack(n: nat, rest: bytes)
    requires n <= U32_MAX
    ensures GetU32Le(PutU32Le(n) + rest) == n
  {
    assert n / 0x100_0000 < 0x100;
    var q1 := n / 0x100;
    var q2 := n / 0x1_0000;
    assert q2 == q1 / 0x100;
    assert n / 0x100_0000 == q2 / 0x100;
    assert PutU32Le(n) + rest == [n % 0x100, q1 % 0x100, q2 % 0x100, q2 / 0x100] + rest;
  }

  // The first byte of the prefix counts ones, and each one after it 256 times as much.
  lemma LengthIsLittleEndian(n: nat)
    requires n <= U32_MAX
    ensures |PutU32Le(n)| == 4
    ensures var b := PutU32Le(n);
            n == b[0] as int + 256 * (b[1] as int + 256 * (b[2] as int + 256 * b[3] as int))
  {
    LengthPrefixReadsBack(n, []);
    assert PutU32Le(n) + [] == PutU32Le(n);
  }

  function FrameOf(payload: bytes): bytes
    requires |payload| <= MAX_MESSAGE_SIZE
  {
    PutU32Le(|payload|) + payload
  }

  // What the bytes of a stream start with, read all at once: the reference against
  // which the incremental readers are proved.
  datatype Head = NeedMore | Oversized(size: nat) | Whole(payload: bytes, rest: bytes)

  function HeadOf(stream: bytes): Head {
    if |stream| < 4 then NeedMore
    else
      var len := GetU32Le(stream);
      if len > MAX_MESSAGE_SIZE then Oversized(len)
      else if |stream| < 4 + len then NeedMore
      else Whole(stream[4..4 + len], stream[4 + len..])
  }

  lemma HeadOfFrame(payload: bytes, tail: bytes)
    requires |payload| <= MAX_MESSAGE_SIZE
    ensures HeadOf(FrameOf(payload) + tail) == Whole(payload, tail)
  {
    var s := FrameOf(payload) + tail;
    assert s == PutU32Le(|payload|) + (payload + tail);
    LengthPrefixReadsBack(|payload|, payload + tail);
    assert s[4..4 + |payload|] == payload;
    assert s[4 + |payload|..] == tail;
  }

  // Once a prefix of a stream decides what comes first, more bytes never change it.
  lemma HeadIsStable(prefix: bytes, more: bytes)
    ensures match HeadOf(prefix)
            case NeedMore => true
            case Oversized(n) => HeadOf(prefix + more) == Oversized(n)
            case Whole(p, rest) => HeadOf(prefix + more) == Whole(p, rest + more)
  {
    if |prefix| >= 4 {
      assert GetU32Le(prefix + more) == GetU32Le(prefix);
      var total := 4 + GetU32Le(prefix);
      if total <= |prefix| {
        assert (prefix + more)[4..total] == prefix[4..total];
        assert (prefix + more)[total..] == prefix[total..] + more;
      }
    }
  }

  // ---------------------------------------------------------------- buffers and sockets

  // A growable byte buffer consumed from the front.
  class ByteBuffer {
    var data: bytes

    constructor ()
      ensures data == []
    {
      data := [];
    }

    method Put(more: bytes)
      modifies this
      ensures data == old(data) + more
    {
      data := data + more;
    }

    method SplitTo(n: nat) returns (front: bytes)
      requires n <= |data|
      modifies this
      ensures front == old(data)[..n] && data == old(data)[n..]
      ensures front + data == old(data)
    {
      front := data[..n];
      data := data[n..];
    }
  }

  // One read of the socket: some bytes, or a failure. Reading nothing means end of stream.
  datatype Chunk = Data(bytes: bytes) | Fault

  // The bytes reads will deliver before the stream ends or fails.
  function Delivered(chunks: seq<Chunk>): bytes {
    if chunks == [] || chunks[0].Fault? || chunks[0].bytes == [] then []
    else chunks[0].bytes + Delivered(chunks[1..])
  }

  // Whether the stream closes cleanly after those bytes.
  predicate ClosesCleanly(chunks: seq<Chunk>) {
    if chunks == [] then true
    else if chunks[0].Fault? then false
    else chunks[0].bytes == [] || ClosesCleanly(chunks[1..])
  }

  class Socket {
    var pending: seq<Chunk>

    constructor (chunks: seq<Chunk>)
      ensures pending == chunks
    {
      pending := chunks;
    }

    // Appends what one read returns; `n` is 0 at end of stream.
    method ReadBuf(buf: ByteBuffer) returns (n: Result<nat, WireError>)
      modifies this, buf
      ensures old(pending) == [] ==> n == Ok(0) && pending == [] && buf.data == old(buf.data)
      ensures old(pending) != [] ==> pending == old(pending)[1..]
      ensures old(pending) != [] && old(pending)[0].Fault? ==> n == Err(Io) && buf.data == old(buf.data)
      ensures old(pending) != [] && old(pending)[0].Data?
              ==> n == Ok(|old(pending)[0].bytes|) && buf.data == old(buf.data) + old(pending)[0].bytes
    {
      if pending == [] {
        return Ok(0);
      }
      var next := pending[0];
      pending := pending[1..];
      match next
      case Fault => n := Err(Io);
      case Data(b) =>
        buf.Put(b);
        n := Ok(|b|);
    }
  }

  // ---------------------------------------------------------------- encoding and decoding

  method EncodeFrame<M>(c: Codec<M>, msg: M, buf: ByteBuffer) returns (r: Result<(), FrameError>)
    modifies buf
    ensures |c.encode(msg)| <= MAX_MESSAGE_SIZE ==> r == Ok(()) && buf.data == old(buf.data) + FrameOf(c.encode(msg))
    ensures |c.encode(msg)| > MAX_MESSAGE_SIZE ==> buf.data == old(buf.data)
    ensures |c.encode(msg)| > MAX_MESSAGE_SIZE
            ==> r == Err(TooLarge(if |c.encode(msg)| > U32_MAX then U32_MAX else |c.encode(msg)|))
  {
    var payload := c.encode(msg);
    if |payload| > U32_MAX {
      return Err(TooLarge(U32_MAX));
    }
    if |payload| > MAX_MESSAGE_SIZE {
      return Err(TooLarge(|payload|));
    }
    buf.Put(PutU32Le(|payload|));
    buf.Put(payload);
    r := Ok(());
  }

  // The outcome of decoding a stream that starts with `head`.
  function Decoded<M>(c: Codec<M>, head: Head): Result<M, FrameError> {
    match head
    case NeedMore => Err(Incomplete)
    case Oversized(n) => Err(TooLarge(n))
    case Whole(payload, _) =>
      match c.decode(payload)
      case Some(m) => Ok(m)
      case None => Err(Decode)
  }

  method DecodeFrame<M>(c: Codec<M>, buf: ByteBuffer) returns (r: Result<M, FrameError>)
    modifies buf
    ensures r == Decoded(c, HeadOf(old(buf.data)))
    ensures HeadOf(old(buf.data)).Whole? ==> buf.data == HeadOf(old(buf.data)).rest
    ensures !HeadOf(old(buf.data)).Whole? ==> buf.data == old(buf.data)
  {
    if |buf.data| < 4 {
      return Err(Incomplete);
    }
    var len := GetU32Le(buf.data);
    if len > MAX_MESSAGE_SIZE {
      return Err(TooLarge(len));
    }
    if |buf.data| < 4 + len {
      return Err(Incomplete);
    }
    var prefix := buf.SplitTo(4);
    var payload := buf.SplitTo(len);
    assert payload == old(buf.data)[4..4 + len];
    match c.decode(payload)
    case Some(m) => r := Ok(m);
    case None => r := Err(Decode);
  }

  // ---------------------------------------------------------------- the incremental readers

  // A link as one value: what is buffered and what the socket has yet to deliver.
  datatype Link = Link(buffered: bytes, pending: seq<Chunk>) {
    function Total(): bytes { buffered + Delivered(pending) }
  }

  // What a reader that waits for a whole frame must answer, judged on all the bytes of
  // the link at once.
  function Answer<M>(c: Codec<M>, link: Link): Result<Option<M>, WireError> {
    match HeadOf(link.Total())
    case NeedMore => if ClosesCleanly(link.pending) then Ok(None) else Err(Io)
    case _ =>
      match Decoded(c, HeadOf(link.Total()))
      case Ok(m) => Ok(Some(m))
      case Err(e) => Err(Frame(e))
  }

  // How a read that answers leaves the link: exactly one frame fewer, or nothing lost.
  ghost predicate Consumes(before: Link, after: Link) {
    match HeadOf(before.Total())
    case NeedMore => after.buffered == before.Total()
    case Oversized(_) =>
      after.Total() == before.Total() && ClosesCleanly(after.pending) == ClosesCleanly(before.pending)
    case Whole(_, rest) => after.Total() == rest && ClosesCleanly(after.pending) == ClosesCleanly(before.pending)
  }

  // The reading half after the split.
  class DaemonReader {
    const stream: Socket
    const readBuf: ByteBuffer

    constructor (stream: Socket, readBuf: ByteBuffer)
      ensures this.stream == stream && this.readBuf == readBuf
    {
      this.stream := stream;
      this.readBuf := readBuf;
    }

    ghost function State(): Link
      reads stream, readBuf
    {
      Link(readBuf.data, stream.pending)
    }

    method Recv<M>(c: Codec<M>) returns (r: Result<Option<M>, WireError>)
      modifies stream, readBuf
      ensures r == Answer(c, old(State()))
      ensures Consumes(old(State()), State())
    {
      ghost var start := State();
      while true
        invariant State().Total() == start.Total()
        invariant ClosesCleanly(stream.pending) == ClosesCleanly(start.pending)
        decreases |stream.pending|
      {
        ghost var buffered, ahead := readBuf.data, Delivered(stream.pending);
        HeadIsStable(buffered, ahead);
        var decoded := DecodeFrame(c, readBuf);
        match decoded {
          case Ok(m) => return Ok(Some(m));
          case Err(e) =>
            if !e.Incomplete? {
              return Err(Frame(e));
            }
        }
        var n := stream.ReadBuf(readBuf);
        match n {
          case Err(e) => return Err(e);
          case Ok(k) =>
            if k == 0 {
              return Ok(None);
            }
        }
      }
    }
  }

  // The connection before the split: used for the handshake and the first requests.
  class DaemonConnection {
    const reader: Socket
    const readBuf: ByteBuffer

    constructor (reader: Socket)
      ensures this.reader == reader && fresh(readBuf)
      ensures State() == Link([], reader.pending)
    {
      this.reader := reader;
      this.readBuf := new ByteBuffer();
    }

    ghost function State(): Link
      reads reader, readBuf
    {
      Link(readBuf.data, reader.pending)
    }

    method RecvEnvelope<M>(c: Codec<M>) returns (r: Result<Option<M>, WireError>)
      modifies reader, readBuf
      ensures r == Answer(c, old(State()))
      ensures Consumes(old(State()), State())
    {
      ghost var start := State();
      while true
        invariant State().Total() == start.Total()
        invariant ClosesCleanly(reader.pending) == ClosesCleanly(start.pending)
        decreases |reader.pending|
      {
        HeadIsStable(readBuf.data, Delivered(reader.pending));
        var decoded := DecodeFrame(c, readBuf);
        match decoded {
          case Ok(m) => return Ok(Some(m));
          case Err(e) =>
            if !e.Incomplete? {
              return Err(Frame(e));
            }
        }
        var n := reader.ReadBuf(readBuf);
        match n {
          case Err(e) => return Err(e);
          case Ok(k) =>
            if k == 0 {
              return Ok(None);
            }
        }
      }
    }

    // Takes a whole frame off the buffer, length prefix included, if there is one.
    method TakeRawFrame() returns (r: Option<Result<bytes, FrameError>>)
      modifies readBuf
      ensures match HeadOf(old(readBuf.data))
              case NeedMore => r == None && readBuf.data == old(readBuf.data)
              case Oversized(n) => r == Some(Err(TooLarge(n))) && readBuf.data == old(readBuf.data)
              case Whole(payload, rest) =>
                && r.Some? && r.value.Ok?
                && r.value.value + rest == old(readBuf.data) && readBuf.data == rest
                && |r.value.value| == 4 + |payload| && r.value.value[4..] == payload
    {
      if |readBuf.data| < 4 {
        return None;
      }
      var len := GetU32Le(readBuf.data);
      if len > MAX_MESSAGE_SIZE {
        return Some(Err(TooLarge(len)));
      }
      var total := 4 + len;
      if |readBuf.data| < total {
        return None;
      }
      ghost var buffered := readBuf.data;
      var frame := readBuf.SplitTo(total);
      assert frame[4..] == buffered[4..total];
      return Some(Ok(frame));
    }

    // Reads one frame, length prefix included, without decoding it.
    method ReadRawFrame() returns (r: Result<Option<bytes>, WireError>)
      modifies reader, readBuf
      ensures Consumes(old(State()), State())
      ensures match HeadOf(old(State()).Total())
              case NeedMore => r == if ClosesCleanly(old(State()).pending) then Ok(None) else Err(Io)
              case Oversized(n) => r == Err(Frame(TooLarge(n)))
              case Whole(payload, rest) =>
                && r.Ok? && r.value.Some?
                && r.value.value + rest == old(State()).Total()
                && |r.value.value| == 4 + |payload| && r.value.value[4..] == payload
    {
      ghost var start := State();
      while true
        invariant State().Total() == start.Total()
        invariant ClosesCleanly(reader.pending) == ClosesCleanly(start.pending)
        decreases |reader.pending|
      {
        HeadIsStable(readBuf.data, Delivered(reader.pending));
        ghost var buffered, ahead := readBuf.data, Delivered(reader.pending);
        var taken := TakeRawFrame();
        match taken {
          case None =>
          case Some(Err(e)) => return Err(Frame(e));
          case Some(Ok(frame)) =>
            assert frame + (readBuf.data + ahead) == buffered + ahead;
            return Ok(Some(frame));
        }
        var n := reader.ReadBuf(readBuf);
        match n {
          case Err(e) => return Err(e);
          case Ok(k) =>
            if k == 0 {
              return Ok(None);
            }
        }
      }
    }

    // Hands the socket and every buffered byte to the reading half.
    method IntoSplit() returns (half: DaemonReader)
      ensures fresh(half) && half.stream == reader && half.readBuf == readBuf
      ensures half.State() == State()
    {
      half := new DaemonReader(reader, readBuf);
    }
  }

  // ---------------------------------------------------------------- whole sessions

  predicate Fits<M>(c: Codec<M>, msgs: seq<M>) {
    |msgs| == 0 || (|c.encode(msgs[0])| <= MAX_MESSAGE_SIZE && Fits(c, msgs[1..]))
  }

  function Frames<M>(c: Codec<M>, msgs: seq<M>): bytes
    requires Fits(c, msgs)
  {
    if |msgs| == 0 then [] else FrameOf(c.encode(msgs[0])) + Frames(c, msgs[1..])
  }

  // Of a link that holds the frames of some messages and then anything else, a read answers
  // the first message and leaves the others and the rest.
  lemma MessagesComeFirst<M(!new)>(c: Codec<M>, msgs: seq<M>, tail: bytes, link: Link, after: Link)
    requires ReadsBack(c) && Fits(c, msgs) && msgs != []
    requires link.Total() == Frames(c, msgs) + tail && Consumes(link, after)
    ensures Answer(c, link) == Ok(Some(msgs[0])) && after.Total() == Frames(c, msgs[1..]) + tail
    ensures ClosesCleanly(after.pending) == ClosesCleanly(link.pending)
  {
    var payload := c.encode(msgs[0]);
    var rest := Frames(c, msgs[1..]) + tail;
    Associates(FrameOf(payload), Frames(c, msgs[1..]), tail);
    HeadOfFrame(payload, rest);
    assert HeadOf(link.Total()) == Whole(payload, rest);
  }

  lemma Associates(a: bytes, b: bytes, c: bytes)
    ensures a + b + c == a + (b + c)
  {
  }

  // A link holding the frames of `msgs`, however they are cut into chunks and however
  // much is already buffered, answers the first of them and is left with the others.
  lemma FramesReadInOrder<M(!new)>(c: Codec<M>, msgs: seq<M>, link: Link, after: Link)
    requires ReadsBack(c) && Fits(c, msgs)
    requires link.Total() == Frames(c, msgs) && ClosesCleanly(link.pending)
    requires Consumes(link, after)
    ensures msgs == [] ==> Answer(c, link) == Ok(None) && after.buffered == []
    ensures msgs != [] ==> && Answer(c, link) == Ok(Some(msgs[0]))
                           && after.Total() == Frames(c, msgs[1..]) && ClosesCleanly(after.pending)
  {
    if msgs != [] {
      assert Frames(c, msgs) + [] == Frames(c, msgs) && Frames(c, msgs[1..]) + [] == Frames(c, msgs[1..]);
      MessagesComeFirst(c, msgs, [], link, after);
    }
  }

  // A frame whose payload the decoder rejects is reported, and the reads after it see
  // exactly the stream that follows it.
  lemma BadPayloadKeepsFraming<M>(c: Codec<M>, payload: bytes, tail: bytes, link: Link, after: Link)
    requires |payload| <= MAX_MESSAGE_SIZE && c.decode(payload) == None
    requires link.Total() == FrameOf(payload) + tail && Consumes(link, after)
    ensures Answer(c, link) == Err(Frame(Decode)) && after.Total() == tail
  {
    HeadOfFrame(payload, tail);
  }

  // Fewer bytes than the frame they start needs.
  predicate IsPartial(stream: bytes) {
    |stream| < 4 || (GetU32Le(stream) <= MAX_MESSAGE_SIZE && |stream| < 4 + GetU32Le(stream))
  }

  // A read reports a clean end exactly when the stream closes before it holds a whole
  // frame or an oversized length, and every byte it then leaves behind is lost: it does so
  // whether the stream ends between two frames or inside one.
  lemma CleanEndIffPartial<M>(c: Codec<M>, link: Link, after: Link)
    requires Consumes(link, after)
    ensures Answer(c, link) == Ok(None) <==> ClosesCleanly(link.pending) && IsPartial(link.Total())
    ensures Answer(c, link) == Ok(None) ==> after.buffered == link.Total()
  {
  }

  // A stream that fails inside a frame is an input/output error, and a length over 16 MiB
  // is refused with that very length as soon as its four bytes are there.
  lemma FailuresAreTold<M>(c: Codec<M>, link: Link, size: nat)
    ensures Answer(c, link) == Err(Io) <==> !ClosesCleanly(link.pending) && IsPartial(link.Total())
    ensures Answer(c, link) == Err(Frame(TooLarge(size)))
            <==> |link.Total()| >= 4 && GetU32Le(link.Total()) == size && size > 16_777_216
  {
  }

  lemma PartialOfFrame(payload: bytes, cut: nat)
    requires |payload| <= MAX_MESSAGE_SIZE && cut < 4 + |payload|
    ensures IsPartial(FrameOf(payload)[..cut])
  {
    LengthPrefixReadsBack(|payload|, payload);
    if cut >= 4 {
      assert GetU32Le(FrameOf(payload)[..cut]) == GetU32Le(FrameOf(payload));
    }
  }

  // In a stream cut inside its first frame the read reports a clean end.
  lemma TruncatedFrameEndsCleanly<M>(c: Codec<M>, payload: bytes, cut: nat, link: Link, after: Link)
    requires |payload| <= MAX_MESSAGE_SIZE && cut < 4 + |payload|
    requires link.Total() == FrameOf(payload)[..cut] && ClosesCleanly(link.pending)
    requires Consumes(link, after)
    ensures Answer(c, link) == Ok(None) && after.buffered == FrameOf(payload)[..cut]
  {
    PartialOfFrame(payload, cut);
    CleanEndIffPartial(c, link, after);
  }

  // Takes the handshake reply off the connection as a raw frame.
  method ReadHello(conn: DaemonConnection, ghost hello: bytes, ghost tail: bytes) returns (greeting: bytes)
    requires |hello| <= MAX_MESSAGE_SIZE
    requires conn.State().Total() == FrameOf(hello) + tail && ClosesCleanly(conn.reader.pending)
    modifies conn.reader, conn.readBuf
    ensures greeting == hello
    ensures conn.State().Total() == tail && ClosesCleanly(conn.reader.pending)
  {
    HeadOfFrame(hello, tail);
    var raw := conn.ReadRawFrame();
    greeting := raw.value.value[4..];
  }

  method ReadNext<M(!new)>(c: Codec<M>, conn: DaemonConnection, ghost msgs: seq<M>) returns (m: M)
    requires ReadsBack(c) && Fits(c, msgs) && |msgs| > 0
    requires conn.State().Total() == Frames(c, msgs) && ClosesCleanly(conn.reader.pending)
    modifies conn.reader, conn.readBuf
    ensures m == msgs[0]
    ensures conn.State().Total() == Frames(c, msgs[1..]) && ClosesCleanly(conn.reader.pending)
  {
    ghost var before := conn.State();
    var next := conn.RecvEnvelope(c);
    FramesReadInOrder(c, msgs, before, conn.State());
    m := next.value.value;
  }

  // Reads `early` messages over the unsplit connection; `rest` are those still to come.
  method ReadEarly<M(!new)>(c: Codec<M>, conn: DaemonConnection, early: nat, ghost msgs: seq<M>)
    returns (received: seq<M>, ghost rest: seq<M>)
    requires ReadsBack(c) && Fits(c, msgs) && early <= |msgs|
    requires conn.State().Total() == Frames(c, msgs) && ClosesCleanly(conn.reader.pending)
    modifies conn.reader, conn.readBuf
    ensures received == msgs[..early] && rest == msgs[early..]
    ensures Fits(c, rest) && conn.State().Total() == Frames(c, rest) && ClosesCleanly(conn.reader.pending)
    decreases early
  {
    if early == 0 {
      return [], msgs;
    }
    var m := ReadNext(c, conn, msgs);
    received, rest := ReadEarly(c, conn, early - 1, msgs[1..]);
    received := [m] + received;
  }

  // Reads from the reading half until the stream closes.
  method ReadToEnd<M(!new)>(c: Codec<M>, half: DaemonReader, ghost msgs: seq<M>) returns (received: seq<M>)
    requires ReadsBack(c) && Fits(c, msgs)
    requires half.State().Total() == Frames(c, msgs) && ClosesCleanly(half.stream.pending)
    modifies half.stream, half.readBuf
    ensures received == msgs
    decreases |msgs|
  {
    ghost var before := half.State();
    var next := half.Recv(c);
    FramesReadInOrder(c, msgs, before, half.State());
    match next.value {
      case None => received := [];
      case Some(m) =>
        received := ReadToEnd(c, half, msgs[1..]);
        received := [m] + received;
    }
  }

  // Splits the connection and reads what is still to come from the reading half.
  method ReadSplit<M(!new)>(c: Codec<M>, conn: DaemonConnection, ghost msgs: seq<M>) returns (received: seq<M>)
    requires ReadsBack(c) && Fits(c, msgs)
    requires conn.State().Total() == Frames(c, msgs) && ClosesCleanly(conn.reader.pending)
    modifies conn.reader, conn.readBuf
    ensures received == msgs
  {
    var half := conn.IntoSplit();
    received := ReadToEnd(c, half, msgs);
  }

  method ReadMessages<M(!new)>(c: Codec<M>, conn: DaemonConnection, early: nat, ghost msgs: seq<M>)
    returns (received: seq<M>)
    requires ReadsBack(c) && Fits(c, msgs) && early <= |msgs|
    requires conn.State().Total() == Frames(c, msgs) && ClosesCleanly(conn.reader.pending)
    modifies conn.reader, conn.readBuf
    ensures received == msgs
  {
    ghost var rest;
    received, rest := ReadEarly(c, conn, early, msgs);
    var others := ReadSplit(c, conn, rest);
    received := received + others;
    assert msgs == msgs[..early] + msgs[early..];
  }

  // A whole session: the handshake reply is taken raw, `early` messages are read from the
  // unsplit connection and the others from the reading half. Every message arrives, in
  // order, for every chunking of the stream and every moment of the split.
  method ReadSession<M(!new)>(c: Codec<M>, conn: DaemonConnection, early: nat, ghost hello: bytes, ghost msgs: seq<M>)
    returns (greeting: bytes, received: seq<M>)
    requires ReadsBack(c) && Fits(c, msgs) && early <= |msgs| && |hello| <= MAX_MESSAGE_SIZE
    requires conn.State().Total() == FrameOf(hello) + Frames(c, msgs) && ClosesCleanly(conn.reader.pending)
    modifies conn.reader, conn.readBuf
    ensures greeting == hello
    ensures received == msgs
  {
    greeting := ReadHello(conn, hello, Frames(c, msgs));
    received := ReadMessages(c, conn, early, msgs);
  }
}
