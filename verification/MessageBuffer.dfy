/** Messages on a stream buffer (lib/FreeRTOS/stream_buffer.c): one writer and one reader,
    who may interrupt each other at every update of the head or the tail. */
module MessageBuffer {
  import opened StreamBuffer
  import opened Words

  const LIMIT: nat := 0x1_0000_0000

  // sbBYTES_TO_STORE_MESSAGE_LENGTH for a 32-bit size_t
  const HEADER: nat := 4

  // The length in memory, least significant byte first
  function Encode(n: nat): (r: seq<byte>)
    requires n < LIMIT
    ensures |r| == HEADER
  {
    [(n % 256) as byte, (n / 0x100 % 256) as byte, (n / 0x1_0000 % 256) as byte, (n / 0x100_0000) as byte]
  }

  function Decode(s: seq<byte>): nat
    requires |s| == HEADER
  {
    s[0] as nat + s[1] as nat * 0x100 + s[2] as nat * 0x1_0000 + s[3] as nat * 0x100_0000
  }

  lemma DecodeEncode(n: nat)
    requires n < LIMIT
    ensures Decode(Encode(n)) == n
  {
    var q := n / 0x100;
    assert n == q * 0x100 + n % 256;
    assert q / 0x100 == n / 0x1_0000 && q / 0x1_0000 == n / 0x100_0000;
    assert q == q / 0x100 * 0x100 + q % 256;
    assert q / 0x100 == q / 0x1_0000 * 0x100 + q / 0x100 % 256;
  }

  ghost predicate Sendable(m: seq<byte>) {
    0 < |m| && |m| + HEADER < LIMIT
  }

  ghost predicate AllSendable(ms: seq<seq<byte>>) {
    forall m <- ms :: Sendable(m)
  }

  /** A message behind its length. */
  ghost function Frame(m: seq<byte>): (r: seq<byte>)
    ensures Sendable(m) ==> |r| == HEADER + |m|
  {
    if Sendable(m) then Encode(|m|) + m else []
  }

  ghost function Framed(ms: seq<seq<byte>>): seq<byte> {
    if ms == [] then [] else Frame(ms[0]) + Framed(ms[1..])
  }

  lemma Assoc(a: seq<byte>, b: seq<byte>, c: seq<byte>)
    ensures (a + b) + c == a + (b + c)
  {
  }

  lemma {:induction false} FramedAppend(ms: seq<seq<byte>>, m: seq<byte>)
    ensures Framed(ms + [m]) == Framed(ms) + Frame(m)
  {
    hide Frame;
    if ms == [] {
      assert (ms + [m])[1..] == [] && (ms + [m])[0] == m;
      assert Framed(ms + [m]) == Frame(m) + Framed([]);
    } else {
      FramedAppend(ms[1..], m);
      assert (ms + [m])[1..] == ms[1..] + [m];
      Assoc(Frame(ms[0]), Framed(ms[1..]), Frame(m));
    }
  }

  /** Where the writer is in xStreamBufferSend: it has found room, or written the length. */
  datatype Writer = Outside | Cleared(message: seq<byte>) | Headed(message: seq<byte>)
  {
    /** The length whose message is not written yet. */
    ghost function Loose(): (r: seq<byte>)
      ensures Headed? && Sendable(message) ==> |r| == HEADER
      ensures !Headed? ==> r == []
    {
      if Headed? && Sendable(message) then Encode(|message|) else []
    }

    /** The bytes still to be written. */
    ghost function Owed(): nat {
      match this
      case Outside => 0
      case Cleared(m) => HEADER + |m|
      case Headed(m) => |m|
    }
  }

  /** Where the reader is in xStreamBufferReceive: it has counted the bytes available, or
      read the length. */
  datatype Reader = Away | Sampled(available: nat) | Measured(length: nat, available: nat)

  /** The bytes stored are the unread messages, less what the reader and plus what the writer
      has done of the one in hand; neither relies on more than there is. */
  ghost predicate Steady(c: seq<byte>, length: nat, writer: Writer, reader: Reader, unread: seq<seq<byte>>) {
    && AllSendable(unread)
    && (match writer
        case Outside => true
        case Cleared(m) => Sendable(m) && |c| + HEADER + |m| < length
        case Headed(m) => Sendable(m) && |c| + |m| < length)
    && (match reader
        case Away => c == Framed(unread) + writer.Loose()
        case Sampled(available) =>
          c == Framed(unread) + writer.Loose() && unread != [] && HEADER + |unread[0]| <= available <= |c|
        case Measured(n, available) =>
          unread != [] && c == unread[0] + Framed(unread[1..]) + writer.Loose() && n == |unread[0]| <= available <= |c|)
  }

  /** As long as there is room for it, the length that was read is still in the bytes from
      `kept` on. */
  ghost predicate KeptOk(bytes: seq<byte>, kept: nat, head: nat, c: seq<byte>, unread: seq<seq<byte>>) {
    && kept < |bytes| && head < |bytes| && unread != [] && Sendable(unread[0])
    && (|c| + HEADER < |bytes| ==> Stored(bytes, kept, head) == Encode(|unread[0]|) + c)
  }

  /** Writing `data` leaves the bytes of the length alone as long as there is room. */
  lemma KeptMore(bytes: seq<byte>, bytes': seq<byte>, kept: nat, head: nat, head': nat, c: seq<byte>,
                 data: seq<byte>, unread: seq<seq<byte>>, unread': seq<seq<byte>>)
    requires KeptOk(bytes, kept, head, c, unread) && |bytes'| == |bytes| && head' < |bytes|
    requires Fits(bytes, kept, head, |data|) ==> Stored(bytes', kept, head') == Stored(bytes, kept, head) + data
    requires unread' != [] && unread'[0] == unread[0]
    ensures KeptOk(bytes', kept, head', c + data, unread')
  {
    hide Stored, Encode;
    var e := Encode(|unread[0]|);
    Assoc(e, c, data);
    if |c + data| + HEADER < |bytes| {
      assert |e + c| == HEADER + |c|;
    }
  }

  /** The tail goes back: a steady state if and only if there is room. */
  lemma WentBack(bytes: seq<byte>, kept: nat, head: nat, c: seq<byte>, writer: Writer, reader: Reader,
                 unread: seq<seq<byte>>)
    requires Steady(c, |bytes|, writer, reader, unread) && reader.Measured?
    requires KeptOk(bytes, kept, head, c, unread)
    ensures Steady(Stored(bytes, kept, head), |bytes|, writer, Away, unread)
       <==> |c| + writer.Owed() + HEADER < |bytes|
  {
    hide Encode;
    var m, rest := unread[0], Framed(unread[1..]);
    StoredLength(bytes, kept, head);
    Assoc(Encode(|m|), m, rest);
    Assoc(Encode(|m|), m + rest, writer.Loose());
    assert Encode(|m|) + c == Framed(unread) + writer.Loose();
    hide Stored, Framed;
  }

  /** More than a length is stored just when a whole message is, and it comes first. */
  lemma FirstMessage(c: seq<byte>, length: nat, writer: Writer, reader: Reader, unread: seq<seq<byte>>)
    requires Steady(c, length, writer, reader, unread) && !reader.Measured?
    ensures |c| > HEADER <==> unread != []
    ensures |c| > 0 <==> unread != [] || writer.Headed?
    ensures unread != [] ==>
      && Sendable(unread[0]) && HEADER + |unread[0]| <= |c| && c[..HEADER] == Encode(|unread[0]|)
      && Decode(c[..HEADER]) == |unread[0]|
      && c[HEADER..] == unread[0] + Framed(unread[1..]) + writer.Loose()
  {
    if unread != [] {
      hide Encode, Decode;
      var m, rest := unread[0], Framed(unread[1..]);
      assert Sendable(m);
      DecodeEncode(|m|);
      Assoc(Encode(|m|), m, rest);
      Assoc(Encode(|m|), m + rest, writer.Loose());
      assert c == Encode(|m|) + (m + rest + writer.Loose());
    }
  }

  lemma BodyWritten(c: seq<byte>, length: nat, writer: Writer, reader: Reader, unread: seq<seq<byte>>)
    requires Steady(c, length, writer, reader, unread) && writer.Headed?
    ensures Steady(c + writer.message, length, Outside, reader, unread + [writer.message])
  {
    hide Encode, Framed;
    var m := writer.message;
    FramedAppend(unread, m);
    Assoc(Framed(unread), writer.Loose(), m);
    if reader.Measured? {
      FramedAppend(unread[1..], m);
      assert (unread + [m])[1..] == unread[1..] + [m];
      Assoc(Framed(unread[1..]), writer.Loose(), m);
      Assoc(unread[0], Framed(unread[1..]), writer.Loose());
      Assoc(unread[0], Framed(unread[1..]) + writer.Loose(), m);
    }
  }

  lemma BodyRead(c: seq<byte>, length: nat, writer: Writer, reader: Reader, unread: seq<seq<byte>>)
    requires Steady(c, length, writer, reader, unread) && reader.Measured?
    ensures reader.length <= |c| && c[..reader.length] == unread[0] && unread != []
    ensures Steady(c[reader.length..], length, writer, Away, unread[1..])
  {
    assert c == unread[0] + (Framed(unread[1..]) + writer.Loose());
  }

  class Messages {
    const stream: Stream
    var writer: Writer
    var reader: Reader
    var kept: nat                     // xOriginalTail
    ghost var sent: seq<seq<byte>>
    ghost var received: seq<seq<byte>>
    ghost var unread: seq<seq<byte>>

    ghost predicate Valid()
      reads this, stream, stream.buffer
    {
      && stream.Valid() && stream.buffer.Length > HEADER && sent == received + unread
      && Steady(stream.Contents(), stream.buffer.Length, writer, reader, unread)
      && (reader.Measured? ==>
            && KeptOk(stream.buffer[..], kept, stream.head, stream.Contents(), unread)
            && stream.tail == Moved(kept, HEADER, stream.buffer.Length))
    }

    /** Whether the tail can go back over a length that has been read: nothing that is stored,
        or is being written, reaches into its bytes. */
    ghost predicate CanGoBack()
      requires stream.Valid()
      reads this, stream, stream.buffer
    {
      |stream.Contents()| + writer.Owed() + HEADER < stream.buffer.Length
    }

    constructor (size: nat)
      requires size > HEADER
      ensures Valid() && sent == received == unread == [] && writer.Outside? && reader.Away?
      ensures fresh(stream) && fresh(stream.buffer)
      ensures stream.Contents() == [] && stream.buffer.Length == size + 1
    {
      stream := new Stream(size);
      writer, reader, kept := Outside, Away, 0;
      sent, received, unread := [], [], [];
    }

    // ---------------------------------------------------------------------- the writer

    // xStreamBufferSend up to the test of the space
    method BeginSend(m: seq<byte>) returns (room: bool)
      requires Valid() && writer.Outside? && Sendable(m)
      modifies `writer
      ensures Valid() && (room <==> |stream.Contents()| + HEADER + |m| < stream.buffer.Length)
      ensures writer == if room then Cleared(m) else Outside
    {
      var space := stream.SpacesAvailable();
      room := space != 0 && space >= |m| + HEADER;
      if room {
        writer := Cleared(m);
      }
    }

    // prvWriteMessageToBuffer: the length
    method WriteHeader()
      requires Valid() && writer.Cleared?
      modifies `writer, stream`head, stream.buffer
      ensures Valid() && writer == Headed(old(writer).message)
      ensures |stream.Contents()| == |old(stream.Contents())| + HEADER
    {
      hide Stored, Encode, Framed, KeptOk;
      ghost var bytes, head, c := stream.buffer[..], stream.head, stream.Contents();
      stream.WriteBytes(Encode(|writer.message|));
      if reader.Measured? {
        KeptMore(bytes, stream.buffer[..], kept, head, stream.head, c, Encode(|writer.message|), unread, unread);
      }
      writer := Headed(writer.message);
    }

    // prvWriteMessageToBuffer: the data
    method WriteBody()
      requires Valid() && writer.Headed?
      modifies `writer, `sent, `unread, stream`head, stream.buffer
      ensures Valid() && writer.Outside? && sent == old(sent) + [old(writer).message]
      ensures |stream.Contents()| == |old(stream.Contents())| + |old(writer).message|
    {
      var m := writer.message;
      ghost var bytes, head, c := stream.buffer[..], stream.head, stream.Contents();
      BodyWritten(c, stream.buffer.Length, writer, reader, unread);
      assert 0 < |m| && |c| + |m| < stream.buffer.Length;
      assert reader.Measured? ==> unread != [];
      hide Steady, Stored, KeptOk;
      stream.WriteBytes(m);
      if reader.Measured? {
        KeptMore(bytes, stream.buffer[..], kept, head, stream.head, c, m, unread, unread + [m]);
      }
      sent, unread := sent + [m], unread + [m];
      writer := Outside;
    }

    // ---------------------------------------------------------------------- the reader

    // xStreamBufferReceive: prvBytesInBuffer. A length whose message is not yet written is
    // never taken for a message
    method Sample() returns (ready: bool)
      requires Valid() && reader.Away?
      modifies `reader
      ensures Valid() && (ready <==> unread != []) && (ready ==> reader.Sampled?) && (!ready ==> reader.Away?)
    {
      FirstMessage(stream.Contents(), stream.buffer.Length, writer, reader, unread);
      var available := stream.BytesInBuffer();
      ready := available > HEADER;
      if ready {
        reader := Sampled(available);
      }
    }

    // prvReadMessageFromBuffer: the length
    method ReadHeader()
      requires Valid() && reader.Sampled?
      modifies `reader, `kept, stream`tail
      ensures Valid() && reader.Measured? && reader.length == |unread[0]|
      ensures CanGoBack() && kept == old(stream.tail)
      ensures |stream.Contents()| == |old(stream.Contents())| - HEADER
    {
      hide Framed, Stored, Encode, Decode;
      FirstMessage(stream.Contents(), stream.buffer.Length, writer, reader, unread);
      StoredLength(stream.buffer[..], stream.tail, stream.head);
      var available := reader.available;
      kept := stream.tail;
      var header := stream.ReadBytes(HEADER, available);
      reader := Measured(Decode(header), available - HEADER);
    }

    // prvReadMessageFromBuffer, for a receive buffer that is too short, and
    // xStreamBufferNextMessageLengthBytes: the length goes back into the buffer
    method Restore()
      requires Valid() && reader.Measured?
      modifies `reader, stream`tail
      ensures stream.Valid() && reader.Away? && stream.tail == kept
      ensures Valid() <==> old(CanGoBack())
      ensures var n := |old(stream.Contents())| + HEADER;
              |stream.Contents()| == if n < stream.buffer.Length then n else n - stream.buffer.Length
    {
      StoredLength(stream.buffer[..], kept, stream.head);
      StoredLength(stream.buffer[..], stream.tail, stream.head);
      WentBack(stream.buffer[..], kept, stream.head, stream.Contents(), writer, reader, unread);
      hide Stored, Steady;
      stream.tail := kept;
      reader := Away;
    }

    // prvReadMessageFromBuffer: the data, for a receive buffer that is long enough
    method ReadBody() returns (m: seq<byte>)
      requires Valid() && reader.Measured?
      modifies `reader, `received, `unread, stream`tail
      ensures Valid() && reader.Away? && old(unread) != [] && m == old(unread)[0] && sent == old(sent)
      ensures received == old(received) + [m] && unread == old(unread)[1..]
    {
      BodyRead(stream.Contents(), stream.buffer.Length, writer, reader, unread);
      hide Framed, Stored;
      m := stream.ReadBytes(reader.length, reader.available);
      assert unread == [m] + unread[1..];
      received, unread := received + [m], unread[1..];
      reader := Away;
    }

    /** Whatever the interleaving, the messages come out whole, unchanged and in order. */
    lemma InOrder(i: nat)
      requires Valid() && i < |received|
      ensures |received| <= |sent| && received[i] == sent[i]
    {
    }

    // -------------------------------------------------------------- calls without interruption

    // xStreamBufferReceive, without the waiting
    method Receive(bufferLength: nat) returns (m: seq<byte>)
      requires Valid() && reader.Away?
      modifies `reader, `kept, `received, `unread, stream`tail
      ensures Valid() && reader.Away? && sent == old(sent)
      ensures if old(unread) == [] || bufferLength < |old(unread)[0]| then
                m == [] && stream.Contents() == old(stream.Contents())
                && unread == old(unread) && received == old(received)
              else
                m == old(unread)[0] && unread == old(unread)[1..] && received == old(received) + [m]
    {
      hide Framed, Stored, Encode, Decode, Steady, KeptOk;
      m := [];
      var ready := Sample();
      if ready {
        ReadHeader();
        if reader.length > bufferLength {
          Restore();
        } else {
          m := ReadBody();
        }
      }
    }

    // xStreamBufferNextMessageLengthBytes; whether its configASSERT holds is the second result
    method NextMessageLength() returns (length: nat, asserted: bool)
      requires Valid() && reader.Away?
      modifies `reader, `kept, stream`tail
      ensures Valid() && reader.Away? && stream.tail == old(stream.tail)
      ensures asserted <==> !(writer.Headed? && unread == [])
      ensures length == if unread == [] then 0 else |unread[0]|
    {
      hide Framed, Stored, Encode, Decode, KeptOk;
      FirstMessage(stream.Contents(), stream.buffer.Length, writer, reader, unread);
      var available := stream.BytesInBuffer();
      length, asserted := 0, true;
      if available > HEADER {
        reader := Sampled(available);
        ReadHeader();
        length := reader.length;
        Restore();
      } else {
        asserted := available == 0;
      }
    }
  }

  /** A reader that asks between the two writes of the first message meets a failing assertion. */
  method AskedBetweenTheWrites() returns (buffer: Messages, asserted: bool)
    ensures !asserted && buffer.Valid() && buffer.writer == Headed([7])
  {
    buffer := new Messages(8);
    var room := buffer.BeginSend([7]);
    assert room;
    buffer.WriteHeader();
    var length;
    length, asserted := buffer.NextMessageLength();
  }

  /** A receive buffer that is too short, and a writer that comes in between: a message of one
      byte fits only because the length of the first message is out of the buffer, and when
      this goes back, 3 bytes are left of two messages. */
  method RejectedReadLoses() returns (buffer: Messages)
    ensures |buffer.sent| == 2 && buffer.received == []
    ensures buffer.writer.Outside? && buffer.reader.Away?
    ensures buffer.stream.Valid() && !buffer.Valid() && |buffer.stream.Contents()| == 3
  {
    hide Stored, Encode, Decode, Framed, Steady, KeptOk, Writer.Loose, Moved;
    buffer := new Messages(12);
    var room := buffer.BeginSend([1, 2, 3, 4, 5, 6, 7]);
    buffer.WriteHeader();
    buffer.WriteBody();
    var ready := buffer.Sample();
    buffer.ReadHeader();
    room := buffer.BeginSend([8]);
    buffer.WriteHeader();
    buffer.WriteBody();
    buffer.Restore();
  }
}
