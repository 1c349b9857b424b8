/** The byte ring of a stream buffer (lib/FreeRTOS/stream_buffer.c): one slot always stays
    free, so that an empty ring differs from a full one. */
module StreamBuffer {
  import opened Words

  function Min(a: nat, b: nat): nat {
    if a < b then a else b
  }

  /** The bytes from index `tail` round to index `head`. */
  ghost function Stored(bytes: seq<byte>, tail: nat, head: nat): seq<byte>
    requires tail < |bytes| && head < |bytes|
  {
    if tail <= head then bytes[tail..head] else bytes[tail..] + bytes[..head]
  }

  /** `count` places on from `i`, around the end. */
  function Moved(i: nat, count: nat, length: nat): nat {
    if i + count >= length then i + count - length else i + count
  }

  lemma OverwrittenAt(bytes: seq<byte>, at: nat, data: seq<byte>, i: nat)
    requires at + |data| <= |bytes| && i < |bytes|
    ensures |Overwritten(bytes, at, data)| == |bytes|
    ensures Overwritten(bytes, at, data)[i] == if at <= i < at + |data| then data[i - at] else bytes[i]
  {
  }

  lemma StoredAt(bytes: seq<byte>, tail: nat, head: nat, k: nat)
    requires tail < |bytes| && head < |bytes| && k < |Stored(bytes, tail, head)|
    ensures Moved(tail, k, |bytes|) < |bytes|
    ensures Stored(bytes, tail, head)[k] == bytes[Moved(tail, k, |bytes|)]
  {
  }

  lemma StoredLength(bytes: seq<byte>, tail: nat, head: nat)
    requires tail < |bytes| && head < |bytes|
    ensures |Stored(bytes, tail, head)| == if tail <= head then head - tail else |bytes| - tail + head
  {
  }

  /** There is room for `count` bytes more, for a reader whose tail is `tail`. */
  ghost predicate Fits(bytes: seq<byte>, tail: nat, head: nat, count: nat) {
    tail < |bytes| && head < |bytes| && |Stored(bytes, tail, head)| + count < |bytes|
  }

  /** Bytes written from `head` on, in two pieces if need be, come after those stored. */
  lemma WriteAppends(bytes: seq<byte>, tail: nat, head: nat, data: seq<byte>)
    requires tail < |bytes| && head < |bytes|
    requires |Stored(bytes, tail, head)| + |data| < |bytes|
    ensures var n := Min(|bytes| - head, |data|);
            && |data| - n <= head
            && Stored(Overwritten(Overwritten(bytes, head, data[..n]), 0, data[n..]), tail,
                      Moved(head, |data|, |bytes|))
            == Stored(bytes, tail, head) + data
  {
    hide Stored, Overwritten;
    var n, c := Min(|bytes| - head, |data|), Stored(bytes, tail, head);
    var once := Overwritten(bytes, head, data[..n]);
    StoredLength(bytes, tail, head);
    OverwrittenAt(bytes, head, data[..n], 0);
    var twice := Overwritten(once, 0, data[n..]);
    OverwrittenAt(once, 0, data[n..], 0);
    var to := Moved(head, |data|, |bytes|);
    StoredLength(twice, tail, to);
    var r := Stored(twice, tail, to);
    forall k | 0 <= k < |r| ensures r[k] == (c + data)[k] {
      var i := Moved(tail, k, |bytes|);
      StoredAt(twice, tail, to, k);
      OverwrittenAt(once, 0, data[n..], i);
      OverwrittenAt(bytes, head, data[..n], i);
      if k < |c| {
        StoredAt(bytes, tail, head, k);
      }
    }
  }

  /** Reading from `tail` on, in two pieces if need be, takes the first bytes stored. */
  lemma ReadTakes(bytes: seq<byte>, tail: nat, head: nat, count: nat)
    requires tail < |bytes| && head < |bytes| && count <= |Stored(bytes, tail, head)|
    ensures var n := Min(|bytes| - tail, count);
            && bytes[tail..tail + n] + bytes[..count - n] == Stored(bytes, tail, head)[..count]
            && Stored(bytes, Moved(tail, count, |bytes|), head) == Stored(bytes, tail, head)[count..]
  {
  }

  class Stream {
    const buffer: array<byte>   // pucBuffer, of xLength bytes
    var head: nat               // xHead
    var tail: nat               // xTail

    ghost predicate Valid()
      reads this
    {
      head < buffer.Length && tail < buffer.Length
    }

    ghost function Contents(): seq<byte>
      requires Valid()
      reads this, buffer
    {
      Stored(buffer[..], tail, head)
    }

    // xStreamBufferGenericCreate and prvInitialiseNewStreamBuffer, for `size` bytes
    constructor (size: nat)
      requires size > 0
      ensures Valid() && Contents() == [] && buffer.Length == size + 1 && fresh(buffer)
    {
      buffer := new byte[size + 1];
      head, tail := 0, 0;
    }

    // xStreamBufferSpacesAvailable
    method SpacesAvailable() returns (space: nat)
      requires Valid()
      ensures space + |Contents()| == buffer.Length - 1
    {
      space := buffer.Length + tail - head - 1;
      if space >= buffer.Length {
        space := space - buffer.Length;
      }
    }

    // prvBytesInBuffer
    method BytesInBuffer() returns (count: nat)
      requires Valid()
      ensures count == |Contents()|
    {
      count := buffer.Length + head - tail;
      if count >= buffer.Length {
        count := count - buffer.Length;
      }
    }

    method Memcpy(at: nat, data: seq<byte>)
      requires at + |data| <= buffer.Length
      modifies buffer
      ensures buffer[..] == Overwritten(old(buffer[..]), at, data)
    {
      forall i | 0 <= i < |data| {
        buffer[at + i] := data[i];
      }
    }

    // prvWriteBytesToBuffer
    method WriteBytes(data: seq<byte>)
      requires Valid() && 0 < |data| && |Contents()| + |data| < buffer.Length
      modifies `head, buffer
      ensures Valid() && Contents() == old(Contents()) + data
      ensures forall t {:trigger Stored(buffer[..], t, head)} :: Fits(old(buffer[..]), t, old(head), |data|) ==>
                Stored(buffer[..], t, head) == Stored(old(buffer[..]), t, old(head)) + data
    {
      hide Stored;
      ghost var before := buffer[..];
      var nextHead := head;
      var first := Min(buffer.Length - nextHead, |data|);
      WriteAppends(buffer[..], tail, head, data);
      assert nextHead + first <= buffer.Length;  // its configASSERT
      Memcpy(nextHead, data[..first]);
      if |data| > first {
        Memcpy(0, data[first..]);
      } else {
        assert Overwritten(buffer[..], 0, data[first..]) == buffer[..];
      }
      nextHead := nextHead + |data|;
      if nextHead >= buffer.Length {
        nextHead := nextHead - buffer.Length;
      }
      head := nextHead;
      assert buffer[..] == Overwritten(Overwritten(before, old(head), data[..first]), 0, data[first..]);
      forall t | Fits(before, t, old(head), |data|)
        ensures Stored(buffer[..], t, head) == Stored(before, t, old(head)) + data
      {
        WriteAppends(before, t, old(head), data);
      }
    }

    // prvReadBytesFromBuffer; the sample `available` may be out of date
    method ReadBytes(maxCount: nat, available: nat) returns (data: seq<byte>)
      requires Valid() && available <= |Contents()|
      modifies `tail
      ensures Valid() && data == old(Contents())[..Min(available, maxCount)]
      ensures Contents() == old(Contents())[Min(available, maxCount)..]
      ensures tail == Moved(old(tail), Min(available, maxCount), buffer.Length)
    {
      var count := Min(available, maxCount);
      data := [];
      if count > 0 {
        var nextTail := tail;
        var first := Min(buffer.Length - nextTail, count);
        ReadTakes(buffer[..], tail, head, count);
        assert nextTail + first <= buffer.Length;  // its configASSERT
        data := buffer[nextTail..nextTail + first];
        if count > first {
          data := data + buffer[..count - first];
        }
        nextTail := nextTail + count;
        if nextTail >= buffer.Length {
          nextTail := nextTail - buffer.Length;
        }
        tail := nextTail;
      }
    }

    // xStreamBufferSend on a stream buffer, without the waiting
    method Send(data: seq<byte>) returns (count: nat)
      requires Valid() && data != []
      modifies `head, buffer
      ensures Valid() && count == Min(|data|, buffer.Length - 1 - |old(Contents())|)
      ensures Contents() == old(Contents()) + data[..count]
    {
      var space := SpacesAvailable();
      count := Min(|data|, space);
      if space > 0 {
        WriteBytes(data[..count]);
      }
    }

    // xStreamBufferReceive on a stream buffer, without the waiting
    method Receive(maxCount: nat) returns (data: seq<byte>)
      requires Valid()
      modifies `tail
      ensures Valid() && data + Contents() == old(Contents()) && |data| == Min(maxCount, |old(Contents())|)
    {
      data := [];
      var available := BytesInBuffer();
      if available > 0 {
        data := ReadBytes(maxCount, available);
      }
    }
  }
}
