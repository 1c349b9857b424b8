/** The storage of a queue (lib/FreeRTOS/queue.c): a byte array, two offsets and a count that
    together are a bounded double-ended queue of items. */
module QueueRing {
  import opened Words

  /** `i` modulo `n`, for what the offsets can reach in one step. */
  function Around(i: nat, n: nat): (r: nat)
    requires n > 0 && i <= 2 * n
    ensures r < n
  {
    if i < n then i else if i < 2 * n then i - n else 0
  }

  lemma AroundIsModulo(i: nat, n: nat)
    requires n > 0 && i <= 2 * n
    ensures Around(i, n) == i % n
  {
    Remainder(i, n, if i < n then 0 else if i < 2 * n then 1 else 2, Around(i, n));
  }

  lemma Remainder(a: nat, n: nat, q: nat, r: nat)
    requires r < n && a == q * n + r
    ensures a % n == r
  {
    Multiple(a / n - q, n);
    Distribute(a / n, q, n);
  }

  lemma Multiple(d: int, n: nat)
    ensures d > 0 ==> d * n >= n
    ensures d < 0 ==> d * n + n <= 0
  {
    if d > 0 {
      Distribute(d, 1, n);
    } else if d < 0 {
      Distribute(d, -1, n);
    }
  }

  lemma Distribute(a: int, b: int, n: int)
    ensures (a - b) * n == a * n - b * n
  {
  }

  /** Where slot `k` begins. */
  function Offset(k: nat, size: nat): nat {
    k * size
  }

  lemma Offsets(k: nat, size: nat)
    ensures Offset(0, size) == 0
    ensures Offset(k + 1, size) == Offset(k, size) + size
    ensures size == 0 ==> Offset(k, size) == 0
  {
    assert (k + 1) * size == k * size + size;
  }

  lemma {:induction false} SlotsApart(j: nat, k: nat, size: nat)
    requires j < k
    ensures Offset(j, size) + size <= Offset(k, size)
    decreases k
  {
    hide Offset;
    Offsets(k - 1, size);
    if j < k - 1 {
      SlotsApart(j, k - 1, size);
    }
  }

  /** The bytes of slot `k`. */
  ghost function Item(bytes: seq<byte>, size: nat, k: nat): seq<byte> {
    var o := Offset(k, size);
    if o + size <= |bytes| then bytes[o..o + size] else []
  }

  /** The items from the slot after `slot` on, around the end of the storage. */
  ghost function Items(bytes: seq<byte>, size: nat, length: nat, slot: nat, count: nat): (r: seq<seq<byte>>)
    requires slot < length && count <= length
    ensures |r| == count
  {
    seq(count, i requires 0 <= i < count => Item(bytes, size, Around(slot + 1 + i, length)))
  }

  /** Writing one slot leaves the other slots as they are. */
  lemma WrittenItem(bytes: seq<byte>, size: nat, n: nat, k: nat, item: seq<byte>, j: nat)
    requires |bytes| == Offset(n, size) && k < n && j < n && |item| == size
    ensures Offset(k, size) + size <= |bytes|
    ensures Item(Overwritten(bytes, Offset(k, size), item), size, j) == if j == k then item else Item(bytes, size, j)
  {
    hide Offset;
    SlotsApart(k, n, size);
    SlotsApart(j, n, size);
    var w := Overwritten(bytes, Offset(k, size), item);
    if j < k {
      SlotsApart(j, k, size);
    } else if j > k {
      SlotsApart(k, j, size);
    }
  }

  /** Writing the slot behind the last item adds an item at the back. */
  lemma PushBack(bytes: seq<byte>, size: nat, n: nat, slot: nat, count: nat, item: seq<byte>)
    requires |bytes| == Offset(n, size) && slot < n && count < n && |item| == size
    ensures var o := Offset(Around(slot + 1 + count, n), size);
            && o + size <= |bytes|
            && Items(Overwritten(bytes, o, item), size, n, slot, count + 1)
            == Items(bytes, size, n, slot, count) + [item]
  {
    hide Offset, Item, Overwritten;
    var k := Around(slot + 1 + count, n);
    WrittenItem(bytes, size, n, k, item, k);
    var w := Overwritten(bytes, Offset(k, size), item);
    var r, t := Items(w, size, n, slot, count + 1), Items(bytes, size, n, slot, count) + [item];
    forall i | 0 <= i < count + 1 ensures r[i] == t[i] {
      WrittenItem(bytes, size, n, k, item, Around(slot + 1 + i, n));
    }
  }

  /** Writing slot `slot` and stepping back adds an item at the front; the items kept are
      the first `kept`. */
  lemma PushFront(bytes: seq<byte>, size: nat, n: nat, slot: nat, kept: nat, item: seq<byte>)
    requires |bytes| == Offset(n, size) && slot < n && kept < n && |item| == size
    ensures Offset(slot, size) + size <= |bytes|
    ensures Items(Overwritten(bytes, Offset(slot, size), item), size, n, Around(slot + n - 1, n), kept + 1)
         == [item] + Items(bytes, size, n, slot, kept)
  {
    hide Offset, Item, Overwritten;
    WrittenItem(bytes, size, n, slot, item, slot);
    var w, s := Overwritten(bytes, Offset(slot, size), item), Around(slot + n - 1, n);
    var r, t := Items(w, size, n, s, kept + 1), [item] + Items(bytes, size, n, slot, kept);
    forall i | 0 <= i < kept + 1 ensures r[i] == t[i] {
      if i == 0 {
        assert Around(s + 1 + i, n) == slot;
      } else {
        assert Around(s + 1 + i, n) == Around(slot + i, n);
        WrittenItem(bytes, size, n, slot, item, Around(slot + i, n));
      }
    }
  }

  lemma FirstItem(bytes: seq<byte>, size: nat, n: nat, slot: nat, count: nat)
    requires slot < n && 0 < count <= n
    ensures Items(bytes, size, n, slot, count)[0] == Item(bytes, size, Around(slot + 1, n))
  {
  }

  /** Stepping the read position past the first item removes it. */
  lemma PopFront(bytes: seq<byte>, size: nat, n: nat, slot: nat, count: nat)
    requires slot < n && 0 < count <= n
    ensures Items(bytes, size, n, Around(slot + 1, n), count - 1) == Items(bytes, size, n, slot, count)[1..]
  {
    hide Item;
    var s := Around(slot + 1, n);
    var r, t := Items(bytes, size, n, s, count - 1), Items(bytes, size, n, slot, count)[1..];
    forall i | 0 <= i < count - 1 ensures r[i] == t[i] {
      assert Around(s + 1 + i, n) == Around(slot + 1 + (i + 1), n);
    }
  }

  /** One slot on from slot `k`, around the end. */
  lemma Steps(k: nat, n: nat, size: nat)
    requires k < n && size > 0
    ensures Offset(k, size) + size <= Offset(n, size)
    ensures Offset(k, size) + size == Offset(n, size) <==> k + 1 == n
    ensures Offset(Around(k + 1, n), size) == if k + 1 == n then 0 else Offset(k, size) + size
  {
    hide Offset;
    Offsets(k, size);
    SlotsApart(k, n, size);
    if k + 1 < n {
      SlotsApart(k + 1, n, size);
    }
  }

  lemma NoItem(bytes: seq<byte>, k: nat)
    ensures Item(bytes, 0, k) == []
  {
    Offsets(k, 0);
  }

  /** Items without bytes are just counted. */
  lemma NoBytes(bytes: seq<byte>, n: nat, slot: nat, count: nat)
    requires slot < n && count < n
    ensures Items(bytes, 0, n, slot, count + 1) == Items(bytes, 0, n, slot, count) + [[]]
    ensures Items(bytes, 0, n, slot, count + 1) == [[]] + Items(bytes, 0, n, slot, count)
  {
    hide Item;
    var r, t := Items(bytes, 0, n, slot, count + 1), Items(bytes, 0, n, slot, count);
    forall i | 0 <= i < count + 1 ensures r[i] == [] && (t + [[]])[i] == [] && ([[]] + t)[i] == [] {
      NoItem(bytes, Around(slot + 1 + i, n));
      if i > 0 {
        NoItem(bytes, Around(slot + i, n));
      }
    }
  }

  datatype Position = Back | Front | Overwrite

  class Queue {
    const storage: array<byte>   // from pcHead to pcTail
    const length: nat            // uxLength
    const itemSize: nat          // uxItemSize
    var writeTo: nat             // pcWriteTo, as an offset
    var readFrom: nat            // pcReadFrom, as an offset
    var count: nat               // uxMessagesWaiting
    ghost var slot: nat          // the slot that readFrom points to

    ghost predicate Valid()
      reads this
    {
      && length > 0 && storage.Length == Offset(length, itemSize)
      && count <= length && slot < length
      && readFrom == Offset(slot, itemSize)
      && writeTo == Offset(Around(slot + 1 + count, length), itemSize)
    }

    ghost function Contents(): seq<seq<byte>>
      requires Valid()
      reads this, storage
    {
      Items(storage[..], itemSize, length, slot, count)
    }

    // prvInitialiseNewQueue and xQueueGenericReset on a new queue
    constructor (length: nat, itemSize: nat)
      requires length > 0
      ensures Valid() && Contents() == [] && this.length == length && this.itemSize == itemSize
      ensures fresh(storage)
    {
      this.length, this.itemSize := length, itemSize;
      storage := new byte[length * itemSize];
      count, writeTo := 0, 0;
      readFrom, slot := (length - 1) * itemSize, length - 1;
    }

    // xQueueGenericReset, without the waiting tasks
    method Reset()
      requires Valid()
      modifies this
      ensures Valid() && Contents() == []
    {
      count, writeTo := 0, 0;
      readFrom, slot := (length - 1) * itemSize, length - 1;
    }

    method Memcpy(at: nat, item: seq<byte>)
      requires at + |item| <= storage.Length
      modifies storage
      ensures storage[..] == Overwritten(old(storage[..]), at, item)
    {
      forall i | 0 <= i < |item| {
        storage[at + i] := item[i];
      }
    }

    /** xQueueOverwrite on a full semaphore takes the branch that does not look at the position. */
    predicate OverCounts(waiting: nat, position: Position) {
      position == Overwrite && itemSize == 0 && waiting == length
    }

    // prvCopyDataToQueue
    method CopyDataToQueue(item: seq<byte>, position: Position)
      requires Valid() && |item| == itemSize && (count < length || position == Overwrite)
      requires position == Overwrite ==> length == 1
      modifies this, storage
      ensures Valid() <==> !OverCounts(old(count), position)
      ensures Valid() ==>
        (Contents() == if position == Back then old(Contents()) + [item]
                       else if position == Front then [item] + old(Contents())
                       else [item])
      ensures OverCounts(old(count), position) ==> count == length + 1
    {
      hide Offset, Item, Items, Overwritten;
      var waiting := count;
      Offsets(0, itemSize);
      if itemSize == 0 {
        if !OverCounts(count, position) {
          Offsets(Around(slot + 1 + count, length), 0);
          Offsets(Around(slot + 2 + count, length), 0);
          NoBytes(storage[..], length, slot, count);
        }
        count := waiting + 1;
      } else if position == Back {
        StoreBack(item);
      } else {
        StoreFront(item, if position == Overwrite && waiting > 0 then waiting - 1 else waiting);
      }
    }

    method StoreBack(item: seq<byte>)
      requires Valid() && |item| == itemSize > 0 && count < length
      modifies this, storage
      ensures Valid() && Contents() == old(Contents()) + [item]
    {
      hide Offset, Item, Items, Overwritten;
      PushBack(storage[..], itemSize, length, slot, count, item);
      Steps(Around(slot + 1 + count, length), length, itemSize);
      Memcpy(writeTo, item);
      writeTo := writeTo + itemSize;
      if writeTo >= storage.Length {
        writeTo := 0;
      }
      count := count + 1;
    }

    // The items kept are the first `kept`
    method StoreFront(item: seq<byte>, kept: nat)
      requires Valid() && |item| == itemSize > 0 && kept < length
      requires kept == count || (length == 1 && kept == 0)
      modifies this, storage
      ensures Valid() && Contents() == [item] + Items(old(storage[..]), itemSize, length, old(slot), kept)
    {
      hide Offset, Item, Items, Overwritten;
      PushFront(storage[..], itemSize, length, slot, kept, item);
      ghost var s := Around(slot + length - 1, length);
      Steps(s, length, itemSize);
      Offsets(0, itemSize);
      Memcpy(readFrom, item);
      readFrom := if readFrom < itemSize then storage.Length - itemSize else readFrom - itemSize;
      slot, count := s, kept + 1;
    }

    // prvCopyDataFromQueue
    method CopyDataFromQueue() returns (item: seq<byte>)
      requires Valid() && count > 0
      modifies `readFrom, `slot
      ensures slot == Around(old(slot) + 1, length) && readFrom == Offset(slot, itemSize)
      ensures item == old(Contents())[0]
    {
      hide Offset, Items;
      Offsets(Around(slot + 1, length), itemSize);
      Offsets(slot, itemSize);
      SlotsApart(Around(slot + 1, length), length, itemSize);
      if itemSize != 0 {
        Steps(slot, length, itemSize);
        readFrom := readFrom + itemSize;
        if readFrom >= storage.Length {
          readFrom := 0;
        }
      }
      slot := Around(slot + 1, length);
      item := storage[readFrom..readFrom + itemSize];
      FirstItem(storage[..], itemSize, length, old(slot), count);
    }

    // The critical section of xQueueGenericSend, and xQueueGenericSendFromISR
    method Send(item: seq<byte>, position: Position) returns (sent: bool)
      requires Valid() && |item| == itemSize
      requires position == Overwrite ==> length == 1
      modifies this, storage
      ensures sent <==> old(count) < length || position == Overwrite
      ensures Valid() <==> !OverCounts(old(count), position)
      ensures OverCounts(old(count), position) ==> count == length + 1
      ensures Valid() ==>
        (Contents() == if !sent then old(Contents())
                       else if position == Back then old(Contents()) + [item]
                       else if position == Front then [item] + old(Contents())
                       else [item])
    {
      sent := count < length || position == Overwrite;
      if sent {
        CopyDataToQueue(item, position);
      }
    }

    // The critical section of xQueueReceive, and xQueueReceiveFromISR
    method Receive() returns (r: Option<seq<byte>>)
      requires Valid()
      modifies this
      ensures Valid() && storage[..] == old(storage[..])
      ensures if old(Contents()) == [] then r == None && Contents() == []
              else r == Some(old(Contents())[0]) && Contents() == old(Contents())[1..]
    {
      hide Offset, Items;
      r := None;
      if count > 0 {
        PopFront(storage[..], itemSize, length, slot, count);
        var item := CopyDataFromQueue();
        count := count - 1;
        r := Some(item);
      }
    }

    // The critical section of xQueuePeek, and xQueuePeekFromISR
    method Peek() returns (r: Option<seq<byte>>)
      requires Valid()
      modifies `readFrom, `slot
      ensures Valid() && readFrom == old(readFrom) && Contents() == old(Contents())
      ensures r == if Contents() == [] then None else Some(Contents()[0])
    {
      hide Offset, Items;
      r := None;
      if count > 0 {
        var originalReadPosition := readFrom;
        ghost var s := slot;
        var item := CopyDataFromQueue();
        readFrom, slot := originalReadPosition, s;
        r := Some(item);
      }
    }
  }

  /** A binary semaphore that is overwritten twice counts two items, more than its length. */
  method OverwrittenTwice() returns (q: Queue)
    ensures q.length == 1 && q.itemSize == 0 && q.count == 2 && !q.Valid()
  {
    q := new Queue(1, 0);
    var first := q.Send([], Overwrite);
    assert |q.Contents()| == 1;
    var second := q.Send([], Overwrite);
  }
}
