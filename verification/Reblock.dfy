/** The copying of packets between pbuf chains and the fixed-size buffers of the Ethernet DMA
    descriptors (core/src/hw/ethernetif.c). */
module Reblock {
  import opened Words

  // ETH_TX_BUF_SIZE and ETH_RX_BUF_SIZE; ETH_TXBUFNB and ETH_RXBUFNB
  const SIZE: nat := 2016
  const COUNT: nat := 4
  const MEMORY: nat := 8064

  /** The place of byte `i` of a frame whose first descriptor is `first`: the descriptors form
      a ring. */
  function At(first: nat, i: nat): (r: nat)
    ensures r < MEMORY
  {
    (first + i / SIZE) % COUNT * SIZE + i % SIZE
  }

  /** The `n` bytes from byte `start` on of the buffers in descriptor order. */
  ghost function Part(bytes: seq<byte>, first: nat, start: nat, n: nat): (r: seq<byte>)
    requires |bytes| == MEMORY
    ensures |r| == n
  {
    seq(n, i requires 0 <= i < n => bytes[At(first, start + i)])
  }

  /** The first `n` bytes of the buffers in descriptor order. */
  ghost function Stream(bytes: seq<byte>, first: nat, n: nat): (r: seq<byte>)
    requires |bytes| == MEMORY
    ensures |r| == n
  {
    Part(bytes, first, 0, n)
  }

  ghost function Concat(chain: seq<seq<byte>>): seq<byte> {
    if chain == [] then [] else Concat(chain[..|chain| - 1]) + chain[|chain| - 1]
  }

  function Sum(lens: seq<nat>): nat {
    if lens == [] then 0 else Sum(lens[..|lens| - 1]) + lens[|lens| - 1]
  }

  /** How many descriptors a chain takes: even an empty pbuf looks at the first one. */
  function Needed(chain: seq<seq<byte>>, total: nat): nat {
    if chain == [] then 0 else if total == 0 then 1 else (total + SIZE - 1) / SIZE
  }

  /** A descriptor is needed if it is the first, or if the frame reaches beyond those before it. */
  lemma NeededIs(chain: seq<seq<byte>>, total: nat, k: nat)
    requires chain != []
    ensures k < Needed(chain, total) <==> k == 0 || k * SIZE < total
  {
  }

  lemma AtIs(first: nat, k: nat, offset: nat)
    requires offset < SIZE
    ensures At(first, k * SIZE + offset) == (first + k) % COUNT * SIZE + offset
  {
    assert (k * SIZE + offset) / SIZE == k;
  }

  /** Within one round of the ring, different bytes have different places. */
  lemma Apart(first: nat, i: nat, j: nat)
    requires i < MEMORY && j < MEMORY && i != j
    ensures At(first, i) != At(first, j)
  {
    var a, b, c, d := i / SIZE, i % SIZE, j / SIZE, j % SIZE;
    assert i == a * SIZE + b && j == c * SIZE + d && a < COUNT && c < COUNT;
    if b == d {
      assert a != c;
      RingApart(first, a, c);
    }
  }

  lemma RingApart(first: nat, a: nat, c: nat)
    requires a < COUNT && c < COUNT && a != c
    ensures (first + a) % COUNT != (first + c) % COUNT
  {
  }

  ghost predicate Holds(bytes: seq<byte>, first: nat, data: seq<byte>) {
    |bytes| == MEMORY && forall i :: 0 <= i < |data| ==> bytes[At(first, i)] == data[i]
  }

  // memcpy into the buffer of one descriptor
  method CopyIn(memory: array<byte>, first: nat, ghost k: nat, desc: nat, offset: nat, payload: seq<byte>,
                from: nat, n: nat, ghost data: seq<byte>)
    requires memory.Length == MEMORY && desc == (first + k) % COUNT && offset + n <= SIZE && from + n <= |payload|
    requires |data| == k * SIZE + offset && (k < COUNT ==> Holds(memory[..], first, data))
    modifies memory
    ensures k < COUNT ==> Holds(memory[..], first, data + payload[from..from + n])
  {
    forall j | 0 <= j < n {
      memory[desc * SIZE + offset + j] := payload[from + j];
    }
    if k < COUNT {
      ghost var more := data + payload[from..from + n];
      forall i | 0 <= i < |more| ensures memory[..][At(first, i)] == more[i] {
        if i < |data| {
          var p := At(first, i) - desc * SIZE - offset;
          if 0 <= p < n {
            AtIs(first, k, offset + p);
            Apart(first, i, |data| + p);
          }
        } else {
          AtIs(first, k, offset + i - |data|);
        }
      }
    }
  }

  /** Whether the DMA owns the descriptor `k` places on from the first: its OWN bit. */
  predicate Owned(owned: seq<bool>, first: nat, k: nat)
    requires |owned| == COUNT
  {
    owned[(first + k) % COUNT]
  }

  ghost predicate AllFree(owned: seq<bool>, first: nat, n: nat)
    requires |owned| == COUNT
  {
    forall k :: 0 <= k < n ==> !Owned(owned, first, k)
  }

  lemma ConcatMore(chain: seq<seq<byte>>, q: nat)
    requires q < |chain|
    ensures Concat(chain[..q + 1]) == Concat(chain[..q]) + chain[q]
  {
    assert chain[..q + 1][..q] == chain[..q];
  }

  lemma {:induction false} ConcatLength(chain: seq<seq<byte>>, q: nat)
    requires q <= |chain|
    ensures |Concat(chain[..q])| <= |Concat(chain)|
    decreases |chain|
  {
    if q < |chain| {
      ConcatLength(chain[..|chain| - 1], q);
      assert chain[..|chain| - 1][..q] == chain[..q];
    } else {
      assert chain[..q] == chain;
    }
  }

  // One pbuf of the chain: the bytes `data` are in the buffers already, `k` descriptors are
  // left behind
  method OutputPbuf(memory: array<byte>, owned: seq<bool>, first: nat, desc0: nat, offset0: nat, payload: seq<byte>,
                    ghost k0: nat, ghost data: seq<byte>)
    returns (ok: bool, desc: nat, offset: nat, ghost k: nat)
    requires memory.Length == MEMORY && |owned| == COUNT
    requires |data| == k0 * SIZE + offset0 && offset0 <= SIZE
    requires desc0 == (first + k0) % COUNT && (k0 > 0 ==> offset0 > 0)
    requires AllFree(owned, first, k0 + 1) && (k0 < COUNT ==> Holds(memory[..], first, data))
    modifies memory
    ensures ok ==>
      && |data| + |payload| == k * SIZE + offset && offset <= SIZE
      && desc == (first + k) % COUNT && (k > 0 ==> offset > 0)
      && AllFree(owned, first, k + 1) && (k < COUNT ==> Holds(memory[..], first, data + payload))
    ensures !ok ==> Owned(owned, first, k) && k * SIZE < |data| + |payload|
  {
    hide At, Holds, AllFree, Owned;
    ok, desc, offset, k := true, desc0, offset0, k0;
    var left: nat, from: nat := |payload|, 0;
    assert payload[..0] == [] && data + [] == data;
    while left + offset > SIZE
      invariant left + from == |payload| && |data| + from == k * SIZE + offset
      invariant offset <= SIZE && desc == (first + k) % COUNT
      invariant k > 0 ==> offset > 0 || left > 0
      invariant AllFree(owned, first, k + 1)
      invariant k < COUNT ==> Holds(memory[..], first, data + payload[..from])
      decreases left + (if offset == SIZE then 1 else 0)
    {
      var n := SIZE - offset;
      CopyIn(memory, first, k, desc, offset, payload, from, n, data + payload[..from]);
      Extend(data, payload, from, n);
      NextDescriptor(owned, first, k);
      desc, k := (desc + 1) % COUNT, k + 1;
      if owned[desc] {
        ok := false;
        return;
      }
      left, from, offset := left - n, from + n, 0;
    }
    CopyIn(memory, first, k, desc, offset, payload, from, left, data + payload[..from]);
    Extend(data, payload, from, left);
    assert payload[..from + left] == payload;
    offset := offset + left;
  }

  lemma NextDescriptor(owned: seq<bool>, first: nat, k: nat)
    requires |owned| == COUNT && AllFree(owned, first, k + 1)
    ensures ((first + k) % COUNT + 1) % COUNT == (first + (k + 1)) % COUNT
    ensures owned[(first + (k + 1)) % COUNT] == Owned(owned, first, k + 1)
    ensures !Owned(owned, first, k + 1) ==> AllFree(owned, first, k + 2)
  {
  }

  lemma Extend(data: seq<byte>, payload: seq<byte>, from: nat, n: nat)
    requires from + n <= |payload|
    ensures (data + payload[..from]) + payload[from..from + n] == data + payload[..from + n]
  {
  }

  // low_level_output, up to the call that starts the transmission of `frameLength` bytes
  method LowLevelOutput(memory: array<byte>, owned: seq<bool>, first: nat, chain: seq<seq<byte>>)
    returns (ok: bool, frameLength: nat)
    requires memory.Length == MEMORY && |owned| == COUNT && first < COUNT
    modifies memory
    ensures ok <==> AllFree(owned, first, Needed(chain, |Concat(chain)|))
    ensures ok ==> frameLength == |Concat(chain)|
    ensures ok && |Concat(chain)| <= MEMORY ==> Stream(memory[..], first, frameLength) == Concat(chain)
  {
    ok, frameLength := true, 0;
    var desc: nat, offset: nat := first, 0;
    ghost var k: nat := 0;
    var q := 0;
    while q < |chain|
      invariant q <= |chain| && ok
      invariant frameLength == |Concat(chain[..q])| == k * SIZE + offset && offset <= SIZE
      invariant desc == (first + k) % COUNT
      invariant k > 0 ==> offset > 0
      invariant AllFree(owned, first, if q == 0 then 0 else k + 1)
      invariant q == 0 ==> k == 0
      invariant k < COUNT ==> Holds(memory[..], first, Concat(chain[..q]))
    {
      ConcatMore(chain, q);
      ConcatLength(chain, q + 1);
      assert owned[desc] == Owned(owned, first, k);
      if owned[desc] {
        NotEnough(owned, first, k, chain, frameLength);
        ok := false;
        return;
      }
      ok, desc, offset, k := OutputPbuf(memory, owned, first, desc, offset, chain[q], k, Concat(chain[..q]));
      if !ok {
        NotEnough(owned, first, k, chain, |Concat(chain[..q + 1])|);
        return;
      }
      frameLength := frameLength + |chain[q]|;
      q := q + 1;
    }
    assert chain[..q] == chain;
  }

  /** Descriptor `k` is needed as soon as the frame goes beyond the ones before it. */
  lemma NotEnough(owned: seq<bool>, first: nat, k: nat, chain: seq<seq<byte>>, reached: nat)
    requires |owned| == COUNT && Owned(owned, first, k) && chain != []
    requires reached <= |Concat(chain)| && (k > 0 ==> k * SIZE < reached)
    ensures !AllFree(owned, first, Needed(chain, |Concat(chain)|))
  {
    var n := Needed(chain, |Concat(chain)|);
    assert k < n;
  }

  // memcpy out of the buffer of one descriptor
  method CopyOut(memory: array<byte>, first: nat, ghost k: nat, desc: nat, offset: nat, payload: array<byte>,
                 to: nat, n: nat, ghost start: nat)
    requires memory.Length == MEMORY && desc == (first + k) % COUNT && offset + n <= SIZE && to + n <= payload.Length
    requires payload != memory && start + to == k * SIZE + offset
    requires payload[..to] == Part(memory[..], first, start, to)
    modifies payload
    ensures payload[..to + n] == Part(memory[..], first, start, to + n)
  {
    forall j | 0 <= j < n {
      payload[to + j] := memory[desc * SIZE + offset + j];
    }
    forall i | 0 <= i < to + n ensures payload[i] == memory[..][At(first, start + i)] {
      if i < to {
        assert payload[i] == old(payload[..to])[i];
      } else {
        AtIs(first, k, offset + i - to);
      }
    }
  }

  lemma StepRound(i: nat)
    ensures (i % COUNT + 1) % COUNT == (i + 1) % COUNT
  {
  }

  // One pbuf of the chain that is filled, from byte `start` of the frame on
  method InputPbuf(memory: array<byte>, first: nat, desc0: nat, offset0: nat, length: nat,
                   ghost k0: nat, ghost start: nat)
    returns (payload: array<byte>, desc: nat, offset: nat, ghost k: nat)
    requires memory.Length == MEMORY
    requires start == k0 * SIZE + offset0 && offset0 <= SIZE && desc0 == (first + k0) % COUNT
    ensures fresh(payload) && payload.Length == length && memory[..] == old(memory[..])
    ensures payload[..] == Part(memory[..], first, start, length)
    ensures start + length == k * SIZE + offset && offset <= SIZE && desc == (first + k) % COUNT
  {
    hide Part, At;
    payload := new byte[length];
    desc, offset, k := desc0, offset0, k0;
    var left: nat, to: nat := length, 0;
    while left + offset > SIZE
      invariant left + to == length && start + to == k * SIZE + offset
      invariant offset <= SIZE && desc == (first + k) % COUNT && memory[..] == old(memory[..])
      invariant payload[..to] == Part(memory[..], first, start, to)
      decreases left + (if offset == SIZE then 1 else 0)
    {
      var n := SIZE - offset;
      CopyOut(memory, first, k, desc, offset, payload, to, n, start);
      StepRound(first + k);
      desc, k := (desc + 1) % COUNT, k + 1;
      left, to, offset := left - n, to + n, 0;
    }
    CopyOut(memory, first, k, desc, offset, payload, to, left, start);
    assert payload[..length] == payload[..];
    offset := offset + left;
  }

  // low_level_input: the chain that pbuf_alloc has given has pbufs of lengths `lens`
  method LowLevelInput(memory: array<byte>, first: nat, lens: seq<nat>) returns (chain: seq<seq<byte>>)
    requires memory.Length == MEMORY && first < COUNT
    ensures |chain| == |lens| && (forall i :: 0 <= i < |lens| ==> |chain[i]| == lens[i])
    ensures Concat(chain) == Stream(memory[..], first, Sum(lens)) && memory[..] == old(memory[..])
  {
    chain := [];
    var desc: nat, offset: nat := first, 0;
    ghost var k: nat := 0;
    var q := 0;
    while q < |lens|
      invariant q <= |lens| && |chain| == q && (forall i :: 0 <= i < q ==> |chain[i]| == lens[i])
      invariant Sum(lens[..q]) == k * SIZE + offset && offset <= SIZE && desc == (first + k) % COUNT
      invariant Concat(chain) == Stream(memory[..], first, Sum(lens[..q])) && memory[..] == old(memory[..])
    {
      SumMore(lens, q);
      var payload;
      payload, desc, offset, k := InputPbuf(memory, first, desc, offset, lens[q], k, Sum(lens[..q]));
      StreamJoin(memory[..], first, Sum(lens[..q]), lens[q]);
      ghost var before := chain;
      chain := chain + [payload[..]];
      assert chain[..q] == before;
      q := q + 1;
    }
    assert lens[..q] == lens;
  }

  lemma SumMore(lens: seq<nat>, q: nat)
    requires q < |lens|
    ensures Sum(lens[..q + 1]) == Sum(lens[..q]) + lens[q]
  {
    assert lens[..q + 1][..q] == lens[..q];
  }

  lemma StreamJoin(bytes: seq<byte>, first: nat, a: nat, b: nat)
    requires |bytes| == MEMORY
    ensures Stream(bytes, first, a) + Part(bytes, first, a, b) == Stream(bytes, first, a + b)
  {
  }

  // A frame sent out, and read back into another chain of the same total length
  method Loopback(memory: array<byte>, owned: seq<bool>, first: nat, chain: seq<seq<byte>>, lens: seq<nat>)
    returns (ok: bool, copy: seq<seq<byte>>)
    requires memory.Length == MEMORY && |owned| == COUNT && first < COUNT
    requires |Concat(chain)| == Sum(lens) <= MEMORY
    modifies memory
    ensures ok <==> AllFree(owned, first, Needed(chain, |Concat(chain)|))
    ensures ok ==> Concat(copy) == Concat(chain) && |copy| == |lens|
                   && forall i :: 0 <= i < |lens| ==> |copy[i]| == lens[i]
  {
    var n;
    ok, n := LowLevelOutput(memory, owned, first, chain);
    copy := [];
    if ok {
      copy := LowLevelInput(memory, first, lens);
    }
  }
}
