/** What the modules share: machine words, optional values, and the place that a sorted
    insertion looks for. */
module Words {

  datatype Option<+T> = None | Some(value: T)

  // Ticks, list items and printed values have 32 bits.
  const WRAP: nat := 0x1_0000_0000

  newtype byte = x: int | 0 <= x < 256

  /** `data` copied over the bytes from index `at` on. */
  ghost function Overwritten(bytes: seq<byte>, at: nat, data: seq<byte>): seq<byte>
    requires at + |data| <= |bytes|
  {
    bytes[..at] + data + bytes[at + |data|..]
  }

  /** Where vListInsert puts an item of value `v`: in front of the first larger one. */
  function InFrontOfLarger(values: seq<int>, v: int): (i: nat)
    ensures i <= |values|
    ensures forall k :: 0 <= k < i ==> values[k] <= v
    ensures i < |values| ==> v < values[i]
  {
    if values == [] || v < values[0] then 0 else 1 + InFrontOfLarger(values[1..], v)
  }
}
