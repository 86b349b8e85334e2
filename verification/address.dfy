/** The 3-byte Insteon device address and its wire codec. */
module InsteonAddress {
  import opened Bytes
  import opened Wrappers

  /** Number of bytes an address occupies in a frame. */
  const Size: nat := 3

  /** A device address: its three raw bytes, in wire order. */
  datatype Address = Address(hi: Byte, mid: Byte, lo: Byte)

  /** The address as it is written into a frame. */
  function ToBytes(a: Address): (r: seq<Byte>)
    ensures |r| == Size
  {
    [a.hi, a.mid, a.lo]
  }

  /** Reads an address starting at `offset`; fails when fewer than three bytes remain. */
  function FromBytes(raw: seq<Byte>, offset: nat): (r: Option<Address>)
    ensures r.Some? <==> offset + Size <= |raw|
    ensures r.Some? ==> ToBytes(r.value) == raw[offset..offset + Size]
  {
    if offset + Size <= |raw| then Some(Address(raw[offset], raw[offset + 1], raw[offset + 2]))
    else None
  }

  /** Distinct addresses never share an encoding. */
  lemma ToBytesInjective(a: Address, b: Address)
    requires ToBytes(a) == ToBytes(b)
    ensures a == b
  {
  }

  /** An encoded address embedded anywhere in a buffer reads back as itself. */
  lemma RoundTrip(a: Address, prefix: seq<Byte>, suffix: seq<Byte>)
    ensures FromBytes(prefix + ToBytes(a) + suffix, |prefix|) == Some(a)
  {
  }
}
