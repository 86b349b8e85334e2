/**
 * The 1-byte flags field of an All-Link database record and its wire codec.
 * The bit positions are assumed from the usual Insteon record-flag layout.
 */
module DbFlagsCodec {
  import opened Bytes
  import opened Wrappers

  /** Bit 7: the record is in use. */
  const InUseBit: Byte := 0x80
  /** Bit 6: the modem is the controller (set) or a responder (clear) of the link. */
  const ControllerBit: Byte := 0x40

  /** The flags byte split into its named bits; `other` keeps the remaining six bits verbatim. */
  datatype DbFlags = DbFlags(inUse: bool, isController: bool, other: Byte) {
    /** The remaining bits never overlap the named ones. */
    predicate Valid() {
      other & (InUseBit | ControllerBit) == 0
    }
  }

  /** The flags packed back into one byte. */
  function ToByte(f: DbFlags): (b: Byte)
    requires f.Valid()
    ensures ((b & InUseBit) != 0) == f.inUse
    ensures ((b & ControllerBit) != 0) == f.isController
    ensures b & !(InUseBit | ControllerBit) == f.other
  {
    (if f.inUse then InUseBit else 0) | (if f.isController then ControllerBit else 0) | f.other
  }

  /** The flags as they are written into a frame. */
  function ToBytes(f: DbFlags): (r: seq<Byte>)
    requires f.Valid()
    ensures |r| == 1
  {
    [ToByte(f)]
  }

  /** Reads the flags byte at `offset`; fails when no byte remains there. */
  function FromBytes(raw: seq<Byte>, offset: nat): (r: Option<DbFlags>)
    ensures r.Some? <==> offset < |raw|
    ensures r.Some? ==> r.value.Valid() && ToBytes(r.value) == raw[offset..offset + 1]
    ensures r.Some? ==> r.value.inUse == ((raw[offset] & InUseBit) != 0)
                        && r.value.isController == ((raw[offset] & ControllerBit) != 0)
  {
    if offset < |raw| then
      var b := raw[offset];
      Some(DbFlags((b & InUseBit) != 0, (b & ControllerBit) != 0, b & !(InUseBit | ControllerBit)))
    else None
  }

  /** Distinct well-formed flags never share an encoding. */
  lemma ToByteInjective(f: DbFlags, g: DbFlags)
    requires f.Valid() && g.Valid()
    requires ToByte(f) == ToByte(g)
    ensures f == g
  {
  }

  /** Encoded flags embedded anywhere in a buffer read back as themselves. */
  lemma RoundTrip(f: DbFlags, prefix: seq<Byte>, suffix: seq<Byte>)
    requires f.Valid()
    ensures FromBytes(prefix + ToBytes(f) + suffix, |prefix|) == Some(f)
  {
  }
}
