/**
 * The modem's "All-Link database update" command (type tag 0x6f).
 *
 * The gateway sends an 11-byte frame: start marker, tag, command, flags, group,
 * address and three data bytes. The modem echoes the same frame back with one
 * trailing status byte (0x06 for ACK, anything else for NAK), so a received
 * frame is 12 bytes long.
 */
module AllLinkUpdate {
  import opened Bytes
  import opened Wrappers
  import InsteonAddress
  import DbFlagsCodec

  /** Every frame to or from the modem starts with this byte. */
  const StartMarker: Byte := 0x02
  /** The type tag of this message, at offset 1. */
  const MsgCode: Byte := 0x6f
  /** Size of the modem's echo of this message, status byte included. */
  const FixedMsgSize: nat := 12
  /** The status byte meaning the modem accepted the command. */
  const AckByte: Byte := 0x06
  /** Length of the opaque data field. */
  const DataSize: nat := 3

  // Command bytes.
  const Exists: Byte := 0x00
  const Search: Byte := 0x01
  const Update: Byte := 0x20
  const AddController: Byte := 0x40
  const AddResponder: Byte := 0x41
  const Delete: Byte := 0x80

  /** The commands the constructor accepts; `Exists` is declared but not among them. */
  predicate ValidCmd(cmd: Byte) {
    cmd in [Search, Update, AddController, AddResponder, Delete]
  }

  /** Why a message could not be built or read. */
  datatype Error =
    | IncompleteFrame  // fewer bytes than an echoed frame holds
    | BadHeader        // the start marker or the type tag is wrong
    | InvalidCommand   // the command byte is not one the constructor accepts
    | MissingData      // no data field was given
    | BadDataLength    // the data field is not exactly three bytes

  /**
   * One message. `isAck` is `None` on a message built to be sent and
   * `Some(ack)` on one read back from the modem.
   */
  datatype Msg = Msg(
    cmd: Byte,
    dbFlags: DbFlagsCodec.DbFlags,
    group: Byte,
    addr: InsteonAddress.Address,
    data: seq<Byte>,
    isAck: Option<bool>)
  {
    /** What every successfully constructed message satisfies. */
    predicate Valid() {
      ValidCmd(cmd) && dbFlags.Valid() && |data| == DataSize
    }
  }

  /**
   * The constructor exactly as written: the data-length check runs before
   * the default for a missing data field is applied, so omitting the data
   * always fails.
   */
  function MakeAsWritten(cmd: Byte, dbFlags: DbFlagsCodec.DbFlags, group: Byte, addr: InsteonAddress.Address,
                         data: Option<seq<Byte>> := None, isAck: Option<bool> := None): (r: Result<Msg, Error>)
    requires dbFlags.Valid()
    ensures r.Success? <==> ValidCmd(cmd) && data.Some? && |data.value| == DataSize
    ensures !ValidCmd(cmd) ==> r == Failure(InvalidCommand)
    ensures ValidCmd(cmd) && data.None? ==> r == Failure(MissingData)
    ensures r.Success? ==> r.value.Valid() && r.value == Msg(cmd, dbFlags, group, addr, data.value, isAck)
  {
    if !ValidCmd(cmd) then Failure(InvalidCommand)
    else if data.None? then Failure(MissingData)
    else if |data.value| != DataSize then Failure(BadDataLength)
    else Success(Msg(cmd, dbFlags, group, addr, data.value, isAck))
  }

  /**
   * The constructor as intended: a missing data field stands for three zero
   * bytes. An invalid command is reported before a bad data length.
   */
  function Make(cmd: Byte, dbFlags: DbFlagsCodec.DbFlags, group: Byte, addr: InsteonAddress.Address,
                data: Option<seq<Byte>> := None, isAck: Option<bool> := None): (r: Result<Msg, Error>)
    requires dbFlags.Valid()
    ensures r.Success? <==> ValidCmd(cmd) && (data.None? || |data.value| == DataSize)
    ensures !ValidCmd(cmd) ==> r == Failure(InvalidCommand)
    ensures r.Success? ==> r.value.Valid()
    ensures r.Success? ==> r.value.cmd == cmd && r.value.dbFlags == dbFlags && r.value.group == group
                           && r.value.addr == addr && r.value.isAck == isAck
    ensures r.Success? ==> r.value.data == (if data.Some? then data.value else [0, 0, 0])
  {
    if !ValidCmd(cmd) then Failure(InvalidCommand)
    else
      var d := if data.Some? then data.value else [0, 0, 0];
      if |d| != DataSize then Failure(BadDataLength)
      else Success(Msg(cmd, dbFlags, group, addr, d, isAck))
  }

  /** When the data field is given, the intended constructor and the one as written agree. */
  lemma MakeAgreesWhenDataGiven(cmd: Byte, dbFlags: DbFlagsCodec.DbFlags, group: Byte, addr: InsteonAddress.Address,
                                data: seq<Byte>, isAck: Option<bool>)
    requires dbFlags.Valid()
    ensures Make(cmd, dbFlags, group, addr, Some(data), isAck) == MakeAsWritten(cmd, dbFlags, group, addr, Some(data), isAck)
  {
  }

  /** The frame sent to the modem: 11 bytes, never a status byte. */
  function ToBytes(m: Msg): (r: seq<Byte>)
    requires m.Valid()
    ensures |r| == FixedMsgSize - 1
    ensures r[0] == StartMarker && r[1] == MsgCode && r[2] == m.cmd
    ensures r[3..4] == DbFlagsCodec.ToBytes(m.dbFlags)
    ensures r[4] == m.group
    ensures r[5..8] == InsteonAddress.ToBytes(m.addr)
    ensures r[8..11] == m.data
  {
    [StartMarker, MsgCode, m.cmd] + DbFlagsCodec.ToBytes(m.dbFlags) + [m.group]
    + InsteonAddress.ToBytes(m.addr) + m.data
  }

  /**
   * Reads the modem's echo of this message from the front of `raw`. Only the
   * first 12 bytes are looked at; the status byte at offset 11 decides `isAck`.
   */
  function FromBytes(raw: seq<Byte>): (r: Result<Msg, Error>)
    ensures r.Success? <==> FixedMsgSize <= |raw| && raw[0] == StartMarker && raw[1] == MsgCode
                            && ValidCmd(raw[2])
    ensures |raw| < FixedMsgSize ==> r == Failure(IncompleteFrame)
    ensures FixedMsgSize <= |raw| && (raw[0] != StartMarker || raw[1] != MsgCode) ==> r == Failure(BadHeader)
    ensures r.Success? ==> r.value.Valid() && r.value.isAck == Some(raw[11] == AckByte)
    ensures r.Success? ==> ToBytes(r.value) == raw[..FixedMsgSize - 1]
  {
    if |raw| < FixedMsgSize then Failure(IncompleteFrame)
    else if raw[0] != StartMarker || raw[1] != MsgCode then Failure(BadHeader)
    else
      var flags := DbFlagsCodec.FromBytes(raw, 3).value;
      var addr := InsteonAddress.FromBytes(raw, 5).value;
      MakeAsWritten(raw[2], flags, raw[4], addr, Some(raw[8..11]), Some(raw[11] == AckByte))
  }

  /** Two valid messages with the same frame differ at most in `isAck`. */
  lemma ToBytesInjective(m: Msg, n: Msg)
    requires m.Valid() && n.Valid()
    requires ToBytes(m) == ToBytes(n)
    ensures m.(isAck := n.isAck) == n
  {
  }

  /** The modem's echo of a sent frame reads back as the sent message, with the status byte as `isAck`. */
  lemma EchoRoundTrip(m: Msg, status: Byte)
    requires m.Valid()
    ensures FromBytes(ToBytes(m) + [status]) == Success(m.(isAck := Some(status == AckByte)))
  {
  }

  /** The frame never depends on `isAck`: no status byte is ever emitted. */
  lemma ToBytesIgnoresAck(m: Msg, ack: Option<bool>)
    requires m.Valid()
    ensures ToBytes(m.(isAck := ack)) == ToBytes(m)
  {
  }

  /** A frame as sent cannot be read back: it lacks the status byte. */
  lemma SentFrameIsIncomplete(m: Msg)
    requires m.Valid()
    ensures FromBytes(ToBytes(m)) == Failure(IncompleteFrame)
  {
  }

  /** Bytes past offset 11 never change what is read. */
  lemma FromBytesReadsTwelveBytes(raw: seq<Byte>, other: seq<Byte>)
    requires FixedMsgSize <= |raw| && FixedMsgSize <= |other|
    requires raw[..FixedMsgSize] == other[..FixedMsgSize]
    ensures FromBytes(raw) == FromBytes(other)
  {
    forall i | 0 <= i < FixedMsgSize
      ensures raw[i] == other[i]
    {
      assert raw[i] == raw[..FixedMsgSize][i];
    }
    assert raw[8..11] == other[8..11];
  }

  /** Reading a frame and sending the result reproduces the frame minus its status byte. */
  lemma DecodeEncode(raw: seq<Byte>, m: Msg)
    requires FromBytes(raw) == Success(m)
    ensures ToBytes(m) + [raw[11]] == raw[..FixedMsgSize]
  {
  }

  /** The diagnostic label of each command byte, `Exists` included. */
  function Label(cmd: Byte): (r: Option<string>)
    ensures r.Some? <==> cmd == Exists || ValidCmd(cmd)
  {
    if cmd == Exists then Some("EXISTS")
    else if cmd == Search then Some("SEARCH")
    else if cmd == Update then Some("UPDATE")
    else if cmd == AddController then Some("ADD_CTRL")
    else if cmd == AddResponder then Some("ADD_RESP")
    else if cmd == Delete then Some("DELETE")
    else None
  }

  /** Each command carries the label the diagnostic rendering prints for it. */
  lemma LabelStrings()
    ensures Label(Exists) == Some("EXISTS") && Label(Search) == Some("SEARCH") && Label(Update) == Some("UPDATE")
    ensures Label(AddController) == Some("ADD_CTRL") && Label(AddResponder) == Some("ADD_RESP")
    ensures Label(Delete) == Some("DELETE")
  {
  }

  /** Distinct commands carry distinct labels. */
  lemma LabelInjective(a: Byte, b: Byte)
    requires Label(a).Some? && Label(a) == Label(b)
    ensures a == b
  {
  }

  /** Building an UPDATE for group 1, address 0a.14.1e and data 00 00 00, sending it, and reading the acknowledged echo. */
  lemma UpdateScenario()
    ensures
      var flags := DbFlagsCodec.DbFlags(false, false, 0);
      var addr := InsteonAddress.Address(0x0a, 0x14, 0x1e);
      var m := MakeAsWritten(Update, flags, 1, addr, Some([0, 0, 0]));
      && m.Success?
      && ToBytes(m.value) == [0x02, 0x6f, 0x20, 0x00, 0x01, 0x0a, 0x14, 0x1e, 0x00, 0x00, 0x00]
      && FromBytes(ToBytes(m.value) + [0x06]) == Success(m.value.(isAck := Some(true)))
  {
  }
}
