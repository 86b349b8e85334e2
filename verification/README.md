# Insteon modem All-Link update codec and command-line reply record

This project models two serialisers from insteon-mqtt, a gateway between an
Insteon powerline modem (PLM) and an MQTT bus:

- **`OutAllLinkUpdate`** is the modem command that edits the modem's All-Link database
  (type tag `0x6f`). The gateway sends an 11-byte frame. The frame is the start marker
  `0x02`, the tag, a command byte, a 1-byte record-flags field, a group byte, a 3-byte
  device address and 3 data bytes. The modem echoes the frame back with one trailing
  status byte: `0x06` is ACK and anything else is NAK. So a received frame is 12 bytes
  (`fixed_msg_size`). The model follows the code here. The class docstring says 8 and 9
  bytes, but the code writes 11 and requires 12.
- **`Reply`** is the record the server sends to a command-line client. It has a
  three-valued type (`END`, `MESSAGE`, `ERROR`) and a free-form data value, and travels as
  the JSON object `{"type": …, "data": …}`.

Modules:

- `Wrappers` (wrappers.dfy) defines `Option` and `Result`.
- `Bytes` (bytes.dfy) defines `Byte` as `bv8`.
- `InsteonAddress` (address.dfy) is the 3-byte device address codec. It is read at
  offset 5 and written after the group byte.
- `DbFlagsCodec` (dbflags.dfy) is the 1-byte record-flags codec. Its bit positions are
  an assumption: they follow the usual Insteon All-Link record-flag layout, with bit 7 as
  in use and bit 6 as controller (clear means responder), because the flags class is not
  part of this model. The other six bits are kept verbatim, so the byte round-trips exactly.
- `AllLinkUpdate` (all_link_update.dfy) holds the message: constants, constructor
  validation, `to_bytes`, `from_bytes` and the command-label map.
- `MqttReply` (reply.dfy) holds the reply type, its string values, and the record
  encoding and decoding. A parsed JSON value is the `Json` datatype.

Python's `assert` failures and lookup errors become `Failure` values. Their error kinds
name the check that failed. A message built by the gateway has `isAck == None`. A message
read from the modem has `isAck == Some(status == 0x06)`.

## Model

| member | source | states |
|---|---|---|
| InsteonAddress.FromBytes | insteon_mqtt/message/OutAllLinkUpdate.py:55 | reading an address succeeds exactly when three bytes remain at the offset, and re-encoding the result gives back exactly those three bytes |
| InsteonAddress.ToBytes | insteon_mqtt/message/OutAllLinkUpdate.py:99 | the written address is exactly 3 bytes; its own contract says only the length, and its content is fixed by InsteonAddress.FromBytes (re-encoding what was read) and InsteonAddress.RoundTrip |
| InsteonAddress.ToBytesInjective | insteon_mqtt/message/OutAllLinkUpdate.py:99 | two addresses with the same 3-byte encoding are equal |
| InsteonAddress.RoundTrip | insteon_mqtt/message/OutAllLinkUpdate.py:55 | an encoded address placed anywhere in a buffer reads back as the same address |
| DbFlagsCodec.ToByte | insteon_mqtt/message/OutAllLinkUpdate.py:97 | under the assumed layout, the packed byte has bit 7 set iff the record is in use, bit 6 set iff it is a controller record, and the other bits equal the kept bits |
| DbFlagsCodec.ToBytes | insteon_mqtt/message/OutAllLinkUpdate.py:97 | the written flags field is exactly 1 byte; its own contract says only the length, and its content is fixed by DbFlagsCodec.FromBytes and DbFlagsCodec.RoundTrip |
| DbFlagsCodec.FromBytes | insteon_mqtt/message/OutAllLinkUpdate.py:53 | reading the flags succeeds exactly when a byte exists at the offset; the in-use and controller fields are bits 7 and 6 of that byte, the result is well formed, and re-encoding it reproduces that byte |
| DbFlagsCodec.ToByteInjective | insteon_mqtt/message/OutAllLinkUpdate.py:97 | two well-formed flag values with the same byte are equal |
| DbFlagsCodec.RoundTrip | insteon_mqtt/message/OutAllLinkUpdate.py:53 | encoded flags placed anywhere in a buffer read back as the same flags |
| AllLinkUpdate.MakeAsWritten | insteon_mqtt/message/OutAllLinkUpdate.py:76-86 | the constructor as written succeeds iff the command is one of SEARCH, UPDATE, ADD_CONTROLLER, ADD_RESPONDER or DELETE and the data is present with length 3; an invalid command fails with InvalidCommand before the data is looked at, and omitted data with a valid command fails with MissingData; on success every field is stored unchanged |
| AllLinkUpdate.Make | insteon_mqtt/message/OutAllLinkUpdate.py:61-86 | the intended constructor accepts exactly the five commands (EXISTS and any other byte give InvalidCommand) with absent or 3-byte data, and stores every field unchanged, with absent data becoming three zero bytes |
| AllLinkUpdate.MakeAgreesWhenDataGiven | insteon_mqtt/message/OutAllLinkUpdate.py:79-85 | when data is supplied, the intended constructor and the constructor as written give the same outcome |
| AllLinkUpdate.ToBytes | insteon_mqtt/message/OutAllLinkUpdate.py:89-101 | the sent frame is 11 bytes (fixed_msg_size - 1), laid out as 0x02, 0x6f, cmd, flags byte, group, three address bytes at 5..7 and the data at 8..10 |
| AllLinkUpdate.FromBytes | insteon_mqtt/message/OutAllLinkUpdate.py:49-58 | reading succeeds iff the buffer has at least 12 bytes, starts 0x02 0x6f and carries an accepted command; a shorter buffer gives IncompleteFrame and a wrong marker or tag gives BadHeader; a decoded message is valid, has isAck == (byte 11 == 0x06), and re-encodes to the first 11 bytes |
| AllLinkUpdate.ToBytesInjective | insteon_mqtt/message/OutAllLinkUpdate.py:95-101 | two valid messages with the same frame differ at most in their ACK field |
| AllLinkUpdate.EchoRoundTrip | insteon_mqtt/message/OutAllLinkUpdate.py:52-57 | a sent frame followed by any status byte reads back as the sent message, with isAck true exactly when the status byte is 0x06 |
| AllLinkUpdate.ToBytesIgnoresAck | insteon_mqtt/message/OutAllLinkUpdate.py:89-101 | the sent frame does not depend on the ACK field |
| AllLinkUpdate.SentFrameIsIncomplete | insteon_mqtt/message/OutAllLinkUpdate.py:39-41 | the output of to_bytes cannot be read by from_bytes, because it has no status byte |
| AllLinkUpdate.FromBytesReadsTwelveBytes | insteon_mqtt/message/OutAllLinkUpdate.py:52-57 | two buffers of at least 12 bytes that agree on their first 12 bytes read the same, so later bytes never matter |
| AllLinkUpdate.DecodeEncode | insteon_mqtt/message/OutAllLinkUpdate.py:52-57 | re-encoding a decoded message and appending its status byte gives exactly the first 12 bytes of the buffer |
| AllLinkUpdate.Label | insteon_mqtt/message/OutAllLinkUpdate.py:105-112 | a command has a diagnostic label exactly when it is EXISTS or an accepted command |
| AllLinkUpdate.LabelStrings | insteon_mqtt/message/OutAllLinkUpdate.py:105-112 | EXISTS is labelled "EXISTS", SEARCH "SEARCH", UPDATE "UPDATE", ADD_CONTROLLER "ADD_CTRL", ADD_RESPONDER "ADD_RESP" and DELETE "DELETE" |
| AllLinkUpdate.LabelInjective | insteon_mqtt/message/OutAllLinkUpdate.py:105-112 | different commands have different labels |
| AllLinkUpdate.UpdateScenario | insteon_mqtt/message/OutAllLinkUpdate.py:95-101 | UPDATE built by the constructor as written with flags 0x00, group 1, address 0a.14.1e and data 00 00 00 encodes to 02 6f 20 00 01 0a 14 1e 00 00 00, and its echo with 06 reads back acknowledged |
| MqttReply.Value | insteon_mqtt/mqtt/Reply.py:19-21 | the string value of each reply type is one of "END", "MESSAGE" and "ERROR"; MqttReply.ValuesAreDistinct fixes which one each type gets and that the three differ |
| MqttReply.ValuesAreDistinct | insteon_mqtt/mqtt/Reply.py:18-21 | there are exactly three reply types; END is written as "END", MESSAGE as "MESSAGE" and ERROR as "ERROR", and these strings are distinct |
| MqttReply.Lookup | insteon_mqtt/mqtt/Reply.py:34 | looking a reply type up by value succeeds exactly on the three value strings, and the type found is written as the value looked up |
| MqttReply.ToRecord | insteon_mqtt/mqtt/Reply.py:56 | the record has exactly the keys "type" and "data"; "type" holds the value of the reply's type and "data" holds the stored data |
| MqttReply.FromRecord | insteon_mqtt/mqtt/Reply.py:34 | reading a reply succeeds iff the value is an object with a "type" key holding one of the three value strings and a "data" key; the result's type is written as that string and its data is the "data" entry; a non-object and an unknown type string are rejected |
| MqttReply.RecordRoundTrip | insteon_mqtt/mqtt/Reply.py:56 | the record of a reply reads back as the same reply |
| MqttReply.RecordRoundTripConverse | insteon_mqtt/mqtt/Reply.py:34 | a record that reads as a reply equals that reply's record once its other keys are dropped |

## Left out

- `insteon_mqtt/mqtt/KeypadLinc.py` is left out. It is MQTT topic and handler wiring with device side effects and logging, and its only arithmetic is floating point.
- The `Address` and `DbFlags` classes and the `Base` message class are not part of this model. Address and flags are modelled as fixed-width codecs of 3 bytes and 1 byte. This matches the offsets that `from_bytes` uses. Their round trips are proved for these definitions.
- DbFlagsCodec.ToByte: the flags byte is modelled as lossless, with the six unnamed bits kept verbatim. `AllLinkUpdate.DecodeEncode` relies on this. A flags class that dropped unnamed bits would break it.
- The address's hex display string and `__str__` are left out, because they are only diagnostic formatting. Only the command-to-label map is modelled.
- There is no tag-to-decoder registry or dispatcher here, because no such code is part of this model.
- The group is typed as a byte. Python would raise in `bytes([group])` at write time for a value outside 0..255. The model does not represent such a value.
- `is_ack` is typed as `Option<bool>`, while Python accepts any object.
- The message's `data` field is typed as bytes, as the constructor's docstring describes it. Python's constructor accepts any object of length 3 there. A value that is not bytes fails only later, when `to_bytes` writes the frame. The model does not represent that value or that late error.
- The `isinstance` assertions in both constructors are enforced by Dafny's types.
- `Reply.__init__` is the `Reply` datatype constructor itself. Its `data=None` default is modelled as the default value `Null` of the `data` field. In the same way, the `data=None, is_ack=None` defaults of the message constructor are default parameter values of `AllLinkUpdate.MakeAsWritten` and `AllLinkUpdate.Make`.
- `json.dumps` and `json.loads` text are left out, and the record is modelled directly. JSON numbers are modelled as integers only, because floating point is left out.
- `from_bytes` reports its two header assertions as separate errors: `IncompleteFrame` for the length check and `BadHeader` for the marker and tag. Python raises one `AssertionError` for both.

## Findings

| source | as written | input that shows it | evidently intended | confidence | as-written member | corrected member |
|---|---|---|---|---|---|---|
| insteon_mqtt/message/OutAllLinkUpdate.py:79-85 | `len(data) == 3` is asserted before `data=None` is replaced by `bytes(3)`, so constructing without data raises | `OutAllLinkUpdate(0x20, flags, 1, addr)` with data omitted | an omitted data field is sent as three 0x00 bytes, as the docstring at line 70 and the default at line 85 say | high; not executed | AllLinkUpdate.MakeAsWritten | AllLinkUpdate.Make |
