/**
 * The reply the server sends to a command-line client: a reply type and a
 * free-form data value, carried as a two-key JSON object.
 */
module MqttReply {
  import opened Wrappers

  /** A JSON value, as produced by parsing the reply text. */
  datatype Json =
    | Null
    | Bool(b: bool)
    | Num(n: int)
    | Str(s: string)
    | Arr(items: seq<Json>)
    | Obj(fields: map<string, Json>)

  /** The three kinds of reply. */
  datatype ReplyType =
    | End      // the command has finished
    | Message  // a general status message
    | Error    // an error message

  /** The string each reply type is written as. */
  function Value(t: ReplyType): (s: string)
    ensures s in Values
  {
    match t
    case End => "END"
    case Message => "MESSAGE"
    case Error => "ERROR"
  }

  /** Every string some reply type is written as. */
  const Values: set<string> := {"END", "MESSAGE", "ERROR"}

  /** The reply types are exactly three, each written as its own name, and the strings are distinct. */
  lemma ValuesAreDistinct()
    ensures Value(End) == "END" && Value(Message) == "MESSAGE" && Value(Error) == "ERROR"
    ensures forall t :: Value(t) in Values
    ensures forall s :: s in Values ==> exists t :: Value(t) == s
    ensures forall t, u :: Value(t) == Value(u) ==> t == u
  {
  }

  /** Looks a reply type up by its written value; only the three strings are found. */
  function Lookup(v: Json): (r: Option<ReplyType>)
    ensures r.Some? <==> v.Str? && v.s in Values
    ensures r.Some? ==> v == Str(Value(r.value))
  {
    match v
    case Str(s) =>
      if s == "END" then Some(End)
      else if s == "MESSAGE" then Some(Message)
      else if s == "ERROR" then Some(Error)
      else None
    case _ => None
  }

  /** A reply: its type and whatever data it carries (`Null` when none was given). */
  datatype Reply = Reply(kind: ReplyType, data: Json := Null)

  /** Why a JSON value could not be read as a reply. */
  datatype ReadError =
    | NotAnObject             // the value cannot be indexed by key
    | MissingKey(key: string) // the object lacks a required key
    | UnknownType(value: Json) // the "type" entry names no reply type

  /** The JSON object a reply is sent as. */
  function ToRecord(r: Reply): (d: Json)
    ensures d.Obj? && d.fields.Keys == {"type", "data"}
    ensures Lookup(d.fields["type"]) == Some(r.kind)
    ensures d.fields["data"] == r.data
  {
    Obj(map["type" := Str(Value(r.kind)), "data" := r.data])
  }

  /**
   * Reads a reply back from a JSON value. The "type" entry is read and
   * looked up before the "data" entry is read; other keys are ignored.
   */
  function FromRecord(d: Json): (r: Result<Reply, ReadError>)
    ensures r.Success? <==> d.Obj? && "type" in d.fields && "data" in d.fields
                            && Lookup(d.fields["type"]).Some?
    ensures r.Success? ==> d.fields["type"] == Str(Value(r.value.kind)) && d.fields["data"] == r.value.data
    ensures !d.Obj? ==> r == Failure(NotAnObject)
    ensures d.Obj? && "type" in d.fields && Lookup(d.fields["type"]).None?
            ==> r == Failure(UnknownType(d.fields["type"]))
  {
    match d
    case Obj(fields) =>
      if "type" !in fields then Failure(MissingKey("type"))
      else
        (match Lookup(fields["type"])
         case None => Failure(UnknownType(fields["type"]))
         case Some(kind) =>
           if "data" !in fields then Failure(MissingKey("data"))
           else Success(Reply(kind, fields["data"])))
    case _ => Failure(NotAnObject)
  }

  /** A reply sent as a record reads back as itself. */
  lemma RecordRoundTrip(r: Reply)
    ensures FromRecord(ToRecord(r)) == Success(r)
  {
  }

  /** A record that reads as a reply is, on its two keys, the record that reply is sent as. */
  lemma RecordRoundTripConverse(d: Json, r: Reply)
    requires FromRecord(d) == Success(r)
    ensures ToRecord(r) == Obj(map k | k in d.fields && k in {"type", "data"} :: d.fields[k])
  {
  }
}
