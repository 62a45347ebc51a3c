/** The JSON document model (serde_json's `Value`) and the text codec.

    Text parsing and serialisation are not modelled character by character:
    a `Serde` value carries them as functions, and each property that needs a
    law of the real codec states that law as a precondition. */
module Json {
  import opened Wrappers

  /** A JSON value. Numbers are kept as integers; object keys are unique. */
  datatype Value =
    | Null
    | Bool(b: bool)
    | Number(n: int)
    | String(s: string)
    | Array(items: seq<Value>)
    | Object(fields: map<string, Value>)

  /** A named record: a file stem, an object key or an output name, with its document. */
  type Entry = (string, Value)

  /** The outcome of `serde_json::from_str`: a value, a failure that
      `Error::is_eof` classes as running out of input, or any other failure. */
  datatype Parsed = Parsed(value: Value) | Eof | Malformed

  /** serde_json's text codec: compact (`to_string`) and pretty
      (`to_string_pretty`) serialisation, and parsing. */
  datatype Serde = Serde(compact: Value -> string, pretty: Value -> string, parse: string -> Parsed)

  /** Parsing an empty text runs out of input. */
  predicate EmptyIsEof(serde: Serde)
  {
    serde.parse([]) == Eof
  }

  /** Parsing a compact serialisation gives the value back. */
  ghost predicate CompactRoundTrips(serde: Serde)
  {
    forall v :: serde.parse(serde.compact(v)) == Parsed(v)
  }

  /** A compact serialisation followed by a line break, as one line of NDJSON is read,
      also parses back to the value: trailing whitespace is allowed. */
  ghost predicate CompactLinesRoundTrip(serde: Serde)
  {
    forall v :: serde.parse(serde.compact(v) + "\n") == Parsed(v)
  }

  /** The serialisation a writer uses, chosen by its `pretty` flag alone. */
  function Serialize(serde: Serde, pretty: bool, v: Value): string
  {
    if pretty then serde.pretty(v) else serde.compact(v)
  }

  /** `Value::as_str`. */
  function AsStr(v: Value): Option<string>
  {
    if v.String? then Some(v.s) else None
  }

  /** `Value::as_str(..).unwrap_or_default()`: the string, or "" for any other value. */
  function StrOrEmpty(v: Value): string
  {
    if v.String? then v.s else []
  }

  /** The names of a sequence of entries, in order. */
  function Names(es: seq<Entry>): (ns: seq<string>)
    ensures |ns| == |es| && forall k :: 0 <= k < |es| ==> ns[k] == es[k].0
  {
    if es == [] then [] else [es[0].0] + Names(es[1..])
  }

  /** No two entries share a name. */
  predicate DistinctNames(es: seq<Entry>)
  {
    forall i, j :: 0 <= i < j < |es| ==> es[i].0 != es[j].0
  }
}
