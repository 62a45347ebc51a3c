/** The field codec: a JSON value is escaped into a JSON string holding its
    compact serialisation, and such a string is unescaped back into a value. */
module JsonField {
  import opened Json
  import opened Text

  /** A field about to be escaped or unescaped: a string, or any other value. */
  datatype Field = StringField(s: string) | ValueField(v: Value)

  /** The two-character sequence `\"` that unescaping turns into `"`. */
  const ESCAPED_QUOTE: string := ['\\', '"']

  /** `From<Value>`: a JSON string becomes the string variant, everything else is kept whole. */
  function FromValue(json: Value): (f: Field)
    ensures f.StringField? <==> json.String?
    ensures f.ValueField? ==> f.v == json
    ensures f.StringField? ==> String(f.s) == json
  {
    match json
    case String(s) => StringField(s)
    case _ => ValueField(json)
  }

  /** `From<String>`. */
  function FromString(s: string): (f: Field)
    ensures f.StringField? && f.s == s
  {
    StringField(s)
  }

  /** `escape`: a string stays as it is; any other value becomes the string of its compact text. */
  function Escape(f: Field, serde: Serde): (r: Value)
    ensures r.String?
  {
    match f
    case StringField(s) => String(s)
    case ValueField(json) => String(serde.compact(json))
  }

  /** `unescape`: a string is parsed after every `\"` becomes `"`, and a failed parse
      gives null; any other value is returned unchanged. */
  function Unescape(f: Field, serde: Serde): (r: Value)
    ensures f.ValueField? ==> r == f.v
  {
    match f
    case StringField(s) =>
      (match serde.parse(ReplaceAll(s, ESCAPED_QUOTE, ['"']))
        case Parsed(v) => v
        case _ => Null)
    case ValueField(json) => json
  }

  /** Escaping a JSON string gives back the same string. */
  lemma EscapeString(s: string, serde: Serde)
    ensures Escape(FromValue(String(s)), serde) == String(s)
  {
  }

  /** Escaping any other value gives the string of its compact serialisation. */
  lemma EscapeNonString(v: Value, serde: Serde)
    requires !v.String?
    ensures Escape(FromValue(v), serde) == String(serde.compact(v))
  {
  }

  /** Escaping is idempotent: an escaped value is a string, which escaping keeps. */
  lemma EscapeIdempotent(v: Value, serde: Serde)
    ensures Escape(FromValue(Escape(FromValue(v), serde)), serde) == Escape(FromValue(v), serde)
  {
  }

  /** Unescaping a string that does not parse gives null. */
  lemma UnescapeMalformed(s: string, serde: Serde)
    requires !serde.parse(ReplaceAll(s, ESCAPED_QUOTE, ['"'])).Parsed?
    ensures Unescape(FromValue(String(s)), serde) == Null
  {
  }

  /** Unescaping a string holding the compact text of `v`, with no `\"` in it, gives `v`. */
  lemma UnescapeCompact(v: Value, serde: Serde)
    requires CompactRoundTrips(serde) && !Contains(serde.compact(v), ESCAPED_QUOTE)
    ensures Unescape(StringField(serde.compact(v)), serde) == v
  {
    ReplaceAbsent(serde.compact(v), ESCAPED_QUOTE, ['"']);
  }

  /** Round trip: a non-string value whose compact text has no `\"` survives escape then unescape. */
  lemma EscapeUnescapeRoundTrip(v: Value, serde: Serde)
    requires CompactRoundTrips(serde) && !v.String? && !Contains(serde.compact(v), ESCAPED_QUOTE)
    ensures Unescape(FromValue(Escape(FromValue(v), serde)), serde) == v
  {
    UnescapeCompact(v, serde);
  }
}
