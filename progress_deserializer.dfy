/** The Gson adapter for the `progress` field of a photoscene reply. The
    reconstruction service sends progress either as a scalar or as an object
    (`{}` before processing starts); the adapter turns every shape into an
    optional string and never raises. */
module ProgressDeserializer {
  import opened Wrappers

  /** A JSON primitive and the text Gson's `getAsString` gives for it. */
  datatype JsonPrimitive =
    | JsonString(text: string)
    | JsonNumber(literal: string)
    | JsonBoolean(b: bool)
  {
    function AsString(): (s: string)
      ensures JsonBoolean? ==> s == (if b then "true" else "false")
      ensures JsonString? ==> s == text
      ensures JsonNumber? ==> s == literal
    {
      match this
      case JsonString(t) => t
      case JsonNumber(l) => l
      case JsonBoolean(v) => if v then "true" else "false"
    }
  }

  datatype JsonElement =
    | JsonNull
    | Primitive(p: JsonPrimitive)
    | JsonObject(members: seq<(string, JsonElement)>)
    | JsonArray(elements: seq<JsonElement>)

  /** `deserialize(json, ...)`: a missing element is `None`. */
  function Deserialize(json: Option<JsonElement>): (r: Option<string>)
    ensures r.None? <==> json.None? || json.value.JsonNull? || json.value.JsonArray?
    ensures json.Some? && json.value.Primitive? ==> r == Some(json.value.p.AsString())
    ensures json.Some? && json.value.JsonObject? ==> r == Some("0.0")
  {
    if json.None? || json.value.JsonNull? then None
    else if json.value.Primitive? then Some(json.value.p.AsString())
    else if json.value.JsonObject? then Some("0.0")
    else None
  }

  /** An object progress, empty or not, always reads as zero progress; in
      particular `{}` is not a parse failure. */
  lemma ObjectIsZeroProgress(members: seq<(string, JsonElement)>)
    ensures Deserialize(Some(JsonObject(members))) == Some("0.0")
    ensures Deserialize(Some(JsonObject([]))) == Some("0.0")
  {
  }

  /** A scalar progress keeps its own text, so "45.0" arrives as "45.0". */
  lemma ScalarProgressKeepsItsText(literal: string)
    ensures Deserialize(Some(Primitive(JsonNumber(literal)))) == Some(literal)
    ensures Deserialize(Some(Primitive(JsonString(literal)))) == Some(literal)
  {
  }
}
