/**
 JSON texts as value trees, with the kinds of value of section 3 of RFC 8259. Integer literals are
 told apart from numbers with a fraction or an exponent, because only the former decode to integers.
 */
module Json {
  import opened Topology

  datatype Json =
    | JNull
    | JBool(value: bool)
    | JInt(n: int)
    | JFrac(r: real)
    | JString(s: string)
    | JArray(items: seq<Json>)
    | JObject(fields: seq<(string, Json)>)

  /** The text codecs the decoder relies on; their exactness is a hypothesis where it matters. */
  datatype Codec = Codec(
    sizeText: nat -> string,
    sizeOf: string -> Option<int>,               // RAMInBytes
    durationText: int -> string,
    durationOf: string -> Option<int>,           // ParseDuration
    rateOf: string -> Option<real>)              // the fraction a percent text stands for

  datatype DecodeError =
    | TypeMismatch
    | InvalidSize(text: string)
    | NegativeSize(n: int)
    | InvalidDuration(text: string)
    | InvalidPercentage(text: string)
    | OutOfRange(rate: real)
    | InvalidServiceType(text: string)
    | UnknownCommandKey(key: string)
    | MultipleKeysInCommand
    | EmptyName
}
