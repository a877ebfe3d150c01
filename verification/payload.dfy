/** The Python values that flow through the plugin, and the decoded shape of a
    geocoder response body. */
module Payload {
  import opened Wrappers
  import PyDict

  /** A Python scalar: an attribute value of an input or output feature, a
      request parameter value, or a JSON scalar inside a response. */
  datatype Value = Null | Bool(b: bool) | Int(i: int) | Float(x: real) | Str(s: string)

  /** Python truthiness of a scalar. */
  predicate Truthy(v: Value)
  {
    match v
    case Null => false
    case Bool(b) => b
    case Int(i) => i != 0
    case Float(x) => x != 0.0
    case Str(s) => |s| > 0
  }

  /** The `geocoding` object of a body: optional `warnings` and `errors` lists. */
  datatype Geocoding = Geocoding(warnings: Option<seq<string>>, errors: Option<seq<string>>)

  /** One element of `features`: `geometry.coordinates` as (lon, lat) and the
      `properties` object in its JSON order. */
  datatype ResultItem = ResultItem(lon: real, lat: real, properties: PyDict.Dict<Value>)

  /** A decoded response body: the optional `geocoding` object and the `features` list. */
  datatype Body = Body(geocoding: Option<Geocoding>, features: seq<ResultItem>)

  /** What the HTTP layer hands back: the status code and the decoded body. */
  datatype HttpResponse = HttpResponse(status: int, body: Body)
}
