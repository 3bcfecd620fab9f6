/** The values that flow through the gateway: a feature collection as the
    upstream service returns it, and the properties the routes inspect. */
module Geo {
  import opened Wrappers

  /** A property as `feature["properties"].get(name, ...)` sees it: missing,
      an explicit JSON null, or an integer. */
  datatype Prop = Absent | Null | Num(n: int)

  /** One event: its id (standing for the fields no route inspects) and the two
      properties the routes filter on. */
  datatype Feature = Feature(id: string, felt: Prop, tsunami: Prop)

  /** Name/value pairs in insertion order, as a Python dict of strings. */
  type Pairs = seq<(string, string)>

  /** A geoJSON object: its `type`, an optional `metadata` block and `features`. */
  datatype Collection = Collection(kind: string, metadata: Option<Pairs>, features: seq<Feature>)

  const FeatureCollectionType := "FeatureCollection"
}
