/** The values that the two geodata services hand back to the crawler, as far
    as the crawler looks at them. The services themselves are not modelled:
    the crawler's methods receive them as function-typed parameters. */
module Osm {

  /** A longitude/latitude pair. The crawler only carries coordinates along,
      so nothing depends on how they are represented. */
  datatype LonLat = LonLat(lon: real, lat: real)

  /** The tag or address mapping of an OpenStreetMap element. */
  type Tags = map<string, string>

  /** One entry of the JSON list that a free-text name-resolver query returns:
      `osm_type` is "node", "way" or "relation". */
  datatype Candidate = Candidate(osmType: string, osmId: int, displayName: string)

  /** A name-resolver search: by free text, or with the name given for one
      structured field ("country", "state"); both carry the language hint. */
  datatype NominatimQuery =
    | FreeText(text: string, language: string)
    | Structured(field: string, value: string, language: string)

  /** An administrative-boundary relation found by the spatial query.
      `areaId` is the service's area number for the relation. */
  datatype Relation = Relation(id: int, areaId: int, tags: Tags)

  /** A populated-place node found by the spatial query. */
  datatype PlaceNode = PlaceNode(id: int, position: LonLat)

  /** The element a geometry or address lookup asks about. The lookup itself
      names it by the text `ElementPath` gives. */
  datatype ElementRef = NodeRef(id: int) | RelationRef(id: int)

  /** A boundary geometry after parsing its well-known text. Only the exterior
      ring of each polygon is used by the crawler. */
  datatype Geometry =
    | MultiPolygon(exteriors: seq<seq<LonLat>>)
    | Polygon(exterior: seq<LonLat>)
    | OtherGeometry(geomType: string)
}
