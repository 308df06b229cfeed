/**
 * `GeoDistanceConditionBuilder`: a mutable builder that stores the parameters of
 * a geo-distance search and copies them into an immutable condition.
 */
module GeoDistance {
  import opened Results

  /** A Java `double` coordinate; the builder only stores and copies it. */
  type Double

  /** The relevance boost held by the `ConditionBuilder` superclass; only copied here. */
  type Boost(0)

  /** `GeoDistanceCondition(boost, field, latitude, longitude, minDistance, maxDistance)`. */
  datatype GeoDistanceCondition = GeoDistanceCondition(
    boost: Boost,
    field: string,
    latitude: Double,
    longitude: Double,
    minDistance: Option<string>,
    maxDistance: string)

  class GeoDistanceConditionBuilder {
    var boost: Boost
    var field: string
    var latitude: Double
    var longitude: Double
    var minDistance: Option<string>
    var maxDistance: string

    /** Stores the four required parameters; the minimum distance starts out null
        and the boost is whatever the superclass starts with. */
    constructor (field: string, latitude: Double, longitude: Double, maxDistance: string)
      ensures this.field == field && this.latitude == latitude && this.longitude == longitude
      ensures this.maxDistance == maxDistance
      ensures this.minDistance == None
    {
      this.field := field;
      this.longitude := longitude;
      this.latitude := latitude;
      this.maxDistance := maxDistance;
      this.minDistance := None;
    }

    /** `setMinDistance(minDistance)`: sets only the minimum distance and returns
        the same builder. */
    method SetMinDistance(minDistance: Option<string>) returns (self: GeoDistanceConditionBuilder)
      modifies this
      ensures self == this
      ensures this.minDistance == minDistance
      ensures boost == old(boost) && field == old(field) && latitude == old(latitude)
      ensures longitude == old(longitude) && maxDistance == old(maxDistance)
    {
      this.minDistance := minDistance;
      self := this;
    }

    /** `build()`: reads the builder without changing it, and the condition carries
        every parameter exactly as the builder holds it. */
    function Build(): (c: GeoDistanceCondition)
      reads this
      ensures c.boost == boost && c.field == field
      ensures c.latitude == latitude && c.longitude == longitude
      ensures c.minDistance == minDistance && c.maxDistance == maxDistance
    {
      GeoDistanceCondition(boost, field, latitude, longitude, minDistance, maxDistance)
    }
  }

  /** A builder built straight after construction gives a condition with the four
      given parameters and no minimum distance. */
  method BuildWithoutMinDistance(field: string, latitude: Double, longitude: Double, maxDistance: string)
    returns (c: GeoDistanceCondition)
    ensures c.field == field && c.latitude == latitude && c.longitude == longitude
    ensures c.maxDistance == maxDistance && c.minDistance == None
  {
    var builder := new GeoDistanceConditionBuilder(field, latitude, longitude, maxDistance);
    c := builder.Build();
  }

  /** Setting the minimum distance before building puts exactly that distance in
      the condition and leaves the other parameters as constructed; building
      twice gives equal conditions. */
  method BuildWithMinDistance(field: string, latitude: Double, longitude: Double, minDistance: string, maxDistance: string)
    returns (c: GeoDistanceCondition, again: GeoDistanceCondition)
    ensures c.field == field && c.latitude == latitude && c.longitude == longitude
    ensures c.maxDistance == maxDistance && c.minDistance == Some(minDistance)
    ensures again == c
  {
    var builder := new GeoDistanceConditionBuilder(field, latitude, longitude, maxDistance);
    var same := builder.SetMinDistance(Some(minDistance));
    c := same.Build();
    again := builder.Build();
  }
}
