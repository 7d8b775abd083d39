/** The tables of the `location` application: the five levels of the Codifier of
    Administrative-Territorial Units and Territories of Territorial Communities (CATOTTG),
    each keyed by its unique code, a parent held as the parent's code. */
module LocationData {
  import opened Common

  datatype Region = Region(name: string, category: string)
  datatype District = District(name: string, region: string)
  datatype Community = Community(name: string, district: string)
  datatype Settlement = Settlement(name: string, category: string, community: string)
  datatype CityDistrict = CityDistrict(name: string, settlement: string)

  datatype Geo = Geo(
    regions: map<string, Region>,
    districts: map<string, District>,
    communities: map<string, Community>,
    settlements: map<string, Settlement>,
    cityDistricts: map<string, CityDistrict>)

  /** Every parent code names an existing row one level up. */
  predicate Consistent(g: Geo)
  {
    && (forall c :: c in g.districts ==> g.districts[c].region in g.regions)
    && (forall c :: c in g.communities ==> g.communities[c].district in g.districts)
    && (forall c :: c in g.settlements ==> g.settlements[c].community in g.communities)
    && (forall c :: c in g.cityDistricts ==> g.cityDistricts[c].settlement in g.settlements)
  }

  /** The location lookup both importers share: the Settlement with this code, else the
      settlement of the CityDistrict with this code, else nothing. The result is the code
      of a Settlement. */
  function ResolveSettlement(g: Geo, code: string): (r: Option<string>)
    ensures r.Some? <==> code in g.settlements || code in g.cityDistricts
    ensures code in g.settlements ==> r == Some(code)
    ensures code !in g.settlements && code in g.cityDistricts ==> r == Some(g.cityDistricts[code].settlement)
    ensures Consistent(g) && r.Some? ==> r.value in g.settlements
  {
    if code in g.settlements then Some(code)
    else if code in g.cityDistricts then Some(g.cityDistricts[code].settlement)
    else None
  }

  /** The database of the `location` application. */
  class GeoStore {
    var regions: map<string, Region>
    var districts: map<string, District>
    var communities: map<string, Community>
    var settlements: map<string, Settlement>
    var cityDistricts: map<string, CityDistrict>

    function Snapshot(): Geo
      reads this
    {
      Geo(regions, districts, communities, settlements, cityDistricts)
    }

    constructor ()
      ensures Snapshot() == Geo(map[], map[], map[], map[], map[])
    {
      regions, districts, communities := map[], map[], map[];
      settlements, cityDistricts := map[], map[];
    }
  }
}
