/** The price service: the seeded region table, lookup of one region by id, the
    cross-region comparison and the per-region price of the current hour.

    The region table is a parameter of every query (the service reads one fixed table,
    built once by `MockRegions`); the wall-clock hour is a parameter of `GetCurrentPrices`.
    The artificial network delays are not modelled. */
module PriceService {
  import opened PriceSeries
  import opened PriceStats

  datatype Option<T> = None | Some(value: T)

  /** Outcome of a query that names regions: the value, or the id that matched no region. */
  datatype Result<T> = Ok(value: T) | NotFound(regionId: string)

  datatype Region = Region(id: string, name: string, coordinates: (real, real), prices: seq<PricePoint>)

  /** Static description of one seeded region: its identity and its price envelope. */
  datatype RegionSeed = RegionSeed(id: string, name: string, coordinates: (real, real), minPrice: real, maxPrice: real)

  /** One row of a comparison: statistics over the region's unrounded prices. */
  datatype ComparisonRow = ComparisonRow(id: string, name: string, averagePrice: real, minPrice: real, maxPrice: real)

  /** One entry of the current-price view; `None` is what indexing outside the series yields. */
  datatype CurrentPrice = CurrentPrice(id: string, name: string, coordinates: (real, real), currentPrice: Option<PricePoint>)

  const Seeds: seq<RegionSeed> := [
    RegionSeed("north-eu", "Northern Europe", (60.1699, 24.9384), 45.0, 85.0),
    RegionSeed("central-eu", "Central Europe", (52.5200, 13.4050), 50.0, 90.0),
    RegionSeed("south-eu", "Southern Europe", (41.9028, 12.4964), 55.0, 95.0),
    RegionSeed("west-eu", "Western Europe", (48.8566, 2.3522), 48.0, 88.0),
    RegionSeed("uk", "United Kingdom", (51.5074, -0.1278), 52.0, 92.0)
  ]

  /** No two regions share an id. */
  ghost predicate DistinctIds(regions: seq<Region>)
  {
    forall i, j :: 0 <= i < j < |regions| ==> regions[i].id != regions[j].id
  }

  /** Some region carries this id. */
  ghost predicate Known(regions: seq<Region>, id: string)
  {
    exists k :: 0 <= k < |regions| && regions[k].id == id
  }

  /** Every region has at least one price, so its statistics are defined. */
  ghost predicate HasPrices(regions: seq<Region>)
  {
    forall k :: 0 <= k < |regions| ==> |regions[k].prices| > 0
  }

  /** The seeded table: one region per seed, in seed order, each with a generated day.
      `sines` are the per-hour sine values shared by all regions; `randoms[k]` are the
      draws used for region k. */
  function MockRegions(sines: seq<real>, randoms: seq<seq<real>>): (regions: seq<Region>)
    requires |sines| == Hours && |randoms| == |Seeds|
    requires forall k :: 0 <= k < |randoms| ==> |randoms[k]| == Hours
    ensures |regions| == |Seeds|
    ensures forall k :: 0 <= k < |regions| ==>
      && regions[k].id == Seeds[k].id
      && regions[k].name == Seeds[k].name
      && regions[k].coordinates == Seeds[k].coordinates
      && IsDaySeries(regions[k].prices)
    ensures DistinctIds(regions)
    ensures HasPrices(regions)
  {
    seq(|Seeds|, k requires 0 <= k < |Seeds| =>
      Region(Seeds[k].id, Seeds[k].name, Seeds[k].coordinates,
             GenerateMockPrices(Seeds[k].minPrice, Seeds[k].maxPrice, sines, randoms[k])))
  }

  /** Every price of the seeded table is at least its region's envelope minimum (hence
      positive) and below 1.1 times the envelope width above it. */
  lemma MockPricesBounded(sines: seq<real>, randoms: seq<seq<real>>)
    requires ValidSines(sines) && |randoms| == |Seeds|
    requires forall k :: 0 <= k < |randoms| ==> |randoms[k]| == Hours && ValidRandoms(randoms[k])
    ensures forall k, h :: 0 <= k < |Seeds| && 0 <= h < Hours ==>
      var p := MockRegions(sines, randoms)[k].prices[h].price;
      0.0 < Seeds[k].minPrice <= p <= Seeds[k].minPrice + 1.1 * (Seeds[k].maxPrice - Seeds[k].minPrice)
  {
    var regions := MockRegions(sines, randoms);
    forall k | 0 <= k < |Seeds|
      ensures forall h :: 0 <= h < Hours ==>
        0.0 < Seeds[k].minPrice <= regions[k].prices[h].price
        <= Seeds[k].minPrice + 1.1 * (Seeds[k].maxPrice - Seeds[k].minPrice)
    {
      GeneratedPricesBounded(Seeds[k].minPrice, Seeds[k].maxPrice, sines, randoms[k]);
    }
  }

  /** Position of the first region with this id, as an array search from the front finds it. */
  function FindIndex(regions: seq<Region>, id: string): (r: Option<nat>)
    ensures r.Some? ==> r.value < |regions| && regions[r.value].id == id
    ensures r.Some? ==> forall j :: 0 <= j < r.value ==> regions[j].id != id
    ensures r.None? <==> !Known(regions, id)
  {
    if |regions| == 0 then None
    else if regions[0].id == id then Some(0)
    else
      match FindIndex(regions[1..], id)
      case None => None
      case Some(k) => Some(k + 1)
  }

  /** The region with this id, or a not-found failure naming the id. */
  function FetchRegionPrices(regions: seq<Region>, id: string): (r: Result<Region>)
    ensures r.Ok? <==> Known(regions, id)
    ensures r.NotFound? ==> r.regionId == id
    ensures r.Ok? ==> r.value.id == id && r.value in regions
    ensures r.Ok? ==> exists k :: (0 <= k < |regions| && regions[k] == r.value
      && forall j :: 0 <= j < k ==> regions[j].id != id)
  {
    match FindIndex(regions, id)
    case None => NotFound(id)
    case Some(k) => Ok(regions[k])
  }

  /** With distinct ids, the lookup returns exactly the region carrying the id. */
  lemma FetchUnambiguous(regions: seq<Region>, k: nat)
    requires DistinctIds(regions) && k < |regions|
    ensures FetchRegionPrices(regions, regions[k].id) == Ok(regions[k])
  {
  }

  /** Every requested region, in request order, or a failure naming the first unknown id. */
  function FetchAll(regions: seq<Region>, ids: seq<string>): (r: Result<seq<Region>>)
    ensures r.Ok? <==> forall i :: 0 <= i < |ids| ==> Known(regions, ids[i])
    ensures r.Ok? ==> |r.value| == |ids|
    ensures r.Ok? ==> forall i :: 0 <= i < |ids| ==> FetchRegionPrices(regions, ids[i]) == Ok(r.value[i])
    ensures r.NotFound? ==> exists i :: (0 <= i < |ids| && ids[i] == r.regionId
      && !Known(regions, ids[i]) && forall j :: 0 <= j < i ==> Known(regions, ids[j]))
  {
    if |ids| == 0 then Ok([])
    else
      match FetchRegionPrices(regions, ids[0])
      case NotFound(e) => NotFound(e)
      case Ok(first) =>
        match FetchAll(regions, ids[1..])
        case NotFound(e) => NotFound(e)
        case Ok(rest) => Ok([first] + rest)
  }

  /** The prices of a series, in hour order. */
  function PriceValues(ps: seq<PricePoint>): (xs: seq<real>)
    ensures |xs| == |ps|
    ensures forall h :: 0 <= h < |ps| ==> xs[h] == ps[h].price
  {
    seq(|ps|, h requires 0 <= h < |ps| => ps[h].price)
  }

  /** Statistics of one region over all of its prices. */
  function Row(region: Region): (row: ComparisonRow)
    requires |region.prices| > 0
    ensures row.id == region.id && row.name == region.name
    ensures row.averagePrice == Average(PriceValues(region.prices))
    ensures row.minPrice <= row.averagePrice <= row.maxPrice
    ensures forall h :: 0 <= h < |region.prices| ==>
      row.minPrice <= region.prices[h].price <= row.maxPrice
    ensures exists h :: 0 <= h < |region.prices| && region.prices[h].price == row.minPrice
    ensures exists h :: 0 <= h < |region.prices| && region.prices[h].price == row.maxPrice
  {
    var xs := PriceValues(region.prices);
    ComparisonRow(region.id, region.name, Average(xs), MinOf(xs), MaxOf(xs))
  }

  /** Comparison of the requested regions: one row per requested id, in request order and
      with repeats kept, or a failure naming the first unknown id and no rows at all. */
  function CompareRegionPrices(regions: seq<Region>, ids: seq<string>): (r: Result<seq<ComparisonRow>>)
    requires HasPrices(regions)
    ensures r.Ok? <==> forall i :: 0 <= i < |ids| ==> Known(regions, ids[i])
    ensures r.NotFound? ==> r.regionId in ids && !Known(regions, r.regionId)
    ensures r.NotFound? ==> exists i :: (0 <= i < |ids| && ids[i] == r.regionId
      && forall j :: 0 <= j < i ==> Known(regions, ids[j]))
    ensures r.Ok? ==> |r.value| == |ids|
    ensures r.Ok? ==> forall i :: 0 <= i < |ids| ==> r.value[i].id == ids[i]
    ensures r.Ok? ==> forall i :: 0 <= i < |ids| ==>
      FetchRegionPrices(regions, ids[i]).Ok?
      && r.value[i] == Row(FetchRegionPrices(regions, ids[i]).value)
    ensures r.Ok? ==> forall i :: 0 <= i < |ids| ==>
      r.value[i].minPrice <= r.value[i].averagePrice <= r.value[i].maxPrice
  {
    match FetchAll(regions, ids)
    case NotFound(e) => NotFound(e)
    case Ok(found) =>
      assert forall i :: 0 <= i < |found| ==> found[i] in regions;
      Ok(seq(|found|, i requires 0 <= i < |found| => Row(found[i])))
  }

  /** Repeated ids give repeated, identical rows. */
  lemma CompareKeepsDuplicates(regions: seq<Region>, ids: seq<string>, i: nat, j: nat)
    requires HasPrices(regions)
    requires forall k :: 0 <= k < |ids| ==> Known(regions, ids[k])
    requires i < |ids| && j < |ids| && ids[i] == ids[j]
    ensures CompareRegionPrices(regions, ids).Ok?
    ensures CompareRegionPrices(regions, ids).value[i] == CompareRegionPrices(regions, ids).value[j]
  {
  }

  /** Comparing a single known region gives its own mean, minimum and maximum. */
  lemma CompareSingle(regions: seq<Region>, k: nat)
    requires HasPrices(regions) && DistinctIds(regions) && k < |regions|
    ensures CompareRegionPrices(regions, [regions[k].id]) == Ok([Row(regions[k])])
    ensures Row(regions[k]).averagePrice == Average(PriceValues(regions[k].prices))
  {
    var id := regions[k].id;
    FetchUnambiguous(regions, k);
    assert Known(regions, id);
    assert [id][0] == id && [id][1..] == [];
    assert FetchAll(regions, []) == Ok([]);
    assert FetchAll(regions, [id]) == Ok([regions[k]] + []);
    var rows := CompareRegionPrices(regions, [id]).value;
    assert |rows| == 1 && rows[0] == Row(regions[k]);
    assert rows == [Row(regions[k])];
  }

  /** Each region's entry at the given hour of the day, in table order. */
  function GetCurrentPrices(regions: seq<Region>, hour: int): (view: seq<CurrentPrice>)
    ensures |view| == |regions|
    ensures forall k :: 0 <= k < |regions| ==>
      && view[k].id == regions[k].id
      && view[k].name == regions[k].name
      && view[k].coordinates == regions[k].coordinates
    ensures forall k :: 0 <= k < |regions| ==>
      (view[k].currentPrice.Some? <==> 0 <= hour < |regions[k].prices|)
    ensures forall k :: 0 <= k < |regions| && 0 <= hour < |regions[k].prices| ==>
      view[k].currentPrice == Some(regions[k].prices[hour])
  {
    seq(|regions|, k requires 0 <= k < |regions| =>
      var ps := regions[k].prices;
      CurrentPrice(regions[k].id, regions[k].name, regions[k].coordinates,
                   if 0 <= hour < |ps| then Some(ps[hour]) else None))
  }

  /** For a table of complete days and an hour of the day, every region has a current
      entry and that entry is the one for the requested hour. */
  lemma CurrentPriceIsForHour(regions: seq<Region>, hour: int)
    requires forall k :: 0 <= k < |regions| ==> IsDaySeries(regions[k].prices)
    requires 0 <= hour < Hours
    ensures forall k :: 0 <= k < |regions| ==>
      var cp := GetCurrentPrices(regions, hour)[k].currentPrice;
      cp.Some? && cp.value == regions[k].prices[hour] && cp.value.hour == hour
      && cp.value.currency == Currency && cp.value.unit == Unit
  {
  }

  /** On the seeded table, at any hour of the day, each region's current entry is the one
      for that hour and its price is at least the region's envelope minimum. */
  lemma SeedCurrentPrices(sines: seq<real>, randoms: seq<seq<real>>, hour: int)
    requires ValidSines(sines) && |randoms| == |Seeds|
    requires forall k :: 0 <= k < |randoms| ==> |randoms[k]| == Hours && ValidRandoms(randoms[k])
    requires 0 <= hour < Hours
    ensures forall k :: 0 <= k < |Seeds| ==>
      var cp := GetCurrentPrices(MockRegions(sines, randoms), hour)[k].currentPrice;
      cp.Some? && cp.value.hour == hour && Seeds[k].minPrice <= cp.value.price
  {
  }
}
