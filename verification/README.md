# Day-ahead price demo: a Dafny model of its price service and selection rules

The application shows simulated day-ahead electricity prices for five European
regions on a map and in a comparison table. Its computational content is small and
is modelled here:

- `PriceSeries` (`price_series.dfy`): the 24-point hourly series of one region. Each
  price is `min + (max - min) * shape * jitter`, where `shape = s * 0.3 + 0.7` from the
  sine of the hour's phase and `jitter = u * 0.2 + 0.9` from a uniform draw. The sine
  value `s` and the draw `u` are inputs, one per hour, so the model does not depend on
  `Math.sin` or `Math.random`.
- `PriceStats` (`price_stats.dfy`): the mean, minimum and maximum that a comparison
  row reports. The sum is a left-to-right reduction starting at 0.
- `PriceService` (`price_service.dfy`): the seeded five-region table, lookup by id with
  its not-found failure, the comparison of a list of ids, and the current-hour view.
  The region table and the hour are parameters.
- `RegionSelection` (`region_selection.dfy`): the comparison view's selection list. It
  covers the toggle a region button performs, the default selection of the first two
  regions, and the rule that a comparison is requested only for a non-empty selection.
- `PriceColour` (`price_colour.dfy`): the map marker's colour, chosen by thresholds at
  60 and 75.

Prices are unrounded `real`s. Where the code and its description differ, the model
follows the code:

- A comparison keeps repeated ids as repeated rows. It does not deduplicate.
- The current-hour view does not validate the hour. Indexing outside a series yields
  JavaScript's `undefined`, modelled as `None`.
- A comparison that hits an unknown id fails as a whole. All lookups wait the same
  fixed delay, so they settle in request order. The failure therefore names the first
  unknown id in the request.
- A price of exactly 75 is red, although the map legend reads "> €75".
- When the selection becomes empty, or a comparison fails, the comparison already on
  screen stays as it is (`RefreshComparison`).

## Model

| member | source | states |
|---|---|---|
| PriceSeries.Shape | src/services/priceService.js:55 | the daily shape factor lies in [0.4, 1] whenever the sine value lies in [-1, 1], and is 0.7 at a zero sine |
| PriceSeries.Jitter | src/services/priceService.js:56 | the jitter factor lies in [0.9, 1.1) whenever the draw lies in [0, 1), and is exactly 1 at the draw 0.5 |
| PriceSeries.FactorProductBounds | src/services/priceService.js:55-57 | shape times jitter lies in [0.36, 1.1) |
| PriceSeries.HourlyPrice | src/services/priceService.js:57 | the unrounded hourly price, before two-decimal formatting, is never below min when min <= max and both factors lie in their ranges |
| PriceSeries.HourlyPriceBounds | src/services/priceService.js:55-57 | with min <= max, an hourly price lies in [min + 0.36 (max - min), min + 1.1 (max - min)], is strictly below the upper end when min < max, and is never below min |
| PriceSeries.FirstHours | src/services/priceService.js:50-66 | after n loop rounds the series has n points, point h is for hour h, is quoted in EUR per MWh and carries the hourly price built from the hour's sine and draw |
| PriceSeries.GenerateMockPrices | src/services/priceService.js:46-69 | the generated series is a complete day: 24 points, point i has hour i, every point in EUR and MWh, each price from its own hour's factors |
| PriceSeries.GeneratedPricesBounded | src/services/priceService.js:50-65 | every generated price lies in the envelope that the shape and jitter ranges allow, so never below min |
| PriceSeries.Hour18Example | src/services/priceService.js:55-57 | envelope [45, 85] at a zero sine with unit jitter gives exactly 73 |
| PriceStats.MinOf | src/services/priceService.js:114 | the minimum is one of the prices and is at most every price |
| PriceStats.MaxOf | src/services/priceService.js:115 | the maximum is one of the prices and is at least every price |
| PriceStats.Sum | src/services/priceService.js:113 | the left-to-right reduction from 0 of non-negative prices is non-negative |
| PriceStats.SumBounds | src/services/priceService.js:113 | if every price lies in [lo, hi], the reduced sum of n prices lies in [n lo, n hi] |
| PriceStats.AverageWithin | src/services/priceService.js:113 | if every price lies in [lo, hi], so does the mean |
| PriceStats.Average | src/services/priceService.js:113 | the sum divided by the length lies between the list's minimum and maximum, and equals the common value of a list of equal prices |
| PriceStats.ConstantStats | src/services/priceService.js:113-115 | a list of equal prices has that price as mean, minimum and maximum |
| PriceService.MockRegions | src/services/priceService.js:7-38 | the seeded table has the five regions in seed order with their ids, names and coordinates, each with a complete day series, and no two ids equal |
| PriceService.MockPricesBounded | src/services/priceService.js:7-38 | every seeded price is positive and within its region's envelope as widened by the factor ranges |
| PriceService.FindIndex | src/services/priceService.js:91 | the search finds the first region with the id, and finds none exactly when no region has it |
| PriceService.FetchRegionPrices | src/services/priceService.js:87-97 | lookup succeeds exactly when some region has the id, then returns the first such region; otherwise it fails naming the id |
| PriceService.FetchUnambiguous | src/services/priceService.js:91-96 | with distinct ids, looking up a region's id returns that very region |
| PriceService.FetchAll | src/services/priceService.js:105-107 | all lookups succeed exactly when every id is known; the regions then come one per id in request order; otherwise the failure names the first unknown id |
| PriceService.PriceValues | src/services/priceService.js:114-115 | the price list of a series has one value per point, value h being point h's price |
| PriceService.Row | src/services/priceService.js:110-116 | a row carries the region's id and name; its average is the mean of the region's prices; its min and max are attained prices that bound every price; min <= average <= max |
| PriceService.CompareRegionPrices | src/services/priceService.js:104-120 | the comparison succeeds exactly when every id is known, with one row per requested id in order and repeats kept, each the row of the looked-up region; otherwise it fails with no rows, naming the first unknown id in the request |
| PriceService.CompareKeepsDuplicates | src/services/priceService.js:105-107 | when every requested id is known the comparison succeeds, and equal requested ids give equal rows |
| PriceService.CompareSingle | src/services/priceService.js:110-116 | comparing one region gives exactly its own row, whose average is the mean of its prices |
| PriceService.GetCurrentPrices | src/services/priceService.js:126-136 | one entry per region in table order with the region's id, name and coordinates; an entry has a current price exactly when the hour indexes into the series, and that price is the series point at the hour |
| PriceService.CurrentPriceIsForHour | src/services/priceService.js:127-135 | for complete-day series and an hour in [0, 23], every current entry is the series point at that index, so its hour equals the requested hour |
| PriceService.SeedCurrentPrices | src/services/priceService.js:126-136 | on the seeded table, every region's current entry is for the requested hour and priced at least its envelope minimum |
| RegionSelection.RemoveAll | src/components/PriceComparison.jsx:48 | filtering removes every occurrence of the id and keeps every other id with its multiplicity |
| RegionSelection.RemoveAllAppend | src/components/PriceComparison.jsx:48 | filtering distributes over concatenation, so survivors keep their relative order |
| RegionSelection.RemoveAllAbsent | src/components/PriceComparison.jsx:48 | filtering out an absent id changes nothing |
| RegionSelection.RemoveAllNoDuplicates | src/components/PriceComparison.jsx:48 | filtering a duplicate-free list gives a duplicate-free list |
| RegionSelection.ToggleRegion | src/components/PriceComparison.jsx:45-53 | an absent id is appended, growing the list by one; a present id is removed with all its occurrences; the toggled id's membership flips and every other id's membership is unchanged |
| RegionSelection.ToggleKeepsOrder | src/components/PriceComparison.jsx:47-48 | deselecting keeps the remaining ids in their original relative order |
| RegionSelection.ToggleKeepsNoDuplicates | src/components/PriceComparison.jsx:45-53 | a duplicate-free selection stays duplicate-free |
| RegionSelection.ToggleTwiceRestores | src/components/PriceComparison.jsx:45-53 | toggling an absent id twice restores the selection |
| RegionSelection.DefaultSelection | src/components/PriceComparison.jsx:20-22 | with at least two regions loaded, the selection is the first two ids, all known and distinct when the table's ids are; otherwise the selection is unchanged |
| RegionSelection.RefreshComparison | src/components/PriceComparison.jsx:30-43 | the shown comparison changes only for a non-empty selection of known ids, to one row per selected id; an empty selection or an unknown id leaves it as it was |
| RegionSelection.SeedDefaultComparison | src/components/PriceComparison.jsx:17-22 | on the seeded table the default selection is north-eu, central-eu and its comparison yields their two rows in that order |
| PriceColour.MarkerColour | src/components/MapView.jsx:37 | every price gets exactly one of the three colours: green below 60, yellow from 60 up to but excluding 75, red from 75 |
| PriceColour.MarkerColourMonotone | src/components/MapView.jsx:37 | a higher price never gets a lower colour in the order green, yellow, red |
| PriceColour.ThresholdsBelongAbove | src/components/MapView.jsx:37 | 60 is yellow and 75 is red |

## Left out

- Timestamps (`Date`, `setHours`, `toISOString`) are not modelled: they depend on the wall clock and time zone. The current hour is a parameter.
- `Math.sin` and `Math.random` are inputs. The model takes one sine value and one uniform draw per hour, with the ranges those functions produce. `Math.PI`, the phase formula and IEEE floating point are not modelled.
- `toFixed(2)` formatting and the `parseFloat` round trip of prices are not modelled. All prices and statistics are unrounded reals.
- The `setTimeout` delays in `fetchAllRegions` and `fetchRegionPrices`, and the promise sequencing around them, are not modelled. They add latency only.
- `fetchAllRegions` has no separate member, since it returns the seeded table as is. `MockRegions` stands for it.
- `CompareRegionPrices`, `Row`, `MinOf`, `MaxOf`, `Average` and `RefreshComparison` require a non-empty price series (for the table's regions, or for the list given). JavaScript would give `NaN` and infinities for an empty series, but every seeded region has 24 points.
- The `loading` flag, `console.error` logging, and all rendering are not modelled. That includes the React state hooks, the Leaflet map and markers, the legend, the table, and the percentage bars.
- `src/App.jsx` and `src/components/Navigation.jsx` only switch between two fixed views and have no modelled logic.
