# Delivery route planner: the decision logic, verified

The delivery assistant answers logistics questions with a handful of tools.
It can plan a single route, plan a tour over several destinations, estimate
what a delivery costs, and read the traffic and the weather. It also checks the
user's query and lays the answer out as cards.

This project models, in Dafny, the parts of those tools that decide
something. The geocoder, the routing service, the traffic service, the
weather service and the clock become parameters or pre-parsed responses. The
model covers:

- **Traffic** (`traffic.dfy`):
  - the time-of-day multiplier;
  - the live travel-time ratio, clamped to [0.8, 2.0] and rounded to hundredths;
  - the Heavy/Moderate/Light reading of a factor;
  - the file-name fragment derived from a place name (module `MapNames`).
- **Weather** (`weather.dfy`):
  - the record shaped from the weather service's answer;
  - the additive risk factor along a route, capped at 1.8, with its warnings.
- **Routing service answers** (`osrm.dfy`):
  - the first route in kilometres and minutes;
  - the list of alternatives;
  - the numbered routes with their turn-by-turn instructions.
- **Single-route choice** (`scoring.dfy`):
  - each route is scored as 0.6 × the adjusted time plus 0.4 × the fuel cost;
  - the routes are sorted stably by score (`sorting.dfy`);
  - the first one is the optimum.
- **Multi-destination planner** (`multistop.dfy`, `perms.dfy`):
  - every visiting order is tried, in the order `itertools.permutations` yields them;
  - each order is walked leg by leg, normalising the provider's units;
  - an order with a missing or zero-time leg is dropped;
  - the first of the fastest drivable orders is kept.
- **Cost estimate** (`cost.dfy`):
  - the fixed fleet, filtered by capacity and availability;
  - the fee/fuel/driver formula with its near-capacity surcharge;
  - the cheapest quote is recommended.
- **Query check** (`query.dfy`): the three refusals of `check_valid_query`, in the order they are tested.
- **Answer layout** (`format.dfy`, `markup.dfy`, `text.dfy`):
  - the line-by-line section classifier of `format_response`;
  - the five cards, in their fixed order, and the plain fallback;
  - `create_card`'s length rule, alert colours, `<br>` conversion and bold labels;
  - the `**bold**` rewrite of the fallback;
  - the Python string operations these use: `strip`, `upper`, `in`, `split('\n')` and `replace`.

Operations that loop in the source are methods with loop invariants, proved
against specification functions. Examples are:

- the planner's search over orders, with its `best_time`, `best_order` and `best_routes`;
- the section splitter;
- the quoting loop;
- the response readers.

`get_weather_along_route` has no loop, but it builds its result by a fixed
sequence of updates to a running factor and a list of warnings. It is the
method `Weather.WeatherAlongRoute`, which makes the same updates in the same
order: the origin's checks in `Weather.AddOriginRisks`, then the
destination's in `Weather.AddDestinationRisks`.

Pure decisions are functions. The properties relating them are lemmas.

## Model

| member | source | states |
|---|---|---|
| Traffic.EstimateTrafficFromTime | tools.py:22-35 | the time-of-day multiplier is always one of 0.8, 1.0, 1.2, 1.5, 1.6 |
| Traffic.EstimateMatchesTable | tools.py:26-35 | for each hour 0–23 the multiplier is that hour's entry of a 24-entry table: 1.5 for 7–10, 1.6 for 17–19, 1.2 for 12–14, 0.8 for 0–5, 1.0 otherwise |
| Traffic.Clamp | tools.py:60 | `max(0.8, min(x, 2.0))` lies in [0.8, 2.0] and leaves a value already in that range unchanged |
| Traffic.Round2IsNearest | tools.py:61 | `round(x, 2)` moves a value by at most half a hundredth |
| Traffic.Round2KeepsRange | tools.py:61 | rounding a value in [0.8, 2.0] to hundredths stays in [0.8, 2.0] |
| Traffic.CalculateTraffic | tools.py:45-63 | the traffic factor always lies in [0.8, 2.0], whatever the live data |
| Traffic.CalculateTrafficCases | tools.py:49-63 | no data or a missing key gives the hour heuristic; a zero free-flow time gives exactly 1.0; otherwise the factor is within 0.005 of the clamped ratio current/free-flow |
| Traffic.LevelOf | tools.py:299-307 | the level is Heavy exactly when the factor is at least 1.5, Light exactly when below 1.2, Moderate otherwise |
| Traffic.LevelIsMonotonic | tools.py:601-609 | a larger factor never reads as lighter traffic |
| Traffic.HeuristicLevels | tools.py:22-35 | without live data, the rush hours (7–10, 17–19) and only they read Heavy, and lunch time (12–14) and only it reads Moderate |
| MapNames.SafeName | tools.py:266-267 | the file-name fragment has at most 30 characters and no space or comma |
| MapNames.SafeNameWithoutCommas | tools.py:266-267 | for a name without commas the fragment is its first min(30, length) characters, each space turned into '_' and every other character kept |
| MapNames.SafeNameDropsCommas | tools.py:266-267 | the fragment of a name is the fragment of the name with its commas deleted |
| MapNames.SafeNameFixesSafe | tools.py:266-267 | a name that is already short and has no space or comma is kept as it is |
| MapNames.SafeNameIdempotent | tools.py:266-267 | applying the transform twice is applying it once |
| Weather.GetWeatherData | api/api.py:80-108 | a record exists exactly when there is an API key, an answer and a condition entry; its rain is `rain.1h` or 0, its visibility in km times 1000 is `visibility` or 10000 m, its condition and description are the first entry's `main` and `description`; its temperature, feels-like temperature, humidity and wind speed are the answer's |
| Weather.WeatherDefaults | api/api.py:103-104 | an answer without rain and visibility reads as 0 mm of rain and 10 km of visibility |
| Weather.WeatherAlongRoute | api/api.py:111-152 | the factor is min(1 + the weights of the risks found, 1.8) and lies in [1.0, 1.8]; the warnings are those of the risks, at most four |
| Weather.AddOriginRisks | api/api.py:122-138 | the origin's checks add the weight of each risk found to the factor and its warning to the list, in the order rain, visibility, wind |
| Weather.AddDestinationRisks | api/api.py:140-145 | the destination's check adds the rain's weight to the factor and, for heavy rain only, its warning |
| Weather.HazardWeightBounds | api/api.py:119-145 | the risks found add between 0 and 0.8 |
| Weather.WeatherFactorBounds | api/api.py:150 | the uncapped factor never exceeds 1.8, so the cap changes nothing and the factor is in [1.0, 1.8] |
| Weather.WarningsOrdered | api/api.py:122-145 | warnings come in the order origin rain, origin visibility, origin wind, destination rain, each at most once |
| Weather.ReportBounds | api/api.py:147-152 | the reported factor lies in [1.0, 1.8] and there are at most four warnings |
| Weather.DestinationLightRainIsSilent | api/api.py:140-145 | light rain at the destination adds 0.1 to the factor but no warning |
| Weather.NoRecordsNoRisk | api/api.py:119-152 | with neither record there is no risk, the factor is 1.0 and nothing is reported |
| Osrm.GetRouteOsrm | api/api.py:200-211 | a summary exists exactly when the code is "Ok", there are routes and the first route has a leg; it gives that route's distance in km and duration in minutes, its line and its first leg's steps (none when missing) |
| Osrm.AlternativeRoutes | api/api.py:231-241 | with code "Ok", one entry per route in order, in km and minutes (a missing `routes` is none); otherwise no entry |
| Osrm.InstructionOf | api/api.py:277-283 | a step's instruction gives its distance in km and duration in minutes; the manoeuvre type, its modifier and the road name are the step's own when present and otherwise "continue", "" and "Unnamed road" |
| Osrm.AllStepsAppend | api/api.py:275-276 | the steps of two runs of legs are the first run's steps followed by the second's |
| Osrm.StepsOfLegInPlace | api/api.py:275-284 | a leg's steps appear together, after those of every earlier leg and before those of every later one |
| Osrm.DetailedRoutes | api/api.py:264-289 | routes exist exactly when the code is "Ok" and there are routes; route i is numbered i+1, in km and minutes, with the instructions of all its legs' steps in order |
| Scoring.Scored | tools.py:83-99 | the adjusted time is the minutes times the traffic and weather factors; the estimated cost is 8 per km; the score is 0.6 × the adjusted time plus 0.4 × the cost; the route's number, distance, minutes and steps and the weather's warnings are carried over |
| Scoring.ScoreIsMonotonic | tools.py:83-88 | with non-negative factors, a route no longer and no slower than another never scores higher |
| Scoring.FindOptimalRoute | tools.py:74-108 | no result exactly when there are no routes; otherwise all routes are scored, sorted by score (a permutation, stable among equal scores), the optimum is the first and no route scores lower |
| Scoring.OptimalScoreIgnoresOrder | tools.py:101-104 | the optimal score depends only on which routes are offered, not on their order |
| Sorting.SortByOrdersAndPermutes | tools.py:101 | sorting by a key keeps the length, orders by the key and is a permutation |
| Sorting.SortByIsStable | tools.py:101 | among elements with equal keys, sorting keeps their original order |
| Sorting.HeadIsMinimal | tools.py:101-104 | the first element after sorting is one of the inputs and no input has a smaller key |
| Sorting.InsertKeepsEqualKeys | tools.py:101 | inserting an element keeps the order of the elements of each key, with the new one placed before the others of its key |
| Perms.PermutationsAreReorderings | tools.py:383 | every order tried visits the same destinations |
| Perms.PermutationsAreComplete | tools.py:383 | every reordering of the destinations is tried |
| Perms.PermutationLengths | tools.py:383 | every order tried has one entry per destination |
| Perms.PermutationCount | tools.py:383-384 | n destinations give n! orders |
| Perms.FirstPermutationIsIdentity | tools.py:383 | the first order tried is the order given |
| Perms.TwoOrders | tools.py:383 | two destinations are tried as given, then swapped |
| MultiStop.OsrmLegRoundTrip | tools.py:395-401 | the routing service's minutes and kilometres, read through the planner's unit rule, give back its seconds and metres |
| MultiStop.LegOf | tools.py:392-418 | a leg that is kept starts where the walk is, goes to the stop and takes a positive time |
| MultiStop.WalkShape | tools.py:385-418 | an order is drivable exactly when each of its legs is; a drivable order has one leg per stop, leg i starting at the origin or at stop i-1 and ending at stop i |
| MultiStop.TotalTimePositive | tools.py:403-404 | a drivable order with at least one stop takes positive time |
| MultiStop.TotalsAppend | tools.py:404-405 | each leg adds its time and distance to the totals |
| MultiStop.BestOfIsFirstFastest | tools.py:383-425 | nothing is kept exactly when no order is drivable; the kept order is drivable, no drivable order is faster, and every drivable order tried before it is strictly slower |
| MultiStop.GeocodedKeepsFound | tools.py:344-353 | the stops kept are destinations at the coordinates the geocoder gives, and every destination it finds is kept |
| MultiStop.KeptOrderNotEmpty | tools.py:428-429 | a kept order visits at least one stop, so the planner's "no order" test fails only when nothing was kept |
| MultiStop.MultiRoutePlanner | tools.py:333-429 | an unknown origin and no found destination each end the planner with their message; otherwise it returns the first fastest drivable order with its time and legs, or the failure with the n! orders tried |
| MultiStop.DriveOrder | tools.py:384-417 | the leg-by-leg loop over one order succeeds exactly when the order is drivable; then its legs are the order's walk and its totals are their time and distance |
| MultiStop.NoPlanMeansNoDrivableOrder | tools.py:420-429 | when the planner finds nothing, no visiting order of the found destinations can be driven |
| MultiStop.PlannedIsOptimal | tools.py:383-425 | the planned order visits exactly the found destinations, is drivable with the legs reported (one per destination), takes the reported time, and no visiting order is faster |
| MultiStop.PlannedIsFirstAmongTies | tools.py:420 | every drivable order tried before the planned one is strictly slower |
| MultiStop.OneStop | tools.py:383-425 | with one destination a plan exists exactly when its single leg can be driven |
| MultiStop.TwoStops | tools.py:383-425 | with two drivable orders the swapped one is kept only when strictly faster |
| Cost.RealVehiclesCarry | tools.py:37-42 | every vehicle of the fleet has a positive capacity |
| Cost.Suitable | tools.py:481 | the vehicles quoted are exactly those of the fleet that are available and can carry the load |
| Cost.CapacityMultiplier | tools.py:496-497 | the surcharge is 1.15 exactly when the load exceeds 80% of the capacity, and 1 exactly when it does not |
| Cost.QuoteFor | tools.py:491-508 | a vehicle's quote has fuel cost km × its price per km, driver cost hours × 200, and total (150 + fuel + driver) × traffic factor × weather factor × the capacity surcharge; it records the vehicle and both factors |
| Cost.QuotesFor | tools.py:490-508 | one quote per vehicle, in the fleet's order |
| Cost.QuoteVehicles | tools.py:490-508 | the quoting loop produces one quote per suitable vehicle, in order |
| Cost.RealCostOptimizer | tools.py:472-511 | no suitable vehicle gives the "no vehicle" outcome; otherwise an unknown place gives an error; otherwise every suitable vehicle is quoted, the quotes are sorted by total cost (a permutation, stable among equal costs) and the first, cheapest one is recommended |
| Cost.HundredKiloExample | tools.py:37-42 | 100 kg over 50 km and 60 minutes with neutral factors: the Motorcycle is excluded, the Small Van costs 750, the Light Truck 1100, the Heavy Truck 1600, and the Small Van is recommended |
| Cost.LongerTripsCostMore | tools.py:492-499 | with non-negative prices and factors, a trip no longer and no slower is never quoted higher by the same vehicle |
| Cost.NearlyFullCostsMore | tools.py:496-499 | a load above 80% of the capacity costs exactly 1.15 times the same trip with a load at or below 80% |
| Text.Strip | utils/utility_functions.py:73 | the stripped text is no longer than the input and neither starts nor ends with whitespace |
| Text.StripEmptyIffAllSpace | utils/utility_functions.py:73-77 | the stripped text is empty exactly when the text is all whitespace |
| Text.StripIdempotent | utils/utility_functions.py:73 | stripping twice is stripping once |
| Text.StripKeepsVisible | utils/utility_functions.py:73-79 | a non-whitespace character occurs in the stripped text exactly when it occurs in the text |
| Text.UpperIdempotent | utils/utility_functions.py:190 | upper-casing twice is upper-casing once |
| Text.JoinSplitLines | utils/utility_functions.py:187 | joining the lines of `split('\n')` with "\n" gives back the text |
| Text.RemoveAllAbsent | utils/utility_functions.py:73 | removing a marker that does not occur leaves the text unchanged |
| Text.DeleteCharKeeps | tools.py:266 | removing commas keeps every other character present |
| Text.DeleteCharAppend | tools.py:266 | removing commas from two joined texts joins the two results, so the kept characters stay in order |
| Text.ReplaceThenDelete | tools.py:266 | turning spaces into '_' and then removing commas gives the same text as the other order |
| Query.CheckValidQuery | utils/utility_functions.py:67-87 | after the marker is removed: all whitespace gives "Please enter a query"; otherwise no letter or digit gives "Please enter a valid query with actual text"; otherwise fewer than two characters gives "Please enter a more detailed query"; otherwise the stripped query is accepted and has a letter or digit (each case both ways) |
| Query.HasAlnumStrip | utils/utility_functions.py:73-79 | stripping keeps exactly the letters and digits, and an all-whitespace text has none |
| Query.TooShortIsOneCharacter | utils/utility_functions.py:79-85 | the "more detailed" refusal is for exactly one letter or digit left after stripping |
| Query.RevalidationKeepsQuery | utils/utility_functions.py:73-87 | an accepted query that does not spell the marker is accepted again unchanged |
| Query.MarkerAloneIsEmpty | utils/utility_functions.py:73-77 | the marker alone, with whitespace around it, is refused as an empty query |
| Format.Header | utils/utility_functions.py:189-205 | a line opens one of the five named sections or none; no line opens the 'other' section |
| Format.HeaderIgnoresCase | utils/utility_functions.py:190 | header detection does not depend on letter case |
| Format.MultiRouteComesFirst | utils/utility_functions.py:191-193 | a line opens the multi-route section exactly when its upper case mentions OPTIMAL MULTI-ROUTE or MULTI-DESTINATION, whatever else it mentions |
| Format.RouteHeadingWins | utils/utility_functions.py:194-196 | without a multi-route marker, a line naming ROUTE with SUMMARY or ANALYSIS opens the route section, whatever else it names |
| Format.WeatherBeforeTraffic | utils/utility_functions.py:194-199 | a line naming WEATHER with CONDITION or ANALYSIS that is not a route heading opens the weather section, even when it also names the route, the traffic or the cost |
| Format.TrafficBeforeCost | utils/utility_functions.py:194-202 | a line naming TRAFFIC and ANALYSIS that is neither a route nor a weather heading opens the traffic section, even when it also names the cost |
| Format.PlainLineIsBody | utils/utility_functions.py:191-207 | a line with none of the heading words is not a heading |
| Format.NoHyphenNoMultiRoute | utils/utility_functions.py:191-193 | a line without a hyphen never opens the multi-route section |
| Format.MultiRouteReportHeading | tools.py:432 | the multi-destination report's heading "OPTIMAL MULTI-ROUTE PLAN" opens the multi-route section |
| Format.TrafficReportHeading | tools.py:297 | the traffic report's heading "TRAFFIC ANALYSIS" opens the traffic section |
| Format.CostReportHeading | tools.py:513 | the cost report's heading "COST ESTIMATE" opens the cost section |
| Format.RouteTrafficHeading | utils/utility_functions.py:194-202 | "ROUTE TRAFFIC ANALYSIS" opens the route section, not the traffic one |
| Format.WeatherForRouteHeading | utils/utility_functions.py:194-199 | "WEATHER ANALYSIS FOR ROUTE" opens the route section, not the weather one |
| Format.WeatherConditionsOnRouteHeading | utils/utility_functions.py:194-199 | "WEATHER CONDITIONS ON ROUTE" names the route without a summary or an analysis, so it opens the weather section |
| Format.CostHeading | utils/utility_functions.py:191-205 | a line naming COST with ESTIMATE or BREAKDOWN that no earlier test claims opens the cost section |
| Format.TrafficAndWeatherHeading | utils/utility_functions.py:197-202 | "TRAFFIC AND WEATHER ANALYSIS" opens the weather section, not the traffic one |
| Format.SectionsOf | utils/utility_functions.py:177-207 | there are exactly the six sections, and each holds the lines collected under it |
| Format.SectionsSnoc | utils/utility_functions.py:189-207 | a header line changes the current section and stores nothing; any other line is appended with "\n" to the current section and nothing else changes |
| Format.EveryBodyLineKeptOnce | utils/utility_functions.py:189-207 | the sections together hold every non-header line exactly once: their lengths add up to the body's |
| Format.WithoutHeadingsAllIsOther | utils/utility_functions.py:186 | an answer without headers stays in the 'other' section and every named section is empty |
| Format.SplitSections | utils/utility_functions.py:177-207 | the splitting loop yields the sections of the answer's lines |
| Format.CreateCard | utils/utility_functions.py:247-271 | no card exactly when the stripped content is shorter than 3; otherwise the card keeps title and colour, its body is the stripped content with `<br>` and bold labels, and the red border and pink background appear exactly when the body mentions WARNING or ALERT in any case or "Heavy" |
| Format.CardBodyReadsBack | utils/utility_functions.py:250-261 | a card's body, with the bold labels and `<br>` undone, is the stripped content |
| Format.CardIf | utils/utility_functions.py:213-231 | each section gives at most one card |
| Format.AddCard | utils/utility_functions.py:213-231 | one section's step appends its card, if any, and counts the section when it is not blank |
| Format.FormatResponse | utils/utility_functions.py:165-241 | an answer shorter than 10 characters once stripped gives the placeholder; otherwise the cards of the multi-route, route, traffic, weather and cost sections in that order, and the fallback exactly when none was counted |
| Format.CardsOfSections | utils/utility_functions.py:211-231 | the cards come from the five named sections in the order multi-route, route, traffic, weather, cost |
| Format.NoCardIffNoNamedSection | utils/utility_functions.py:211-233 | no section is counted exactly when every named section is blank |
| Format.CardsAreCounted | utils/utility_functions.py:211-231 | there are no more cards than counted sections, at most five, and none when nothing is counted |
| Format.FallbackIffNoNamedSection | utils/utility_functions.py:233-238 | the whole-text fallback appears exactly when every named section is blank, and then there is no card |
| Format.UnheadedAnswerFallsBack | utils/utility_functions.py:186-238 | an answer without a header line gives no card and the fallback |
| Markup.NewlinesToBr | utils/utility_functions.py:255 | the converted text has no newline left and is no shorter |
| Markup.NewlinesRoundTrip | utils/utility_functions.py:255 | for text without '<', turning `<br>` back into newlines gives the text back |
| Markup.LabelsArePlain | utils/utility_functions.py:258 | every bold label is non-empty, starts with a capital letter and contains no '<' |
| Markup.LabelAtFinds | utils/utility_functions.py:257-261 | the label found at a position starts the text there and is one of the labels; none is found exactly when no label starts there |
| Markup.EmphasizeRoundTrip | utils/utility_functions.py:257-261 | removing the `<strong>` tags from the emphasised text gives the text back |
| Markup.MarkupRoundTrip | utils/utility_functions.py:255-261 | for text without '<', a card body read back without tags and `<br>` is the text |
| Markup.CloseAt | utils/utility_functions.py:235 | a closing `**` found lies at or after the search start and fits in the text |
| Markup.CloseFound | utils/utility_functions.py:235 | when no line break and no `**` come between the search start and a `**`, that `**` is the closing one found |
| Markup.BoldWithoutStars | utils/utility_functions.py:235 | text without `**` is left unchanged by the bold rewrite |
| Markup.BoldSpan | utils/utility_functions.py:235 | `**w**`, with w on one line and without `**`, becomes `<strong>w</strong>` |

## Left out

- Network and file I/O: the HTTP calls to the geocoding, routing, traffic and weather services are left out, and so are the API keys and `time.sleep`. Their answers are parameters or pre-parsed response values.
- `datetime.now()`: the hour is a parameter.
- Map rendering (`create_enhanced_map`, `create_multi_route_map`) and the map links are left out; so is the connectivity pre-check of the multi-stop planner, which only prints.
- `forecast_weather` and `get_historical_weather` are left out: they are a statistical model over foreign numeric libraries.
- Report text: the f-string reports, `print` and logging output, and the HTML wrappers are left out. A card is modelled as its title, colours and body; the page as its cards, the number of sections counted and the fallback body.
- Floating point: all arithmetic is over exact reals, not IEEE doubles. `round(x, 2)` is rounding to the nearest hundredth, ties to even. Over doubles the sums could differ in the last bit, and so could the 1.8 cap.
- `isalnum` and `upper` are ASCII only in this model. `isspace` covers all of Python's whitespace.
- Dictionary lookups that raise `KeyError` on a malformed service answer are left out: the response datatypes always carry the required keys, and the optional ones are `Option`.
- Sorting: `list.sort` is modelled by value, as a stable insertion sort on sequences, not in place.
- Cost.RealCostOptimizer: the geocoding of the two places is a pair of booleans. An unknown place with a suitable vehicle ends in an error, because the traffic lookup indexes the missing coordinates outside its `try`.
- MultiStop.MultiRoutePlanner: the search examines all n! orders, and that cost is not bounded here.
- `get_realtime_traffic` is not modelled: its answer, an optional route summary, is an input of `Traffic.CalculateTraffic`.
- The `card_type` argument of `create_card` is unused by the code and is not modelled.
- The tools' registration as agent tools, the chat application, the agent and model wiring, user ids, cleanup of the static folder, and the map-path extraction are not part of this model.
