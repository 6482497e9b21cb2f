# Landmarks guessing game: a Dafny model of its core rules

The game shows a landmark, the player clicks a guess on a map at a chosen
precision tier (EXACT, NARROW or VAGUE), and the server scores the guess by
distance. This project models the small rule-bearing pieces of the code base
and proves what they promise:

- `precision.dfy` (module `Precision`): the radius and points tables of
  `shared/src/config.ts` and the tier rule that classifies a distance against
  the requested tier. The classification function is not in this revision
  of the code; the route tests in
  backend/test/routes/landmarks-precision-levels.test.ts fix its behaviour,
  and `Evaluate` follows them.
- `landmark_data.dfy` (module `LandmarkData`): the constant landmark table of
  `backend/src/data/examples.ts`, lookup by id and the random pick.
- `storage.dfy` (module `Storage`): `localStorage` as a class over a
  `map<string, string>` that its methods update in place, and the game-state
  and theme helpers of `frontend/src/utils/localStorage.ts` on top of it.
  JSON is a codec passed in as a parameter. Each round-trip fact assumes only
  that the codec round-trips the value in hand: parsing that value's
  serialisation gives it back, and the serialisation is not the empty string.
  For every value, some codec meets this premise.
- `precision_selector.dfy` (module `PrecisionSelector`): which radio options
  the precision selector shows, their order, checked and disabled states,
  labels and change events.
- `map_styles.dfy` (module `MapStyles`): the colour decision tree of
  `frontend/src/utils/mapStyles.ts`. The computed-style read is a function
  parameter, and `String.prototype.trim` is modelled over the full ECMAScript
  white-space and line-terminator set.
- `landmark_routes.dfy` (module `LandmarkRoutes`): the `/guess` and `/random`
  handlers of `backend/src/routes/landmarks.ts`, each a pure function to one
  `Response`. `HandleGuess` takes the request, the landmark table, the
  distance function and a fetch function from URL to outcome. `HandleRandom`
  takes only the random draw and reads the fixed `LandmarkData` table.
- `wrappers.dfy` (module `Wrappers`): `Option`, standing for
  `undefined`/`null`.

Where the client and the later-revision tests expect something else, the
model follows the code. The client types the `/random` response as
`LandmarkWithoutLocation` (frontend/src/services/api.ts:10-11, re-exported by
shared/src/index.ts:6), a type that shared/src/types.ts of this revision does
not define:

- `/random` sends the whole landmark, including its location. It does not
  send a location-free view.
- The guess route in this revision does no input validation.
- The guess route does not score precision. It returns the coordinates, the
  distance and the Wikipedia extract and URL.
- The Wikipedia URL is built from `wikiTitle` (backend/src/types.ts). It is
  not read from a `detailsUrl` field.

The data table and the route come from different revisions of the
repository. The table has
`location`/`detailsUrl`, while the route reads `coords`/`wikiTitle`. Each file
is modelled as written. The route therefore takes its table, in the
backend/src/types.ts shape, as a parameter.

## Model

| member | source | states |
|---|---|---|
| `Precision.RadiusKm` | shared/src/config.ts:1-5 | the radius table, EXACT 50 / NARROW 100 / VAGUE 250 km, every radius positive (its order in `RadiiStrictlyIncrease`) |
| `Precision.Points` | shared/src/config.ts:7-11 | the points table, EXACT 25 / NARROW 10 / VAGUE 5, every value positive (its order in `PointsStrictlyDecrease`) |
| `Precision.RadiiStrictlyIncrease` | shared/src/config.ts:1-5 | EXACT < NARROW < VAGUE radius |
| `Precision.PointsStrictlyDecrease` | shared/src/config.ts:7-11 | EXACT > NARROW > VAGUE points |
| `Precision.SmallerRadiusMorePoints` | shared/src/config.ts:1-11 | for any two tiers, a smaller radius is worth strictly more points (both directions); radii are distinct per tier |
| `Precision.FinerThan` | backend/test/routes/landmarks-precision-levels.test.ts:96-99 | the result holds exactly the tiers with radius below the bound, and keeps coarsest-first order |
| `Precision.Evaluate` | backend/test/routes/landmarks-precision-levels.test.ts:34-163 | correct iff distance < radius of the requested tier (strict); a correct guess achieves the requested tier, and a miss achieves null; the offer is exactly the strictly finer tiers, coarsest first; a miss offers nothing |
| `Precision.RetryOffers` | backend/test/routes/landmarks-precision-levels.test.ts:34-100 | a correct guess at VAGUE offers [NARROW, EXACT], at NARROW offers [EXACT], at EXACT offers [] |
| `Precision.BoundaryIsMiss` | backend/test/routes/landmarks-precision-levels.test.ts:102-121 | a distance equal to the tier radius is a miss with null achievement and no offer |
| `Precision.NoUpgrade` | backend/test/routes/landmarks-precision-levels.test.ts:123-142 | a zero distance achieves exactly the requested tier, never a finer one |
| `Precision.NoFallback` | backend/test/routes/landmarks-precision-levels.test.ts:144-163 | a distance between the EXACT and NARROW radii misses at EXACT though it would pass at NARROW |
| `Precision.CorrectIsMonotone` | shared/src/config.ts:1-5 | correct at a tier implies correct at every tier with a radius at least as large |
| `Precision.RetryNarrowsOffer` | backend/test/routes/landmarks-precision-levels.test.ts:34-100 | retrying at an offered tier yields an offer contained in the earlier one, without the retried tier, and strictly shorter |
| `LandmarkData.TableInvariant` | backend/src/data/examples.ts:3-36 | every entry's id equals its key; lng in [-180,180], lat in [-90,90]; images non-empty |
| `LandmarkData.KeyOrderIsTheKeys` | backend/src/data/examples.ts:3-36 | the insertion order lists every table key exactly once |
| `LandmarkData.Values` | backend/src/data/examples.ts:39 | `Object.values` holds exactly the table's entries, one per key, in key insertion order |
| `LandmarkData.GetLandmarkById` | backend/src/data/examples.ts:44-46 | defined iff the id is a key; then it is the stored entry, whose id is the one asked for |
| `LandmarkData.LookupByOwnId` | backend/src/data/examples.ts:44-46 | looking an entry up by its own id returns that entry |
| `LandmarkData.LookupExamples` | backend/test/data/examples.test.ts:12-21 | "eiffel" is found with name "Eiffel Tower"; "invalid-id" is undefined |
| `LandmarkData.FloorIndex` | backend/src/data/examples.ts:40 | for r in [0,1) and n > 0, floor(r*n) lies in [0,n) |
| `LandmarkData.ScaledBelowCount` | backend/src/data/examples.ts:40 | for r in [0,1) and n > 0, 0 <= r*n < n |
| `LandmarkData.PickAt` | backend/src/data/examples.ts:39-41 | for r in [0,1) the pick is defined iff the list is non-empty; a defined pick is a list member |
| `LandmarkData.PickInterval` | backend/src/data/examples.ts:40-41 | every draw in [i/n, (i+1)/n) picks entry i of the n values, so each entry owns an interval of width 1/n |
| `LandmarkData.GetRandomLandmark` | backend/src/data/examples.ts:38-42 | a defined pick is a table entry |
| `LandmarkData.DrawSelectsInterval` | backend/src/data/examples.ts:38-42 | every draw in [i/3, (i+1)/3) picks the i-th landmark in key order |
| `LandmarkData.EveryLandmarkCanBeDrawn` | backend/src/data/examples.ts:38-42 | every landmark of the table is picked by some draw in [0,1) |
| `LandmarkData.RandomLandmarkIsInTable` | backend/test/data/examples.test.ts:5-10 | for r in [0,1) the pick is defined, well formed, and found again by its id |
| `Storage.LocalStorage.constructor` | frontend/test/utils/localStorage.test.ts:13-16 | a fresh (cleared) store is empty |
| `Storage.LocalStorage.GetItem` | frontend/src/utils/localStorage.ts:18 | returns the stored string iff the key is present |
| `Storage.LocalStorage.SetItem` | frontend/src/utils/localStorage.ts:29 | the store becomes the old one with the key set to the value |
| `Storage.LocalStorage.RemoveItem` | frontend/src/utils/localStorage.ts:23 | the store becomes the old one without the key |
| `Storage.RoundTripsSatisfiable` | frontend/src/utils/localStorage.ts:17-30 | for every value some codec round-trips it, so the round-trip premise is not vacuous |
| `Storage.Load` | frontend/src/utils/localStorage.ts:17-26 | a read either leaves the store unchanged or only removes its key; it returns a value only when the item is non-empty and parses to that value, and the store is then unchanged; a removal happens only on a failed parse, which returns null; a non-empty item that parses is always returned |
| `Storage.GetParsed` | frontend/src/utils/localStorage.ts:17-26 | the returned value and the new store are those of the read specification `Load` on the old store |
| `Storage.GetGameState` | frontend/src/utils/localStorage.ts:17-26 | as `Load` of key "gameState" |
| `Storage.SetGameState` | frontend/src/utils/localStorage.ts:28-30 | "gameState" is set to the serialised state; nothing else changes |
| `Storage.RemoveGameState` | frontend/src/utils/localStorage.ts:32-34 | only "gameState" is removed |
| `Storage.GetTheme` | frontend/src/utils/localStorage.ts:36-45 | as `Load` of key "theme" |
| `Storage.SetTheme` | frontend/src/utils/localStorage.ts:47-49 | "theme" is set to the serialised theme string; nothing else changes |
| `Storage.RemoveTheme` | frontend/src/utils/localStorage.ts:51-53 | only "theme" is removed |
| `Storage.LoadMissing` | frontend/src/utils/localStorage.ts:17-19 | a missing key reads as null and leaves the store unchanged |
| `Storage.LoadEmpty` | frontend/src/utils/localStorage.ts:19 | an empty item reads as null and is not removed |
| `Storage.LoadCorrupt` | frontend/src/utils/localStorage.ts:20-25 | an unparseable item reads as null and is removed; other keys are kept |
| `Storage.LoadTouchesOnlyItsKey` | frontend/src/utils/localStorage.ts:17-26 | a read never adds or changes an item and removes no key but its own |
| `Storage.StoreThenLoad` | frontend/src/utils/localStorage.ts:17-30 | when the codec round-trips the value, reading back a written value returns it, over any earlier content |
| `Storage.KeysIndependent` | frontend/src/utils/localStorage.ts:17-53 | setting or removing one key does not change what a read of another key returns |
| `Storage.GameStateAndThemeKeysDiffer` | frontend/src/utils/localStorage.ts:17-53 | the two keys are distinct, so the two families of helpers are independent |
| `Storage.ThemeIsNotChecked` | frontend/src/utils/localStorage.ts:36-45 | a stored JSON number reads back as that number, which no theme serialises to |
| `Storage.SaveAndRestoreGameState` | frontend/test/utils/localStorage.test.ts:57-95 | set twice then get returns the last state; the store holds its serialisation |
| `Storage.SaveThemeThenClearGameState` | frontend/src/utils/localStorage.ts:28-53 | removing the game state does not disturb a theme just set; get returns it |
| `PrecisionSelector.DigitChar` | frontend/src/components/PrecisionSelector.tsx:52 | a digit d is printed as the character d places after '0' |
| `PrecisionSelector.Decimal` | frontend/src/components/PrecisionSelector.tsx:52 | the printed number is a non-empty digit string without a leading zero |
| `PrecisionSelector.DecimalRoundTrip` | frontend/src/components/PrecisionSelector.tsx:52 | the printed digits denote the number printed |
| `PrecisionSelector.ConfiguredLabels` | frontend/test/App/App.BasicRendering.test.tsx:85-87 | the configured points give "5 points", "10 points", "25 points" |
| `PrecisionSelector.IsDisabled` | frontend/src/components/PrecisionSelector.tsx:27-29 | with the flag set every tier is disabled; without it, a tier is disabled iff it is not on offer |
| `PrecisionSelector.PointsLabel` | frontend/src/components/PrecisionSelector.tsx:51-53 | the label is the decimal number, a space, then a word that ends in "s" iff the number is not 1 |
| `PrecisionSelector.PointsLabelWord` | frontend/src/components/PrecisionSelector.tsx:52 | after the number and the space the label reads "point" for 1 and "points" for any other number |
| `PrecisionSelector.RenderOption` | frontend/src/components/PrecisionSelector.tsx:36-54 | one option: its value and the tier onChange reports are the option's tier; checked iff selected; disabled iff the flag is set or the tier is not on offer; labelled with the tier's points |
| `PrecisionSelector.Options` | frontend/src/components/PrecisionSelector.tsx:35-56 | one option per tier in the fixed order; checked iff it is the selection; disabled iff the flag is set or it is not on offer; labelled with its points; onChange reports its own tier |
| `PrecisionSelector.EveryTierShownOnce` | frontend/src/components/PrecisionSelector.tsx:21-25 | the fixed order holds every tier and none twice |
| `PrecisionSelector.OrderIndependentOfOffer` | frontend/src/components/PrecisionSelector.tsx:21-36 | the option order and labels do not depend on the offer, the selection or the flag |
| `PrecisionSelector.ExactlyOneChecked` | frontend/src/components/PrecisionSelector.tsx:46 | exactly one option is checked |
| `PrecisionSelector.DisabledDisablesAll` | frontend/src/components/PrecisionSelector.tsx:19-29 | with the flag set every option is disabled |
| `PrecisionSelector.EnabledAfterEvaluation` | frontend/src/components/PrecisionSelector.tsx:27-29 | fed a scored guess's offer, an option is enabled iff the guess was correct and the tier is strictly finer than the one requested |
| `MapStyles.TrimStart` | frontend/src/utils/mapStyles.ts:3 | the result is a suffix of the input, the dropped prefix is all white space, and the result does not start with white space |
| `MapStyles.TrimEnd` | frontend/src/utils/mapStyles.ts:3 | the result is a prefix of the input, the dropped suffix is all white space, and the result does not end with white space |
| `MapStyles.Trim` | frontend/src/utils/mapStyles.ts:3 | the result is the slice of the input between an all-white-space prefix and an all-white-space suffix, and has no surrounding white space; it is empty iff the input is all white space; an already trimmed input is kept |
| `MapStyles.TrimIdempotent` | frontend/src/utils/mapStyles.ts:3 | trimming twice equals trimming once |
| `MapStyles.GetCSSVariable` | frontend/src/utils/mapStyles.ts:1-6 | a value that is not all white space gives its trimmed form; a blank value gives the fallback; a trimmed non-empty value is returned verbatim; a non-empty fallback makes the result non-empty |
| `MapStyles.UnsetVariableFallsBack` | frontend/src/utils/mapStyles.ts:1-6 | an unset property gives the fallback |
| `MapStyles.GetMarkerColor` | frontend/src/utils/mapStyles.ts:8-16 | the correctness colour exactly when the location is known and the colour is non-empty, else the "--marker-guess" lookup with fallback "#808080"; never empty |
| `MapStyles.GetGuessCircleColors` | frontend/src/utils/mapStyles.ts:18-50 | without an actual location, the `--circle-guess` fill and border with their fallbacks; with one, "green" gives the `--circle-correct` pair, "yellow" the `--circle-close` pair, and any other colour the `--circle-incorrect` pair; fill and border are never empty |
| `MapStyles.GuessPaletteIgnoresMarker` | frontend/src/utils/mapStyles.ts:22-27 | without an actual location the palette is the same for every marker colour |
| `MapStyles.OtherMarkersShareAPalette` | frontend/src/utils/mapStyles.ts:43-49 | with an actual location, every colour other than "green" and "yellow" gives the same palette |
| `MapStyles.UnthemedPalettes` | frontend/src/utils/mapStyles.ts:15-48 | with the border and marker properties unset, the guess, correct, close and incorrect borders and the marker are the built-in fallbacks, and all differ |
| `MapStyles.GetActualLocationCircleColors` | frontend/src/utils/mapStyles.ts:52-66 | its close and correct palettes equal the guess palettes for "yellow" and "green" |
| `LandmarkRoutes.WikiUrl` | backend/src/routes/landmarks.ts:29 | the URL is the summary endpoint followed by exactly the title |
| `LandmarkRoutes.WikiUrlInjective` | backend/src/routes/landmarks.ts:29 | distinct titles are fetched from distinct URLs |
| `LandmarkRoutes.DesktopPage` | backend/src/routes/landmarks.ts:45 | reading `content_urls.desktop.page` fails exactly when `content_urls` or `desktop` is missing; otherwise it yields the page field, which may itself be missing |
| `LandmarkRoutes.HandleGuess` | backend/src/routes/landmarks.ts:14-57 | the status is one of 200/400/500; 400 iff the id is unknown, with "Invalid landmarkId"; for a known id, 500 iff the fetch fails or `content_urls.desktop` is missing, with "Failed to fetch Wikipedia data"; 200 carries the landmark's coords, the distance from the landmark (lat, lng) to the guess (lat, lng), and the fetched extract and desktop page URL, and nothing else |
| `LandmarkRoutes.UnknownIdDoesNoWork` | backend/src/routes/landmarks.ts:17-20 | for an unknown id the response does not depend on the distance function or the fetch |
| `LandmarkRoutes.OnlyTheSummaryUrlIsFetched` | backend/src/routes/landmarks.ts:29-38 | the response depends on the fetch only through the landmark's summary URL |
| `LandmarkRoutes.FetchFailureIsServerError` | backend/src/routes/landmarks.ts:48-56 | a failed fetch always gives the 500 error body, never a partial success |
| `LandmarkRoutes.HandleRandom` | backend/src/routes/landmarks.ts:9-12 | status 200 with exactly the random pick, unmodified |
| `LandmarkRoutes.RandomSendsATableEntry` | backend/src/routes/landmarks.ts:9-12 | for every draw in [0,1) the body carries a table entry |

## Left out

- The haversine distance (backend/src/utils/geographic.ts is not part of this model; trigonometric floating point) is an abstract function parameter everywhere.
- The Wikipedia request (axios), its headers and the console logging are I/O; the fetch is a parameter yielding the payload or a failure.
- Input validation and precision scoring in the guess route belong to a later revision; the modelled route does neither.
- The route assumes a request body of the `GuessRequest` shape; a body without `guess` makes the handler throw before its `try`, and Express's handling of that rejection is not modelled.
- The client session flow in frontend/src/App.tsx (React state, map markers, async loading) and the retry/persistence flow its tests exercise are not part of this model.
- Map.tsx, mapLayers.ts and the presentational components (ResultDisplay, LandmarkImages, ThemeToggle) wrap rendering libraries and are not modelled.
- services/api.ts, server.ts, routes/index.ts and middleware/errors.ts are HTTP wiring.
- `MAP_CONFIG` in shared/src/config.ts is display configuration with no rule attached.
- JSON itself is not implemented: `Stringify`/`Parse` are a codec parameter. Each round-trip fact assumes that the codec round-trips the value concerned. JSON numbers are doubles, and a real number that is not a double does not round-trip.
- `Storage.SetGameState` and `Storage.SetTheme` always succeed: `localStorage.setItem` can throw when storage is full (QuotaExceededError) or blocked (SecurityError), and both helpers let that exception through. The model's `SetItem` does not model that failure.
- `Storage.LocalStorage.GetItem` and `Storage.LocalStorage.RemoveItem` always return: when storage is blocked (SecurityError), `getItem` and `removeItem` throw too. `getGameState` and `getTheme` call `getItem` outside their `try` (frontend/src/utils/localStorage.ts:18, 37). `removeGameState` and `removeTheme` call `removeItem` unguarded (lines 33, 52). So a blocked store makes all six helpers throw, while in the model every helper returns.
- `Decimal` prints every `nat` in plain digits; JavaScript prints numbers from 1e21 on in exponent form. The configured points (5, 10, 25) are far below that.
- A stored `"null"` reads back as `Some(JNull)` from `Storage.Load`; `getGameState` then returns that `null`, the same value it returns for a missing key, so the code has two paths to a null game state. The model keeps them apart and does not identify them.
- The `GameState` record's field types are not modelled; the getters return any parsed JSON value, as the code does.
- Random numbers: the draw `r` from `Math.random` is a parameter.
- `LandmarkData.FloorIndex`: `r * n` is exact real arithmetic, not IEEE double multiplication.
- JavaScript object quirks: prototype keys such as "constructor" that a plain object lookup would find are not modelled; the table is a Dafny `map`.
- Rendering of the selector (CSS classes, markup) is left out; React's suppression of change events on disabled inputs is library behaviour and not modelled.
