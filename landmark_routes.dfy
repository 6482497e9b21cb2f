/**
 * The landmark HTTP routes (backend/src/routes/landmarks.ts) as pure decision
 * logic: each request maps to exactly one response. Distance computation and
 * the Wikipedia fetch are passed in; the route's record shapes are those of
 * backend/src/types.ts.
 */
module LandmarkRoutes {
  import opened Wrappers
  import LandmarkData

  datatype Coordinates = Coordinates(lat: real, lng: real)

  /** The landmark record the guess route reads. */
  datatype Landmark = Landmark(
    id: string,
    name: string,
    image: string,
    coords: Coordinates,
    wikiTitle: string)

  datatype GuessRequest = GuessRequest(landmarkId: string, guess: Coordinates)

  /** `haversineDistance(lat1, lng1, lat2, lng2)`. */
  type DistanceFn = (real, real, real, real) -> real

  /** The parts of the Wikipedia summary payload the route reads; a missing field is None. */
  datatype DesktopUrls = DesktopUrls(page: Option<string>)
  datatype ContentUrls = ContentUrls(desktop: Option<DesktopUrls>)
  datatype WikiData = WikiData(extract: Option<string>, contentUrls: Option<ContentUrls>)

  /** What `axios.get` of a URL yields: the response data, or a rejection. */
  datatype FetchOutcome = Fetched(data: WikiData) | FetchFailed
  type FetchFn = string -> FetchOutcome

  datatype Wiki = Wiki(extract: Option<string>, url: Option<string>)

  datatype Body =
    | ErrorBody(error: string)
    | GuessBody(correct: Coordinates, distanceKm: real, wiki: Wiki)
    | RandomBody(landmark: Option<LandmarkData.Landmark>)

  datatype Response = Response(status: nat, body: Body)

  const SummaryBase: string := "https://en.wikipedia.org/api/rest_v1/page/summary/"
  const InvalidLandmarkId: string := "Invalid landmarkId"
  const WikiFetchFailed: string := "Failed to fetch Wikipedia data"

  /** The summary URL of a page title: the fixed REST endpoint followed by the title. */
  function WikiUrl(title: string): (u: string)
    ensures |u| == |SummaryBase| + |title|
    ensures u[..|SummaryBase|] == SummaryBase && u[|SummaryBase|..] == title
  {
    SummaryBase + title
  }

  /** Different titles are fetched from different URLs. */
  lemma WikiUrlInjective(a: string, b: string)
    requires WikiUrl(a) == WikiUrl(b)
    ensures a == b
  {
    assert a == WikiUrl(a)[|SummaryBase|..];
  }

  /**
   * `wikiData.content_urls.desktop.page`: None when `content_urls` or `desktop`
   * is missing (the access throws), otherwise the page field, itself possibly missing.
   */
  function DesktopPage(data: WikiData): (r: Option<Option<string>>)
    ensures r.None? <==> data.contentUrls.None? || data.contentUrls.value.desktop.None?
    ensures r.Some? ==> r.value == data.contentUrls.value.desktop.value.page
  {
    if data.contentUrls.None? || data.contentUrls.value.desktop.None? then None
    else Some(data.contentUrls.value.desktop.value.page)
  }

  /** POST /guess. */
  function HandleGuess(
    req: GuessRequest, table: map<string, Landmark>, distance: DistanceFn, fetch: FetchFn)
    : (res: Response)
    ensures res.status == 200 || res.status == 400 || res.status == 500
    ensures res.status == 400 <==> req.landmarkId !in table
    ensures res.status == 400 ==> res.body == ErrorBody(InvalidLandmarkId)
    ensures res.status == 500 ==> res.body == ErrorBody(WikiFetchFailed)
    ensures req.landmarkId in table ==>
      var l := table[req.landmarkId];
      var outcome := fetch(WikiUrl(l.wikiTitle));
      && (res.status == 500 <==> outcome.FetchFailed? || DesktopPage(outcome.data).None?)
      && (res.status == 200 ==>
            res.body == GuessBody(
              l.coords,
              distance(l.coords.lat, l.coords.lng, req.guess.lat, req.guess.lng),
              Wiki(outcome.data.extract, DesktopPage(outcome.data).value)))
  {
    if req.landmarkId !in table then
      Response(400, ErrorBody(InvalidLandmarkId))
    else
      var landmark := table[req.landmarkId];
      var distanceKm := distance(landmark.coords.lat, landmark.coords.lng, req.guess.lat, req.guess.lng);
      var wikiUrl := WikiUrl(landmark.wikiTitle);
      match fetch(wikiUrl)
      case FetchFailed => Response(500, ErrorBody(WikiFetchFailed))
      case Fetched(wikiData) =>
        match DesktopPage(wikiData)
        case None => Response(500, ErrorBody(WikiFetchFailed))
        case Some(url) =>
          Response(200, GuessBody(landmark.coords, distanceKm, Wiki(wikiData.extract, url)))
  }

  /** An unknown id is answered before any distance is computed or anything is fetched. */
  lemma UnknownIdDoesNoWork(
    req: GuessRequest, table: map<string, Landmark>,
    d1: DistanceFn, f1: FetchFn, d2: DistanceFn, f2: FetchFn)
    requires req.landmarkId !in table
    ensures HandleGuess(req, table, d1, f1) == HandleGuess(req, table, d2, f2)
  {
  }

  /** The only URL whose fetch matters is the summary URL of the landmark's title. */
  lemma OnlyTheSummaryUrlIsFetched(
    req: GuessRequest, table: map<string, Landmark>, distance: DistanceFn, f1: FetchFn, f2: FetchFn)
    requires req.landmarkId in table
    requires f1(WikiUrl(table[req.landmarkId].wikiTitle)) == f2(WikiUrl(table[req.landmarkId].wikiTitle))
    ensures HandleGuess(req, table, distance, f1) == HandleGuess(req, table, distance, f2)
  {
  }

  /** A failed fetch never yields a partial success, whatever the distance. */
  lemma FetchFailureIsServerError(
    req: GuessRequest, table: map<string, Landmark>, distance: DistanceFn, fetch: FetchFn)
    requires req.landmarkId in table
    requires fetch(WikiUrl(table[req.landmarkId].wikiTitle)).FetchFailed?
    ensures HandleGuess(req, table, distance, fetch) == Response(500, ErrorBody(WikiFetchFailed))
  {
  }

  /** GET /random: the random pick, sent unchanged (an empty body when there is none). */
  function HandleRandom(r: real): (res: Response)
    ensures res.status == 200
    ensures res.body.RandomBody? && res.body.landmark == LandmarkData.GetRandomLandmark(r)
  {
    Response(200, RandomBody(LandmarkData.GetRandomLandmark(r)))
  }

  /** For every draw in [0, 1) the challenge carries a landmark of the table. */
  lemma RandomSendsATableEntry(r: real)
    requires 0.0 <= r < 1.0
    ensures HandleRandom(r).body.landmark.Some?
    ensures HandleRandom(r).body.landmark.value in LandmarkData.Landmarks.Values
  {
    LandmarkData.RandomLandmarkIsInTable(r);
  }
}
