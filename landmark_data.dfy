/**
 * The fixed landmark table of the server (backend/src/data/examples.ts):
 * lookup by id and the random pick behind the challenge endpoint.
 */
module LandmarkData {
  import opened Wrappers

  datatype LngLat = LngLat(lng: real, lat: real)

  datatype Landmark = Landmark(
    id: string,
    name: string,
    location: LngLat,
    detailsUrl: string,
    images: seq<string>)

  /** LANDMARKS, keyed by landmark id. */
  const Landmarks: map<string, Landmark> := map[
    "eiffel" := Landmark(
      "eiffel",
      "Eiffel Tower",
      LngLat(2.2945, 48.8584),
      "https://en.wikipedia.org/api/rest_v1/page/summary/Eiffel_Tower",
      ["https://upload.wikimedia.org/wikipedia/commons/7/76/Georges_Garen_embrasement_tour_Eiffel.jpg",
       "https://upload.wikimedia.org/wikipedia/commons/5/53/Maurice_koechlin_pylone.jpg"]),
    "taj" := Landmark(
      "taj",
      "Taj Mahal",
      LngLat(78.0421, 27.1751),
      "https://en.wikipedia.org/api/rest_v1/page/summary/Taj_Mahal",
      ["https://upload.wikimedia.org/wikipedia/commons/1/1d/Taj_Mahal_%28Edited%29.jpeg",
       "https://upload.wikimedia.org/wikipedia/commons/9/94/Taj_Mahal_N-UP-A28-a_%28cropped%29.jpg"]),
    "statueOfLiberty" := Landmark(
      "statueOfLiberty",
      "Statue of Liberty",
      LngLat(-74.0445, 40.6892),
      "https://en.wikipedia.org/api/rest_v1/page/summary/Statue_of_Liberty",
      ["https://upload.wikimedia.org/wikipedia/commons/5/57/Head_of_the_Statue_of_Liberty_on_display_in_a_park_in_Paris.jpg",
       "https://upload.wikimedia.org/wikipedia/commons/6/6e/EdwardMoran-UnveilingTheStatueofLiberty1886Large.jpg"])
  ]

  /** The keys of LANDMARKS in insertion order, which is the order `Object.values` follows. */
  const KeyOrder: seq<string> := ["eiffel", "taj", "statueOfLiberty"]

  /** A landmark is well formed when its location is a valid coordinate and it has images. */
  predicate WellFormed(l: Landmark)
  {
    && -180.0 <= l.location.lng <= 180.0
    && -90.0 <= l.location.lat <= 90.0
    && |l.images| > 0
  }

  /** Every entry is stored under its own id and is well formed. */
  lemma TableInvariant()
    ensures forall k :: k in Landmarks ==> Landmarks[k].id == k && WellFormed(Landmarks[k])
  {
  }

  /** `KeyOrder` lists every key of the table exactly once. */
  lemma KeyOrderIsTheKeys()
    ensures forall k :: k in KeyOrder <==> k in Landmarks
    ensures forall i, j :: 0 <= i < j < |KeyOrder| ==> KeyOrder[i] != KeyOrder[j]
  {
  }

  /** `Object.values(LANDMARKS)`: the entries in key insertion order. */
  function Values(): (vs: seq<Landmark>)
    ensures forall l :: l in vs <==> l in Landmarks.Values
    ensures |vs| == |KeyOrder|
    ensures forall i :: 0 <= i < |vs| ==> KeyOrder[i] in Landmarks && vs[i] == Landmarks[KeyOrder[i]]
  {
    var vs := seq(|KeyOrder|, i requires 0 <= i < |KeyOrder| => Landmarks[KeyOrder[i]]);
    assert vs[0] == Landmarks["eiffel"] && vs[1] == Landmarks["taj"]
      && vs[2] == Landmarks["statueOfLiberty"];
    vs
  }

  /** getLandmarkById: the entry stored under `id`, or nothing for an unknown id. */
  function GetLandmarkById(id: string): (r: Option<Landmark>)
    ensures r.Some? <==> id in Landmarks
    ensures r.Some? ==> r.value == Landmarks[id] && r.value.id == id
  {
    if id in Landmarks then Some(Landmarks[id]) else None
  }

  /** Looking a table entry up by its own id gives back that entry. */
  lemma LookupByOwnId(l: Landmark)
    requires l in Values()
    ensures GetLandmarkById(l.id) == Some(l)
  {
    TableInvariant();
  }

  lemma LookupExamples()
    ensures GetLandmarkById("eiffel").Some?
    ensures GetLandmarkById("eiffel").value.name == "Eiffel Tower"
    ensures GetLandmarkById("invalid-id") == None
  {
  }

  /** `Math.floor(r * n)`, with `r` the value drawn from `Math.random()`. */
  function FloorIndex(r: real, n: nat): (i: int)
    ensures 0.0 <= r < 1.0 && n > 0 ==> 0 <= i < n
  {
    ScaledBelowCount(r, n);
    (r * n as real).Floor
  }

  lemma ScaledBelowCount(r: real, n: nat)
    ensures 0.0 <= r < 1.0 && n > 0 ==> 0.0 <= r * n as real < n as real
  {
    if 0.0 <= r < 1.0 && n > 0 {
      assert (1.0 - r) * n as real > 0.0;
    }
  }

  /** `values[floor(r * |values|)]`, undefined when that index is out of range. */
  function PickAt(values: seq<Landmark>, r: real): (res: Option<Landmark>)
    ensures 0.0 <= r < 1.0 ==> (res.Some? <==> |values| > 0)
    ensures res.Some? ==> res.value in values
  {
    var i := FloorIndex(r, |values|);
    if 0 <= i < |values| then Some(values[i]) else None
  }

  /**
   * Every draw in [i/n, (i+1)/n) picks entry `i`: each of the `n` entries owns an
   * interval of width 1/n, which makes a uniform draw a uniform pick.
   */
  lemma PickInterval(values: seq<Landmark>, r: real, i: int)
    requires 0 <= i < |values|
    ensures i as real / |values| as real <= r < (i + 1) as real / |values| as real ==>
      PickAt(values, r) == Some(values[i])
  {
    var n := |values| as real;
    if i as real / n <= r < (i + 1) as real / n {
      ScaleInterval(i as real, r, (i + 1) as real, n);
      assert FloorIndex(r, |values|) == i;
    }
  }

  /** Multiplying `a/n <= r < b/n` through by a positive `n`. */
  lemma ScaleInterval(a: real, r: real, b: real, n: real)
    requires n > 0.0 && a / n <= r < b / n
    ensures a <= r * n < b
  {
    var lo, hi := a / n, b / n;
    assert lo * n == a && hi * n == b;
    assert (r - lo) * n >= 0.0 by {
      assert r - lo >= 0.0;
    }
    assert (hi - r) * n > 0.0 by {
      assert hi - r > 0.0;
    }
  }

  /** getRandomLandmark, with the random draw `r` taken as a parameter. */
  function GetRandomLandmark(r: real): (res: Option<Landmark>)
    ensures res.Some? ==> res.value in Landmarks.Values
  {
    PickAt(Values(), r)
  }

  /** The draws in [i/3, (i+1)/3) pick the `i`-th landmark in key order. */
  lemma DrawSelectsInterval(r: real, i: int)
    requires 0 <= i < |KeyOrder|
    ensures i as real / 3.0 <= r < (i + 1) as real / 3.0 ==>
      GetRandomLandmark(r) == Some(Landmarks[KeyOrder[i]])
  {
    PickInterval(Values(), r, i);
  }

  /** Every landmark of the table can be drawn. */
  lemma EveryLandmarkCanBeDrawn(key: string)
    requires key in Landmarks
    ensures exists r :: 0.0 <= r < 1.0 && GetRandomLandmark(r) == Some(Landmarks[key])
  {
    KeyOrderIsTheKeys();
    var i :| 0 <= i < |KeyOrder| && KeyOrder[i] == key;
    DrawSelectsInterval(i as real / 3.0, i);
  }

  /** For every draw in [0, 1) the random pick is a table entry, found again by its id. */
  lemma RandomLandmarkIsInTable(r: real)
    requires 0.0 <= r < 1.0
    ensures GetRandomLandmark(r).Some?
    ensures GetLandmarkById(GetRandomLandmark(r).value.id) == GetRandomLandmark(r)
    ensures WellFormed(GetRandomLandmark(r).value)
  {
    LookupByOwnId(GetRandomLandmark(r).value);
    TableInvariant();
  }
}
