/**
 * Challenges: the `GameChallenge` value, the record it is stored as, and the
 * static catalog of challenge templates.
 */
module ChallengeData {
  import opened Wrappers
  import opened Stations

  /**
   * A challenge as the screens hold it. `id` stands for the UUID generated
   * each time a value is built; synthesised equality compares it too.
   */
  datatype GameChallenge = GameChallenge(
    id: nat,
    title: string,
    description: string,
    station: string,
    line: Option<MetroLine>)

  /** The fields of a challenge document in the store (the timestamp is not modelled). */
  datatype ChallengeDoc = ChallengeDoc(title: string, description: string, station: string, line: string)

  /** `challenge.line?.rawValue ?? ""`. */
  function LineField(line: Option<MetroLine>): string
  {
    match line
    case Some(l) => RawValue(l)
    case None => ""
  }

  /** The data a challenge is written with. */
  function ToDoc(c: GameChallenge): ChallengeDoc
  {
    ChallengeDoc(c.title, c.description, c.station, LineField(c.line))
  }

  /** A listener rebuilding a challenge from a document, with a freshly generated id. */
  function FromDoc(d: ChallengeDoc, id: nat): GameChallenge
  {
    GameChallenge(id, d.title, d.description, d.station, ParseLine(d.line))
  }

  /** Writing a challenge and reading it back gives it back, with the id the reader generated. */
  lemma FromToDoc(c: GameChallenge)
    ensures FromDoc(ToDoc(c), c.id) == c
  {
    match c.line
    case Some(l) => ParseRawValue(l);
    case None =>
  }

  /**
   * Reading a document and writing it back gives the same document exactly
   * when its line field is empty or a line's raw value; any other line string is lost.
   */
  lemma ToFromDoc(d: ChallengeDoc, id: nat)
    ensures ToDoc(FromDoc(d, id)) == d <==> d.line == "" || ParseLine(d.line).Some?
  {
  }

  /** Two values built separately carry different ids, so they are unequal even with equal fields. */
  lemma SeparatelyBuiltUnequal(d: ChallengeDoc, id1: nat, id2: nat)
    requires id1 != id2
    ensures FromDoc(d, id1) != FromDoc(d, id2)
    ensures ToDoc(FromDoc(d, id1)) == ToDoc(FromDoc(d, id2))
  {
  }

  /** `sampleChallenges`: the catalog, built once with ids 0 to 4 and no line. */
  const SampleChallenges: seq<GameChallenge> := [
    GameChallenge(0, "Strike a Pose", "Take a funny group photo at Mariachi Plaza.", "Mariachi Plaza", None),
    GameChallenge(1, "Local History", "Find and record a short video explaining a nearby mural.", "Expo/Vermont", None),
    GameChallenge(2, "Metro Selfie", "Snap a selfie with a Metro worker (with permission!).", "Hollywood/Vine", None),
    GameChallenge(3, "Train Trivia", "Ask a stranger on the platform to share a fact about LA.", "Grand/LATTC", None),
    GameChallenge(4, "Soundtrack Time", "Play a song that fits the mood of the station and dance for 10 seconds.", "Pico", None)
  ]

  /** `sampleChallenges.filter { $0.station == name }`, order kept. */
  function CatalogOptions(name: string): (r: seq<GameChallenge>)
    ensures forall c :: c in r <==> c in SampleChallenges && c.station == name
  {
    FilterStation(SampleChallenges, name)
  }

  function FilterStation(cs: seq<GameChallenge>, name: string): (r: seq<GameChallenge>)
    ensures forall c :: c in r <==> c in cs && c.station == name
    ensures |r| <= |cs|
  {
    if cs == [] then []
    else if cs[0].station == name then [cs[0]] + FilterStation(cs[1..], name)
    else FilterStation(cs[1..], name)
  }

  /** The catalog holds five templates, with at most one per station. */
  lemma CatalogShape(i: nat, j: nat)
    requires i < j < |SampleChallenges|
    ensures |SampleChallenges| == 5
    ensures SampleChallenges[i].station != SampleChallenges[j].station
  {
  }

  /** Every template's station is the name of a station in the sample map. */
  lemma CatalogStationsOnMap(i: nat)
    requires i < |SampleChallenges|
    ensures SampleChallenges[i].station in StationNames()
  {
    var stationIndex := [0, 3, 4, 1, 2];
    var k := stationIndex[i];
    assert SampleStations[k].name == SampleChallenges[i].station;
  }

  /** A station with a template offers exactly that one template. */
  lemma OneOptionPerStation(i: nat)
    requires i < |SampleChallenges|
    ensures CatalogOptions(SampleChallenges[i].station) == [SampleChallenges[i]]
  {
    var name := SampleChallenges[i].station;
    var cs := SampleChallenges;
    forall j | 0 <= j < |cs| && j != i
      ensures cs[j].station != name
    {
      if j < i { CatalogShape(j, i); } else { CatalogShape(i, j); }
    }
    FilterOnly(cs, name, i);
  }

  /** Filtering keeps exactly the one entry whose station matches. */
  lemma {:induction false} FilterOnly(cs: seq<GameChallenge>, name: string, i: nat)
    requires i < |cs| && cs[i].station == name
    requires forall j :: 0 <= j < |cs| && j != i ==> cs[j].station != name
    ensures FilterStation(cs, name) == [cs[i]]
  {
    if i == 0 {
      FilterNone(cs[1..], name);
    } else {
      FilterOnly(cs[1..], name, i - 1);
    }
  }

  /** Filtering a list with no matching entry gives nothing. */
  lemma {:induction false} FilterNone(cs: seq<GameChallenge>, name: string)
    requires forall j :: 0 <= j < |cs| ==> cs[j].station != name
    ensures FilterStation(cs, name) == []
  {
    if cs != [] {
      FilterNone(cs[1..], name);
    }
  }

  /** Union Station, Pershing Square and 7th Street/Metro Center have no template. */
  lemma StationsWithoutTemplate(name: string)
    requires name in {"Union Station", "Pershing Square", "7th Street/Metro Center"}
    ensures CatalogOptions(name) == []
  {
  }
}
