/**
 * The metro network of the game: the closed set of lines and the static
 * station map (names and lines; map coordinates and colours are not modelled).
 */
module Stations {
  import opened Wrappers

  /** The four metro lines; `CaseIterable` order is declaration order. */
  datatype MetroLine = A | B | D | E

  /** `MetroLine.allCases`. */
  const AllLines: seq<MetroLine> := [A, B, D, E]

  const LineSet: set<MetroLine> := {A, B, D, E}

  /** The enum's raw value, a one-letter string. */
  function RawValue(line: MetroLine): string
  {
    match line
    case A => "A"
    case B => "B"
    case D => "D"
    case E => "E"
  }

  /** `MetroLine(rawValue:)`: the failable initialiser. */
  function ParseLine(s: string): (r: Option<MetroLine>)
    ensures r.Some? ==> RawValue(r.value) == s
  {
    if s == "A" then Some(A)
    else if s == "B" then Some(B)
    else if s == "D" then Some(D)
    else if s == "E" then Some(E)
    else None
  }

  /** Parsing a raw value gives back the line. */
  lemma ParseRawValue(line: MetroLine)
    ensures ParseLine(RawValue(line)) == Some(line)
  {
  }

  /** A string parses to a line exactly when it is that line's raw value. */
  lemma ParseLineIff(s: string, line: MetroLine)
    ensures ParseLine(s) == Some(line) <==> s == RawValue(line)
  {
    if s == RawValue(line) {
      ParseRawValue(line);
    }
  }

  /** The enum is closed: every line is listed once in `allCases`, which has four entries. */
  lemma AllLinesClosed(line: MetroLine)
    ensures line in AllLines && line in LineSet
    ensures |AllLines| == 4 && |LineSet| == 4
    ensures forall i, j :: 0 <= i < j < |AllLines| ==> AllLines[i] != AllLines[j]
  {
  }

  /** A station: its display name and the lines it belongs to, in order. */
  datatype Station = Station(name: string, lines: seq<MetroLine>)

  /** `sampleStations`, in source order. */
  const SampleStations: seq<Station> := [
    Station("Mariachi Plaza", [E, B]),
    Station("Grand/LATTC", [A]),
    Station("Pico", [E]),
    Station("Expo/Vermont", [E]),
    Station("Hollywood/Vine", [B]),
    Station("Union Station", [B, D]),
    Station("Pershing Square", [D]),
    Station("7th Street/Metro Center", [A, D])
  ]

  /** The names of the sample stations. */
  function StationNames(): (r: set<string>)
    ensures forall s :: s in r <==> exists i :: 0 <= i < |SampleStations| && SampleStations[i].name == s
  {
    set i | 0 <= i < |SampleStations| :: SampleStations[i].name
  }

  /** Every sample station belongs to at least one line. */
  lemma EveryStationHasALine(i: nat)
    requires i < |SampleStations|
    ensures |SampleStations[i].lines| >= 1
  {
  }

  /** Sample station names are pairwise distinct, so a name identifies a station. */
  lemma StationNamesDistinct(i: nat, j: nat)
    requires i < j < |SampleStations|
    ensures SampleStations[i].name != SampleStations[j].name
  {
  }

  /**
   * Mariachi Plaza (E, B), Union Station (B, D) and 7th Street/Metro Center (A, D)
   * are the multi-line stations, each on exactly two distinct lines.
   */
  lemma MultiLineStations(i: nat)
    requires i < |SampleStations|
    ensures |SampleStations[i].lines| > 1 <==> i in {0, 5, 7}
    ensures |SampleStations[i].lines| <= 2
    ensures |SampleStations[i].lines| == 2 ==> SampleStations[i].lines[0] != SampleStations[i].lines[1]
  {
  }
}
