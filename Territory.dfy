/**
 * Territory scoring shared by the game screen and the end-of-game summary:
 * per team and per line, the number of distinct stations among the team's
 * completed challenges on that line, and the game screen's unique-controller rule.
 */
module Territory {
  import opened Wrappers
  import opened Stations
  import opened ChallengeData

  /** Per team, per line, the set of stations completed there. */
  type StationSets = map<string, map<MetroLine, set<string>>>

  /** Per team, per line, the number of distinct stations completed there. */
  type LineCounts = map<string, map<MetroLine, nat>>

  /** The completed documents of a team; a team with no completion collection has none. */
  function DocsOf(completed: map<string, seq<ChallengeDoc>>, team: string): seq<ChallengeDoc>
  {
    if team in completed then completed[team] else []
  }

  /** The document was completed on `line`: its line field parses to it. */
  predicate OnLine(d: ChallengeDoc, line: MetroLine)
  {
    ParseLine(d.line) == Some(line)
  }

  /** The stations of the documents completed on `line`. */
  function StationsOn(docs: seq<ChallengeDoc>, line: MetroLine): (r: set<string>)
    ensures |r| <= |docs|
  {
    if docs == [] then {}
    else StationsOn(docs[..|docs| - 1], line) + (if OnLine(docs[|docs| - 1], line) then {docs[|docs| - 1].station} else {})
  }

  /** A station is counted on a line exactly when some completion on that line names it. */
  lemma {:induction false} StationsOnMembers(docs: seq<ChallengeDoc>, line: MetroLine, s: string)
    ensures s in StationsOn(docs, line) <==> exists i :: 0 <= i < |docs| && docs[i].station == s && OnLine(docs[i], line)
  {
    if docs != [] {
      var init := docs[..|docs| - 1];
      StationsOnMembers(init, line, s);
      if s in StationsOn(init, line) {
        var i :| 0 <= i < |init| && init[i].station == s && OnLine(init[i], line);
        assert docs[i] == init[i];
      }
      if exists i :: 0 <= i < |docs| && docs[i].station == s && OnLine(docs[i], line) {
        var i :| 0 <= i < |docs| && docs[i].station == s && OnLine(docs[i], line);
        if i < |docs| - 1 {
          assert init[i] == docs[i];
        }
      }
    }
  }

  /** Appending a document adds its station to its own line only. */
  lemma StationsOnSnoc(docs: seq<ChallengeDoc>, d: ChallengeDoc, line: MetroLine)
    ensures StationsOn(docs + [d], line) == StationsOn(docs, line) + (if OnLine(d, line) then {d.station} else {})
  {
    assert (docs + [d])[..|docs|] == docs;
  }

  /** A station completed again on the same line adds nothing to the count. */
  lemma DuplicateStationCountsOnce(docs: seq<ChallengeDoc>, d: ChallengeDoc, line: MetroLine)
    requires OnLine(d, line)
    requires exists i :: 0 <= i < |docs| && docs[i].station == d.station && OnLine(docs[i], line)
    ensures StationsOn(docs + [d], line) == StationsOn(docs, line)
  {
    StationsOnSnoc(docs, d, line);
    StationsOnMembers(docs, line, d.station);
  }

  /** A document whose line does not parse is skipped on every line. */
  lemma UnparsableLineSkipped(docs: seq<ChallengeDoc>, d: ChallengeDoc, line: MetroLine)
    requires ParseLine(d.line).None?
    ensures StationsOn(docs + [d], line) == StationsOn(docs, line)
  {
    StationsOnSnoc(docs, d, line);
  }

  /** A team's line map: every line with at least one station, mapped to its stations. */
  function StationMap(docs: seq<ChallengeDoc>): map<MetroLine, set<string>>
  {
    map l | l in LineSet && StationsOn(docs, l) != {} :: StationsOn(docs, l)
  }

  /** `m[line, default: []].insert(station)`. */
  function Insert(m: map<MetroLine, set<string>>, line: MetroLine, station: string): map<MetroLine, set<string>>
  {
    m[line := (if line in m then m[line] else {}) + {station}]
  }

  /** A completion on a line that parses inserts its station into that line's set. */
  lemma StationMapSnocOn(docs: seq<ChallengeDoc>, d: ChallengeDoc, line: MetroLine)
    requires OnLine(d, line)
    ensures StationMap(docs + [d]) == Insert(StationMap(docs), line, d.station)
  {
    StationMapSnocOnLines(docs, d, line);
  }

  lemma StationMapSnocOnLines(docs: seq<ChallengeDoc>, d: ChallengeDoc, line: MetroLine)
    requires OnLine(d, line)
    ensures var m', n := StationMap(docs + [d]), Insert(StationMap(docs), line, d.station);
      forall l :: (l in m' <==> l in n) && (l in m' ==> m'[l] == n[l])
  {
    var m, m' := StationMap(docs), StationMap(docs + [d]);
    var n := Insert(m, line, d.station);
    forall l: MetroLine
      ensures (l in m' <==> l in n) && (l in m' ==> m'[l] == n[l])
    {
      StationsOnSnoc(docs, d, l);
      assert OnLine(d, l) <==> l == line;
    }
  }

  /** A completion whose line does not parse leaves the line map as it is. */
  lemma StationMapSnocSkip(docs: seq<ChallengeDoc>, d: ChallengeDoc)
    requires ParseLine(d.line).None?
    ensures StationMap(docs + [d]) == StationMap(docs)
  {
    StationMapSnocSkipLines(docs, d);
  }

  lemma StationMapSnocSkipLines(docs: seq<ChallengeDoc>, d: ChallengeDoc)
    requires ParseLine(d.line).None?
    ensures var m, m' := StationMap(docs), StationMap(docs + [d]);
      forall l :: (l in m' <==> l in m) && (l in m' ==> m'[l] == m[l])
  {
    var m, m' := StationMap(docs), StationMap(docs + [d]);
    forall l: MetroLine
      ensures (l in m' <==> l in m) && (l in m' ==> m'[l] == m[l])
    {
      StationsOnSnoc(docs, d, l);
    }
  }

  /** Station sets of the teams in `teams`: only teams with a parsable completion get an entry. */
  function SetsOf(teams: seq<string>, completed: map<string, seq<ChallengeDoc>>): StationSets
  {
    map t | t in teams && StationMap(DocsOf(completed, t)) != map[] :: StationMap(DocsOf(completed, t))
  }

  /** `Set<String>` counts: every team with a non-empty line map, every line mapped to its size. */
  function CountsOf(sets: StationSets): LineCounts
  {
    map t | t in sets && sets[t] != map[] :: Sizes(sets[t])
  }

  function Sizes(m: map<MetroLine, set<string>>): map<MetroLine, nat>
  {
    SizesOn(m, m.Keys)
  }

  /** The sizes of the sets of `m` on the lines in `lines`. */
  function SizesOn(m: map<MetroLine, set<string>>, lines: set<MetroLine>): map<MetroLine, nat>
  {
    map l | l in lines && l in m :: |m[l]|
  }

  /** The line counts of a set of teams: the station sets of the teams, then their sizes. */
  function LineCountsOf(teams: seq<string>, completed: map<string, seq<ChallengeDoc>>): LineCounts
  {
    CountsOf(SetsOf(teams, completed))
  }

  /** Some completion of `docs` is on a line that parses. */
  predicate HasLine(docs: seq<ChallengeDoc>)
  {
    exists l :: StationsOn(docs, l) != {}
  }

  /** A line map is empty exactly when no completion is on a line that parses. */
  lemma StationMapEmpty(docs: seq<ChallengeDoc>)
    ensures StationMap(docs) != map[] <==> HasLine(docs)
  {
    if HasLine(docs) {
      var l :| StationsOn(docs, l) != {};
      AllLinesClosed(l);
      assert l in StationMap(docs);
    }
    if StationMap(docs) != map[] {
      var l :| l in StationMap(docs);
      assert StationsOn(docs, l) != {};
    }
  }

  /** A team has a line-count entry exactly when one of its completions is on a line that parses. */
  lemma LineCountsTeam(teams: seq<string>, completed: map<string, seq<ChallengeDoc>>, t: string)
    ensures t in LineCountsOf(teams, completed) <==> t in teams && HasLine(DocsOf(completed, t))
  {
    StationMapEmpty(DocsOf(completed, t));
    var sets := SetsOf(teams, completed);
    assert t in sets <==> t in teams && StationMap(DocsOf(completed, t)) != map[];
  }

  /**
   * Within a team's entry, a line has an entry exactly when some completion
   * is on it, and the entry is the number of distinct stations, at least one.
   */
  lemma LineCountsLine(teams: seq<string>, completed: map<string, seq<ChallengeDoc>>, t: string, l: MetroLine)
    requires t in LineCountsOf(teams, completed)
    ensures l in LineCountsOf(teams, completed)[t] <==> StationsOn(DocsOf(completed, t), l) != {}
    ensures l in LineCountsOf(teams, completed)[t] ==> LineCountsOf(teams, completed)[t][l] == |StationsOn(DocsOf(completed, t), l)| >= 1
  {
    AllLinesClosed(l);
  }

  /**
   * The inner loop of the aggregation: inserts, document by document, the
   * station of every completion whose line parses into the team's line map.
   */
  method AddTeamStations(sets: StationSets, team: string, docs: seq<ChallengeDoc>) returns (r: StationSets)
    requires team !in sets
    ensures r == Put(sets, team, StationMap(docs), StationMap(docs) != map[])
  {
    r := sets;
    var j := 0;
    assert docs[..0] == [];
    ghost var cur: map<MetroLine, set<string>> := map[];
    while j < |docs|
      invariant 0 <= j <= |docs|
      invariant cur == InsertAll(docs[..j])
      invariant r == Put(sets, team, cur, cur != map[])
    {
      var d := docs[j];
      InsertAllStep(docs, j);
      var parsed := ParseLine(d.line);
      if parsed.Some? {
        var line := parsed.value;
        InsertEntry(sets, team, cur, line, d.station);
        var lines := if team in r then r[team] else map[];
        r := r[team := Insert(lines, line, d.station)];
        cur := Insert(cur, line, d.station);
      }
      j := j + 1;
    }
    assert docs[..j] == docs;
    InsertAllIsStationMap(docs);
  }

  /** The line map built document by document, inserting the station of every completion whose line parses. */
  function InsertAll(docs: seq<ChallengeDoc>): map<MetroLine, set<string>>
  {
    if docs == [] then map[]
    else
      var m, d := InsertAll(docs[..|docs| - 1]), docs[|docs| - 1];
      match ParseLine(d.line)
      case Some(line) => Insert(m, line, d.station)
      case None => m
  }

  /** One more document of the list: its station inserted when its line parses, nothing otherwise. */
  lemma InsertAllStep(docs: seq<ChallengeDoc>, j: nat)
    requires j < |docs|
    ensures ParseLine(docs[j].line).Some? ==>
      InsertAll(docs[..j + 1]) == Insert(InsertAll(docs[..j]), ParseLine(docs[j].line).value, docs[j].station)
    ensures ParseLine(docs[j].line).None? ==> InsertAll(docs[..j + 1]) == InsertAll(docs[..j])
  {
    assert docs[..j + 1][..j] == docs[..j];
  }

  /** Building the line map insertion by insertion gives the line map of the whole list. */
  lemma {:induction false} InsertAllIsStationMap(docs: seq<ChallengeDoc>)
    ensures InsertAll(docs) == StationMap(docs)
  {
    if docs == [] {
      assert StationMap(docs) == map[];
    } else {
      var init, d := docs[..|docs| - 1], docs[|docs| - 1];
      InsertAllIsStationMap(init);
      assert docs == init + [d];
      match ParseLine(d.line)
      case Some(line) => StationMapSnocOn(init, d, line);
      case None => StationMapSnocSkip(init, d);
    }
  }

  /** `m` with `k` mapped to `v` when `present`, and `m` itself otherwise. */
  function Put<V>(m: map<string, V>, k: string, v: V, present: bool): map<string, V>
  {
    if present then m[k := v] else m
  }

  /** One insertion into the team's entry, absent or not, gives the entry of the extended line map. */
  lemma InsertEntry(sets: StationSets, team: string, cur: map<MetroLine, set<string>>, line: MetroLine, station: string)
    requires team !in sets
    ensures var r := Put(sets, team, cur, cur != map[]);
      var lines := if team in r then r[team] else map[];
      var next := Insert(cur, line, station);
      next != map[] && r[team := Insert(lines, line, station)] == Put(sets, team, next, next != map[])
  {
    assert line in Insert(cur, line, station);
  }

  /** Adding one more team's entry to the station sets of `teams` gives those of `teams + [t]`. */
  lemma SetsOfStep(teams: seq<string>, t: string, completed: map<string, seq<ChallengeDoc>>, sets: StationSets)
    requires sets == Put(SetsOf(teams, completed), t, StationMap(DocsOf(completed, t)), StationMap(DocsOf(completed, t)) != map[])
    ensures sets == SetsOf(teams + [t], completed)
  {
    SetsOfStepIn(teams, t, completed, sets);
    SetsOfStepBack(teams, t, completed, sets);
  }

  lemma SetsOfStepIn(teams: seq<string>, t: string, completed: map<string, seq<ChallengeDoc>>, sets: StationSets)
    requires sets == Put(SetsOf(teams, completed), t, StationMap(DocsOf(completed, t)), StationMap(DocsOf(completed, t)) != map[])
    ensures forall u :: u in sets ==> u in SetsOf(teams + [t], completed) && sets[u] == SetsOf(teams + [t], completed)[u]
  {
    forall u | u in sets
      ensures u in SetsOf(teams + [t], completed) && sets[u] == SetsOf(teams + [t], completed)[u]
    {
      if u != t {
        assert u in SetsOf(teams, completed);
      }
    }
  }

  lemma SetsOfStepBack(teams: seq<string>, t: string, completed: map<string, seq<ChallengeDoc>>, sets: StationSets)
    requires sets == Put(SetsOf(teams, completed), t, StationMap(DocsOf(completed, t)), StationMap(DocsOf(completed, t)) != map[])
    ensures forall u :: u in SetsOf(teams + [t], completed) ==> u in sets
  {
    forall u | u in SetsOf(teams + [t], completed)
      ensures u in sets
    {
      if u != t {
        assert u in teams;
        assert u in SetsOf(teams, completed);
      }
    }
  }

  /** The first loop of the aggregation: the station sets of every team document. */
  method CollectStations(teams: seq<string>, completed: map<string, seq<ChallengeDoc>>) returns (sets: StationSets)
    requires forall i, j :: 0 <= i < j < |teams| ==> teams[i] != teams[j]
    ensures sets == SetsOf(teams, completed)
  {
    sets := map[];
    var i := 0;
    while i < |teams|
      invariant 0 <= i <= |teams|
      invariant sets == SetsOf(teams[..i], completed)
    {
      var t := teams[i];
      assert t !in teams[..i];
      assert t !in sets;
      sets := AddTeamStations(sets, t, DocsOf(completed, t));
      SetsOfStep(teams[..i], t, completed, sets);
      assert teams[..i + 1] == teams[..i] + [t];
      i := i + 1;
    }
    assert teams[..i] == teams;
  }

  /** The counts of the teams in `done`. */
  function PartialCounts(sets: StationSets, done: set<string>): LineCounts
  {
    map t | t in done && t in sets && sets[t] != map[] :: Sizes(sets[t])
  }

  /** Once every team is done, the partial counts are the counts. */
  lemma PartialCountsAll(sets: StationSets)
    ensures PartialCounts(sets, sets.Keys) == CountsOf(sets)
  {
  }

  /** A team whose row holds the sizes of all its sets extends the partial counts by that team. */
  lemma PartialCountsStep(sets: StationSets, done: set<string>, team: string, counts: LineCounts)
    requires team in sets && team !in done
    requires counts == Put(PartialCounts(sets, done), team, SizesOn(sets[team], sets[team].Keys), sets[team].Keys != {})
    ensures counts == PartialCounts(sets, done + {team})
  {
    var next := PartialCounts(sets, done + {team});
    assert sets[team].Keys != {} <==> sets[team] != map[];
    forall u | u in counts
      ensures u in next && counts[u] == next[u]
    {
      if u != team {
        assert u in PartialCounts(sets, done);
      }
    }
    forall u | u in next
      ensures u in counts
    {
      if u != team {
        assert u in PartialCounts(sets, done);
      }
    }
  }

  /** Storing the size of one more line keeps the row equal to the sizes of the lines seen so far. */
  lemma RowStep(counts: LineCounts, before: LineCounts, team: string, lines: map<MetroLine, set<string>>,
                seen: set<MetroLine>, line: MetroLine)
    requires line in lines && team !in before
    requires counts == Put(before, team, SizesOn(lines, seen), seen != {})
    ensures SetCount(counts, team, line, |lines[line]|) == Put(before, team, SizesOn(lines, seen + {line}), seen + {line} != {})
  {
    SizesOnAdd(lines, seen, line);
    if seen == {} {
      assert SizesOn(lines, seen) == map[];
    }
  }

  /** The sizes on one more line: the row gains that line's size. */
  lemma SizesOnAdd(lines: map<MetroLine, set<string>>, seen: set<MetroLine>, line: MetroLine)
    requires line in lines
    ensures SizesOn(lines, seen + {line}) == SizesOn(lines, seen)[line := |lines[line]|]
  {
  }
  /** `counts[team, default: [:]][line] = size`. */
  function SetCount(counts: LineCounts, team: string, line: MetroLine, size: nat): LineCounts
  {
    counts[team := (if team in counts then counts[team] else map[])[line := size]]
  }

  /** The second loop of the aggregation: every station set replaced by its size. */
  method CountStations(sets: StationSets) returns (counts: LineCounts)
    ensures counts == CountsOf(sets)
  {
    counts := map[];
    var pending := sets.Keys;
    ghost var done: set<string> := {};
    while pending != {}
      invariant done + pending == sets.Keys && done !! pending
      invariant counts == PartialCounts(sets, done)
      decreases pending
    {
      var team :| team in pending;
      counts := StoreSizes(counts, team, sets[team]);
      PartialCountsStep(sets, done, team, counts);
      done := done + {team};
      pending := pending - {team};
    }
    PartialCountsAll(sets);
  }

  /** The inner loop of the conversion: the size of each of a team's station sets, stored in the team's row. */
  method StoreSizes(before: LineCounts, team: string, lines: map<MetroLine, set<string>>) returns (counts: LineCounts)
    requires team !in before
    ensures counts == Put(before, team, SizesOn(lines, lines.Keys), lines.Keys != {})
  {
    counts := before;
    var todo := lines.Keys;
    ghost var seen: set<MetroLine> := {};
    while todo != {}
      invariant seen <= lines.Keys && todo <= lines.Keys
      invariant forall l :: l in lines ==> (l in seen <==> l !in todo)
      invariant seen == {} ==> counts == before
      invariant seen != {} ==> counts == before[team := SizesOn(lines, seen)]
      decreases todo
    {
      var line :| line in todo;
      RowStep(counts, before, team, lines, seen, line);
      counts := SetCount(counts, team, line, |lines[line]|);
      seen := seen + {line};
      todo := todo - {line};
    }
    assert seen == lines.Keys;
  }

  /** Every completion on a line that parses is counted: its team and line have entries, and its station is among them. */
  lemma CompletionCounted(teams: seq<string>, completed: map<string, seq<ChallengeDoc>>, t: string, d: ChallengeDoc, l: MetroLine)
    requires t in teams && d in DocsOf(completed, t) && OnLine(d, l)
    ensures t in LineCountsOf(teams, completed) && l in LineCountsOf(teams, completed)[t]
    ensures d.station in StationsOn(DocsOf(completed, t), l)
  {
    var docs := DocsOf(completed, t);
    var i :| 0 <= i < |docs| && docs[i] == d;
    StationsOnMembers(docs, l, d.station);
    LineCountsTeam(teams, completed, t);
    LineCountsLine(teams, completed, t, l);
  }

  /** The whole aggregation: station sets, then counts. */
  method AggregateLineCounts(teams: seq<string>, completed: map<string, seq<ChallengeDoc>>) returns (counts: LineCounts)
    requires forall i, j :: 0 <= i < j < |teams| ==> teams[i] != teams[j]
    ensures counts == LineCountsOf(teams, completed)
  {
    var sets := CollectStations(teams, completed);
    counts := CountStations(sets);
  }

  /** `lines[line] ?? 0`. */
  function CountOr0(lines: map<MetroLine, nat>, line: MetroLine): nat
  {
    if line in lines then lines[line] else 0
  }

  /** The largest count on `line` among `teams`, missing entries read as 0; 0 for no teams. */
  ghost function MaxOver(teams: set<string>, counts: LineCounts, line: MetroLine): (r: nat)
    requires teams <= counts.Keys
    ensures forall t :: t in teams ==> CountOr0(counts[t], line) <= r
    ensures teams != {} ==> exists t :: t in teams && CountOr0(counts[t], line) == r
    ensures teams == {} ==> r == 0
    decreases teams
  {
    if teams == {} then 0
    else
      var t :| t in teams;
      var rest := MaxOver(teams - {t}, counts, line);
      if CountOr0(counts[t], line) > rest then CountOr0(counts[t], line) else rest
  }

  /** `teamLineCounts.values.map { $0[line] ?? 0 }.max() ?? 0`. */
  ghost function MaxCount(counts: LineCounts, line: MetroLine): (r: nat)
    ensures forall t :: t in counts ==> CountOr0(counts[t], line) <= r
    ensures counts != map[] ==> exists t :: t in counts && CountOr0(counts[t], line) == r
    ensures counts == map[] ==> r == 0
  {
    MaxOver(counts.Keys, counts, line)
  }

  /** `teamLineCounts.filter { $0.value[line] == maxCount }`: an absent entry is nil and never equals the maximum. */
  ghost function TopTeams(counts: LineCounts, line: MetroLine): set<string>
  {
    set t | t in counts && line in counts[t] && counts[t][line] == MaxCount(counts, line)
  }

  /** `t` is the one team whose entry on `line` equals the maximum. */
  ghost predicate SoleTop(counts: LineCounts, line: MetroLine, t: string)
  {
    && t in counts && line in counts[t] && counts[t][line] == MaxCount(counts, line)
    && forall u :: u in counts && u != t && line in counts[u] ==> counts[u][line] != MaxCount(counts, line)
  }

  lemma SingletonTop(counts: LineCounts, line: MetroLine, t: string)
    requires t in TopTeams(counts, line)
    ensures |TopTeams(counts, line)| == 1 <==> SoleTop(counts, line, t)
  {
    var top := TopTeams(counts, line);
    if |top| == 1 {
      assert |top - {t}| == 0;
      assert top == {t};
      forall u | u in counts && u != t && line in counts[u]
        ensures counts[u][line] != MaxCount(counts, line)
      {
        assert u !in top;
      }
    }
    if SoleTop(counts, line, t) {
      forall u | u in top
        ensures u == t
      {
        assert u in counts && line in counts[u] && counts[u][line] == MaxCount(counts, line);
      }
      assert top == {t};
    }
  }

  /**
   * `controllingTeamForStation`: only the station's first line is looked at;
   * the name of the team is returned when it is the only one holding the
   * maximum count there (and has a stored name), otherwise nil.
   */
  ghost function ControllingTeamForStation(station: Station, counts: LineCounts, names: map<string, string>): (r: Option<string>)
    ensures station.lines == [] ==> r == None
    ensures r.Some? ==> exists t :: SoleTop(counts, station.lines[0], t) && t in names && names[t] == r.value
  {
    if station.lines == [] then None
    else
      var line := station.lines[0];
      var top := TopTeams(counts, line);
      if |top| == 1 then
        var t :| t in top;
        SingletonTop(counts, line, t);
        Lookup(names, t)
      else None
  }

  /** The sole top team of the station's first line controls it, when it has a stored name. */
  lemma SoleTopControls(station: Station, counts: LineCounts, names: map<string, string>, t: string)
    requires station.lines != [] && SoleTop(counts, station.lines[0], t) && t in names
    ensures ControllingTeamForStation(station, counts, names) == Some(names[t])
  {
    var line := station.lines[0];
    SingletonTop(counts, line, t);
    assert TopTeams(counts, line) == {t};
  }

  /** Counts as the aggregation produces them: every entry is at least 1. */
  ghost predicate PositiveEntries(counts: LineCounts)
  {
    forall t, l :: t in counts && l in counts[t] ==> counts[t][l] >= 1
  }

  /** With aggregated counts, the sole top team holds a positive count strictly above every other team's. */
  lemma SoleTopStrictlyAhead(counts: LineCounts, line: MetroLine, t: string)
    requires PositiveEntries(counts)
    requires SoleTop(counts, line, t)
    ensures CountOr0(counts[t], line) >= 1
    ensures forall u :: u in counts && u != t ==> CountOr0(counts[u], line) < CountOr0(counts[t], line)
  {
  }

  /** Two teams tied at the maximum leave the station without a controller. */
  lemma TieMeansNoController(station: Station, counts: LineCounts, names: map<string, string>, u: string, v: string)
    requires station.lines != [] && u != v
    requires u in TopTeams(counts, station.lines[0]) && v in TopTeams(counts, station.lines[0])
    ensures ControllingTeamForStation(station, counts, names) == None
  {
  }

  /** When no team has an entry on the station's first line, there is no controller. */
  lemma NoCountsMeansNoController(station: Station, counts: LineCounts, names: map<string, string>)
    requires station.lines != []
    requires forall t :: t in counts ==> station.lines[0] !in counts[t]
    ensures ControllingTeamForStation(station, counts, names) == None
  {
  }

  /** Only the first line matters: counts on the station's other lines do not change the answer. */
  lemma FirstLineOnly(station: Station, other: Station, counts: LineCounts, names: map<string, string>)
    requires station.lines != [] && other.lines != [] && station.lines[0] == other.lines[0]
    ensures ControllingTeamForStation(station, counts, names) == ControllingTeamForStation(other, counts, names)
  {
  }
}
