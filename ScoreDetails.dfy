/**
 * The line-control details sheet: per line, the largest count, the
 * controllers (every team holding that largest count, ties included) and one
 * row per team in ascending team-ID order.
 */
module ScoreDetails {
  import opened Wrappers
  import opened Stations
  import opened Territory

  /** Code-point lexicographic order on team IDs: a proper prefix comes first. */
  predicate LexLess(a: string, b: string)
  {
    |b| > 0 && (|a| == 0 || a[0] < b[0] || (a[0] == b[0] && LexLess(a[1..], b[1..])))
  }

  lemma {:induction false} LexLessIrreflexive(a: string)
    ensures !LexLess(a, a)
  {
    if |a| > 0 {
      LexLessIrreflexive(a[1..]);
    }
  }

  /** `keys.sorted()`: every key exactly once, in strictly ascending order. */
  ghost predicate SortedKeys(counts: LineCounts, teams: seq<string>)
  {
    && (forall t :: t in teams <==> t in counts)
    && (forall i, j :: 0 <= i < j < |teams| ==> LexLess(teams[i], teams[j]))
  }

  /** A sorted key list names no team twice. */
  lemma SortedKeysDistinct(counts: LineCounts, teams: seq<string>, i: nat, j: nat)
    requires SortedKeys(counts, teams)
    requires i < j < |teams|
    ensures teams[i] != teams[j]
  {
    LexLessIrreflexive(teams[i]);
  }

  /** `values.map { $0[line] ?? 0 }.max() ?? 0`, taken along a list of teams. */
  function MaxAlong(counts: LineCounts, teams: seq<string>, line: MetroLine): (r: nat)
    requires forall i :: 0 <= i < |teams| ==> teams[i] in counts
    ensures forall i :: 0 <= i < |teams| ==> CountOr0(counts[teams[i]], line) <= r
    ensures teams != [] ==> exists i :: 0 <= i < |teams| && CountOr0(counts[teams[i]], line) == r
    ensures teams == [] ==> r == 0
  {
    if teams == [] then 0
    else
      var rest := MaxAlong(counts, teams[1..], line);
      var here := CountOr0(counts[teams[0]], line);
      assert forall i :: 1 <= i < |teams| ==> teams[i] == teams[1..][i - 1];
      if here > rest then here else rest
  }

  /** Along any list of all the keys, the maximum is the largest count over the whole table. */
  lemma MaxAlongIsMaxCount(counts: LineCounts, teams: seq<string>, line: MetroLine)
    requires forall t :: t in teams <==> t in counts
    ensures MaxAlong(counts, teams, line) == MaxCount(counts, line)
  {
    var m, mc := MaxAlong(counts, teams, line), MaxCount(counts, line);
    if teams != [] {
      assert teams[0] in counts;
      var t :| t in counts && CountOr0(counts[t], line) == mc;
      var i :| 0 <= i < |teams| && teams[i] == t;
      assert mc <= m;
      var j :| 0 <= j < |teams| && CountOr0(counts[teams[j]], line) == m;
      assert teams[j] in counts;
      assert m <= mc;
    }
  }

  /** `controllers`: every team whose count equals `maxCount`, and only when `maxCount` > 0. */
  ghost function Controllers(counts: LineCounts, line: MetroLine): set<string>
  {
    set t | t in counts && CountOr0(counts[t], line) == MaxCount(counts, line) && MaxCount(counts, line) > 0
  }

  /** Every controller's count is at least every team's count on that line. */
  lemma ControllersLead(counts: LineCounts, line: MetroLine, c: string, u: string)
    requires c in Controllers(counts, line) && u in counts
    ensures CountOr0(counts[u], line) <= CountOr0(counts[c], line)
    ensures CountOr0(counts[c], line) > 0
  {
  }

  /** A line has a controller exactly when some team has a positive count on it. */
  lemma ControllersExist(counts: LineCounts, line: MetroLine)
    ensures Controllers(counts, line) != {} <==> exists t :: t in counts && CountOr0(counts[t], line) > 0
  {
    var mc := MaxCount(counts, line);
    if exists t :: t in counts && CountOr0(counts[t], line) > 0 {
      var t :| t in counts && CountOr0(counts[t], line) > 0;
      var top :| top in counts && CountOr0(counts[top], line) == mc;
      assert top in Controllers(counts, line);
    }
  }

  /** Two teams tied at a positive maximum are both controllers. */
  lemma TieGivesSeveralControllers(counts: LineCounts, line: MetroLine, u: string, v: string)
    requires u in counts && v in counts && u != v
    requires CountOr0(counts[u], line) == CountOr0(counts[v], line) == MaxCount(counts, line) > 0
    ensures {u, v} <= Controllers(counts, line)
    ensures |Controllers(counts, line)| >= 2
  {
    var cs := Controllers(counts, line);
    assert |cs - {u}| >= 1 by {
      assert v in cs - {u};
    }
  }

  /**
   * The two controller rules disagree on a tie: the game screen reports no
   * controller for a station on that line, the details sheet reports both teams.
   */
  lemma RulesDisagreeOnTie(station: Station, counts: LineCounts, names: map<string, string>, u: string, v: string)
    requires station.lines != [] && u in counts && v in counts && u != v
    requires station.lines[0] in counts[u] && station.lines[0] in counts[v]
    requires counts[u][station.lines[0]] == counts[v][station.lines[0]] == MaxCount(counts, station.lines[0]) > 0
    ensures ControllingTeamForStation(station, counts, names) == None
    ensures {u, v} <= Controllers(counts, station.lines[0])
  {
    var line := station.lines[0];
    TieMeansNoController(station, counts, names, u, v);
    TieGivesSeveralControllers(counts, line, u, v);
  }

  /** With aggregated counts, the game screen's sole controller is the details sheet's only controller. */
  lemma RulesAgreeOnSoleTop(counts: LineCounts, line: MetroLine, t: string)
    requires PositiveEntries(counts)
    requires SoleTop(counts, line, t)
    ensures Controllers(counts, line) == {t}
  {
    SoleTopStrictlyAhead(counts, line, t);
    forall u | u in Controllers(counts, line)
      ensures u == t
    {
    }
    assert t in Controllers(counts, line);
  }

  /** One team's row of a line section. */
  datatype TeamRow = TeamRow(teamID: string, displayName: string, count: nat, isController: bool)

  /** A line's section: "Uncontrolled" with no rows, or one row per team. */
  datatype LineSection = LineSection(line: MetroLine, uncontrolled: bool, rows: seq<TeamRow>)

  /** `teamNames[teamID] ?? teamID`. */
  function Label(names: map<string, string>, teamID: string): string
  {
    if teamID in names then names[teamID] else teamID
  }

  function Rows(counts: LineCounts, names: map<string, string>, teams: seq<string>, line: MetroLine, maxCount: nat): (r: seq<TeamRow>)
    requires forall i :: 0 <= i < |teams| ==> teams[i] in counts
    ensures |r| == |teams|
    ensures forall i :: 0 <= i < |r| ==>
      && r[i].teamID == teams[i]
      && r[i].displayName == Label(names, teams[i])
      && r[i].count == CountOr0(counts[teams[i]], line)
      && (r[i].isController <==> r[i].count == maxCount && maxCount > 0)
  {
    seq(|teams|, i requires 0 <= i < |teams| =>
      var count := CountOr0(counts[teams[i]], line);
      TeamRow(teams[i], Label(names, teams[i]), count, count == maxCount && maxCount > 0))
  }

  /** A team leads a line: its count there is positive and at least every team's count. */
  predicate Leads(counts: LineCounts, line: MetroLine, t: string)
    requires t in counts
  {
    CountOr0(counts[t], line) > 0 && forall u :: u in counts ==> CountOr0(counts[u], line) <= CountOr0(counts[t], line)
  }

  /** The section of one line, teams in the order of the sorted key list. */
  function LineSectionOf(counts: LineCounts, names: map<string, string>, sortedTeams: seq<string>, line: MetroLine): (r: LineSection)
    requires SortedKeys(counts, sortedTeams)
    ensures r.line == line
    ensures r.uncontrolled <==> forall t :: t in counts ==> CountOr0(counts[t], line) == 0
    ensures r.uncontrolled ==> r.rows == []
    ensures !r.uncontrolled ==> |r.rows| == |sortedTeams| && forall i :: 0 <= i < |r.rows| ==>
      && r.rows[i].teamID == sortedTeams[i]
      && r.rows[i].displayName == Label(names, sortedTeams[i])
      && r.rows[i].count == CountOr0(counts[sortedTeams[i]], line)
      && (r.rows[i].isController <==> Leads(counts, line, sortedTeams[i]))
  {
    var maxCount := MaxAlong(counts, sortedTeams, line);
    if maxCount == 0 then
      LineSection(line, true, [])
    else
      MaxAlongLeads(counts, sortedTeams, line);
      LineSection(line, false, Rows(counts, names, sortedTeams, line, maxCount))
  }

  /** Along a list of all the keys, holding a positive maximum is leading. */
  lemma MaxAlongLeads(counts: LineCounts, teams: seq<string>, line: MetroLine)
    requires forall t :: t in teams <==> t in counts
    ensures MaxAlong(counts, teams, line) > 0 ==> exists t :: t in counts && CountOr0(counts[t], line) > 0
    ensures forall i :: 0 <= i < |teams| ==>
      (CountOr0(counts[teams[i]], line) == MaxAlong(counts, teams, line) && MaxAlong(counts, teams, line) > 0 <==>
       Leads(counts, line, teams[i]))
  {
    var m := MaxAlong(counts, teams, line);
    if teams != [] {
      var k :| 0 <= k < |teams| && CountOr0(counts[teams[k]], line) == m;
      assert teams[k] in counts;
      forall u | u in counts
        ensures CountOr0(counts[u], line) <= m
      {
        var j :| 0 <= j < |teams| && teams[j] == u;
      }
    }
  }

  /** The rows marked as controllers are exactly the teams of `controllers`. */
  lemma LeadsIffController(counts: LineCounts, line: MetroLine, t: string)
    requires t in counts
    ensures Leads(counts, line, t) <==> t in Controllers(counts, line)
  {
    var mc := MaxCount(counts, line);
    if Leads(counts, line, t) {
      var top :| top in counts && CountOr0(counts[top], line) == mc;
      assert CountOr0(counts[t], line) == mc;
    }
  }

  /** `ForEach(MetroLine.allCases)`: one section per line, in declaration order A, B, D, E. */
  function LineControlDetails(counts: LineCounts, names: map<string, string>, sortedTeams: seq<string>): (r: seq<LineSection>)
    requires SortedKeys(counts, sortedTeams)
    ensures |r| == 4
    ensures forall i :: 0 <= i < 4 ==> r[i].line == AllLines[i] && r[i] == LineSectionOf(counts, names, sortedTeams, AllLines[i])
  {
    seq(4, i requires 0 <= i < 4 => LineSectionOf(counts, names, sortedTeams, AllLines[i]))
  }

  /** A controlled section lists every team once, in ascending team-ID order. */
  lemma SectionRowsSorted(counts: LineCounts, names: map<string, string>, sortedTeams: seq<string>, line: MetroLine,
                          i: nat, j: nat)
    requires SortedKeys(counts, sortedTeams)
    requires !LineSectionOf(counts, names, sortedTeams, line).uncontrolled
    requires i < j < |LineSectionOf(counts, names, sortedTeams, line).rows|
    ensures var rows := LineSectionOf(counts, names, sortedTeams, line).rows;
      LexLess(rows[i].teamID, rows[j].teamID) && rows[i].teamID != rows[j].teamID
  {
    SortedKeysDistinct(counts, sortedTeams, i, j);
  }
}
