/**
 * The end-of-game summary: display names, challenge counts and line counts
 * gathered over the team documents, and the winner chosen by the number of
 * lines on which a team has completed anything.
 */
module EndGame {
  import opened Wrappers
  import opened Stations
  import opened ChallengeData
  import opened Territory

  /** A team document: its document ID and the stored `teamName`, when there is one. */
  datatype TeamDoc = TeamDoc(id: string, teamName: Option<string>)

  /** The document IDs, in snapshot order. */
  function Ids(teamDocs: seq<TeamDoc>): (r: seq<string>)
    ensures |r| == |teamDocs|
    ensures forall i :: 0 <= i < |r| ==> r[i] == teamDocs[i].id
  {
    seq(|teamDocs|, i requires 0 <= i < |teamDocs| => teamDocs[i].id)
  }

  /** `teamName ?? teamID`. */
  function DisplayName(d: TeamDoc): string
  {
    d.teamName.GetOr(d.id)
  }

  /** `lines.values.filter { $0 > 0 }.count`: the number of lines with a positive count. */
  function Score(lines: map<MetroLine, nat>): nat
  {
    |set l | l in lines && lines[l] > 0|
  }

  /** A line map with some positive count scores between 1 and 4, the number of lines. */
  lemma ScoreRange(lines: map<MetroLine, nat>, l: MetroLine)
    requires l in lines && lines[l] > 0
    ensures 1 <= Score(lines) <= 4
  {
    var positive := set x | x in lines && lines[x] > 0;
    assert l in positive;
    assert positive <= {A, B, D, E} by {
      forall x | x in positive
        ensures x in {A, B, D, E}
      {
        AllLinesClosed(x);
      }
    }
    SubsetCard(positive, {A, B, D, E});
  }

  /** Every team with a line-count entry scores between 1 and 4. */
  lemma ScoreBounds(teams: seq<string>, completed: map<string, seq<ChallengeDoc>>, t: string)
    requires t in LineCountsOf(teams, completed)
    ensures 1 <= Score(LineCountsOf(teams, completed)[t]) <= 4
  {
    LineCountsTeam(teams, completed, t);
    var l :| StationsOn(DocsOf(completed, t), l) != {};
    LineCountsLine(teams, completed, t, l);
    ScoreRange(LineCountsOf(teams, completed)[t], l);
  }

  lemma SubsetCard(a: set<MetroLine>, b: set<MetroLine>)
    requires a <= b
    ensures |a| <= |b|
  {
    assert b == a + (b - a);
  }

  /**
   * `determineWinner`: visits the teams in `order` (the dictionary's
   * iteration order) and keeps a team only when it scores strictly more
   * than every team before it.
   */
  method DetermineWinner(counts: LineCounts, order: seq<string>) returns (winner: Option<string>)
    requires forall i, j :: 0 <= i < j < |order| ==> order[i] != order[j]
    requires forall t :: t in order <==> t in counts
    ensures winner.None? <==> counts == map[]
    ensures winner.Some? ==> winner.value in counts
    ensures winner.Some? ==> forall t :: t in counts ==> Score(counts[t]) <= Score(counts[winner.value])
    ensures winner.Some? ==> exists k :: (0 <= k < |order| && order[k] == winner.value &&
      forall j :: 0 <= j < k ==> Score(counts[order[j]]) < Score(counts[winner.value]))
  {
    winner := None;
    var bestLineTotal: int := -1;
    ghost var bestIndex := 0;
    var i := 0;
    while i < |order|
      invariant 0 <= i <= |order|
      invariant winner.None? <==> i == 0
      invariant winner.None? ==> bestLineTotal == -1
      invariant winner.Some? ==> 0 <= bestIndex < i && order[bestIndex] == winner.value
      invariant winner.Some? ==> bestLineTotal == Score(counts[winner.value])
      invariant winner.Some? ==> forall j :: 0 <= j < bestIndex ==> Score(counts[order[j]]) < bestLineTotal
      invariant forall j :: 0 <= j < i ==> Score(counts[order[j]]) <= bestLineTotal
    {
      var teamID := order[i];
      var totalLinesControlled := Score(counts[teamID]);
      if totalLinesControlled > bestLineTotal {
        winner := Some(teamID);
        bestLineTotal := totalLinesControlled;
        bestIndex := i;
      }
      i := i + 1;
    }
    if order != [] {
      assert order[0] in counts;
    }
    if winner.Some? {
      forall t | t in counts
        ensures Score(counts[t]) <= Score(counts[winner.value])
      {
        var j :| 0 <= j < |order| && order[j] == t;
      }
    }
  }

  /** Some iteration order of a dictionary's keys: every key exactly once. */
  method KeysInSomeOrder(counts: LineCounts) returns (order: seq<string>)
    ensures forall i, j :: 0 <= i < j < |order| ==> order[i] != order[j]
    ensures forall t :: t in order <==> t in counts
  {
    order := [];
    var rest := counts.Keys;
    while rest != {}
      invariant rest <= counts.Keys
      invariant forall i, j :: 0 <= i < j < |order| ==> order[i] != order[j]
      invariant forall t :: t in order <==> t in counts && t !in rest
      decreases rest
    {
      var t :| t in rest;
      order := order + [t];
      rest := rest - {t};
    }
  }

  /**
   * `fetchGameSummary`: one pass over the team documents records each
   * team's display name and challenge count and collects its station sets;
   * the sets are then turned into counts and the winner is chosen.
   */
  method FetchGameSummary(teamDocs: seq<TeamDoc>, completed: map<string, seq<ChallengeDoc>>)
    returns (names: map<string, string>, challengeCounts: map<string, nat>, lineCounts: LineCounts, winner: Option<string>)
    requires forall i, j :: 0 <= i < j < |teamDocs| ==> teamDocs[i].id != teamDocs[j].id
    ensures forall t :: t in names <==> t in Ids(teamDocs)
    ensures forall i :: 0 <= i < |teamDocs| ==> names[teamDocs[i].id] == DisplayName(teamDocs[i])
    ensures forall t :: t in challengeCounts <==> t in Ids(teamDocs)
    ensures forall t :: t in challengeCounts ==> challengeCounts[t] == |DocsOf(completed, t)|
    ensures lineCounts == LineCountsOf(Ids(teamDocs), completed)
    ensures winner.None? <==> lineCounts == map[]
    ensures winner.Some? ==> winner.value in lineCounts
    ensures winner.Some? ==> forall t :: t in lineCounts ==> Score(lineCounts[t]) <= Score(lineCounts[winner.value])
  {
    var ids := Ids(teamDocs);
    names := map[];
    challengeCounts := map[];
    var sets: StationSets := map[];
    var i := 0;
    while i < |teamDocs|
      invariant 0 <= i <= |teamDocs|
      invariant forall t :: t in names <==> t in ids[..i]
      invariant forall j :: 0 <= j < i ==> names[teamDocs[j].id] == DisplayName(teamDocs[j])
      invariant forall t :: t in challengeCounts <==> t in ids[..i]
      invariant forall t :: t in challengeCounts ==> challengeCounts[t] == |DocsOf(completed, t)|
      invariant sets == SetsOf(ids[..i], completed)
    {
      var teamID := teamDocs[i].id;
      assert teamID !in ids[..i];
      assert teamID !in sets;
      names := names[teamID := DisplayName(teamDocs[i])];
      challengeCounts := challengeCounts[teamID := |DocsOf(completed, teamID)|];
      sets := AddTeamStations(sets, teamID, DocsOf(completed, teamID));
      SetsOfStep(ids[..i], teamID, completed, sets);
      assert ids[..i + 1] == ids[..i] + [teamID];
      i := i + 1;
    }
    assert ids[..i] == ids;
    lineCounts := CountStations(sets);
    var order := KeysInSomeOrder(lineCounts);
    winner := DetermineWinner(lineCounts, order);
  }

  /** Nobody wins exactly when no team completed anything on a line that parses. */
  lemma NoWinnerIffNoLine(teamDocs: seq<TeamDoc>, completed: map<string, seq<ChallengeDoc>>)
    ensures LineCountsOf(Ids(teamDocs), completed) == map[] <==>
      forall i :: 0 <= i < |teamDocs| ==> !HasLine(DocsOf(completed, teamDocs[i].id))
  {
    var ids := Ids(teamDocs);
    var counts := LineCountsOf(ids, completed);
    if counts != map[] {
      var t :| t in counts;
      LineCountsTeam(ids, completed, t);
      var i :| 0 <= i < |ids| && ids[i] == t;
      assert HasLine(DocsOf(completed, teamDocs[i].id));
    }
    if exists i :: 0 <= i < |teamDocs| && HasLine(DocsOf(completed, teamDocs[i].id)) {
      var i :| 0 <= i < |teamDocs| && HasLine(DocsOf(completed, teamDocs[i].id));
      LineCountsTeam(ids, completed, ids[i]);
      assert ids[i] in counts;
    }
  }
}
