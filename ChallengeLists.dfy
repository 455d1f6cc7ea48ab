/**
 * The challenge lists the game screen derives from its local arrays
 * (active, unlocked by other teams, completed by others), the lookup of the
 * team that completed a challenge, and removal by id.
 */
module ChallengeLists {
  import opened Wrappers
  import opened ChallengeData

  /** `s.filter(keep)`: the elements satisfying `keep`, in order. */
  function Filter<T(!new)>(s: seq<T>, keep: T -> bool): (r: seq<T>)
    ensures forall x :: x in r <==> x in s && keep(x)
    ensures |r| <= |s|
  {
    if s == [] then []
    else (if keep(s[0]) then [s[0]] else []) + Filter(s[1..], keep)
  }

  /** Filtering distributes over concatenation, so it keeps the relative order of what it keeps. */
  lemma {:induction false} FilterAppend<T(!new)>(s: seq<T>, t: seq<T>, keep: T -> bool)
    ensures Filter(s + t, keep) == Filter(s, keep) + Filter(t, keep)
  {
    if s == [] {
      assert s + t == t;
    } else {
      assert (s + t)[1..] == s[1..] + t;
      FilterAppend(s[1..], t, keep);
    }
  }

  /** The test the screen uses to match challenges: same title and same station. */
  predicate SameContent(a: GameChallenge, b: GameChallenge)
  {
    a.title == b.title && a.station == b.station
  }

  /** `list.contains { $0.title == c.title && $0.station == c.station }`. */
  predicate HasContent(list: seq<GameChallenge>, c: GameChallenge)
  {
    exists g :: g in list && SameContent(g, c)
  }

  /** The active list: unlocked challenges whose (title, station) no team has completed. */
  function ActiveChallenges(unlocked: seq<GameChallenge>, global: seq<GameChallenge>): (r: seq<GameChallenge>)
    ensures forall c :: c in r <==> c in unlocked && !HasContent(global, c)
    ensures |r| <= |unlocked|
  {
    Filter(unlocked, (c: GameChallenge) => !HasContent(global, c))
  }

  /** `otherTeamsUnlocked.flatMap { (teamID, list) in list.map { (teamID, $0) } }`, entries in iteration order. */
  function FlatPairs(entries: seq<(string, seq<GameChallenge>)>): (r: seq<(string, GameChallenge)>)
    ensures forall t, c :: (t, c) in r <==> exists i :: 0 <= i < |entries| && entries[i].0 == t && c in entries[i].1
  {
    if entries == [] then []
    else
      var rest := FlatPairs(entries[1..]);
      var here := seq(|entries[0].1|, k requires 0 <= k < |entries[0].1| => (entries[0].0, entries[0].1[k]));
      assert forall t, c :: (t, c) in here <==> t == entries[0].0 && c in entries[0].1 by {
        forall t, c | t == entries[0].0 && c in entries[0].1
          ensures (t, c) in here
        {
          var k :| 0 <= k < |entries[0].1| && entries[0].1[k] == c;
          assert here[k] == (t, c);
        }
      }
      var tail := entries[1..];
      assert forall i :: 0 <= i < |tail| ==> tail[i] == entries[i + 1];
      here + rest
  }

  /**
   * The other-teams list: every (team, challenge) pair of the other teams'
   * unlocked lists whose (title, station) is neither among this team's
   * unlocked challenges nor among the global completions.
   */
  function OtherTeamsChallenges(entries: seq<(string, seq<GameChallenge>)>, unlocked: seq<GameChallenge>,
                                global: seq<GameChallenge>): (r: seq<(string, GameChallenge)>)
    ensures forall t, c :: (t, c) in r <==>
      (exists i :: 0 <= i < |entries| && entries[i].0 == t && c in entries[i].1)
      && !HasContent(unlocked, c) && !HasContent(global, c)
  {
    Filter(FlatPairs(entries), (p: (string, GameChallenge)) => !HasContent(unlocked, p.1) && !HasContent(global, p.1))
  }

  /**
   * The completed-by-others list as written: `globallyCompleted.filter { !completedChallenges.contains($0) }`,
   * where `contains` is synthesised equality, id included.
   */
  function CompletedByOthers(global: seq<GameChallenge>, completed: seq<GameChallenge>): (r: seq<GameChallenge>)
    ensures forall c :: c in r <==> c in global && c !in completed
  {
    Filter(global, (c: GameChallenge) => c !in completed)
  }

  /**
   * The two lists are rebuilt by separate listeners, each generating new ids;
   * when no id is shared, the as-written filter removes nothing, so the team's
   * own completions are listed as completed by others.
   */
  lemma {:induction false} CompletedByOthersKeepsAll(global: seq<GameChallenge>, completed: seq<GameChallenge>)
    requires forall g, c :: g in global && c in completed ==> g.id != c.id
    ensures CompletedByOthers(global, completed) == global
  {
    if global != [] {
      assert global[0] in global;
      assert global[0] !in completed;
      CompletedByOthersKeepsAll(global[1..], completed);
      assert global == [global[0]] + global[1..];
    }
  }

  /** The intended list: global completions whose (title, station) this team has not completed. */
  function CompletedByOthersByContent(global: seq<GameChallenge>, completed: seq<GameChallenge>): (r: seq<GameChallenge>)
    ensures forall c :: c in r <==> c in global && !HasContent(completed, c)
    ensures forall c, d :: c in r && d in completed ==> !SameContent(c, d)
  {
    Filter(global, (c: GameChallenge) => !HasContent(completed, c))
  }

  /** A team's own completion, read back by both listeners, is still listed by the as-written filter and not by the intended one. */
  lemma OwnCompletionListed(d: ChallengeDoc)
    ensures CompletedByOthers([FromDoc(d, 1)], [FromDoc(d, 2)]) == [FromDoc(d, 1)]
    ensures CompletedByOthersByContent([FromDoc(d, 1)], [FromDoc(d, 2)]) == []
  {
    CompletedByOthersKeepsAll([FromDoc(d, 1)], [FromDoc(d, 2)]);
    assert SameContent(FromDoc(d, 2), FromDoc(d, 1));
  }

  /** `unlockedChallenges.removeAll { $0.id == id }`. */
  function RemoveById(s: seq<GameChallenge>, id: nat): (r: seq<GameChallenge>)
    ensures forall c :: c in r <==> c in s && c.id != id
    ensures |r| <= |s|
  {
    Filter(s, (c: GameChallenge) => c.id != id)
  }

  /** Removing an id that is not present leaves the list as it is. */
  lemma {:induction false} RemoveAbsentId(s: seq<GameChallenge>, id: nat)
    requires forall c :: c in s ==> c.id != id
    ensures RemoveById(s, id) == s
  {
    if s != [] {
      RemoveAbsentId(s[1..], id);
      assert s == [s[0]] + s[1..];
    }
  }

  /** Removing by id twice is the same as removing once. */
  lemma RemoveByIdIdempotent(s: seq<GameChallenge>, id: nat)
    ensures RemoveById(RemoveById(s, id), id) == RemoveById(s, id)
  {
    RemoveAbsentId(RemoveById(s, id), id);
  }

  /**
   * `teamThatCompleted`: the first team, in the dictionary's iteration order,
   * whose completions contain a challenge with the same title and station.
   */
  method TeamThatCompleted(entries: seq<(string, seq<GameChallenge>)>, c: GameChallenge) returns (r: Option<string>)
    ensures r.None? <==> forall i :: 0 <= i < |entries| ==> !HasContent(entries[i].1, c)
    ensures r.Some? ==> exists i :: 0 <= i < |entries| && entries[i].0 == r.value && HasContent(entries[i].1, c)
                                    && forall j :: 0 <= j < i ==> !HasContent(entries[j].1, c)
  {
    var i := 0;
    while i < |entries|
      invariant 0 <= i <= |entries|
      invariant forall j :: 0 <= j < i ==> !HasContent(entries[j].1, c)
    {
      var k := 0;
      var list := entries[i].1;
      while k < |list|
        invariant 0 <= k <= |list|
        invariant forall m :: 0 <= m < k ==> !SameContent(list[m], c)
      {
        if list[k].title == c.title && list[k].station == c.station {
          assert list[k] in entries[i].1 && SameContent(list[k], c);
          return Some(entries[i].0);
        }
        k := k + 1;
      }
      i := i + 1;
    }
    return None;
  }
}
