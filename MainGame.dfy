/**
 * The game screen of one team: the challenge lifecycle (unlock, save,
 * complete) over an in-memory copy of the game's store, the lists the
 * screen shows as its listeners rebuild them, listener registration, the
 * line-count refresh and the countdown.
 */
module MainGame {
  import opened Wrappers
  import opened Stations
  import opened ChallengeData
  import opened Keys
  import opened ChallengeLists
  import opened SessionTimer
  import opened Territory
  import opened EndGame

  /** The challenges a listener rebuilds from a snapshot, with ids `firstId`, `firstId + 1`, ... */
  function Rebuild(docs: seq<ChallengeDoc>, firstId: nat): (r: seq<GameChallenge>)
    ensures |r| == |docs|
    ensures forall i :: 0 <= i < |r| ==> ToDoc(r[i]) == ToDocOf(docs[i]) && r[i].id == firstId + i
  {
    seq(|docs|, i requires 0 <= i < |docs| => FromDoc(docs[i], firstId + i))
  }

  /** The document a rebuilt challenge writes back: its line field is cleared when it did not parse. */
  function ToDocOf(d: ChallengeDoc): ChallengeDoc
  {
    ChallengeDoc(d.title, d.description, d.station, if ParseLine(d.line).Some? then d.line else "")
  }

  /** Every document of a snapshot yields a challenge with the same title and station. */
  lemma RebuildKeepsContent(docs: seq<ChallengeDoc>, firstId: nat, i: nat)
    requires i < |docs|
    ensures var c := Rebuild(docs, firstId)[i];
      c.title == docs[i].title && c.station == docs[i].station && c.description == docs[i].description
      && c.line == ParseLine(docs[i].line)
  {
  }

  /** Two snapshots rebuilt one after the other share no id. */
  lemma SnapshotsShareNoId(docs1: seq<ChallengeDoc>, docs2: seq<ChallengeDoc>, firstId: nat)
    ensures forall g, c :: g in Rebuild(docs2, firstId + |docs1|) && c in Rebuild(docs1, firstId) ==> g.id != c.id
  {
    var r1, r2 := Rebuild(docs1, firstId), Rebuild(docs2, firstId + |docs1|);
    forall g, c | g in r2 && c in r1
      ensures g.id != c.id
    {
      var i :| 0 <= i < |r2| && r2[i] == g;
      var j :| 0 <= j < |r1| && r1[j] == c;
    }
  }

  /** Two snapshots of the same documents, rebuilt one after the other, as the completed and global lists. */
  lemma ReadBackListsOwn(docs: seq<ChallengeDoc>, firstId: nat)
    ensures var completed, global := Rebuild(docs, firstId), Rebuild(docs, firstId + |docs|);
      CompletedByOthers(global, completed) == global && CompletedByOthersByContent(global, completed) == []
  {
    var completed, global := Rebuild(docs, firstId), Rebuild(docs, firstId + |docs|);
    SnapshotsShareNoId(docs, docs, firstId);
    CompletedByOthersKeepsAll(global, completed);
    forall c | c in global
      ensures HasContent(completed, c)
    {
      var i :| 0 <= i < |global| && global[i] == c;
      assert completed[i] in completed && SameContent(completed[i], c);
    }
    ContentFilterEmpty(global, completed);
  }

  /** A content filter against a list that holds every element's content removes everything. */
  lemma {:induction false} ContentFilterEmpty(global: seq<GameChallenge>, completed: seq<GameChallenge>)
    requires forall c :: c in global ==> HasContent(completed, c)
    ensures CompletedByOthersByContent(global, completed) == []
  {
    if global != [] {
      assert global[0] in global;
      ContentFilterEmpty(global[1..], completed);
    }
  }

  /** A station's binding is readable: present, with a line that parses. */
  predicate Readable(bindings: map<string, ChallengeDoc>, key: string)
  {
    key in bindings && ParseLine(bindings[key].line).Some?
  }

  /** The binding a first unlock writes: the template's title and description, the station's name, the requested line. */
  function Bound(c: GameChallenge, station: Station, line: MetroLine): ChallengeDoc
  {
    ChallengeDoc(c.title, c.description, station.name, RawValue(line))
  }

  /** The unlocked collections after team `t` saves `d` under its document ID. */
  function Saved(unlocked: map<string, map<string, ChallengeDoc>>, t: string, d: ChallengeDoc): map<string, map<string, ChallengeDoc>>
  {
    unlocked[t := (if t in unlocked then unlocked[t] else map[])[DocID(d.station, d.title) := d]]
  }

  /** Every binding sits under the safe ID of its own station and has a line that parses. */
  predicate BindingsKeyed(bindings: map<string, ChallengeDoc>)
  {
    forall k :: k in bindings ==> k == SafeStationID(bindings[k].station) && ParseLine(bindings[k].line).Some?
  }

  /** Every unlocked entry sits under the document ID of its own station and title. */
  predicate UnlockedKeyed(unlocked: map<string, map<string, ChallengeDoc>>)
  {
    forall t, k :: t in unlocked && k in unlocked[t] ==> k == DocID(unlocked[t][k].station, unlocked[t][k].title)
  }

  /** Every completion of a team is also in the game-wide list. */
  predicate CompletionsRecorded(teamCompleted: map<string, seq<ChallengeDoc>>, globalCompleted: seq<ChallengeDoc>)
  {
    forall t, d :: t in teamCompleted && d in teamCompleted[t] ==> d in globalCompleted
  }

  /** Every challenge of `s` carries an id handed out before `next`. */
  predicate IdsBelow(s: seq<GameChallenge>, next: nat)
  {
    forall i :: 0 <= i < |s| ==> s[i].id < next
  }

  /** Every challenge of the screen's lists and team lists carries an id below `next`. */
  predicate HeldBelow(unlocked: seq<GameChallenge>, completed: seq<GameChallenge>, global: seq<GameChallenge>,
                      others: map<string, seq<GameChallenge>>, all: map<string, seq<GameChallenge>>, next: nat)
  {
    && IdsBelow(unlocked, next)
    && IdsBelow(completed, next)
    && IdsBelow(global, next)
    && (forall t :: t in others ==> IdsBelow(others[t], next))
    && (forall t :: t in all ==> IdsBelow(all[t], next))
  }

  /** Handing out more ids keeps every held id below the counter. */
  lemma HeldBelowGrow(unlocked: seq<GameChallenge>, completed: seq<GameChallenge>, global: seq<GameChallenge>,
                      others: map<string, seq<GameChallenge>>, all: map<string, seq<GameChallenge>>, next: nat, later: nat)
    requires HeldBelow(unlocked, completed, global, others, all, next)
    requires next <= later
    ensures HeldBelow(unlocked, completed, global, others, all, later)
  {
  }

  /** Completing a held challenge keeps every held id below the counter. */
  lemma CompleteKeepsHeldBelow(unlocked: seq<GameChallenge>, completed: seq<GameChallenge>, global: seq<GameChallenge>,
                               others: map<string, seq<GameChallenge>>, all: map<string, seq<GameChallenge>>, next: nat,
                               ch: GameChallenge)
    requires HeldBelow(unlocked, completed, global, others, all, next)
    requires ch.id < next
    ensures HeldBelow(RemoveById(unlocked, ch.id), completed + [ch], global, others, all, next)
  {
    var r := RemoveById(unlocked, ch.id);
    forall i | 0 <= i < |r|
      ensures r[i].id < next
    {
      assert r[i] in unlocked;
      var j :| 0 <= j < |unlocked| && unlocked[j] == r[i];
    }
  }

  /** No team ID was attached twice, and the attached set is what was attached. */
  ghost predicate AttachLogged(log: seq<string>, attached: set<string>)
  {
    && (forall i, j :: 0 <= i < j < |log| ==> log[i] != log[j])
    && (forall t :: t in log <==> t in attached)
  }

  /** A first unlock's binding keeps the bindings keyed. */
  lemma BindKeepsKeyed(bindings: map<string, ChallengeDoc>, c: GameChallenge, station: Station, line: MetroLine)
    requires BindingsKeyed(bindings)
    ensures BindingsKeyed(bindings[SafeStationID(station.name) := Bound(c, station, line)])
    ensures Readable(bindings[SafeStationID(station.name) := Bound(c, station, line)], SafeStationID(station.name))
  {
    ParseRawValue(line);
  }

  /** Saving keeps the unlocked entries keyed, and the saved document is found under its ID. */
  lemma SaveKeepsKeyed(unlocked: map<string, map<string, ChallengeDoc>>, t: string, d: ChallengeDoc)
    requires UnlockedKeyed(unlocked)
    ensures UnlockedKeyed(Saved(unlocked, t, d))
    ensures DocID(d.station, d.title) in Saved(unlocked, t, d)[t] && Saved(unlocked, t, d)[t][DocID(d.station, d.title)] == d
  {
  }

  /** Saving the same document twice is saving it once. */
  lemma SaveIdempotent(unlocked: map<string, map<string, ChallengeDoc>>, t: string, d: ChallengeDoc)
    ensures Saved(Saved(unlocked, t, d), t, d) == Saved(unlocked, t, d)
  {
    var once := Saved(unlocked, t, d);
    assert once[t][DocID(d.station, d.title) := d] == once[t];
  }

  /** Recording a completion for a team and game-wide keeps every team completion recorded. */
  lemma RecordKeepsRecorded(teamCompleted: map<string, seq<ChallengeDoc>>, globalCompleted: seq<ChallengeDoc>, t: string, d: ChallengeDoc)
    requires CompletionsRecorded(teamCompleted, globalCompleted)
    ensures CompletionsRecorded(teamCompleted[t := DocsOf(teamCompleted, t) + [d]], globalCompleted + [d])
  {
  }

  /** A completed challenge with a line is counted for its team, on that line, at its station. */
  lemma OwnCompletionCounted(teams: seq<string>, completed: map<string, seq<ChallengeDoc>>, t: string, ch: GameChallenge)
    requires t in teams && ch.line.Some? && t in completed && |completed[t]| > 0
    requires completed[t][|completed[t]| - 1] == ToDoc(ch)
    ensures t in LineCountsOf(teams, completed) && ch.line.value in LineCountsOf(teams, completed)[t]
    ensures ch.station in StationsOn(DocsOf(completed, t), ch.line.value)
  {
    var docs := completed[t];
    assert ToDoc(ch) in docs;
    ParseRawValue(ch.line.value);
    CompletionCounted(teams, completed, t, ToDoc(ch), ch.line.value);
  }

  /** The team document IDs other than `teamID`, in snapshot order. */
  function OtherTeamIDs(docIDs: seq<string>, teamID: string): (r: seq<string>)
    ensures forall id :: id in r <==> id in docIDs && id != teamID
    ensures |r| <= |docIDs|
  {
    Filter(docIDs, (id: string) => id != teamID)
  }

  /**
   * Challenges rebuilt with ids from `next` on share no id with challenges
   * built before, so the id-comparing filter keeps them all.
   */
  lemma FreshIdsShareNone(rebuilt: seq<GameChallenge>, held: seq<GameChallenge>, next: nat)
    requires forall i :: 0 <= i < |rebuilt| ==> rebuilt[i].id >= next
    requires IdsBelow(held, next)
    ensures CompletedByOthers(rebuilt, held) == rebuilt
  {
    forall g, c | g in rebuilt && c in held
      ensures g.id != c.id
    {
      var i :| 0 <= i < |rebuilt| && rebuilt[i] == g;
      var j :| 0 <= j < |held| && held[j] == c;
    }
    CompletedByOthersKeepsAll(rebuilt, held);
  }

  class GameScreen {
    /** The team this screen plays for. */
    const teamID: string

    /** `stationChallenges`: the game-wide binding of a station, keyed by its safe station ID. */
    var bindings: map<string, ChallengeDoc>
    /** `teams/{id}/unlockedChallenges`, keyed by document ID. */
    var teamUnlocked: map<string, map<string, ChallengeDoc>>
    /** `teams/{id}/completedChallenges`, in the order the documents were added. */
    var teamCompleted: map<string, seq<ChallengeDoc>>
    /** The game-wide `completedChallenges`, in the order the documents were added. */
    var globalCompleted: seq<ChallengeDoc>

    var unlockedChallenges: seq<GameChallenge>
    var completedChallenges: seq<GameChallenge>
    var globallyCompleted: seq<GameChallenge>
    var otherTeamsUnlocked: map<string, seq<GameChallenge>>
    var allTeamCompletions: map<string, seq<GameChallenge>>
    var otherTeamIDs: seq<string>
    var attachedListeners: set<string>
    /** The team IDs a listener was attached for, in the order of attachment. */
    ghost var attachLog: seq<string>
    var teamLineCounts: LineCounts
    var teamNames: map<string, string>
    var timeRemaining: int
    var timerEnded: bool
    /** The source of fresh challenge ids (`UUID()`): every id handed out so far is below it. */
    var nextId: nat

    /**
     * The store's keys match its documents (a binding sits under the safe ID
     * of its own station and its line parses; an unlocked entry sits under
     * the document ID of its own station and title), every completion of a
     * team is also recorded game-wide, and each team ID had a listener
     * attached at most once.
     */
    ghost predicate Valid()
      reads this`bindings, this`teamUnlocked, this`teamCompleted, this`globalCompleted, this`attachLog, this`attachedListeners
    {
      && BindingsKeyed(bindings)
      && UnlockedKeyed(teamUnlocked)
      && CompletionsRecorded(teamCompleted, globalCompleted)
      && AttachLogged(attachLog, attachedListeners)
    }

    /**
     * The screen's second invariant, kept by every method that changes its
     * lists or `nextId`: every challenge it holds was built with an id below
     * `nextId`, so a value built later is never equal to one held now.
     */
    ghost predicate IdsIssued()
      reads this`unlockedChallenges, this`completedChallenges, this`globallyCompleted
      reads this`otherTeamsUnlocked, this`allTeamCompletions, this`nextId
    {
      HeldBelow(unlockedChallenges, completedChallenges, globallyCompleted, otherTeamsUnlocked, allTeamCompletions, nextId)
    }

    /** The unlocked entries of team `t`; a team without the collection has none. */
    function UnlockedOf(t: string): map<string, ChallengeDoc>
      reads this`teamUnlocked
    {
      if t in teamUnlocked then teamUnlocked[t] else map[]
    }

    constructor (teamID: string)
      ensures Valid()
      ensures this.teamID == teamID
      ensures bindings == map[] && teamUnlocked == map[] && teamCompleted == map[] && globalCompleted == []
      ensures unlockedChallenges == [] && completedChallenges == [] && globallyCompleted == []
      ensures attachedListeners == {} && teamLineCounts == map[] && nextId == 0
      ensures IdsIssued()
    {
      this.teamID := teamID;
      bindings := map[];
      teamUnlocked := map[];
      teamCompleted := map[];
      globalCompleted := [];
      unlockedChallenges := [];
      completedChallenges := [];
      globallyCompleted := [];
      otherTeamsUnlocked := map[];
      allTeamCompletions := map[];
      otherTeamIDs := [];
      attachedListeners := {};
      attachLog := [];
      teamLineCounts := map[];
      teamNames := map[];
      timeRemaining := 0;
      timerEnded := false;
      nextId := 0;
    }

    /**
     * `saveChallengeToUnlocked`: writes the challenge into the team's unlocked
     * collection under its document ID, replacing an entry with the same key.
     */
    method SaveChallengeToUnlocked(ch: GameChallenge)
      requires Valid() && IdsIssued()
      modifies this`teamUnlocked
      ensures Valid() && IdsIssued()
      ensures teamUnlocked == Saved(old(teamUnlocked), teamID, ToDoc(ch))
      ensures UnlockedOf(teamID).Keys == old(UnlockedOf(teamID)).Keys + {DocID(ch.station, ch.title)}
      ensures KeyOnly(DocID(ch.station, ch.title))
    {
      var docID := DocID(ch.station, ch.title);
      var entries := UnlockedOf(teamID);
      SaveKeepsKeyed(teamUnlocked, teamID, ToDoc(ch));
      teamUnlocked := teamUnlocked[teamID := entries[docID := ToDoc(ch)]];
    }

    /**
     * `unlockChallenge`: a station's first unlock on any line binds a catalog
     * template for that station, carrying the requested line, game-wide; every
     * unlock then saves the bound challenge for this team. A station with a
     * readable binding reuses it unchanged; a station without one and without
     * a template is left alone.
     */
    method Unlock(station: Station, line: MetroLine) returns (ghost picked: Option<GameChallenge>)
      requires Valid() && IdsIssued()
      modifies this`bindings, this`teamUnlocked, this`nextId
      ensures Valid() && IdsIssued()
      ensures old(nextId) <= nextId <= old(nextId) + 1
      ensures Readable(old(bindings), SafeStationID(station.name)) ==>
        var d := old(bindings)[SafeStationID(station.name)];
        picked == None && bindings == old(bindings) && teamUnlocked == Saved(old(teamUnlocked), teamID, d)
      ensures !Readable(old(bindings), SafeStationID(station.name)) ==> (picked.Some? <==> CatalogOptions(station.name) != [])
      ensures !Readable(old(bindings), SafeStationID(station.name)) && picked.Some? ==>
        var d := Bound(picked.value, station, line);
        && picked.value in CatalogOptions(station.name)
        && bindings == old(bindings)[SafeStationID(station.name) := d]
        && teamUnlocked == Saved(old(teamUnlocked), teamID, d)
      ensures !Readable(old(bindings), SafeStationID(station.name)) && picked.None? ==>
        bindings == old(bindings) && teamUnlocked == old(teamUnlocked)
      ensures Readable(old(bindings), SafeStationID(station.name)) || picked.Some? ==> Readable(bindings, SafeStationID(station.name))
    {
      var safeStationID := SafeStationID(station.name);
      if safeStationID in bindings && ParseLine(bindings[safeStationID].line).Some? {
        LoadBound(safeStationID);
        picked := None;
      } else {
        picked := BindFirst(station, line);
      }
    }

    /** The existing-binding branch of `unlockChallenge`: the bound document is saved as it is. */
    method LoadBound(safeStationID: string)
      requires Valid() && IdsIssued()
      requires Readable(bindings, safeStationID)
      modifies this`teamUnlocked, this`nextId
      ensures Valid() && IdsIssued()
      ensures nextId == old(nextId) + 1
      ensures teamUnlocked == Saved(old(teamUnlocked), teamID, bindings[safeStationID])
    {
      var data := bindings[safeStationID];
      var id := NewId();
      var challenge := FromDoc(data, id);
      ToFromDoc(data, challenge.id);
      SaveChallengeToUnlocked(challenge);
    }

    /** The no-binding branch of `unlockChallenge`: a random template of the station is bound and saved. */
    method BindFirst(station: Station, line: MetroLine) returns (ghost picked: Option<GameChallenge>)
      requires Valid() && IdsIssued()
      modifies this`bindings, this`teamUnlocked, this`nextId
      ensures Valid() && IdsIssued()
      ensures old(nextId) <= nextId <= old(nextId) + 1
      ensures picked.Some? <==> CatalogOptions(station.name) != []
      ensures picked.Some? ==>
        var d := Bound(picked.value, station, line);
        && picked.value in CatalogOptions(station.name)
        && bindings == old(bindings)[SafeStationID(station.name) := d]
        && teamUnlocked == Saved(old(teamUnlocked), teamID, d)
        && Readable(bindings, SafeStationID(station.name))
      ensures picked.None? ==> bindings == old(bindings) && teamUnlocked == old(teamUnlocked)
    {
      var safeStationID := SafeStationID(station.name);
      var options := CatalogOptions(station.name);
      if options == [] {
        return None;
      }
      assert options[0] in options;
      var random :| random in options;
      var id := NewId();
      var chosenChallenge := GameChallenge(id, random.title, random.description, station.name, Some(line));
      BindKeepsKeyed(bindings, random, station, line);
      assert ToDoc(chosenChallenge) == Bound(random, station, line);
      bindings := bindings[safeStationID := ToDoc(chosenChallenge)];
      assert Valid();
      SaveChallengeToUnlocked(chosenChallenge);
      picked := Some(random);
    }

    /** `UUID()`: an id no challenge held so far carries. */
    method NewId() returns (id: nat)
      requires IdsIssued()
      modifies this`nextId
      ensures IdsIssued()
      ensures id == old(nextId) && nextId == id + 1
    {
      id := nextId;
      nextId := nextId + 1;
      HeldBelowGrow(unlockedChallenges, completedChallenges, globallyCompleted,
                    otherTeamsUnlocked, allTeamCompletions, id, nextId);
    }

    /**
     * `completeChallenge`: drops every unlocked challenge with that id, appends
     * the challenge to the completed list, records it for the team and game-wide
     * and refreshes the line counts over the teams in `teamDocIDs`.
     */
    method CompleteChallenge(ch: GameChallenge, teamDocIDs: seq<string>)
      requires Valid() && IdsIssued()
      requires ch.id < nextId
      requires forall i, j :: 0 <= i < j < |teamDocIDs| ==> teamDocIDs[i] != teamDocIDs[j]
      modifies this`unlockedChallenges, this`completedChallenges, this`teamCompleted, this`globalCompleted, this`teamLineCounts
      ensures Valid() && IdsIssued()
      ensures unlockedChallenges == RemoveById(old(unlockedChallenges), ch.id)
      ensures completedChallenges == old(completedChallenges) + [ch]
      ensures teamCompleted == old(teamCompleted)[teamID := DocsOf(old(teamCompleted), teamID) + [ToDoc(ch)]]
      ensures globalCompleted == old(globalCompleted) + [ToDoc(ch)]
      ensures teamLineCounts == LineCountsOf(teamDocIDs, teamCompleted)
    {
      MoveToCompleted(ch);
      RecordCompletion(ToDoc(ch));
      UpdateLineControlScores(teamDocIDs);
      assert Valid();
    }

    /** The two in-memory list updates of `completeChallenge`. */
    method MoveToCompleted(ch: GameChallenge)
      requires IdsIssued()
      requires ch.id < nextId
      modifies this`unlockedChallenges, this`completedChallenges
      ensures IdsIssued()
      ensures unlockedChallenges == RemoveById(old(unlockedChallenges), ch.id)
      ensures completedChallenges == old(completedChallenges) + [ch]
    {
      CompleteKeepsHeldBelow(unlockedChallenges, completedChallenges, globallyCompleted,
                             otherTeamsUnlocked, allTeamCompletions, nextId, ch);
      unlockedChallenges := RemoveById(unlockedChallenges, ch.id);
      completedChallenges := completedChallenges + [ch];
    }

    /** The two `addDocument` writes: the team's completed collection and the game-wide one. */
    method RecordCompletion(data: ChallengeDoc)
      requires Valid()
      modifies this`teamCompleted, this`globalCompleted
      ensures Valid()
      ensures teamCompleted == old(teamCompleted)[teamID := DocsOf(old(teamCompleted), teamID) + [data]]
      ensures globalCompleted == old(globalCompleted) + [data]
    {
      RecordKeepsRecorded(teamCompleted, globalCompleted, teamID, data);
      teamCompleted := teamCompleted[teamID := DocsOf(teamCompleted, teamID) + [data]];
      globalCompleted := globalCompleted + [data];
    }

    /** `updateLineControlScores`: the distinct-station counts of every team document. */
    method UpdateLineControlScores(teamDocIDs: seq<string>)
      requires forall i, j :: 0 <= i < j < |teamDocIDs| ==> teamDocIDs[i] != teamDocIDs[j]
      modifies this`teamLineCounts
      ensures teamLineCounts == LineCountsOf(teamDocIDs, teamCompleted)
    {
      teamLineCounts := AggregateLineCounts(teamDocIDs, teamCompleted);
    }

    /** The unlocked-challenges listener: the team's own list, rebuilt from a snapshot. */
    method OnUnlockedSnapshot(docs: seq<ChallengeDoc>)
      requires IdsIssued()
      modifies this`unlockedChallenges, this`nextId
      ensures IdsIssued()
      ensures unlockedChallenges == Rebuild(docs, old(nextId))
      ensures nextId == old(nextId) + |docs|
    {
      unlockedChallenges := Rebuild(docs, nextId);
      nextId := nextId + |docs|;
    }

    /** The completed-challenges listener: the team's own completions, rebuilt from a snapshot. */
    method OnCompletedSnapshot(docs: seq<ChallengeDoc>)
      requires IdsIssued()
      modifies this`completedChallenges, this`nextId
      ensures IdsIssued()
      ensures completedChallenges == Rebuild(docs, old(nextId))
      ensures nextId == old(nextId) + |docs|
    {
      completedChallenges := Rebuild(docs, nextId);
      nextId := nextId + |docs|;
    }

    /**
     * The global-completions listener: every team's completions, rebuilt from
     * a snapshot. The rebuilt values carry ids no held challenge has, so the
     * completed-by-others list, which compares ids too, keeps all of them.
     */
    method OnGlobalSnapshot(docs: seq<ChallengeDoc>)
      requires IdsIssued()
      modifies this`globallyCompleted, this`nextId
      ensures IdsIssued()
      ensures globallyCompleted == Rebuild(docs, old(nextId))
      ensures nextId == old(nextId) + |docs|
      ensures CompletedByOthers(globallyCompleted, completedChallenges) == globallyCompleted
    {
      var rebuilt := Rebuild(docs, nextId);
      FreshIdsShareNone(rebuilt, completedChallenges, nextId);
      globallyCompleted := rebuilt;
      nextId := nextId + |docs|;
    }

    /** The listener of another team's unlocked challenges. */
    method OnOtherTeamSnapshot(id: string, docs: seq<ChallengeDoc>)
      requires IdsIssued()
      modifies this`otherTeamsUnlocked, this`nextId
      ensures IdsIssued()
      ensures otherTeamsUnlocked == old(otherTeamsUnlocked)[id := Rebuild(docs, old(nextId))]
      ensures nextId == old(nextId) + |docs|
    {
      otherTeamsUnlocked := otherTeamsUnlocked[id := Rebuild(docs, nextId)];
      nextId := nextId + |docs|;
    }

    /** The listener of one team's completions, feeding `teamThatCompleted`. */
    method OnTeamCompletionsSnapshot(id: string, docs: seq<ChallengeDoc>)
      requires IdsIssued()
      modifies this`allTeamCompletions, this`nextId
      ensures IdsIssued()
      ensures allTeamCompletions == old(allTeamCompletions)[id := Rebuild(docs, old(nextId))]
      ensures nextId == old(nextId) + |docs|
    {
      allTeamCompletions := allTeamCompletions[id := Rebuild(docs, nextId)];
      nextId := nextId + |docs|;
    }

    /**
     * Both listeners read the same completion documents back: because each
     * rebuild hands out new ids, the completed-by-others list keeps every
     * global completion, the team's own included.
     */
    method ReadBackOwnCompletions(docs: seq<ChallengeDoc>)
      requires IdsIssued()
      modifies this`completedChallenges, this`globallyCompleted, this`nextId
      ensures IdsIssued()
      ensures CompletedByOthers(globallyCompleted, completedChallenges) == globallyCompleted
      ensures |globallyCompleted| == |docs|
      ensures CompletedByOthersByContent(globallyCompleted, completedChallenges) == []
    {
      ghost var first := nextId;
      OnCompletedSnapshot(docs);
      ghost var completed := completedChallenges;
      assert nextId == first + |docs|;
      OnGlobalSnapshot(docs);
      ReadBackListsOwn(docs, first);
      assert completedChallenges == completed == Rebuild(docs, first);
      assert globallyCompleted == Rebuild(docs, first + |docs|);
    }

    /** `attachListenerToTeam`: a team ID gets a listener only the first time it is seen. */
    method AttachListenerToTeam(id: string)
      requires AttachLogged(attachLog, attachedListeners)
      modifies this`attachedListeners, this`attachLog
      ensures AttachLogged(attachLog, attachedListeners)
      ensures attachedListeners == old(attachedListeners) + {id}
      ensures attachLog == if id in old(attachedListeners) then old(attachLog) else old(attachLog) + [id]
    {
      if id in attachedListeners {
        return;
      }
      attachedListeners := attachedListeners + {id};
      attachLog := attachLog + [id];
    }

    /**
     * `listenForOtherTeams`: the team document IDs other than this team's are
     * recorded, and each gets a listener unless it already has one.
     */
    method ListenForOtherTeams(docIDs: seq<string>)
      requires Valid()
      modifies this`otherTeamIDs, this`attachedListeners, this`attachLog
      ensures Valid()
      ensures otherTeamIDs == OtherTeamIDs(docIDs, teamID)
      ensures forall id :: id in attachedListeners <==> id in old(attachedListeners) || (id in docIDs && id != teamID)
    {
      var others := OtherTeamIDs(docIDs, teamID);
      otherTeamIDs := others;
      ghost var before := attachedListeners;
      var i := 0;
      while i < |others|
        invariant 0 <= i <= |others|
        invariant AttachLogged(attachLog, attachedListeners)
        invariant otherTeamIDs == others
        invariant before <= attachedListeners
        invariant forall k :: 0 <= k < i ==> others[k] in attachedListeners
        invariant forall id :: id in attachedListeners ==> id in before || id in others
      {
        AttachListenerToTeam(others[i]);
        i := i + 1;
      }
    }

    /** `fetchTeamNames`: the stored name of every team document that has one. */
    method FetchTeamNames(teamDocs: seq<TeamDoc>)
      requires forall i, j :: 0 <= i < j < |teamDocs| ==> teamDocs[i].id != teamDocs[j].id
      modifies this`teamNames
      ensures forall t :: t in teamNames <==> exists i :: 0 <= i < |teamDocs| && teamDocs[i].id == t && teamDocs[i].teamName.Some?
      ensures forall i :: 0 <= i < |teamDocs| && teamDocs[i].teamName.Some? ==> teamNames[teamDocs[i].id] == teamDocs[i].teamName.value
    {
      var names: map<string, string> := map[];
      var i := 0;
      while i < |teamDocs|
        invariant 0 <= i <= |teamDocs|
        invariant forall t :: t in names <==> exists j :: 0 <= j < i && teamDocs[j].id == t && teamDocs[j].teamName.Some?
        invariant forall j :: 0 <= j < i && teamDocs[j].teamName.Some? ==> names[teamDocs[j].id] == teamDocs[j].teamName.value
      {
        var doc := teamDocs[i];
        if doc.teamName.Some? {
          names := names[doc.id := doc.teamName.value];
        }
        i := i + 1;
      }
      teamNames := names;
    }

    /** `updateRemainingTime`: the time left and whether the game is over, at `now`. */
    method UpdateRemainingTime(endTime: int, now: int)
      modifies this`timeRemaining, this`timerEnded
      ensures timeRemaining == RemainingTime(endTime, now)
      ensures timerEnded <==> timeRemaining == 0
      ensures timerEnded == TimerEnded(endTime, now)
    {
      EndedIffNothingRemains(endTime, now);
      timeRemaining := RemainingTime(endTime, now);
      timerEnded := TimerEnded(endTime, now);
    }
  }

  /**
   * First unlock wins: once a station is bound, a later unlock of it on any
   * line gets the bound challenge, the first unlock's line included.
   */
  method UnlockTwice(g: GameScreen, station: Station, line1: MetroLine, line2: MetroLine) returns (ghost picked: GameChallenge)
    requires g.Valid() && g.IdsIssued()
    requires SafeStationID(station.name) !in g.bindings
    requires CatalogOptions(station.name) != []
    modifies g`bindings, g`teamUnlocked, g`nextId
    ensures g.Valid() && g.IdsIssued()
    ensures old(g.nextId) <= g.nextId
    ensures picked in CatalogOptions(station.name)
    ensures g.bindings == old(g.bindings)[SafeStationID(station.name) := Bound(picked, station, line1)]
    ensures g.teamUnlocked == Saved(old(g.teamUnlocked), g.teamID, Bound(picked, station, line1))
  {
    var first := g.Unlock(station, line1);
    picked := first.value;
    var second := g.Unlock(station, line2);
    SaveIdempotent(old(g.teamUnlocked), g.teamID, Bound(picked, station, line1));
  }
}
