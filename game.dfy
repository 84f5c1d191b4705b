/** The game's scoreboard (scoreboard/Scoreboard.java): the four-state game
    lifecycle, the registry of player scores, the descending-points order used
    for ranking, and the scoreboard's load and save. The source keeps the
    state and the registry in static fields; here they are the fields of one
    Scoreboard object. */
module Game {
  import opened Basics
  import opened Records
  import opened Registry

  /** How many places the scores command lists (TOP_RANKINGS). */
  const TopRankings: nat := 5

  datatype GameState = NONE | STARTED | STOPPED | ENDED

  /** The label a state is saved under (its enum constant's name). */
  function Label(s: GameState): string {
    match s
    case NONE => "NONE"
    case STARTED => "STARTED"
    case STOPPED => "STOPPED"
    case ENDED => "ENDED"
  }

  /** GameState.valueOf: the state with that exact label, or None where
      the source throws IllegalArgumentException. */
  function ParseLabel(text: string): (r: Option<GameState>)
    ensures r.Some? ==> Label(r.value) == text
  {
    if text == "NONE" then Some(NONE)
    else if text == "STARTED" then Some(STARTED)
    else if text == "STOPPED" then Some(STOPPED)
    else if text == "ENDED" then Some(ENDED)
    else None
  }

  /** Every state reads back as itself from its saved label. */
  lemma LabelRoundTrip(s: GameState)
    ensures ParseLabel(Label(s)) == Some(s)
  {
  }

  /** SortByPoints.compare as intended: negative when `a` must come before
      `b`, that is when `a` has more points, zero on a tie. */
  function ComparePoints(a: Record, b: Record): (c: int)
    ensures c < 0 <==> a.points > b.points
    ensures c == 0 <==> a.points == b.points
  {
    b.points - a.points
  }

  /** SortByPoints.compare as written: the difference of two int point
      totals in 32-bit arithmetic. It agrees with ComparePoints whenever the
      difference fits in an int. */
  function ComparePointsAsWritten(a: Record, b: Record): (c: int)
    ensures Int32Min <= c <= Int32Max
    ensures Int32Min <= b.points - a.points <= Int32Max ==> c == ComparePoints(a, b)
  {
    Wrap32(b.points - a.points)
  }

  /** When the totals are far apart the subtraction overflows: a player with
      the least int total is ordered before a player with 1 point. */
  lemma ComparatorOverflows()
    ensures var a := Record("a", None, Int32Min, map[]);
      var b := Record("b", None, 1, map[]);
      a.points < b.points && ComparePointsAsWritten(a, b) == -2147483647 && ComparePoints(a, b) > 0
  {
  }

  /** Points never increase down the list. */
  ghost predicate Descending(s: seq<Record>) {
    forall i, j | 0 <= i < j < |s| :: s[i].points >= s[j].points
  }

  /** Inserts `r` before the first entry with no more points than it has. */
  function InsertByPoints(r: Record, s: seq<Record>): (t: seq<Record>)
    requires Descending(s)
    ensures Descending(t)
    ensures multiset(t) == multiset(s) + multiset{r}
    decreases |s|
  {
    if s == [] || ComparePoints(r, s[0]) <= 0 then
      DescendingCons(r, s);
      [r] + s
    else
      assert s == [s[0]] + s[1..];
      var rest := InsertByPoints(r, s[1..]);
      forall i | 0 <= i < |rest| ensures rest[i].points <= s[0].points {
        assert rest[i] in multiset(rest);
        assert rest[i] == r || rest[i] in s[1..];
      }
      DescendingCons(s[0], rest);
      [s[0]] + rest
  }

  lemma DescendingCons(h: Record, s: seq<Record>)
    requires Descending(s)
    requires forall i | 0 <= i < |s| :: s[i].points <= h.points
    ensures Descending([h] + s)
  {
    forall i, j | 0 <= i < j < |[h] + s| ensures ([h] + s)[i].points >= ([h] + s)[j].points {
      if i > 0 {
        assert ([h] + s)[i] == s[i - 1];
      }
      assert ([h] + s)[j] == s[j - 1];
    }
  }

  /** Collections.sort(scores, sortByPoints): the same entries, ordered by
      descending points (a stable insertion sort; equal entries keep their
      order). */
  function SortByPoints(s: seq<Record>): (t: seq<Record>)
    ensures Descending(t)
    ensures multiset(t) == multiset(s)
    decreases |s|
  {
    if s == [] then []
    else
      assert s == [s[0]] + s[1..];
      InsertByPoints(s[0], SortByPoints(s[1..]))
  }

  /** The scoreboard's persisted compound: the state label, when its key is
      present, and the list of player compounds (empty when absent). */
  datatype BoardTag = BoardTag(state: Option<string>, registry: seq<ScoreTag>)

  class Scoreboard {
    var gameState: GameState
    var registry: map<string, PlayerScore>

    ghost predicate Valid()
      reads this
    {
      Distinct(registry)
    }

    ghost function View(): View
      reads this, registry.Values
    {
      ViewOf(registry)
    }

    function IsRunning(): bool
      reads this
    {
      gameState == STARTED
    }

    function IsPaused(): bool
      reads this
    {
      gameState == STOPPED
    }

    function IsComplete(): bool
      reads this
    {
      gameState == ENDED
    }

    /** At most one of the three queries holds, and none of them in NONE. */
    lemma PhasesExclusive()
      ensures !(IsRunning() && IsPaused()) && !(IsRunning() && IsComplete()) && !(IsPaused() && IsComplete())
      ensures gameState == NONE <==> !IsRunning() && !IsPaused() && !IsComplete()
    {
    }

    constructor ()
      ensures gameState == NONE && registry == map[] && Valid()
    {
      gameState := NONE;
      registry := map[];
    }

    /** Starts a new game or resumes a paused one. */
    method Start() returns (ok: bool)
      modifies this`gameState
      ensures ok <==> old(gameState) == NONE || old(gameState) == STOPPED
      ensures gameState == if ok then STARTED else old(gameState)
    {
      if gameState == NONE || gameState == STOPPED {
        gameState := STARTED;
        return true;
      }
      return false;
    }

    /** Pauses a running game. */
    method Stop() returns (ok: bool)
      modifies this`gameState
      ensures ok <==> old(gameState) == STARTED
      ensures gameState == if ok then STOPPED else old(gameState)
    {
      if gameState == STARTED {
        gameState := STOPPED;
        return true;
      }
      return false;
    }

    /** Ends a running or paused game. */
    method End() returns (ok: bool)
      modifies this`gameState
      ensures ok <==> old(gameState) == STARTED || old(gameState) == STOPPED
      ensures gameState == if ok then ENDED else old(gameState)
    {
      if gameState == STARTED || gameState == STOPPED {
        gameState := ENDED;
        return true;
      }
      return false;
    }

    /** Back to NONE with an empty registry, from any state. */
    method Reset()
      modifies this
      ensures gameState == NONE && registry == map[] && View() == map[] && Valid()
    {
      gameState := NONE;
      registry := map[];
    }

    /** getScores(): the registered records, in the map's iteration order. */
    method GetScores() returns (scores: seq<PlayerScore>, ghost keys: seq<string>)
      ensures Enumerates(keys, registry.Keys) && |scores| == |keys|
      ensures forall i | 0 <= i < |keys| :: scores[i] == registry[keys[i]]
    {
      scores, keys := ListScores(registry);
    }

    /** Registers a new player with zero points unless the id is present. */
    method AddPlayer(uuid: string, name: string)
      modifies this`registry
      ensures uuid in old(registry) ==> registry == old(registry)
      ensures uuid !in old(registry) ==>
        uuid in registry && fresh(registry[uuid]) && registry == old(registry)[uuid := registry[uuid]]
      ensures View() == InsertIfAbsent(old(View()), uuid, NewRecord(uuid, name))
      ensures old(Valid()) ==> Valid()
    {
      if uuid !in registry {
        var score := new PlayerScore.Named(uuid, name);
        registry := registry[uuid := score];
      }
    }

    /** Registers the given record object unless the id is present. */
    method AddPlayerRecord(uuid: string, details: PlayerScore)
      modifies this`registry
      ensures registry == if uuid in old(registry) then old(registry) else old(registry)[uuid := details]
      ensures View() == InsertIfAbsent(old(View()), uuid, details.Snapshot())
      ensures old(Valid()) && (uuid in old(registry) || details !in old(registry).Values) ==> Valid()
    {
      if uuid !in registry {
        registry := registry[uuid := details];
      }
    }

    /** Removes and returns the record of `uuid`, if there is one. */
    method RemovePlayer(uuid: string) returns (r: Option<PlayerScore>)
      modifies this`registry
      ensures r.Some? <==> uuid in old(registry)
      ensures r.Some? ==> r.value == old(registry)[uuid]
      ensures registry == old(registry) - {uuid} && uuid !in registry
      ensures View() == old(View()) - {uuid}
      ensures old(Valid()) ==> Valid()
    {
      if uuid in registry {
        r := Some(registry[uuid]);
        registry := registry - {uuid};
      } else {
        r := None;
      }
    }

    method GetPlayer(uuid: string) returns (r: Option<PlayerScore>)
      ensures r.Some? <==> uuid in registry
      ensures r.Some? ==> r.value == registry[uuid]
    {
      r := if uuid in registry then Some(registry[uuid]) else None;
    }

    method HasPlayer(uuid: string) returns (b: bool)
      ensures b <==> uuid in registry
    {
      b := uuid in registry;
    }

    /** Adds `n` points to a registered player and returns the new total;
        an unknown id yields None and changes nothing. */
    method AddPoints(uuid: string, n: int) returns (r: Option<int>)
      modifies if uuid in registry then {registry[uuid]} else {}
      ensures r.Some? <==> uuid in registry
      ensures uuid in registry ==> r.value == old(registry[uuid].points) + n
      ensures uuid in registry ==> registry[uuid].Snapshot() == Credit(old(registry[uuid].Snapshot()), n)
      ensures old(Valid()) && uuid in registry ==>
        View() == old(View())[uuid := Credit(old(View())[uuid], n)]
      ensures uuid !in registry ==> View() == old(View())
    {
      ghost var before := View();
      var details := GetPlayer(uuid);
      if details.Some? {
        var score := details.value;
        score.AddPoints(n);
        if Valid() {
          forall j | j in registry && j != uuid ensures registry[j].Snapshot() == before[j] {
            assert registry[j] != score;
          }
          ViewUpdatedAt(registry, uuid, before);
        }
        return Some(score.points);
      }
      return None;
    }

    /** Adds `n` points for a deposit of `count` items of `kind` and records
        the count under the kind; returns the new total, or None for an
        unknown id with nothing changed. */
    method AddPointsForItem(uuid: string, n: int, kind: ItemKind, count: int) returns (r: Option<int>)
      modifies if uuid in registry then {registry[uuid]} else {}
      ensures r.Some? <==> uuid in registry
      ensures uuid in registry ==> r.value == old(registry[uuid].points) + n
      ensures uuid in registry ==>
        registry[uuid].Snapshot() == CreditItem(old(registry[uuid].Snapshot()), n, kind, count)
      ensures old(Valid()) && uuid in registry ==>
        View() == old(View())[uuid := CreditItem(old(View())[uuid], n, kind, count)]
      ensures uuid !in registry ==> View() == old(View())
    {
      ghost var before := View();
      var details := GetPlayer(uuid);
      if details.Some? {
        var score := details.value;
        CreditStack(score, n, kind, count);
        if Valid() {
          forall j | j in registry && j != uuid ensures registry[j].Snapshot() == before[j] {
            assert registry[j] != score;
          }
          ViewUpdatedAt(registry, uuid, before);
        }
        return Some(score.points);
      }
      return None;
    }

    /** The body of addPoints(uuid, points, stack) once the record is found:
        credit the points, then add the stack's count under its kind. */
    static method CreditStack(score: PlayerScore, n: int, kind: ItemKind, count: int)
      modifies score
      ensures score.points == old(score.points) + n
      ensures score.Snapshot() == CreditItem(old(score.Snapshot()), n, kind, count)
    {
      score.AddPoints(n);
      var counts := score.GetItemCounts();
      if kind in counts {
        var c := counts[kind];
        score.SetItemCounts(Some(counts[kind := c + count]));
      } else {
        score.SetItemCounts(Some(counts[kind := count]));
      }
    }

    /** Restores the state when its label is present, then merges the saved
        records without clearing the registry. An unknown label makes the
        source throw before anything changes; here Load returns false. */
    method Load(tag: BoardTag, host: Host) returns (ok: bool)
      modifies this
      ensures ok <==> tag.state.None? || ParseLabel(tag.state.value).Some?
      ensures !ok ==> gameState == old(gameState) && registry == old(registry)
      ensures ok && tag.state.Some? ==> gameState == ParseLabel(tag.state.value).value
      ensures ok && tag.state.None? ==> gameState == old(gameState)
      ensures ok ==> View() == MergeLoad(old(View()), tag.registry, host)
      ensures forall k | k in old(registry) :: k in registry && registry[k] == old(registry)[k]
      ensures old(Valid()) ==> Valid()
    {
      if tag.state.Some? {
        var s := ParseLabel(tag.state.value);
        if s.None? {
          return false;
        }
        gameState := s.value;
      }
      registry := LoadInto(registry, tag.registry, host);
      return true;
    }

    /** Writes the state label and one compound per registered player. */
    method Save() returns (tag: BoardTag, ghost keys: seq<string>)
      modifies registry.Values
      ensures tag.state == Some(Label(gameState))
      ensures View() == old(View())
      ensures Enumerates(keys, registry.Keys) && |tag.registry| == |keys|
      ensures forall i | 0 <= i < |keys| :: SavedAs(tag.registry[i], View()[keys[i]])
    {
      var list;
      list, keys := SaveAll(registry);
      tag := BoardTag(Some(Label(gameState)), list);
    }
  }
}
