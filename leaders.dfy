/** The leaderboard (leaderboard/Leaderboard.java): a second registry of
    player scores with the same insert-if-absent, credit and merging load as
    the scoreboard, but no game state. This is the registry the world save
    persists. Its records are modelled with the scoreboard's PlayerScore. */
module Leaders {
  import opened Basics
  import opened Records
  import opened Registry

  /** The leaderboard's persisted compound: the list stored under the
      `registry` key (empty when the key is absent). */
  datatype LeaderboardTag = LeaderboardTag(registry: seq<ScoreTag>)

  class Leaderboard {
    var registry: map<string, PlayerScore>

    ghost predicate Valid()
      reads this
    {
      Distinct(registry)
    }

    ghost function View(): View
      reads this, registry.Values
    {
      ViewOf(registry)
    }

    constructor ()
      ensures registry == map[] && Valid()
    {
      registry := map[];
    }

    /** Registers a new player with zero points unless the id is present. */
    method AddPlayer(uuid: string, name: string)
      modifies this`registry
      ensures uuid in old(registry) ==> registry == old(registry)
      ensures uuid !in old(registry) ==>
        uuid in registry && fresh(registry[uuid]) && registry == old(registry)[uuid := registry[uuid]]
      ensures View() == InsertIfAbsent(old(View()), uuid, NewRecord(uuid, name))
      ensures old(Valid()) ==> Valid()
    {
      if uuid !in registry {
        var score := new PlayerScore.Named(uuid, name);
        registry := registry[uuid := score];
      }
    }

    /** Registers the given record object unless the id is present. */
    method AddPlayerRecord(uuid: string, details: PlayerScore)
      modifies this`registry
      ensures registry == if uuid in old(registry) then old(registry) else old(registry)[uuid := details]
      ensures View() == InsertIfAbsent(old(View()), uuid, details.Snapshot())
      ensures old(Valid()) && (uuid in old(registry) || details !in old(registry).Values) ==> Valid()
    {
      if uuid !in registry {
        registry := registry[uuid := details];
      }
    }

    /** Removes and returns the record of `uuid`, if there is one. */
    method RemovePlayer(uuid: string) returns (r: Option<PlayerScore>)
      modifies this`registry
      ensures r.Some? <==> uuid in old(registry)
      ensures r.Some? ==> r.value == old(registry)[uuid]
      ensures registry == old(registry) - {uuid} && uuid !in registry
      ensures View() == old(View()) - {uuid}
      ensures old(Valid()) ==> Valid()
    {
      if uuid in registry {
        r := Some(registry[uuid]);
        registry := registry - {uuid};
      } else {
        r := None;
      }
    }

    method GetPlayer(uuid: string) returns (r: Option<PlayerScore>)
      ensures r.Some? <==> uuid in registry
      ensures r.Some? ==> r.value == registry[uuid]
    {
      r := if uuid in registry then Some(registry[uuid]) else None;
    }

    method HasPlayer(uuid: string) returns (b: bool)
      ensures b <==> uuid in registry
    {
      b := uuid in registry;
    }

    /** Adds `n` points to a registered player and returns the new total;
        an unknown id yields None and changes nothing. */
    method AddPoints(uuid: string, n: int) returns (r: Option<int>)
      modifies if uuid in registry then {registry[uuid]} else {}
      ensures r.Some? <==> uuid in registry
      ensures uuid in registry ==> r.value == old(registry[uuid].points) + n
      ensures uuid in registry ==> registry[uuid].Snapshot() == Credit(old(registry[uuid].Snapshot()), n)
      ensures old(Valid()) && uuid in registry ==>
        View() == old(View())[uuid := Credit(old(View())[uuid], n)]
      ensures uuid !in registry ==> View() == old(View())
    {
      ghost var before := View();
      var details := GetPlayer(uuid);
      if details.Some? {
        var score := details.value;
        score.AddPoints(n);
        if Valid() {
          forall j | j in registry && j != uuid ensures registry[j].Snapshot() == before[j] {
            assert registry[j] != score;
          }
          ViewUpdatedAt(registry, uuid, before);
        }
        return Some(score.points);
      }
      return None;
    }

    /** Merges the saved records into the registry, each under its own uuid,
        keeping every entry already present. */
    method Load(tag: LeaderboardTag, host: Host)
      modifies this`registry
      ensures forall k | k in old(registry) :: k in registry && registry[k] == old(registry)[k]
      ensures View() == MergeLoad(old(View()), tag.registry, host)
      ensures old(Valid()) ==> Valid()
    {
      registry := LoadInto(registry, tag.registry, host);
    }

    /** Writes one compound per registered player under the `registry` key. */
    method Save() returns (tag: LeaderboardTag, ghost keys: seq<string>)
      modifies registry.Values
      ensures View() == old(View())
      ensures Enumerates(keys, registry.Keys) && |tag.registry| == |keys|
      ensures forall i | 0 <= i < |keys| :: SavedAs(tag.registry[i], View()[keys[i]])
    {
      var list;
      list, keys := SaveAll(registry);
      tag := LeaderboardTag(list);
    }
  }

  /** A world save followed by a load into a fresh leaderboard (as the
      saved data's save and load do): when the entries are filed under their
      own ids and carry no item counts, the new leaderboard holds the same
      records, whatever the host makes of a counts list. */
  method SaveAndReload(board: Leaderboard, host: Host) returns (reloaded: Leaderboard)
    requires KeyedByUuid(board.View()) && NoCounts(board.View())
    modifies board.registry.Values
    ensures fresh(reloaded)
    ensures reloaded.View() == board.View()
    ensures reloaded.Valid()
  {
    var tag, keys := board.Save();
    reloaded := new Leaderboard();
    reloaded.Load(tag, host);
    SaveAllThenLoad(board.View(), keys, tag.registry, host);
  }
}
