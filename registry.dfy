/** The registry logic that Scoreboard.java and Leaderboard.java share: a map
    from player id to PlayerScore with insert-if-absent, point credits, a
    merging load and a save of every entry. The pure functions give the
    meaning of each operation on the registry's value; the methods at the end
    are the loops both classes run over their maps of objects. */
module Registry {
  import opened Basics
  import opened Records

  /** The value of a registry: player id to record. */
  type View = map<string, Record>

  /** addPlayer: store `r` under `k` unless `k` is already present. */
  function InsertIfAbsent(m: View, k: string, r: Record): (m': View)
    ensures m'.Keys == m.Keys + {k}
    ensures forall j | j in m :: m'[j] == m[j]
    ensures k !in m ==> m'[k] == r
  {
    if k in m then m else m[k := r]
  }

  /** Inserting a second time under the same id changes nothing, whatever
      record is offered. */
  lemma InsertIfAbsentIdempotent(m: View, k: string, r: Record, r2: Record)
    ensures InsertIfAbsent(InsertIfAbsent(m, k, r), k, r2) == InsertIfAbsent(m, k, r)
  {
  }

  /** A record after PlayerScore.addPoints(n). */
  function Credit(r: Record, n: int): Record {
    r.(points := r.points + n)
  }

  /** The item-count update of Scoreboard.addPoints(uuid, points, stack):
      the stack's count is added to the kind's count, or becomes it when the
      kind is new. */
  function AddCount(counts: map<ItemKind, int>, kind: ItemKind, count: int): (c: map<ItemKind, int>)
    ensures c.Keys == counts.Keys + {kind}
    ensures kind in counts ==> c[kind] == counts[kind] + count
    ensures kind !in counts ==> c[kind] == count
    ensures forall k | k in counts && k != kind :: c[k] == counts[k]
  {
    if kind in counts then counts[kind := counts[kind] + count] else counts[kind := count]
  }

  function CreditItem(r: Record, n: int, kind: ItemKind, count: int): Record {
    Credit(r, n).(counts := AddCount(r.counts, kind, count))
  }

  /** A record after crediting each amount of `amounts` in turn. */
  function CreditAll(r: Record, amounts: seq<int>): Record
    decreases |amounts|
  {
    if amounts == [] then r else CreditAll(Credit(r, amounts[0]), amounts[1..])
  }

  function Sum(xs: seq<int>): int
    decreases |xs|
  {
    if xs == [] then 0 else xs[0] + Sum(xs[1..])
  }

  /** However many credits are applied, the points grow by exactly their sum
      and nothing else in the record changes. */
  lemma {:induction false} CreditAllSums(r: Record, amounts: seq<int>)
    ensures CreditAll(r, amounts) == r.(points := r.points + Sum(amounts))
    decreases |amounts|
  {
    if amounts != [] {
      CreditAllSums(Credit(r, amounts[0]), amounts[1..]);
    }
  }

  /** The registry after the deposit handler awards `value` points for
      `count` items of `kind` to `player`: the player is registered first if
      absent, then credited. */
  function Award(m: View, player: Player, value: int, kind: ItemKind, count: int): (m': View)
    ensures m'.Keys == m.Keys + {player.uuid}
    ensures forall k | k in m && k != player.uuid :: m'[k] == m[k]
    ensures player.uuid in m ==> m'[player.uuid] == CreditItem(m[player.uuid], value, kind, count)
    ensures player.uuid !in m ==>
      m'[player.uuid] == Record(player.uuid, Some(player.name), value, map[kind := count])
  {
    var m1 := InsertIfAbsent(m, player.uuid, NewRecord(player.uuid, player.name));
    m1[player.uuid := CreditItem(m1[player.uuid], value, kind, count)]
  }

  /** One step of a load: the loaded record, if any, is inserted under its
      own uuid unless that id is already present. */
  function MergeOne(m: View, tag: ScoreTag, host: Host): View {
    match LoadRecord(tag, host)
    case None => m
    case Some(r) => InsertIfAbsent(m, r.uuid, r)
  }

  /** Loading a list of compounds into a registry, in list order, without
      clearing it first. */
  function MergeLoad(m: View, tags: seq<ScoreTag>, host: Host): View
    decreases |tags|
  {
    if tags == [] then m else MergeOne(MergeLoad(m, tags[..|tags| - 1], host), tags[|tags| - 1], host)
  }

  /** The ids of the compounds in `tags` that load. */
  function LoadedIds(tags: seq<ScoreTag>, host: Host): set<string> {
    set t | t in tags && LoadRecord(t, host).Some? :: LoadRecord(t, host).value.uuid
  }

  /** A load keeps every existing entry as it was, adds exactly the ids of
      the compounds that load, and files each new entry under its own uuid. */
  lemma {:induction false} MergeLoadMerges(m: View, tags: seq<ScoreTag>, host: Host)
    ensures MergeLoad(m, tags, host).Keys == m.Keys + LoadedIds(tags, host)
    ensures forall k | k in m :: MergeLoad(m, tags, host)[k] == m[k]
    ensures forall k | k in MergeLoad(m, tags, host) && k !in m :: MergeLoad(m, tags, host)[k].uuid == k
    decreases |tags|
  {
    if tags != [] {
      var init, last := tags[..|tags| - 1], tags[|tags| - 1];
      MergeLoadMerges(m, init, host);
      assert tags == init + [last];
      assert LoadedIds(tags, host) == LoadedIds(init, host) + LoadedIds([last], host);
    }
  }

  /** No record holds item counts. The leaderboard never records any, and
      only such records survive a save and a load (whose loop over a saved
      counts list reads the wrong compound). */
  ghost predicate NoCounts(m: View) {
    forall k | k in m :: m[k].counts == map[]
  }

  /** Every entry is filed under its record's own, non-empty uuid; this is
      how the registries are filled by the handlers and by load. */
  ghost predicate KeyedByUuid(m: View) {
    forall k | k in m :: k != "" && m[k].uuid == k
  }

  /** Registering a fresh player under a non-empty id, crediting points and
      removing a player keep a registry keyed by uuid and free of counts.
      (Filing a caller's object under another id, as addPlayer(uuid, score)
      allows, need not.) */
  lemma UpdatesKeepReloadable(m: View, uuid: string, name: string, n: int)
    requires KeyedByUuid(m) && NoCounts(m) && uuid != ""
    ensures var m' := InsertIfAbsent(m, uuid, NewRecord(uuid, name)); KeyedByUuid(m') && NoCounts(m')
    ensures uuid in m ==> var m' := m[uuid := Credit(m[uuid], n)]; KeyedByUuid(m') && NoCounts(m')
    ensures KeyedByUuid(m - {uuid}) && NoCounts(m - {uuid})
  {
  }

  /** Loading compounds whose counts lists are absent or empty keeps a
      registry keyed by uuid and free of counts. */
  lemma {:induction false} MergeLoadKeepsReloadable(m: View, tags: seq<ScoreTag>, host: Host)
    requires KeyedByUuid(m) && NoCounts(m)
    requires forall i | 0 <= i < |tags| :: tags[i].counts.None? || tags[i].counts.value == []
    ensures KeyedByUuid(MergeLoad(m, tags, host)) && NoCounts(MergeLoad(m, tags, host))
    decreases |tags|
  {
    if tags != [] {
      MergeLoadKeepsReloadable(m, tags[..|tags| - 1], host);
      LoadNeedsUuid(tags[|tags| - 1], host);
    }
  }

  /** Saving every entry (in any order) and loading the list into an empty
      registry gives the registry back. */
  lemma SaveAllThenLoad(m: View, keys: seq<string>, tags: seq<ScoreTag>, host: Host)
    requires Enumerates(keys, m.Keys) && |tags| == |keys|
    requires forall i | 0 <= i < |keys| :: SavedAs(tags[i], m[keys[i]])
    requires KeyedByUuid(m) && NoCounts(m)
    ensures MergeLoad(map[], tags, host) == m
  {
    forall i | 0 <= i < |keys| ensures SavedEntry(m, keys[i], tags[i]) {
    }
    SaveAllThenLoadPrefix(m, keys, tags, |tags|, host);
    assert tags[..|tags|] == tags;
    assert keys[..|keys|] == keys;
    assert Among(m, keys) == m;
  }

  /** `tag` is a save of the entry `k` of `m`, which is filed under its own
      uuid and holds no counts. */
  ghost predicate SavedEntry(m: View, k: string, tag: ScoreTag) {
    && k in m && k != "" && m[k].uuid == k && m[k].counts == map[]
    && SavedAs(tag, m[k])
  }

  lemma {:induction false} SaveAllThenLoadPrefix(m: View, keys: seq<string>, tags: seq<ScoreTag>, n: nat, host: Host)
    requires |tags| == |keys| && n <= |tags|
    requires forall i, j | 0 <= i < j < |keys| :: keys[i] != keys[j]
    requires forall i | 0 <= i < |keys| :: SavedEntry(m, keys[i], tags[i])
    ensures MergeLoad(map[], tags[..n], host) == Among(m, keys[..n])
  {
    if n > 0 {
      SaveAllThenLoadPrefix(m, keys, tags, n - 1, host);
      var k, tag := keys[n - 1], tags[n - 1];
      assert SavedEntry(m, k, tag);
      MergeLoadSnoc(map[], tags, n, host);
      SaveThenLoad(tag, m[k], host);
      assert k !in keys[..n - 1];
      MergeOneInserts(MergeLoad(map[], tags[..n - 1], host), tag, m[k], host);
      AmongStep(m, keys, n);
    }
  }

  lemma MergeLoadSnoc(m: View, tags: seq<ScoreTag>, n: nat, host: Host)
    requires 0 < n <= |tags|
    ensures MergeLoad(m, tags[..n], host) == MergeOne(MergeLoad(m, tags[..n - 1], host), tags[n - 1], host)
  {
    assert tags[..n][..n - 1] == tags[..n - 1];
  }

  lemma MergeOneInserts(prev: View, tag: ScoreTag, rec: Record, host: Host)
    requires LoadRecord(tag, host) == Some(rec) && rec.uuid !in prev
    ensures MergeOne(prev, tag, host) == prev[rec.uuid := rec]
  {
  }

  lemma AmongStep(m: View, keys: seq<string>, n: nat)
    requires 0 < n <= |keys| && keys[n - 1] in m
    ensures Among(m, keys[..n]) == Among(m, keys[..n - 1])[keys[n - 1] := m[keys[n - 1]]]
  {
    assert keys[..n] == keys[..n - 1] + [keys[n - 1]];
    AmongExtend(m, keys[..n - 1], keys[n - 1]);
  }

  /** The part of `m` filed under the ids listed in `keys`. */
  function Among(m: View, keys: seq<string>): View {
    map k | k in m && k in keys :: m[k]
  }

  lemma AmongExtend(m: View, keys: seq<string>, k: string)
    requires k in m
    ensures Among(m, keys + [k]) == Among(m, keys)[k := m[k]]
  {
  }

  /** The value of a registry of PlayerScore objects. */
  ghost function ViewOf(reg: map<string, PlayerScore>): View
    reads reg.Values
  {
    map k | k in reg :: reg[k].Snapshot()
  }

  /** No two ids share one PlayerScore object. Every registry the source
      builds has this property; an update through one id then leaves the
      other ids' records alone. */
  ghost predicate Distinct(reg: map<string, PlayerScore>) {
    forall j, k | j in reg && k in reg && j != k :: reg[j] != reg[k]
  }

  /** When every entry but `k` still has its value in `before`, the
      registry's value is `before` changed at `k` alone. */
  lemma ViewUpdatedAt(reg: map<string, PlayerScore>, k: string, before: View)
    requires k in reg && before.Keys == reg.Keys
    requires forall j | j in reg && j != k :: reg[j].Snapshot() == before[j]
    ensures ViewOf(reg) == before[k := reg[k].Snapshot()]
  {
  }

  /** getScores(): the registry's records, in the map's iteration order. */
  method ListScores(reg: map<string, PlayerScore>) returns (scores: seq<PlayerScore>, ghost keys: seq<string>)
    ensures Enumerates(keys, reg.Keys) && |scores| == |keys|
    ensures forall i | 0 <= i < |keys| :: scores[i] == reg[keys[i]]
  {
    scores, keys := [], [];
    var remaining := reg.Keys;
    while remaining != {}
      invariant remaining <= reg.Keys
      invariant forall i | 0 <= i < |keys| :: keys[i] in reg && keys[i] !in remaining
      invariant forall k | k in reg && k !in remaining :: k in keys
      invariant forall i, j | 0 <= i < j < |keys| :: keys[i] != keys[j]
      invariant |scores| == |keys| && forall i | 0 <= i < |keys| :: scores[i] == reg[keys[i]]
      decreases remaining
    {
      var k :| k in remaining;
      scores, keys := scores + [reg[k]], keys + [k];
      remaining := remaining - {k};
    }
  }

  /** The save loop: one compound per registry entry, in the map's iteration
      order. Saving creates missing item-count maps but changes no record's
      value. */
  method SaveAll(reg: map<string, PlayerScore>) returns (tags: seq<ScoreTag>, ghost keys: seq<string>)
    modifies reg.Values
    ensures ViewOf(reg) == old(ViewOf(reg))
    ensures Enumerates(keys, reg.Keys) && |tags| == |keys|
    ensures forall i | 0 <= i < |keys| :: SavedAs(tags[i], ViewOf(reg)[keys[i]])
  {
    ghost var v := ViewOf(reg);
    tags, keys := [], [];
    var remaining := reg.Keys;
    while remaining != {}
      invariant remaining <= reg.Keys
      invariant ViewOf(reg) == v
      invariant forall i | 0 <= i < |keys| :: keys[i] in reg && keys[i] !in remaining
      invariant forall k | k in reg && k !in remaining :: k in keys
      invariant forall i, j | 0 <= i < j < |keys| :: keys[i] != keys[j]
      invariant |tags| == |keys| && forall i | 0 <= i < |keys| :: SavedAs(tags[i], v[keys[i]])
      decreases remaining
    {
      var k :| k in remaining;
      var tag := SaveOne(reg, k);
      tags, keys := tags + [tag], keys + [k];
      remaining := remaining - {k};
    }
  }

  /** Saves the entry `k`; the registry's value does not change, even when
      other ids share the object. */
  method SaveOne(reg: map<string, PlayerScore>, k: string) returns (tag: ScoreTag)
    requires k in reg
    modifies reg[k]
    ensures ViewOf(reg) == old(ViewOf(reg))
    ensures SavedAs(tag, ViewOf(reg)[k])
  {
    ghost var kinds;
    tag, kinds := reg[k].Save();
    forall j | j in reg ensures reg[j].Snapshot() == old(reg[j].Snapshot()) {
      if reg[j] == reg[k] {
        assert reg[j].Snapshot() == reg[k].Snapshot();
      }
    }
  }

  /** The load loop: each compound that loads becomes a new PlayerScore,
      added under its own uuid unless that id is already present. */
  method LoadInto(reg: map<string, PlayerScore>, tags: seq<ScoreTag>, host: Host) returns (reg': map<string, PlayerScore>)
    ensures forall k | k in reg :: k in reg' && reg'[k] == reg[k]
    ensures ViewOf(reg') == MergeLoad(ViewOf(reg), tags, host)
    ensures Distinct(reg) ==> Distinct(reg')
  {
    reg' := reg;
    var i := 0;
    while i < |tags|
      invariant 0 <= i <= |tags|
      invariant forall k | k in reg :: k in reg' && reg'[k] == reg[k]
      invariant ViewOf(reg') == MergeLoad(ViewOf(reg), tags[..i], host)
      invariant Distinct(reg) ==> Distinct(reg')
    {
      reg' := LoadOne(reg', tags[i], host);
      MergeLoadSnoc(ViewOf(reg), tags, i + 1, host);
      i := i + 1;
    }
    assert tags[..|tags|] == tags;
  }

  /** One step of the load loop: the compound, when it loads, becomes a new
      PlayerScore filed under its own uuid unless that id is present. */
  method LoadOne(reg: map<string, PlayerScore>, tag: ScoreTag, host: Host) returns (reg': map<string, PlayerScore>)
    ensures forall k | k in reg :: k in reg' && reg'[k] == reg[k]
    ensures ViewOf(reg') == MergeOne(ViewOf(reg), tag, host)
    ensures Distinct(reg) ==> Distinct(reg')
  {
    reg' := reg;
    var loaded := PlayerScore.Load(tag, host);
    if loaded.Some? {
      var score := loaded.value;
      if score.uuid !in reg {
        ViewOfInsert(reg, score.uuid, score);
        reg' := reg[score.uuid := score];
      }
    }
  }

  /** Filing an object under a new id adds its value under that id. */
  lemma ViewOfInsert(reg: map<string, PlayerScore>, k: string, p: PlayerScore)
    requires k !in reg
    ensures ViewOf(reg[k := p]) == ViewOf(reg)[k := p.Snapshot()]
  {
  }
}
