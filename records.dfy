/** One player's score record (scoreboard/PlayerScore.java): the mutable
    object the registries hold, its value at a moment (`Record`), and the
    persisted compound it is saved to and loaded from (`ScoreTag`). */
module Records {
  import opened Basics

  /** A namespaced identifier such as `minecraft:apple`; item kinds and item
      tags are both named this way. */
  datatype ResourceLocation = ResourceLocation(namespace: string, path: string) {
    function ToString(): string { namespace + ":" + path }
  }

  type ItemKind = ResourceLocation

  /** A player as the host presents one: a stable id and a display name. */
  datatype Player = Player(uuid: string, name: string)

  /** The value of a PlayerScore at one moment. `counts` is the map that
      getItemCounts() hands out (empty while the field is still null). */
  datatype Record = Record(uuid: string, name: Option<string>, points: int, counts: map<ItemKind, int>)

  /** The record a freshly registered player starts with. */
  function NewRecord(uuid: string, name: string): Record {
    Record(uuid, Some(name), 0, map[])
  }

  /** One element of the persisted `counts` list: the item kind's name and
      the number deposited. */
  datatype CountTag = CountTag(name: string, count: int)

  /** The persisted compound of one player. A field is None when its key is
      absent from the compound. */
  datatype ScoreTag = ScoreTag(
    uuid: Option<string>,
    name: Option<string>,
    points: Option<int>,
    counts: Option<seq<CountTag>>)

  /** The two host calls of the counts loop of PlayerScore.load, which this
      model cannot see. Each element of the list puts, under the location
      parsed from the OUTER compound's name (the empty string when it has
      none), the stack read from the outer compound's absent `stack` key.
      `location` is that parse, None where the host rejects the string and
      throws; `missingStack` is the count of the stack read from nothing. */
  datatype Host = Host(location: string -> Option<ItemKind>, missingStack: int)

  /** What PlayerScore.load makes of a compound: nothing when the uuid is
      missing or empty; otherwise a record with the name and points that are
      present (points default to 0). A non-empty counts list drops the record
      when the host rejects the name as a location (the exception is caught
      and logged), and otherwise leaves the single entry the loop keeps
      overwriting; an absent or empty list leaves the counts empty. */
  function LoadRecord(tag: ScoreTag, host: Host): Option<Record> {
    var uuid := tag.uuid.GetOr("");
    if uuid == "" then None
    else if tag.counts.Some? && tag.counts.value != [] then
      match host.location(tag.name.GetOr(""))
      case None => None
      case Some(kind) => Some(Record(uuid, tag.name, tag.points.GetOr(0), map[kind := host.missingStack]))
    else Some(Record(uuid, tag.name, tag.points.GetOr(0), map[]))
  }

  /** `list` holds one entry per kind of `counts`, in the order `kinds`. */
  ghost predicate CountsInOrder(list: seq<CountTag>, kinds: seq<ItemKind>, counts: map<ItemKind, int>) {
    && |list| == |kinds|
    && forall i | 0 <= i < |kinds| ::
         kinds[i] in counts && list[i] == CountTag(kinds[i].ToString(), counts[kinds[i]])
  }

  /** `tag` carries the uuid, name and points of `r`. */
  predicate SavedFields(tag: ScoreTag, r: Record) {
    && tag.uuid == Some(r.uuid)
    && tag.name == r.name
    && tag.points == Some(r.points)
  }

  /** `tag` is a compound that PlayerScore.save writes for `r`: uuid, name and
      points, and a counts list with exactly one entry per item kind. */
  ghost predicate SavedAs(tag: ScoreTag, r: Record) {
    && SavedFields(tag, r)
    && tag.counts.Some?
    && exists kinds :: Enumerates(kinds, r.counts.Keys) && CountsInOrder(tag.counts.value, kinds, r.counts)
  }

  /** A record without item counts, saved as PlayerScore.save writes it (with
      an empty counts list), survives a load. */
  lemma SaveThenLoad(tag: ScoreTag, r: Record, host: Host)
    requires SavedAs(tag, r) && r.uuid != "" && r.counts == map[]
    ensures LoadRecord(tag, host) == Some(r)
  {
    var kinds :| Enumerates(kinds, r.counts.Keys) && CountsInOrder(tag.counts.value, kinds, r.counts);
    EnumeratesSize(kinds, r.counts.Keys);
  }

  /** A compound loads as absent exactly when its uuid is missing or empty, or
      its counts list is not empty and the host rejects its name; a loaded
      record carries the compound's uuid, name and points. */
  lemma LoadNeedsUuid(tag: ScoreTag, host: Host)
    ensures LoadRecord(tag, host).None? <==>
      || tag.uuid.None? || tag.uuid.value == ""
      || (tag.counts.Some? && tag.counts.value != [] && host.location(tag.name.GetOr("")).None?)
    ensures LoadRecord(tag, host).Some? ==>
      var r := LoadRecord(tag, host).value;
      r.uuid == tag.uuid.value && r.name == tag.name && r.points == tag.points.GetOr(0)
    ensures LoadRecord(tag, host).Some? && (tag.counts.None? || tag.counts.value == []) ==>
      LoadRecord(tag, host).value.counts == map[]
  {
  }

  class PlayerScore {
    var uuid: string
    var name: Option<string>
    var points: int
    var itemCounts: Option<map<ItemKind, int>>

    /** The map getItemCounts() returns, without creating it. */
    function Counts(): map<ItemKind, int>
      reads this
    {
      itemCounts.GetOr(map[])
    }

    function Snapshot(): Record
      reads this
    {
      Record(uuid, name, points, Counts())
    }

    constructor (uuid: string)
      ensures this.uuid == uuid && name == None && points == 0 && itemCounts == None
    {
      this.uuid := uuid;
      name := None;
      points := 0;
      itemCounts := None;
    }

    constructor Named(uuid: string, name: string)
      ensures Snapshot() == NewRecord(uuid, name) && itemCounts == None
    {
      this.uuid := uuid;
      this.name := Some(name);
      points := 0;
      itemCounts := None;
    }

    method SetUuid(uuid: string)
      modifies this`uuid
      ensures this.uuid == uuid
    {
      this.uuid := uuid;
    }

    method SetName(name: string)
      modifies this`name
      ensures this.name == Some(name)
    {
      this.name := Some(name);
    }

    method SetPoints(points: int)
      modifies this`points
      ensures this.points == points
    {
      this.points := points;
    }

    method SetItemCounts(counts: Option<map<ItemKind, int>>)
      modifies this`itemCounts
      ensures itemCounts == counts
    {
      itemCounts := counts;
    }

    /** Creates an empty map on the first call and hands out the same map
        on every later call; the record's value does not change. */
    method GetItemCounts() returns (m: map<ItemKind, int>)
      modifies this`itemCounts
      ensures itemCounts == Some(m)
      ensures old(itemCounts).None? ==> m == map[]
      ensures old(itemCounts).Some? ==> m == old(itemCounts).value
      ensures Snapshot() == old(Snapshot())
    {
      if itemCounts.None? {
        itemCounts := Some(map[]);
      }
      m := itemCounts.value;
    }

    /** Adds `n` to the points; uuid, name and item counts stay as they were. */
    method AddPoints(n: int)
      modifies this`points
      ensures points == old(points) + n
      ensures Snapshot() == old(Snapshot()).(points := old(points) + n)
    {
      points := points + n;
    }

    /** Writes uuid, name and points, and one counts entry per item kind in
        the order the map hands them out (returned as `kinds`). A name that
        was never set is written as an absent field. */
    method Save() returns (tag: ScoreTag, ghost kinds: seq<ItemKind>)
      modifies this`itemCounts
      ensures itemCounts.Some? && Snapshot() == old(Snapshot())
      ensures tag.uuid == Some(uuid) && tag.name == name && tag.points == Some(points)
      ensures tag.counts.Some? && Enumerates(kinds, Counts().Keys)
      ensures CountsInOrder(tag.counts.value, kinds, Counts())
      ensures SavedAs(tag, Snapshot())
    {
      var counts := GetItemCounts();
      var list: seq<CountTag> := [];
      var remaining := counts.Keys;
      kinds := [];
      while remaining != {}
        invariant remaining <= counts.Keys
        invariant forall i | 0 <= i < |kinds| :: kinds[i] in counts && kinds[i] !in remaining
        invariant forall k | k in counts && k !in remaining :: k in kinds
        invariant forall i, j | 0 <= i < j < |kinds| :: kinds[i] != kinds[j]
        invariant CountsInOrder(list, kinds, counts)
        decreases remaining
      {
        var kind :| kind in remaining;
        list := list + [CountTag(kind.ToString(), counts[kind])];
        kinds := kinds + [kind];
        remaining := remaining - {kind};
      }
      tag := ScoreTag(Some(uuid), name, Some(points), Some(list));
    }

    /** Reads a compound back. A missing or empty uuid is reported (the
        source throws, catches and logs) and yields None; the name and the
        points are taken only when their keys are present; each element of a
        counts list puts the host's entry into the lazily created map, and a
        name the host rejects drops the whole record. */
    static method Load(tag: ScoreTag, host: Host) returns (r: Option<PlayerScore>)
      ensures r.None? <==> LoadRecord(tag, host).None?
      ensures r.Some? ==> fresh(r.value) && Some(r.value.Snapshot()) == LoadRecord(tag, host)
      ensures r.Some? ==> (r.value.itemCounts.Some? <==> tag.counts.Some? && tag.counts.value != [])
    {
      var uuid := tag.uuid.GetOr("");
      if uuid == "" {
        return None;
      }
      var score := new PlayerScore(uuid);
      if tag.name.Some? {
        score.SetName(tag.name.value);
      }
      if tag.points.Some? {
        score.SetPoints(tag.points.value);
      }
      if tag.counts.Some? {
        var list := tag.counts.value;
        var i := 0;
        while i < |list|
          invariant 0 <= i <= |list|
          invariant score.uuid == uuid && score.name == tag.name && score.points == tag.points.GetOr(0)
          invariant i == 0 ==> score.itemCounts == None
          invariant i > 0 ==>
            && host.location(tag.name.GetOr("")).Some?
            && score.itemCounts == Some(map[host.location(tag.name.GetOr("")).value := host.missingStack])
        {
          var counts := score.GetItemCounts();
          var kind := host.location(tag.name.GetOr(""));
          if kind.None? {
            return None;
          }
          assert counts == map[] || counts == map[kind.value := host.missingStack];
          assert counts[kind.value := host.missingStack] == map[kind.value := host.missingStack];
          score.SetItemCounts(Some(counts[kind.value := host.missingStack]));
          i := i + 1;
        }
      }
      r := Some(score);
    }
  }
}
