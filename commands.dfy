/** The ranking rule of the `scores` command (command/ScoreItCommand.java):
    the registry's records sorted by descending points, the first five
    reported with ranks 1 to 5, and, when the caller is not among them, the
    caller's own entry with its rank. Chat messages become ScoreLine
    values; the bold gold style of the caller's top-five line becomes the
    `highlighted` flag. */
module Commands {
  import opened Basics
  import opened Records
  import opened Registry
  import opened Game

  /** One reported line: rank, name, points, and whether it is styled as the
      caller's own line. */
  datatype ScoreLine = ScoreLine(rank: nat, name: Option<string>, points: int, highlighted: bool)

  function Min(a: nat, b: nat): nat {
    if a < b then a else b
  }

  /** How many entries are reported before the scan turns to the caller. */
  function TopCount(sorted: seq<Record>): nat {
    Min(|sorted|, TopRankings)
  }

  /** The line for the entry at position `i` of the sorted list. */
  function TopLine(sorted: seq<Record>, i: nat, caller: string): ScoreLine
    requires i < |sorted|
  {
    ScoreLine(i + 1, sorted[i].name, sorted[i].points, sorted[i].uuid == caller)
  }

  /** The position of the first entry at or after `from` that belongs to
      `uuid`, if there is one. */
  function FindFrom(sorted: seq<Record>, uuid: string, from: nat): (r: Option<nat>)
    requires from <= |sorted|
    ensures r.Some? ==> from <= r.value < |sorted| && sorted[r.value].uuid == uuid
    ensures r.Some? ==> forall k | from <= k < r.value :: sorted[k].uuid != uuid
    ensures r.None? ==> forall k | from <= k < |sorted| :: sorted[k].uuid != uuid
    decreases |sorted| - from
  {
    if from == |sorted| then None
    else if sorted[from].uuid == uuid then Some(from)
    else FindFrom(sorted, uuid, from + 1)
  }

  /** The lines the ranking loop reports for a sorted list: the top entries
      in order, then the caller's entry when the caller's first entry lies
      beyond the top five. */
  function Report(sorted: seq<Record>, caller: string): (lines: seq<ScoreLine>)
    ensures TopCount(sorted) <= |lines| <= TopCount(sorted) + 1
    ensures forall i | 0 <= i < TopCount(sorted) :: lines[i] == TopLine(sorted, i, caller)
    ensures |lines| > TopCount(sorted) <==>
      (forall i | 0 <= i < TopCount(sorted) :: sorted[i].uuid != caller) &&
      (exists j | TopRankings <= j < |sorted| :: sorted[j].uuid == caller)
    ensures |lines| > TopCount(sorted) ==>
      exists j | TopRankings <= j < |sorted| ::
        && sorted[j].uuid == caller
        && (forall k | 0 <= k < j :: sorted[k].uuid != caller)
        && lines[TopCount(sorted)] == ScoreLine(j + 1, sorted[j].name, sorted[j].points, false)
  {
    var top := seq(TopCount(sorted), i requires 0 <= i < TopCount(sorted) => TopLine(sorted, i, caller));
    match FindFrom(sorted, caller, 0)
    case Some(j) =>
      if j >= TopRankings then top + [ScoreLine(j + 1, sorted[j].name, sorted[j].points, false)] else top
    case None => top
  }

  /** Down the reported lines, ranks strictly increase, and, for a list in
      descending order, points never increase. */
  lemma ReportOrdered(sorted: seq<Record>, caller: string)
    requires Descending(sorted)
    ensures var lines := Report(sorted, caller);
      forall i, j | 0 <= i < j < |lines| :: lines[i].rank < lines[j].rank && lines[i].points >= lines[j].points
  {
    var lines := Report(sorted, caller);
    var n := TopCount(sorted);
    if |lines| > n {
      var j :| TopRankings <= j < |sorted| && lines[n] == ScoreLine(j + 1, sorted[j].name, sorted[j].points, false);
      forall i | 0 <= i < n ensures lines[i].rank < lines[n].rank && lines[i].points >= lines[n].points {
        assert lines[i] == TopLine(sorted, i, caller);
      }
    }
  }

  /** The caller shows up in the report, highlighted in the top five or on
      the extra line, exactly when the sorted list holds an entry of theirs. */
  lemma CallerListedIffPresent(sorted: seq<Record>, caller: string)
    ensures var lines := Report(sorted, caller);
      (exists i | 0 <= i < |lines| :: lines[i].highlighted) || |lines| > TopCount(sorted)
      <==> exists j | 0 <= j < |sorted| :: sorted[j].uuid == caller
  {
    var lines := Report(sorted, caller);
    var n := TopCount(sorted);
    if exists j | 0 <= j < |sorted| :: sorted[j].uuid == caller {
      var j :| 0 <= j < |sorted| && sorted[j].uuid == caller;
      if j < n {
        assert lines[j] == TopLine(sorted, j, caller);
      } else if forall i | 0 <= i < n :: sorted[i].uuid != caller {
        assert TopRankings <= j;
      } else {
        var i :| 0 <= i < n && sorted[i].uuid == caller;
        assert lines[i] == TopLine(sorted, i, caller);
      }
    } else {
      forall i | 0 <= i < |lines| ensures !lines[i].highlighted {
        assert lines[i] == TopLine(sorted, i, caller);
      }
    }
  }

  /** The loop of the `scores` command over the sorted list: while the rank
      is at most five, report the entry (highlighted when it is the caller's)
      and count on; past the fifth, stop if the caller was highlighted, and
      otherwise count on until the caller's entry, report it and stop. */
  method RankLines(sorted: seq<Record>, caller: string) returns (lines: seq<ScoreLine>)
    ensures lines == Report(sorted, caller)
  {
    lines := [];
    var rank := 1;
    var playerIsTopRanked := false;
    var i := 0;
    while i < |sorted|
      invariant 0 <= i <= |sorted| && rank == i + 1
      invariant |lines| == Min(i, TopRankings)
      invariant forall k | 0 <= k < |lines| :: lines[k] == TopLine(sorted, k, caller)
      invariant playerIsTopRanked <==> exists k | 0 <= k < Min(i, TopRankings) :: sorted[k].uuid == caller
      invariant forall k | TopRankings <= k < i :: sorted[k].uuid != caller
      invariant i > TopRankings ==> !playerIsTopRanked
    {
      var score := sorted[i];
      if rank <= TopRankings {
        var own := score.uuid == caller;
        lines := lines + [ScoreLine(rank, score.name, score.points, own)];
        rank := rank + 1;
        if own {
          playerIsTopRanked := true;
        }
      } else {
        if !playerIsTopRanked {
          if score.uuid == caller {
            lines := lines + [ScoreLine(rank, score.name, score.points, false)];
            assert FindFrom(sorted, caller, 0) == Some(i);
            return;
          }
          rank := rank + 1;
        } else {
          var k :| 0 <= k < TopRankings && sorted[k].uuid == caller;
          assert FindFrom(sorted, caller, 0).Some? && FindFrom(sorted, caller, 0).value <= k;
          return;
        }
      }
      i := i + 1;
    }
    if playerIsTopRanked {
      var k :| 0 <= k < Min(i, TopRankings) && sorted[k].uuid == caller;
      assert FindFrom(sorted, caller, 0).Some? && FindFrom(sorted, caller, 0).value <= k;
    } else {
      assert FindFrom(sorted, caller, 0).None?;
    }
  }

  /** The records of `view` listed in the order `keys`. */
  function RecordsAt(view: View, keys: seq<string>): (records: seq<Record>)
    requires forall i | 0 <= i < |keys| :: keys[i] in view
    ensures |records| == |keys|
    ensures forall i | 0 <= i < |keys| :: records[i] == view[keys[i]]
  {
    seq(|keys|, i requires 0 <= i < |keys| => view[keys[i]])
  }

  /** The values of the listed records, which the comparison reads. */
  function Snapshots(scores: seq<PlayerScore>): (records: seq<Record>)
    reads set i | 0 <= i < |scores| :: scores[i]
    ensures |records| == |scores|
    ensures forall i | 0 <= i < |scores| :: records[i] == scores[i].Snapshot()
  {
    seq(|scores|, i requires 0 <= i < |scores| reads set j | 0 <= j < |scores| :: scores[j] => scores[i].Snapshot())
  }

  /** The `scores` command. A source that is not a player (None) makes
      getPlayerOrException throw and nothing is reported. An empty registry
      gives one placeholder line with rank 0, the caller's name and 0
      points. Otherwise the registry's records, in the map's iteration
      order `keys`, are sorted by descending points and ranked. */
  method Scores(board: Scoreboard, caller: Option<Player>)
    returns (lines: seq<ScoreLine>, ghost keys: seq<string>, ghost sorted: seq<Record>)
    ensures caller.None? ==> lines == []
    ensures caller.Some? && board.registry == map[] ==>
      lines == [ScoreLine(0, Some(caller.value.name), 0, false)]
    ensures caller.Some? && board.registry != map[] ==>
      && Enumerates(keys, board.registry.Keys)
      && sorted == SortByPoints(RecordsAt(board.View(), keys))
      && lines == Report(sorted, caller.value.uuid)
  {
    keys, sorted := [], [];
    if caller.None? {
      return [], keys, sorted;
    }
    var scores;
    scores, keys := board.GetScores();
    if scores == [] {
      return [ScoreLine(0, Some(caller.value.name), 0, false)], keys, sorted;
    }
    var records := Snapshots(scores);
    assert records == RecordsAt(board.View(), keys);
    var ordered := SortByPoints(records);
    sorted := ordered;
    lines := RankLines(ordered, caller.value.uuid);
  }

  /** getRankedTopScores: the number of ranks to list, the requested count
      or, when none is given, the number of scores. */
  function RankLimit(numRankings: Option<int>, size: nat): (limit: int)
    ensures numRankings.Some? ==> limit == numRankings.value
    ensures numRankings.None? ==> limit == size
  {
    match numRankings
    case Some(n) => n
    case None => size
  }
}
