/** The player event handlers (eventhandler/PlayerEventHandler.java): the
    deposit of an item stack on the drop box, scored while the game runs by
    the first `*_point` tag of the item, and the registration of a player
    who logs in. The host's event, stack and tag objects become values. */
module Events {
  import opened Basics
  import opened Records
  import opened Registry
  import opened Game

  /** The namespace of the mod's own item tags (ScoreIt.MODID). */
  const ModId: string := "scoreit"
  const PointSuffix: string := "_point"
  const Air: ItemKind := ResourceLocation("minecraft", "air")

  datatype Hand = MainHand | OffHand

  /** An item stack: the shared empty stack ItemStack.EMPTY, or a stack of
      `count` items of one kind. The host reports the item of any stack
      holding no items (count at most 0) as air. */
  datatype ItemStack = Empty | Stack(item: ItemKind, count: int)

  /** A right click on a block. `itemTags` are the tags of the stack's item;
      `onDropbox` says whether the block clicked is the mod's drop box. */
  datatype RightClickBlock = RightClickBlock(
    clientSide: bool,
    player: Player,
    hand: Hand,
    stack: ItemStack,
    itemTags: set<ResourceLocation>,
    onDropbox: bool)

  /** How a right click ended. */
  datatype Deposit =
    | Ignored            // client side, empty, zero-count or air stack, off hand, or not the drop box
    | Paused             // the game is STOPPED
    | NotStarted         // the game is NONE or ENDED
    | NoPointTag         // the item has no `scoreit:*_point` tag
    | BadPointTag(tag: string)                     // the tag's prefix is not an int
    | Scored(tag: string, value: int, total: int)  // `value` points awarded; the new total

  predicate EndsWith(s: string, suffix: string) {
    |suffix| <= |s| && s[|s| - |suffix|..] == suffix
  }

  /** The paths of the item's tags in the mod's namespace that end in `_point`. */
  function PointTags(tags: set<ResourceLocation>): (paths: set<string>)
    ensures forall p | p in paths :: EndsWith(p, PointSuffix)
    ensures forall t | t in tags && t.namespace == ModId && EndsWith(t.path, PointSuffix) :: t.path in paths
    ensures forall p | p in paths :: exists t | t in tags :: t.namespace == ModId && t.path == p
  {
    set t | t in tags && t.namespace == ModId && EndsWith(t.path, PointSuffix) :: t.path
  }

  /** String.replaceAll(pat, "") for a pattern without regex meta-characters:
      scanning left to right, every occurrence is dropped and the scan resumes
      after it. */
  function RemoveAll(s: string, pat: string): (r: string)
    requires pat != []
    ensures |r| <= |s|
    decreases |s|
  {
    if |s| < |pat| then s
    else if s[..|pat|] == pat then RemoveAll(s[|pat|..], pat)
    else [s[0]] + RemoveAll(s[1..], pat)
  }

  /** String.trim: drops the leading and trailing characters up to U+0020. */
  function Trim(s: string): string {
    TrimEnd(TrimStart(s))
  }

  function TrimStart(s: string): (r: string)
    ensures r == [] || r[0] > ' '
    ensures |r| <= |s| && r == s[|s| - |r|..]
    decreases |s|
  {
    if s != [] && s[0] <= ' ' then TrimStart(s[1..]) else s
  }

  function TrimEnd(s: string): (r: string)
    ensures r == [] || r[|r| - 1] > ' '
    ensures |r| <= |s| && r == s[..|r|]
    decreases |s|
  {
    if s != [] && s[|s| - 1] <= ' ' then TrimEnd(s[..|s| - 1]) else s
  }

  predicate IsDigit(c: char) {
    '0' <= c <= '9'
  }

  predicate AllDigits(s: string) {
    forall i | 0 <= i < |s| :: IsDigit(s[i])
  }

  /** The value of a string of decimal digits, most significant first. */
  function DigitsValue(s: string): (n: nat)
    requires AllDigits(s)
    decreases |s|
  {
    if s == [] then 0 else DigitsValue(s[..|s| - 1]) * 10 + (s[|s| - 1] - '0') as int
  }

  /** What follows the optional sign of a numeral. */
  function Magnitude(s: string): string {
    if s != [] && (s[0] == '-' || s[0] == '+') then s[1..] else s
  }

  /** An optional sign followed by at least one decimal digit. */
  predicate IsNumeral(s: string) {
    Magnitude(s) != [] && AllDigits(Magnitude(s))
  }

  /** Integer.valueOf(String): an optional sign followed by at least one
      digit, whose value fits in 32 bits; anything else throws
      NumberFormatException (None). */
  function ParseInt(s: string): (r: Option<int>)
    ensures r.Some? ==> IsNumeral(s) && Int32Min <= r.value <= Int32Max
    ensures r.Some? && IsNumeral(s) && s[0] == '-' ==> r.value == -(DigitsValue(Magnitude(s)) as int)
    ensures r.Some? && IsNumeral(s) && s[0] != '-' ==> r.value == DigitsValue(Magnitude(s))
    ensures r.None? && IsNumeral(s) ==>
      if s[0] == '-' then DigitsValue(Magnitude(s)) > Int32Max + 1 else DigitsValue(Magnitude(s)) > Int32Max
  {
    if !IsNumeral(s) then None
    else
      var magnitude := DigitsValue(Magnitude(s));
      var v := if s[0] == '-' then -(magnitude as int) else magnitude;
      if Int32Min <= v <= Int32Max then Some(v) else None
  }

  function DigitChar(d: nat): (c: char)
    requires d < 10
    ensures IsDigit(c)
  {
    ('0' as int + d) as char
  }

  /** The decimal digits of `n`, as Integer.toString writes them. */
  function Decimal(n: nat): (s: string)
    ensures s != [] && AllDigits(s)
    decreases n
  {
    if n < 10 then [DigitChar(n)] else Decimal(n / 10) + [DigitChar(n % 10)]
  }

  /** Reading the digits of `n` gives `n` back. */
  lemma {:induction false} DecimalValue(n: nat)
    ensures DigitsValue(Decimal(n)) == n
    decreases n
  {
    if n >= 10 {
      DecimalValue(n / 10);
      var s := Decimal(n);
      assert s[..|s| - 1] == Decimal(n / 10);
    }
  }

  /** The decimal form of an int, as Integer.toString writes it. */
  function IntString(n: int): (s: string)
    ensures IsNumeral(s) && (s[0] == '-' <==> n < 0)
  {
    if n < 0 then "-" + Decimal(-n) else Decimal(n)
  }

  /** Every 32-bit int reads back as itself from its decimal form. */
  lemma ParseIntString(n: int)
    requires Int32Min <= n <= Int32Max
    ensures ParseInt(IntString(n)) == Some(n)
  {
    if n < 0 {
      DecimalValue(-n);
      assert Magnitude(IntString(n)) == Decimal(-n);
    } else {
      DecimalValue(n);
    }
  }

  /** The prefix a point tag is read from: every `_point` removed, then
      trimmed. */
  function PointPrefix(tag: string): string {
    Trim(RemoveAll(tag, PointSuffix))
  }

  /** The points a stack of `count` items earns by its point tag: the prefix
      read as an int and multiplied by the count in 32-bit arithmetic; None
      when the prefix does not parse. */
  function PointValue(tag: string, count: int): (r: Option<int>)
    ensures r.Some? ==> Int32Min <= r.value <= Int32Max
    ensures !IsNumeral(PointPrefix(tag)) ==> r.None?
  {
    match ParseInt(PointPrefix(tag))
    case Some(v) => Some(Wrap32(v * count))
    case None => None
  }

  /** A string with no underscore keeps itself in front of a trailing `_point`
      and loses the suffix. */
  lemma {:induction false} RemoveSuffix(d: string)
    requires forall i | 0 <= i < |d| :: d[i] != '_'
    ensures RemoveAll(d + PointSuffix, PointSuffix) == d
    decreases |d|
  {
    if d == [] {
      assert ([] + PointSuffix)[|PointSuffix|..] == [];
    } else {
      assert (d + PointSuffix)[..|PointSuffix|][0] == d[0];
      assert (d + PointSuffix)[1..] == d[1..] + PointSuffix;
      RemoveSuffix(d[1..]);
      assert [d[0]] + d[1..] == d;
    }
  }

  /** A string that neither starts nor ends with a space or a control
      character has nothing to trim. */
  lemma TrimUnpadded(s: string)
    requires s == [] || (s[0] > ' ' && s[|s| - 1] > ' ')
    ensures Trim(s) == s
  {
  }

  /** The tag `<n>_point`, for any int n written in decimal with its sign, is
      worth `n` points per item (in 32-bit arithmetic). */
  lemma PointTagValue(n: int, count: int)
    requires Int32Min <= n <= Int32Max
    ensures PointValue(IntString(n) + PointSuffix, count) == Some(Wrap32(n * count))
  {
    var d := IntString(n);
    assert forall i | 0 <= i < |d| :: d[i] != '_' by {
      if n < 0 {
        assert forall i | 1 <= i < |d| :: d[i] == Decimal(-n)[i - 1];
      }
    }
    RemoveSuffix(d);
    TrimUnpadded(d);
    ParseIntString(n);
  }

  /** A point tag `x_point` whose `x` (free of underscores) is not a numeral
      once trimmed, such as `gold_point`, awards nothing, whatever the count. */
  lemma NonNumericTagRejected(x: string, count: int)
    requires forall i | 0 <= i < |x| :: x[i] != '_'
    requires !IsNumeral(Trim(x))
    ensures PointValue(x + PointSuffix, count).None?
  {
    RemoveSuffix(x);
  }

  /** The right-click handler: ignored on the client, for the empty stack,
      a stack of no items or of air, for the off hand and off the drop box; refused unless the game is
      STARTED; otherwise the first point tag (in the tag set's iteration
      order) is read, and when it parses the player is registered if absent,
      credited the value and the stack's count under its item kind, and the
      stack is shrunk to nothing. A prefix that does not parse changes
      nothing. */
  method OnRightClickBlock(board: Scoreboard, e: RightClickBlock) returns (outcome: Deposit, stack: ItemStack)
    modifies board`registry
    modifies if e.player.uuid in board.registry then {board.registry[e.player.uuid]} else {}
    ensures outcome == Ignored <==>
      e.clientSide || e.stack.Empty? || e.stack.count <= 0 || e.stack.item == Air || e.hand != MainHand || !e.onDropbox
    ensures outcome == Paused <==> outcome != Ignored && old(board.gameState) == STOPPED
    ensures outcome == NotStarted <==>
      outcome != Ignored && old(board.gameState) != STOPPED && old(board.gameState) != STARTED
    ensures !(outcome in {Ignored, Paused, NotStarted}) ==>
      board.gameState == STARTED && e.stack.Stack?
    ensures outcome == NoPointTag <==>
      !(outcome in {Ignored, Paused, NotStarted}) && PointTags(e.itemTags) == {}
    ensures outcome.BadPointTag? ==>
      outcome.tag in PointTags(e.itemTags) && PointValue(outcome.tag, e.stack.count).None?
    ensures !outcome.Scored? ==>
      stack == e.stack && board.registry == old(board.registry) && board.View() == old(board.View())
    ensures outcome.Scored? ==>
      && outcome.tag in PointTags(e.itemTags)
      && PointValue(outcome.tag, e.stack.count) == Some(outcome.value)
      && stack == Stack(e.stack.item, 0)
      && e.player.uuid in board.registry
      && board.registry[e.player.uuid].Snapshot()
         == Award(old(board.View()), e.player, outcome.value, e.stack.item, e.stack.count)[e.player.uuid]
      && outcome.total == board.registry[e.player.uuid].points
    ensures outcome.Scored? && old(board.Valid()) ==>
      board.Valid() && board.View() == Award(old(board.View()), e.player, outcome.value, e.stack.item, e.stack.count)
    ensures board.gameState == old(board.gameState)
  {
    stack := e.stack;
    if e.clientSide {
      return Ignored, stack;
    }
    if e.stack.Empty? || e.stack.count <= 0 || e.stack.item == Air || e.hand != MainHand {
      return Ignored, stack;
    }
    if !e.onDropbox {
      return Ignored, stack;
    }
    if board.gameState == STOPPED {
      return Paused, stack;
    } else if board.gameState != STARTED {
      return NotStarted, stack;
    }
    var pointTags := PointTags(e.itemTags);
    if pointTags == {} {
      return NoPointTag, stack;
    }
    var tag :| tag in pointTags;
    var pointsValue := PointValue(tag, e.stack.count);
    if pointsValue.None? {
      return BadPointTag(tag), stack;
    }
    var total := AwardDeposit(board, e.player, pointsValue.value, e.stack.item, e.stack.count);
    stack := Stack(e.stack.item, e.stack.count - e.stack.count);
    outcome := Scored(tag, pointsValue.value, total);
  }

  /** The registry updates of a scored deposit: the player is registered if
      absent, then credited; the credit then always finds the player, so the
      new total is present. */
  method AwardDeposit(board: Scoreboard, player: Player, value: int, kind: ItemKind, count: int) returns (total: int)
    modifies board`registry
    modifies if player.uuid in board.registry then {board.registry[player.uuid]} else {}
    ensures player.uuid in board.registry
    ensures board.registry[player.uuid].Snapshot() == Award(old(board.View()), player, value, kind, count)[player.uuid]
    ensures total == board.registry[player.uuid].points
    ensures old(board.Valid()) ==> board.Valid() && board.View() == Award(old(board.View()), player, value, kind, count)
    ensures board.gameState == old(board.gameState)
  {
    var uuid := player.uuid;
    var score := board.GetPlayer(uuid);
    if score.None? {
      board.AddPlayer(uuid, player.name);
    }
    var playerPoints := board.AddPointsForItem(uuid, value, kind, count);
    total := playerPoints.value;
  }

  /** The login handler: on the server, a player who is not registered yet
      is added with zero points; a registered player is left alone. */
  method OnPlayerLoggedIn(board: Scoreboard, clientSide: bool, player: Player)
    modifies board`registry
    ensures clientSide ==> board.registry == old(board.registry)
    ensures !clientSide ==> board.View() == InsertIfAbsent(old(board.View()), player.uuid, NewRecord(player.uuid, player.name))
    ensures player.uuid in old(board.registry) ==> board.registry == old(board.registry)
    ensures old(board.Valid()) ==> board.Valid()
  {
    if clientSide {
      return;
    }
    var score := board.GetPlayer(player.uuid);
    if score.None? {
      board.AddPlayer(player.uuid, player.name);
    }
  }
}
