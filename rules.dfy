/**
 * The turn state machine of game.js as pure functions on a snapshot of the
 * game's logical fields: what `loadLevel`, `handleInput`/`tryMove`,
 * `checkWinCondition`, `endPlayerTurn`, `processEnemyTurn` and
 * `checkCollision` do to them.
 */
module Rules {
  import opened Levels
  import opened Topology
  import opened Chase
  import opened Wrappers

  /** The game's logical fields: `level`, `playerPos`, `chasers`, `isPlayerTurn`, `gameOver`, `enemyTurn`. */
  datatype State = State(
    level: Level,
    playerPos: Key,
    chasers: seq<Chaser>,
    isPlayerTurn: bool,
    gameOver: bool,
    enemyTurn: bool)

  /**
   * What one key press does: nothing, an invalid-move shake on the key, or
   * a move; `scheduled` says whether the move scheduled an enemy pass.
   */
  datatype Outcome = Ignored | Shaken(key: Key) | Moved(scheduled: bool)

  /** Some chaser stands on `k`. */
  predicate Occupied(cs: seq<Chaser>, k: Key) {
    exists i | 0 <= i < |cs| :: cs[i].pos == k
  }

  /** `level.enemies.map(e => ({ ...e, pos: e.startKey }))`. */
  function Spawn(es: seq<EnemyDef>): (cs: seq<Chaser>)
    ensures |cs| == |es|
    ensures forall i | 0 <= i < |es| ::
      cs[i].id == es[i].id && cs[i].startKey == es[i].startKey &&
      cs[i].kind == es[i].kind && cs[i].pos == es[i].startKey
    decreases |es|
  {
    if es == [] then []
    else
      var e := es[|es| - 1];
      Spawn(es[..|es| - 1]) + [Chaser(e.id, e.startKey, e.kind, e.startKey)]
  }

  /**
   * `loadLevel(idx)`: an index outside `LEVELS` changes nothing; otherwise
   * the level's start, fresh chasers on their start keys, play resumed.
   * `enemyTurn` is not reset.
   */
  function LoadLevel(s: State, idx: int): (r: State)
    ensures !(0 <= idx < |LEVELS|) ==> r == s
    ensures 0 <= idx < |LEVELS| ==>
      && r.level == LEVELS[idx]
      && r.playerPos == LEVELS[idx].startKey
      && |r.chasers| == |LEVELS[idx].enemies|
      && (forall i | 0 <= i < |r.chasers| ::
            var e := LEVELS[idx].enemies[i];
            r.chasers[i] == Chaser(e.id, e.startKey, e.kind, e.startKey))
      && !r.gameOver && r.isPlayerTurn
      && r.enemyTurn == s.enemyTurn
  {
    if 0 <= idx < |LEVELS| then
      var lv := LEVELS[idx];
      s.(level := lv, playerPos := lv.startKey, chasers := Spawn(lv.enemies), gameOver := false, isPlayerTurn := true)
    else s
  }

  /** Stands for `level` before the first `loadLevel`, when the field is still unset. */
  const NoLevel: Level := Level(0, "", "", [], [], None, None, None)

  /**
   * The fields as the constructor sets them before `loadLevel(0)`: play on,
   * `enemyTurn` set, no level, no player key (null in the source), no chasers.
   */
  function Unloaded(): State {
    State(NoLevel, "", [], true, false, true)
  }

  /** The state right after construction: `loadLevel(0)` on the initial field values. */
  function Initial(): State {
    LoadLevel(Unloaded(), 0)
  }

  /** `checkWinCondition`: reaching the target ends the game. */
  function CheckWin(s: State): (r: State)
    ensures r.gameOver <==> s.gameOver || s.playerPos == s.level.targetKey
    ensures r == s.(gameOver := r.gameOver)
  {
    if s.playerPos == s.level.targetKey then s.(gameOver := true) else s
  }

  /** `checkCollision`: a chaser on the player's key ends the game. */
  function CheckCollision(s: State): (r: State)
    ensures r.gameOver <==> s.gameOver || Occupied(s.chasers, s.playerPos)
    ensures r == s.(gameOver := r.gameOver)
  {
    if Occupied(s.chasers, s.playerPos) then s.(gameOver := true) else s
  }

  /**
   * `endPlayerTurn`, with whether it scheduled an enemy pass. After a win it
   * does nothing; otherwise it schedules a pass exactly when `enemyTurn` was
   * set, flips `enemyTurn` and hands the turn back to the player.
   */
  function EndPlayerTurn(s: State): (r: (State, bool))
    ensures s.gameOver ==> r == (s, false)
    ensures !s.gameOver ==>
      r.1 == s.enemyTurn && r.0 == s.(enemyTurn := !s.enemyTurn, isPlayerTurn := true)
  {
    if s.gameOver then (s, false)
    else (s.(isPlayerTurn := true, enemyTurn := !s.enemyTurn), s.enemyTurn)
  }

  /**
   * `tryMove(target)`: the player moves exactly when the move rule holds;
   * otherwise the state stays, and the press is silent exactly when it
   * names the player's own unblocked key.
   */
  function TryMove(km: KeyMap, s: State, target: Key): (r: (State, Outcome))
    ensures r.1.Moved? <==> CanMoveTo(km, s, target)
    ensures !r.1.Moved? ==> r.0 == s
    ensures r.1 == Ignored <==> target == s.playerPos && target !in s.level.blockedKeys
    ensures r.1.Shaken? ==> r.1.key == target
    ensures r.1.Moved? ==> r.0.playerPos == target && r.0.chasers == s.chasers && r.0.level == s.level
  {
    if target in s.level.blockedKeys then (s, Shaken(target))
    else if IsAdjacent(km, s.playerPos, target) then
      if Occupied(s.chasers, target) then (s, Shaken(target))
      else
        var e := EndPlayerTurn(CheckWin(s.(playerPos := target)));
        (e.0, Moved(e.1))
    else if s.playerPos != target then (s, Shaken(target))
    else (s, Ignored)
  }

  /** The move rule: `target` is unblocked, adjacent to the player and free of chasers. */
  predicate CanMoveTo(km: KeyMap, s: State, target: Key) {
    target !in s.level.blockedKeys && IsAdjacent(km, s.playerPos, target) && !Occupied(s.chasers, target)
  }

  /**
   * `handleInput` on an already normalised key token. A press moves the
   * player exactly when play is on, the token is a key of the table and the
   * move rule holds; every other press leaves the state as it was, and is
   * silent (no shake) exactly when play is off, the token is unknown, or it
   * is the player's own unblocked key. An accepted move puts the player on
   * the key and ends the game exactly when that is the target; a winning
   * move neither flips `enemyTurn` nor schedules a pass, any other move
   * schedules one exactly when `enemyTurn` was set and flips it.
   */
  function HandleInput(km: KeyMap, s: State, token: Key): (r: (State, Outcome))
    ensures r.1.Moved? <==> !s.gameOver && s.isPlayerTurn && token in km.cells && CanMoveTo(km, s, token)
    ensures !r.1.Moved? ==> r.0 == s
    ensures r.1 == Ignored <==>
      s.gameOver || !s.isPlayerTurn || token !in km.cells ||
      (token == s.playerPos && token !in s.level.blockedKeys)
    ensures r.1.Shaken? ==> r.1.key == token
    ensures r.1.Moved? ==>
      && r.0.playerPos == token
      && r.0.level == s.level && r.0.chasers == s.chasers && r.0.isPlayerTurn
      && (r.0.gameOver <==> token == s.level.targetKey)
      && (r.0.gameOver ==> !r.1.scheduled && r.0.enemyTurn == s.enemyTurn)
      && (!r.0.gameOver ==> r.1.scheduled == s.enemyTurn && r.0.enemyTurn == !s.enemyTurn)
  {
    if s.gameOver || !s.isPlayerTurn then (s, Ignored)
    else if token !in km.cells then (s, Ignored)
    else TryMove(km, s, token)
  }

  /**
   * `processEnemyTurn`: every chaser steps in list order, then the
   * collision check. Only the chasers and `gameOver` change, and the game is
   * over afterwards exactly when it was before or a chaser reached the player.
   */
  function EnemyTurn(km: KeyMap, s: State): (r: State)
    ensures r.chasers == Pass(km, s.level.blockedKeys, s.chasers, s.playerPos)
    ensures r == s.(chasers := r.chasers, gameOver := r.gameOver)
    ensures r.gameOver <==> s.gameOver || Occupied(r.chasers, s.playerPos)
  {
    CheckCollision(s.(chasers := Pass(km, s.level.blockedKeys, s.chasers, s.playerPos)))
  }

  /** The inputs the game reacts to: a normalised key press, a scheduled enemy pass firing, a level load. */
  datatype Event = Press(token: Key) | PassFires | Load(index: int)

  /**
   * A run of events: the state reached, the accepted moves that did not win
   * (`moves`), the enemy passes they scheduled, and those not yet run.
   */
  datatype Trace = Trace(state: State, moves: nat, scheduled: nat, pending: nat)

  /**
   * One event applied to a run; a pass fires only while one is pending.
   * An event counts at most one move and schedules a pass only with it.
   */
  function Apply(km: KeyMap, t: Trace, e: Event): (r: Trace)
    ensures t.moves <= r.moves <= t.moves + 1
    ensures r.scheduled - t.scheduled <= r.moves - t.moves
    ensures t.scheduled <= r.scheduled
    ensures r.moves > t.moves ==> e.Press? && !r.state.gameOver
    ensures e.PassFires? && t.pending == 0 ==> r == t
  {
    match e
    case Press(token) =>
      var (s, o) := HandleInput(km, t.state, token);
      if o.Moved? && !s.gameOver then
        var n := if o.scheduled then 1 else 0;
        Trace(s, t.moves + 1, t.scheduled + n, t.pending + n)
      else Trace(s, t.moves, t.scheduled, t.pending)
    case PassFires =>
      if t.pending > 0 then Trace(EnemyTurn(km, t.state), t.moves, t.scheduled, t.pending - 1) else t
    case Load(index) =>
      t.(state := LoadLevel(t.state, index))
  }

  /** The events applied in order from state `s`. */
  function Run(km: KeyMap, s: State, events: seq<Event>): (r: Trace)
    ensures r.scheduled <= r.moves <= |events|
    decreases |events|
  {
    if events == [] then Trace(s, 0, 0, 0)
    else Apply(km, Run(km, s, events[..|events| - 1]), events[|events| - 1])
  }

  /**
   * The 2:1 cadence for a run that started with `enemyTurn == first`:
   * `enemyTurn` has flipped once per counted move, and the moves have
   * scheduled every other pass, starting with the first move when `first`.
   */
  predicate Paced(t: Trace, first: bool) {
    && t.state.enemyTurn == (first == (t.moves % 2 == 0))
    && t.scheduled == (t.moves + (if first then 1 else 0)) / 2
    && t.pending <= t.scheduled
  }

  /** Every event keeps the cadence. */
  lemma ApplyKeepsPace(km: KeyMap, t: Trace, e: Event, first: bool)
    requires Paced(t, first)
    ensures Paced(Apply(km, t, e), first)
  {
    if e.Press? {
      var (s, o) := HandleInput(km, t.state, e.token);
      assert o.Moved? && !s.gameOver ==> o.scheduled == t.state.enemyTurn && s.enemyTurn == !t.state.enemyTurn;
    }
  }

  /**
   * The 2:1 cadence: after `n` accepted non-winning moves, whatever else
   * happened in between, `enemyTurn` has flipped `n` times and the moves have
   * scheduled ceil(n/2) passes if `enemyTurn` started set, floor(n/2) if not.
   */
  lemma {:induction false} Cadence(km: KeyMap, s: State, events: seq<Event>)
    ensures var t := Run(km, s, events);
      && t.state.enemyTurn == (s.enemyTurn == (t.moves % 2 == 0))
      && t.scheduled == (t.moves + (if s.enemyTurn then 1 else 0)) / 2
      && t.pending <= t.scheduled
    decreases |events|
  {
    if events != [] {
      Cadence(km, s, events[..|events| - 1]);
      ApplyKeepsPace(km, Run(km, s, events[..|events| - 1]), events[|events| - 1], s.enemyTurn);
    }
  }

  /** From construction, `enemyTurn` is set, so n accepted non-winning moves schedule ceil(n/2) passes. */
  lemma CadenceFromStart(km: KeyMap, events: seq<Event>)
    ensures Run(km, Initial(), events).scheduled == (Run(km, Initial(), events).moves + 1) / 2
  {
    Cadence(km, Initial(), events);
  }

  /** `isPlayerTurn` is handed back synchronously, so it holds in every state a run reaches. */
  lemma {:induction false} AlwaysPlayersTurn(km: KeyMap, s: State, events: seq<Event>)
    requires s.isPlayerTurn
    ensures Run(km, s, events).state.isPlayerTurn
    decreases |events|
  {
    if events != [] {
      AlwaysPlayersTurn(km, s, events[..|events| - 1]);
    }
  }

  /**
   * Once the game is over, presses and passes never clear `gameOver` or move
   * the player; only a level load does.
   */
  lemma {:induction false} GameOverIsFinal(km: KeyMap, s: State, events: seq<Event>)
    requires s.gameOver
    requires forall i | 0 <= i < |events| :: !events[i].Load?
    ensures Run(km, s, events).state.gameOver
    ensures Run(km, s, events).state.playerPos == s.playerPos
    ensures Run(km, s, events).moves == 0
    decreases |events|
  {
    if events != [] {
      GameOverIsFinal(km, s, events[..|events| - 1]);
    }
  }

  /**
   * A loaded level starts its chasers on pairwise distinct, unblocked keys
   * away from the player, so the no-sharing invariant that every pass keeps
   * holds from the start.
   */
  lemma LoadedChasersApart(s: State, idx: int)
    requires 0 <= idx < |LEVELS|
    ensures var r := LoadLevel(s, idx);
      && PositionsDistinct(r.chasers)
      && (forall i | 0 <= i < |r.chasers| :: r.chasers[i].pos != r.playerPos && r.chasers[i].pos !in r.level.blockedKeys)
  {
    LevelsWellFormed();
    var lv, r := LEVELS[idx], LoadLevel(s, idx);
    assert WellFormedLevel(lv);
    forall i | 0 <= i < |r.chasers|
      ensures r.chasers[i].pos != r.playerPos && r.chasers[i].pos !in r.level.blockedKeys
    {
      assert lv.enemies[i] in lv.enemies;
    }
  }

  /** The first keys of the home row in the rendered table. */
  lemma HomeRowCells()
    ensures "F" in RenderedKeys().cells && RenderedKeys().cells["F"] == Cell(2, 4)
    ensures "G" in RenderedKeys().cells && RenderedKeys().cells["G"] == Cell(2, 5)
    ensures "H" in RenderedKeys().cells && RenderedKeys().cells["H"] == Cell(2, 6)
  {
    RenderedKeysLayout();
    assert KEYBOARD_LAYOUT[2] == Row2;
    assert Row2[4] == "F" && Row2[5] == "G" && Row2[6] == "H";
  }

  /** Loading level 3 after construction: the player on "G", chasers on "Q" and "P", play on, `enemyTurn` set. */
  lemma LevelThreeStart()
    ensures var s := LoadLevel(Initial(), 2);
      && s.playerPos == "G" && s.level.blockedKeys == ["T", "Y", "H", "B", "N"] && s.level.targetKey == "Enter"
      && s.chasers == [Chaser("e1", "Q", "chaser", "Q"), Chaser("e2", "P", "chaser", "P")]
      && !s.gameOver && s.isPlayerTurn && s.enemyTurn
  {
    var lv := LEVELS[2];
    assert lv.enemies == [EnemyDef("e1", "Q", "chaser"), EnemyDef("e2", "P", "chaser")];
    assert Spawn(lv.enemies) == [Chaser("e1", "Q", "chaser", "Q"), Chaser("e2", "P", "chaser", "P")];
  }

  /** Level 3 from its start on "G": pressing the blocked "H" only shakes it. */
  lemma LevelThreeBlockedPress()
    ensures var s := LoadLevel(Initial(), 2);
      HandleInput(RenderedKeys(), s, "H") == (s, Shaken("H"))
  {
    LevelThreeStart();
    HomeRowCells();
  }

  /**
   * Level 3 from its start on "G": pressing "F" moves the player while the
   * chasers stay put; since `enemyTurn` starts set, that first move already
   * schedules a pass.
   */
  lemma LevelThreeFirstMove()
    ensures var s := LoadLevel(Initial(), 2);
      && HandleInput(RenderedKeys(), s, "F").1 == Moved(true)
      && HandleInput(RenderedKeys(), s, "F").0.playerPos == "F"
      && HandleInput(RenderedKeys(), s, "F").0.chasers == s.chasers
  {
    var s := LoadLevel(Initial(), 2);
    LevelThreeStart();
    HomeRowCells();
    assert IsAdjacent(RenderedKeys(), "G", "F");
    assert !Occupied(s.chasers, "F");
  }
}
