/**
 * The `Game` class of game.js with its logical fields and the methods
 * that update them. Each method does what the source's method does, step by
 * step, and its postcondition ties the new fields to the pure functions of
 * `Rules`, `Chase` and `Topology`, where the game's properties are proved.
 */
module GameEngine {
  import opened Levels
  import opened Topology
  import opened Chase
  import opened Rules

  class Game {
    var currentLevelIdx: int
    var keys: KeyMap
    var level: Level
    var playerPos: Key
    var chasers: seq<Chaser>
    var isPlayerTurn: bool
    var gameOver: bool
    var enemyTurn: bool

    /** Accepted moves that did not win, since construction. */
    ghost var moves: nat
    /** Enemy passes those moves scheduled. */
    ghost var scheduled: nat

    /** The 2:1 cadence: `enemyTurn` tracks the parity of the moves, and ceil(moves/2) passes were scheduled. */
    ghost predicate Valid()
      reads this
    {
      enemyTurn == (moves % 2 == 0) && scheduled == (moves + 1) / 2
    }

    /** The logical fields as a value. */
    function Snapshot(): State
      reads this
    {
      State(level, playerPos, chasers, isPlayerTurn, gameOver, enemyTurn)
    }

    /** `new Game()`: the initial field values, then `renderKB()` and `loadLevel(0)`. */
    constructor ()
      ensures Valid()
      ensures keys == RenderedKeys() && currentLevelIdx == 0
      ensures Snapshot() == Initial()
      ensures moves == 0 && scheduled == 0
    {
      currentLevelIdx := 0;
      keys := EmptyKeys;
      isPlayerTurn := true;
      gameOver := false;
      enemyTurn := true;
      playerPos := "";
      chasers := [];
      level := NoLevel;
      moves, scheduled := 0, 0;
      new;
      RenderKB();
      LoadLevel(currentLevelIdx);
    }

    /** `renderKB`: stores every layout key with its row and column, row by row. */
    method RenderKB()
      modifies this`keys
      ensures keys == AddRows(old(keys), KEYBOARD_LAYOUT)
    {
      var r := 0;
      while r < |KEYBOARD_LAYOUT|
        invariant 0 <= r <= |KEYBOARD_LAYOUT|
        invariant keys == AddRows(old(keys), KEYBOARD_LAYOUT[..r])
      {
        var rowKeys := KEYBOARD_LAYOUT[r];
        var c := 0;
        while c < |rowKeys|
          invariant 0 <= c <= |rowKeys|
          invariant keys == AddRow(AddRows(old(keys), KEYBOARD_LAYOUT[..r]), rowKeys[..c], r)
        {
          AddRowSnoc(AddRows(old(keys), KEYBOARD_LAYOUT[..r]), rowKeys, r, c);
          keys := MapSet(keys, rowKeys[c], Cell(r, c));
          c := c + 1;
        }
        assert rowKeys[..c] == rowKeys;
        AddRowsSnoc(old(keys), KEYBOARD_LAYOUT, r);
        r := r + 1;
      }
      assert KEYBOARD_LAYOUT[..r] == KEYBOARD_LAYOUT;
    }

    /** `loadLevel(levelIdx)`: nothing for an index outside `LEVELS`; otherwise the level's reset. */
    method LoadLevel(levelIdx: int)
      modifies this`level, this`playerPos, this`chasers, this`gameOver, this`isPlayerTurn
      ensures Snapshot() == Rules.LoadLevel(old(Snapshot()), levelIdx)
    {
      if !(0 <= levelIdx < |LEVELS|) {
        return;
      }
      var lv := LEVELS[levelIdx];
      level := lv;
      playerPos := lv.startKey;
      chasers := Spawn(lv.enemies);
      gameOver := false;
      isPlayerTurn := true;
    }

    /** `handleInput` on a normalised token: ignored while play is off or for a token not in the table. */
    method HandleInput(token: Key) returns (o: Outcome)
      requires Valid()
      modifies this`playerPos, this`gameOver, this`isPlayerTurn, this`enemyTurn, this`moves, this`scheduled
      ensures Valid()
      ensures (Snapshot(), o) == Rules.HandleInput(keys, old(Snapshot()), token)
      ensures moves == old(moves) + (if o.Moved? && !gameOver then 1 else 0)
    {
      if gameOver || !isPlayerTurn {
        return Ignored;
      }
      if token !in keys.cells {
        return Ignored;
      }
      o := TryMove(token);
    }

    /** `tryMove(target)`; a rejected move only shakes the key. */
    method TryMove(target: Key) returns (o: Outcome)
      requires Valid()
      modifies this`playerPos, this`gameOver, this`isPlayerTurn, this`enemyTurn, this`moves, this`scheduled
      ensures Valid()
      ensures (Snapshot(), o) == Rules.TryMove(keys, old(Snapshot()), target)
      ensures moves == old(moves) + (if o.Moved? && !gameOver then 1 else 0)
    {
      if target in level.blockedKeys {
        return Shaken(target);
      }
      if IsAdjacent(keys, playerPos, target) {
        if Occupied(chasers, target) {
          return Shaken(target);
        }
        playerPos := target;
        CheckWinCondition();
        var s := EndPlayerTurn();
        o := Moved(s);
      } else if playerPos != target {
        o := Shaken(target);
      } else {
        o := Ignored;
      }
    }

    /**
     * `endPlayerTurn`; `s` says whether it scheduled `processEnemyTurn`
     * (the source's 100 ms timeout).
     */
    method EndPlayerTurn() returns (s: bool)
      requires Valid()
      modifies this`isPlayerTurn, this`enemyTurn, this`moves, this`scheduled
      ensures Valid()
      ensures (Snapshot(), s) == Rules.EndPlayerTurn(old(Snapshot()))
      ensures moves == old(moves) + (if gameOver then 0 else 1)
    {
      if gameOver {
        return false;
      }
      s := false;
      if enemyTurn {
        isPlayerTurn := false;
        s := true;
        scheduled := scheduled + 1;
      }
      enemyTurn := !enemyTurn;
      moves := moves + 1;
      if !gameOver {
        isPlayerTurn := true;
      }
    }

    /** `checkWinCondition`. */
    method CheckWinCondition()
      modifies this`gameOver
      ensures Snapshot() == CheckWin(old(Snapshot()))
    {
      if playerPos == level.targetKey {
        gameOver := true;
      }
    }

    /** `checkCollision`. */
    method CheckCollision()
      modifies this`gameOver
      ensures Snapshot() == Rules.CheckCollision(old(Snapshot()))
    {
      if Occupied(chasers, playerPos) {
        gameOver := true;
      }
    }

    /** `processEnemyTurn`: every chaser takes its step, then the collision check. */
    method ProcessEnemyTurn()
      modifies this`chasers, this`gameOver
      ensures Snapshot() == EnemyTurn(keys, old(Snapshot()))
    {
      chasers := StepAll();
      CheckCollision();
    }

    /**
     * The loop of `processEnemyTurn`: the chasers step one after another, in
     * list order, each seeing where the earlier ones now stand. The list is
     * built up in `cs` and stored back by the caller.
     */
    method StepAll() returns (cs: seq<Chaser>)
      ensures cs == Pass(keys, level.blockedKeys, chasers, playerPos)
    {
      cs := chasers;
      var i := 0;
      while i < |cs|
        invariant 0 <= i <= |chasers| && cs == After(keys, level.blockedKeys, chasers, playerPos, i)
      {
        var best := ChooseMove(cs, i);
        ghost var before := cs;
        cs := cs[i := cs[i].(pos := best)];
        assert cs == Step(keys, level.blockedKeys, before, i, playerPos);
        i := i + 1;
      }
    }

    /**
     * `chooseMove` for chaser `i` of `cs`: scan its neighbours, skipping
     * blocked keys and keys another chaser stands on, and keep the strictly
     * closest one to the player.
     */
    method ChooseMove(cs: seq<Chaser>, i: nat) returns (bestMove: Key)
      requires i < |cs|
      ensures bestMove == Scan(keys, level.blockedKeys, cs, i, playerPos, Neighbors(keys, cs[i].pos)).0
    {
      var ns := GetNeighbors(cs[i].pos);
      bestMove := cs[i].pos;
      var minDist := Distance(keys, cs[i].pos, playerPos);
      var j := 0;
      while j < |ns|
        invariant 0 <= j <= |ns|
        invariant (bestMove, minDist) == Scan(keys, level.blockedKeys, cs, i, playerPos, ns[..j])
      {
        var n := ns[j];
        assert ns[..j + 1][..j] == ns[..j];
        if n !in level.blockedKeys && !OccupiedByOther(cs, i, n) {
          var d := Distance(keys, n, playerPos);
          if d < minDist {
            minDist := d;
            bestMove := n;
          }
        }
        j := j + 1;
      }
      assert ns[..j] == ns;
    }

    /** `getNeighbors(keyChar)`: walks the table in order, collecting the other adjacent keys. */
    method GetNeighbors(keyChar: Key) returns (neighbors: seq<Key>)
      ensures neighbors == Neighbors(keys, keyChar)
    {
      neighbors := [];
      var i := 0;
      while i < |keys.order|
        invariant 0 <= i <= |keys.order|
        invariant neighbors == NeighborsAmong(keys, keyChar, keys.order[..i])
      {
        var k := keys.order[i];
        assert keys.order[..i + 1][..i] == keys.order[..i];
        if k != keyChar && IsAdjacent(keys, keyChar, k) {
          neighbors := neighbors + [k];
        }
        i := i + 1;
      }
      assert keys.order[..i] == keys.order;
    }
  }

  lemma AddRowSnoc(km: KeyMap, keys: seq<Key>, row: Row, c: nat)
    requires c < |keys|
    ensures AddRow(km, keys[..c + 1], row) == MapSet(AddRow(km, keys[..c], row), keys[c], Cell(row, c))
  {
    assert keys[..c + 1][..c] == keys[..c];
  }

  lemma AddRowsSnoc(km: KeyMap, rows: seq<seq<Key>>, r: nat)
    requires r < |rows| <= 5
    ensures AddRows(km, rows[..r + 1]) == AddRow(AddRows(km, rows[..r]), rows[r], r)
  {
    assert rows[..r + 1][..r] == rows[..r];
  }
}
