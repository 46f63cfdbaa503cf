/**
 * The enemy pass of game.js (`processEnemyTurn`): every chaser, in list
 * order, takes one greedy step towards the player over the key table.
 */
module Chase {
  import opened Levels
  import opened Topology

  /** One entry of the game's `chasers`: the level's enemy literal plus its current `pos`. */
  datatype Chaser = Chaser(id: string, startKey: Key, kind: string, pos: Key)

  /** Some chaser other than number `i` stands on `n`. */
  predicate OccupiedByOther(cs: seq<Chaser>, i: int, n: Key) {
    exists j | 0 <= j < |cs| :: j != i && cs[j].pos == n
  }

  /** Chaser `i` may step onto `n`: it is not blocked and no other chaser stands there. */
  predicate Free(blocked: seq<Key>, cs: seq<Chaser>, i: int, n: Key) {
    n !in blocked && !OccupiedByOther(cs, i, n)
  }

  /**
   * The pair (`bestMove`, `minDist`) once the inner loop of the pass has
   * scanned the candidates `ns` for chaser `i`: it starts at the chaser's
   * own key and distance and moves to a free candidate only on a strictly
   * smaller distance.
   */
  function Scan(km: KeyMap, blocked: seq<Key>, cs: seq<Chaser>, i: nat, player: Key, ns: seq<Key>): (r: (Key, nat))
    requires i < |cs|
    ensures r.1 <= Distance(km, cs[i].pos, player)
    ensures r.0 == cs[i].pos || r.0 in ns
    decreases |ns|
  {
    if ns == [] then (cs[i].pos, Distance(km, cs[i].pos, player))
    else
      var prev := Scan(km, blocked, cs, i, player, ns[..|ns| - 1]);
      var n := ns[|ns| - 1];
      if !Free(blocked, cs, i, n) then prev
      else
        var d := Distance(km, n, player);
        if d < prev.1 then (n, d) else prev
  }

  /**
   * What the scan keeps: the distance it carries is the distance of the key
   * it holds, which is the chaser's own key or a free, strictly closer
   * candidate, and no free candidate is closer than it.
   */
  lemma {:induction false} ScanBest(km: KeyMap, blocked: seq<Key>, cs: seq<Chaser>, i: nat, player: Key, ns: seq<Key>)
    requires i < |cs|
    ensures var r := Scan(km, blocked, cs, i, player, ns);
      && r.1 == Distance(km, r.0, player)
      && r.1 <= Distance(km, cs[i].pos, player)
      && (r.0 == cs[i].pos || (r.0 in ns && Free(blocked, cs, i, r.0) && r.1 < Distance(km, cs[i].pos, player)))
      && (forall n | n in ns && Free(blocked, cs, i, n) :: r.1 <= Distance(km, n, player))
    decreases |ns|
  {
    if ns != [] {
      var init, last := ns[..|ns| - 1], ns[|ns| - 1];
      assert ns == init + [last];
      ScanBest(km, blocked, cs, i, player, init);
    }
  }

  /**
   * A chaser that moves lands on the first free candidate, in scan order,
   * among those at the smallest distance: every free candidate before it is
   * strictly farther.
   */
  lemma {:induction false} ScanPicksFirstClosest(km: KeyMap, blocked: seq<Key>, cs: seq<Chaser>, i: nat, player: Key, ns: seq<Key>)
    requires i < |cs|
    ensures var r := Scan(km, blocked, cs, i, player, ns);
      r.0 != cs[i].pos ==>
        exists k | 0 <= k < |ns| :: ns[k] == r.0 &&
          forall k' | 0 <= k' < k && Free(blocked, cs, i, ns[k']) :: r.1 < Distance(km, ns[k'], player)
    decreases |ns|
  {
    if ns != [] {
      var init, n := ns[..|ns| - 1], ns[|ns| - 1];
      var prev := Scan(km, blocked, cs, i, player, init);
      var r := Scan(km, blocked, cs, i, player, ns);
      ScanPicksFirstClosest(km, blocked, cs, i, player, init);
      if r.0 != cs[i].pos {
        if r == prev {
          var k :| 0 <= k < |init| && init[k] == r.0 &&
            forall k' | 0 <= k' < k && Free(blocked, cs, i, init[k']) :: r.1 < Distance(km, init[k'], player);
          assert ns[k] == r.0;
          forall k' | 0 <= k' < k && Free(blocked, cs, i, ns[k']) ensures r.1 < Distance(km, ns[k'], player) {
            assert ns[k'] == init[k'];
          }
        } else {
          var k := |ns| - 1;
          ScanBest(km, blocked, cs, i, player, init);
          assert ns[k] == r.0;
          forall k' | 0 <= k' < k && Free(blocked, cs, i, ns[k']) ensures r.1 < Distance(km, ns[k'], player) {
            assert ns[k'] == init[k'] && init[k'] in init;
          }
        }
      }
    }
  }

  /**
   * "H" and "J" both touch "U" and lie at exactly the same distance from
   * "N" (half a key to either side, one row down), so a chaser on "U" with
   * the player on "N" keeps "H", the one it scans first.
   */
  lemma ExactTieNextToU()
    ensures IsAdjacent(RenderedKeys(), "U", "H") && IsAdjacent(RenderedKeys(), "U", "J")
    ensures Distance(RenderedKeys(), "H", "N") == Distance(RenderedKeys(), "J", "N") == 125
  {
    CellsAroundU();
  }

  /** The cells of "U", "H", "J" and "N" in the rendered table. */
  lemma CellsAroundU()
    ensures "U" in RenderedKeys().cells && RenderedKeys().cells["U"] == Cell(1, 7)
    ensures "H" in RenderedKeys().cells && RenderedKeys().cells["H"] == Cell(2, 6)
    ensures "J" in RenderedKeys().cells && RenderedKeys().cells["J"] == Cell(2, 7)
    ensures "N" in RenderedKeys().cells && RenderedKeys().cells["N"] == Cell(3, 6)
  {
    RenderedKeysLayout();
    assert KEYBOARD_LAYOUT[1] == Row1 && KEYBOARD_LAYOUT[2] == Row2 && KEYBOARD_LAYOUT[3] == Row3;
    assert Row1[7] == "U" && Row2[6] == "H" && Row2[7] == "J" && Row3[6] == "N";
  }

  /** The chasers after chaser `i` has taken its step, seeing where the others stand now. */
  function Step(km: KeyMap, blocked: seq<Key>, cs: seq<Chaser>, i: nat, player: Key): (r: seq<Chaser>)
    requires i < |cs|
    ensures |r| == |cs|
    ensures r[i] == cs[i].(pos := r[i].pos)
  {
    cs[i := cs[i].(pos := Scan(km, blocked, cs, i, player, Neighbors(km, cs[i].pos)).0)]
  }

  /** The chasers once the first `n` of them have stepped, one after the other in list order. */
  function After(km: KeyMap, blocked: seq<Key>, cs: seq<Chaser>, player: Key, n: nat): (r: seq<Chaser>)
    requires n <= |cs|
    ensures |r| == |cs|
    decreases n
  {
    if n == 0 then cs else Step(km, blocked, After(km, blocked, cs, player, n - 1), n - 1, player)
  }

  /** The chasers after the loop of `processEnemyTurn`: every chaser has stepped once. */
  function Pass(km: KeyMap, blocked: seq<Key>, cs: seq<Chaser>, player: Key): (r: seq<Chaser>)
    ensures |r| == |cs|
  {
    After(km, blocked, cs, player, |cs|)
  }

  /** Chasers that have not stepped yet still stand where they stood. */
  lemma {:induction false} AfterLeavesRest(km: KeyMap, blocked: seq<Key>, cs: seq<Chaser>, player: Key, n: nat)
    requires n <= |cs|
    ensures forall j | n <= j < |cs| :: After(km, blocked, cs, player, n)[j] == cs[j]
    decreases n
  {
    if n > 0 {
      AfterLeavesRest(km, blocked, cs, player, n - 1);
    }
  }

  /** A chaser that has stepped is not moved again later in the pass. */
  lemma {:induction false} AfterKeepsDone(km: KeyMap, blocked: seq<Key>, cs: seq<Chaser>, player: Key, n: nat, m: nat)
    requires n <= m <= |cs|
    ensures forall j | 0 <= j < n :: After(km, blocked, cs, player, m)[j] == After(km, blocked, cs, player, n)[j]
    decreases m - n
  {
    if n < m {
      AfterKeepsDone(km, blocked, cs, player, n, m - 1);
    }
  }

  /**
   * Where chaser `i` may step during the pass: `n` is not blocked, and no
   * chaser stands on it at that moment (the earlier ones where they moved
   * to, the later ones where they started).
   */
  predicate FreeWhenMoving(blocked: seq<Key>, cs: seq<Chaser>, r: seq<Chaser>, i: nat, n: Key)
    requires |r| == |cs|
  {
    && n !in blocked
    && (forall j | 0 <= j < i && j < |r| :: r[j].pos != n)
    && (forall j | i < j < |cs| :: cs[j].pos != n)
  }

  /** The state in which chaser `i` steps: earlier chasers moved, chaser `i` and later ones not yet. */
  lemma MomentOfStep(km: KeyMap, blocked: seq<Key>, cs: seq<Chaser>, player: Key, i: nat)
    requires i < |cs|
    ensures var m, r := After(km, blocked, cs, player, i), Pass(km, blocked, cs, player);
      && m[i] == cs[i]
      && (forall j | 0 <= j < i :: m[j] == r[j])
      && r[i] == Step(km, blocked, m, i, player)[i]
      && (forall n :: Free(blocked, m, i, n) <==> FreeWhenMoving(blocked, cs, r, i, n))
  {
    var m, r := After(km, blocked, cs, player, i), Pass(km, blocked, cs, player);
    AfterLeavesRest(km, blocked, cs, player, i);
    AfterKeepsDone(km, blocked, cs, player, i, |cs|);
    AfterKeepsDone(km, blocked, cs, player, i + 1, |cs|);
    assert r[i] == After(km, blocked, cs, player, i + 1)[i];
    forall n ensures Free(blocked, m, i, n) <==> FreeWhenMoving(blocked, cs, r, i, n) {
      if FreeWhenMoving(blocked, cs, r, i, n) {
        forall j | 0 <= j < |m| && j != i ensures m[j].pos != n {
          if j < i { assert m[j] == r[j]; } else { assert m[j] == cs[j]; }
        }
      }
      if Free(blocked, m, i, n) {
        forall j | 0 <= j < i ensures r[j].pos != n { assert m[j] == r[j]; }
        forall j | i < j < |cs| ensures cs[j].pos != n { assert m[j] == cs[j]; }
      }
    }
  }

  /**
   * The pass keeps each chaser's id, start and kind, and moves chaser `i`
   * greedily: it stays, or steps onto a neighbour free at that moment that is
   * strictly closer to the player; no free neighbour is closer than where it
   * ends; and a moving chaser takes the first closest free neighbour in
   * table order.
   */
  lemma PassMovesGreedily(km: KeyMap, blocked: seq<Key>, cs: seq<Chaser>, player: Key, i: nat)
    requires i < |cs|
    ensures var r, ns := Pass(km, blocked, cs, player), Neighbors(km, cs[i].pos);
      && |r| == |cs|
      && r[i].id == cs[i].id && r[i].startKey == cs[i].startKey && r[i].kind == cs[i].kind
      && (r[i].pos == cs[i].pos || (r[i].pos in ns && FreeWhenMoving(blocked, cs, r, i, r[i].pos)))
      && Distance(km, r[i].pos, player) <= Distance(km, cs[i].pos, player)
      && (r[i].pos != cs[i].pos ==> Distance(km, r[i].pos, player) < Distance(km, cs[i].pos, player))
      && (forall n | n in ns && FreeWhenMoving(blocked, cs, r, i, n) ::
            Distance(km, r[i].pos, player) <= Distance(km, n, player))
      && (r[i].pos != cs[i].pos ==>
            exists k | 0 <= k < |ns| :: ns[k] == r[i].pos &&
              forall k' | 0 <= k' < k && FreeWhenMoving(blocked, cs, r, i, ns[k']) ::
                Distance(km, r[i].pos, player) < Distance(km, ns[k'], player))
  {
    var r, ns := Pass(km, blocked, cs, player), Neighbors(km, cs[i].pos);
    var m := After(km, blocked, cs, player, i);
    MomentOfStep(km, blocked, cs, player, i);
    ScanBest(km, blocked, m, i, player, ns);
    ScanPicksFirstClosest(km, blocked, m, i, player, ns);
    var best := Scan(km, blocked, m, i, player, ns);
    assert r[i] == cs[i].(pos := best.0);
  }

  /** No two chasers share a key. */
  predicate PositionsDistinct(cs: seq<Chaser>) {
    forall i, j | 0 <= i < j < |cs| :: cs[i].pos != cs[j].pos
  }

  lemma StepKeepsDistinct(km: KeyMap, blocked: seq<Key>, cs: seq<Chaser>, i: nat, player: Key)
    requires i < |cs| && PositionsDistinct(cs)
    ensures PositionsDistinct(Step(km, blocked, cs, i, player))
  {
    var r := Step(km, blocked, cs, i, player);
    ScanBest(km, blocked, cs, i, player, Neighbors(km, cs[i].pos));
    forall a, b | 0 <= a < b < |r| ensures r[a].pos != r[b].pos {
      if a == i || b == i {
        var other := if a == i then b else a;
        assert r[other] == cs[other];
      }
    }
  }

  /** A pass starting from pairwise distinct positions ends with pairwise distinct positions. */
  lemma {:induction false} AfterKeepsDistinct(km: KeyMap, blocked: seq<Key>, cs: seq<Chaser>, player: Key, n: nat)
    requires n <= |cs| && PositionsDistinct(cs)
    ensures PositionsDistinct(After(km, blocked, cs, player, n))
    decreases n
  {
    if n > 0 {
      AfterKeepsDistinct(km, blocked, cs, player, n - 1);
      StepKeepsDistinct(km, blocked, After(km, blocked, cs, player, n - 1), n - 1, player);
    }
  }

  lemma PassKeepsDistinct(km: KeyMap, blocked: seq<Key>, cs: seq<Chaser>, player: Key)
    requires PositionsDistinct(cs)
    ensures PositionsDistinct(Pass(km, blocked, cs, player))
  {
    AfterKeepsDistinct(km, blocked, cs, player, |cs|);
  }
}
