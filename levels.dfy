/**
 * The constant data of levels.js: the keyboard layout, whose rows and
 * columns become the board's topology, and the table of levels.
 */
module Levels {
  import opened Wrappers

  /** A key token, as the layout and the level literals spell it. */
  type Key = string

  /** One `{ id, startKey, type }` literal of a level's `enemies` list. */
  datatype EnemyDef = EnemyDef(id: string, startKey: Key, kind: string)

  /**
   * One literal of `LEVELS`. Optional fields (`message`, `layout`,
   * `regions`) are `None` where the literal leaves them out.
   */
  datatype Level = Level(
    id: int,
    startKey: Key,
    targetKey: Key,
    blockedKeys: seq<Key>,
    enemies: seq<EnemyDef>,
    message: Option<string>,
    layout: Option<string>,
    regions: Option<seq<seq<Key>>>)

  const Row0: seq<Key> := ["`", "1", "2", "3", "4", "5", "6", "7", "8", "9", "0", "-", "=", "Backspace"]
  const Row1: seq<Key> := ["Tab", "Q", "W", "E", "R", "T", "Y", "U", "I", "O", "P", "[", "]", "\\"]
  const Row2: seq<Key> := ["CapsLock", "A", "S", "D", "F", "G", "H", "J", "K", "L", ";", "'", "Enter"]
  const Row3: seq<Key> := ["ShiftLeft", "Z", "X", "C", "V", "B", "N", "M", ",", ".", "/", "ShiftRight"]

  /** `KEYBOARD_LAYOUT`: four rows, top to bottom; the Space row is commented out. */
  const KEYBOARD_LAYOUT: seq<seq<Key>> := [Row0, Row1, Row2, Row3]

  /** Every layout key in row-major order. */
  const LayoutKeys: seq<Key> := Row0 + Row1 + Row2 + Row3

  const ReachEnter: string := "REACH \U{21B5}"

  /** `LEVELS`, in array order (index 0 is level 1). */
  const LEVELS: seq<Level> := [
    Level(1, "A", "Enter", [], [], Some(ReachEnter), None, None),
    Level(2, "C", "Enter", ["T", "Y", "G", "H", "B", "N"], [], Some(ReachEnter), None, None),
    Level(3, "G", "Enter", ["T", "Y", "H", "B", "N"],
          [EnemyDef("e1", "Q", "chaser"), EnemyDef("e2", "P", "chaser")],
          Some("AVOID \U{1F47E}; REACH \U{21B5}"), None, None),
    Level(4, "2", "Enter", [], [EnemyDef("e1", "E", "chaser")], None, None, None),
    Level(5, "Z", "Enter", [], [EnemyDef("e1", "S", "chaser")], None, None, None),
    Level(6, "Q", "P", [], [EnemyDef("e1", "E", "chaser")],
          Some("USE SPACE TO SLIDE"), Some("split"),
          Some([Region0, Region1]))
  ]

  const Region0: seq<Key> := [
    "`", "1", "2", "3", "4", "5",
    "Tab", "Q", "W", "E", "R", "T",
    "CapsLock", "A", "S", "D", "F", "G",
    "ShiftLeft", "Z", "X", "C", "V", "B"]

  const Region1: seq<Key> := [
    "6", "7", "8", "9", "0", "-", "=", "Backspace",
    "Y", "U", "I", "O", "P", "[", "]", "\\",
    "H", "J", "K", "L", ";", "'", "Enter",
    "N", "M", ",", ".", "/", "ShiftRight"]

  /** `k` is a key of some layout row. */
  predicate IsLayoutKey(k: Key) {
    k in Row0 || k in Row1 || k in Row2 || k in Row3
  }

  lemma LayoutKeyMembership(k: Key)
    ensures k in LayoutKeys <==> IsLayoutKey(k)
  {
    assert LayoutKeys == ((Row0 + Row1) + Row2) + Row3;
  }

  /** No key occurs twice in `s`. */
  predicate Distinct(s: seq<Key>) {
    forall i, j | 0 <= i < j < |s| :: s[i] != s[j]
  }

  lemma RowsDistinct()
    ensures Distinct(Row0) && Distinct(Row1) && Distinct(Row2) && Distinct(Row3)
  {
    Row0Distinct();
    Row1Distinct();
    Row2Distinct();
    Row3Distinct();
  }

  lemma Row0Distinct() ensures Distinct(Row0) {}
  lemma Row1Distinct() ensures Distinct(Row1) {}
  lemma Row2Distinct() ensures Distinct(Row2) {}
  lemma Row3Distinct() ensures Distinct(Row3) {}

  lemma RowsDisjoint()
    ensures forall k | k in Row0 :: k !in Row1 && k !in Row2 && k !in Row3
    ensures forall k | k in Row1 :: k !in Row2 && k !in Row3
    ensures forall k | k in Row2 :: k !in Row3
  {
    Row0Apart();
    Row1Apart();
    Row2Apart();
  }

  lemma Row0Apart() ensures forall k | k in Row0 :: k !in Row1 && k !in Row2 && k !in Row3 {
    Row0LeftApart();
    Row0RightApart();
  }

  lemma Row0LeftApart() ensures forall k | k in Row0[..7] :: k !in Row1 && k !in Row2 && k !in Row3 {
    assert Row0[..7] == ["`", "1", "2", "3", "4", "5", "6"];
  }

  lemma Row0RightApart() ensures forall k | k in Row0[7..] :: k !in Row1 && k !in Row2 && k !in Row3 {
    assert Row0[7..] == Row0[7..11] + Row0[11..];
    Row0DigitsApart();
    Row0EndApart();
  }

  lemma Row0DigitsApart() ensures forall k | k in Row0[7..11] :: k !in Row1 && k !in Row2 && k !in Row3 {
    assert Row0[7..11] == ["7", "8", "9", "0"];
  }

  lemma Row0EndApart() ensures forall k | k in Row0[11..] :: k !in Row1 && k !in Row2 && k !in Row3 {
    assert Row0[11..] == ["-", "=", "Backspace"];
  }

  lemma Row1Apart() ensures forall k | k in Row1 :: k !in Row2 && k !in Row3 {
    Row1LeftApart();
    Row1RightApart();
  }

  lemma Row1LeftApart() ensures forall k | k in Row1[..7] :: k !in Row2 && k !in Row3 {
    assert Row1[..7] == ["Tab", "Q", "W", "E", "R", "T", "Y"];
  }

  lemma Row1RightApart() ensures forall k | k in Row1[7..] :: k !in Row2 && k !in Row3 {
    assert Row1[7..] == ["U", "I", "O", "P", "[", "]", "\\"];
  }

  lemma Row2Apart() ensures forall k | k in Row2 :: k !in Row3 {}

  /** Concatenating two key lists without duplicates and without common keys gives no duplicates. */
  lemma DistinctConcat(a: seq<Key>, b: seq<Key>)
    requires Distinct(a) && Distinct(b)
    requires forall k | k in a :: k !in b
    ensures Distinct(a + b)
  {
    forall i, j | 0 <= i < j < |a + b|
      ensures (a + b)[i] != (a + b)[j]
    {
      if j < |a| {
      } else if i < |a| {
        assert (a + b)[i] in a && (a + b)[j] == b[j - |a|];
      } else {
        assert (a + b)[i] == b[i - |a|] && (a + b)[j] == b[j - |a|];
      }
    }
  }

  /** Shape of the layout: all keys distinct, rows of 14, 14, 13 and 12 keys, no Space key. */
  lemma LayoutShape()
    ensures |KEYBOARD_LAYOUT| == 4
    ensures |KEYBOARD_LAYOUT[0]| == 14 && |KEYBOARD_LAYOUT[1]| == 14
    ensures |KEYBOARD_LAYOUT[2]| == 13 && |KEYBOARD_LAYOUT[3]| == 12
    ensures |LayoutKeys| == 53
    ensures Distinct(LayoutKeys)
    ensures "Space" !in LayoutKeys
  {
    LayoutDistinct();
  }

  lemma LayoutDistinct() ensures Distinct(LayoutKeys) {
    RowsDistinct();
    RowsDisjoint();
    DistinctConcat(Row0, Row1);
    assert forall k | k in Row0 + Row1 :: k !in Row2;
    DistinctConcat(Row0 + Row1, Row2);
    assert forall k | k in Row0 + Row1 + Row2 :: k !in Row3;
    DistinctConcat(Row0 + Row1 + Row2, Row3);
  }

  /** Level ids run from 1 to 6 in array order. */
  lemma LevelIds()
    ensures |LEVELS| == 6
    ensures forall i | 0 <= i < |LEVELS| :: LEVELS[i].id == i + 1
  {}

  /** The legality conditions a level's data meets. */
  predicate WellFormedLevel(lv: Level) {
    && IsLayoutKey(lv.startKey) && lv.startKey !in lv.blockedKeys
    && IsLayoutKey(lv.targetKey) && lv.targetKey !in lv.blockedKeys
    && (forall b | b in lv.blockedKeys :: IsLayoutKey(b))
    && (forall e | e in lv.enemies ::
          IsLayoutKey(e.startKey) && e.startKey !in lv.blockedKeys && e.startKey != lv.startKey)
    && (forall i, j | 0 <= i < j < |lv.enemies| :: lv.enemies[i].startKey != lv.enemies[j].startKey)
  }

  /**
   * Every level's start and target are unblocked layout keys, every blocked
   * key is a layout key, and enemy starts are unblocked layout keys, away from
   * the player's start and from each other.
   */
  lemma LevelsWellFormed()
    ensures forall i | 0 <= i < |LEVELS| :: WellFormedLevel(LEVELS[i])
  {
    forall i | 0 <= i < |LEVELS|
      ensures WellFormedLevel(LEVELS[i])
    {
      if i == 0 { Level1WellFormed(); }
      else if i == 1 { Level2WellFormed(); }
      else if i == 2 { Level3WellFormed(); }
      else if i == 3 { Level4WellFormed(); }
      else if i == 4 { Level5WellFormed(); }
      else { Level6WellFormed(); }
    }
  }

  lemma Level1WellFormed() ensures WellFormedLevel(LEVELS[0]) {}
  lemma Level2WellFormed() ensures WellFormedLevel(LEVELS[1]) {}
  lemma Level3WellFormed() ensures WellFormedLevel(LEVELS[2]) {
    Level3WallOnLayout();
    Level3EnemiesPlaced();
  }

  lemma Level3EnemiesPlaced()
    ensures var lv := LEVELS[2];
      forall e | e in lv.enemies :: IsLayoutKey(e.startKey) && e.startKey !in lv.blockedKeys && e.startKey != lv.startKey
  {
    assert LEVELS[2].enemies == [EnemyDef("e1", "Q", "chaser"), EnemyDef("e2", "P", "chaser")];
  }

  lemma Level3WallOnLayout() ensures forall b | b in LEVELS[2].blockedKeys :: IsLayoutKey(b) {
    assert LEVELS[2].blockedKeys == ["T", "Y", "H", "B", "N"];
  }
  lemma Level4WellFormed() ensures WellFormedLevel(LEVELS[3]) {}
  lemma Level5WellFormed() ensures WellFormedLevel(LEVELS[4]) {}
  lemma Level6WellFormed() ensures WellFormedLevel(LEVELS[5]) {}

  /** Level 6's two regions (24 and 29 keys) are disjoint and cover exactly the layout keys. */
  lemma SplitRegionsPartitionLayout()
    ensures LEVELS[5].regions == Some([Region0, Region1])
    ensures |Region0| == 24 && |Region1| == 29
    ensures forall k | k in Region0 :: k !in Region1
    ensures forall k :: IsLayoutKey(k) <==> k in Region0 || k in Region1
  {
    RegionsDisjoint();
    RegionsCoverLayout();
    RegionsWithinLayout();
  }

  lemma RegionsDisjoint()
    ensures forall k | k in Region0 :: k !in Region1
  {
    TopLeftOutsideRegion1();
    TopRightOutsideRegion1();
    UpperLeftOutsideRegion1();
    UpperRightOutsideRegion1();
    HomeLeftOutsideRegion1();
    HomeRightOutsideRegion1();
    BottomLeftOutsideRegion1();
    BottomRightOutsideRegion1();
  }

  // The level 6 `regions[0]` literal, three keys at a time, shares no key with `regions[1]`.

  lemma TopLeftOutsideRegion1() ensures forall j | 0 <= j < 3 :: Region0[j] !in Region1 {}
  lemma TopRightOutsideRegion1() ensures forall j | 3 <= j < 6 :: Region0[j] !in Region1 {}
  lemma UpperLeftOutsideRegion1() ensures forall j | 6 <= j < 9 :: Region0[j] !in Region1 {}
  lemma UpperRightOutsideRegion1() ensures forall j | 9 <= j < 12 :: Region0[j] !in Region1 {}
  lemma HomeLeftOutsideRegion1() ensures forall j | 12 <= j < 15 :: Region0[j] !in Region1 {}
  lemma HomeRightOutsideRegion1() ensures forall j | 15 <= j < 18 :: Region0[j] !in Region1 {}
  lemma BottomLeftOutsideRegion1() ensures forall j | 18 <= j < 21 :: Region0[j] !in Region1 {}
  lemma BottomRightOutsideRegion1() ensures forall j | 21 <= j < 24 :: Region0[j] !in Region1 {}

  lemma RegionsCoverLayout() ensures forall k | IsLayoutKey(k) :: k in Region0 || k in Region1 {}
  lemma RegionsWithinLayout() ensures forall k | k in Region0 || k in Region1 :: IsLayoutKey(k) {}
}
