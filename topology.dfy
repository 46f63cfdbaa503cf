/**
 * The board of game.js: the key table that `renderKB` builds from the
 * layout, and the pure queries over it (`isAdjacent`, `getNeighbors`,
 * `getDistance`).
 */
module Topology {
  import opened Levels

  /** Rows that have a visual offset in `getDistance` (the offset table has five entries). */
  type Row = r: int | 0 <= r < 5

  /** The `{ row, col }` record that `renderKB` stores for a key. */
  datatype Cell = Cell(row: Row, col: nat)

  /**
   * The game's `keys` Map: `cells` is its content, `order` the insertion
   * order in which `Map.forEach` visits it.
   */
  datatype KeyMap = KeyMap(order: seq<Key>, cells: map<Key, Cell>)

  const EmptyKeys: KeyMap := KeyMap([], map[])

  /** The insertion order lists every stored key exactly once and nothing else. */
  predicate ValidKeys(km: KeyMap) {
    Distinct(km.order) && km.cells.Keys == set k | k in km.order
  }

  /** `Map.set`: a new key is appended to the order, a present key keeps its place. */
  function MapSet(km: KeyMap, k: Key, c: Cell): (r: KeyMap)
    ensures r.cells == km.cells[k := c]
    ensures r.order == if k in km.cells then km.order else km.order + [k]
  {
    KeyMap(if k in km.cells then km.order else km.order + [k], km.cells[k := c])
  }

  /** The table after the inner `forEach` of `renderKB` has stored the keys of one row. */
  function AddRow(km: KeyMap, keys: seq<Key>, row: Row): (r: KeyMap)
    ensures |km.order| <= |r.order| <= |km.order| + |keys|
    decreases |keys|
  {
    if keys == [] then km
    else MapSet(AddRow(km, keys[..|keys| - 1], row), keys[|keys| - 1], Cell(row, |keys| - 1))
  }

  /** The table after the outer `forEach` of `renderKB` has stored the given rows. */
  function AddRows(km: KeyMap, rows: seq<seq<Key>>): (r: KeyMap)
    requires |rows| <= 5
    ensures |km.order| <= |r.order| <= |km.order| + |Flatten(rows)|
    decreases |rows|
  {
    if rows == [] then km
    else AddRow(AddRows(km, rows[..|rows| - 1]), rows[|rows| - 1], |rows| - 1)
  }

  /** The rows' keys in row-major order. */
  function Flatten(rows: seq<seq<Key>>): seq<Key>
    decreases |rows|
  {
    if rows == [] then [] else Flatten(rows[..|rows| - 1]) + rows[|rows| - 1]
  }

  /** The key table of the running game: `renderKB` applied to `KEYBOARD_LAYOUT`. */
  function RenderedKeys(): KeyMap {
    AddRows(EmptyKeys, KEYBOARD_LAYOUT)
  }

  /** After storing a row, the table holds exactly the keys it held before and the row's keys. */
  lemma {:induction false} AddRowDomain(km: KeyMap, keys: seq<Key>, row: Row)
    ensures forall k :: k in AddRow(km, keys, row).cells <==> k in km.cells || k in keys
    decreases |keys|
  {
    if keys != [] {
      var init := keys[..|keys| - 1];
      AddRowDomain(km, init, row);
      assert keys == init + [keys[|keys| - 1]];
    }
  }

  /** Storing a row of fresh, distinct keys appends them to the order. */
  lemma {:induction false} AddRowKeys(km: KeyMap, keys: seq<Key>, row: Row)
    requires Distinct(keys)
    requires forall k | k in keys :: k !in km.cells
    ensures AddRow(km, keys, row).order == km.order + keys
    decreases |keys|
  {
    if keys != [] {
      var n := |keys| - 1;
      var init, last := keys[..n], keys[n];
      DistinctSplitLast(keys);
      assert forall k | k in init :: k in keys;
      AddRowKeys(km, init, row);
      AddRowDomain(km, init, row);
      assert last !in AddRow(km, init, row).cells by {
        assert last in keys;
      }
      assert keys == init + [last];
    }
  }

  /**
   * Storing a row of fresh, distinct keys gives key `c` of the row the
   * cell (row, c).
   */
  lemma {:induction false} AddRowStores(km: KeyMap, keys: seq<Key>, row: Row)
    requires Distinct(keys)
    ensures forall c | 0 <= c < |keys| ::
      keys[c] in AddRow(km, keys, row).cells && AddRow(km, keys, row).cells[keys[c]] == Cell(row, c)
    decreases |keys|
  {
    if keys != [] {
      var n := |keys| - 1;
      var init, last := keys[..n], keys[n];
      DistinctSplitLast(keys);
      AddRowStores(km, init, row);
      var prev, r := AddRow(km, init, row), AddRow(km, keys, row);
      assert r.cells == prev.cells[last := Cell(row, n)];
      forall c | 0 <= c < |keys| ensures keys[c] in r.cells && r.cells[keys[c]] == Cell(row, c) {
        if c < n {
          assert keys[c] == init[c] && init[c] in init;
        }
      }
    }
  }

  /** Storing a row of keys absent from the table leaves the earlier entries alone. */
  lemma {:induction false} AddRowKeepsOld(km: KeyMap, keys: seq<Key>, row: Row)
    requires forall k | k in keys :: k !in km.cells
    ensures forall k | k in km.cells :: k in AddRow(km, keys, row).cells && AddRow(km, keys, row).cells[k] == km.cells[k]
    decreases |keys|
  {
    if keys != [] {
      var n := |keys| - 1;
      var init, last := keys[..n], keys[n];
      assert forall k | k in init :: k in keys;
      AddRowKeepsOld(km, init, row);
      assert last !in km.cells by {
        assert last in keys;
      }
    }
  }

  /** The first keys of a duplicate-free list have no duplicates and differ from the last one. */
  lemma DistinctSplitLast(keys: seq<Key>)
    requires Distinct(keys) && keys != []
    ensures Distinct(keys[..|keys| - 1])
    ensures keys[|keys| - 1] !in keys[..|keys| - 1]
  {
    var n := |keys| - 1;
    forall i | 0 <= i < n ensures keys[..n][i] != keys[n] {
      assert keys[..n][i] == keys[i];
    }
  }

  lemma DistinctPrefix(s: seq<Key>, t: seq<Key>)
    requires Distinct(s + t)
    ensures Distinct(s) && Distinct(t)
    ensures forall k | k in s :: k !in t
  {
    forall i, j | 0 <= i < j < |s| ensures s[i] != s[j] {
      assert (s + t)[i] == s[i] && (s + t)[j] == s[j];
    }
    forall i, j | 0 <= i < j < |t| ensures t[i] != t[j] {
      assert (s + t)[|s| + i] == t[i] && (s + t)[|s| + j] == t[j];
    }
    forall i, j | 0 <= i < |s| && 0 <= j < |t| ensures s[i] != t[j] {
      assert (s + t)[i] == s[i] && (s + t)[|s| + j] == t[j];
    }
  }

  /**
   * `renderKB` over rows whose keys are all distinct: the table's order is
   * the row-major listing and the key in row r, column c gets the cell (r, c).
   */
  lemma {:induction false} AddRowsStores(rows: seq<seq<Key>>)
    requires |rows| <= 5 && Distinct(Flatten(rows))
    ensures AddRows(EmptyKeys, rows).order == Flatten(rows)
    ensures AddRows(EmptyKeys, rows).cells.Keys == set k | k in Flatten(rows)
    ensures forall r, c | 0 <= r < |rows| && 0 <= c < |rows[r]| ::
      rows[r][c] in AddRows(EmptyKeys, rows).cells &&
      AddRows(EmptyKeys, rows).cells[rows[r][c]] == Cell(r, c)
    decreases |rows|
  {
    if rows != [] {
      var n := |rows| - 1;
      var init, last := rows[..n], rows[n];
      assert Flatten(rows) == Flatten(init) + last;
      DistinctPrefix(Flatten(init), last);
      AddRowsStores(init);
      var mid := AddRows(EmptyKeys, init);
      AddRowKeys(mid, last, n);
      AddRowDomain(mid, last, n);
      AddRowStores(mid, last, n);
      AddRowKeepsOld(mid, last, n);
      var res := AddRows(EmptyKeys, rows);
      assert res == AddRow(mid, last, n);
      forall r, c | 0 <= r < |rows| && 0 <= c < |rows[r]|
        ensures rows[r][c] in res.cells && res.cells[rows[r][c]] == Cell(r, c)
      {
        if r < n {
          assert rows[r][c] == init[r][c];
          assert init[r][c] in mid.cells && mid.cells[init[r][c]] == Cell(r, c);
        } else {
          assert rows[r] == last;
        }
      }
    }
  }

  lemma {:induction false} FlattenContains(rows: seq<seq<Key>>, r: nat, c: nat)
    requires r < |rows| && c < |rows[r]|
    ensures rows[r][c] in Flatten(rows)
    decreases |rows|
  {
    var init := rows[..|rows| - 1];
    assert Flatten(rows) == Flatten(init) + rows[|rows| - 1];
    if r < |rows| - 1 {
      assert rows[r] == init[r];
      FlattenContains(init, r, c);
    } else {
      assert rows[r][c] == Flatten(rows)[|Flatten(init)| + c];
    }
  }

  /**
   * The rendered table lists the 53 layout keys in row-major order and
   * gives each the row and column of its place in `KEYBOARD_LAYOUT`.
   */
  lemma RenderedKeysLayout()
    ensures RenderedKeys().order == LayoutKeys
    ensures ValidKeys(RenderedKeys())
    ensures RenderedKeys().cells.Keys == set k | k in LayoutKeys
    ensures forall r, c | 0 <= r < |KEYBOARD_LAYOUT| && 0 <= c < |KEYBOARD_LAYOUT[r]| ::
      RenderedKeys().cells[KEYBOARD_LAYOUT[r][c]] == Cell(r, c)
  {
    var L := KEYBOARD_LAYOUT;
    assert L[..0] == [];
    assert L[..1][..0] == [] && L[..2][..1] == L[..1] && L[..3][..2] == L[..2] && L[..4][..3] == L[..3];
    assert Flatten(L[..1]) == Row0;
    assert Flatten(L[..2]) == Row0 + Row1;
    assert Flatten(L[..3]) == Row0 + Row1 + Row2;
    assert L[..4] == L;
    assert Flatten(L) == LayoutKeys;
    LayoutShape();
    AddRowsStores(L);
  }

  /** The staggered-row neighbour rule of `isAdjacent` on two stored cells. */
  predicate CellsAdjacent(c1: Cell, c2: Cell)
    ensures CellsAdjacent(c1, c2) ==> c1 != c2 && Abs(c1.row - c2.row) <= 1 && Abs(c1.col - c2.col) <= 1
  {
    if c1.row == c2.row && Abs(c1.col - c2.col) == 1 then true
    else if Abs(c1.row - c2.row) == 1 then
      if c1.row < c2.row then 0 <= c1.col - c2.col <= 1
      else 0 <= c2.col - c1.col <= 1
    else false
  }

  function Abs(x: int): nat {
    if x < 0 then -x else x
  }

  /** `isAdjacent`: false when either key is not in the table. */
  predicate IsAdjacent(km: KeyMap, a: Key, b: Key)
    ensures IsAdjacent(km, a, b) ==> a in km.cells && b in km.cells && km.cells[a] != km.cells[b]
  {
    a in km.cells && b in km.cells && CellsAdjacent(km.cells[a], km.cells[b])
  }

  /** Adjacency is symmetric, irreflexive, and needs both keys to be stored. */
  lemma AdjacencyFacts(km: KeyMap, a: Key, b: Key)
    ensures IsAdjacent(km, a, b) == IsAdjacent(km, b, a)
    ensures !IsAdjacent(km, a, a)
    ensures a !in km.cells || b !in km.cells ==> !IsAdjacent(km, a, b)
  {}

  /** The keys of `s`, in order, that the loop of `getNeighbors` pushes for key `k`. */
  function NeighborsAmong(km: KeyMap, k: Key, s: seq<Key>): (ns: seq<Key>)
    ensures |ns| <= |s|
    decreases |s|
  {
    if s == [] then []
    else
      var x := s[|s| - 1];
      NeighborsAmong(km, k, s[..|s| - 1]) + (if x != k && IsAdjacent(km, k, x) then [x] else [])
  }

  /** `getNeighbors(k)`: the table's keys other than `k` adjacent to `k`, in table order. */
  function Neighbors(km: KeyMap, k: Key): (ns: seq<Key>)
    ensures |ns| <= |km.order|
  {
    NeighborsAmong(km, k, km.order)
  }

  /** A key is listed among the neighbours exactly when it is another adjacent key of `s`. */
  lemma {:induction false} NeighborsAmongExact(km: KeyMap, k: Key, s: seq<Key>, x: Key)
    ensures x in NeighborsAmong(km, k, s) <==> x in s && x != k && IsAdjacent(km, k, x)
    decreases |s|
  {
    if s != [] {
      var init := s[..|s| - 1];
      assert s == init + [s[|s| - 1]];
      NeighborsAmongExact(km, k, init, x);
    }
  }

  /** Position of the first occurrence of `x` in `s`. */
  function IndexOf(s: seq<Key>, x: Key): (i: nat)
    requires x in s
    ensures i < |s| && s[i] == x
    ensures forall j | 0 <= j < i :: s[j] != x
  {
    if s[0] == x then 0 else 1 + IndexOf(s[1..], x)
  }

  lemma {:induction false} IndexOfPrefix(s: seq<Key>, t: seq<Key>, x: Key)
    requires x in s
    ensures IndexOf(s + t, x) == IndexOf(s, x)
    decreases |s|
  {
    if s[0] != x {
      assert (s + t)[1..] == s[1..] + t;
      IndexOfPrefix(s[1..], t, x);
    }
  }

  /**
   * With a duplicate-free table order, the neighbours appear in strictly
   * increasing table position, i.e. in the layout's row-major order.
   */
  lemma {:induction false} NeighborsAmongOrdered(km: KeyMap, k: Key, s: seq<Key>)
    requires Distinct(s)
    ensures forall i, j | 0 <= i < j < |NeighborsAmong(km, k, s)| ::
      NeighborsAmong(km, k, s)[i] in s && NeighborsAmong(km, k, s)[j] in s &&
      IndexOf(s, NeighborsAmong(km, k, s)[i]) < IndexOf(s, NeighborsAmong(km, k, s)[j])
    decreases |s|
  {
    if s != [] {
      var n := |s| - 1;
      var init, x := s[..n], s[n];
      DistinctSplitLast(s);
      NeighborsAmongOrdered(km, k, init);
      var prev := NeighborsAmong(km, k, init);
      var ns := NeighborsAmong(km, k, s);
      forall y | y in prev ensures y in init && IndexOf(s, y) == IndexOf(init, y) < n {
        NeighborsAmongExact(km, k, init, y);
        assert s == init + [x];
        IndexOfPrefix(init, [x], y);
      }
      IndexOfLast(s);
      assert ns == prev + (if x != k && IsAdjacent(km, k, x) then [x] else []);
      forall i, j | 0 <= i < j < |ns|
        ensures ns[i] in s && ns[j] in s && IndexOf(s, ns[i]) < IndexOf(s, ns[j])
      {
        assert ns[i] == prev[i] && prev[i] in prev;
        if j < |prev| {
          assert ns[j] == prev[j] && prev[j] in prev;
        } else {
          assert ns[j] == x && IndexOf(s, x) == n;
        }
      }
    }
  }

  /** In a duplicate-free list the last key sits at the last position. */
  lemma IndexOfLast(s: seq<Key>)
    requires Distinct(s) && s != []
    ensures IndexOf(s, s[|s| - 1]) == |s| - 1
  {
    var n := |s| - 1;
    DistinctSplitLast(s);
    forall j | 0 <= j < n ensures s[j] != s[n] {
      assert s[j] == s[..n][j];
    }
  }

  /**
   * `getNeighbors` on a valid table: exactly the other keys adjacent to `k`,
   * each once, listed in table order.
   */
  lemma NeighborsSpec(km: KeyMap, k: Key)
    requires ValidKeys(km)
    ensures forall x :: x in Neighbors(km, k) <==> x in km.order && x != k && IsAdjacent(km, k, x)
    ensures forall i, j | 0 <= i < j < |Neighbors(km, k)| ::
      IndexOf(km.order, Neighbors(km, k)[i]) < IndexOf(km.order, Neighbors(km, k)[j])
    ensures Distinct(Neighbors(km, k))
  {
    forall x ensures x in Neighbors(km, k) <==> x in km.order && x != k && IsAdjacent(km, k, x) {
      NeighborsAmongExact(km, k, km.order, x);
    }
    NeighborsAmongOrdered(km, k, km.order);
    var ns := Neighbors(km, k);
    forall i, j | 0 <= i < j < |ns| ensures ns[i] != ns[j] {
    }
  }

  /** `getDistance`'s sentinel 999999, as the square of ten times it. */
  const Unreachable: nat := 9999990 * 9999990

  /** Ten times the row offsets 0, 1.5, 1.8, 2.3, 3.5 of `getVisualX`. */
  function RowOffset10(row: Row): int {
    if row == 0 then 0
    else if row == 1 then 15
    else if row == 2 then 18
    else if row == 3 then 23
    else 35
  }

  /** Ten times `getVisualX`: column plus row offset. */
  function VisualX10(c: Cell): (x: int)
    ensures 10 * c.col <= x <= 10 * c.col + 35
    ensures c.row == 0 <==> x == 10 * c.col
  {
    10 * c.col + RowOffset10(c.row)
  }

  /**
   * `getDistance`, squared and scaled: for stored keys, the square of ten
   * times the Euclidean distance between the keys' visual positions, so
   * that comparing two results compares the original distances.
   */
  function Distance(km: KeyMap, a: Key, b: Key): (d: nat)
    ensures a !in km.cells || b !in km.cells ==> d == Unreachable
    ensures a in km.cells && b in km.cells && km.cells[a] == km.cells[b] ==> d == 0
    ensures a in km.cells && b in km.cells && km.cells[a].row != km.cells[b].row ==> d >= 100
  {
    if a !in km.cells || b !in km.cells then Unreachable
    else
      var dx := VisualX10(km.cells[a]) - VisualX10(km.cells[b]);
      var dy := 10 * (km.cells[a].row - km.cells[b].row);
      Square(dx) + Square(dy)
  }

  function Square(x: int): (s: nat) {
    if x < 0 then (-x) * (-x) else x * x
  }

  /** Distance is symmetric, the sentinel for a missing key, and zero from a stored key to itself. */
  lemma DistanceFacts(km: KeyMap, a: Key, b: Key)
    ensures Distance(km, a, b) == Distance(km, b, a)
    ensures a !in km.cells || b !in km.cells ==> Distance(km, a, b) == Unreachable
    ensures a in km.cells ==> Distance(km, a, a) == 0
  {
    if a in km.cells && b in km.cells {
      var dx := VisualX10(km.cells[a]) - VisualX10(km.cells[b]);
      var dy := 10 * (km.cells[a].row - km.cells[b].row);
      assert Square(dx) == Square(-dx) && Square(dy) == Square(-dy);
    }
  }

  /** Distance between stored keys is zero exactly when they share their cell. */
  lemma DistanceZeroIffSameCell(km: KeyMap, a: Key, b: Key)
    requires a in km.cells && b in km.cells
    ensures Distance(km, a, b) == 0 <==> km.cells[a] == km.cells[b]
  {
    var c1, c2 := km.cells[a], km.cells[b];
    var dx := VisualX10(c1) - VisualX10(c2);
    var dy := 10 * (c1.row - c2.row);
    SquareZero(dx);
    SquareZero(dy);
  }

  lemma SquareZero(x: int)
    ensures Square(x) == 0 <==> x == 0
  {
    if x > 0 {
      assert x * x >= x;
    } else if x < 0 {
      assert (-x) * (-x) >= -x;
    }
  }

  /** On the rendered table, distinct keys always lie a positive distance apart. */
  lemma RenderedDistanceZeroIffSame(a: Key, b: Key)
    requires a in RenderedKeys().cells && b in RenderedKeys().cells
    ensures Distance(RenderedKeys(), a, b) == 0 <==> a == b
  {
    RenderedKeysLayout();
    DistanceZeroIffSameCell(RenderedKeys(), a, b);
    if a != b && RenderedKeys().cells[a] == RenderedKeys().cells[b] {
      RenderedCellsInjective(a, b);
    }
  }

  /** No two keys of the rendered table share a cell. */
  lemma RenderedCellsInjective(a: Key, b: Key)
    requires a in RenderedKeys().cells && b in RenderedKeys().cells && a != b
    ensures RenderedKeys().cells[a] != RenderedKeys().cells[b]
  {
    RenderedKeysLayout();
    var L := KEYBOARD_LAYOUT;
    var c1, c2 := RenderedKeys().cells[a], RenderedKeys().cells[b];
    LayoutPosition(a);
    LayoutPosition(b);
    var r1, k1 :| 0 <= r1 < |L| && 0 <= k1 < |L[r1]| && L[r1][k1] == a;
    var r2, k2 :| 0 <= r2 < |L| && 0 <= k2 < |L[r2]| && L[r2][k2] == b;
    assert c1 == Cell(r1, k1) && c2 == Cell(r2, k2);
  }

  /** Every layout key sits at some row and column of `KEYBOARD_LAYOUT`. */
  lemma LayoutPosition(k: Key)
    requires k in LayoutKeys
    ensures exists r, c :: 0 <= r < |KEYBOARD_LAYOUT| && 0 <= c < |KEYBOARD_LAYOUT[r]| && KEYBOARD_LAYOUT[r][c] == k
  {
    var L := KEYBOARD_LAYOUT;
    var i :| 0 <= i < |LayoutKeys| && LayoutKeys[i] == k;
    if i < 14 {
      assert L[0][i] == k;
    } else if i < 28 {
      assert L[1][i - 14] == k;
    } else if i < 41 {
      assert L[2][i - 28] == k;
    } else {
      assert L[3][i - 41] == k;
    }
  }
}
