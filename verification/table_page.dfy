/**
 * The table-layout page of the back office: a right-click menu placed at the
 * cursor and flipped away from the viewport's right and bottom edges, and
 * tables dragged over a map whose new position is clamped into the map, saved,
 * and put back to the stored position when the save fails. Positions and sizes
 * are whole pixels.
 */
module TablePage {
  import opened Wrappers

  /** Width and height of the context menu, as the flip assumes them. */
  const MenuWidth: int := 192
  const MenuHeight: int := 200

  /** Side of a table's square on the map (h-20 w-20). */
  const TableSize: int := 80

  /** The context menu: whether it shows, where, and for which table. */
  datatype ContextMenu = ContextMenu(show: bool, x: int, y: int, tableId: string)

  /** The page's initial menu state: hidden at (0, 0) for no table. */
  const InitialMenu: ContextMenu := ContextMenu(false, 0, 0, "")

  /** A point or offset on the map. */
  datatype Pos = Pos(x: int, y: int)

  /** A table as the API returns it; a table never placed has no stored position. */
  datatype Table = Table(slug: string, xPosition: Option<int>, yPosition: Option<int>)

  /** One coordinate of the menu: moved back by `size` when the menu would cross `limit`. */
  function Flip(at: int, size: int, limit: int): (placed: int)
    requires size > 0
    ensures placed == at || placed == at - size
    ensures placed == at - size <==> at + size > limit
    ensures placed == at ==> placed + size <= limit
  {
    if at + size > limit then at - size else at
  }

  /**
   * `handleContextMenu`: the menu opens for `tableId` at the cursor, moved left
   * by its width when it would cross the viewport's right edge and up by its
   * height when it would cross the bottom edge.
   */
  function OpenContextMenu(x: int, y: int, viewportWidth: int, viewportHeight: int, tableId: string): (m: ContextMenu)
    ensures m.show && m.tableId == tableId
    ensures m.x == x - MenuWidth <==> x + MenuWidth > viewportWidth
    ensures m.x != x - MenuWidth ==> m.x == x && m.x + MenuWidth <= viewportWidth
    ensures m.y == y - MenuHeight <==> y + MenuHeight > viewportHeight
    ensures m.y != y - MenuHeight ==> m.y == y && m.y + MenuHeight <= viewportHeight
  {
    ContextMenu(true, Flip(x, MenuWidth, viewportWidth), Flip(y, MenuHeight, viewportHeight), tableId)
  }

  /** A flipped menu ends exactly at the cursor, so the cursor stays on its edge. */
  lemma FlippedMenuEndsAtCursor(x: int, y: int, viewportWidth: int, viewportHeight: int, tableId: string)
    ensures var m := OpenContextMenu(x, y, viewportWidth, viewportHeight, tableId);
      && (x + MenuWidth > viewportWidth ==> m.x + MenuWidth == x)
      && (y + MenuHeight > viewportHeight ==> m.y + MenuHeight == y)
  {
  }

  /** The menu's `onOpenChange`: only its visibility changes. */
  function SetOpen(m: ContextMenu, open: bool): (r: ContextMenu)
    ensures r.show == open
    ensures r.x == m.x && r.y == m.y && r.tableId == m.tableId
  {
    m.(show := open)
  }

  /** Closing and reopening the menu brings it back where it was, for the same table. */
  lemma ReopenRestoresMenu(m: ContextMenu)
    requires m.show
    ensures SetOpen(SetOpen(m, false), true) == m
  {
  }

  /**
   * `handleStatusChange` and `handleDeleteTable` both put the menu back in the
   * page's initial state: hidden at (0, 0) with no table.
   */
  function AfterMenuAction(m: ContextMenu): (r: ContextMenu)
    ensures r == InitialMenu
    ensures !r.show && r.x == 0 && r.y == 0 && r.tableId == ""
  {
    InitialMenu
  }

  /** A second menu action after a first changes nothing, and a reset menu stays hidden if closed again. */
  lemma MenuActionIdempotent(m: ContextMenu)
    ensures AfterMenuAction(AfterMenuAction(m)) == AfterMenuAction(m)
    ensures SetOpen(AfterMenuAction(m), false) == InitialMenu
  {
  }

  /**
   * One coordinate of a dropped table (`Math.max(0, Math.min(v, extent - 80))`):
   * inside the map when the map can hold a table, 0 when it cannot, and
   * unchanged when already inside.
   */
  function Clamp(v: int, extent: int): (c: int)
    ensures c >= 0
    ensures extent >= TableSize ==> c <= extent - TableSize
    ensures extent < TableSize ==> c == 0
    ensures 0 <= v <= extent - TableSize ==> c == v
  {
    var bounded := if v <= extent - TableSize then v else extent - TableSize;
    if 0 >= bounded then 0 else bounded
  }

  /** Clamping twice is clamping once. */
  lemma ClampIdempotent(v: int, extent: int)
    ensures Clamp(Clamp(v, extent), extent) == Clamp(v, extent)
  {
  }

  /** When the map can hold a table, the clamp picks the allowed position nearest to `v`. */
  lemma ClampIsNearest(v: int, extent: int, w: int)
    requires extent >= TableSize && 0 <= w <= extent - TableSize
    ensures Dist(Clamp(v, extent), v) <= Dist(w, v)
  {
  }

  /** The distance between two coordinates. */
  function Dist(a: int, b: int): nat {
    if a >= b then a - b else b - a
  }

  /** The first table with the slug (`Array.prototype.find`). */
  function FindTable(tables: seq<Table>, slug: string): (r: Option<Table>)
    ensures r.None? <==> forall i :: 0 <= i < |tables| ==> tables[i].slug != slug
    ensures r.Some? ==> exists i :: 0 <= i < |tables| && tables[i] == r.value
                         && forall j :: 0 <= j < i ==> tables[j].slug != slug
    ensures r.Some? ==> r.value.slug == slug
  {
    if |tables| == 0 then None
    else if tables[0].slug == slug then Some(tables[0])
    else
      var r := FindTable(tables[1..], slug);
      assert forall i :: 0 <= i < |tables| - 1 ==> tables[1..][i] == tables[i + 1];
      r
  }

  /** The table's stored position, a missing coordinate read as 0. */
  function StoredPosition(t: Table): (p: Pos)
    ensures t.xPosition.Some? ==> p.x == t.xPosition.value
    ensures t.xPosition.None? ==> p.x == 0
    ensures t.yPosition.Some? ==> p.y == t.yPosition.value
    ensures t.yPosition.None? ==> p.y == 0
  {
    Pos(t.xPosition.GetOr(0), t.yPosition.GetOr(0))
  }

  /**
   * Where a drag starts: the position the page last set for the table, else
   * the stored position, else 0 for each coordinate.
   */
  function StartPosition(positions: map<string, Pos>, t: Table): (p: Pos)
    ensures t.slug in positions ==> p == positions[t.slug]
    ensures t.slug !in positions ==> p == StoredPosition(t)
  {
    if t.slug in positions then positions[t.slug] else StoredPosition(t)
  }

  /** What a drop leaves behind: the page's positions and the update sent, if any. */
  datatype DragOutcome = DragOutcome(positions: map<string, Pos>, sent: Option<Pos>)

  /**
   * `handleDragEnd`: nothing happens when the dragged table is not among the
   * loaded tables or the map is not mounted. Otherwise the start plus the drag
   * offset, clamped into the map, is shown and sent; if the update fails, the
   * table is shown at its stored position instead.
   */
  function HandleDragEnd(tables: Option<seq<Table>>, mapSize: Option<Pos>, positions: map<string, Pos>,
                         activeId: string, delta: Pos, updateFails: bool): (o: DragOutcome)
    ensures (tables.None? || FindTable(tables.value, activeId).None? || mapSize.None?) <==> o.sent.None?
    ensures o.sent.None? ==> o.positions == positions
    ensures o.sent.Some? ==> o.positions.Keys == positions.Keys + {activeId}
    ensures o.sent.Some? ==> forall id :: id in positions && id != activeId ==> o.positions[id] == positions[id]
    ensures o.sent.Some? ==>
              var t := FindTable(tables.value, activeId).value;
              var start := StartPosition(positions, t);
              o.sent.value == Pos(Clamp(start.x + delta.x, mapSize.value.x), Clamp(start.y + delta.y, mapSize.value.y))
    ensures o.sent.Some? && !updateFails ==> o.positions[activeId] == o.sent.value
    ensures o.sent.Some? && updateFails ==> o.positions[activeId] == StoredPosition(FindTable(tables.value, activeId).value)
  {
    var found := if tables.Some? then FindTable(tables.value, activeId) else None;
    if found.None? || mapSize.None? then DragOutcome(positions, None)
    else
      var t := found.value;
      var start := StartPosition(positions, t);
      var placed := Pos(Clamp(start.x + delta.x, mapSize.value.x), Clamp(start.y + delta.y, mapSize.value.y));
      var shown := positions[activeId := placed];
      if updateFails then DragOutcome(shown[activeId := StoredPosition(t)], Some(placed))
      else DragOutcome(shown, Some(placed))
  }

  /** A saved drop always lands inside a map that can hold a table. */
  lemma DropLandsInsideMap(tables: Option<seq<Table>>, mapSize: Option<Pos>, positions: map<string, Pos>,
                           activeId: string, delta: Pos)
    requires mapSize.Some? && mapSize.value.x >= TableSize && mapSize.value.y >= TableSize
    ensures var o := HandleDragEnd(tables, mapSize, positions, activeId, delta, false);
      o.sent.Some? ==>
        && 0 <= o.positions[activeId].x <= mapSize.value.x - TableSize
        && 0 <= o.positions[activeId].y <= mapSize.value.y - TableSize
  {
  }

  /** Dropping an in-bounds table without moving it keeps it where it is. */
  lemma StillDropKeepsPosition(tables: seq<Table>, mapSize: Pos, positions: map<string, Pos>, activeId: string)
    requires activeId in positions
    requires 0 <= positions[activeId].x <= mapSize.x - TableSize
    requires 0 <= positions[activeId].y <= mapSize.y - TableSize
    requires FindTable(tables, activeId).Some?
    ensures HandleDragEnd(Some(tables), Some(mapSize), positions, activeId, Pos(0, 0), false).positions == positions
  {
  }

  /**
   * A failed save does not restore the position the table had before the drag:
   * it discards earlier unsaved moves too and shows the stored position.
   */
  lemma FailedSaveForgetsEarlierMoves()
    ensures var t := Table("t1", Some(10), None);
      var before := map["t1" := Pos(300, 40)];
      HandleDragEnd(Some([t]), Some(Pos(1000, 800)), before, "t1", Pos(5, 5), true).positions
        == map["t1" := Pos(10, 0)]
  {
    var t := Table("t1", Some(10), None);
    assert FindTable([t], "t1") == Some(t);
  }
}
