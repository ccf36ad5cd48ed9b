/**
 The dashboard's tables: an incremental fill that patches only changed cells against a
 cache of the last rows, and a marker column that selection clicks repaint behind it.
 */
module RowTable {
  import opened Sequences

  type Row = seq<string>
  type Rows = seq<Row>

  const SELECT_MARK := "✓"

  ghost predicate Rectangular(rows: Rows, width: nat) {
    forall r :: 0 <= r < |rows| ==> |rows[r]| == width
  }

  /** A table on screen and the rows the last fill was given. */
  datatype View = View(cells: Rows, cache: Rows)

  ghost predicate SameSize(v: View, width: nat) {
    |v.cells| == |v.cache| && Rectangular(v.cells, width) && Rectangular(v.cache, width)
  }

  // ---------------------------------------------------------------------
  // The incremental fill
  // ---------------------------------------------------------------------

  predicate SameShape(cache: Rows, rows: Rows, id: Option<nat>)
    requires id.Some? ==> forall r :: 0 <= r < |rows| ==> id.value < |rows[r]|
    requires id.Some? ==> forall r :: 0 <= r < |cache| ==> id.value < |cache[r]|
  {
    id.Some? && |rows| == |cache| && forall r :: 0 <= r < |rows| ==> rows[r][id.value] == cache[r][id.value]
  }

  function Patch(shown: Row, was: Row, now: Row): Row
    requires |shown| == |was| == |now|
  {
    seq(|shown|, c requires 0 <= c < |shown| => if now[c] != was[c] then now[c] else shown[c])
  }

  /** What a fill does to a view. */
  function Fill(v: View, rows: Rows, id: Option<nat>, width: nat): View
    requires SameSize(v, width) && Rectangular(rows, width) && (id.Some? ==> id.value < width)
  {
    if rows == v.cache then v
    else if v.cache != [] && SameShape(v.cache, rows, id)
    then View(seq(|rows|, r requires 0 <= r < |rows| => Patch(v.cells[r], v.cache[r], rows[r])), rows)
    else View(rows, rows)
  }

  class DataTable {
    var cells: Rows

    constructor ()
      ensures cells == []
    {
      cells := [];
    }

    method UpdateCellAt(r: nat, c: nat, value: string)
      requires r < |cells| && c < |cells[r]|
      modifies this
      ensures cells == old(cells)[r := old(cells)[r][c := value]]
    {
      cells := cells[r := cells[r][c := value]];
    }

    method Clear()
      modifies this
      ensures cells == []
    {
      cells := [];
    }

    method AddRow(row: Row)
      modifies this
      ensures cells == old(cells) + [row]
    {
      cells := cells + [row];
    }
  }

  /** Redraw the cells of row `r` that differ from the cache. */
  method PatchRow(table: DataTable, r: nat, cached: Row, row: Row)
    requires r < |table.cells| && |table.cells[r]| == |cached| == |row|
    modifies table
    ensures table.cells == old(table.cells)[r := Patch(old(table.cells)[r], cached, row)]
  {
    ghost var before := table.cells;
    ghost var patched := Patch(before[r], cached, row);
    for col := 0 to |row|
      invariant |table.cells| == |before| && |table.cells[r]| == |row|
      invariant forall k :: 0 <= k < |before| && k != r ==> table.cells[k] == before[k]
      invariant forall c :: 0 <= c < |row| ==> table.cells[r][c] == if c < col then patched[c] else before[r][c]
    {
      if row[col] != cached[col] {
        table.UpdateCellAt(r, col, row[col]);
      }
    }
    assert table.cells[r] == patched;
  }

  /** Reconcile the table with `rows`; the new cache is returned. */
  method DiffFill(table: DataTable, rows: Rows, cache: Rows, id: Option<nat>, width: nat) returns (cached: Rows)
    requires SameSize(View(table.cells, cache), width) && Rectangular(rows, width)
    requires id.Some? ==> id.value < width
    modifies table
    ensures View(table.cells, cached) == Fill(View(old(table.cells), cache), rows, id, width)
  {
    if rows == cache {
      return cache;
    }
    ghost var before := table.cells;
    if cache != [] && SameShape(cache, rows, id) {
      for r := 0 to |rows|
        invariant |table.cells| == |rows|
        invariant forall k :: 0 <= k < r ==> table.cells[k] == Patch(before[k], cache[k], rows[k])
        invariant forall k :: r <= k < |rows| ==> table.cells[k] == before[k]
      {
        PatchRow(table, r, cache[r], rows[r]);
      }
    } else {
      table.Clear();
      for r := 0 to |rows|
        invariant table.cells == rows[..r]
      {
        table.AddRow(rows[r]);
      }
    }
    cached := rows;
  }

  // ---------------------------------------------------------------------
  // Filling agrees with clearing and rebuilding
  // ---------------------------------------------------------------------

  /** Columns `from` on show the cached rows. */
  ghost predicate ShowsFrom(v: View, from: nat, width: nat) {
    SameSize(v, width)
    && forall r, c :: 0 <= r < |v.cells| && from <= c < width ==> v.cells[r][c] == v.cache[r][c]
  }

  /** Main result: a fill makes every column that was in step with the cache show the new rows. */
  lemma FillShows(v: View, rows: Rows, id: Option<nat>, from: nat, width: nat)
    requires ShowsFrom(v, from, width) && Rectangular(rows, width) && (id.Some? ==> id.value < width)
    ensures var after := Fill(v, rows, id, width);
      after.cache == rows && ShowsFrom(after, from, width)
    ensures from == 0 ==> Fill(v, rows, id, width).cells == rows
  {
    var after := Fill(v, rows, id, width);
    if from == 0 {
      forall r | 0 <= r < |rows| ensures after.cells[r] == rows[r] {
        assert forall c :: 0 <= c < width ==> after.cells[r][c] == rows[r][c];
      }
    }
  }

  /**
   Over the loading placeholder, whose cached id no real row carries, any first fill
   rebuilds.
   */
  lemma FirstFillRebuilds(v: View, rows: Rows, id: nat, width: nat)
    requires SameSize(v, width) && Rectangular(rows, width) && id < width && v.cache != []
    requires forall r :: 0 <= r < |rows| ==> rows[r][id] != v.cache[0][id]
    ensures Fill(v, rows, Some(id), width) == View(rows, rows)
  {
    if rows != [] {
      assert rows[0][id] != v.cache[0][id];
    }
  }

  // ---------------------------------------------------------------------
  // The leases and deployments tables: a marker column over a selection
  // ---------------------------------------------------------------------

  /** One lease or deployment: its id and the cells after it. */
  datatype Item = Item(id: string, rest: Row)

  function Mark(id: string, sel: set<string>): string {
    if id in sel then SELECT_MARK else ""
  }

  function RowOf(item: Item, sel: set<string>): Row {
    [Mark(item.id, sel), item.id] + item.rest
  }

  /** The rows a clear-and-rebuild would show. */
  function RowsOf(items: seq<Item>, sel: set<string>): Rows {
    Map(item => RowOf(item, sel), items)
  }

  function Ids(items: seq<Item>): seq<string> {
    Map((item: Item) => item.id, items)
  }

  /** The pane: what the last fill was given, what is selected, and the range anchor. */
  datatype Pane = Pane(items: seq<Item>, sel: set<string>, anchor: Option<nat>, view: View)

  datatype Click = Plain | Shift | Ctrl

  /** The selection a click leaves, and the anchor. */
  function Clicked(ids: seq<string>, sel: set<string>, anchor: Option<nat>, row: nat, click: Click)
    : (set<string>, Option<nat>)
    requires row < |ids|
  {
    match click
    case Plain => ({}, Some(row))
    case Ctrl => (if ids[row] in sel then sel - {ids[row]} else sel + {ids[row]}, Some(row))
    case Shift =>
      var from := if anchor.Some? then anchor.value else row;
      var lo, hi := if from < row then from else row, if from < row then row else from;
      var end := if hi + 1 < |ids| then hi + 1 else |ids|;
      (sel + (set i | lo <= i < end :: ids[i]), anchor)
  }

  /** Redraw column 0 from the selection; the fill cache is left alone. */
  function Repainted(cells: Rows, ids: seq<string>, sel: set<string>): Rows {
    seq(|cells|, r requires 0 <= r < |cells| =>
      if r < |ids| && cells[r] != [] then cells[r][0 := Mark(ids[r], sel)] else cells[r])
  }

  method RepaintMarks(table: DataTable, ids: seq<string>, sel: set<string>)
    requires forall r :: 0 <= r < |table.cells| ==> table.cells[r] != []
    modifies table
    ensures table.cells == Repainted(old(table.cells), ids, sel)
  {
    ghost var before := table.cells;
    for r := 0 to |ids|
      invariant |table.cells| == |before|
      invariant forall k :: r <= k < |before| ==> table.cells[k] == before[k]
      invariant forall k :: 0 <= k < |before| && k < r ==> table.cells[k] == before[k][0 := Mark(ids[k], sel)]
    {
      if r < |table.cells| {
        table.UpdateCellAt(r, 0, Mark(ids[r], sel));
      }
    }
  }

  /** Selection ids of rows that are gone are forgotten at every fill. */
  function Kept(sel: set<string>, items: seq<Item>): set<string> {
    set id | id in sel && id in Ids(items)
  }

  datatype Action =
    | Refill(items: seq<Item>)
    | Select(row: nat, click: Click)
    | ForgetSelection  // a finished release or eviction clears the set, and repaints nothing

  ghost predicate Uniform(items: seq<Item>, width: nat) {
    forall i :: 0 <= i < |items| ==> |items[i].rest| + 2 == width
  }

  lemma RowsRectangular(items: seq<Item>, sel: set<string>, width: nat)
    requires Uniform(items, width)
    ensures Rectangular(RowsOf(items, sel), width)
  {}

  function Next(p: Pane, a: Action, width: nat): Pane
    requires width >= 2 && SameSize(p.view, width)
    requires a.Refill? ==> Uniform(a.items, width)
  {
    match a
    case Refill(items) =>
      var sel := Kept(p.sel, items);
      RowsRectangular(items, sel, width);
      Pane(items, sel, p.anchor, Fill(p.view, RowsOf(items, sel), Some(1), width))
    case Select(row, click) =>
      if row >= |p.items| then p else
        var (sel, anchor) := Clicked(Ids(p.items), p.sel, p.anchor, row, click);
        Pane(p.items, sel, anchor, p.view.(cells := Repainted(p.view.cells, Ids(p.items), sel)))
    case ForgetSelection => p.(sel := {})
  }

  /** `i` lies between `a` and `b`, ends included. */
  ghost predicate Between(i: int, a: int, b: int) {
    a <= i <= b || b <= i <= a
  }

  /**
   Main result: the selection a click leaves. A plain click clears it, a ctrl click toggles
   its row and nothing else, a shift click adds the rows from the anchor to its row without
   a gap; the first two move the anchor there, the last leaves it.
   */
  lemma ClickExactly(p: Pane, row: nat, click: Click, width: nat)
    requires width >= 2 && SameSize(p.view, width)
    ensures var next := Next(p, Select(row, click), width);
      if row >= |p.items| then next == p else
        var from := if p.anchor.Some? then p.anchor.value else row;
        && next.items == p.items && next.view.cache == p.view.cache
        && next.anchor == (if click == Shift then p.anchor else Some(row))
        && forall id :: id in next.sel <==>
             match click
             case Plain => false
             case Ctrl => if id == p.items[row].id then id !in p.sel else id in p.sel
             case Shift => id in p.sel || exists i :: 0 <= i < |p.items| && Between(i, from, row) && p.items[i].id == id
  {
    var next := Next(p, Select(row, click), width);
    if row < |p.items| {
      assert forall i :: 0 <= i < |p.items| ==> Ids(p.items)[i] == p.items[i].id;
      if click == Shift {
        var from := if p.anchor.Some? then p.anchor.value else row;
        forall id ensures id in next.sel <==>
          id in p.sel || exists i :: 0 <= i < |p.items| && Between(i, from, row) && p.items[i].id == id
        {
          if i :| 0 <= i < |p.items| && Between(i, from, row) && p.items[i].id == id {
            assert Ids(p.items)[i] == id;
          }
        }
      }
    }
  }

  /** What a click repaints: each marker says whether its row is selected, and no other cell moves. */
  lemma ClickRepaints(p: Pane, row: nat, click: Click, width: nat, r: nat)
    requires width >= 2 && SameSize(p.view, width) && |p.items| == |p.view.cells|
    requires row < |p.items| && r < |p.items|
    ensures var next := Next(p, Select(row, click), width);
      && next.view.cells[r][0] == (if p.items[r].id in next.sel then "✓" else "")
      && next.view.cells[r][1..] == p.view.cells[r][1..]
  {}

  /** A fill keeps the selected ids that are still there, and the anchor. */
  lemma RefillKeeps(p: Pane, items: seq<Item>, width: nat)
    requires width >= 2 && SameSize(p.view, width) && Uniform(items, width)
    ensures var next := Next(p, Refill(items), width);
      && next.items == items && next.anchor == p.anchor
      && forall id :: id in next.sel <==> id in p.sel && exists i :: 0 <= i < |items| && items[i].id == id
  {
    assert forall i :: 0 <= i < |items| ==> Ids(items)[i] == items[i].id;
  }

  /** Apart from the markers, the table shows the items of the last fill. */
  ghost predicate ShowsItems(p: Pane, width: nat) {
    width >= 2 && SameSize(p.view, width) && |p.items| == |p.view.cells| && Uniform(p.items, width)
    && (forall r :: 0 <= r < |p.items| ==> p.view.cache[r][1..] == [p.items[r].id] + p.items[r].rest)
    && (forall r :: 0 <= r < |p.items| ==> p.view.cells[r][1..] == [p.items[r].id] + p.items[r].rest)
  }

  /** The markers show the selection too: the table is the rebuilt one, cell for cell. */
  ghost predicate ShowsSelection(p: Pane) {
    p.view.cells == RowsOf(p.items, p.sel)
  }

  ghost predicate Uniformly(actions: seq<Action>, width: nat) {
    forall i :: 0 <= i < |actions| && actions[i].Refill? ==> Uniform(actions[i].items, width)
  }

  function Run(p: Pane, actions: seq<Action>, width: nat): (after: Pane)
    requires width >= 2 && SameSize(p.view, width) && Uniformly(actions, width)
    ensures SameSize(after.view, width)
  {
    if actions == [] then p else
      var before := Run(p, Init(actions), width);
      NextKeepsSize(before, Last(actions), width);
      Next(before, Last(actions), width)
  }

  lemma NextKeepsSize(p: Pane, a: Action, width: nat)
    requires width >= 2 && SameSize(p.view, width)
    requires a.Refill? ==> Uniform(a.items, width)
    ensures SameSize(Next(p, a, width).view, width)
  {
    if a.Refill? {
      RowsRectangular(a.items, Kept(p.sel, a.items), width);
    }
  }

  lemma ColumnsFromOne(p: Pane, width: nat)
    requires ShowsItems(p, width)
    ensures ShowsFrom(p.view, 1, width)
  {
    forall r, c | 0 <= r < |p.view.cells| && 1 <= c < width ensures p.view.cells[r][c] == p.view.cache[r][c] {
      assert p.view.cells[r][c] == p.view.cells[r][1..][c - 1];
      assert p.view.cache[r][c] == p.view.cache[r][1..][c - 1];
    }
  }

  lemma NextShowsItems(p: Pane, a: Action, width: nat)
    requires ShowsItems(p, width) && (a.Refill? ==> Uniform(a.items, width))
    ensures ShowsItems(Next(p, a, width), width)
  {
    var next := Next(p, a, width);
    match a {
      case Refill(items) =>
        var rows := RowsOf(items, next.sel);
        RowsRectangular(items, next.sel, width);
        ColumnsFromOne(p, width);
        FillShows(p.view, rows, Some(1), 1, width);
        forall r | 0 <= r < |items| ensures next.view.cells[r][1..] == rows[r][1..] {
          assert forall c :: 1 <= c < width ==> next.view.cells[r][c] == rows[r][c];
        }
      case Select(row, click) =>
      case ForgetSelection =>
    }
  }

  /** Main result: over every interleaving of fills, clicks and forgotten selections,
      every cell but the marker shows the last fill's items. */
  lemma {:induction false} CellsAlwaysFresh(p: Pane, actions: seq<Action>, width: nat)
    requires ShowsItems(p, width) && Uniformly(actions, width)
    ensures ShowsItems(Run(p, actions, width), width)
  {
    if actions != [] {
      CellsAlwaysFresh(p, Init(actions), width);
      NextShowsItems(Run(p, Init(actions), width), Last(actions), width);
    }
  }

  /** The marker on screen is wrong, and the cache would not have it redrawn. */
  ghost predicate Stale(p: Pane, items: seq<Item>, r: nat)
    requires r < |items| && r < |p.view.cells| == |p.view.cache|
    requires p.view.cells[r] != [] && p.view.cache[r] != []
  {
    var mark := Mark(items[r].id, Kept(p.sel, items));
    p.view.cells[r][0] != mark && p.view.cache[r][0] == mark
  }

  /** Exactly when a fill leaves the markers right: other rows than before, or none stale. */
  lemma MarkersAfterFill(p: Pane, items: seq<Item>, width: nat)
    requires ShowsItems(p, width) && Uniform(items, width)
    ensures ShowsSelection(Next(p, Refill(items), width))
       <==> (Ids(items) == Ids(p.items) ==> forall r :: 0 <= r < |items| && r < |p.items| ==> !Stale(p, items, r))
  {
    var sel := Kept(p.sel, items);
    var rows := RowsOf(items, sel);
    var next := Next(p, Refill(items), width);
    RowsRectangular(items, sel, width);
    NextShowsItems(p, Refill(items), width);
    SameShapeIsSameIds(p, items, sel, width);
    if Ids(items) == Ids(p.items) {
      assert |items| == |Ids(items)| == |p.items|;
      forall r | 0 <= r < |items|
        ensures next.view.cells[r] == rows[r] <==> !Stale(p, items, r)
      {
        assert next.view.cells[r] == [next.view.cells[r][0]] + next.view.cells[r][1..];
        assert rows[r] == [rows[r][0]] + rows[r][1..];
      }
    } else {
      assert next.view.cells == rows;
    }
  }

  lemma SameShapeIsSameIds(p: Pane, items: seq<Item>, sel: set<string>, width: nat)
    requires ShowsItems(p, width) && Uniform(items, width)
    requires Rectangular(RowsOf(items, sel), width)
    ensures SameShape(p.view.cache, RowsOf(items, sel), Some(1)) <==> Ids(items) == Ids(p.items)
  {
    forall r | 0 <= r < |p.items| ensures p.view.cache[r][1] == p.items[r].id {
      assert p.view.cache[r][1] == p.view.cache[r][1..][0];
    }
    if SameShape(p.view.cache, RowsOf(items, sel), Some(1)) {
      forall r | 0 <= r < |items| ensures Ids(items)[r] == Ids(p.items)[r] {
        assert RowsOf(items, sel)[r][1] == items[r].id;
      }
    }
    if Ids(items) == Ids(p.items) {
      forall r | 0 <= r < |items| ensures items[r].id == p.items[r].id {
        assert Ids(items)[r] == Ids(p.items)[r];
      }
    }
  }

  lemma NextShowsSelection(p: Pane, a: Action, width: nat)
    requires ShowsItems(p, width) && ShowsSelection(p) && !a.ForgetSelection?
    requires a.Refill? ==> Uniform(a.items, width)
    ensures ShowsSelection(Next(p, a, width))
  {
    match a {
      case Refill(items) =>
        MarkersAfterFill(p, items, width);
        if Ids(items) == Ids(p.items) {
          forall r | 0 <= r < |items| && r < |p.items| ensures !Stale(p, items, r) {
            assert Ids(items)[r] == Ids(p.items)[r];
          }
        }
      case Select(row, click) =>
        if row < |p.items| {
          var next := Next(p, a, width);
          forall r | 0 <= r < |p.items| ensures next.view.cells[r] == RowOf(p.items[r], next.sel) {}
        }
    }
  }

  /**
   Main result: as long as every change of the selection repaints, any interleaving of
   fills and clicks leaves the table exactly as a clear-and-rebuild would.
   */
  lemma {:induction false} ClicksAndFillsRebuild(p: Pane, actions: seq<Action>, width: nat)
    requires ShowsItems(p, width) && ShowsSelection(p) && Uniformly(actions, width)
    requires forall i :: 0 <= i < |actions| ==> !actions[i].ForgetSelection?
    ensures ShowsSelection(Run(p, actions, width))
  {
    if actions != [] {
      ClicksAndFillsRebuild(p, Init(actions), width);
      CellsAlwaysFresh(p, Init(actions), width);
      NextShowsSelection(Run(p, Init(actions), width), Last(actions), width);
    }
  }

  /** The leases and deployments tables as they are mounted: no rows, none cached. */
  const MOUNTED := Pane([], {}, None, View([], []))

  /**
   From the mounted tables on, every run shows the last fill's items, and without forgotten
   selections their marks.
   */
  lemma MountedRuns(actions: seq<Action>, width: nat)
    requires width >= 2 && Uniformly(actions, width)
    ensures ShowsItems(Run(MOUNTED, actions, width), width)
    ensures (forall i :: 0 <= i < |actions| ==> !actions[i].ForgetSelection?) ==>
        ShowsSelection(Run(MOUNTED, actions, width))
  {
    assert ShowsItems(MOUNTED, width) && ShowsSelection(MOUNTED);
    CellsAlwaysFresh(MOUNTED, actions, width);
    if forall i :: 0 <= i < |actions| ==> !actions[i].ForgetSelection? {
      ClicksAndFillsRebuild(MOUNTED, actions, width);
    }
  }

  // ---------------------------------------------------------------------
  // The container and GPU tables: fills over a loading note
  // ---------------------------------------------------------------------

  const LOADING := "__loading__"

  /** A loading note on screen, and a cached row no poll produces. */
  function Loading(note: Row): View {
    View([note], [seq(|note|, i => LOADING)])
  }

  /** Rows of a real poll: none has the sentinel for its id. */
  ghost predicate Polled(rows: Rows, id: nat, width: nat) {
    Rectangular(rows, width) && id < width && forall r :: 0 <= r < |rows| ==> rows[r][id] != LOADING
  }

  ghost predicate AllPolled(polls: seq<Rows>, id: nat, width: nat) {
    forall k :: 0 <= k < |polls| ==> Polled(polls[k], id, width)
  }

  function Fills(v: View, polls: seq<Rows>, id: nat, width: nat): (after: View)
    requires SameSize(v, width) && AllPolled(polls, id, width)
    ensures SameSize(after, width)
  {
    if polls == [] then v else
      assert Polled(Last(polls), id, width);
      Fill(Fills(v, Init(polls), id, width), Last(polls), Some(id), width)
  }

  /**
   Once a first poll is in, an empty one included, the table shows the rows of the last one and
   nothing of the note.
   */
  lemma {:induction false} FillsOverLoading(note: Row, polls: seq<Rows>, id: nat)
    requires polls != [] && AllPolled(polls, id, |note|)
    ensures var after := Fills(Loading(note), polls, id, |note|);
      after.cells == Last(polls) && after.cache == Last(polls)
  {
    assert Polled(Last(polls), id, |note|);
    var before := Fills(Loading(note), Init(polls), id, |note|);
    if |polls| == 1 {
      assert before == Loading(note);
      FirstFillRebuilds(before, Last(polls), id, |note|);
    } else {
      FillsOverLoading(note, Init(polls), id);
      FillShows(before, Last(polls), Some(id), 0, |note|);
    }
  }

  /** A forgotten selection can leave its mark: fill, tick a row, forget, fill again. */
  lemma StaleMarkExample()
    ensures var items := [Item("grp-a", [])];
      var start := Pane(items, {}, None, View([["", "grp-a"]], [["", "grp-a"]]));
      var end := Run(start, [Select(0, Ctrl), ForgetSelection, Refill(items)], 2);
      ShowsItems(start, 2) && ShowsSelection(start)
      && end.sel == {} && end.view.cells == [[SELECT_MARK, "grp-a"]]
  {
    var items := [Item("grp-a", [])];
    var start := Pane(items, {}, None, View([["", "grp-a"]], [["", "grp-a"]]));
    var actions := [Select(0, Ctrl), ForgetSelection, Refill(items)];
    var ticked := Next(start, Select(0, Ctrl), 2);
    assert ticked.sel == {"grp-a"} && Ids(items) == ["grp-a"];
    assert Mark("grp-a", ticked.sel) == SELECT_MARK;
    assert ticked.view.cells[0] == ["", "grp-a"][0 := SELECT_MARK] == [SELECT_MARK, "grp-a"];
    assert ticked.view.cells == [[SELECT_MARK, "grp-a"]];
    assert Init(actions) == [Select(0, Ctrl), ForgetSelection];
    assert Init([Select(0, Ctrl), ForgetSelection]) == [Select(0, Ctrl)];
    assert Init([Select(0, Ctrl)]) == [];
    assert RowOf(items[0], {}) == ["", "grp-a"];
    assert RowsOf(items, {}) == [["", "grp-a"]];
  }
}
