/** The table of colors, brought in line with a canonical palette by restoring, creating,
    correcting and soft-deleting rows. */
module Palette {
  import opened Common

  datatype Group = WhiteGreyBlack | PurpleViolet | RedPink | OrangeYellow | Green | Blue | Brown

  datatype Color = Color(name: string, group: Group)

  /** A row, numbered by its place; `deleted` is when it was soft-deleted. */
  datatype Row = Row(name: string, group: Group, active: bool, deleted: Option<int>)

  predicate Distinct(palette: seq<Color>) {
    forall i, j :: 0 <= i < j < |palette| ==> palette[i].name != palette[j].name
  }

  predicate Live(row: Row, name: string) {
    row.name == name && row.deleted.None?
  }

  /** What the database enforces: no two live rows share a name. */
  predicate UniqueLive(rows: seq<Row>) {
    forall i, j :: 0 <= i < j < |rows| && rows[i].deleted.None? && rows[j].deleted.None? ==> rows[i].name != rows[j].name
  }

  /** A live row of that name among the first n. */
  function LiveRow(rows: seq<Row>, n: nat, name: string): (r: Option<nat>)
    requires n <= |rows|
    ensures r.Some? ==> r.value < n && Live(rows[r.value], name)
    ensures r.None? ==> forall i :: 0 <= i < n ==> !Live(rows[i], name)
  {
    if n == 0 then None else if Live(rows[n - 1], name) then Some(n - 1) else LiveRow(rows, n - 1, name)
  }

  /** Row i was deleted no later than row j; equal times go by row number. */
  predicate NoLater(rows: seq<Row>, i: nat, j: nat)
    requires i < |rows| && j < |rows| && rows[i].deleted.Some? && rows[j].deleted.Some?
  {
    rows[i].deleted.value < rows[j].deleted.value || (rows[i].deleted.value == rows[j].deleted.value && i <= j)
  }

  /** The latest deleted row of that name among the first n. */
  function LatestDeleted(rows: seq<Row>, n: nat, name: string): (r: Option<nat>)
    requires n <= |rows|
    ensures r.Some? ==> r.value < n && rows[r.value].name == name && rows[r.value].deleted.Some?
  {
    if n == 0 then None
    else
      var before := LatestDeleted(rows, n - 1, name);
      if rows[n - 1].name == name && rows[n - 1].deleted.Some? && (before.None? || NoLater(rows, before.value, n - 1))
      then Some(n - 1) else before
  }

  lemma {:induction false} LatestDeletedMeaning(rows: seq<Row>, n: nat, name: string)
    requires n <= |rows|
    ensures var r := LatestDeleted(rows, n, name);
            forall i :: 0 <= i < n && rows[i].name == name && rows[i].deleted.Some? ==>
                          r.Some? && NoLater(rows, i, r.value)
  {
    if n > 0 {
      LatestDeletedMeaning(rows, n - 1, name);
    }
  }

  /** The row that will carry a color: the live one, else the latest deleted one. */
  function Chosen(rows: seq<Row>, name: string): (r: Option<nat>)
    ensures r.Some? ==> r.value < |rows| && rows[r.value].name == name
  {
    var live := LiveRow(rows, |rows|, name);
    if live.Some? then live else LatestDeleted(rows, |rows|, name)
  }

  function Put(rows: seq<Row>, color: Color): seq<Row> {
    var row := Row(color.name, color.group, true, None);
    match Chosen(rows, color.name)
    case Some(k) => rows[k := row]
    case None => rows + [row]
  }

  /** The table after the first n colors have been put in place. */
  function Placed(rows: seq<Row>, palette: seq<Color>, n: nat): seq<Row>
    requires n <= |palette|
  {
    if n == 0 then rows else Put(Placed(rows, palette, n - 1), palette[n - 1])
  }

  predicate Named(palette: seq<Color>, name: string) {
    exists i :: 0 <= i < |palette| && palette[i].name == name
  }

  function Retired(rows: seq<Row>, palette: seq<Color>, now: int): (r: seq<Row>)
    ensures |r| == |rows|
  {
    seq(|rows|, i requires 0 <= i < |rows| =>
      if rows[i].deleted.None? && !Named(palette, rows[i].name) then rows[i].(deleted := Some(now)) else rows[i])
  }

  function Synced(rows: seq<Row>, palette: seq<Color>, now: int): seq<Row> {
    Retired(Placed(rows, palette, |palette|), palette, now)
  }

  class ColorTable {
    var rows: seq<Row>

    ghost predicate Valid()
      reads this
    {
      UniqueLive(rows)
    }

    method Restore(k: nat)
      requires Valid() && k < |rows| && forall i :: 0 <= i < |rows| ==> !Live(rows[i], rows[k].name)
      modifies this
      ensures Valid() && rows == old(rows)[k := old(rows)[k].(deleted := None)]
    {
      rows := rows[k := rows[k].(deleted := None)];
    }

    method Create(color: Color)
      requires Valid() && forall i :: 0 <= i < |rows| ==> !Live(rows[i], color.name)
      modifies this
      ensures Valid() && rows == old(rows) + [Row(color.name, color.group, true, None)]
    {
      rows := rows + [Row(color.name, color.group, true, None)];
    }

    method Correct(k: nat, group: Group)
      requires Valid() && k < |rows|
      modifies this
      ensures Valid() && rows == old(rows)[k := old(rows)[k].(group := group, active := true)]
    {
      var changed := false;
      var row := rows[k];
      if row.group != group {
        row := row.(group := group);
        changed := true;
      }
      if !row.active {
        row := row.(active := true);
        changed := true;
      }
      if changed {
        rows := rows[k := row];
      } else {
        assert row == rows[k].(group := group, active := true);
        assert rows[k := row] == rows;
      }
    }

    method PlaceColor(color: Color)
      requires Valid()
      modifies this
      ensures Valid() && rows == Put(old(rows), color)
    {
      var k := LiveRow(rows, |rows|, color.name);
      if k.None? {
        k := LatestDeleted(rows, |rows|, color.name);
        if k.None? {
          Create(color);
          return;
        }
        Restore(k.value);
      }
      Correct(k.value, color.group);
    }

    method RetireOthers(palette: seq<Color>, now: int)
      requires Valid()
      modifies this
      ensures Valid() && rows == Retired(old(rows), palette, now)
    {
      rows := Retired(rows, palette, now);
    }

    /** Bring the table in line with the palette. Every write on the way keeps the live names
        unique. */
    method Sync(palette: seq<Color>, now: int)
      requires Valid()
      modifies this
      ensures Valid() && rows == Synced(old(rows), palette, now)
    {
      for i := 0 to |palette|
        invariant Valid() && rows == Placed(old(rows), palette, i)
      {
        PlaceColor(palette[i]);
      }
      RetireOthers(palette, now);
    }
  }

  // ---- What a synchronization leaves ----

  predicate Carries(rows: seq<Row>, k: nat, color: Color) {
    k < |rows| && rows[k] == Row(color.name, color.group, true, None)
  }

  /** Rows of other names are as they were, and every new row has one of these names. */
  predicate OthersKept(rows: seq<Row>, after: seq<Row>, palette: seq<Color>) {
    && |rows| <= |after|
    && (forall k :: 0 <= k < |rows| ==> after[k].name == rows[k].name)
    && (forall k :: 0 <= k < |rows| && !Named(palette, rows[k].name) ==> after[k] == rows[k])
    && (forall k :: |rows| <= k < |after| ==> Named(palette, after[k].name))
  }

  /** The choice of a row depends only on the rows of that name. */
  lemma ChosenStable(rows: seq<Row>, after: seq<Row>, palette: seq<Color>, name: string)
    requires OthersKept(rows, after, palette) && !Named(palette, name)
    ensures Chosen(after, name) == Chosen(rows, name)
  {
    ChosenAmong(rows, after, palette, name, |rows|);
    NoneBeyond(after, name, |rows|, |after|);
  }

  lemma {:induction false} ChosenAmong(rows: seq<Row>, after: seq<Row>, palette: seq<Color>, name: string, n: nat)
    requires OthersKept(rows, after, palette) && !Named(palette, name) && n <= |rows|
    ensures LiveRow(after, n, name) == LiveRow(rows, n, name)
    ensures LatestDeleted(after, n, name) == LatestDeleted(rows, n, name)
  {
    if n > 0 {
      ChosenAmong(rows, after, palette, name, n - 1);
    }
  }

  lemma {:induction false} NoneBeyond(rows: seq<Row>, name: string, m: nat, n: nat)
    requires m <= n <= |rows| && forall k :: m <= k < n ==> rows[k].name != name
    ensures LiveRow(rows, n, name) == LiveRow(rows, m, name)
    ensures LatestDeleted(rows, n, name) == LatestDeleted(rows, m, name)
  {
    if m < n {
      NoneBeyond(rows, name, m, n - 1);
    }
  }

  lemma NamedNext(palette: seq<Color>, n: nat, name: string)
    requires n < |palette|
    ensures Named(palette[..n + 1], name) <==> Named(palette[..n], name) || palette[n].name == name
  {
    assert palette[..n + 1][n] == palette[n];
    if Named(palette[..n], name) {
      var i :| 0 <= i < n && palette[..n][i].name == name;
      assert palette[..n + 1][i].name == name;
    }
  }

  lemma FreshName(palette: seq<Color>, n: nat)
    requires Distinct(palette) && n < |palette|
    ensures !Named(palette[..n], palette[n].name)
  {
  }

  lemma KeptByNone(rows: seq<Row>, palette: seq<Color>)
    ensures OthersKept(rows, Placed(rows, palette, 0), palette[..0])
  {
  }

  lemma PlacedNext(rows: seq<Row>, palette: seq<Color>, n: nat)
    requires 0 < n <= |palette|
    ensures Placed(rows, palette, n) == Put(Placed(rows, palette, n - 1), palette[n - 1])
  {
  }

  lemma {:induction false} PlacedKeepsOthers(rows: seq<Row>, palette: seq<Color>, n: nat)
    requires Distinct(palette) && n <= |palette| && UniqueLive(rows)
    ensures UniqueLive(Placed(rows, palette, n))
    ensures OthersKept(rows, Placed(rows, palette, n), palette[..n])
  {
    if n == 0 {
      KeptByNone(rows, palette);
    } else {
      PlacedKeepsOthers(rows, palette, n - 1);
      PutKeeps(rows, Placed(rows, palette, n - 1), palette, n - 1);
      PlacedNext(rows, palette, n);
    }
  }

  lemma PutKeeps(rows: seq<Row>, middle: seq<Row>, palette: seq<Color>, n: nat)
    requires Distinct(palette) && n < |palette| && UniqueLive(middle) && OthersKept(rows, middle, palette[..n])
    ensures UniqueLive(Put(middle, palette[n]))
    ensures OthersKept(rows, Put(middle, palette[n]), palette[..n + 1])
  {
    var after := Put(middle, palette[n]);
    NamedNext(palette, n, palette[n].name);
    forall k | 0 <= k < |middle| ensures Named(palette[..n + 1], middle[k].name) <==>
                                         Named(palette[..n], middle[k].name) || palette[n].name == middle[k].name
    {
      NamedNext(palette, n, middle[k].name);
    }
  }

  /** Each color's row, once placed, is where the starting table says: on the row it chose,
      or new. */
  lemma {:induction false} PlacedCarries(rows: seq<Row>, palette: seq<Color>, n: nat, j: nat)
    requires Distinct(palette) && j < n <= |palette| && UniqueLive(rows)
    ensures var after, k := Placed(rows, palette, n), Chosen(rows, palette[j].name);
            && (k.Some? ==> Carries(after, k.value, palette[j]))
            && (k.None? ==> exists i :: |rows| <= i < |after| && Carries(after, i, palette[j]))
  {
    var before := Placed(rows, palette, n - 1);
    PlacedKeepsOthers(rows, palette, n - 1);
    FreshName(palette, n - 1);
    ChosenStable(rows, before, palette[..n - 1], palette[n - 1].name);
    if j < n - 1 {
      PlacedCarries(rows, palette, n - 1, j);
      var k := Chosen(rows, palette[j].name);
      if k.None? {
        var i :| |rows| <= i < |before| && Carries(before, i, palette[j]);
        assert Carries(Placed(rows, palette, n), i, palette[j]);
      }
    } else {
      PlacedNext(rows, palette, n);
      PutCarries(before, palette[j]);
    }
  }

  /** The color just put in place is on the row it chose, or on a new one at the end. */
  lemma PutCarries(rows: seq<Row>, color: Color)
    ensures Carries(Put(rows, color), Chosen(rows, color.name).GetOr(|rows|), color)
  {
  }

  ghost predicate Shown(rows: seq<Row>, color: Color) {
    exists k: nat :: Carries(rows, k, color)
  }

  predicate Belongs(rows: seq<Row>, k: nat, palette: seq<Color>) {
    exists j :: 0 <= j < |palette| && Carries(rows, k, palette[j])
  }

  /** The table shows the palette: each color on an active live row, and no other live rows. */
  ghost predicate Shows(rows: seq<Row>, palette: seq<Color>) {
    && UniqueLive(rows)
    && (forall j :: 0 <= j < |palette| ==> Shown(rows, palette[j]))
    && (forall k :: 0 <= k < |rows| && rows[k].deleted.None? ==> Belongs(rows, k, palette))
  }

  lemma NotRetired(rows: seq<Row>, palette: seq<Color>, now: int, k: nat, j: nat)
    requires j < |palette| && Carries(rows, k, palette[j])
    ensures Carries(Retired(rows, palette, now), k, palette[j])
  {
    assert Named(palette, palette[j].name);
  }

  /** A color ends on the row its name chose at the start, or on a new one. */
  lemma ColorShown(rows: seq<Row>, palette: seq<Color>, now: int, j: nat)
    requires Distinct(palette) && UniqueLive(rows) && j < |palette|
    ensures var after, chosen := Synced(rows, palette, now), Chosen(rows, palette[j].name);
            Shown(after, palette[j]) && (chosen.Some? ==> Carries(after, chosen.value, palette[j]))
  {
    var placed, chosen := Placed(rows, palette, |palette|), Chosen(rows, palette[j].name);
    PlacedCarries(rows, palette, |palette|, j);
    var k := if chosen.Some? then chosen.value else
               var i :| |rows| <= i < |placed| && Carries(placed, i, palette[j]); i;
    NotRetired(placed, palette, now, k, j);
  }

  lemma OnlyThePalette(rows: seq<Row>, palette: seq<Color>, now: int, k: nat)
    requires var after := Synced(rows, palette, now); k < |after| && after[k].deleted.None?
    requires var after := Synced(rows, palette, now);
             UniqueLive(after) && forall j :: 0 <= j < |palette| ==> Shown(after, palette[j])
    ensures Belongs(Synced(rows, palette, now), k, palette)
  {
    var after := Synced(rows, palette, now);
    var j :| 0 <= j < |palette| && palette[j].name == after[k].name;
    var i: nat :| Carries(after, i, palette[j]);
    assert i == k;
  }

  /** After a synchronization the live rows are exactly the palette's, all active, the latest
      deleted rows reused; no row is removed or renamed, and rows of other names only ever
      become deleted. */
  lemma SyncShowsPalette(rows: seq<Row>, palette: seq<Color>, now: int)
    requires Distinct(palette) && UniqueLive(rows)
    ensures var after := Synced(rows, palette, now);
            && Shows(after, palette)
            && |rows| <= |after| && (forall k :: 0 <= k < |rows| ==> after[k].name == rows[k].name)
            && (forall k :: 0 <= k < |rows| && !Named(palette, rows[k].name) ==>
                  after[k] == if rows[k].deleted.None? then rows[k].(deleted := Some(now)) else rows[k])
  {
    var after := Synced(rows, palette, now);
    assert palette[..|palette|] == palette;
    PlacedKeepsOthers(rows, palette, |palette|);
    assert UniqueLive(after);
    forall j | 0 <= j < |palette| ensures Shown(after, palette[j]) {
      ColorShown(rows, palette, now, j);
    }
    forall k | 0 <= k < |after| && after[k].deleted.None? ensures Belongs(after, k, palette) {
      OnlyThePalette(rows, palette, now, k);
    }
  }

  lemma NothingToPut(rows: seq<Row>, color: Color, k: nat)
    requires UniqueLive(rows) && Carries(rows, k, color)
    ensures Put(rows, color) == rows
  {
    var live := LiveRow(rows, |rows|, color.name);
    assert live == Some(k);
  }

  lemma {:induction false} NothingToPlace(rows: seq<Row>, palette: seq<Color>, n: nat)
    requires Shows(rows, palette) && n <= |palette|
    ensures Placed(rows, palette, n) == rows
  {
    if n > 0 {
      NothingToPlace(rows, palette, n - 1);
      assert Shown(rows, palette[n - 1]);
      var k: nat :| Carries(rows, k, palette[n - 1]);
      NothingToPut(rows, palette[n - 1], k);
    }
  }

  /** A table that shows the palette is left alone, so a second run changes nothing. */
  lemma SecondRunChangesNothing(rows: seq<Row>, palette: seq<Color>, now: int, later: int)
    requires Distinct(palette) && UniqueLive(rows)
    ensures var once := Synced(rows, palette, now); Synced(once, palette, later) == once
  {
    var once := Synced(rows, palette, now);
    SyncShowsPalette(rows, palette, now);
    NothingToPlace(once, palette, |palette|);
    forall k | 0 <= k < |once| && once[k].deleted.None? ensures Named(palette, once[k].name) {
      assert Belongs(once, k, palette);
    }
    assert Retired(once, palette, later) == once;
  }

  // ---- Which row a color takes ----

  /** A live row of the name is taken; without one, the row deleted last, and of several
      deleted at the same time the last of them; a new row only when no row has the name. */
  lemma ChosenMeaning(rows: seq<Row>, name: string, i: nat)
    requires UniqueLive(rows) && i < |rows| && rows[i].name == name
    ensures var k := Chosen(rows, name);
            && k.Some? && rows[k.value].name == name
            && (rows[i].deleted.None? ==> k.value == i)
            && (rows[k.value].deleted.Some? ==>
                  && rows[i].deleted.Some? && rows[i].deleted.value <= rows[k.value].deleted.value
                  && (rows[i].deleted.value == rows[k.value].deleted.value ==> i <= k.value))
  {
    LatestDeletedMeaning(rows, |rows|, name);
    if rows[i].deleted.None? {
      assert Live(rows[i], name);
    }
  }

  /** What putting one color in place writes. */
  lemma PutWrites(rows: seq<Row>, color: Color)
    ensures var after, k := Put(rows, color), Chosen(rows, color.name);
            && |after| == |rows| + (if k.None? then 1 else 0)
            && (forall i :: 0 <= i < |rows| && k != Some(i) ==> after[i] == rows[i])
            && var row := after[k.GetOr(|rows|)];
               row.name == color.name && row.group == color.group && row.active && row.deleted.None?
  {
  }
}
