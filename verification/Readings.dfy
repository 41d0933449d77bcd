/** Meter readings and their consumption (collections/exporters.ts), in thousandths of the unit. */
module Readings {
  import opened Common

  datatype Row = Row(device: int, value: int)

  // ----------------------------------------------------------------- specification

  /** The rows of one device, in order. */
  function Of(rows: seq<Row>, device: int): seq<Row> {
    if rows == [] then []
    else Of(rows[..|rows| - 1], device) + if rows[|rows| - 1].device == device then [rows[|rows| - 1]] else []
  }

  /** Last minus first reading. */
  function Span(own: seq<Row>): int {
    if own == [] then 0 else own[|own| - 1].value - own[0].value
  }

  /** The devices in the order of their first reading. */
  function Devices(rows: seq<Row>): seq<int> {
    if rows == [] then []
    else
      var before := Devices(rows[..|rows| - 1]);
      if rows[|rows| - 1].device in before then before else before + [rows[|rows| - 1].device]
  }

  function SpanOfAll(devices: seq<int>, rows: seq<Row>): int {
    if devices == [] then 0
    else SpanOfAll(devices[..|devices| - 1], rows) + Span(Of(rows, devices[|devices| - 1]))
  }

  /** Consumption since the device's previous reading; nothing for its first. */
  function Consumption(before: seq<Row>, row: Row): Option<int> {
    var own := Of(before, row.device);
    if own == [] then None else Some(row.value - own[|own| - 1].value)
  }

  function Total(cells: seq<Option<int>>): int {
    if cells == [] then 0
    else Total(cells[..|cells| - 1]) + if cells[|cells| - 1].Some? then cells[|cells| - 1].value else 0
  }

  /** The cells are each row's consumption since the previous reading of its device. */
  predicate AreCells(rows: seq<Row>, cells: seq<Option<int>>) {
    |cells| == |rows| && forall i: nat | i < |rows| :: cells[i] == Consumption(rows[..i], rows[i])
  }

  // -------------------------------------------------------------------- the method

  predicate LatestOf(last: map<int, int>, rows: seq<Row>, d: int) {
    var own := Of(rows, d);
    if own == [] then d !in last else d in last && last[d] == own[|own| - 1].value
  }

  /** The latest reading of each device read so far. */
  ghost predicate Latest(last: map<int, int>, rows: seq<Row>) {
    forall d: int :: LatestOf(last, rows, d)
  }

  lemma LatestGives(last: map<int, int>, rows: seq<Row>, row: Row)
    requires Latest(last, rows)
    ensures Consumption(rows, row) == if row.device in last then Some(row.value - last[row.device]) else None
  {
    assert LatestOf(last, rows, row.device);
  }

  lemma OfSnoc(rows: seq<Row>, i: nat, d: int)
    requires i < |rows|
    ensures Of(rows[..i + 1], d) == Of(rows[..i], d) + if rows[i].device == d then [rows[i]] else []
  {
    assert rows[..i + 1][..i] == rows[..i];
  }

  lemma LatestStep(last: map<int, int>, rows: seq<Row>, i: nat)
    requires i < |rows| && Latest(last, rows[..i])
    ensures Latest(last[rows[i].device := rows[i].value], rows[..i + 1])
  {
    var next, more := last[rows[i].device := rows[i].value], rows[..i + 1];
    forall d: int ensures LatestOf(next, more, d) {
      assert LatestOf(last, rows[..i], d);
      OfSnoc(rows, i, d);
    }
  }

  predicate CellsSoFar(rows: seq<Row>, cells: seq<Option<int>>) {
    |cells| <= |rows| && forall i: nat | i < |cells| :: cells[i] == Consumption(rows[..i], rows[i])
  }

  method ReadingCells(rows: seq<Row>) returns (cells: seq<Option<int>>)
    ensures AreCells(rows, cells)
  {
    var lastByDevice: map<int, int> := map[];
    cells := [];
    assert Latest(lastByDevice, rows[..0]);
    hide Of, Consumption;
    for i := 0 to |rows|
      invariant Latest(lastByDevice, rows[..i])
      invariant |cells| == i && CellsSoFar(rows, cells)
    {
      var r := rows[i];
      var previous := if r.device in lastByDevice then Some(lastByDevice[r.device]) else None;
      LatestStep(lastByDevice, rows, i);
      LatestGives(lastByDevice, rows[..i], r);
      lastByDevice := lastByDevice[r.device := r.value];
      cells := cells + [if previous == None then None else Some(r.value - previous.value)];
    }
  }

  method Footer(rows: seq<Row>, cells: seq<Option<int>>) returns (footer: Option<int>)
    ensures footer == if |rows| > 1 then Some(Total(cells)) else None
  {
    var total := 0;
    for i := 0 to |cells|
      invariant total == Total(cells[..i])
    {
      assert cells[..i + 1][..i] == cells[..i];
      total := total + if cells[i].Some? then cells[i].value else 0;
    }
    assert cells[..|cells|] == cells;
    footer := if |rows| > 1 then Some(total) else None;
  }

  // ------------------------------------------------------------------- telescoping

  predicate Distinct(ds: seq<int>) {
    forall i: nat, j: nat | i < j < |ds| :: ds[i] != ds[j]
  }

  lemma {:induction false} DevicesAre(rows: seq<Row>)
    ensures Distinct(Devices(rows))
    ensures forall d :: d in Devices(rows) <==> Of(rows, d) != []
    decreases |rows|
  {
    if rows != [] {
      DevicesAre(rows[..|rows| - 1]);
    }
  }

  lemma OfMore(before: seq<Row>, row: Row, d: int)
    ensures Of(before + [row], d) == if row.device == d then Of(before, d) + [row] else Of(before, d)
  {
    assert (before + [row])[..|before|] == before;
    assert Of(before, d) + [] == Of(before, d);
  }

  /** A device without a new reading adds what it added before. */
  lemma {:induction false} OthersKeep(ds: seq<int>, before: seq<Row>, row: Row)
    requires row.device !in ds
    ensures SpanOfAll(ds, before + [row]) == SpanOfAll(ds, before)
    decreases |ds|
  {
    if ds != [] {
      assert ds[|ds| - 1] in ds;
      OfMore(before, row, ds[|ds| - 1]);
      OthersKeep(ds[..|ds| - 1], before, row);
    }
  }

  lemma DistinctInit(ds: seq<int>)
    requires Distinct(ds) && ds != []
    ensures Distinct(ds[..|ds| - 1]) && ds[|ds| - 1] !in ds[..|ds| - 1]
    ensures ds == ds[..|ds| - 1] + [ds[|ds| - 1]]
  {
  }

  lemma SpanGrows(before: seq<Row>, row: Row)
    requires Of(before, row.device) != []
    ensures Consumption(before, row).Some?
    ensures Span(Of(before + [row], row.device)) == Span(Of(before, row.device)) + Consumption(before, row).value
  {
    OfMore(before, row, row.device);
  }

  /** A further reading of one of the devices adds its difference once. */
  lemma {:induction false} OneGrows(ds: seq<int>, before: seq<Row>, row: Row)
    requires Distinct(ds) && row.device in ds && Of(before, row.device) != []
    ensures Consumption(before, row).Some?
    ensures SpanOfAll(ds, before + [row]) == SpanOfAll(ds, before) + Consumption(before, row).value
    decreases |ds|
  {
    hide Of, Consumption, Span, Distinct;
    var d, rest := ds[|ds| - 1], ds[..|ds| - 1];
    DistinctInit(ds);
    SpanGrows(before, row);
    if d == row.device {
      OthersKeep(rest, before, row);
    } else {
      OfMore(before, row, d);
      OneGrows(rest, before, row);
    }
  }

  lemma NewDevice(ds: seq<int>, before: seq<Row>, row: Row)
    requires row.device !in ds && Of(before, row.device) == []
    ensures SpanOfAll(ds + [row.device], before + [row]) == SpanOfAll(ds, before)
  {
    OthersKeep(ds, before, row);
    assert (ds + [row.device])[..|ds|] == ds;
    OfMore(before, row, row.device);
    assert [] + [row] == [row];
  }

  /** One more row adds its consumption. */
  lemma SpanStep(before: seq<Row>, row: Row)
    ensures SpanOfAll(Devices(before + [row]), before + [row])
         == SpanOfAll(Devices(before), before)
            + if Consumption(before, row).Some? then Consumption(before, row).value else 0
  {
    assert (before + [row])[..|before|] == before;
    DevicesAre(before);
    if row.device in Devices(before) {
      OneGrows(Devices(before), before, row);
    } else {
      NewDevice(Devices(before), before, row);
    }
  }

  lemma CellsInit(rows: seq<Row>, cells: seq<Option<int>>)
    requires AreCells(rows, cells) && rows != []
    ensures |cells| == |rows| && AreCells(rows[..|rows| - 1], cells[..|rows| - 1])
    ensures cells[|rows| - 1] == Consumption(rows[..|rows| - 1], rows[|rows| - 1])
  {
    var n := |rows| - 1;
    forall i: nat | i < n ensures cells[..n][i] == Consumption(rows[..n][..i], rows[..n][i]) {
      assert rows[..n][..i] == rows[..i];
    }
  }

  lemma TotalStep(rows: seq<Row>, cells: seq<Option<int>>)
    requires AreCells(rows, cells) && rows != []
    requires var before := rows[..|rows| - 1];
             Total(cells[..|rows| - 1]) == SpanOfAll(Devices(before), before)
    ensures Total(cells) == SpanOfAll(Devices(rows), rows)
  {
    hide Devices, SpanOfAll, Consumption, AreCells;
    CellsInit(rows, cells);
    SpanStep(rows[..|rows| - 1], rows[|rows| - 1]);
    assert rows[..|rows| - 1] + [rows[|rows| - 1]] == rows;
  }

  /** The total is the sum over the devices of last minus first reading, however their readings interleave. */
  lemma {:induction false} TotalTelescopes(rows: seq<Row>, cells: seq<Option<int>>)
    requires AreCells(rows, cells)
    ensures Total(cells) == SpanOfAll(Devices(rows), rows)
    decreases |rows|
  {
    if rows != [] {
      CellsInit(rows, cells);
      TotalTelescopes(rows[..|rows| - 1], cells[..|rows| - 1]);
      TotalStep(rows, cells);
    }
  }

  /** The section of one meter: its cells, and as the footer the consumption summed over its devices. */
  method Section(rows: seq<Row>) returns (cells: seq<Option<int>>, footer: Option<int>)
    ensures AreCells(rows, cells)
    ensures footer == if |rows| > 1 then Some(SpanOfAll(Devices(rows), rows)) else None
  {
    cells := ReadingCells(rows);
    TotalTelescopes(rows, cells);
    footer := Footer(rows, cells);
  }

  // ----------------------------------------------------------------- device change

  predicate All(rows: seq<Row>, device: int) {
    forall i: nat | i < |rows| :: rows[i].device == device
  }

  lemma {:induction false} OfOne(a: seq<Row>, x: int, y: int)
    requires All(a, x) && x != y
    ensures Of(a, x) == a && Of(a, y) == []
    ensures Devices(a) == if a == [] then [] else [x]
  {
    if a != [] {
      var before, row := a[..|a| - 1], a[|a| - 1];
      assert row.device == x && a == before + [row];
      OfOne(before, x, y);
      OfMore(before, row, x);
      OfMore(before, row, y);
    }
  }

  lemma SplitLast(a: seq<Row>, b: seq<Row>)
    requires b != []
    ensures a + b == (a + b[..|b| - 1]) + [b[|b| - 1]]
  {
  }

  lemma {:induction false} OfPlus(a: seq<Row>, b: seq<Row>, d: int)
    ensures Of(a + b, d) == Of(a, d) + Of(b, d)
    decreases |b|
  {
    if b == [] {
      assert a + b == a && Of(a, d) + [] == Of(a, d);
    } else {
      SplitLast(a, b);
      OfPlus(a, b[..|b| - 1], d);
      OfMore(a + b[..|b| - 1], b[|b| - 1], d);
    }
  }

  lemma DevicesMore(before: seq<Row>, row: Row)
    ensures Devices(before + [row])
         == if row.device in Devices(before) then Devices(before) else Devices(before) + [row.device]
  {
    assert (before + [row])[..|before|] == before;
  }

  lemma {:induction false} DevicesOfTwo(a: seq<Row>, b: seq<Row>, x: int, y: int)
    requires All(b, y) && x != y && Devices(a) == [x]
    ensures Devices(a + b) == if b == [] then [x] else [x, y]
    decreases |b|
  {
    if b == [] {
      assert a + b == a;
    } else {
      SplitLast(a, b);
      assert b[|b| - 1].device == y;
      DevicesOfTwo(a, b[..|b| - 1], x, y);
      DevicesMore(a + b[..|b| - 1], b[|b| - 1]);
    }
  }

  lemma SpanOfTwo(rows: seq<Row>, x: int, y: int)
    ensures SpanOfAll([x, y], rows) == Span(Of(rows, x)) + Span(Of(rows, y))
  {
    assert [x, y][..1] == [x] && [x][..0] == [];
    assert SpanOfAll([x], rows) == Span(Of(rows, x));
  }

  /** After a device change consumption starts anew: the step between the two devices adds nothing. */
  lemma DeviceChangeAddsNothing(a: seq<Row>, b: seq<Row>, x: int, y: int, cells: seq<Option<int>>)
    requires a != [] && b != [] && All(a, x) && All(b, y) && x != y && AreCells(a + b, cells)
    ensures Total(cells) == (a[|a| - 1].value - a[0].value) + (b[|b| - 1].value - b[0].value)
  {
    hide Of, Devices, SpanOfAll, Consumption, AreCells, Total;
    TotalTelescopes(a + b, cells);
    OfOne(a, x, y);
    OfOne(b, y, x);
    OfPlus(a, b, x);
    OfPlus(a, b, y);
    DevicesOfTwo(a, b, x, y);
    SpanOfTwo(a + b, x, y);
    assert a + [] == a && [] + b == b;
  }
}
