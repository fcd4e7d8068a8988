/*
 * `hydrate_dataframe`: brings a generated table to the column list of its
 * warehouse schema. Every schema column the table lacks is added with a
 * default chosen from the column's lower-cased name (and, last, its SQL
 * type); then the table is cut down to the schema's columns in the
 * schema's order. Columns the table already has are never touched.
 */
module Hydration {
  import opened Text
  import opened GeneratorRules
  import opened Tables

  /** One value of a polars column. */
  datatype Cell = NullCell | IntCell(i: int) | RealCell(x: real) | BoolCell(b: bool) | TextCell(s: string)

  /** A frame by columns: the names in order, each name's cells, and the row count. */
  datatype Table = Table(names: seq<string>, columns: map<string, seq<Cell>>, height: nat)

  predicate NoRepeats(names: seq<string>) {
    forall i, j :: 0 <= i < j < |names| ==> names[i] != names[j]
  }

  /** Distinct names, one column per name, every column `height` long. */
  ghost predicate Valid(t: Table) {
    NoRepeats(t.names)
    && (forall c :: c in t.columns <==> c in t.names)
    && forall c :: c in t.columns ==> |t.columns[c]| == t.height
  }

  /** One row of the schema CSV: `column_name` and `data_type`. */
  datatype SchemaColumn = SchemaColumn(name: string, dataType: string)

  function Names(schema: seq<SchemaColumn>): (r: seq<string>)
    ensures |r| == |schema|
    ensures forall k :: 0 <= k < |schema| ==> r[k] == schema[k].name
  {
    seq(|schema|, k requires 0 <= k < |schema| => schema[k].name)
  }

  const AllTradesColumn := "all_trades_count"

  /** The literal or expression `hydrate_dataframe` aliases to a missing column. */
  datatype Default =
    | NullLiteral
    | IntLiteral(n: int)
    | RealZero
    | FlagFalse
    | FlagYes
      /** `all_trades_count` times a per-row draw in [0.6, 0.9), cast to Int32. */
    | ShareOfAllTrades
      /** `all_trades_count * 0.3` cast to Int32. */
    | ThirtyPercentOfAllTrades

  /**
   * The heuristic default for a missing column, tried in order: ids, counts,
   * amounts, ratios, dates, flags, then the SQL type. `hasAllTrades` says
   * whether the frame being hydrated has `all_trades_count`.
   */
  function DefaultFor(name: string, dataType: string, hasAllTrades: bool): (d: Default)
    ensures Contains(Lower(name), "_id") ==> d == NullLiteral
    ensures Contains(Lower(name), "count") && !Contains(Lower(name), "_id") ==>
      d.IntLiteral? || d.ShareOfAllTrades? || d.ThirtyPercentOfAllTrades?
    ensures d.ShareOfAllTrades? || d.ThirtyPercentOfAllTrades? ==>
      hasAllTrades && Contains(Lower(name), "count") && Contains(Lower(name), "trade")
    ensures d.ShareOfAllTrades? ==> Contains(Lower(name), "open")
  {
    var n := Lower(name);
    if Contains(n, "_id") then NullLiteral
    else if Contains(n, "count") then
      if Contains(n, "delinq") || Contains(n, "past_due") then IntLiteral(0)
      else if Contains(n, "inquir") then IntLiteral(1)
      else if Contains(n, "trade") then
        if Contains(n, "open") && hasAllTrades then ShareOfAllTrades
        else if hasAllTrades then ThirtyPercentOfAllTrades
        else IntLiteral(3)
      else IntLiteral(0)
    else if Contains(n, "amount") || Contains(n, "balance") || Contains(n, "limit") then RealZero
    else if Contains(n, "ratio") || Contains(n, "pct") then RealZero
    else if Contains(n, "date") then NullLiteral
    else if Contains(n, "flag") || Contains(n, "indicator") then
      if Contains(n, "match") then FlagYes else FlagFalse
    else if Contains(dataType, "VARCHAR") then NullLiteral
    else if Contains(dataType, "INT") || Contains(dataType, "DECIMAL") then IntLiteral(0)
    else NullLiteral
  }

  predicate Numeric(c: Cell) {
    c.NullCell? || c.IntCell? || c.RealCell?
  }

  /** `all_trades_count`, when present, holds numbers: polars raises on multiplying anything else. */
  predicate TradesNumeric(t: Table) {
    AllTradesColumn in t.columns ==>
      forall i :: 0 <= i < |t.columns[AllTradesColumn]| ==> Numeric(t.columns[AllTradesColumn][i])
  }

  /** The per-row draws `0.6 + random * 0.3` each open-trades default takes. */
  ghost predicate DrawsFit(t: Table, draws: string -> seq<real>) {
    forall c :: |draws(c)| == t.height && forall i :: 0 <= i < t.height ==> 0.6 <= draws(c)[i] < 0.9
  }

  /** One cell of an Int32 cast of `all_trades_count * f`; null stays null. */
  function ScaledCell(c: Cell, f: real): (r: Cell)
    requires 0.0 <= f < 0.9
    ensures c.IntCell? && 0 <= c.i ==> r.IntCell? && 0 <= r.i <= c.i
    ensures c.IntCell? && 1 <= c.i ==> r.i < c.i
    ensures c.NullCell? ==> r.NullCell?
  {
    if c.IntCell? then
      if 0 <= c.i then IntCell(Trunc(ScaleCount(c.i, f))) else IntCell(Trunc(c.i as real * f))
    else if c.RealCell? then IntCell(Trunc(c.x * f))
    else NullCell
  }

  /** A count scaled by a factor in [0, 0.9). */
  function ScaleCount(n: nat, f: real): (x: real)
    requires 0.0 <= f < 0.9
    ensures x == n as real * f
    ensures 0.0 <= x <= n as real * 0.9
  {
    ScaleMonotone(n, 0.0, f);
    ScaleMonotone(n, f, 0.9);
    n as real * f
  }

  /** The cells of a missing column under default `d`. */
  function Fill(d: Default, t: Table, draws: seq<real>): (col: seq<Cell>)
    requires Valid(t) && TradesNumeric(t)
    requires |draws| == t.height && forall i :: 0 <= i < |draws| ==> 0.6 <= draws[i] < 0.9
    requires d.ShareOfAllTrades? || d.ThirtyPercentOfAllTrades? ==> AllTradesColumn in t.columns
    ensures |col| == t.height
  {
    match d
    case NullLiteral => seq(t.height, _ => NullCell)
    case IntLiteral(n) => seq(t.height, _ => IntCell(n))
    case RealZero => seq(t.height, _ => RealCell(0.0))
    case FlagFalse => seq(t.height, _ => BoolCell(false))
    case FlagYes => seq(t.height, _ => TextCell("Y"))
    case ShareOfAllTrades =>
      var all := t.columns[AllTradesColumn];
      seq(t.height, i requires 0 <= i < t.height => ScaledCell(all[i], draws[i]))
    case ThirtyPercentOfAllTrades =>
      var all := t.columns[AllTradesColumn];
      seq(t.height, i requires 0 <= i < t.height => ScaledCell(all[i], 0.3))
  }

  /** The column hydration leaves under schema column `s`: the table's own, or the default. */
  function ColumnFor(t: Table, s: SchemaColumn, draws: string -> seq<real>): (col: seq<Cell>)
    requires Valid(t) && TradesNumeric(t) && DrawsFit(t, draws)
    ensures |col| == t.height
  {
    if s.name in t.columns then t.columns[s.name]
    else Fill(DefaultFor(s.name, s.dataType, AllTradesColumn in t.columns), t, draws(s.name))
  }

  /** `r` is `t` hydrated against `schema`: the schema's columns, in its order, each its `ColumnFor`. */
  ghost predicate HydratedFrom(r: Table, t: Table, schema: seq<SchemaColumn>, draws: string -> seq<real>)
    requires Valid(t) && TradesNumeric(t) && DrawsFit(t, draws)
  {
    r.names == Names(schema) && r.height == t.height
    && (forall c :: c in r.columns <==> c in r.names)
    && forall k :: 0 <= k < |schema| ==>
      schema[k].name in r.columns && r.columns[schema[k].name] == ColumnFor(t, schema[k], draws)
  }

  /** `[c for c in names if c in columns]`. */
  function Present(names: seq<string>, columns: map<string, seq<Cell>>): (r: seq<string>)
    ensures forall c :: c in r <==> c in names && c in columns
    ensures (forall k :: 0 <= k < |names| ==> names[k] in columns) ==> r == names
  {
    if names == [] then []
    else
      var rest := Present(names[1..], columns);
      assert forall c :: c in names <==> c == names[0] || c in names[1..];
      if names[0] in columns then [names[0]] + rest else rest
  }

  /**
   * `hydrate_dataframe(df, table_name)`. With no schema (`load_schema`
   * returned None) the table comes back as it is.
   */
  method Hydrate(t: Table, schema: Option<seq<SchemaColumn>>, draws: string -> seq<real>) returns (r: Table)
    requires Valid(t) && TradesNumeric(t) && DrawsFit(t, draws)
    requires schema.Some? ==> NoRepeats(Names(schema.value))
    ensures schema.None? ==> r == t
    ensures schema.Some? ==> Valid(r) && HydratedFrom(r, t, schema.value, draws)
  {
    if schema.None? {
      return t;
    }
    var required := schema.value;
    // 1. `new_exprs`: a default for each schema column the frame lacks
    var added: map<string, seq<Cell>> := map[];
    var k := 0;
    while k < |required|
      invariant 0 <= k <= |required|
      invariant forall c :: c in added ==> c !in t.columns
      invariant forall j :: 0 <= j < k && required[j].name !in t.columns ==>
        required[j].name in added && added[required[j].name] == ColumnFor(t, required[j], draws)
    {
      var col := required[k];
      if col.name !in t.columns {
        added := added[col.name := Fill(DefaultFor(col.name, col.dataType, AllTradesColumn in t.columns), t, draws(col.name))];
      }
      k := k + 1;
    }
    // 2. `with_columns(new_exprs)`, then `select` of the schema columns present, in schema order
    var widened := t.columns + added;
    var kept := Present(Names(required), widened);
    assert kept == Names(required);
    r := Table(kept, map c | c in kept :: widened[c], t.height);
    forall j | 0 <= j < |required|
      ensures r.columns[required[j].name] == ColumnFor(t, required[j], draws)
    {
      assert Names(required)[j] == required[j].name;
    }
  }

  /** Hydrating an already hydrated table against the same schema changes nothing. */
  lemma HydrateTwice(t: Table, schema: seq<SchemaColumn>, draws: string -> seq<real>,
                     r: Table, draws2: string -> seq<real>, r2: Table)
    requires Valid(t) && TradesNumeric(t) && DrawsFit(t, draws) && HydratedFrom(r, t, schema, draws)
    requires Valid(r) && TradesNumeric(r) && DrawsFit(r, draws2) && HydratedFrom(r2, r, schema, draws2)
    ensures r2 == r
  {
    forall c | c in r2.columns
      ensures c in r.columns && r2.columns[c] == r.columns[c]
    {
      var k :| 0 <= k < |schema| && Names(schema)[k] == c;
    }
    assert r2.columns == r.columns;
  }

  /** A missing id column is never guessed: every cell is null. */
  lemma IdColumnsStayNull(t: Table, schema: seq<SchemaColumn>, draws: string -> seq<real>, r: Table, k: nat)
    requires Valid(t) && TradesNumeric(t) && DrawsFit(t, draws) && HydratedFrom(r, t, schema, draws)
    requires k < |schema| && schema[k].name !in t.columns && Contains(Lower(schema[k].name), "_id")
    ensures forall i :: 0 <= i < r.height ==> r.columns[schema[k].name][i] == NullCell
  {
  }

  /**
   * A trade count filled in from `all_trades_count` never exceeds it on a
   * row with a non-negative count, and an open-trades count stays strictly
   * below it once the row has a trade: the hydrated frame keeps
   * `all_trades_open_count <= all_trades_count` (SANITY-043).
   */
  lemma TradeDefaultsWithinAllTrades(t: Table, schema: seq<SchemaColumn>, draws: string -> seq<real>, r: Table, k: nat, i: nat)
    requires Valid(t) && TradesNumeric(t) && DrawsFit(t, draws) && HydratedFrom(r, t, schema, draws)
    requires k < |schema| && schema[k].name !in t.columns
    requires Contains(Lower(schema[k].name), "count") && Contains(Lower(schema[k].name), "trade")
    requires AllTradesColumn in t.columns && i < t.height
    requires t.columns[AllTradesColumn][i].IntCell? && 0 <= t.columns[AllTradesColumn][i].i
    ensures var d := DefaultFor(schema[k].name, schema[k].dataType, true);
      d.ShareOfAllTrades? || d.ThirtyPercentOfAllTrades? ==>
        var all := t.columns[AllTradesColumn][i].i;
        var cell := r.columns[schema[k].name][i];
        cell.IntCell? && 0 <= cell.i <= all && (d.ShareOfAllTrades? && 1 <= all ==> cell.i < all)
  {
  }
}
