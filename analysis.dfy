/**
 * The analysis of the scraped records: `normalize_data` (one column per key
 * seen in any record, blanks filled with per-column defaults) and the
 * integer part of `problem_2_a` (minimum and maximum of the four numeric
 * columns).
 *
 * A row is a record as loaded: a map from column name to value, in which a
 * missing key stands for a blank (NaN) cell.
 */
module Analysis {
  import opened Wrappers
  import opened Records
  import opened Envelope
  import Fields

  type Row = Record

  /** The `fillna` table: the value a blank cell of each listed column takes. */
  const DEFAULTS: map<string, Value> := map[
    "id" := Str("-1"),
    "url" := Str(Fields.UNKNOWN),
    "Creators" := Str(Fields.UNKNOWN),
    "Title" := Str(Fields.UNKNOWN),
    "Text" := Str(Fields.UNKNOWN),
    "DollarsPledged" := Int(0),
    "DollarsGoal" := Int(0),
    "NumBackers" := Int(0),
    "DaysToGo" := Int(0),
    "FlexibleGoal" := Bool(false)
  ]

  /** The loop gathering `all_columns`: every key of every record. */
  method AllColumns(records: seq<Row>) returns (columns: set<string>)
    ensures forall k :: k in columns <==> exists i | 0 <= i < |records| :: k in records[i]
  {
    columns := {};
    for i := 0 to |records|
      invariant forall k :: k in columns <==> exists j | 0 <= j < i :: k in records[j]
    {
      columns := columns + records[i].Keys;
    }
  }

  /**
   * One row after `reindex(columns=...)` and `fillna(...)`: a column the
   * row has keeps its value, a blank listed in the defaults takes the
   * default, and a blank in any other column stays blank.
   */
  function FillRow(row: Row, columns: set<string>): (r: Row)
    ensures forall k :: k in r <==> k in columns && (k in row || k in DEFAULTS)
    ensures forall k | k in r :: r[k] == if k in row then row[k] else DEFAULTS[k]
  {
    map k | k in columns && (k in row || k in DEFAULTS) :: if k in row then row[k] else DEFAULTS[k]
  }

  /** The normalised frame: its column set and its rows. */
  datatype Table = Table(columns: set<string>, rows: seq<Row>)

  /**
   * `normalize_data(json_data)`: one row per record, in order; the columns
   * are the union of the records' keys; values present in a record are kept;
   * blanks are filled from the defaults where there is one.
   */
  method NormalizeData(records: seq<Row>) returns (t: Table)
    ensures forall k :: k in t.columns <==> exists i | 0 <= i < |records| :: k in records[i]
    ensures |t.rows| == |records|
    ensures forall i, k | 0 <= i < |records| && k in records[i] :: k in t.rows[i] && t.rows[i][k] == records[i][k]
    ensures forall i, k | 0 <= i < |records| && k in t.columns && k !in records[i] && k in DEFAULTS ::
      k in t.rows[i] && t.rows[i][k] == DEFAULTS[k]
    ensures forall i, k | 0 <= i < |records| && k !in records[i] && k !in DEFAULTS :: k !in t.rows[i]
    ensures forall i | 0 <= i < |records| :: t.rows[i].Keys <= t.columns
  {
    var columns := AllColumns(records);
    forall i, k | 0 <= i < |records| && k in records[i] ensures k in columns {
    }
    var rows := seq(|records|, i requires 0 <= i < |records| => FillRow(records[i], columns));
    t := Table(columns, rows);
  }

  /**
   * A record that already has every column comes out of the fill
   * unchanged: the extractor's -1 for a missing number is a present value
   * and is not replaced by the default 0.
   */
  lemma FillKeepsComplete(row: Row, columns: set<string>)
    requires row.Keys == columns
    ensures FillRow(row, columns) == row
  {
    var r := FillRow(row, columns);
    assert r.Keys == row.Keys;
  }

  /**
   * Records that all have the same keys (extracted records all have the
   * ten-key schema) are left unchanged by the normalisation: the columns
   * are exactly those keys and no cell is filled.
   */
  lemma NormalizeUniform(records: seq<Row>, keys: set<string>, columns: set<string>)
    requires records != []
    requires forall i | 0 <= i < |records| :: records[i].Keys == keys
    requires forall k :: k in columns <==> exists i | 0 <= i < |records| :: k in records[i]
    ensures columns == keys
    ensures forall i | 0 <= i < |records| :: FillRow(records[i], columns) == records[i]
  {
    UniformColumns(records, keys, columns);
    forall i | 0 <= i < |records| ensures FillRow(records[i], columns) == records[i] {
      FillKeepsComplete(records[i], columns);
    }
  }

  /** When every record has the same keys, the key union is exactly those keys. */
  lemma UniformColumns(records: seq<Row>, keys: set<string>, columns: set<string>)
    requires records != []
    requires forall i | 0 <= i < |records| :: records[i].Keys == keys
    requires forall k :: k in columns <==> exists i | 0 <= i < |records| :: k in records[i]
    ensures columns == keys
  {
    forall k | k in columns ensures k in keys {
      var i :| 0 <= i < |records| && k in records[i];
      assert k in records[i].Keys;
    }
    forall k | k in keys ensures k in columns {
      assert k in records[0];
    }
  }

  /** `numerical_vars` of `problem_2_a`. */
  const NUMERICAL_VARS: seq<string> := ["DollarsPledged", "DollarsGoal", "NumBackers", "DaysToGo"]

  /** A cell under `astype(int)`: integers stay, booleans become 0 or 1, blanks and text raise. */
  function CastInt(row: Row, column: string): (r: Option<int>)
    ensures r.Some? <==> column in row && !row[column].Str?
    ensures column in row && row[column].Int? ==> r == Some(row[column].i)
    ensures column in row && row[column].Bool? ==> r == Some(if row[column].b then 1 else 0)
  {
    if column !in row then None
    else match row[column]
      case Int(i) => Some(i)
      case Bool(b) => Some(if b then 1 else 0)
      case Str(_) => None
  }

  /**
   * `df[var].astype(int)`: the whole column cast, or `None` when the column
   * does not exist (no rows, so no columns) or some cell cannot be cast.
   */
  function Column(rows: seq<Row>, column: string): (r: Option<seq<int>>)
    ensures r.Some? <==> rows != [] && forall i | 0 <= i < |rows| :: CastInt(rows[i], column).Some?
    ensures r.Some? ==> |r.value| == |rows|
    ensures r.Some? ==> forall i | 0 <= i < |rows| :: Some(r.value[i]) == CastInt(rows[i], column)
  {
    if rows == [] || exists i | 0 <= i < |rows| :: CastInt(rows[i], column).None? then None
    else Some(seq(|rows|, i requires 0 <= i < |rows| => CastInt(rows[i], column).value))
  }

  /** The smallest and the largest value of a column. */
  datatype Stat = Stat(min: int, max: int)

  function MinOf(col: seq<int>): int
    requires col != []
  {
    if |col| == 1 then col[0]
    else var m := MinOf(col[..|col| - 1]); if col[|col| - 1] < m then col[|col| - 1] else m
  }

  function MaxOf(col: seq<int>): int
    requires col != []
  {
    if |col| == 1 then col[0]
    else var m := MaxOf(col[..|col| - 1]); if col[|col| - 1] > m then col[|col| - 1] else m
  }

  /** The minimum and the maximum are values of the column, and bound all of it. */
  lemma {:induction false} MinMaxBounds(col: seq<int>)
    requires col != []
    ensures MinOf(col) in col && MaxOf(col) in col
    ensures forall x | x in col :: MinOf(col) <= x <= MaxOf(col)
  {
    if |col| > 1 {
      var init := col[..|col| - 1];
      MinMaxBounds(init);
      assert col == init + [col[|col| - 1]];
    }
  }

  /**
   * `int(df[var].min())` and `int(df[var].max())` for one column; an empty
   * column has NaN for both, and `int(nan)` raises.
   */
  method ColumnMinMax(col: seq<int>) returns (s: Option<Stat>)
    ensures s.None? <==> col == []
    ensures s.Some? ==> s.value == Stat(MinOf(col), MaxOf(col))
  {
    if col == [] {
      return None;
    }
    var lo, hi := col[0], col[0];
    for i := 1 to |col|
      invariant lo == MinOf(col[..i]) && hi == MaxOf(col[..i])
    {
      assert col[..i + 1][..i] == col[..i];
      if col[i] < lo {
        lo := col[i];
      }
      if col[i] > hi {
        hi := col[i];
      }
    }
    assert col[..|col|] == col;
    s := Some(Stat(lo, hi));
  }

  /**
   * The integer part of `problem_2_a`: the cast loop raises on the first
   * column that cannot be cast (so no stats at all); otherwise the stats map
   * has exactly the four numeric columns, each with its minimum and maximum.
   */
  method Problem2A(rows: seq<Row>) returns (stats: Option<map<string, Stat>>)
    ensures stats.Some? <==> forall v | v in NUMERICAL_VARS :: Column(rows, v).Some?
    ensures stats.Some? ==> forall v :: v in stats.value <==> v in NUMERICAL_VARS
    ensures stats.Some? ==> forall v | v in NUMERICAL_VARS ::
      stats.value[v] == Stat(MinOf(Column(rows, v).value), MaxOf(Column(rows, v).value))
  {
    var cast: map<string, seq<int>> := map[];
    for j := 0 to |NUMERICAL_VARS|
      invariant forall v :: v in cast <==> v in NUMERICAL_VARS[..j]
      invariant forall v | v in cast :: Column(rows, v) == Some(cast[v]) && cast[v] != []
      invariant forall v | v in NUMERICAL_VARS[..j] :: Column(rows, v).Some?
    {
      var v := NUMERICAL_VARS[j];
      var c := Column(rows, v);
      if c.None? {
        return None;
      }
      var before := cast;
      cast := cast[v := c.value];
      PrefixStep(before.Keys, cast.Keys, NUMERICAL_VARS, j);
      assert NUMERICAL_VARS[..j + 1] == NUMERICAL_VARS[..j] + [v];
    }
    assert NUMERICAL_VARS[..|NUMERICAL_VARS|] == NUMERICAL_VARS;
    var result: map<string, Stat> := map[];
    for j := 0 to |NUMERICAL_VARS|
      invariant forall v :: v in result <==> v in NUMERICAL_VARS[..j]
      invariant forall v | v in result :: v in cast && result[v] == Stat(MinOf(cast[v]), MaxOf(cast[v]))
    {
      var v := NUMERICAL_VARS[j];
      var s := ColumnMinMax(cast[v]);
      var before := result;
      result := result[v := s.value];
      PrefixStep(before.Keys, result.Keys, NUMERICAL_VARS, j);
    }
    assert NUMERICAL_VARS[..|NUMERICAL_VARS|] == NUMERICAL_VARS;
    stats := Some(result);
  }

  /** Adding the next variable to a key set that covers a prefix covers the longer prefix. */
  lemma PrefixStep(before: set<string>, after: set<string>, vs: seq<string>, j: nat)
    requires j < |vs|
    requires forall v :: v in before <==> v in vs[..j]
    requires after == before + {vs[j]}
    ensures forall v :: v in after <==> v in vs[..j + 1]
  {
    assert vs[..j + 1] == vs[..j] + [vs[j]];
  }

  /** The numeric variables of the analysis are the extractor's numeric fields. */
  lemma NumericalVarsAreNumberKeys()
    ensures (set v | v in NUMERICAL_VARS) == NUMBER_KEYS
  {
    assert NUMERICAL_VARS[0] in NUMBER_KEYS && NUMERICAL_VARS[1] in NUMBER_KEYS;
    assert NUMERICAL_VARS[2] in NUMBER_KEYS && NUMERICAL_VARS[3] in NUMBER_KEYS;
  }

  /**
   * Extracted records always pass the cast, and every value in the four
   * numeric columns is the -1 sentinel or a non-negative count.
   */
  lemma ExtractedColumns(rows: seq<Row>, v: string)
    requires rows != []
    requires forall i | 0 <= i < |rows| :: WellTyped(rows[i])
    requires v in NUMBER_KEYS
    ensures Column(rows, v).Some?
    ensures forall i | 0 <= i < |rows| :: v in rows[i] && rows[i][v] == Int(Column(rows, v).value[i])
    ensures forall x | x in Column(rows, v).value :: x >= -1
  {
    forall i | 0 <= i < |rows| ensures rows[i][v].Int? && rows[i][v].i >= -1 {
      assert WellTyped(rows[i]);
    }
    var col := Column(rows, v).value;
    forall x | x in col ensures x >= -1 {
      var i :| 0 <= i < |col| && col[i] == x;
      assert Some(col[i]) == CastInt(rows[i], v);
    }
  }

  /** A -1 sentinel in any extracted record is the minimum of its column. */
  lemma SentinelIsMinimum(rows: seq<Row>, v: string, i: nat)
    requires forall i | 0 <= i < |rows| :: WellTyped(rows[i])
    requires v in NUMBER_KEYS
    requires i < |rows| && v in rows[i] && rows[i][v] == Int(-1)
    ensures Column(rows, v).Some? && MinOf(Column(rows, v).value) == -1
  {
    ExtractedColumns(rows, v);
    var col := Column(rows, v).value;
    MinMaxBounds(col);
    assert col[i] == -1;
    assert col[i] in col;
  }

  /**
   * The analysis of a scraper's output: the document loads back as the
   * extracted records, and every numeric column passes the cast, so
   * `problem_2_a` produces stats for all four variables.
   */
  lemma ScrapedDataHasStats(records: seq<Record>)
    requires records != []
    requires forall i | 0 <= i < |records| :: WellTyped(records[i])
    ensures LoadRecords(Wrap(records)) == Some(records)
    ensures forall v | v in NUMERICAL_VARS :: Column(records, v).Some?
  {
    LoadWrap(records);
    NumericalVarsAreNumberKeys();
    forall v | v in NUMERICAL_VARS ensures Column(records, v).Some? {
      assert v in set w | w in NUMERICAL_VARS;
      ExtractedColumns(records, v);
    }
  }
}
