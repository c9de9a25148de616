/** The `API` class: holds the player stats table and shapes it for the
    dashboard. `get_position` lists the distinct positions players are
    listed under; `extract_local_network` turns the made-shot columns into
    one (Player, Shot Type, Points) row per stats row and shot type,
    keeping only positive entries. */
module Api {
  import opened Common
  import opened Text

  /** One row of the stats table, reduced to the columns the dashboard
      reads. A None cell is missing (NaN). */
  datatype PlayerStats = PlayerStats(
    player: string,
    pos: Option<string>,
    team: Option<string>,
    pts: Option<real>,
    threes: Option<real>,
    twos: Option<real>,
    freeThrows: Option<real>)

  /** The stats table: the names of its columns and its rows. */
  datatype Stats = Stats(columns: set<string>, rows: seq<PlayerStats>)

  /** The made-shot columns melted into the Shot Type column. A Shot Type
      cell only ever holds one of these three column names. */
  datatype ShotType = ThreePointers | TwoPointers | FreeThrows

  /** The column name a shot type stands for, which is also its Shot Type
      label. */
  function Name(t: ShotType): (s: string)
    ensures s in ShotColumns
  {
    match t
    case ThreePointers => "3P"
    case TwoPointers => "2P"
    case FreeThrows => "FT"
  }

  /** The wide columns melted into Shot Type, in the order they are
      selected. */
  const ShotColumns: seq<string> := ["3P", "2P", "FT"]

  /** A row of the melted table, before the positive filter. */
  datatype MeltedRow = MeltedRow(player: string, shotType: ShotType, points: Option<real>)

  /** A row of the long table: (Player, Shot Type, Points). */
  datatype ShotRow = ShotRow(player: string, shotType: ShotType, points: real)

  /** The cell of one of the made-shot columns. */
  function ShotCell(r: PlayerStats, t: ShotType): Option<real>
  {
    match t
    case ThreePointers => r.threes
    case TwoPointers => r.twos
    case FreeThrows => r.freeThrows
  }

  // ---------------------------------------------------------------------
  // get_position

  /** `astype(str)` on a Pos cell: a missing cell becomes "nan". */
  function PosText(r: PlayerStats): string
  {
    match r.pos
    case Some(p) => p
    case None => "nan"
  }

  /** The copy's Pos column after `astype(str).str.upper()`. */
  function PosColumn(rows: seq<PlayerStats>): (col: seq<string>)
    ensures |col| == |rows|
  {
    seq(|rows|, i requires 0 <= i < |rows| => Upper(PosText(rows[i])))
  }

  /** Each cell of the copied Pos column: a missing Pos becomes "NAN",
      any other is upper-cased; either way no lower-case letter is left. */
  lemma PosColumnCell(rows: seq<PlayerStats>, i: int)
    requires 0 <= i < |rows|
    ensures rows[i].pos.None? ==> PosColumn(rows)[i] == "NAN"
    ensures rows[i].pos.Some? ==> PosColumn(rows)[i] == Upper(rows[i].pos.value)
    ensures NoLower(PosColumn(rows)[i])
  {
    if rows[i].pos.None? {
      var u := Upper("nan");
      assert u[0] == 'N' && u[1] == 'A' && u[2] == 'N';
      assert u == "NAN";
    }
  }

  /** The stripped forms of a list of parts. */
  function Stripped(parts: seq<string>): set<string>
  {
    if parts == [] then {} else Stripped(parts[..|parts| - 1]) + {Strip(parts[|parts| - 1])}
  }

  lemma {:induction false} StrippedMeans(parts: seq<string>, x: string)
    ensures x in Stripped(parts) <==> exists i :: 0 <= i < |parts| && x == Strip(parts[i])
  {
    if parts != [] {
      var n := |parts| - 1;
      StrippedMeans(parts[..n], x);
      assert Stripped(parts) == Stripped(parts[..n]) + {Strip(parts[n])};
      if exists i :: 0 <= i < n && x == Strip(parts[..n][i]) {
        var i :| 0 <= i < n && x == Strip(parts[..n][i]);
        assert parts[..n][i] == parts[i];
      }
      if exists i :: 0 <= i < |parts| && x == Strip(parts[i]) {
        var i :| 0 <= i < |parts| && x == Strip(parts[i]);
        if i < n {
          assert parts[..n][i] == parts[i];
        }
      }
    }
  }

  /** Taking one more part adds its stripped form. */
  lemma StrippedStep(parts: seq<string>, j: int)
    requires 0 <= j < |parts|
    ensures Stripped(parts[..j + 1]) == Stripped(parts[..j]) + {Strip(parts[j])}
  {
    assert parts[..j + 1][..j] == parts[..j];
  }

  /** The positions one Pos string lists: its parts split on ';', stripped. */
  function PartsOf(pos: string): set<string>
  {
    Stripped(Split(pos, ';'))
  }

  /** Reference definition of the positions a Pos column lists. */
  function Positions(col: seq<string>): set<string>
  {
    if col == [] then {} else Positions(col[..|col| - 1]) + PartsOf(col[|col| - 1])
  }

  /** Taking one more Pos string adds the positions it lists. */
  lemma PositionsStep(col: seq<string>, i: int)
    requires 0 <= i < |col|
    ensures Positions(col[..i + 1]) == Positions(col[..i]) + PartsOf(col[i])
  {
    assert col[..i + 1][..i] == col[..i];
  }

  /** A string is a listed position iff it is the stripped form of a
      ';'-separated part of some player's Pos. */
  lemma {:induction false} PositionsMeans(col: seq<string>, x: string)
    ensures x in Positions(col) <==> exists i :: 0 <= i < |col| && x in PartsOf(col[i])
  {
    if col != [] {
      var n := |col| - 1;
      var prefix := col[..n];
      PositionsMeans(prefix, x);
      assert Positions(col) == Positions(prefix) + PartsOf(col[n]);
      if x in Positions(prefix) {
        var i :| 0 <= i < n && x in PartsOf(prefix[i]);
        assert prefix[i] == col[i];
      } else if x in PartsOf(col[n]) {
        assert 0 <= n < |col| && x in PartsOf(col[n]);
      } else {
        forall i | 0 <= i < |col|
          ensures x !in PartsOf(col[i])
        {
          if i < n {
            assert prefix[i] == col[i];
          }
        }
      }
    }
  }

  /** Every position of an upper-cased Pos column is upper-case, carries no
      whitespace at either end and contains no ';'. */
  lemma PositionsShape(rows: seq<PlayerStats>, x: string)
    requires x in Positions(PosColumn(rows))
    ensures NoLower(x)
    ensures x == [] || (!IsSpace(x[0]) && !IsSpace(x[|x| - 1]))
    ensures ';' !in x
  {
    var col := PosColumn(rows);
    PositionsMeans(col, x);
    var i :| 0 <= i < |col| && x in PartsOf(col[i]);
    var parts := Split(col[i], ';');
    StrippedMeans(parts, x);
    var k :| 0 <= k < |parts| && x == Strip(parts[k]);
    assert NoLower(col[i]);
    SplitNoLower(col[i], ';');
    assert parts[k] in parts;
    StripNoLower(parts[k]);
    StripWithout(parts[k], ';');
    StripShape(parts[k]);
  }

  /** The loops of `get_position`: every ';'-separated part of every Pos
      string, stripped, added to the set `play`. */
  method CollectPositions(posColumn: seq<string>) returns (play: set<string>)
    ensures play == Positions(posColumn)
  {
    play := {};
    for i := 0 to |posColumn|
      invariant play == Positions(posColumn[..i])
    {
      var parts := Split(posColumn[i], ';');
      for j := 0 to |parts|
        invariant play == Positions(posColumn[..i]) + Stripped(parts[..j])
      {
        StrippedStep(parts, j);
        play := play + {Strip(parts[j])};
      }
      assert parts[..|parts|] == parts;
      PositionsStep(posColumn, i);
    }
    assert posColumn[..|posColumn|] == posColumn;
  }

  class API {
    /** `self.stats`: None until a table is loaded. */
    var stats: Option<Stats>

    constructor ()
      ensures stats == None
    {
      stats := None;
    }

    /** `load_stats`: the table `pd.read_csv` produced is the argument. */
    method LoadStats(table: Stats)
      modifies this
      ensures stats == Some(table)
    {
      stats := Some(table);
    }

    /** `get_position`: the sorted distinct positions. It has no modifies
        clause, so the stats table is left as it was. */
    method GetPosition() returns (r: Result<seq<string>, Error>)
      ensures stats.None? ==> r == Failure(AttributeError)
      ensures stats.Some? && "Pos" !in stats.value.columns ==> r == Failure(KeyError(["Pos"]))
      ensures stats.Some? && "Pos" in stats.value.columns ==>
        && r.Success?
        && Ascending(r.value)
        && forall x :: x in r.value <==> x in Positions(PosColumn(stats.value.rows))
    {
      if stats.None? {
        return Failure(AttributeError);
      }
      if "Pos" !in stats.value.columns {
        return Failure(KeyError(["Pos"]));
      }
      var players := stats.value.rows;
      var play := CollectPositions(PosColumn(players));
      r := Success(SortedSet(play));
    }

    /** `extract_local_network` on the loaded table; before a table is
        loaded, subscripting None raises TypeError. */
    function ExtractLocalNetwork(): (r: Result<seq<ShotRow>, Error>)
      reads this
      ensures stats.None? ==> r == Failure(TypeError)
      ensures stats.Some? ==> r == LocalNetwork(stats.value)
    {
      match stats
      case None => Failure(TypeError)
      case Some(table) => LocalNetwork(table)
    }
  }

  // ---------------------------------------------------------------------
  // extract_local_network

  /** The requested columns the table lacks, in the order requested. */
  function Absent(columns: set<string>, wanted: seq<string>): (m: seq<string>)
    ensures forall c :: c in m <==> c in wanted && c !in columns
    ensures |m| <= |wanted|
  {
    if wanted == [] then []
    else (if wanted[0] in columns then [] else [wanted[0]]) + Absent(columns, wanted[1..])
  }

  /** The missing columns are reported in the order they were asked for:
      the lookup of a concatenation reports each part's missing columns in
      turn. */
  lemma {:induction false} AbsentConcat(columns: set<string>, a: seq<string>, b: seq<string>)
    ensures Absent(columns, a + b) == Absent(columns, a) + Absent(columns, b)
  {
    if a == [] {
      assert a + b == b;
    } else {
      var x, t := a[0], a[1..];
      assert a == [x] + t;
      AppendAssoc([x], t, b);
      AbsentConcat(columns, t, b);
      AbsentCons(columns, x, t + b);
      AbsentCons(columns, x, t);
      AppendAssoc(if x in columns then [] else [x], Absent(columns, t), Absent(columns, b));
    }
  }

  /** One step of the lookup: the first wanted column, then the rest. */
  lemma AbsentCons(columns: set<string>, x: string, t: seq<string>)
    ensures Absent(columns, [x] + t) == (if x in columns then [] else [x]) + Absent(columns, t)
  {
    assert ([x] + t)[0] == x && ([x] + t)[1..] == t;
  }

  /** One wide column melted: (Player, col, that player's cell). */
  function MeltColumn(rows: seq<PlayerStats>, col: ShotType): (m: seq<MeltedRow>)
    ensures |m| == |rows|
    ensures forall i :: 0 <= i < |rows| ==> m[i] == MeltedRow(rows[i].player, col, ShotCell(rows[i], col))
  {
    seq(|rows|, i requires 0 <= i < |rows| => MeltedRow(rows[i].player, col, ShotCell(rows[i], col)))
  }

  /** `melt(id_vars=['Player'], var_name="Shot Type", value_name="Points")`:
      the whole 3P column, then 2P, then FT. */
  function Melt(rows: seq<PlayerStats>): seq<MeltedRow>
  {
    MeltColumn(rows, ThreePointers) + MeltColumn(rows, TwoPointers) + MeltColumn(rows, FreeThrows)
  }

  /** The melted table is three blocks of one row per stats row, in row
      order: the 3P cells, then the 2P cells, then the FT cells. */
  lemma MeltLayout(rows: seq<PlayerStats>)
    ensures |Melt(rows)| == 3 * |rows|
    ensures forall i :: 0 <= i < |rows| ==>
      && Melt(rows)[i] == MeltedRow(rows[i].player, ThreePointers, rows[i].threes)
      && Melt(rows)[|rows| + i] == MeltedRow(rows[i].player, TwoPointers, rows[i].twos)
      && Melt(rows)[2 * |rows| + i] == MeltedRow(rows[i].player, FreeThrows, rows[i].freeThrows)
  {
  }

  /** `scoring_data[scoring_data["Points"] > 0]`: NaN compares false. */
  function Positive(m: seq<MeltedRow>): (r: seq<ShotRow>)
    ensures |r| <= |m|
    ensures forall x :: x in r ==> x.points > 0.0
  {
    if m == [] then []
    else
      (if m[0].points.Some? && m[0].points.value > 0.0
       then [ShotRow(m[0].player, m[0].shotType, m[0].points.value)] else [])
      + Positive(m[1..])
  }

  /** The filter keeps the order: filtering a concatenation is
      concatenating the filtered parts. */
  lemma {:induction false} PositiveConcat(a: seq<MeltedRow>, b: seq<MeltedRow>)
    ensures Positive(a + b) == Positive(a) + Positive(b)
  {
    if a != [] {
      PositiveConcat(a[1..], b);
      assert (a + b)[1..] == a[1..] + b;
    } else {
      assert a + b == b;
    }
  }

  /** A row is kept iff it is a melted row with a positive Points cell. */
  lemma {:induction false} PositiveMeans(m: seq<MeltedRow>, x: ShotRow)
    ensures x in Positive(m) <==> x.points > 0.0 && MeltedRow(x.player, x.shotType, Some(x.points)) in m
  {
    if m != [] {
      PositiveMeans(m[1..], x);
      assert m == [m[0]] + m[1..];
    }
  }

  /** The melted rows of one column: one per stats row, carrying that
      row's player and cell. */
  lemma MeltColumnMeans(rows: seq<PlayerStats>, col: ShotType, t: MeltedRow)
    ensures t in MeltColumn(rows, col) <==>
      t.shotType == col && exists i :: 0 <= i < |rows| && rows[i].player == t.player && ShotCell(rows[i], col) == t.points
  {
    var m := MeltColumn(rows, col);
    if t in m {
      var i :| 0 <= i < |m| && m[i] == t;
      assert rows[i].player == t.player && ShotCell(rows[i], col) == t.points;
    }
    if t.shotType == col && exists i :: 0 <= i < |rows| && rows[i].player == t.player && ShotCell(rows[i], col) == t.points {
      var i :| 0 <= i < |rows| && rows[i].player == t.player && ShotCell(rows[i], col) == t.points;
      assert m[i] == t;
    }
  }

  /** The columns `extract_local_network` selects. */
  const LocalColumns: seq<string> := ["Player"] + ShotColumns

  /** Melting and filtering the rows of a table that has every selected
      column. */
  function Extracted(rows: seq<PlayerStats>): (r: seq<ShotRow>)
    ensures |r| <= 3 * |rows|
    ensures forall x :: x in r ==> x.points > 0.0
  {
    Positive(Melt(rows))
  }

  /** The pipeline of `extract_local_network` on a loaded table: the
      KeyError names the missing selected columns in the order selected. */
  function LocalNetwork(stats: Stats): (r: Result<seq<ShotRow>, Error>)
    ensures r.Failure? <==> Absent(stats.columns, LocalColumns) != []
    ensures r.Failure? ==> r.error == KeyError(Absent(stats.columns, LocalColumns))
    ensures r.Success? ==> r.value == Extracted(stats.rows)
  {
    var missing := Absent(stats.columns, LocalColumns);
    if missing != [] then Failure(KeyError(missing)) else Success(Extracted(stats.rows))
  }

  /** The extraction fails iff one of the selected columns is missing. */
  lemma LocalNetworkFails(stats: Stats)
    ensures LocalNetwork(stats).Failure? <==> exists c :: c in LocalColumns && c !in stats.columns
  {
    var missing := Absent(stats.columns, LocalColumns);
    if missing != [] {
      assert missing[0] in missing;
    }
  }

  /** Output order: the kept 3P rows in input order, then the kept 2P rows,
      then the kept FT rows. */
  lemma ExtractedOrder(rows: seq<PlayerStats>)
    ensures Extracted(rows)
         == Positive(MeltColumn(rows, ThreePointers))
          + Positive(MeltColumn(rows, TwoPointers))
          + Positive(MeltColumn(rows, FreeThrows))
  {
    var a, b, c := MeltColumn(rows, ThreePointers), MeltColumn(rows, TwoPointers), MeltColumn(rows, FreeThrows);
    PositiveConcat(a + b, c);
    PositiveConcat(a, b);
  }

  /** Some stats row of `x`'s player holds `x.points` in the made-shot
      column of `x`'s shot type. */
  predicate Made(rows: seq<PlayerStats>, x: ShotRow)
  {
    exists i :: 0 <= i < |rows| && rows[i].player == x.player && ShotCell(rows[i], x.shotType) == Some(x.points)
  }

  /** A row is in the output iff some player's cell in one of the three
      made-shot columns is positive and the row carries that player, that
      column as Shot Type and that cell as Points. */
  lemma ExtractedMembers(rows: seq<PlayerStats>, x: ShotRow)
    ensures x in Extracted(rows) <==> x.points > 0.0 && Made(rows, x)
  {
    var target := MeltedRow(x.player, x.shotType, Some(x.points));
    PositiveMeans(Melt(rows), x);
    MeltColumnMeans(rows, ThreePointers, target);
    MeltColumnMeans(rows, TwoPointers, target);
    MeltColumnMeans(rows, FreeThrows, target);
  }
}
