/**
 * `conda_env_list`: the environment names in the text `conda env list`
 * prints, one per line that has a name column.
 */
module EnvList {
  import opened Wrappers
  import opened Text
  import Seqs

  /** The name on one line: its first token, if the line has at least two and the first is not `#`. */
  function EnvName(line: string): (name: Option<string>)
    ensures name.Some? ==> Word(name.value) && name.value != "#"
  {
    var parts := Words(line);
    if |parts| >= 2 && parts[0] != "#" then Some(parts[0]) else None
  }

  /** `filter_map` of `EnvName` over the lines, in line order. */
  function EnvNames(lines: seq<string>): (names: seq<string>)
    ensures |names| <= |lines|
    ensures forall k :: 0 <= k < |names| ==> Word(names[k]) && names[k] != "#"
  {
    if lines == [] then []
    else
      (match EnvName(lines[0]) { case Some(n) => [n] case None => [] })
      + EnvNames(lines[1..])
  }

  /** `conda_env_list` once conda's output (or the failure to get it) is in hand. */
  function CondaEnvList(query: Result<string>): (r: Result<seq<string>>)
    ensures query.Err? ==> r == Err(query.error)
    ensures query.Ok? ==> r.Ok? && forall k :: 0 <= k < |r.value| ==> Word(r.value[k]) && r.value[k] != "#"
  {
    match query
    case Err(e) => Err(e)
    case Ok(stdout) => Ok(EnvNames(SplitLines(stdout)))
  }

  // ---------------------------------------------------------------------
  // Properties

  /** Names come out in line order: the lines of a split listing give the names of each part. */
  lemma {:induction false} EnvNamesAppend(a: seq<string>, b: seq<string>)
    ensures EnvNames(a + b) == EnvNames(a) + EnvNames(b)
  {
    if a == [] {
      assert a + b == b;
    } else {
      assert (a + b)[0] == a[0];
      assert (a + b)[1..] == a[1..] + b;
      EnvNamesAppend(a[1..], b);
    }
  }

  /** A name is listed exactly when some line yields it. */
  lemma {:induction false} EnvNamesMember(lines: seq<string>, n: string)
    ensures n in EnvNames(lines) <==> exists k :: 0 <= k < |lines| && EnvName(lines[k]) == Some(n)
  {
    if lines != [] {
      EnvNamesMember(lines[1..], n);
      if EnvName(lines[0]) == Some(n) {
        assert n in EnvNames(lines);
      } else {
        forall k | 1 <= k < |lines| ensures lines[k] == lines[1..][k - 1] {}
      }
    }
  }

  /**
   * One row of the table `conda env list` prints: its cells, and the runs of
   * whitespace before, between and after them (`gaps[0]` first).
   */
  datatype Row = Row(cells: seq<string>, gaps: seq<string>)

  /** Cells are tokens, gaps separate them, and nothing breaks the line. */
  predicate WellFormed(row: Row) {
    && (forall j :: 0 <= j < |row.cells| ==> Word(row.cells[j]))
    && Separates(row.cells, row.gaps)
    && (forall j :: 0 <= j < |row.gaps| ==> '\n' !in row.gaps[j])
  }

  /** The row as a line of text, before its line ending. */
  function Line(row: Row): string
    requires WellFormed(row)
  {
    Spaced(row.cells, row.gaps)
  }

  /** A row that names an environment: at least two cells, the first not `#`. */
  predicate Listed(row: Row) {
    |row.cells| >= 2 && row.cells[0] != "#"
  }

  /** The name on a row's line is its first cell, exactly when the row is listed. */
  lemma EnvNameOfRow(row: Row)
    requires WellFormed(row)
    ensures EnvName(Line(row)) == if Listed(row) then Some(row.cells[0]) else None
  {
    WordsSpaced(row.cells, row.gaps);
  }

  /** A carriage return ending a line (a `\r\n` line ending) changes nothing. */
  lemma EnvNameStripCr(line: string)
    ensures EnvName(StripCr(line)) == EnvName(line)
  {
    WordsStripCr(line);
  }

  lemma {:induction false} SpacedNoLineFeed(cells: seq<string>, gaps: seq<string>)
    requires forall j :: 0 <= j < |cells| ==> NoSpace(cells[j])
    requires |gaps| == |cells| + 1
    requires forall j :: 0 <= j < |gaps| ==> '\n' !in gaps[j]
    ensures '\n' !in Spaced(cells, gaps)
  {
    if cells != [] {
      assert IsSpace('\n');
      assert '\n' !in cells[0];
      assert forall j :: 0 <= j < |cells| - 1 ==> cells[1..][j] == cells[j + 1];
      assert forall j :: 0 <= j < |gaps| - 1 ==> gaps[1..][j] == gaps[j + 1];
      SpacedNoLineFeed(cells[1..], gaps[1..]);
    }
  }

  function Table(rows: seq<Row>): (lines: seq<string>)
    requires forall k :: 0 <= k < |rows| ==> WellFormed(rows[k])
  {
    seq(|rows|, k requires 0 <= k < |rows| => Line(rows[k]))
  }

  function FirstWords(rows: seq<Row>): seq<string>
    requires forall k :: 0 <= k < |rows| ==> rows[k].cells != []
  {
    seq(|rows|, k requires 0 <= k < |rows| => rows[k].cells[0])
  }

  /**
   * A listing laid out as rows of cells, padded with any whitespace, yields
   * the first cell of each row that has at least two cells and does not
   * start with `#`, in row order.
   */
  lemma {:induction false} EnvNamesTable(rows: seq<Row>)
    requires forall k :: 0 <= k < |rows| ==> WellFormed(rows[k])
    ensures EnvNames(Table(rows)) == FirstWords(Seqs.Filter(rows, Listed))
  {
    if rows != [] {
      var lines := Table(rows);
      EnvNameOfRow(rows[0]);
      assert lines[0] == Line(rows[0]);
      assert lines[1..] == Table(rows[1..]);
      EnvNamesTable(rows[1..]);
      var kept := Seqs.Filter(rows, Listed);
      var rest := Seqs.Filter(rows[1..], Listed);
      if Listed(rows[0]) {
        assert kept == [rows[0]] + rest;
        assert forall k :: 1 <= k < |kept| ==> kept[k] == rest[k - 1];
      } else {
        assert kept == rest;
      }
    }
  }

  /** Lines that yield the same names, one for one, yield the same listing. */
  lemma {:induction false} EnvNamesPointwise(a: seq<string>, b: seq<string>)
    requires |a| == |b|
    requires forall k :: 0 <= k < |a| ==> EnvName(a[k]) == EnvName(b[k])
    ensures EnvNames(a) == EnvNames(b)
  {
    if a != [] {
      assert forall k :: 0 <= k < |a| - 1 ==> a[1..][k] == a[k + 1] && b[1..][k] == b[k + 1];
      EnvNamesPointwise(a[1..], b[1..]);
    }
  }

  /**
   * The same, starting from the text conda prints: one row per line, each
   * ended by `\n` or, when its last gap ends in `\r`, by `\r\n`.
   */
  lemma EnvListOfText(rows: seq<Row>)
    requires forall k :: 0 <= k < |rows| ==> WellFormed(rows[k])
    ensures CondaEnvList(Ok(JoinLines(Table(rows)))) == Ok(FirstWords(Seqs.Filter(rows, Listed)))
  {
    var lines := Table(rows);
    forall k | 0 <= k < |lines| ensures '\n' !in lines[k] {
      SpacedNoLineFeed(rows[k].cells, rows[k].gaps);
    }
    SplitJoinLinesCr(lines);
    var stripped := seq(|lines|, k requires 0 <= k < |lines| => StripCr(lines[k]));
    forall k | 0 <= k < |lines| ensures EnvName(stripped[k]) == EnvName(lines[k]) {
      EnvNameStripCr(lines[k]);
    }
    EnvNamesPointwise(stripped, lines);
    EnvNamesTable(rows);
  }
}
