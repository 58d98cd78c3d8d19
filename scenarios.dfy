/** Worked scenarios: the three query results of one environment, reconciled and rendered. */
module Scenarios {
  import opened Wrappers
  import opened Conda
  import opened Reconcile
  import opened Yaml
  import EnvList

  const Numpy := CondaPackage("numpy", Some("1.26.0"), Some("py311"), None)
  const Flask := CondaPackage("flask", Some("2.3.0"), Some("pypi_0"), Some("pypi"))

  /** A history export that names the given packages without versions, as `--from-history` does. */
  function HistoryOf(names: seq<string>): CondaEnv {
    CondaEnv("demo", [], seq(|names|, k requires 0 <= k < |names| => CondaPackage(names[k], None, None, None)), [])
  }

  /** A package the user asked for by name is kept with the inventory's version and build. */
  lemma RequestedPackageReconciled()
    ensures Reconciled(HistoryOf(["numpy"]), CondaEnv("demo", ["conda-forge"], [], []), [Numpy])
      == CondaEnv("demo", ["conda-forge"], [Numpy], [])
  {
    assert HistoryNames(HistoryOf(["numpy"])) == ["numpy"];
    assert [Numpy][1..] == [];
  }

  /** ... and is written as the line `  - numpy=1.26.0` under `dependencies:`. */
  lemma RequestedPackageRendered()
    ensures Layout(CondaEnv("demo", ["conda-forge"], [Numpy], []))
      == ["name: demo", "channels:", "  - conda-forge", "dependencies:", "  - numpy=1.26.0"]
  {
    var env := CondaEnv("demo", ["conda-forge"], [Numpy], []);
    assert "name: " + "demo" == "name: demo";
    assert ChannelLines(env.channels)[0] == "  - " + "conda-forge" == "  - conda-forge";
    assert ChannelLines(env.channels) == ["  - conda-forge"];
    assert CondaLines(env.condaDeps)[0] == "  - " + "numpy" + "=" + "1.26.0" == "  - numpy=1.26.0";
    assert CondaLines(env.condaDeps) == ["  - numpy=1.26.0"];
  }

  /** A pip package nobody asked for by name still goes into the pip list. */
  lemma PipOnlyReconciled()
    ensures Reconciled(HistoryOf([]), CondaEnv("demo", [], [], []), [Flask])
      == CondaEnv("demo", [], [], [Flask])
  {
    assert HistoryNames(HistoryOf([])) == [];
    assert [Flask][1..] == [];
  }

  /** With no conda dependencies the pip block follows the channels, with no `dependencies:` line. */
  lemma PipOnlyRendered()
    ensures Layout(CondaEnv("demo", [], [], [Flask]))
      == ["name: demo", "channels:", "  - pip:", "      - flask==2.3.0"]
  {
    var env := CondaEnv("demo", [], [], [Flask]);
    assert "name: " + "demo" == "name: demo";
    assert ChannelLines(env.channels) == [];
    assert PipLines(env.pipDeps)[0] == "      - " + "flask" + "==" + "2.3.0" == "      - flask==2.3.0";
    assert PipLines(env.pipDeps) == ["      - flask==2.3.0"];
  }

  /** A pip package that the history also names lands in both lists. */
  lemma DualClassificationReconciled()
    ensures Reconciled(HistoryOf(["flask"]), CondaEnv("demo", [], [], []), [Flask])
      == CondaEnv("demo", [], [Flask], [Flask])
  {
    assert HistoryNames(HistoryOf(["flask"])) == ["flask"];
    assert [Flask][1..] == [];
  }

  const ActiveRow := EnvList.Row(["base", "*", "/opt/conda"], ["", "   ", "  ", ""])
  const CommentHead := EnvList.Row(["#", "conda", "environments:"], ["", " ", " ", ""])

  lemma ActiveRowWellFormed()
    ensures EnvList.WellFormed(ActiveRow)
  {
    assert Text.IsSpace(' ');
  }

  lemma ActiveRowLine()
    ensures Text.Spaced(ActiveRow.cells, ActiveRow.gaps) == "base   *  /opt/conda"
  {
    assert Text.Spaced(["/opt/conda"], ["  ", ""]) == "  " + "/opt/conda" + "" == "  /opt/conda";
    assert Text.Spaced(["*", "/opt/conda"], ["   ", "  ", ""]) == "   " + "*" + "  /opt/conda" == "   *  /opt/conda";
    assert Text.Spaced(ActiveRow.cells, ActiveRow.gaps) == "" + "base" + "   *  /opt/conda";
  }

  /** A padded row of `conda env list`, with the `*` marking the active environment, names its first column. */
  lemma ActiveEnvRow()
    ensures EnvList.EnvName("base   *  /opt/conda") == Some("base")
  {
    ActiveRowWellFormed();
    ActiveRowLine();
    EnvList.EnvNameOfRow(ActiveRow);
  }

  lemma CommentHeadWellFormed()
    ensures EnvList.WellFormed(CommentHead)
  {
    assert Text.IsSpace(' ');
  }

  lemma CommentHeadLine()
    ensures Text.Spaced(CommentHead.cells, CommentHead.gaps) == "# conda environments:"
  {
    assert Text.Spaced(["environments:"], [" ", ""]) == " " + "environments:" + "" == " environments:";
    assert Text.Spaced(["conda", "environments:"], [" ", " ", ""]) == " " + "conda" + " environments:" == " conda environments:";
    assert Text.Spaced(CommentHead.cells, CommentHead.gaps) == "" + "#" + " conda environments:";
  }

  /** The comment line at the head of the listing names nothing. */
  lemma CommentRow()
    ensures EnvList.EnvName("# conda environments:") == None
  {
    CommentHeadWellFormed();
    CommentHeadLine();
    EnvList.EnvNameOfRow(CommentHead);
  }
}
