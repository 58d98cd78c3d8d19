/**
 * `sharable_env`: the history export says which packages the user asked
 * for, the full export gives the name and channels, and the inventory gives
 * every installed package with its version, build and channel.
 */
module Reconcile {
  import opened Wrappers
  import opened Conda
  import Seqs

  /** The names the history export lists as dependencies, in its order. */
  function HistoryNames(history: CondaEnv): (names: seq<string>)
    ensures |names| == |history.condaDeps|
    ensures forall n :: n in names <==> exists p :: p in history.condaDeps && p.name == n
  {
    var deps := history.condaDeps;
    var names := seq(|deps|, k requires 0 <= k < |deps| => deps[k].name);
    assert forall k :: 0 <= k < |deps| ==> names[k] == deps[k].name;
    names
  }

  /** The test for a conda dependency: the record's name is among the history names. */
  function InHistory(names: seq<string>): CondaPackage -> bool {
    (p: CondaPackage) => p.name in names
  }

  /** Inventory records whose name the history lists, in inventory order and with repeats. */
  function Requested(inventory: seq<CondaPackage>, names: seq<string>): seq<CondaPackage> {
    Seqs.Filter(inventory, InHistory(names))
  }

  /** Inventory records that came from the Python package index, in inventory order. */
  function PipInstalled(inventory: seq<CondaPackage>): seq<CondaPackage> {
    Seqs.Filter(inventory, FromPypi)
  }

  /** The environment `sharable_env` builds from the three query results. */
  function Reconciled(history: CondaEnv, full: CondaEnv, inventory: seq<CondaPackage>): CondaEnv {
    CondaEnv(full.name, full.channels, Requested(inventory, HistoryNames(history)), PipInstalled(inventory))
  }

  /**
   * The three queries are consulted in order (history export, full export,
   * inventory) and the first failure is returned; otherwise one pass over the
   * inventory sorts each record into the conda list, the pip list, both or
   * neither.
   */
  method SharableEnv(history: Result<CondaEnv>, full: Result<CondaEnv>, inventory: Result<seq<CondaPackage>>)
    returns (r: Result<CondaEnv>)
    ensures history.Err? ==> r == Err(history.error)
    ensures history.Ok? && full.Err? ==> r == Err(full.error)
    ensures history.Ok? && full.Ok? && inventory.Err? ==> r == Err(inventory.error)
    ensures history.Ok? && full.Ok? && inventory.Ok? ==>
      r == Ok(Reconciled(history.value, full.value, inventory.value))
  {
    if history.Err? {
      return Err(history.error);
    }
    if full.Err? {
      return Err(full.error);
    }
    if inventory.Err? {
      return Err(inventory.error);
    }
    var packages := inventory.value;
    var names := HistoryNames(history.value);
    var condaDeps: seq<CondaPackage> := [];
    var pipDeps: seq<CondaPackage> := [];
    for i := 0 to |packages|
      invariant condaDeps == Requested(packages[..i], names)
      invariant pipDeps == PipInstalled(packages[..i])
    {
      var package := packages[i];
      Seqs.FilterSnoc(packages[..i], package, InHistory(names));
      Seqs.FilterSnoc(packages[..i], package, FromPypi);
      assert packages[..i + 1] == packages[..i] + [package];
      if package.name in names {
        condaDeps := condaDeps + [package];
      }
      if package.channel == Some(Pypi) {
        pipDeps := pipDeps + [package];
      }
    }
    assert packages[..|packages|] == packages;
    r := Ok(CondaEnv(full.value.name, full.value.channels, condaDeps, pipDeps));
  }

  // ---------------------------------------------------------------------
  // Properties of the reconciled environment

  /**
   * A record is a conda dependency exactly when it is in the inventory and
   * some history dependency has its name; it is a pip dependency exactly when
   * it is in the inventory and its channel is `pypi`. The two tests are
   * independent, so one record can be in both lists, and neither list is
   * longer than the inventory.
   */
  lemma Classification(history: CondaEnv, full: CondaEnv, inventory: seq<CondaPackage>, p: CondaPackage)
    ensures var env := Reconciled(history, full, inventory);
      && (p in env.condaDeps <==> p in inventory && exists h :: h in history.condaDeps && h.name == p.name)
      && (p in env.pipDeps <==> p in inventory && p.channel == Some(Pypi))
      && |env.condaDeps| <= |inventory| && |env.pipDeps| <= |inventory|
  {
    var names := HistoryNames(history);
    Seqs.FilterMember(inventory, InHistory(names), p);
    Seqs.FilterMember(inventory, FromPypi, p);
  }

  /** No record is deduplicated: each occurs as often as in the inventory, or not at all. */
  lemma Multiplicity(history: CondaEnv, full: CondaEnv, inventory: seq<CondaPackage>, p: CondaPackage)
    ensures var env := Reconciled(history, full, inventory);
      && multiset(env.condaDeps)[p] == (if p.name in HistoryNames(history) then multiset(inventory)[p] else 0)
      && multiset(env.pipDeps)[p] == (if p.channel == Some(Pypi) then multiset(inventory)[p] else 0)
  {
    Seqs.FilterCount(inventory, InHistory(HistoryNames(history)), p);
    Seqs.FilterCount(inventory, FromPypi, p);
  }

  /** Both lists keep inventory order: reconciling a split inventory concatenates the parts. */
  lemma InventoryOrder(history: CondaEnv, full: CondaEnv, a: seq<CondaPackage>, b: seq<CondaPackage>)
    ensures var whole, left, right := Reconciled(history, full, a + b), Reconciled(history, full, a), Reconciled(history, full, b);
      && whole.condaDeps == left.condaDeps + right.condaDeps
      && whole.pipDeps == left.pipDeps + right.pipDeps
  {
    Seqs.FilterAppend(a, b, InHistory(HistoryNames(history)));
    Seqs.FilterAppend(a, b, FromPypi);
  }

  /** A name the history lists but the inventory lacks is silently left out. */
  lemma InventoryWins(history: CondaEnv, full: CondaEnv, inventory: seq<CondaPackage>, n: string)
    requires forall q :: q in inventory ==> q.name != n
    ensures forall p :: p in Reconciled(history, full, inventory).condaDeps ==> p.name != n
  {
    forall p | p in Reconciled(history, full, inventory).condaDeps ensures p.name != n {
      Classification(history, full, inventory, p);
    }
  }
}
