/** The two records of the library: one package and one (sharable) environment. */
module Conda {
  import opened Wrappers

  /** `CondaPackage`: every field but the name may be absent. */
  datatype CondaPackage = CondaPackage(
    name: string,
    version: Option<string>,
    build: Option<string>,
    channel: Option<string>)

  /** `CondaEnv`: the environment name, its channels in priority order, and two dependency lists. */
  datatype CondaEnv = CondaEnv(
    name: string,
    channels: seq<string>,
    condaDeps: seq<CondaPackage>,
    pipDeps: seq<CondaPackage>)

  /** The channel conda reports for packages installed from the Python package index. */
  const Pypi: string := "pypi"

  predicate FromPypi(p: CondaPackage) {
    p.channel == Some(Pypi)
  }

  /** Every package carries a version, which rendering demands. */
  predicate Versioned(deps: seq<CondaPackage>) {
    forall k :: 0 <= k < |deps| ==> deps[k].version.Some?
  }
}
