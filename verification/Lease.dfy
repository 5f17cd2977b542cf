/** The client's core and path, lent to operations and closed only when no loan is out. */
module Lease {
  import opened Wrappers

  /** Cores and paths are numbered by the start that made them. */
  type Generation = nat

  /** The fields under the client's mutex, and the count of running operations. */
  datatype Fields = Fields(core: Option<Generation>, path: Option<Generation>, started: bool, activeOps: nat)

  const EMPTY := Fields(None, None, false, 0)

  /** A successful ensureStartedLocked. */
  function Started(f: Fields, g: Generation): (r: Fields) {
    if f.started then f else f.(core := Some(g), path := Some(g), started := true)
  }

  predicate Grants(f: Fields) { f.core.Some? && f.started }

  class MasqueClient {
    var core: Option<Generation>
    var path: Option<Generation>
    var started: bool
    var activeOps: nat
    var closedCores: set<Generation>
    var closedPaths: set<Generation>

    function View(): Fields
      reads this
    {
      Fields(core, path, started, activeOps)
    }

    /** Core, path and the started flag come and go together. */
    ghost predicate Valid()
      reads this
    {
      core == path && started == core.Some?
    }

    constructor ()
      ensures Valid() && View() == EMPTY && closedCores == {} && closedPaths == {}
    {
      core, path, started, activeOps, closedCores, closedPaths := None, None, false, 0, {}, {};
    }

    /** Dialling may fail; then nothing changes. */
    method EnsureStarted(g: Generation, dialOk: bool) returns (ok: bool)
      requires Valid()
      modifies this
      ensures Valid() && ok == (old(started) || dialOk)
      ensures View() == if ok then Started(old(View()), g) else old(View())
      ensures closedCores == old(closedCores) && closedPaths == old(closedPaths)
    {
      if started { return true; }
      if !dialOk { return false; }
      core, path, started := Some(g), Some(g), true;
      return true;
    }

    /** The second section of acquireCore; Close may have come between. */
    method Grant() returns (lease: Option<Generation>)
      requires Valid()
      modifies this
      ensures Valid() && lease == (if Grants(old(View())) then old(core) else None)
      ensures View() == old(View()).(activeOps := old(activeOps) + if lease.Some? then 1 else 0)
      ensures closedCores == old(closedCores) && closedPaths == old(closedPaths)
    {
      if core.None? || !started { return None; }
      activeOps := activeOps + 1;
      return core;
    }

    method Release()
      requires Valid() && activeOps > 0
      modifies this
      ensures Valid() && View() == old(View()).(activeOps := old(activeOps) - 1)
      ensures closedCores == old(closedCores) && closedPaths == old(closedPaths)
    {
      activeOps := activeOps - 1;
    }

    /** Close after its wait for running operations has returned. */
    method FinishClose()
      requires Valid() && activeOps == 0
      modifies this
      ensures Valid() && View() == EMPTY
      ensures closedPaths == old(closedPaths) + (if old(path).Some? then {old(path).value} else {})
      ensures closedCores == old(closedCores) + (if old(core).Some? then {old(core).value} else {})
    {
      if path.Some? {
        closedPaths := closedPaths + {path.value};
        path := None;
      }
      if core.Some? {
        closedCores := closedCores + {core.value};
        core := None;
      }
      started := false;
    }
  }
}
