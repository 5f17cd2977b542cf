/** The HTTP/2 server's listener and connection tables and its orderly end. */
module Shutdown {
  type Id = nat

  /** What the server's mutex guards, and its wait group. */
  datatype Tables = Tables(closed: bool, listeners: set<Id>, conns: set<Id>, wg: int)

  function WithListener(t: Tables, ln: Id): (r: Tables) {
    if t.closed then t else t.(listeners := t.listeners + {ln}, wg := t.wg + 1)
  }

  function WithConn(t: Tables, c: Id): (r: Tables) {
    if t.closed then t else t.(conns := t.conns + {c}, wg := t.wg + 1)
  }

  class MasqueHTTP2Server {
    var closed: bool
    var listeners: set<Id>
    var conns: set<Id>
    var wg: int

    function View(): Tables
      reads this
    {
      Tables(closed, listeners, conns, wg)
    }

    constructor ()
      ensures View() == Tables(false, {}, {}, 0)
    {
      closed, listeners, conns, wg := false, {}, {}, 0;
    }

    method RegisterListener(ln: Id) returns (ok: bool)
      modifies this
      ensures ok == !old(closed) && View() == WithListener(old(View()), ln)
    {
      if closed { return false; }
      listeners, wg := listeners + {ln}, wg + 1;
      return true;
    }

    /** The section after Accept; a refused connection is closed by the caller. */
    method AdmitConn(c: Id) returns (ok: bool)
      modifies this
      ensures ok == !old(closed) && View() == WithConn(old(View()), c)
    {
      if closed { return false; }
      conns, wg := conns + {c}, wg + 1;
      return true;
    }

    /** The end of an accept loop: off the table, then off the count. */
    method ListenerDone(ln: Id)
      modifies this
      ensures View() == old(View()).(listeners := old(listeners) - {ln}, wg := old(wg) - 1)
    {
      listeners := listeners - {ln};
      wg := wg - 1;
    }

    method ConnDone(c: Id)
      modifies this
      ensures View() == old(View()).(conns := old(conns) - {c}, wg := old(wg) - 1)
    {
      conns := conns - {c};
      wg := wg - 1;
    }

    /** The first section of Close: only the first caller gets anything to close. */
    method BeginClose() returns (first: bool, ls: set<Id>, cs: set<Id>)
      modifies this
      ensures View() == old(View()).(closed := true)
      ensures first == !old(closed) && ls == (if first then listeners else {}) && cs == (if first then conns else {})
    {
      if closed { return false, {}, {}; }
      closed := true;
      return true, listeners, conns;
    }
  }
}
