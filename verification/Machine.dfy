/** The operating system's table of local ports, shared with other processes. */
module Machine {
  import opened Wrappers
  import opened Allocation

  class PortTable {
    /** The ports this process listens on. */
    var held: set<int>
    /** The rest of the machine at the moment. */
    var env: Env

    constructor ()
      ensures held == {}
    {
      held := {};
      env := *;
    }

    /** Anything can happen outside: other processes take ports and give them up. */
    method Interfere()
      modifies `env
    {
      env := *;
    }

    /** Asks for a port, or for any port when p is 0. A port comes only when it is a port number that nobody has. */
    method Listen(p: int) returns (r: Option<int>)
      requires p >= 0
      modifies `held
      ensures p > 0 ==> r == if Free(old(held), env, p) then Some(p) else None
      ensures p == 0 ==> r == if env.spare.Some? && Free(old(held), env, env.spare.value) then env.spare else None
      ensures r.Some? ==> 1 <= r.value <= 65535 && r.value !in old(held) && r.value !in env.denied && (p > 0 ==> r.value == p)
      ensures 1 <= p <= 65535 && p !in old(held) && p !in env.denied ==> r == Some(p)
      ensures held == if r.Some? then old(held) + {r.value} else old(held)
    {
      r := None;
      if p > 0 {
        if Free(held, env, p) {
          r := Some(p);
        }
      } else if env.spare.Some? && Free(held, env, env.spare.value) {
        r := env.spare;
      }
      if r.Some? {
        held := held + {r.value};
      }
    }

    method Release(p: int)
      modifies `held
      ensures held == old(held) - {p}
    {
      held := held - {p};
    }
  }

  /** Hands out local ports for remote services: internal/tunnel/alloc.go. */
  class Allocator {
    const samePort: bool
    const table: PortTable
    var sticky: map<int, int>

    constructor (table: PortTable, samePort: bool)
      ensures this.table == table && this.samePort == samePort && sticky == map[]
    {
      this.table, this.samePort, sticky := table, samePort, map[];
    }

    /** Opens a local listener for a remote port: the first of the pin, the remembered port and the
        mirrored port that is free, else any port unless ports must be the same. */
    method Allocate(remote: int, preferred: int) returns (o: Outcome)
      requires remote > 0
      requires forall p | p in sticky :: sticky[p] > 0
      modifies `sticky, table`held
      ensures o == Answer(samePort, old(sticky), old(table.held), remote, preferred, table.env)
      ensures o.Bound? ==> table.held == old(table.held) + {o.local} && sticky == old(sticky)[remote := o.local]
      ensures o.Refused? ==> table.held == old(table.held) && sticky == old(sticky)
      ensures forall p | p in sticky :: sticky[p] > 0
    {
      AnswerMeans(samePort, sticky, table.held, remote, preferred, table.env);
      hide Answer;
      var firstErr: Option<int> := None;
      if preferred > 0 {
        var ln := table.Listen(preferred);
        if ln.Some? {
          Record(remote, ln.value);
          return Bound(ln.value, preferred != remote);
        }
        firstErr := Some(preferred);
      }
      if remote in sticky && sticky[remote] != remote {
        var ln := table.Listen(sticky[remote]);
        if ln.Some? {
          Record(remote, ln.value);
          return Bound(ln.value, true);
        }
        firstErr := if firstErr.None? then Some(sticky[remote]) else firstErr;
      }
      var ln := table.Listen(remote);
      if ln.Some? {
        Record(remote, ln.value);
        return Bound(ln.value, false);
      }
      firstErr := if firstErr.None? then Some(remote) else firstErr;
      if samePort {
        return Refused(Conflict(firstErr.value));
      }
      ln := table.Listen(0);
      if ln.None? {
        return Refused(Exhausted(firstErr.value, table.env.cause));
      }
      Record(remote, ln.value);
      return Bound(ln.value, true);
    }

    /** Remembers the assignment so that a later reconnect can reuse it. */
    method Record(remote: int, local: int)
      requires local > 0 && forall p | p in sticky :: sticky[p] > 0
      modifies `sticky
      ensures sticky == old(sticky)[remote := local]
      ensures forall p | p in sticky :: sticky[p] > 0
    {
      sticky := sticky[remote := local];
    }

    method Forget(remote: int)
      modifies `sticky
      ensures sticky == old(sticky) - {remote}
    {
      sticky := sticky - {remote};
    }
  }
}
