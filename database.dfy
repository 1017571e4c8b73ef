/** The connection registry of database/db.go. The database library is
    abstract: a `Driver` opens handles and records every handle it opened,
    and what the library and the server answer to one connection attempt
    (whether opening fails, whether the ping fails, what closing returns)
    is an `Outcome` the caller supplies. Errors are their messages. */
module Database {
  import opened Wrappers
  import opened DataSourceNames

  /** The answers to one connection attempt: the error `sql.Open` returns,
      the error the handle's `Ping` returns and the error its `Close`
      returns, each `None` for success. */
  datatype Outcome = Outcome(openError: Option<string>, pingError: Option<string>,
                             closeError: Option<string>)

  /** An open database handle, `*sql.DB`. */
  class Handle {
    const driver: string
    const dsn: string
    const pingError: Option<string>
    const closeError: Option<string>
    var closed: bool

    constructor (driver: string, dsn: string, pingError: Option<string>, closeError: Option<string>)
      ensures this.driver == driver && this.dsn == dsn
      ensures this.pingError == pingError && this.closeError == closeError
      ensures !closed
    {
      this.driver := driver;
      this.dsn := dsn;
      this.pingError := pingError;
      this.closeError := closeError;
      closed := false;
    }

    method Ping() returns (err: Option<string>)
      ensures err == pingError
    {
      err := pingError;
    }

    method Close() returns (err: Option<string>)
      modifies this
      ensures closed && err == closeError
    {
      closed := true;
      err := closeError;
    }
  }

  /** `sql.Open`, with the handles it has opened so far. */
  class Driver {
    var handles: seq<Handle>

    constructor ()
      ensures handles == []
    {
      handles := [];
    }

    method Open(driver: string, dsn: string, outcome: Outcome) returns (r: Result<Handle>)
      modifies this
      ensures outcome.openError.Some? ==> r == Err(outcome.openError.value) && handles == old(handles)
      ensures outcome.openError.None? ==>
                r.Ok? && fresh(r.value) && handles == old(handles) + [r.value]
                && r.value.driver == driver && r.value.dsn == dsn && !r.value.closed
                && r.value.pingError == outcome.pingError && r.value.closeError == outcome.closeError
    {
      if outcome.openError.Some? {
        r := Err(outcome.openError.value);
      } else {
        var h := new Handle(driver, dsn, outcome.pingError, outcome.closeError);
        handles := handles + [h];
        r := Ok(h);
      }
    }
  }

  /** The error `OpenConnection` returns: the unsupported type, then the
      error of opening, then the error of the ping. */
  function OpenError(c: DBConfig, outcome: Outcome): Option<string> {
    match DataSource(c)
    case Err(msg) => Some(msg)
    case Ok(_) => if outcome.openError.Some? then outcome.openError else outcome.pingError
  }

  /** `OpenConnection` returns a handle exactly when the type is supported,
      opening succeeds and the ping succeeds. */
  lemma OpenErrorCases(c: DBConfig, outcome: Outcome)
    ensures OpenError(c, outcome).None?
            <==> Supported(c.dbType) && outcome.openError.None? && outcome.pingError.None?
    ensures !Supported(c.dbType) ==> OpenError(c, outcome) == Some("unsupported database type: " + c.dbType)
  {
  }

  /** Opens a handle for `c`: nothing is opened for an unsupported type, and
      a handle whose ping fails is closed again and not returned. */
  method OpenConnection(c: DBConfig, drv: Driver, outcome: Outcome) returns (r: Result<Handle>)
    modifies drv
    ensures r.Err? <==> OpenError(c, outcome).Some?
    ensures r.Err? ==> r.msg == OpenError(c, outcome).value
    ensures DataSource(c).Err? || outcome.openError.Some? ==> drv.handles == old(drv.handles)
    ensures DataSource(c).Ok? && outcome.openError.None? ==>
              |drv.handles| == |old(drv.handles)| + 1 && drv.handles[..|old(drv.handles)|] == old(drv.handles)
              && fresh(drv.handles[|drv.handles| - 1])
              && drv.handles[|drv.handles| - 1].driver == DataSource(c).value.driver
              && drv.handles[|drv.handles| - 1].dsn == DataSource(c).value.dsn
              && (drv.handles[|drv.handles| - 1].closed <==> outcome.pingError.Some?)
    ensures r.Ok? ==> r.value == drv.handles[|drv.handles| - 1] && !r.value.closed
  {
    var target := DataSource(c);
    if target.Err? {
      return Err(target.msg);
    }
    var res := drv.Open(target.value.driver, target.value.dsn, outcome);
    if res.Err? {
      return Err(res.msg);
    }
    var db := res.value;
    var pingErr := db.Ping();
    if pingErr.Some? {
      var _ := db.Close();
      return Err(pingErr.value);
    }
    return Ok(db);
  }

  /** The registry of open handles by connection id. */
  class ConnectionManager {
    var connections: map<string, Handle>

    /** Every registered handle is open, and no handle is registered under
        two ids. */
    ghost predicate Valid()
      reads this, connections.Values
    {
      (forall id :: id in connections ==> !connections[id].closed)
      && (forall id1, id2 :: id1 in connections && id2 in connections && id1 != id2
                             ==> connections[id1] != connections[id2])
    }

    constructor ()
      ensures connections == map[] && Valid()
    {
      connections := map[];
    }

    /** Opens a handle for `c` and registers it under `id`, replacing (but
        not closing) a handle registered there before. */
    method Connect(id: string, c: DBConfig, drv: Driver, outcome: Outcome) returns (err: Option<string>)
      modifies this, drv
      ensures err == OpenError(c, outcome)
      ensures err.Some? ==> connections == old(connections)
      ensures err.None? ==>
                |drv.handles| == |old(drv.handles)| + 1
                && connections == old(connections)[id := drv.handles[|drv.handles| - 1]]
                && fresh(connections[id]) && !connections[id].closed
      ensures id in old(connections) ==> unchanged(old(connections)[id])
      ensures old(Valid()) ==> Valid()
    {
      var r := OpenConnection(c, drv, outcome);
      if r.Err? {
        return Some(r.msg);
      }
      connections := connections[id := r.value];
      return None;
    }

    /** The handle registered under `id`. */
    method GetConnection(id: string) returns (r: Result<Handle>)
      ensures id in connections ==> r == Ok(connections[id])
      ensures id !in connections ==> r == Err("connection not found: " + id)
      ensures Valid() && r.Ok? ==> !r.value.closed
    {
      if id !in connections {
        return Err("connection not found: " + id);
      }
      return Ok(connections[id]);
    }

    /** Removes the handle registered under `id` and closes it, returning
        what closing returns; nothing happens when `id` is not registered. */
    method CloseConnection(id: string) returns (err: Option<string>)
      modifies this, if id in connections then {connections[id]} else {}
      ensures id !in old(connections) ==> err == None && connections == old(connections)
      ensures id in old(connections) ==>
                connections == old(connections) - {id} && old(connections)[id].closed
                && err == old(connections)[id].closeError
      ensures id !in connections
      ensures old(Valid()) ==> Valid()
    {
      if id !in connections {
        return None;
      }
      var db := connections[id];
      connections := connections - {id};
      err := db.Close();
    }
  }

  /** After `CloseConnection(id)` the lookup of `id` fails. */
  method CloseThenLookup(m: ConnectionManager, id: string) returns (r: Result<Handle>)
    modifies m, if id in m.connections then {m.connections[id]} else {}
    ensures r == Err("connection not found: " + id)
  {
    var _ := m.CloseConnection(id);
    r := m.GetConnection(id);
  }

  /** After a successful `Connect(id, …)` the lookup of `id` gives the new,
      open handle. */
  method ConnectThenLookup(m: ConnectionManager, id: string, c: DBConfig, drv: Driver, outcome: Outcome)
    returns (r: Result<Handle>)
    requires OpenError(c, outcome).None?
    modifies m, drv
    ensures r.Ok? && |drv.handles| > 0 && r.value == drv.handles[|drv.handles| - 1] && !r.value.closed
  {
    var _ := m.Connect(id, c, drv, outcome);
    r := m.GetConnection(id);
  }
}
