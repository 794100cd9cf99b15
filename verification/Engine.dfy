/** The engine without a pool: one connection that holds either a transaction handle or read cursors, and a second one for
    reads while a handle is open. Every call holds its lane's lock throughout. crates/ownpg-core/src/engine.rs. */
module Engine {
  import opened Basics
  import opened Backend
  import opened Guard
  import opened Handles
  import opened Lanes
  import opened Savepoints
  import opened Commit
  import opened SingleStatements

  datatype CallFault =
    | NotConnected
    | HandleOpen(id: nat)
    | UnknownHandle(state: Option<HandleState>)
    | OtherPrincipal
    | CursorsOpen
    | InsideHandle
    | HandleLost
    | ByHandle(fault: HandleFault)
    | ByLane(lane: LaneFault)
    | ByStatement(statement: StatementFault)
    | ByFinish(finish: Finish)

  predicate Survive(before: Cursors, after: Cursors, gone: set<nat>) {
    forall id {:trigger id in before} :: id in before && id !in gone ==> id in after && after[id] == before[id]
  }

  lemma SweptSurvive(before: Cursors, expired: set<nat>)
    ensures Survive(before, Without(before, expired), expired)
  {
  }

  lemma SurviveTwice(first: Cursors, second: Cursors, third: Cursors, gone: set<nat>, more: set<nat>)
    requires Survive(first, second, gone) && Survive(second, third, more)
    ensures Survive(first, third, gone + more)
  {
  }

  /** The error of a read that makes its lane give up every cursor. */
  const GIVES_UP := ByLane(LaneFault.Server(Sql(ABORTED)))

  /** What a caller is told about a handle. */
  datatype Standing = StillOpen | Closed(state: HandleState)

  class SingleEngine {
    const prefixed: bool
    const probes: bool
    var primary: Lane
    var handle: WriteHandle?
    var secondary: Lane?
    var closed: map<nat, HandleState>

    /** What was sent on connections that are in use no more. */
    ghost var former: seq<Ran>

    ghost function Repr(): set<object>
      reads this`primary, this`handle, this`secondary
    {
      {this, primary, primary.client} + (if handle == null then {} else {handle})
      + if secondary == null then {} else {secondary, secondary.client}
    }

    ghost function SecondaryObjects(): set<object>
      reads this`secondary
    {
      if secondary == null then {} else {secondary, secondary.client}
    }

    ghost function SecondaryClient(): set<object>
      reads this`secondary
    {
      if secondary == null then {} else {secondary.client}
    }

    /** The connections are different, and a handle is open only in its own block on the first connection, where there is
        then no cursor and no read transaction. */
    ghost predicate Valid()
      reads this, Repr()
    {
      && primary.client.Sound() && primary.ValidTable()
      && (handle == null ==> primary.Valid())
      && (handle != null ==>
            && !primary.inRead && primary.cursors == map[] && handle.InStep(primary.client.s) && handle.id !in closed
            && |primary.client.left| <= 1 && (primary.client.s.alive ==> primary.client.left == []))
      && ValidSecondary() && ValidFormer()
    }

    ghost predicate ValidFormer()
      reads this`former
    {
      forall ran :: ran in former ==> Proper(ran)
    }

    ghost predicate ValidSecondary()
      reads this`primary, this`secondary, primary, if secondary == null then {} else {secondary, secondary.client}
    {
      secondary != null ==> secondary != primary && secondary.client != primary.client && secondary.Valid()
    }

    constructor (prefixed: bool, probes: bool)
      ensures Valid() && handle == null && secondary == null && fresh(Repr())
    {
      this.prefixed, this.probes := prefixed, probes;
      var client := new Client([]);
      primary := new Lane(client);
      handle, secondary, closed, former := null, null, map[], [];
      new;
      assert primary.Valid() && ValidSecondary();
    }

    /** The open handle comes to an end. */
    method Close(state: HandleState)
      requires handle != null && primary.client.Sound() && !primary.inRead && primary.cursors == map[]
      requires primary.client.Clear() && primary.ValidTable() && ValidSecondary() && ValidFormer()
      modifies this`handle, this`closed
      ensures Valid() && handle == null && closed == old(closed)[old(handle.id) := state]
    {
      closed := closed[handle.id := state];
      handle := null;
    }

    /** Rolls back a handle that is due; its block is then gone. */
    method ExpireWriteHandle(due: bool) returns (r: Result<(), CallFault>)
      requires Valid()
      modifies this`handle, this`closed, primary.client
      ensures Valid() && handle == (if due then null else old(handle))
      ensures primary.client.s.alive ==> old(primary.client.s.alive) && r.Ok?
      ensures primary.client.s.committed == old(primary.client.s.committed)
      ensures !due || old(handle) == null ==> r.Ok? && closed == old(closed) && primary.client.s == old(primary.client.s)
      ensures due && old(handle) != null ==> closed == old(closed)[old(handle.id) := Expired]
      ensures closed.Keys >= old(closed).Keys && (old(handle) != null && handle == null ==> old(handle.id) in closed)
      ensures CommitsNothing()
    {
      r := Ok(());
      if !due || handle == null { return; }
      var unreachable := primary.client.IsClosed();
      if !unreachable {
        var reply := primary.client.Send(Backend.Rollback);
        if reply != Done { r := Err(NotConnected); }
      }
      Close(Expired);
    }

    /** Reconnects if the connection is lost, and with it the handle. */
    method EnsureAlive() returns (r: Result<(), CallFault>)
      requires Valid()
      modifies this`handle, this`closed, this`primary, this`former, primary.client
      ensures Valid() && (primary == old(primary) || (fresh(primary) && fresh(primary.client)))
      ensures r.Ok? && old(handle) != null && primary == old(primary) ==> handle == old(handle)
      ensures primary != old(primary) ==> handle == null && primary.cursors == map[]
      ensures handle == null || handle == old(handle)
      ensures r.Ok? && primary == old(primary) ==> primary.client.s == old(primary.client.s) && primary.client.s.alive
      ensures r.Err? ==> !primary.client.s.alive && handle == null
      ensures r.Ok? && primary != old(primary) ==> primary.client.s.committed == []
      ensures old(handle) != null && handle == null ==> closed == old(closed)[old(handle.id) := HandleState.Lost]
      ensures closed.Keys >= old(closed).Keys && (old(handle) != null && handle == null ==> old(handle.id) in closed)
      ensures CommitsNothing()
    {
      var reply := primary.client.Send(Ping);
      if primary.client.s.alive { return Ok(()); }
      if handle != null { Close(HandleState.Lost); }
      r := Reconnect();
    }

    method Reconnect() returns (r: Result<(), CallFault>)
      requires Valid() && handle == null
      modifies this`primary, this`former
      ensures Valid() && (if r.Ok? then fresh(primary) && fresh(primary.client) else primary == old(primary))
      ensures r.Ok? ==> primary.client.s.committed == [] && primary.cursors == map[]
    {
      var connected: bool := *;
      if !connected { return Err(NotConnected); }
      former := former + primary.client.ran;
      var client := new Client([]);
      primary := new Lane(client);
      r := Ok(());
    }

    /** Opens the second connection if there is none. */
    method EnsureSecondary() returns (r: Result<(), CallFault>)
      requires Valid()
      modifies this`secondary, this`former, SecondaryClient()
      ensures Valid() && (secondary == old(secondary) || (fresh(secondary) && fresh(secondary.client)))
      ensures r.Ok? ==> secondary != null
      ensures secondary != old(secondary) ==> secondary.client.s.committed == []
      ensures CommitsNothing()
    {
      if secondary != null {
        AskSecondary();
        if secondary.client.s.alive { return Ok(()); }
      }
      r := OpenSecondary();
    }

    /** Finds out whether the second connection is alive. */
    method AskSecondary()
      requires Valid() && secondary != null
      modifies secondary.client
      ensures Valid() && secondary.client.s.committed == old(secondary.client.s.committed)
    {
      var _ := secondary.client.Send(Ping);
    }

    method OpenSecondary() returns (r: Result<(), CallFault>)
      requires Valid()
      modifies this`secondary, this`former
      ensures Valid() && (if r.Ok? then fresh(secondary) && fresh(secondary.client) else secondary == old(secondary))
      ensures r.Ok? ==> secondary.client.s.committed == []
    {
      var connected: bool := *;
      if !connected { return Err(NotConnected); }
      if secondary != null { former := former + secondary.client.ran; }
      var client := new Client([]);
      secondary := new Lane(client);
      r := Ok(());
    }

    method DropIdleSecondary()
      requires Valid()
      modifies this`secondary, this`former
      ensures Valid() && (secondary == old(secondary) || secondary == null)
      ensures old(secondary) != null && old(secondary.cursors) != map[] ==> secondary == old(secondary)
      ensures CommitsNothing()
    {
      if secondary != null && secondary.cursors == map[] {
        former := former + secondary.client.ran;
        secondary := null;
      }
    }

    /** Rolls back a handle that is due, and reconnects if need be. */
    method Refresh(due: bool) returns (r: Result<(), CallFault>)
      requires Valid()
      modifies this`handle, this`closed, this`primary, this`former, primary.client
      ensures Valid() && (primary == old(primary) || (fresh(primary) && fresh(primary.client)))
      ensures handle == null || handle == old(handle)
      ensures primary != old(primary) ==> handle == null && primary.cursors == map[]
      ensures due ==> handle == null
      ensures CommitsNothing()
      ensures r.Ok? && handle != null ==> primary == old(primary) && primary.client.s == old(primary.client.s)
      ensures r.Ok? && primary != old(primary) ==> primary.client.s.committed == []
    {
      r := ExpireWriteHandle(due);
      if r.Ok? {
        r := EnsureAlive();
      }
    }

    /** The lane for a read: never the one that holds a handle. */
    method ReadHold(due: bool) returns (lane: Lane?)
      requires Valid()
      modifies this, primary.client, SecondaryClient()
      ensures Valid() && handle in {null, old(handle)}
      ensures primary == old(primary) || (fresh(primary) && fresh(primary.client))
      ensures secondary == old(secondary) || (secondary != null && fresh(secondary) && fresh(secondary.client))
      ensures lane != null ==> (lane == primary && handle == null) || (lane == secondary && handle != null)
      ensures CommitsNothing()
    {
      var refreshed := Refresh(due);
      if refreshed.Err? { return null; }
      if handle == null { return primary; }
      var second := EnsureSecondary();
      lane := if second.Ok? then secondary else null;
    }

    /** What a call may replace: a lane by one on a new connection, and the handle. */
    twostate predicate Renewed()
      reads this
    {
      && (primary == old(primary) || (fresh(primary) && fresh(primary.client)))
      && (secondary == null || secondary == old(secondary) || (fresh(secondary) && fresh(secondary.client)))
      && (handle == null || handle == old(handle) || fresh(handle))
    }

    /** Nothing is committed on a connection that stays. */
    twostate predicate CommitsNothing()
      reads this, primary, primary.client, SecondaryObjects()
    {
      && (primary == old(primary) ==> primary.client.s.committed == old(primary.client.s.committed))
      && (secondary != null && secondary == old(secondary) ==>
            secondary.client.s.committed == old(secondary.client.s.committed))
    }

    /** No cursor but these is lost on a connection that stays. */
    twostate predicate Spares(gone: set<nat>)
      reads this, primary, primary.client, SecondaryObjects()
    {
      && (primary == old(primary) && primary.client.s.alive ==> Survive(old(primary.cursors), primary.cursors, gone))
      && (secondary != null && secondary == old(secondary) && secondary.client.s.alive ==>
            Survive(old(secondary.cursors), secondary.cursors, gone))
    }

    /** The cursor is open, and the caller's. */
    predicate OwnsCursor(id: nat, principal: string)
      reads this, primary, SecondaryObjects()
    {
      || (id in primary.cursors && primary.cursors[id].principal == principal)
      || (secondary != null && id in secondary.cursors && secondary.cursors[id].principal == principal)
    }

    // Reads.

    method RunRead(due: bool, settings: bool, owner: Option<string>, expired: set<nat>, effects: seq<Effect>, ok: bool,
                   code: string, rounds: nat) returns (r: Result<Option<nat>, CallFault>)
      requires Valid()
      modifies Repr()
      ensures Valid() && Renewed()
      ensures r != Err(GIVES_UP) ==> Spares(expired)
      ensures CommitsNothing()
    {
      var lane := ReadHold(due);
      if lane == null { return Err(NotConnected); }
      r := ReadOn(lane, settings, owner, expired, effects, ok, code, rounds);
    }

    /** Runs a read on this lane. */
    method ReadOn(lane: Lane, settings: bool, owner: Option<string>, expired: set<nat>, effects: seq<Effect>, ok: bool,
                  code: string, rounds: nat) returns (r: Result<Option<nat>, CallFault>)
      requires Valid() && ((lane == primary && handle == null) || lane == secondary)
      modifies lane, lane.client
      ensures Valid()
      ensures r != Err(GIVES_UP) && lane.client.s.alive ==> Survive(old(lane.cursors), lane.cursors, expired)
      ensures lane.client.s.committed == old(lane.client.s.committed)
    {
      var id := FreshId(lane.cursors.Keys);
      var read := lane.ReadOnLane(prefixed, settings, owner, id, expired, effects, ok, code, rounds);
      r := if read.Ok? then Ok(read.value) else Err(ByLane(read.error));
    }

    method CatalogRows(due: bool, settings: bool, expired: set<nat>, ok: bool, code: string) returns (r: Result<(), CallFault>)
      requires Valid()
      modifies Repr()
      ensures Valid() && Renewed()
      ensures r != Err(GIVES_UP) ==> Spares(expired)
      ensures CommitsNothing()
    {
      var lane := ReadHold(due);
      if lane == null { return Err(NotConnected); }
      r := CatalogOn(lane, settings, expired, ok, code);
    }

    /** Runs a catalog query on this lane. */
    method CatalogOn(lane: Lane, settings: bool, expired: set<nat>, ok: bool, code: string) returns (r: Result<(), CallFault>)
      requires Valid() && ((lane == primary && handle == null) || lane == secondary)
      modifies lane`inRead, lane`cursors, lane.client
      ensures Valid()
      ensures r != Err(GIVES_UP) && lane.client.s.alive ==> Survive(old(lane.cursors), lane.cursors, expired)
      ensures lane.client.s.committed == old(lane.client.s.committed)
    {
      var rows := lane.CatalogOnLane(prefixed, settings, expired, ok, code);
      r := if rows.Ok? then Ok(()) else Err(ByLane(LaneFault.Server(rows.error)));
    }

    method CopyOut(due: bool, settings: bool, expired: set<nat>, ok: bool, code: string) returns (r: Result<(), CallFault>)
      requires Valid()
      modifies Repr()
      ensures Valid() && Renewed()
      ensures r != Err(GIVES_UP) ==> Spares(expired)
      ensures CommitsNothing()
    {
      var lane := ReadHold(due);
      if lane == null { return Err(NotConnected); }
      r := CopyOutOn(lane, settings, expired, ok, code);
    }

    /** Copies rows out on this lane. */
    method CopyOutOn(lane: Lane, settings: bool, expired: set<nat>, ok: bool, code: string) returns (r: Result<(), CallFault>)
      requires Valid() && ((lane == primary && handle == null) || lane == secondary)
      modifies lane`inRead, lane`cursors, lane.client
      ensures Valid()
      ensures r != Err(GIVES_UP) && lane.client.s.alive ==> Survive(old(lane.cursors), lane.cursors, expired)
      ensures lane.client.s.committed == old(lane.client.s.committed)
    {
      var copied := lane.CopyOutOnLane(prefixed, settings, expired, ok, code);
      r := if copied.Ok? then Ok(()) else Err(ByLane(LaneFault.Server(copied.error)));
    }

    /** Fetches from a cursor of the caller, on whichever lane it is. */
    method Fetch(id: nat, principal: string, expired: set<nat>, rounds: nat) returns (r: Result<bool, CallFault>)
      requires Valid()
      modifies Repr()
      ensures Valid() && Renewed()
      ensures r.Ok? ==> old(OwnsCursor(id, principal))
      ensures Spares(expired + {id}) && (r == Ok(true) ==> Spares(expired))
      ensures CommitsNothing()
    {
      var found := false;
      // A lane that holds a handle has no cursors.
      if handle == null {
        found, r := FetchIfThere(primary, id, principal, expired, rounds);
        if found { return; }
      }
      if secondary != null {
        found, r := FetchIfThere(secondary, id, principal, expired, rounds);
        if found { return; }
      }
      r := Err(ByLane(UnknownCursor));
    }

    /** Fetches from a cursor that has not expired, if this lane has it. */
    method FetchIfThere(lane: Lane, id: nat, principal: string, expired: set<nat>, rounds: nat)
      returns (found: bool, r: Result<bool, CallFault>)
      requires Valid() && ((lane == primary && handle == null) || lane == secondary)
      modifies lane`inRead, lane`cursors, lane.client
      ensures Valid() && (found <==> id in old(lane.cursors) && id !in expired)
      ensures found && r.Ok? ==> old(lane.cursors[id].principal) == principal
      ensures !found ==> r.Err?
      ensures lane.client.s.alive ==>
        Survive(old(lane.cursors), lane.cursors, expired + if found && r != Ok(true) then {id} else {})
      ensures lane.client.s.committed == old(lane.client.s.committed)
    {
      ghost var before := lane.cursors;
      lane.SweepExpired(expired);
      SweptSurvive(before, expired);
      ghost var swept := lane.cursors;
      found, r := id in lane.cursors, Err(ByLane(UnknownCursor));
      if found { r := FetchFrom(lane, id, principal, rounds); }
      if lane.client.s.alive {
        SurviveTwice(before, swept, lane.cursors, expired, if found && r != Ok(true) then {id} else {});
      }
    }

    /** Fetches from a cursor of this lane. */
    method FetchFrom(lane: Lane, id: nat, principal: string, rounds: nat) returns (r: Result<bool, CallFault>)
      requires Valid() && id in lane.cursors && (lane == primary || lane == secondary)
      modifies lane`inRead, lane`cursors, lane.client
      ensures Valid()
      ensures r.Ok? ==> old(lane.cursors[id].principal) == principal
      ensures lane.client.s.alive ==> Survive(old(lane.cursors), lane.cursors, if r == Ok(true) then {} else {id})
      ensures lane.client.s.committed == old(lane.client.s.committed)
      ensures old(lane.cursors[id].principal) != principal <==> r == Err(OtherPrincipal)
    {
      if lane.cursors[id].principal != principal { return Err(OtherPrincipal); }
      var page := lane.FetchOnLane(id, rounds);
      r := if page.Ok? then Ok(page.value) else Err(ByLane(page.error));
    }

    method CloseCursor(id: nat, principal: string) returns (r: Result<(), CallFault>)
      requires Valid()
      modifies Repr()
      ensures Valid() && Renewed()
      ensures r.Ok? ==> old(OwnsCursor(id, principal))
      ensures Spares({id}) && (r.Err? ==> Spares({}))
      ensures CommitsNothing()
    {
      if id in primary.cursors {
        r := CloseOn(primary, id, principal);
      } else if secondary != null && id in secondary.cursors {
        r := CloseOn(secondary, id, principal);
      } else {
        r := Err(ByLane(UnknownCursor));
      }
    }

    /** Closes a cursor of this lane. */
    method CloseOn(lane: Lane, id: nat, principal: string) returns (r: Result<(), CallFault>)
      requires Valid() && id in lane.cursors && (lane == primary || lane == secondary)
      modifies lane`inRead, lane`cursors, lane.client
      ensures Valid() && (r.Ok? <==> old(lane.cursors[id].principal) == principal)
      ensures Survive(old(lane.cursors), lane.cursors, if r.Ok? then {id} else {})
      ensures lane.client.s.committed == old(lane.client.s.committed)
    {
      if lane.cursors[id].principal != principal { return Err(OtherPrincipal); }
      lane.CloseCursorNow(id);
      var _ := lane.FinishIfIdle();
      r := Ok(());
    }

    // The handle.

    /** Sees to it that the first connection is alive, holds no handle and no cursor, and has no block. */
    method ClearPrimary(due: bool, expired: set<nat>) returns (r: Result<(), CallFault>)
      requires Valid()
      modifies this`handle, this`closed, this`primary, this`former, primary, primary.client
      ensures Valid() && (primary == old(primary) || (fresh(primary) && fresh(primary.client)))
      ensures handle == null || (handle == old(handle) && r.Err?)
      ensures old(handle) != null && handle == null ==> old(handle.id) in closed
      ensures closed.Keys >= old(closed).Keys
      ensures r.Ok? ==> primary.cursors == map[] && !primary.inRead
      ensures Spares(expired)
      ensures primary == old(primary) && primary.client.s.alive && old(handle) == null ==>
        (r.Ok? <==> Without(old(primary.cursors), expired) == map[])
      ensures due ==> handle == null
      ensures CommitsNothing()
    {
      r := EnsureAlive();
      if r.Err? { return; }
      r := ExpireWriteHandle(due);
      if r.Err? { return; }
      if handle != null { return Err(HandleOpen(handle.id)); }
      r := EmptyPrimary(expired);
    }

    /** Closes what has expired on the first lane, and refuses if other cursors are open. */
    method EmptyPrimary(expired: set<nat>) returns (r: Result<(), CallFault>)
      requires Valid() && handle == null
      modifies primary`inRead, primary`cursors, primary.client
      ensures Valid() && (r.Ok? ==> primary.cursors == map[] && !primary.inRead)
      ensures Spares(expired)
      ensures primary.client.s.alive ==>
        old(primary.client.s.alive) && (r.Ok? <==> Without(old(primary.cursors), expired) == map[])
      ensures CommitsNothing()
    {
      r := FreePrimary(expired);
      if r.Err? { return; }
      if primary.cursors != map[] { return Err(CursorsOpen); }
      var rolled := primary.RollbackAll();
      if rolled.Err? { r := Err(NotConnected); }
    }

    /** Opens a handle, if none is open and the first connection is free of cursors. */
    method BeginTransaction(principal: string, answers: Answers, due: bool, expired: set<nat>) returns (r: Result<nat, CallFault>)
      requires Valid()
      modifies Repr()
      ensures Valid() && Renewed()
      ensures r.Ok? ==>
        && handle != null && fresh(handle) && handle.id == r.value && handle.principal == principal
        && handle.savepoints == [] && r.value !in old(closed)
      ensures r.Ok? && old(handle) != null ==> old(handle.id) in closed
      ensures r.Err? ==> handle in {null, old(handle)}
      ensures primary == old(primary) && primary.client.s.alive && !primary.client.refused && old(handle) == null ==>
        (r.Ok? <==> Without(old(primary.cursors), expired) == map[])
      ensures Spares(expired)
      ensures due ==> handle == null || fresh(handle)
      ensures CommitsNothing()
    {
      var clear := ClearPrimary(due, expired);
      if clear.Err? { return Err(clear.error); }
      r := OpenHandle(principal, answers);
    }

    /** Opens a handle on the first connection. */
    method OpenHandle(principal: string, answers: Answers) returns (r: Result<nat, CallFault>)
      requires Valid() && handle == null && primary.cursors == map[] && !primary.inRead
      modifies this`handle, primary.client
      ensures Valid() && primary.client.s.committed == old(primary.client.s.committed)
      ensures r.Ok? ==>
        && handle != null && fresh(handle) && handle.id == r.value && handle.principal == principal
        && handle.savepoints == [] && r.value !in closed
      ensures r.Err? ==> handle == null
      ensures primary.client.s.alive ==> old(primary.client.s.alive) && (r.Ok? || primary.client.refused)
    {
      var id := FreshId(closed.Keys);
      var begun := BeginBlock(primary.client, Some(id), prefixed, answers);
      if begun.Err? { return Err(NotConnected); }
      handle := new WriteHandle(id, principal);
      r := Ok(id);
    }

    /** Closes what has expired on the first lane, and its read transaction if nothing needs it. */
    method FreePrimary(expired: set<nat>) returns (r: Result<(), CallFault>)
      requires Valid() && handle == null
      modifies primary`inRead, primary`cursors, primary.client
      ensures Valid() && (r.Ok? && primary.client.s.alive ==> (primary.inRead <==> primary.cursors != map[]))
      ensures Spares(expired)
      ensures primary.client.s.alive ==>
        old(primary.client.s.alive) && r.Ok? && primary.cursors == Without(old(primary.cursors), expired)
      ensures CommitsNothing()
    {
      primary.SweepExpired(expired);
      var finished := primary.FinishIfIdle();
      r := if finished.Ok? then Ok(()) else Err(NotConnected);
    }

    /** Whether the open handle is this one, and the caller's. */
    method CheckHandle(id: nat, principal: string) returns (r: Result<(), CallFault>)
      requires Valid()
      ensures r.Ok? <==> handle != null && handle.id == id && handle.principal == principal
      ensures handle != null && handle.id == id && handle.principal != principal ==> r == Err(OtherPrincipal)
      ensures handle == null || handle.id != id ==>
        r == Err(UnknownHandle(if id in closed then Some(closed[id]) else None))
    {
      if handle != null && handle.id == id {
        if handle.principal != principal { return Err(OtherPrincipal); }
        return Ok(());
      }
      r := Err(UnknownHandle(if id in closed then Some(closed[id]) else None));
    }

    /** The caller's handle is open, and stays so. */
    predicate Holds(id: nat, principal: string, due: bool)
      reads this`handle, handle
    {
      handle != null && handle.id == id && handle.principal == principal && !due
    }

    /** What every call on a handle does first. */
    method FindHandle(id: nat, principal: string, due: bool) returns (r: Result<(), CallFault>)
      requires Valid()
      modifies this`handle, this`closed, primary.client
      ensures Valid() && (handle == null || handle == old(handle))
      ensures r.Ok? <==> old(Holds(id, principal, due))
      ensures r.Ok? ==> handle == old(handle) && closed == old(closed)
      ensures handle != null ==> primary.client.s == old(primary.client.s)
      ensures primary.client.s.committed == old(primary.client.s.committed)
      ensures CommitsNothing()
    {
      r := ExpireWriteHandle(due);
      if r.Ok? {
        r := CheckHandle(id, principal);
      }
    }

    /** Commits or rolls back. A success means that all of the handle's work is committed, or none of it; any other answer
        but that the outcome is unknown means that none of it is. The handle is gone in every case. */
    method FinishTransaction(id: nat, principal: string, commits: bool, answers: Answers, due: bool)
      returns (r: Result<(), CallFault>)
      requires Valid()
      modifies Repr()
      ensures Valid() && Renewed() && primary == old(primary)
      ensures r.Ok? ==> old(handle) != null && handle == null && id == old(handle.id)
      ensures r.Ok? ==> id in closed && closed[id] == if commits then HandleState.Committed else HandleState.RolledBack
      ensures old(Holds(id, principal, due)) ==> handle == null
      ensures old(Holds(id, principal, due)) && primary.client.s.alive ==>
        (r.Ok? <==> (commits ==> answers.check && answers.commit && !InAbortedBlock(old(primary.client.s))))
      ensures var work := Work(old(primary.client.s));
        && (r.Ok? && commits ==> primary.client.s.committed == old(primary.client.s.committed) + work)
        && (primary.client.s.committed == old(primary.client.s.committed) ||
            primary.client.s.committed == old(primary.client.s.committed) + work)
      ensures !commits || (r.Err? && r.error != ByFinish(OutcomeUnknown)) ==>
        primary.client.s.committed == old(primary.client.s.committed)
    {
      r := FindHandle(id, principal, due);
      if r.Err? { return; }
      r := EndHandle(commits, answers);
      if r != Err(HandleLost) { DropIdleSecondary(); }
    }

    /** Ends the open handle. What is noted is true, but for a rollback that is noted because a lost connection is not seen
        as closed yet, while the outcome is unknown. */
    method EndHandle(commits: bool, answers: Answers) returns (r: Result<(), CallFault>)
      requires Valid() && handle != null
      modifies this`handle, this`closed, primary.client
      ensures Valid() && handle == null
      ensures old(handle.id) in closed && closed == old(closed)[old(handle.id) := closed[old(handle.id)]]
      ensures r.Ok? ==>
        closed == old(closed)[old(handle.id) := if commits then HandleState.Committed else HandleState.RolledBack]
      ensures r.Err? ==> closed[old(handle.id)] in {HandleState.RolledBack, HandleState.Lost}
      ensures closed[old(handle.id)] == HandleState.RolledBack && r != Err(ByFinish(OutcomeUnknown)) ==>
        primary.client.s.committed == old(primary.client.s.committed)
      ensures primary.client.s.alive ==> old(primary.client.s.alive)
      ensures primary.client.s.alive ==>
        (r.Ok? <==> (commits ==> answers.check && answers.commit && !InAbortedBlock(old(primary.client.s))))
      ensures var work := Work(old(primary.client.s));
        && (r.Ok? && commits ==> primary.client.s.committed == old(primary.client.s.committed) + work)
        && (primary.client.s.committed == old(primary.client.s.committed) ||
            primary.client.s.committed == old(primary.client.s.committed) + work)
      ensures !commits || (r.Err? && r.error != ByFinish(OutcomeUnknown)) ==>
        primary.client.s.committed == old(primary.client.s.committed)
    {
      r := Ok(());
      var unreachable := primary.client.IsClosed();
      if unreachable {
        Close(HandleState.Lost);
        return Err(HandleLost);
      }
      var finish := FinishBlock(primary.client, probes, commits, answers);
      if finish == Finished {
        Close(if commits then HandleState.Committed else HandleState.RolledBack);
      } else {
        unreachable := primary.client.IsClosed();
        Close(if unreachable then HandleState.Lost else HandleState.RolledBack);
        r := Err(ByFinish(finish));
      }
    }

    method MakeSavepoint(id: nat, principal: string, name: string, due: bool) returns (r: Result<(), CallFault>)
      requires Valid()
      modifies Repr()
      ensures Valid() && Renewed() && primary == old(primary)
      ensures r.Ok? ==> handle != null && handle == old(handle) && handle.savepoints == old(handle.savepoints) + [name]
      ensures handle != null && handle == old(handle) && r.Err? ==> handle.savepoints == old(handle.savepoints)
      ensures old(Holds(id, principal, due)) && primary.client.s.alive ==> (r.Ok? <==> !InAbortedBlock(old(primary.client.s)))
      ensures r.Ok? ==> old(Holds(id, principal, due))
      ensures CommitsNothing()
    {
      r := FindHandle(id, principal, due);
      if r.Err? { return; }
      var made := handle.MakeSavepoint(primary.client, name);
      if made.Err? { r := Err(ByHandle(HandleFault.Server(made.error))); }
    }

    method RollBackTo(id: nat, principal: string, name: string, due: bool) returns (r: Result<(), CallFault>)
      requires Valid()
      modifies Repr()
      ensures Valid() && Renewed() && primary == old(primary)
      ensures r.Ok? ==> old(Holds(id, principal, due)) && handle == old(handle) && name in old(handle.savepoints)
      ensures old(Holds(id, principal, due)) && primary.client.s.alive ==> (r.Ok? <==> name in old(handle.savepoints))
      ensures handle != null && handle == old(handle) && r.Err? ==> handle.savepoints == old(handle.savepoints)
      ensures CommitsNothing()
    {
      r := FindHandle(id, principal, due);
      if r.Err? { return; }
      var rolled := handle.RollBackTo(primary.client, name);
      if rolled.Err? { r := Err(ByHandle(rolled.error)); }
    }

    /** Tells the state of a handle, which is rolled back if it is due, and lost if its connection is. */
    method TransactionStatus(id: nat, principal: string, due: bool) returns (r: Result<Standing, CallFault>)
      requires Valid()
      modifies this`handle, this`closed, primary.client
      ensures Valid() && (handle == null || handle == old(handle)) && (due ==> handle == null)
      ensures primary.client.s.committed == old(primary.client.s.committed)
      ensures handle != null ==> primary.client.s == old(primary.client.s) && closed == old(closed)
      ensures r == Ok(StillOpen) ==> old(Holds(id, principal, due)) && handle == old(handle)
      ensures r.Ok? && r.value.Closed? ==> id in closed && closed[id] == r.value.state && (handle == null || handle.id != id)
      ensures old(Holds(id, principal, due)) && handle == null ==> r == Ok(Closed(HandleState.Lost)) && !primary.client.s.alive
      ensures CommitsNothing()
    {
      var expired := ExpireWriteHandle(due);
      if expired.Err? { return Err(expired.error); }
      var unreachable := primary.client.IsClosed();
      if unreachable && handle != null { Close(HandleState.Lost); }
      if handle != null && handle.id == id {
        if handle.principal != principal { return Err(OtherPrincipal); }
        return Ok(StillOpen);
      }
      r := if id in closed then Ok(Closed(closed[id])) else Err(UnknownHandle(None));
    }

    // Writes.

    /** Runs a write in a handle. Nothing is committed by it, and its failure leaves the handle's block as it was. */
    method RunInHandle(id: nat, principal: string, outside: bool, effects: seq<Effect>, ok: bool, code: string, due: bool)
      returns (r: Result<(), CallFault>)
      requires Valid()
      modifies Repr()
      ensures Valid() && Renewed() && primary == old(primary)
      ensures primary.client.s.committed == old(primary.client.s.committed)
      ensures r.Ok? ==> handle != null && handle == old(handle) && TookEffect(old(primary.client.s), effects, primary.client.s)
      ensures r.Ok? ==> old(Holds(id, principal, due))
      ensures old(Holds(id, principal, due)) && !outside && primary.client.s.alive ==>
        (r.Ok? <==> ok && !InAbortedBlock(old(primary.client.s)))
      ensures r.Err? && handle != null && primary.client.s.alive ==> SameButId(old(primary.client.s), primary.client.s)
      ensures outside ==> r == Err(InsideHandle) && primary.client.s == old(primary.client.s) && handle == old(handle)
      ensures CommitsNothing()
    {
      if outside { return Err(InsideHandle); }
      r := FindHandle(id, principal, due);
      if r.Err? { return; }
      r := RunOpen(effects, ok, code);
    }

    /** Runs a write in the open handle, which is lost if the connection is. */
    method RunOpen(effects: seq<Effect>, ok: bool, code: string) returns (r: Result<(), CallFault>)
      requires Valid() && handle != null
      modifies this`handle, this`closed, handle, primary.client
      ensures Valid() && handle in {null, old(handle)}
      ensures primary.client.s.committed == old(primary.client.s.committed)
      ensures r.Ok? ==> handle != null && TookEffect(old(primary.client.s), effects, primary.client.s)
      ensures r.Err? && primary.client.s.alive ==> handle != null && SameButId(old(primary.client.s), primary.client.s)
      ensures primary.client.s.alive ==> old(primary.client.s.alive) && (r.Ok? <==> ok && !InAbortedBlock(old(primary.client.s)))
      ensures CommitsNothing()
    {
      var unreachable := primary.client.IsClosed();
      if unreachable {
        Close(HandleState.Lost);
        return Err(HandleLost);
      }
      var ran := handle.Run(primary.client, effects, ok, code);
      unreachable := primary.client.IsClosed();
      if unreachable { Close(HandleState.Lost); }
      r := if ran.Ok? then Ok(()) else Err(ByHandle(HandleFault.Server(ran.error)));
    }

    /** What a write outside a handle needs first: no handle is open. */
    method RefuseHandle(due: bool) returns (r: Result<(), CallFault>)
      requires Valid()
      modifies this`handle, this`closed, this`primary, this`former, primary.client
      ensures Valid() && (primary == old(primary) || (fresh(primary) && fresh(primary.client)))
      ensures handle == null || (handle == old(handle) && r.Err?)
      ensures r.Ok? && primary != old(primary) ==> primary.client.s.committed == []
      ensures due ==> handle == null
      ensures CommitsNothing()
    {
      r := Refresh(due);
      if r.Ok? && handle != null { r := Err(HandleOpen(handle.id)); }
    }

    /** The first connection if it has no read transaction, else the second. */
    method FreeWriteHold(expired: set<nat>) returns (r: Result<Lane, CallFault>)
      requires Valid() && handle == null
      modifies this`secondary, this`former, primary`inRead, primary`cursors, primary.client, SecondaryObjects()
      ensures handle == null && primary == old(primary)
      ensures Valid() && (secondary == old(secondary) || (secondary != null && fresh(secondary) && fresh(secondary.client)))
      ensures r.Ok? ==> r.value == primary || r.value == secondary
      ensures r.Ok? ==>
        && r.value.client.Clear() && !r.value.inRead
        && (r.value.client.s.alive ==> r.value.cursors == map[])
      ensures secondary != old(secondary) ==> secondary.client.s.committed == []
      ensures Spares(expired)
      ensures r.Ok? ==> (r.value == primary <==> !primary.inRead)
      ensures CommitsNothing()
    {
      var free := FreePrimary(expired);
      if free.Err? { return Err(free.error); }
      if !primary.inRead { return Ok(primary); }
      r := SecondaryWriteHold(expired);
    }

    method SecondaryWriteHold(expired: set<nat>) returns (r: Result<Lane, CallFault>)
      requires Valid()
      modifies this`secondary, this`former, SecondaryObjects()
      ensures handle == old(handle) && primary == old(primary)
      ensures Valid() && (secondary == old(secondary) || (secondary != null && fresh(secondary) && fresh(secondary.client)))
      ensures r.Ok? ==> r.value == secondary
      ensures r.Ok? ==>
        && r.value.client.Clear() && !r.value.inRead
        && (r.value.client.s.alive ==> r.value.cursors == map[])
      ensures secondary != old(secondary) ==> secondary.client.s.committed == []
      ensures Spares(expired)
      ensures CommitsNothing()
    {
      var second := EnsureSecondary();
      if second.Err? { return Err(second.error); }
      FreeSecondary(expired);
      r := if secondary.inRead then Err(CursorsOpen) else Ok(secondary);
    }

    /** Closes what has expired on the second lane, and its read transaction if nothing needs it. */
    method FreeSecondary(expired: set<nat>)
      requires Valid() && secondary != null
      modifies secondary`inRead, secondary`cursors, secondary.client
      ensures Valid() && (secondary.client.s.alive ==> (secondary.inRead <==> secondary.cursors != map[]))
      ensures Spares(expired)
      ensures CommitsNothing()
    {
      secondary.SweepExpired(expired);
      var _ := secondary.FinishIfIdle();
    }

    /** Runs a write and commits it, on the first connection or, while that has cursors, on the second. */
    method WriteFree(outside: bool, effects: seq<Effect>, ok: bool, code: string, answers: Answers, expired: set<nat>)
      returns (r: Result<(), CallFault>)
      requires Valid() && handle == null
      modifies this`secondary, this`former, primary`inRead, primary`cursors, primary.client, SecondaryObjects()
      ensures handle == null && primary == old(primary)
      ensures Valid() && (secondary == old(secondary) || (secondary != null && fresh(secondary) && fresh(secondary.client)))
      ensures r.Ok? ==>
        || primary.client.s.committed == old(primary.client.s.committed) + effects
        || (secondary != null && secondary.client.s.committed ==
              (if secondary == old(secondary) then old(secondary.client.s.committed) else []) + effects)
      ensures Spares(expired)
      ensures r.Err? && prefixed && !outside && r.error != ByStatement(ByCommit(OutcomeUnknown)) ==> CommitsNothing()
    {
      var hold := FreeWriteHold(expired);
      if hold.Err? { return Err(hold.error); }
      var ran := Autocommit(hold.value.client, probes, prefixed, outside, effects, ok, code, answers);
      r := if ran.Ok? then Ok(()) else Err(ByStatement(ran.error));
    }

    /** Runs a write and commits it, never while a handle is open. */
    method RunWrite(outside: bool, effects: seq<Effect>, ok: bool, code: string, answers: Answers, due: bool, expired: set<nat>)
      returns (r: Result<(), CallFault>)
      requires Valid()
      modifies Repr()
      ensures Valid() && Renewed()
      ensures r.Ok? ==> handle == null
      ensures Spares(expired)
      ensures r.Ok? ==>
        || primary.client.s.committed == (if primary == old(primary) then old(primary.client.s.committed) else []) + effects
        || (secondary != null && secondary.client.s.committed ==
              (if secondary == old(secondary) then old(secondary.client.s.committed) else []) + effects)
      ensures r.Err? && prefixed && !outside && r.error != ByStatement(ByCommit(OutcomeUnknown)) ==> CommitsNothing()
    {
      r := RefuseHandle(due);
      if r.Ok? {
        r := WriteFree(outside, effects, ok, code, answers, expired);
      }
    }

    /** Runs a statement and takes it back. */
    method ExplainFree(effects: seq<Effect>, ok: bool, code: string, answers: Answers, expired: set<nat>)
      returns (r: Result<(), CallFault>)
      requires Valid() && handle == null
      modifies this`secondary, this`former, primary`inRead, primary`cursors, primary.client, SecondaryObjects()
      ensures handle == null && primary == old(primary)
      ensures Valid() && (secondary == old(secondary) || (secondary != null && fresh(secondary) && fresh(secondary.client)))
      ensures Spares(expired)
      ensures CommitsNothing()
    {
      var hold := FreeWriteHold(expired);
      if hold.Err? { return Err(hold.error); }
      var ran := RunThenRollback(hold.value.client, prefixed, effects, ok, code, answers);
      r := if ran.Ok? then Ok(()) else Err(ByStatement(BySql(ran.error)));
    }

    /** Runs a statement for its plan and takes it back, never while a handle is open: nothing is committed. */
    method RunAndRollback(effects: seq<Effect>, ok: bool, code: string, answers: Answers, due: bool, expired: set<nat>)
      returns (r: Result<(), CallFault>)
      requires Valid()
      modifies Repr()
      ensures Valid() && Renewed()
      ensures r.Ok? ==> handle == null
      ensures Spares(expired)
      ensures CommitsNothing()
    {
      r := RefuseHandle(due);
      if r.Ok? {
        r := ExplainFree(effects, ok, code, answers, expired);
      }
    }

    /** Copies rows in, on the first connection: in the caller's handle, or without one while none is open. */
    method CopyIn(id: Option<nat>, principal: string, effects: seq<Effect>, ok: bool, code: string,
                  answers: Answers, due: bool, expired: set<nat>) returns (r: Result<(), CallFault>)
      requires Valid()
      modifies Repr()
      ensures Valid() && Renewed()
      ensures r.Ok? && id.Some? ==>
        && handle != null && handle == old(handle) && handle.id == id.value && primary == old(primary)
        && TookEffect(old(primary.client.s), effects, primary.client.s)
      ensures r.Ok? && id.None? ==>
        && handle == null
        && primary.client.s.committed == (if primary == old(primary) then old(primary.client.s.committed) else []) + effects
      ensures Spares(expired)
    {
      var refreshed := Refresh(due);
      if refreshed.Err? { return Err(refreshed.error); }
      if id.Some? {
        r := CopyInHandle(id.value, principal, effects, ok, code);
        return;
      }
      if handle != null { return Err(HandleOpen(handle.id)); }
      r := CopyFree(effects, ok, code, answers, expired);
    }

    /** Copies rows in, in the caller's handle. */
    method CopyInHandle(id: nat, principal: string, effects: seq<Effect>, ok: bool, code: string)
      returns (r: Result<(), CallFault>)
      requires Valid()
      modifies if handle == null then {} else {handle}, primary.client
      ensures Valid() && primary.client.s.committed == old(primary.client.s.committed)
      ensures r.Ok? ==> handle != null && handle.id == id && TookEffect(old(primary.client.s), effects, primary.client.s)
    {
      r := CheckHandle(id, principal);
      if r.Err? { return; }
      var copied := handle.Run(primary.client, effects, ok, code);
      r := if copied.Ok? then Ok(()) else Err(ByHandle(HandleFault.Server(copied.error)));
    }

    /** Copies rows in without a handle. */
    method CopyFree(effects: seq<Effect>, ok: bool, code: string, answers: Answers, expired: set<nat>)
      returns (r: Result<(), CallFault>)
      requires Valid() && handle == null
      modifies primary`inRead, primary`cursors, primary.client
      ensures Valid() && (r.Ok? ==> primary.client.s.committed == old(primary.client.s.committed) + effects)
      ensures primary.client.s.alive ==> Survive(old(primary.cursors), primary.cursors, expired)
    {
      var free := FreePrimary(expired);
      if free.Err? { return Err(free.error); }
      if primary.inRead { return Err(CursorsOpen); }
      var ran := Autocommit(primary.client, probes, prefixed, false, effects, ok, code, answers);
      r := if ran.Ok? then Ok(()) else Err(ByStatement(ran.error));
    }

    // Housekeeping.

    /** Ends what is due: cursors, read transactions that nothing needs, the handle, and an idle second connection. */
    method Sweep(due: bool, expired: set<nat>)
      requires Valid()
      modifies Repr()
      ensures Valid() && Renewed() && primary == old(primary) && handle == (if due then null else old(handle))
      ensures Spares(expired)
      ensures CommitsNothing()
    {
      SweepPrimary(due, expired);
      if secondary != null { FreeSecondary(expired); }
      if handle == null { DropIdleSecondary(); }
    }

    method SweepPrimary(due: bool, expired: set<nat>)
      requires Valid()
      modifies this`handle, this`closed, primary`inRead, primary`cursors, primary.client
      ensures Valid() && handle == (if due then null else old(handle))
      ensures primary.client.s.alive ==> Survive(old(primary.cursors), primary.cursors, expired)
      ensures primary.client.s.committed == old(primary.client.s.committed)
    {
      if handle == null {
        var _ := FreePrimary(expired);
      }
      var _ := ExpireWriteHandle(due);
    }

    /** Ends everything at shutdown. */
    method ReleaseEverything()
      requires Valid()
      modifies Repr()
      ensures Valid() && Renewed() && handle == null && primary.cursors == map[] && !primary.inRead
      ensures primary.client.Clear()
      ensures secondary != null ==>
        secondary.cursors == map[] && !secondary.inRead && secondary.client.Clear()
      ensures old(handle) != null ==> closed == old(closed)[old(handle.id) := HandleState.RolledBack]
      ensures CommitsNothing()
    {
      ReleasePrimary();
      if secondary != null { ReleaseSecondary(); }
    }

    method ReleasePrimary()
      requires Valid()
      modifies this`handle, this`closed, primary, primary.client
      ensures Valid() && handle == null && primary.cursors == map[] && !primary.inRead
      ensures old(handle) != null ==> closed == old(closed)[old(handle.id) := HandleState.RolledBack]
      ensures CommitsNothing()
    {
      if handle != null { ReleaseHandle(); }
      var unreachable := primary.client.IsClosed();
      if unreachable {
        primary.ForgetState();
      } else {
        var _ := primary.RollbackAll();
      }
    }

    method ReleaseHandle()
      requires Valid() && handle != null
      modifies this`handle, this`closed, primary.client
      ensures Valid() && handle == null
      ensures closed == old(closed)[old(handle.id) := HandleState.RolledBack]
      ensures primary.client.s.committed == old(primary.client.s.committed)
    {
      var unreachable := primary.client.IsClosed();
      if !unreachable { var _ := primary.client.Send(Backend.Rollback); }
      Close(HandleState.RolledBack);
    }

    method ReleaseSecondary()
      requires Valid() && secondary != null
      modifies secondary, secondary.client
      ensures Valid() && secondary.cursors == map[] && !secondary.inRead
      ensures CommitsNothing()
    {
      var unreachable := secondary.client.IsClosed();
      if unreachable {
        secondary.ForgetState();
      } else {
        var _ := secondary.RollbackAll();
      }
    }
  }

  /** The calls of the engine, with what the environment makes of each: whether the handle is due, which cursors have
      expired, what the statement does, and how the server answers what the engine adds to it. */
  datatype Call =
    | Read(due: bool, settings: bool, owner: Option<string>, expired: set<nat>, effects: seq<Effect>, ok: bool, code: string,
           rounds: nat)
    | Catalog(due: bool, settings: bool, expired: set<nat>, ok: bool, code: string)
    | CopyOutCall(due: bool, settings: bool, expired: set<nat>, ok: bool, code: string)
    | FetchCall(id: nat, principal: string, expired: set<nat>, rounds: nat)
    | CloseCall(id: nat, principal: string)
    | BeginCall(principal: string, answers: Answers, due: bool, expired: set<nat>)
    | StatusCall(id: nat, principal: string, due: bool)
    | FinishCall(id: nat, principal: string, commits: bool, answers: Answers, due: bool)
    | SavepointCall(id: nat, principal: string, name: string, due: bool)
    | RollbackToCall(id: nat, principal: string, name: string, due: bool)
    | HandleWrite(id: nat, principal: string, outside: bool, effects: seq<Effect>, ok: bool, code: string, due: bool)
    | Write(outside: bool, effects: seq<Effect>, ok: bool, code: string, answers: Answers, due: bool, expired: set<nat>)
    | Explain(effects: seq<Effect>, ok: bool, code: string, answers: Answers, due: bool, expired: set<nat>)
    | CopyInCall(copyId: Option<nat>, principal: string, effects: seq<Effect>, ok: bool, code: string, answers: Answers,
                 due: bool, expired: set<nat>)
    | SweepCall(due: bool, expired: set<nat>)
    | Release

  method Perform(engine: SingleEngine, call: Call)
    requires engine.Valid()
    modifies engine.Repr()
    ensures engine.Valid() && engine.Renewed()
  {
    match call
    case Read(due, settings, owner, expired, effects, ok, code, rounds) =>
      var _ := engine.RunRead(due, settings, owner, expired, effects, ok, code, rounds);
    case Catalog(due, settings, expired, ok, code) => var _ := engine.CatalogRows(due, settings, expired, ok, code);
    case CopyOutCall(due, settings, expired, ok, code) => var _ := engine.CopyOut(due, settings, expired, ok, code);
    case FetchCall(id, principal, expired, rounds) => var _ := engine.Fetch(id, principal, expired, rounds);
    case CloseCall(id, principal) => var _ := engine.CloseCursor(id, principal);
    case BeginCall(principal, answers, due, expired) =>
      var _ := engine.BeginTransaction(principal, answers, due, expired);
    case StatusCall(id, principal, due) => var _ := engine.TransactionStatus(id, principal, due);
    case FinishCall(id, principal, commits, answers, due) =>
      var _ := engine.FinishTransaction(id, principal, commits, answers, due);
    case SavepointCall(id, principal, name, due) => var _ := engine.MakeSavepoint(id, principal, name, due);
    case RollbackToCall(id, principal, name, due) => var _ := engine.RollBackTo(id, principal, name, due);
    case HandleWrite(id, principal, outside, effects, ok, code, due) =>
      var _ := engine.RunInHandle(id, principal, outside, effects, ok, code, due);
    case Write(outside, effects, ok, code, answers, due, expired) =>
      var _ := engine.RunWrite(outside, effects, ok, code, answers, due, expired);
    case Explain(effects, ok, code, answers, due, expired) =>
      var _ := engine.RunAndRollback(effects, ok, code, answers, due, expired);
    case CopyInCall(id, principal, effects, ok, code, answers, due, expired) =>
      var _ := engine.CopyIn(id, principal, effects, ok, code, answers, due, expired);
    case SweepCall(due, expired) => engine.Sweep(due, expired);
    case Release => engine.ReleaseEverything();
  }

  method Step(engine: SingleEngine, call: Call)
    requires engine.Valid()
    modifies engine.Repr()
    ensures engine.Valid() && forall o :: o in engine.Repr() ==> o in old(engine.Repr()) || fresh(o)
  {
    Perform(engine, call);
  }

  /** Over every run of calls: on every connection there ever was, every user's statement was sent where it should be, a
      handle's only into that handle's block and any other only outside such a block; while a handle is open its lane has
      no cursor and no read transaction; and without one the lane's table is the server's open portals, in a read
      transaction exactly if the lane thinks so, except in an aborted block, which there is only after the server has
      refused a statement of the engine's own. A block that was left aborted is, on a connection that still lives, exactly
      as it was left, and so is what the connection has committed. */
  method Run(calls: seq<Call>, prefixed: bool, probes: bool) returns (engine: SingleEngine)
    ensures engine.Valid()
    ensures engine.handle == null && !engine.primary.inRead ==> engine.primary.client.Clear()
    ensures engine.secondary != null && !engine.secondary.inRead ==> engine.secondary.client.Clear()
    ensures forall ran :: ran in engine.primary.client.ran + engine.former ==> Proper(ran)
    ensures engine.secondary != null ==> forall ran :: ran in engine.secondary.client.ran ==> Proper(ran)
    ensures engine.handle != null ==>
      && engine.primary.cursors == map[] && !engine.primary.inRead
      && (engine.primary.client.s.alive ==>
            var block := engine.primary.client.s.block;
            && block.Open? && block.owner == Some(engine.handle.id) && !block.readOnly
            && SameStack(engine.handle.savepoints, block.saves))
    ensures engine.handle == null && engine.primary.client.s.alive && !InAbortedBlock(engine.primary.client.s) ==>
      var block, portals := engine.primary.client.s.block, Portals(engine.primary.cursors);
      && (if engine.primary.inRead then Reading(block, portals) else block.Idle? && portals == {})
    ensures engine.handle == null && InAbortedBlock(engine.primary.client.s) && engine.primary.client.s.alive ==>
      engine.primary.client.refused
  {
    engine := new SingleEngine(prefixed, probes);
    for i := 0 to |calls|
      invariant engine.Valid() && forall o :: o in engine.Repr() ==> fresh(o)
    {
      Step(engine, calls[i]);
    }
  }

  /** An id that is not in use. */
  method FreshId(used: set<nat>) returns (id: nat)
    ensures id !in used
  {
    id := *;
    var rest := used;
    ghost var seen: set<nat> := {};
    while rest != {}
      invariant rest + seen == used && forall other :: other in seen ==> other < id
      decreases |rest|
    {
      var other :| other in rest;
      rest, seen := rest - {other}, seen + {other};
      if other >= id { id := other + 1; }
    }
  }
}
