/** A lane: a connection with the cursors open on it and the read transaction they live in:
    crates/ownpg-core/src/engine.rs. */
module Lanes {
  import opened Basics
  import opened Backend
  import opened Guard

  const CURSOR_CAP: nat := 8

  /** A cursor: the portal it reads from, and its owner. */
  datatype Cursor = Cursor(portal: nat, principal: string)

  type Cursors = map<nat, Cursor>

  function Portals(cursors: Cursors): set<nat> {
    set id | id in cursors :: cursors[id].portal
  }

  /** Different cursors read from different portals, none of them newer than the count. */
  predicate Distinct(cursors: Cursors, count: nat) {
    && (forall id :: id in cursors ==> cursors[id].portal <= count)
    && (forall a, b :: a in cursors && b in cursors && cursors[a].portal == cursors[b].portal ==> a == b)
  }

  function Without(cursors: Cursors, ids: set<nat>): Cursors {
    cursors - ids
  }

  /** The ends of a sweep, and a step of it. */
  lemma SweepEnds(cursors: Cursors, expired: set<nat>)
    ensures Without(cursors, expired - expired) == cursors && Without(cursors, expired - {}) == Without(cursors, expired)
  {
    assert expired - {} == expired;
  }

  lemma SweepStep(cursors: Cursors, expired: set<nat>, left: set<nat>, id: nat)
    requires left <= expired && id in left
    ensures Without(Without(cursors, expired - left), {id}) == Without(cursors, expired - (left - {id}))
    ensures left - {id} <= expired && |left - {id}| < |left|
  {
    assert expired - (left - {id}) == expired - left + {id};
  }

  lemma RemovePortal(cursors: Cursors, count: nat, id: nat)
    requires Distinct(cursors, count) && id in cursors
    ensures Portals(cursors - {id}) == Portals(cursors) - {cursors[id].portal} && cursors[id].portal in Portals(cursors)
    ensures Distinct(cursors - {id}, count) && |cursors - {id}| == |cursors| - 1
  {
    var rest := cursors - {id};
    forall portal | portal in Portals(cursors) - {cursors[id].portal} ensures portal in Portals(rest) {
      var other :| other in cursors && cursors[other].portal == portal;
      assert other in rest;
    }
    assert cursors.Keys == rest.Keys + {id};
  }

  lemma AddPortal(cursors: Cursors, count: nat, id: nat, cursor: Cursor)
    requires Distinct(cursors, count) && id !in cursors && cursor.portal > count
    ensures Portals(cursors[id := cursor]) == Portals(cursors) + {cursor.portal} && cursor.portal !in Portals(cursors)
    ensures Distinct(cursors[id := cursor], cursor.portal) && |cursors[id := cursor]| == |cursors| + 1
  {
    var more := cursors[id := cursor];
    forall portal | portal in Portals(cursors) ensures portal in Portals(more) {
      var other :| other in cursors && cursors[other].portal == portal;
      assert more[other].portal == portal;
    }
    assert more[id].portal == cursor.portal;
    assert more.Keys == cursors.Keys + {id};
  }

  /** Whatever the server makes of a CLOSE, what is left is a read transaction with the other portals. */
  lemma ClosedStaysInRead(s: State, portals: set<nat>, portal: nat, ok: bool, code: string, refused: bool)
    requires s.alive && InRead(s.block, portals, refused) && portal in portals
    ensures var command := Close(portal, ok, code);
            InRead(Apply(s, command).0.block, portals - {portal}, refused || Refusal(s, command))
            && Apply(s, command).0 == s.(block := Apply(s, command).0.block)
  {
  }

  /** One cursor more. */
  predicate Kept(before: Cursors, after: Cursors, id: nat, principal: string) {
    id !in before && id in after && after[id].principal == principal && after == before[id := after[id]]
  }

  /** A read transaction holding exactly these portals. */
  predicate Reading(block: Block, portals: set<nat>) {
    && block.Open? && block.owner == None && block.readOnly && !block.failed && block.work == [] && block.saves == []
    && block.portals == portals
  }

  /** A read transaction that a refused CLOSE has aborted; the portal that was not closed is still there. */
  predicate Spoilt(block: Block, portals: set<nat>) {
    && block.Open? && block.owner == None && block.readOnly && block.failed && block.work == []
    && portals <= block.portals
  }

  /** The read transaction of a lane: it holds exactly the cursors' portals, unless a CLOSE has been refused. */
  predicate InRead(block: Block, portals: set<nat>, refused: bool) {
    Reading(block, portals) || (refused && Spoilt(block, portals))
  }

  /** The same inside a call's savepoint, set when these portals were open. */
  predicate InCall(block: Block, portals: set<nat>) {
    && block.Open? && block.owner == None && block.readOnly && block.work == []
    && block.saves == [Save(SAVEPOINT_NAME, [], portals)] && portals <= block.portals
  }

  datatype LaneFault = AtCursorCap | UnknownCursor | Server(fault: Fault)

  function LaneOutcome<T>(r: Result<T, Fault>): Result<T, LaneFault> {
    match r
    case Ok(value) => Ok(value)
    case Err(fault) => Err(Server(fault))
  }

  /** What a read leaves of the cursors. */
  predicate Served(before: Cursors, after: Cursors, r: Result<Option<nat>, LaneFault>, owner: Option<string>, id: nat) {
    match r
    case Ok(Some(kept)) => kept == id && owner.Some? && Kept(before, after, id, owner.value)
    case Ok(None) => after == before
    case Err(AtCursorCap) => after == before && owner.Some? && |before| >= CURSOR_CAP
    case Err(fault) => after == if fault == Server(Sql(ABORTED)) then map[] else before
  }

  lemma OnlyOne(cursors: Cursors, id: nat)
    requires id in cursors
    ensures |cursors| <= 1 ==> Without(cursors, {id}) == map[]
  {
    if |cursors| <= 1 {
      forall other | other in cursors ensures other == id {
        if other != id {
          assert {id, other} <= cursors.Keys;
          assert |{id, other}| == 2;
          Subset({id, other}, cursors.Keys);
        }
      }
    }
  }

  lemma {:induction false} Subset(a: set<nat>, b: set<nat>)
    requires a <= b
    ensures |a| <= |b|
  {
    assert b == a + (b - a);
  }

  class Lane {
    const client: Client
    var inRead: bool
    var cursors: Cursors
    var nextCursor: nat

    constructor (client: Client)
      requires client.Sound() && client.s.block.Idle? && client.left == []
      ensures this.client == client && cursors == map[] && !inRead && Valid()
    {
      this.client, inRead, cursors, nextCursor := client, false, map[], 0;
    }

    /** The cursor table. */
    ghost predicate ValidTable()
      reads this`cursors, this`nextCursor
    {
      Distinct(cursors, nextCursor) && |cursors| <= CURSOR_CAP
    }

    /** On a live connection the table is the backend's open portals, in a read transaction that the lane knows of; and
        without one there is no block and no cursor. Only a refusal by the server can leave it otherwise, in an aborted
        block. */
    ghost predicate Agrees()
      reads this`inRead, this`cursors, client`s, client`refused, client`left
    {
      && |client.left| <= 1
      && (client.s.alive ==>
            if inRead then InRead(client.s.block, Portals(cursors), client.refused) && client.left == []
            else client.Clear() && cursors == map[])
    }

    ghost predicate Valid()
      reads this, client
    {
      client.Sound() && ValidTable() && Agrees()
    }

    method ForgetState()
      requires client.Sound() && !client.s.alive && |client.left| <= 1
      modifies this`inRead, this`cursors
      ensures !inRead && cursors == map[] && Distinct(cursors, nextCursor) && Valid()
    {
      inRead := false;
      cursors := map[];
    }

    /** Opens the read transaction if it is not open; prefixed says whether settings are sent with it. If they are refused,
        the block is left, aborted, and the lane takes it for absent. */
    method BeginRead(prefixed: bool, settings: bool) returns (r: Outcome)
      requires Valid()
      modifies this`inRead, client
      ensures Valid() && (old(client.refused) ==> client.refused)
      ensures client.s.alive ==> old(client.s.alive) && (r.Ok? <==> inRead)
      ensures client.s.alive ==> (inRead <==> old(inRead) || (old(client.s.block).Idle? && (prefixed ==> settings)))
      ensures client.s.alive && r.Err? ==> cursors == map[] && client.refused && Stuck(client.s.block)
      ensures old(inRead) ==> client.s == old(client.s) && client.refused == old(client.refused) && client.left == old(client.left)
      ensures client.s.alive && inRead && !old(inRead) ==> Reading(client.s.block, {})
      ensures client.s.committed == old(client.s.committed)
    {
      if inRead { return Ok(()); }
      var reply := client.Send(Begin(None, true));
      if reply == Done && prefixed {
        reply := client.Send(SetLocal(settings));
      }
      r := OutcomeOf(reply);
      if r.Ok? { inRead := true; }
      if r.Err? && client.s.alive && client.left == [] { client.LeaveAborted(); }
    }

    method RollbackAll() returns (r: Outcome)
      requires client.Sound() && Distinct(cursors, nextCursor)
      requires if inRead then |client.left| <= 1 && (client.s.alive ==> client.left == []) else client.Clear()
      modifies this`inRead, this`cursors, client
      ensures Valid() && cursors == map[] && !inRead && client.refused == old(client.refused) && client.left == old(client.left)
      ensures client.s.alive ==> old(client.s.alive) && r.Ok? && (old(inRead) ==> client.s.block.Idle?)
      ensures !old(inRead) ==> client.s == old(client.s)
      ensures client.s.committed == old(client.s.committed)
    {
      r := Ok(());
      cursors := map[];
      if inRead {
        inRead := false;
        var reply := client.Send(Rollback);
        r := OutcomeOf(reply);
      }
    }

    method FinishIfIdle() returns (r: Outcome)
      requires Valid()
      modifies this`inRead, this`cursors, client
      ensures Valid() && cursors == old(cursors)
      ensures client.s.alive ==> old(client.s.alive) && r.Ok? && (inRead <==> cursors != map[])
      ensures old(client.refused) ==> client.refused
      ensures client.s.committed == old(client.s.committed)
    {
      r := Ok(());
      if cursors == map[] && inRead {
        r := RollbackAll();
      }
    }

    /** Sends a CLOSE. If the server refuses, the portal stays, in a read transaction that is aborted. */
    method SendClose(portal: nat, ghost portals: set<nat>) returns (reply: Reply)
      requires client.Sound()
      requires client.s.alive ==> InRead(client.s.block, portals, client.refused) && portal in portals
      modifies client
      ensures client.Sound() && (old(client.refused) ==> client.refused) && client.left == old(client.left)
      ensures client.s.alive ==> old(client.s.alive) && InRead(client.s.block, portals - {portal}, client.refused)
      ensures client.s.alive ==> reply != Lost
      ensures client.s.committed == old(client.s.committed)
    {
      var ok: bool, code: string := *, *;
      if client.s.alive { ClosedStaysInRead(client.s, portals, portal, ok, code, client.refused); }
      reply := client.Send(Close(portal, ok, code));
    }

    /** Closes one cursor, on the server as far as that agrees. */
    method CloseCursorNow(id: nat)
      requires Valid()
      modifies this`cursors, client
      ensures Valid() && cursors == Without(old(cursors), {id})
      ensures client.s.alive ==> old(client.s.alive)
      ensures old(client.refused) ==> client.refused
      ensures client.s.committed == old(client.s.committed)
    {
      if id in cursors {
        ghost var portals := Portals(cursors);
        RemovePortal(cursors, nextCursor, id);
        var portal := cursors[id].portal;
        cursors := cursors - {id};
        var _ := SendClose(portal, portals);
      }
    }

    /** Closes the cursors that have expired. */
    method SweepExpired(expired: set<nat>)
      requires Valid()
      modifies this`cursors, client
      ensures Valid() && cursors == Without(old(cursors), expired)
      ensures client.s.alive ==> old(client.s.alive)
      ensures old(client.refused) ==> client.refused
      ensures client.s.committed == old(client.s.committed)
    {
      var left := expired;
      SweepEnds(cursors, expired);
      while left != {}
        invariant Valid() && left <= expired && cursors == Without(old(cursors), expired - left)
        invariant client.s.alive ==> old(client.s.alive)
        invariant old(client.refused) ==> client.refused
        invariant client.s.committed == old(client.s.committed)
        decreases |left|
      {
        var id :| id in left;
        SweepStep(old(cursors), expired, left, id);
        left := left - {id};
        CloseCursorNow(id);
      }
    }

    /** After a call: the read transaction is finished if no cursor needs it, and rolled back if the call says that it is
        aborted. */
    method SettleLane(aborted: bool)
      requires Valid()
      modifies this`inRead, this`cursors, client
      ensures Valid()
      ensures client.s.alive ==> old(client.s.alive) && cursors == (if aborted then map[] else old(cursors))
      ensures client.s.alive ==> (inRead <==> cursors != map[])
      ensures |cursors| <= |old(cursors)|
      ensures old(client.refused) ==> client.refused
      ensures client.s.committed == old(client.s.committed)
    {
      var closed := client.IsClosed();
      if closed {
        ForgetState();
      } else if aborted {
        var _ := RollbackAll();
      } else {
        var _ := FinishIfIdle();
      }
    }

    /** Sets the call's savepoint, which an aborted read transaction refuses. */
    method Enter(ghost portals: set<nat>) returns (r: Outcome)
      requires client.Sound() && (client.s.alive ==> InRead(client.s.block, portals, client.refused))
      modifies client
      ensures client.Sound() && client.refused == old(client.refused) && client.left == old(client.left)
      ensures client.s.alive ==> old(client.s.alive) && (r.Ok? <==> Reading(old(client.s.block), portals))
      ensures client.s.alive && r.Ok? ==>
        InCall(client.s.block, portals) && !client.s.block.failed && client.s.block.portals == portals
      ensures client.s.alive && r.Err? ==> client.s == old(client.s) && r == Err(Sql(ABORTED))
      ensures client.s.committed == old(client.s.committed)
    {
      var reply := client.Send(Savepoint(SAVEPOINT_NAME));
      r := OutcomeOf(reply);
    }

    /** Drops it after a success. */
    method Leave(ghost portals: set<nat>) returns (r: Outcome)
      requires client.Sound() && (client.s.alive ==> InCall(client.s.block, portals) && !client.s.block.failed)
      modifies client
      ensures client.Sound() && client.refused == old(client.refused) && client.left == old(client.left)
      ensures client.s.alive ==>
        old(client.s.alive) && r.Ok? && old(client.s.block).Open? && Reading(client.s.block, old(client.s.block).portals)
      ensures client.s.committed == old(client.s.committed)
    {
      var reply := client.Send(Release(SAVEPOINT_NAME));
      r := OutcomeOf(reply);
    }

    /** Undoes the call after a failure. */
    method BackOut(ghost portals: set<nat>)
      requires client.Sound() && (client.s.alive ==> InCall(client.s.block, portals))
      modifies client
      ensures client.Sound() && client.refused == old(client.refused) && client.left == old(client.left)
      ensures client.s.alive ==> old(client.s.alive) && Reading(client.s.block, portals)
      ensures client.s.committed == old(client.s.committed)
    {
      ghost var block := client.s.block;
      RollbackSavepoint(client);
      if client.s.alive {
        assert block.saves[..1] == block.saves && block.saves[..0] == [];
        assert block.portals * portals == portals;
      }
    }

    /** Fetches a page, in as many rounds as it takes. */
    method FetchPage(portal: nat, rounds: nat) returns (r: Outcome)
      requires client.Sound()
      requires client.s.alive ==>
        var block := client.s.block; block.Open? && block.owner == None && (block.failed || portal in block.portals)
      modifies client
      ensures client.Sound() && client.refused == old(client.refused) && client.left == old(client.left)
      ensures client.s.alive ==>
        && old(client.s.alive) && client.s.block == (if r.Ok? then old(client.s.block) else Abort(old(client.s.block)))
        && (r.Err? ==> r.error.Sql?)
      ensures client.s.committed == old(client.s.committed)
    {
      r := Ok(());
      for i := 0 to rounds
        invariant client.Sound() && r.Ok? && client.s.committed == old(client.s.committed)
        invariant client.s.alive ==> old(client.s.alive) && client.s.block == old(client.s.block)
        invariant client.refused == old(client.refused) && client.left == old(client.left)
      {
        var ok: bool, code: string := *, *;
        var reply := client.Send(Fetch(portal, ok, code));
        r := OutcomeOf(reply);
        if r.Err? { return; }
      }
    }

    /** Sends a statement inside the call's savepoint, and undoes the call if it fails. */
    method SendInCall(ghost portals: set<nat>, command: Command) returns (r: Outcome)
      requires client.Sound() && (command.User? || command.Declare?)
      requires command.User? ==> command.caller == None && command.effects == []
      requires client.s.alive ==> InCall(client.s.block, portals) && !client.s.block.failed
      requires command.Declare? && client.s.alive ==> command.portal !in client.s.block.portals
      modifies client
      ensures client.Sound() && client.refused == old(client.refused) && client.left == old(client.left)
      ensures client.s.alive ==> old(client.s.alive) && old(client.s.block).Open?
      ensures client.s.alive ==>
        if r.Ok? then
          && InCall(client.s.block, portals) && !client.s.block.failed
          && client.s.block.portals == old(client.s.block).portals + if command.Declare? then {command.portal} else {}
        else Reading(client.s.block, portals)
      ensures client.s.committed == old(client.s.committed)
    {
      var reply := client.Send(command);
      r := OutcomeOf(reply);
      if r.Err? { BackOut(portals); }
    }

    /** Opens a portal and takes its first page; a failure leaves everything as it was. */
    method OpenPortal(ghost portals: set<nat>, portal: nat, rounds: nat) returns (r: Outcome)
      requires client.Sound() && portal !in portals
      requires client.s.alive ==> InCall(client.s.block, portals) && !client.s.block.failed && client.s.block.portals == portals
      modifies client
      ensures client.Sound() && client.refused == old(client.refused) && client.left == old(client.left)
      ensures client.s.alive ==> old(client.s.alive) && Reading(client.s.block, portals + if r.Ok? then {portal} else {})
      ensures client.s.committed == old(client.s.committed)
    {
      var ok: bool, code: string := *, *;
      r := SendInCall(portals, Declare(portal, ok, code));
      if r.Ok? {
        r := FetchPage(portal, rounds);
        if r.Ok? {
          r := Leave(portals);
        } else {
          BackOut(portals);
        }
      }
      assert portals + {} == portals;
    }

    /** Opens a cursor and takes its first page; if there are more rows, the cursor stays open under this id. */
    method ReadThroughCursor(id: nat, principal: string, rounds: nat) returns (r: Result<Option<nat>, Fault>)
      requires Valid() && |cursors| < CURSOR_CAP && id !in cursors && (client.s.alive ==> inRead)
      modifies this`cursors, this`nextCursor, client
      ensures Valid() && (client.s.alive ==> old(client.s.alive))
      ensures r.Ok? && r.value.Some? ==> Kept(old(cursors), cursors, id, principal) && r.value == Some(id)
      ensures !(r.Ok? && r.value.Some?) ==> cursors == old(cursors)
      ensures old(client.refused) ==> client.refused
      ensures client.s.committed == old(client.s.committed)
    {
      ghost var portals := Portals(cursors);
      var step := Enter(portals);
      if step.Err? { return Err(step.error); }
      var ok: bool, code: string := *, *;
      step := SendInCall(portals, User(None, [], ok, code));
      if step.Err? { return Err(step.error); }
      nextCursor := nextCursor + 1;
      var portal := nextCursor;
      step := OpenPortal(portals, portal, rounds);
      if step.Err? { return Err(step.error); }
      r := KeepOrClose(portal, id, principal);
    }

    /** Keeps the cursor if there are more rows, and closes it otherwise. */
    method KeepOrClose(portal: nat, id: nat, principal: string) returns (r: Result<Option<nat>, Fault>)
      requires client.Sound() && portal == nextCursor > 0 && Distinct(cursors, portal - 1)
      requires |cursors| < CURSOR_CAP && id !in cursors
      requires |client.left| <= 1 && (client.s.alive ==> client.left == [])
      requires client.s.alive ==> inRead && Reading(client.s.block, Portals(cursors) + {portal})
      modifies this`cursors, client
      ensures Valid() && (client.s.alive ==> old(client.s.alive))
      ensures r.Ok? && r.value.Some? ==> Kept(old(cursors), cursors, id, principal) && r.value == Some(id)
      ensures !(r.Ok? && r.value.Some?) ==> cursors == old(cursors)
      ensures old(client.refused) ==> client.refused
      ensures client.s.committed == old(client.s.committed)
    {
      var more: bool := *;
      AddPortal(cursors, portal - 1, id, Cursor(portal, principal));
      if more {
        EstimateRows(Portals(cursors) + {portal});
        cursors := cursors[id := Cursor(portal, principal)];
        r := Ok(Some(id));
      } else {
        var reply := SendClose(portal, Portals(cursors) + {portal});
        assert Portals(cursors) + {portal} - {portal} == Portals(cursors);
        r := if reply == Done then Ok(None) else Err(OutcomeOf(reply).error);
      }
    }

    /** Asks for the plan's row count; a failure is of no account. */
    method EstimateRows(ghost portals: set<nat>)
      requires client.Sound() && (client.s.alive ==> Reading(client.s.block, portals))
      modifies client
      ensures client.Sound() && (client.s.alive ==> old(client.s.alive) && Reading(client.s.block, portals))
      ensures client.refused == old(client.refused) && client.left == old(client.left)
      ensures client.s.committed == old(client.s.committed)
    {
      var ok: bool, code: string := *, *;
      var _ := GuardedStatement(client, None, [], ok, code);
    }

    /** Runs a read inside the read transaction. */
    method RunRead(effects: seq<Effect>, ok: bool, code: string) returns (r: Outcome)
      requires Valid() && (client.s.alive ==> inRead)
      modifies client
      ensures Valid() && (client.s.alive ==> old(client.s.alive))
      ensures client.refused == old(client.refused) && client.left == old(client.left)
      ensures client.s.alive && !client.refused ==> (r.Ok? <==> ok && effects == []) && (r.Err? ==> r.error == Sql(code))
      ensures client.s.committed == old(client.s.committed)
    {
      r := GuardedStatement(client, None, effects, ok, code);
    }

    /** Runs a read, through a cursor if it has an owner. On a live connection the other cursors stay open, whether the
        read succeeds or fails, unless its error is the one that says the block is aborted: then all are lost. */
    method ReadOnLane(prefixed: bool, settings: bool, owner: Option<string>, id: nat, expired: set<nat>, effects: seq<Effect>,
                      ok: bool, code: string, rounds: nat) returns (r: Result<Option<nat>, LaneFault>)
      requires Valid() && id !in cursors
      modifies this`inRead, this`cursors, this`nextCursor, client
      ensures Valid() && (client.s.alive ==> old(client.s.alive)) && (old(client.refused) ==> client.refused)
      ensures client.s.alive ==> Served(Without(old(cursors), expired), cursors, r, owner, id)
      ensures r == Err(AtCursorCap) <==> owner.Some? && |Without(old(cursors), expired)| >= CURSOR_CAP
      ensures client.s.alive && !client.refused && owner.None? ==>
        r == if ok && effects == [] then Ok(None) else Err(Server(Sql(code)))
      ensures client.s.alive && r != Err(AtCursorCap) ==> (inRead <==> cursors != map[])
      ensures client.s.committed == old(client.s.committed)
    {
      SweepExpired(expired);
      if owner.Some? && |cursors| >= CURSOR_CAP { return Err(AtCursorCap); }
      var begun := BeginRead(prefixed, settings);
      if begun.Err? { return Err(Server(begun.error)); }
      ghost var left := cursors;
      if owner.Some? {
        var read := ReadThroughCursor(id, owner.value, rounds);
        r := LaneOutcome(read);
      } else {
        var read := RunRead(effects, ok, code);
        r := if read.Ok? then Ok(None) else Err(Server(read.error));
      }
      SettleLane(r == Err(Server(Sql(ABORTED))));
    }

    /** Fetches a page. Other cursors stay open in every case; this one is closed at its end and by an error. */
    method FetchOnLane(id: nat, rounds: nat) returns (r: Result<bool, LaneFault>)
      requires Valid()
      modifies this`inRead, this`cursors, client
      ensures Valid() && (client.s.alive ==> old(client.s.alive)) && (old(client.refused) ==> client.refused)
      ensures id !in old(cursors) ==> r == Err(UnknownCursor) && cursors == old(cursors)
      ensures client.s.alive && id in old(cursors) ==>
        cursors == if r == Ok(true) then old(cursors) else Without(old(cursors), {id})
      ensures client.s.committed == old(client.s.committed)
    {
      if id !in cursors { return Err(UnknownCursor); }
      var portal, shared := cursors[id].portal, |cursors| > 1;
      var page := FetchGuarded(portal, shared);
      var closed := client.IsClosed();
      if page.Err? && shared && !closed {
        CloseCursorNow(id);
        return Err(Server(page.error));
      }
      if page.Err? {
        OnlyOne(cursors, id);
        var _ := RollbackAll();
        return Err(Server(page.error));
      }
      var more: bool := *;
      if more { return Ok(true); }
      CloseCursorNow(id);
      var _ := FinishIfIdle();
      r := Ok(false);
    }

    /** Fetches under a savepoint if there are other cursors to keep. */
    method FetchGuarded(portal: nat, shared: bool) returns (r: Outcome)
      requires Valid() && portal in Portals(cursors)
      modifies client
      ensures client.Sound() && (client.s.alive ==> old(client.s.alive) && inRead)
      ensures client.refused == old(client.refused) && client.left == old(client.left)
      ensures client.s.alive && (shared || r.Ok?) ==> InRead(client.s.block, Portals(cursors), client.refused)
      ensures client.s.committed == old(client.s.committed)
    {
      var rounds: nat := *;
      ghost var portals := Portals(cursors);
      if !shared {
        r := FetchPage(portal, rounds);
        return;
      }
      r := Enter(portals);
      if r.Err? { return; }
      r := FetchPage(portal, rounds);
      if r.Err? {
        BackOut(portals);
        return;
      }
      r := Leave(portals);
    }

    /** Runs a catalog query, in the read transaction if there is one or if settings have to be sent with it. */
    method CatalogOnLane(prefixed: bool, settings: bool, expired: set<nat>, ok: bool, code: string) returns (r: Outcome)
      requires Valid()
      modifies this`inRead, this`cursors, client
      ensures Valid() && (client.s.alive ==> old(client.s.alive)) && (old(client.refused) ==> client.refused)
      ensures client.s.alive ==>
        cursors == if r == Err(Sql(ABORTED)) && (prefixed || old(inRead)) then map[]
                   else if prefixed then Without(old(cursors), expired)
                   else old(cursors)
      ensures client.s.alive && !client.refused ==> (r.Ok? <==> ok) && (r.Err? ==> r.error == Sql(code))
      ensures client.s.committed == old(client.s.committed)
    {
      if !prefixed && !inRead {
        assert client.s.committed + [] == client.s.committed;
        var reply := client.Send(User(None, [], ok, code));
        return OutcomeOf(reply);
      }
      if prefixed {
        SweepExpired(expired);
        r := BeginRead(prefixed, settings);
        if r.Err? { return; }
      }
      r := RunRead([], ok, code);
      SettleLane(r == Err(Sql(ABORTED)));
    }

    /** Copies rows out, in the read transaction. */
    method CopyOutOnLane(prefixed: bool, settings: bool, expired: set<nat>, ok: bool, code: string) returns (r: Outcome)
      requires Valid()
      modifies this`inRead, this`cursors, client
      ensures Valid() && (client.s.alive ==> old(client.s.alive)) && (old(client.refused) ==> client.refused)
      ensures client.s.alive ==>
        cursors == if r == Err(Sql(ABORTED)) then map[] else Without(old(cursors), expired)
      ensures client.s.alive && !client.refused ==> (r.Ok? <==> ok) && (r.Err? ==> r.error == Sql(code))
      ensures client.s.committed == old(client.s.committed)
    {
      SweepExpired(expired);
      r := BeginRead(prefixed, settings);
      if r.Err? { return; }
      r := RunRead([], ok, code);
      SettleLane(r == Err(Sql(ABORTED)));
    }
  }
}
