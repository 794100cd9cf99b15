/** Every step of the pooled handles keeps what Pooled.Valid says. */
module PooledSteps {
  import opened Basics
  import opened Backend
  import opened Guard
  import opened Handles
  import opened Pooled

  // The parts of the steps, each under what it needs.

  /** What a call may become. */
  ghost predicate MayBe(p: Pool, t: nat, call: Call) {
    && (ConnOf(call).Some? ==> ConnOf(call).value in p.owner && p.owner[ConnOf(call).value] == Thread(t))
    && (IdOf(call).Some? ==> IdOf(call).value in p.cells)
    && (call.Begun? ==>
          && call.id < p.nextId && call.id !in p.cells && call.id !in p.terminal && call.id !in p.ended
          && (forall other :: other in p.calls && other != t && p.calls[other].Begun? ==> p.calls[other].id != call.id)
          && (call.conn in p.conns ==> HandleBlock(p.conns[call.conn], call.id, p.ended)))
    && (Ending(call) ==>
          && IdOf(call).value !in p.open && IdOf(call).value !in p.terminal
          && (forall other :: other in p.calls && other != t && Ending(p.calls[other]) ==> IdOf(p.calls[other]) != IdOf(call)))
    && (call.Holding? && call.conn in p.conns && p.conns[call.conn].alive ==> p.conns[call.conn].block.Idle?)
    && (call.Losing? && p.HasConn(call.id) ==> !p.ConnState(call.id).alive)
  }

  lemma NowKeepsOwners(p: Pool, t: nat, call: Call)
    requires ValidOwners(p) && ValidCells(p) && MayBe(p, t, call)
    ensures ValidOwners(p.Now(t, call)) && ValidCells(p.Now(t, call))
  {
  }

  lemma NowKeepsEnds(p: Pool, t: nat, call: Call)
    requires ValidIds(p) && ValidEnds(p) && MayBe(p, t, call)
    ensures ValidIds(p.Now(t, call)) && ValidEnds(p.Now(t, call))
  {
  }

  lemma NowKeepsBlocks(p: Pool, t: nat, call: Call)
    requires ValidBlocks(p) && MayBe(p, t, call)
    ensures ValidBlocks(p.Now(t, call))
  {
  }

  lemma NowKeeps(p: Pool, t: nat, call: Call, limits: Limits)
    requires Valid(p, limits) && MayBe(p, t, call)
    ensures Valid(p.Now(t, call), limits)
  {
    NowKeepsOwners(p, t, call);
    NowKeepsEnds(p, t, call);
    NowKeepsBlocks(p, t, call);
  }

  /** What a connection's state may become: what its owner's part allows. */
  ghost predicate SetMayBe(p: Pool, conn: nat, s: State) {
    && (conn in p.conns && s.alive ==> p.conns[conn].alive || conn !in p.owner)
    && (forall id :: id in p.cells && p.cells[id] == conn ==> HandleBlock(s, id, p.ended))
    && (forall t :: t in p.calls && p.calls[t].Begun? && p.calls[t].conn == conn ==> HandleBlock(s, p.calls[t].id, p.ended))
    && (forall t :: t in p.calls && p.calls[t].Holding? && p.calls[t].conn == conn ==> s.alive ==> s.block.Idle?)
  }

  lemma SetKeepsOwners(p: Pool, conn: nat, s: State)
    requires ValidOwners(p)
    ensures ValidOwners(p.Set(conn, s))
  {
  }

  lemma SetKeepsBlocks(p: Pool, conn: nat, s: State)
    requires ValidOwners(p) && ValidCells(p) && ValidBlocks(p) && SetMayBe(p, conn, s)
    ensures ValidBlocks(p.Set(conn, s))
  {
  }

  lemma SetKeepsRest(p: Pool, conn: nat, s: State, size: nat)
    requires ValidCells(p) && ValidIds(p) && ValidEnds(p) && ValidPrincipals(p) && ValidRan(p)
    requires |p.conns| <= size && (conn !in p.conns ==> |p.conns| < size)
    ensures var n := p.Set(conn, s);
            ValidCells(n) && ValidIds(n) && ValidEnds(n) && ValidPrincipals(n) && ValidRan(n) && |n.conns| <= size
  {
    var n := p.Set(conn, s);
    assert n.conns.Keys == p.conns.Keys + {conn};
    assert |n.conns.Keys| == |n.conns| && |p.conns.Keys| == |p.conns|;
  }

  lemma SetKeeps(p: Pool, conn: nat, s: State, limits: Limits)
    requires Valid(p, limits) && SetMayBe(p, conn, s) && (conn !in p.conns ==> |p.conns| < limits.size)
    ensures Valid(p.Set(conn, s), limits)
  {
    SetKeepsOwners(p, conn, s);
    SetKeepsBlocks(p, conn, s);
    SetKeepsRest(p, conn, s, limits.size);
  }

  lemma GivenKeepsOwners(p: Pool, conn: nat, t: nat)
    requires ValidOwners(p) && conn in p.conns && conn !in p.owner
    ensures ValidOwners(p.Given(conn, Thread(t)))
  {
  }

  lemma GivenKeeps(p: Pool, conn: nat, t: nat, limits: Limits)
    requires Valid(p, limits) && conn in p.conns && conn !in p.owner
    ensures Valid(p.Given(conn, Thread(t)), limits)
  {
    GivenKeepsOwners(p, conn, t);
  }

  /** Nobody refers to the connection. */
  ghost predicate Unused(p: Pool, conn: nat) {
    && (forall id :: id in p.cells ==> p.cells[id] != conn)
    && (forall t :: t in p.calls ==> ConnOf(p.calls[t]) != Some(conn))
  }

  lemma ReturnedKeeps(p: Pool, conn: nat, limits: Limits)
    requires Valid(p, limits) && Unused(p, conn)
    ensures Valid(p.Returned(conn), limits)
  {
  }

  /** What a handle that enters the table needs. */
  ghost predicate MayEnter(p: Pool, id: nat, principal: string, conn: nat) {
    && Unused(p, conn) && conn in p.conns && !OpenFor(p, principal)
    && id < p.nextId && id !in p.cells && id !in p.terminal && id !in p.ended && HandleBlock(p.conns[conn], id, p.ended)
    && forall t :: t in p.calls && p.calls[t].Begun? ==> p.calls[t].id != id
  }

  lemma EnteredKeepsOwners(p: Pool, id: nat, principal: string, conn: nat)
    requires ValidOwners(p) && ValidCells(p) && MayEnter(p, id, principal, conn)
    ensures ValidOwners(p.Entered(id, principal, conn)) && ValidCells(p.Entered(id, principal, conn))
  {
  }

  lemma EnteredKeepsEnds(p: Pool, id: nat, principal: string, conn: nat)
    requires ValidCells(p) && ValidIds(p) && ValidEnds(p) && MayEnter(p, id, principal, conn)
    ensures ValidIds(p.Entered(id, principal, conn)) && ValidEnds(p.Entered(id, principal, conn))
  {
  }

  lemma EnteredKeepsRest(p: Pool, id: nat, principal: string, conn: nat)
    requires ValidPrincipals(p) && ValidCells(p) && ValidBlocks(p) && ValidRan(p) && MayEnter(p, id, principal, conn)
    ensures var n := p.Entered(id, principal, conn); ValidPrincipals(n) && ValidBlocks(n) && ValidRan(n)
  {
  }

  lemma EnteredKeeps(p: Pool, id: nat, principal: string, conn: nat, limits: Limits)
    requires Valid(p, limits) && MayEnter(p, id, principal, conn)
    ensures Valid(p.Entered(id, principal, conn), limits)
  {
    EnteredKeepsOwners(p, id, principal, conn);
    EnteredKeepsEnds(p, id, principal, conn);
    EnteredKeepsRest(p, id, principal, conn);
  }

  lemma RemovedKeeps(p: Pool, id: nat, limits: Limits)
    requires Valid(p, limits)
    ensures Valid(p.Removed(id), limits)
  {
  }

  lemma OverKeeps(p: Pool, id: nat, limits: Limits)
    requires Valid(p, limits) && id in p.cells && id !in p.open
    requires p.HasConn(id) ==> !p.ConnState(id).alive || p.ConnState(id).block.Idle?
    ensures Valid(p.Over(id), limits)
  {
  }

  lemma NotedKeepsEnds(p: Pool, id: nat, record: Record)
    requires ValidEnds(p) && id !in p.open
    requires forall t :: t in p.calls && Ending(p.calls[t]) ==> IdOf(p.calls[t]) != Some(id)
    ensures ValidEnds(p.Noted(id, record))
  {
  }

  lemma NotedKeeps(p: Pool, id: nat, record: Record, limits: Limits)
    requires Valid(p, limits) && id in p.cells && id !in p.open
    requires forall t :: t in p.calls && Ending(p.calls[t]) ==> IdOf(p.calls[t]) != Some(id)
    ensures Valid(p.Noted(id, record), limits)
  {
    NotedKeepsEnds(p, id, record);
  }

  // The steps.

  lemma CheckKeeps(p: Pool, t: nat, principal: string, limits: Limits)
    requires Valid(p, limits)
    ensures Valid(Check(p, t, principal, limits.Cap()), limits)
  {
    NowKeeps(p, t, Checked(principal), limits);
  }

  lemma HandedMayBeSet(p: Pool, conn: nat, limits: Limits)
    requires Valid(p, limits) && Handed(p, conn, limits.size).Some?
    ensures SetMayBe(p, conn, Handed(p, conn, limits.size).value) && conn !in p.owner
    ensures conn !in p.conns ==> |p.conns| < limits.size
    ensures Handed(p, conn, limits.size).value.block.Idle?
  {
  }

  lemma HandingOutKeeps(p: Pool, t: nat, conn: nat, limits: Limits)
    requires Valid(p, limits) && Handed(p, conn, limits.size).Some?
    ensures Valid(p.Set(conn, Handed(p, conn, limits.size).value).Given(conn, Thread(t)), limits)
  {
    var s := Handed(p, conn, limits.size).value;
    HandedMayBeSet(p, conn, limits);
    SetKeeps(p, conn, s, limits);
    GivenKeeps(p.Set(conn, s), conn, t, limits);
  }

  lemma HandedMayBe(p: Pool, q: Pool, t: nat, conn: nat, call: Call, limits: Limits)
    requires Handed(p, conn, limits.size).Some? && q == p.Set(conn, Handed(p, conn, limits.size).value).Given(conn, Thread(t))
    requires call.Using? || call.Holding?
    requires ConnOf(call) == Some(conn)
    ensures MayBe(q, t, call)
  {
  }

  lemma HandedToKeeps(p: Pool, t: nat, conn: nat, call: Call, limits: Limits)
    requires Valid(p, limits) && Handed(p, conn, limits.size).Some?
    requires (call.Using? || call.Holding?) && ConnOf(call) == Some(conn)
    ensures Valid(p.Set(conn, Handed(p, conn, limits.size).value).Given(conn, Thread(t)).Now(t, call), limits)
  {
    var q := p.Set(conn, Handed(p, conn, limits.size).value).Given(conn, Thread(t));
    HandingOutKeeps(p, t, conn, limits);
    HandedMayBe(p, q, t, conn, call, limits);
    NowKeeps(q, t, call, limits);
  }

  lemma CheckoutKeeps(p: Pool, t: nat, conn: nat, limits: Limits)
    requires Valid(p, limits)
    ensures Valid(Checkout(p, t, conn, limits.size), limits)
  {
    var s, call := Handed(p, conn, limits.size), Taking(p.At(t), conn);
    if s.Some? && call.Some? {
      HandedToKeeps(p, t, conn, call.value, limits);
    }
  }

  lemma DiscardKeeps(p: Pool, conn: nat, limits: Limits)
    requires Valid(p, limits)
    ensures Valid(Discard(p, conn), limits)
  {
    if conn !in p.owner {
      FewerConns(p.conns, conn);
    }
  }

  lemma FewerConns(conns: map<nat, State>, conn: nat)
    ensures |conns - {conn}| <= |conns|
  {
    var fewer := conns - {conn};
    assert fewer.Keys == conns.Keys - {conn};
    assert |fewer.Keys| == |fewer| && |conns.Keys| == |conns|;
  }

  /** A call lets go of what it has. */
  lemma FreeKeeps(p: Pool, t: nat, limits: Limits)
    requires Valid(p, limits)
    ensures Valid(p.Now(t, Free), limits)
    ensures ConnOf(p.At(t)).Some? ==> Unused(p.Now(t, Free), ConnOf(p.At(t)).value)
  {
    NowKeeps(p, t, Free, limits);
  }

  lemma GiveUpKeeps(p: Pool, t: nat, limits: Limits)
    requires Valid(p, limits)
    ensures Valid(GiveUp(p, t), limits)
  {
    FreeKeeps(p, t, limits);
    if ConnOf(p.At(t)).Some? {
      ReturnedKeeps(p.Now(t, Free), ConnOf(p.At(t)).value, limits);
    }
  }

  lemma MoreIdsKeep(p: Pool, limits: Limits)
    requires Valid(p, limits)
    ensures Valid(p.(nextId := p.nextId + 1), limits)
  {
  }

  /** What a free call owns may be put in any state that suits it. */
  lemma OwnMayBeSet(p: Pool, t: nat, s: State, limits: Limits)
    requires Valid(p, limits) && ConnOf(p.At(t)).Some?
    requires var conn := ConnOf(p.At(t)).value; conn in p.conns && (s.alive ==> p.conns[conn].alive)
    ensures SetMayBe(p.Now(t, Free), ConnOf(p.At(t)).value, s)
  {
  }

  lemma BegunMayBe(p: Pool, t: nat, principal: string, conn: nat, limits: Limits)
    requires Valid(p, limits) && conn in p.owner && p.owner[conn] == Thread(t)
    requires conn in p.conns ==> HandleBlock(p.conns[conn], p.nextId, p.ended)
    ensures MayBe(p.(nextId := p.nextId + 1), t, Begun(principal, conn, p.nextId))
  {
  }

  lemma BeginningKeeps(p: Pool, t: nat, limits: Limits)
    requires Valid(p, limits) && p.At(t).Holding? && p.At(t).conn in p.conns && p.conns[p.At(t).conn].alive
    ensures var conn := p.At(t).conn;
            Valid(p.Now(t, Free).Set(conn, Apply(p.conns[conn], Begin(Some(p.nextId), false)).0), limits)
  {
    var conn := p.At(t).conn;
    var s := Apply(p.conns[conn], Begin(Some(p.nextId), false)).0;
    FreeKeeps(p, t, limits);
    OwnMayBeSet(p, t, s, limits);
    SetKeeps(p.Now(t, Free), conn, s, limits);
  }

  lemma BegunKeeps(q: Pool, t: nat, principal: string, conn: nat, limits: Limits)
    requires Valid(q, limits) && conn in q.owner && q.owner[conn] == Thread(t)
    requires conn in q.conns ==> HandleBlock(q.conns[conn], q.nextId, q.ended)
    ensures Valid(q.(nextId := q.nextId + 1).Now(t, Begun(principal, conn, q.nextId)), limits)
  {
    MoreIdsKeep(q, limits);
    BegunMayBe(q, t, principal, conn, limits);
    NowKeeps(q.(nextId := q.nextId + 1), t, Begun(principal, conn, q.nextId), limits);
  }

  lemma StartKeeps(p: Pool, t: nat, limits: Limits)
    requires Valid(p, limits)
    ensures Valid(StartBlock(p, t), limits)
  {
    var call := p.At(t);
    if call.Holding? && call.conn in p.conns && p.conns[call.conn].alive {
      var q := p.Now(t, Free).Set(call.conn, Apply(p.conns[call.conn], Begin(Some(p.nextId), false)).0);
      var next := q.(nextId := q.nextId + 1).Now(t, Begun(call.principal, call.conn, q.nextId));
      assert StartBlock(p, t) == next;
      BegunBlock(p, t, limits);
      BeginningKeeps(p, t, limits);
      BegunKeeps(q, t, call.principal, call.conn, limits);
      assert Valid(next, limits);
    }
  }

  lemma BegunBlock(p: Pool, t: nat, limits: Limits)
    requires Valid(p, limits) && p.At(t).Holding? && p.At(t).conn in p.conns && p.conns[p.At(t).conn].alive
    ensures HandleBlock(Apply(p.conns[p.At(t).conn], Begin(Some(p.nextId), false)).0, p.nextId, p.ended)
    ensures p.At(t).conn in p.owner && p.owner[p.At(t).conn] == Thread(t)
  {
  }

  lemma BegunMayEnter(p: Pool, t: nat, limits: Limits)
    requires Valid(p, limits) && p.At(t).Begun? && p.At(t).conn in p.conns && !OpenFor(p, p.At(t).principal)
    ensures MayEnter(p.Now(t, Free), p.At(t).id, p.At(t).principal, p.At(t).conn)
  {
  }

  lemma InsertKeeps(p: Pool, t: nat, lost: bool, limits: Limits)
    requires Valid(p, limits)
    ensures Valid(Insert(p, t, lost), limits)
  {
    var call := p.At(t);
    if call.Begun? && call.conn in p.conns {
      FreeKeeps(p, t, limits);
      if OpenFor(p, call.principal) {
        WithdrawKeeps(p, t, lost, limits);
      } else {
        BegunMayEnter(p, t, limits);
        EnteredKeeps(p.Now(t, Free), call.id, call.principal, call.conn, limits);
      }
    }
  }

  lemma WithdrawKeeps(p: Pool, t: nat, lost: bool, limits: Limits)
    requires Valid(p, limits) && p.At(t).Begun? && p.At(t).conn in p.conns
    ensures var conn := p.At(t).conn;
            Valid(p.Now(t, Free).Set(conn, Ended(p.conns[conn], lost)).Returned(conn), limits)
  {
    var conn := p.At(t).conn;
    var s := Ended(p.conns[conn], lost);
    FreeKeeps(p, t, limits);
    OwnMayBeSet(p, t, s, limits);
    SetKeeps(p.Now(t, Free), conn, s, limits);
    assert Unused(p.Now(t, Free).Set(conn, s), conn);
    ReturnedKeeps(p.Now(t, Free).Set(conn, s), conn, limits);
  }

  lemma LookupKeeps(p: Pool, t: nat, id: nat, principal: string, limits: Limits)
    requires Valid(p, limits)
    ensures Valid(Lookup(p, t, id, principal), limits)
  {
    if id in p.open { NowKeeps(p, t, Has(id), limits); }
  }

  /** In a handle's cell a call leaves the handle's block open, or none. */
  lemma JobKeepsBlock(s: State, id: nat, job: Job, ended: set<nat>)
    requires HandleBlock(s, id, ended) && s.alive
    ensures HandleBlock(JobDone(s, id, job), id, ended)
    ensures s.block.Idle? ==> JobDone(s, id, job) == s && Apply(s, Savepoint(SAVEPOINT_NAME)).1 != Done
  {
  }

  /** The state of a handle's connection may become what suits its block. */
  lemma CellMayBeSet(p: Pool, id: nat, s: State, limits: Limits)
    requires Valid(p, limits) && p.HasConn(id) && HandleBlock(s, id, p.ended) && (s.alive ==> p.ConnState(id).alive)
    ensures SetMayBe(p, p.cells[id], s)
  {
  }

  lemma CellBlock(p: Pool, id: nat, limits: Limits)
    requires Valid(p, limits) && p.HasConn(id)
    ensures HandleBlock(p.ConnState(id), id, p.ended)
  {
  }

  lemma InCellKeeps(p: Pool, t: nat, job: Job, lost: bool, seen: bool, limits: Limits)
    requires Valid(p, limits)
    ensures Valid(InCell(p, t, job, lost, seen), limits)
  {
    var call := p.At(t);
    if call.Has? && p.HasConn(call.id) {
      if p.ConnState(call.id).alive {
        JobKeeps(p, t, call.id, job, lost, seen, limits);
      } else {
        LosingMayBe(p, t, call.id, limits);
        NowKeeps(p, t, if seen then Losing(call.id) else Free, limits);
      }
    }
  }

  lemma LosingMayBe(p: Pool, t: nat, id: nat, limits: Limits)
    requires Valid(p, limits) && p.HasConn(id) && !p.ConnState(id).alive
    ensures MayBe(p, t, Losing(id))
  {
  }

  /** The connection and the record after a call in the cell. */
  function Worked(p: Pool, id: nat, job: Job, lost: bool): Pool
    requires p.HasConn(id)
  {
    var s := p.ConnState(id);
    p.(ran := p.ran + SentInto(s, p, id, job)).Set(p.cells[id], if lost then Dropped(s) else JobDone(s, id, job))
  }

  lemma InCellIs(p: Pool, t: nat, id: nat, job: Job, lost: bool, seen: bool)
    requires p.At(t) == Has(id) && p.HasConn(id) && p.ConnState(id).alive
    ensures InCell(p, t, job, lost, seen) == Worked(p, id, job, lost).Now(t, AfterJob(id, job, lost && seen))
  {
  }

  lemma SentKeeps(p: Pool, id: nat, job: Job, limits: Limits)
    requires Valid(p, limits) && p.HasConn(id) && p.ConnState(id).alive
    ensures Valid(p.(ran := p.ran + SentInto(p.ConnState(id), p, id, job)), limits)
  {
    CellBlock(p, id, limits);
    JobKeepsBlock(p.ConnState(id), id, job, p.ended);
    RanKeeps(p, p.(ran := p.ran + SentInto(p.ConnState(id), p, id, job)), limits);
  }

  function AfterWork(s: State, id: nat, job: Job, lost: bool): State {
    if lost then Dropped(s) else JobDone(s, id, job)
  }

  lemma WorkLeavesBlock(p: Pool, id: nat, job: Job, lost: bool, limits: Limits)
    requires Valid(p, limits) && p.HasConn(id) && p.ConnState(id).alive
    ensures HandleBlock(AfterWork(p.ConnState(id), id, job, lost), id, p.ended)
  {
    CellBlock(p, id, limits);
    JobKeepsBlock(p.ConnState(id), id, job, p.ended);
  }

  lemma CellSetKeeps(p: Pool, id: nat, s: State, limits: Limits)
    requires Valid(p, limits) && p.HasConn(id) && HandleBlock(s, id, p.ended) && (s.alive ==> p.ConnState(id).alive)
    ensures Valid(p.Set(p.cells[id], s), limits)
  {
    CellMayBeSet(p, id, s, limits);
    SetKeeps(p, p.cells[id], s, limits);
  }

  lemma WorkedKeeps(p: Pool, id: nat, job: Job, lost: bool, limits: Limits)
    requires Valid(p, limits) && p.HasConn(id) && p.ConnState(id).alive
    ensures Valid(Worked(p, id, job, lost), limits)
  {
    var s := p.ConnState(id);
    var q := p.(ran := p.ran + SentInto(s, p, id, job));
    WorkLeavesBlock(p, id, job, lost, limits);
    SentKeeps(p, id, job, limits);
    CellSetKeeps(q, id, AfterWork(s, id, job, lost), limits);
    assert Worked(p, id, job, lost) == q.Set(p.cells[id], AfterWork(s, id, job, lost));
  }

  lemma CallGoesOn(q: Pool, t: nat, call: Call, limits: Limits)
    requires Valid(q, limits) && (call.Free? || (call.Losing? && q.HasConn(call.id) && !q.ConnState(call.id).alive))
    ensures Valid(q.Now(t, call), limits)
  {
    if call.Losing? { LosingMayBe(q, t, call.id, limits); }
    NowKeeps(q, t, call, limits);
  }

  lemma JobKeeps(p: Pool, t: nat, id: nat, job: Job, lost: bool, seen: bool, limits: Limits)
    requires Valid(p, limits) && p.At(t) == Has(id) && p.HasConn(id) && p.ConnState(id).alive
    ensures Valid(InCell(p, t, job, lost, seen), limits)
  {
    WorkedKeeps(p, id, job, lost, limits);
    InCellIs(p, t, id, job, lost, seen);
    CallGoesOn(Worked(p, id, job, lost), t, AfterJob(id, job, lost && seen), limits);
  }

  lemma RanKeeps(p: Pool, q: Pool, limits: Limits)
    requires Valid(p, limits) && q == p.(ran := q.ran) && ValidRan(q)
    ensures Valid(q, limits)
  {
  }

  lemma TakeOutKeeps(p: Pool, t: nat, id: nat, principal: string, commits: bool, limits: Limits)
    requires Valid(p, limits)
    ensures Valid(TakeOut(p, t, id, principal, commits), limits)
  {
    if id in p.open {
      RemovedKeeps(p, id, limits);
      NowKeeps(p.Removed(id), t, Finishing(id, commits), limits);
    }
  }

  lemma FinishedMayBe(p: Pool, t: nat, q: Pool, record: Record, limits: Limits)
    requires Valid(p, limits) && p.At(t).Finishing? && q == p.(conns := q.conns, ended := q.ended)
    ensures MayBe(q, t, Finished(p.At(t).id, record))
    ensures p.At(t).id in p.cells && p.At(t).id !in p.open
  {
  }

  lemma EndingKeeps(p: Pool, id: nat, commits: bool, fate: Fate, limits: Limits)
    requires Valid(p, limits) && p.HasConn(id) && id !in p.open
    ensures Valid(p.Set(p.cells[id], FateOf(p.ConnState(id), commits, fate)).Over(id), limits)
  {
    var next := FateOf(p.ConnState(id), commits, fate);
    CellBlock(p, id, limits);
    FateEndsBlock(p.ConnState(id), commits, fate);
    CellMayBeSet(p, id, next, limits);
    SetKeeps(p, p.cells[id], next, limits);
    OverKeeps(p.Set(p.cells[id], next), id, limits);
  }

  lemma FinishKeeps(p: Pool, t: nat, fate: Fate, limits: Limits)
    requires Valid(p, limits)
    ensures Valid(Finish(p, t, fate), limits)
  {
    var call := p.At(t);
    if call.Finishing? && p.HasConn(call.id) {
      var id, s := call.id, p.ConnState(call.id);
      var q := p.Set(p.cells[id], FateOf(s, call.commits, fate)).Over(id);
      var next := q.Now(t, Finished(id, RecordOf(s, call.commits, fate)));
      assert Finish(p, t, fate) == next;
      FinishedMayBe(p, t, q, RecordOf(s, call.commits, fate), limits);
      EndingKeeps(p, id, call.commits, fate, limits);
      NowKeeps(q, t, Finished(id, RecordOf(s, call.commits, fate)), limits);
      assert Valid(next, limits);
    }
  }

  lemma FateEndsBlock(s: State, commits: bool, fate: Fate)
    ensures var next := FateOf(s, commits, fate); (next.alive ==> s.alive && next.block.Idle?)
  {
  }

  lemma NoteKeeps(p: Pool, t: nat, limits: Limits)
    requires Valid(p, limits)
    ensures Valid(Note(p, t), limits)
  {
    var call := p.At(t);
    if call.Finished? {
      FreeKeeps(p, t, limits);
      NotedKeeps(p.Now(t, Free), call.id, call.record, limits);
    }
  }

  lemma LoseKeeps(p: Pool, t: nat, limits: Limits)
    requires Valid(p, limits)
    ensures Valid(Lose(p, t), limits)
  {
    var call := p.At(t);
    if call.Losing? {
      FreeKeeps(p, t, limits);
      if call.id in p.open {
        var q := p.Now(t, Free);
        RemovedKeeps(q, call.id, limits);
        OverKeeps(q.Removed(call.id), call.id, limits);
        NotedKeeps(q.Removed(call.id).Over(call.id), call.id, Record(HandleState.Lost, None), limits);
      }
    }
  }

  lemma EndOpenKeeps(p: Pool, id: nat, s: State, record: Record, limits: Limits)
    requires Valid(p, limits) && id in p.open && p.HasConn(id) && (s.alive ==> p.ConnState(id).alive && s.block.Idle?)
    ensures Valid(p.Removed(id).Set(p.cells[id], s).Over(id).Noted(id, record), limits)
  {
    var q := p.Removed(id);
    RemovedKeeps(p, id, limits);
    CellMayBeSet(q, id, s, limits);
    SetKeeps(q, p.cells[id], s, limits);
    EndedKeeps(p, q.Set(p.cells[id], s), id, record, limits);
  }

  lemma EndKeeps(p: Pool, id: nat, expires: bool, lost: bool, limits: Limits)
    requires Valid(p, limits)
    ensures Valid(EndHandle(p, id, expires, lost), limits)
  {
    if id in p.open && p.HasConn(id) {
      var s := p.ConnState(id);
      FateEndsBlock(s, false, Fails(lost));
      EndOpenKeeps(p, id, FateOf(s, false, Fails(lost)), SweptRecord(s, expires, lost), limits);
    }
  }

  lemma EndedKeeps(p: Pool, q: Pool, id: nat, record: Record, limits: Limits)
    requires Valid(p, limits) && Valid(q, limits) && id in p.open && q == p.(open := p.open - {id}, conns := q.conns)
    requires q.HasConn(id) && (q.ConnState(id).alive ==> q.ConnState(id).block.Idle?)
    ensures Valid(q.Over(id).Noted(id, record), limits)
  {
    OverKeeps(q, id, limits);
    NobodyEnds(p, id, limits);
    NotedKeeps(q.Over(id), id, record, limits);
  }

  lemma NobodyEnds(p: Pool, id: nat, limits: Limits)
    requires Valid(p, limits) && id in p.open
    ensures id in p.cells && forall t :: t in p.calls && Ending(p.calls[t]) ==> IdOf(p.calls[t]) != Some(id)
  {
  }

  lemma ForgetKeeps(p: Pool, ids: set<nat>, limits: Limits)
    requires Valid(p, limits)
    ensures Valid(Forget(p, ids), limits)
  {
  }

  lemma DropKeeps(p: Pool, id: nat, limits: Limits)
    requires Valid(p, limits)
    ensures Valid(DropCell(p, id), limits)
  {
  }

  lemma UseKeeps(p: Pool, t: nat, s: State, limits: Limits)
    requires Valid(p, limits)
    ensures Valid(Use(p, t, s), limits)
  {
    var call := p.At(t);
    if call.Using? && call.conn in p.conns && (s.alive ==> p.conns[call.conn].alive) {
      UsingMaySet(p, t, s, limits);
      SetKeeps(p, call.conn, s, limits);
    }
  }

  lemma UsingMaySet(p: Pool, t: nat, s: State, limits: Limits)
    requires Valid(p, limits) && p.At(t).Using? && (s.alive && p.At(t).conn in p.conns ==> p.conns[p.At(t).conn].alive)
    ensures SetMayBe(p, p.At(t).conn, s)
  {
  }

  lemma DisconnectKeeps(p: Pool, conn: nat, limits: Limits)
    requires Valid(p, limits)
    ensures Valid(Disconnect(p, conn), limits)
  {
    if conn in p.conns { SetKeeps(p, conn, Dropped(p.conns[conn]), limits); }
  }

  lemma BeginStepKeeps(p: Pool, step: BeginStep, limits: Limits)
    requires Valid(p, limits)
    ensures Valid(NextBegin(p, step, limits), limits)
  {
    match step
    case CheckStep(t, principal) => CheckKeeps(p, t, principal, limits);
    case CheckoutStep(t, conn) => CheckoutKeeps(p, t, conn, limits);
    case GiveUpStep(t) => GiveUpKeeps(p, t, limits);
    case StartStep(t) => StartKeeps(p, t, limits);
    case InsertStep(t, lost) => InsertKeeps(p, t, lost, limits);
  }

  lemma CallStepKeeps(p: Pool, step: CallStep, limits: Limits)
    requires Valid(p, limits)
    ensures Valid(NextCall(p, step), limits)
  {
    match step
    case LookupStep(t, id, principal) => LookupKeeps(p, t, id, principal, limits);
    case InCellStep(t, job, lost, seen) => InCellKeeps(p, t, job, lost, seen, limits);
    case TakeOutStep(t, id, principal, commits) => TakeOutKeeps(p, t, id, principal, commits, limits);
    case FinishStep(t, fate) => FinishKeeps(p, t, fate, limits);
    case CancelledStep(t) => CancelledKeeps(p, t, limits);
    case NoteStep(t) => NoteKeeps(p, t, limits);
    case LoseStep(t) => LoseKeeps(p, t, limits);
  }

  lemma CancelledKeeps(p: Pool, t: nat, limits: Limits)
    requires Valid(p, limits)
    ensures Valid(Cancelled(p, t), limits)
  {
    NowKeeps(p, t, Free, limits);
  }

  lemma StepKeeps(p: Pool, step: Step, limits: Limits)
    requires Valid(p, limits)
    ensures Valid(Next(p, step, limits), limits)
  {
    match step
    case Beginning(begin) => BeginStepKeeps(p, begin, limits);
    case Calling(call) => CallStepKeeps(p, call, limits);
    case EndStep(id, expires, lost) => EndKeeps(p, id, expires, lost, limits);
    case ForgetStep(ids) => ForgetKeeps(p, ids, limits);
    case DropStep(id) => DropKeeps(p, id, limits);
    case DiscardStep(conn) => DiscardKeeps(p, conn, limits);
    case UseStep(t, s) => UseKeeps(p, t, s, limits);
    case LostStep(conn) => DisconnectKeeps(p, conn, limits);
  }
}
