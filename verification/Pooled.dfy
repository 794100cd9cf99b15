/** Transaction handles over a connection pool, as steps of many calls that interleave where a lock is taken or released:
    crates/ownpg-core/src/engine.rs. One lock guards the tables of open and closed handles; each handle has a cell with a
    lock of its own, which a call that has looked the handle up keeps for as long as it wants. */
module Pooled {
  import opened Basics
  import opened Backend
  import opened Guard
  import opened Handles

  /** Who has a connection that is out of the pool: a handle's cell, or a call. */
  datatype Owner = Cell(id: nat) | Thread(thread: nat)

  /** Where a call stands between two steps. */
  datatype Call =
    | Free
    | Checked(principal: string)                           // begin: no handle yet, and below the cap
    | Holding(principal: string, conn: nat)                // begin: has a connection
    | Begun(principal: string, conn: nat, id: nat)         // begin: its block is open
    | Has(id: nat)                                         // has looked the handle up
    | Finishing(id: nat, commits: bool)                    // has taken the handle out of the table
    | Finished(id: nat, record: Record)                    // has ended its block
    | Losing(id: nat)                                      // has found its connection closed
    | Using(conn: nat)                                     // a call without a handle

  function IdOf(call: Call): Option<nat> {
    match call
    case Has(id) => Some(id)
    case Finishing(id, _) => Some(id)
    case Finished(id, _) => Some(id)
    case Losing(id) => Some(id)
    case _ => None
  }

  function ConnOf(call: Call): Option<nat> {
    match call
    case Holding(_, conn) => Some(conn)
    case Begun(_, conn, _) => Some(conn)
    case Using(conn) => Some(conn)
    case _ => None
  }

  predicate Ending(call: Call) {
    call.Finishing? || call.Finished?
  }

  /** Where in a commit or rollback a connection is lost: before the statement is sent, or before or after the server has
      carried it out. */
  datatype Moment = BeforeSending | BeforeEffect | AfterEffect

  /** How the block of a handle comes to its end. If the connection is lost in a COMMIT, told says whether a new one tells
      the outcome, and seen whether the client is seen to be closed when the handle's state is noted. */
  datatype Fate = Succeeds | Fails(lost: bool) | Breaks(moment: Moment, told: bool, seen: bool)

  /** What the caller of a commit or rollback is told. */
  datatype Answer = Success | Failure | Unknown

  /** The end of a handle's block: the connection before and after it. */
  datatype End = End(before: State, after: State, commits: bool, fate: Fate)

  /** The terminal state of a handle, and how its block ended if its connection was not lost before. */
  datatype Record = Record(state: HandleState, end: Option<End>)

  function Closing(s: State, commits: bool): State {
    Apply(s, if commits then Backend.Commit(true) else Backend.Rollback).0
  }

  function FateOf(s: State, commits: bool, fate: Fate): State {
    if !s.alive then s
    else
      match fate
      case Succeeds => Closing(s, commits)
      case Fails(lost) => if lost then Dropped(s) else s.(block := Idle)
      case Breaks(AfterEffect, _, _) => Dropped(Closing(s, commits))
      case Breaks(_, _, _) => Dropped(s)
  }

  /** A COMMIT of an aborted block is a rollback. If the reply to a COMMIT is lost, a transaction without an id is taken for
      committed, and another one for what the server says of it. */
  function AnswerOf(s: State, commits: bool, fate: Fate): Answer {
    if !s.alive || (commits && InAbortedBlock(s)) then Failure
    else
      match fate
      case Succeeds => Success
      case Fails(_) => Failure
      case Breaks(moment, told, _) =>
        if !commits || moment.BeforeSending? then Failure
        else if !told then Unknown
        else if moment.AfterEffect? || (s.block.Open? && !s.block.hasId) || s.block.Idle? then Success
        else Failure
  }

  /** Whether the client is seen to be closed afterwards. */
  predicate SeenClosed(s: State, fate: Fate) {
    match fate
    case Succeeds => !s.alive
    case Fails(lost) => !s.alive || lost
    case Breaks(_, _, seen) => seen
  }

  /** The state that is noted follows from the answer, and otherwise from the client alone. */
  function StateOf(s: State, commits: bool, fate: Fate): HandleState {
    if AnswerOf(s, commits, fate).Success? then if commits then Committed else RolledBack
    else if SeenClosed(s, fate) then HandleState.Lost
    else RolledBack
  }

  function RecordOf(s: State, commits: bool, fate: Fate): Record {
    Record(StateOf(s, commits, fate), Some(End(s, FateOf(s, commits, fate), commits, fate)))
  }

  /** A user's statement that a handle's call sent into a block: whose block it was, and whether the handle's block had
      been committed, rolled back or lost before. */
  datatype Effectual = Effectual(id: nat, owner: Option<nat>, ended: bool)

  /** The tables of open and closed handles; every terminal state there ever was; the cells, which outlive the table; the
      connections and their owners; the calls; the handles whose block has ended; and the statements so far. */
  datatype Pool = Pool(open: map<nat, string>, closed: map<nat, HandleState>, terminal: map<nat, Record>,
                       cells: map<nat, nat>, conns: map<nat, State>, owner: map<nat, Owner>, calls: map<nat, Call>,
                       ended: set<nat>, nextId: nat, ran: seq<Effectual>)
  {
    function At(thread: nat): Call {
      if thread in calls then calls[thread] else Free
    }

    /** The connection of a handle's cell. */
    predicate HasConn(id: nat) {
      id in cells && cells[id] in conns
    }

    function ConnState(id: nat): State
      requires HasConn(id)
    {
      conns[cells[id]]
    }

    // What the steps are made of.

    function Now(thread: nat, call: Call): Pool {
      this.(calls := calls[thread := call])
    }

    function Set(conn: nat, s: State): Pool {
      this.(conns := conns[conn := s])
    }

    function Given(conn: nat, to: Owner): Pool {
      this.(owner := owner[conn := to])
    }

    /** The connection goes back to the pool, as it is. */
    function Returned(conn: nat): Pool {
      this.(owner := owner - {conn})
    }

    function Entered(id: nat, principal: string, conn: nat): Pool {
      this.(open := open[id := principal], cells := cells[id := conn], owner := owner[conn := Cell(id)])
    }

    function Removed(id: nat): Pool {
      this.(open := open - {id})
    }

    /** The handle's block has ended. */
    function Over(id: nat): Pool {
      this.(ended := ended + {id})
    }

    /** A handle gets its terminal state. */
    function Noted(id: nat, record: Record): Pool {
      this.(closed := closed[id := record.state], terminal := terminal[id := record])
    }
  }

  const START := Pool(map[], map[], map[], map[], map[], map[], map[], {}, 0, [])

  predicate OpenFor(p: Pool, principal: string) {
    exists id :: id in p.open && p.open[id] == principal
  }

  // The steps. A step that is not possible changes nothing.

  /** The first part of begin, under the lock of the tables. */
  function Check(p: Pool, t: nat, principal: string, cap: nat): (n: Pool)
    ensures n.terminal == p.terminal
  {
    if p.At(t).Free? && !OpenFor(p, principal) && |p.open| < cap then p.Now(t, Checked(principal)) else p
  }

  /** The pool hands out a connection that nobody has, rolled back if need be, or a new one if there is room. */
  function Handed(p: Pool, conn: nat, size: nat): Option<State> {
    if conn in p.owner then None
    else if conn in p.conns then
      if p.conns[conn].alive then Some(p.conns[conn].(block := Idle)) else None
    else if |p.conns| < size then Some(State(true, [], Idle))
    else None
  }

  /** What a call that waits for a connection becomes when it gets one. */
  function Taking(call: Call, conn: nat): Option<Call> {
    match call
    case Checked(principal) => Some(Holding(principal, conn))
    case Free => Some(Using(conn))
    case _ => None
  }

  function Checkout(p: Pool, t: nat, conn: nat, size: nat): (n: Pool)
    ensures n.terminal == p.terminal
  {
    var s, call := Handed(p, conn, size), Taking(p.At(t), conn);
    if s.None? || call.None? then p else p.Set(conn, s.value).Given(conn, Thread(t)).Now(t, call.value)
  }

  /** The pool gives up a connection that nobody has. */
  function Discard(p: Pool, conn: nat): Pool {
    if conn in p.owner then p else p.(conns := p.conns - {conn})
  }

  /** A call gives up before it has a handle, or a call without one is done. */
  function GiveUp(p: Pool, t: nat): (n: Pool)
    ensures n.terminal == p.terminal
  {
    match p.At(t)
    case Checked(_) => p.Now(t, Free)
    case Holding(_, conn) => p.Now(t, Free).Returned(conn)
    case Using(conn) => p.Now(t, Free).Returned(conn)
    case _ => p
  }

  /** BEGIN on the connection of a new handle. */
  function StartBlock(p: Pool, t: nat): (n: Pool)
    ensures n.terminal == p.terminal
  {
    match p.At(t)
    case Holding(principal, conn) =>
      if conn !in p.conns || !p.conns[conn].alive then p
      else
        p.Now(t, Free).Set(conn, Apply(p.conns[conn], Begin(Some(p.nextId), false)).0).(nextId := p.nextId + 1)
        .Now(t, Begun(principal, conn, p.nextId))
    case _ => p
  }

  function Ended(s: State, lost: bool): State {
    if lost then Dropped(s) else s.(block := Idle)
  }

  /** The last part of begin, under the lock of the tables: the handle goes into the table, unless its principal has got
      another one meanwhile. */
  function Insert(p: Pool, t: nat, lost: bool): (n: Pool)
    ensures n.terminal == p.terminal
  {
    match p.At(t)
    case Begun(principal, conn, id) =>
      if conn !in p.conns then p
      else if OpenFor(p, principal) then p.Now(t, Free).Set(conn, Ended(p.conns[conn], lost)).Returned(conn)
      else p.Now(t, Free).Entered(id, principal, conn)
    case _ => p
  }

  /** A call looks its handle up. */
  function Lookup(p: Pool, t: nat, id: nat, principal: string): (n: Pool)
    ensures n.terminal == p.terminal
  {
    if p.At(t).Free? && id in p.open && p.open[id] == principal then p.Now(t, Has(id)) else p
  }

  /** What a call does once it has the lock of the cell. */
  datatype Job =
    | Statement(effects: seq<Effect>, ok: bool, code: string, copies: bool)
    | Mark(name: string)
    | Return(name: string)
    | Look

  function JobDone(s: State, id: nat, job: Job): State {
    match job
    case Statement(effects, ok, code, _) => GuardedState(s, Some(id), effects, ok, code)
    case Mark(name) => Apply(s, Savepoint(name)).0
    case Return(name) => Apply(s, RollbackTo(name)).0
    case Look => s
  }

  /** The user's own statement is sent only after its savepoint has been accepted. */
  function SentInto(s: State, p: Pool, id: nat, job: Job): seq<Effectual> {
    if job.Statement? && Apply(s, Savepoint(SAVEPOINT_NAME)).1 == Done then
      [Effectual(id, if s.block.Open? then s.block.owner else None, id in p.ended)]
    else []
  }

  /** A statement that loses the connection goes on to take the handle out of the table; a COPY does not. */
  function AfterJob(id: nat, job: Job, gone: bool): Call {
    if gone && job.Statement? && !job.copies then Losing(id) else Free
  }

  /** A call under the lock of the cell; the connection may be lost before or in it, and may then be seen as closed. */
  function InCell(p: Pool, t: nat, job: Job, lost: bool, seen: bool): (n: Pool)
    ensures n.terminal == p.terminal
  {
    match p.At(t)
    case Has(id) =>
      if !p.HasConn(id) then p
      else
        var s := p.ConnState(id);
        if !s.alive then p.Now(t, if seen then Losing(id) else Free)
        else
          p.(ran := p.ran + SentInto(s, p, id, job)).Set(p.cells[id], if lost then Dropped(s) else JobDone(s, id, job))
          .Now(t, AfterJob(id, job, lost && seen))
    case _ => p
  }

  /** The first part of commit and rollback: the handle is taken out of the table. */
  function TakeOut(p: Pool, t: nat, id: nat, principal: string, commits: bool): (n: Pool)
    ensures n.terminal == p.terminal
  {
    if p.At(t).Free? && id in p.open && p.open[id] == principal then p.Removed(id).Now(t, Finishing(id, commits)) else p
  }

  /** The second part, under the lock of the cell: the block ends. */
  function Finish(p: Pool, t: nat, fate: Fate): (n: Pool)
    ensures n.terminal == p.terminal
  {
    match p.At(t)
    case Finishing(id, commits) =>
      if !p.HasConn(id) then p
      else
        var s := p.ConnState(id);
        p.Set(p.cells[id], FateOf(s, commits, fate)).Over(id).Now(t, Finished(id, RecordOf(s, commits, fate)))
    case _ => p
  }

  /** A cancelled call returns before it ends the block. */
  function Cancelled(p: Pool, t: nat): (n: Pool)
    ensures n.terminal == p.terminal
  {
    if p.At(t).Finishing? then p.Now(t, Free) else p
  }

  /** The last part, under the lock of the tables: the terminal state is noted. */
  function Note(p: Pool, t: nat): Pool {
    match p.At(t)
    case Finished(id, record) => p.Now(t, Free).Noted(id, record)
    case _ => p
  }

  /** A handle whose connection is closed is taken out of the table. */
  function Lose(p: Pool, t: nat): Pool {
    match p.At(t)
    case Losing(id) =>
      if id in p.open then p.Now(t, Free).Removed(id).Over(id).Noted(id, Record(HandleState.Lost, None)) else p.Now(t, Free)
    case _ => p
  }

  /** A sweep, or the shutdown, ends a handle under both locks. */
  function EndHandle(p: Pool, id: nat, expires: bool, lost: bool): Pool {
    if id !in p.open || !p.HasConn(id) then p
    else
      p.Removed(id).Set(p.cells[id], FateOf(p.ConnState(id), false, Fails(lost))).Over(id)
      .Noted(id, SweptRecord(p.ConnState(id), expires, lost))
  }

  function SweptRecord(s: State, expires: bool, lost: bool): Record {
    Record(if expires then Expired else RolledBack, Some(End(s, FateOf(s, false, Fails(lost)), false, Fails(lost))))
  }

  /** Old terminal states are forgotten. */
  function Forget(p: Pool, ids: set<nat>): Pool {
    p.(closed := p.closed - ids)
  }

  predicate Unreferenced(p: Pool, id: nat) {
    id !in p.open && forall t :: t in p.calls ==> IdOf(p.calls[t]) != Some(id)
  }

  /** The last reference to a cell is dropped, and its connection goes back to the pool. */
  function DropCell(p: Pool, id: nat): Pool {
    if id in p.cells && Unreferenced(p, id) then p.(cells := p.cells - {id}).Returned(p.cells[id]) else p
  }

  /** A call without a handle does what it likes on its connection. */
  function Use(p: Pool, t: nat, s: State): Pool {
    match p.At(t)
    case Using(conn) => if conn in p.conns && (s.alive ==> p.conns[conn].alive) && Numbered(s) then p.Set(conn, s) else p
    case _ => p
  }

  /** A connection is lost. */
  function Disconnect(p: Pool, conn: nat): Pool {
    if conn in p.conns then p.Set(conn, Dropped(p.conns[conn])) else p
  }

  /** The steps of a begin. */
  datatype BeginStep =
    | CheckStep(t: nat, principal: string)
    | CheckoutStep(t: nat, conn: nat)
    | GiveUpStep(t: nat)
    | StartStep(t: nat)
    | InsertStep(t: nat, lost: bool)

  /** The steps of the calls on a handle. */
  datatype CallStep =
    | LookupStep(t: nat, id: nat, principal: string)
    | InCellStep(t: nat, job: Job, lost: bool, seen: bool)
    | TakeOutStep(t: nat, id: nat, principal: string, commits: bool)
    | FinishStep(t: nat, fate: Fate)
    | CancelledStep(t: nat)
    | NoteStep(t: nat)
    | LoseStep(t: nat)

  datatype Step =
    | Beginning(begin: BeginStep)
    | Calling(call: CallStep)
    | EndStep(id: nat, expires: bool, lost: bool)
    | ForgetStep(ids: set<nat>)
    | DropStep(id: nat)
    | DiscardStep(conn: nat)
    | UseStep(t: nat, s: State)
    | LostStep(conn: nat)

  /** The pool's size, and the cap on open handles that begin checks. */
  datatype Limits = Limits(size: nat) {
    function Cap(): nat {
      if size > 1 then size - 1 else 1
    }
  }

  function NextBegin(p: Pool, step: BeginStep, limits: Limits): Pool {
    match step
    case CheckStep(t, principal) => Check(p, t, principal, limits.Cap())
    case CheckoutStep(t, conn) => Checkout(p, t, conn, limits.size)
    case GiveUpStep(t) => GiveUp(p, t)
    case StartStep(t) => StartBlock(p, t)
    case InsertStep(t, lost) => Insert(p, t, lost)
  }

  function NextCall(p: Pool, step: CallStep): Pool {
    match step
    case LookupStep(t, id, principal) => Lookup(p, t, id, principal)
    case InCellStep(t, job, lost, seen) => InCell(p, t, job, lost, seen)
    case TakeOutStep(t, id, principal, commits) => TakeOut(p, t, id, principal, commits)
    case FinishStep(t, fate) => Finish(p, t, fate)
    case CancelledStep(t) => Cancelled(p, t)
    case NoteStep(t) => Note(p, t)
    case LoseStep(t) => Lose(p, t)
  }

  function Next(p: Pool, step: Step, limits: Limits): Pool {
    match step
    case Beginning(begin) => NextBegin(p, begin, limits)
    case Calling(call) => NextCall(p, call)
    case EndStep(id, expires, lost) => EndHandle(p, id, expires, lost)
    case ForgetStep(ids) => Forget(p, ids)
    case DropStep(id) => DropCell(p, id)
    case DiscardStep(conn) => Discard(p, conn)
    case UseStep(t, s) => Use(p, t, s)
    case LostStep(conn) => Disconnect(p, conn)
  }

  function Steps(limits: Limits): (Pool, Step) -> Pool {
    (p, step) => Next(p, step, limits)
  }

  /** The state after the first k steps of a run. */
  function Reached(run: seq<Step>, k: nat, next: (Pool, Step) -> Pool): Pool
    requires k <= |run|
  {
    if k == 0 then START else next(Reached(run, k - 1, next), run[k - 1])
  }

  function After(run: seq<Step>, k: nat, limits: Limits): Pool
    requires k <= |run|
  {
    Reached(run, k, Steps(limits))
  }

  // What every step keeps.

  /** Connections and owners: a cell's connection is owned by the cell, a call's by the call. */
  ghost predicate OwnersOk(conns: set<nat>, owner: map<nat, Owner>, cells: map<nat, nat>, calls: map<nat, Call>) {
    && owner.Keys <= conns
    && (forall id :: id in cells ==> cells[id] in owner && owner[cells[id]] == Cell(id))
    && (forall t :: t in calls && ConnOf(calls[t]).Some? ==>
          var conn := ConnOf(calls[t]).value; conn in owner && owner[conn] == Thread(t))
  }

  ghost predicate ValidOwners(p: Pool) {
    OwnersOk(p.conns.Keys, p.owner, p.cells, p.calls)
  }

  /** Every handle in the table and every handle that a call refers to has its cell. */
  ghost predicate CellsOk(open: set<nat>, cells: set<nat>, calls: map<nat, Call>) {
    && open <= cells
    && (forall t :: t in calls && IdOf(calls[t]).Some? ==> IdOf(calls[t]).value in cells)
  }

  ghost predicate ValidCells(p: Pool) {
    CellsOk(p.open.Keys, p.cells.Keys, p.calls)
  }

  /** The numbers given out, and those that are still with a begin. */
  ghost predicate IdsOk(cells: set<nat>, terminal: set<nat>, ended: set<nat>, nextId: nat, calls: map<nat, Call>) {
    && (forall id :: id in cells || id in terminal || id in ended ==> id < nextId)
    && (forall t :: t in calls && calls[t].Begun? ==>
          var id := calls[t].id; id < nextId && id !in cells && id !in terminal && id !in ended)
    && (forall a, b :: a in calls && b in calls && calls[a].Begun? && calls[b].Begun? && calls[a].id == calls[b].id ==> a == b)
  }

  ghost predicate ValidIds(p: Pool) {
    IdsOk(p.cells.Keys, p.terminal.Keys, p.ended, p.nextId, p.calls)
  }

  /** A handle is in the table, or with the one call that ends it, or has its terminal state, and never two of these. */
  ghost predicate EndsOk(open: set<nat>, terminal: set<nat>, ended: set<nat>, calls: map<nat, Call>) {
    && (forall id :: id in open ==> id !in terminal && id !in ended)
    && (forall t :: t in calls && Ending(calls[t]) ==>
          IdOf(calls[t]).value !in open && IdOf(calls[t]).value !in terminal)
    && (forall a, b ::
          a in calls && b in calls && Ending(calls[a]) && Ending(calls[b]) && IdOf(calls[a]) == IdOf(calls[b]) ==> a == b)
  }

  ghost predicate ClosedOk(closed: map<nat, HandleState>, terminal: map<nat, Record>) {
    forall id :: id in closed ==> id in terminal && closed[id] == terminal[id].state
  }

  ghost predicate ValidEnds(p: Pool) {
    EndsOk(p.open.Keys, p.terminal.Keys, p.ended, p.calls) && ClosedOk(p.closed, p.terminal)
  }

  /** A principal has at most one handle in the table. */
  ghost predicate PrincipalsOk(open: map<nat, string>) {
    forall a, b :: a in open && b in open && open[a] == open[b] ==> a == b
  }

  ghost predicate ValidPrincipals(p: Pool) {
    PrincipalsOk(p.open)
  }

  /** A block on a handle's connection. */
  predicate HandleBlock(s: State, id: nat, ended: set<nat>) {
    s.alive && s.block.Open? ==> s.block.owner == Some(id) && id !in ended
  }

  /** Whatever block is open on a handle's connection is the handle's own, and one that has ended is gone. */
  ghost predicate BlocksOk(cells: map<nat, nat>, conns: map<nat, State>, ended: set<nat>, calls: map<nat, Call>) {
    && (forall id :: id in cells && cells[id] in conns ==> HandleBlock(conns[cells[id]], id, ended))
    && (forall t :: t in calls && calls[t].Begun? && calls[t].conn in conns ==>
          HandleBlock(conns[calls[t].conn], calls[t].id, ended))
    && (forall t :: t in calls && calls[t].Holding? && calls[t].conn in conns ==>
          conns[calls[t].conn].alive ==> conns[calls[t].conn].block.Idle?)
    && (forall t :: t in calls && calls[t].Losing? && calls[t].id in cells && cells[calls[t].id] in conns ==>
          !conns[cells[calls[t].id]].alive)
  }

  ghost predicate ValidBlocks(p: Pool) {
    BlocksOk(p.cells, p.conns, p.ended, p.calls)
  }

  /** Every user's statement that a handle's call sent into a block was sent into that handle's block, before it ended. */
  ghost predicate RanOk(ran: seq<Effectual>) {
    forall r :: r in ran ==> r.owner == Some(r.id) && !r.ended
  }

  ghost predicate ValidRan(p: Pool) {
    RanOk(p.ran)
  }

  ghost predicate Valid(p: Pool, limits: Limits) {
    && ValidOwners(p) && ValidCells(p) && ValidIds(p) && ValidEnds(p) && ValidPrincipals(p) && ValidBlocks(p) && ValidRan(p)
    && |p.conns| <= limits.size
  }
}
