/** What holds in every interleaving of the calls on pooled handles: crates/ownpg-core/src/engine.rs. */
module PooledRuns {
  import opened Basics
  import opened Backend
  import opened Guard
  import opened Handles
  import opened Pooled
  import opened PooledSteps

  /** What every step keeps holds at every later point of a run. */
  lemma {:induction false} RunKeeps(run: seq<Step>, j: nat, k: nat, next: (Pool, Step) -> Pool, inv: Pool -> bool)
    requires j <= k <= |run| && inv(Reached(run, j, next))
    requires forall p, step :: inv(p) ==> inv(next(p, step))
    ensures inv(Reached(run, k, next))
    decreases k - j
  {
    if j < k { RunKeeps(run, j, k - 1, next, inv); }
  }

  lemma {:induction false} PrefixReaches(run: seq<Step>, step: Step, k: nat, next: (Pool, Step) -> Pool)
    requires k <= |run|
    ensures Reached(run + [step], k, next) == Reached(run, k, next)
  {
    if k > 0 { PrefixReaches(run, step, k - 1, next); }
  }

  lemma ReachesFurther(run: seq<Step>, step: Step, next: (Pool, Step) -> Pool)
    ensures Reached(run + [step], |run| + 1, next) == next(Reached(run, |run|, next), step)
  {
    PrefixReaches(run, step, |run|, next);
  }

  /** A run that goes on. */
  lemma Further(run: seq<Step>, p: Pool, step: Step, limits: Limits) returns (more: seq<Step>)
    requires p == After(run, |run|, limits)
    ensures Next(p, step, limits) == After(more, |more|, limits)
  {
    ReachesFurther(run, step, Steps(limits));
    more := run + [step];
    assert |more| == |run| + 1;
  }

  lemma StartIsValid(limits: Limits)
    ensures Valid(START, limits)
  {
  }

  lemma EveryRunIsValid(run: seq<Step>, k: nat, limits: Limits)
    requires k <= |run|
    ensures Valid(After(run, k, limits), limits)
  {
    StartIsValid(limits);
    ghost var inv := p => Valid(p, limits);
    forall p, step | inv(p) ensures inv(Steps(limits)(p, step)) {
      StepKeeps(p, step, limits);
    }
    RunKeeps(run, 0, k, Steps(limits), inv);
  }

  // What that means for every run.

  /** In every interleaving every user's statement that a handle's call sends into a block goes into that handle's block,
      and before the block has been committed, rolled back or lost. */
  lemma NoStatementAfterTheEnd(run: seq<Step>, k: nat, limits: Limits, i: nat)
    requires k <= |run| && i < |After(run, k, limits).ran|
    ensures var r := After(run, k, limits).ran[i];
            r.owner == Some(r.id) && !r.ended
  {
    EveryRunIsValid(run, k, limits);
  }

  /** The step sends no user's statement, and leaves the connection of the handle as it is, unless it is lost. */
  predicate Unaffected(p: Pool, n: Pool, id: nat) {
    && n.ran == p.ran && p.HasConn(id) && n.HasConn(id)
    && (n.ConnState(id) == p.ConnState(id) || n.ConnState(id) == Dropped(p.ConnState(id)))
    && n.ConnState(id).committed == p.ConnState(id).committed
  }

  lemma IdleCellIsUnaffected(p: Pool, t: nat, job: Job, lost: bool, seen: bool)
    requires p.At(t).Has? && p.HasConn(p.At(t).id) && p.ConnState(p.At(t).id).alive && p.ConnState(p.At(t).id).block.Idle?
    ensures Unaffected(p, InCell(p, t, job, lost, seen), p.At(t).id)
  {
    var id := p.At(t).id;
    var s := p.ConnState(id);
    JobKeepsBlock(s, id, job, p.ended);
    assert SentInto(s, p, id, job) == [];
  }

  lemma DeadCellIsUnaffected(p: Pool, t: nat, job: Job, lost: bool, seen: bool)
    requires p.At(t).Has? && p.HasConn(p.At(t).id) && !p.ConnState(p.At(t).id).alive
    ensures Unaffected(p, InCell(p, t, job, lost, seen), p.At(t).id)
  {
  }

  /** A call that looked its handle up before the end, and gets the cell's lock after it, changes nothing, whatever its
      statement is: the server refuses the savepoint outside a block. */
  lemma LateCallDoesNothing(run: seq<Step>, k: nat, limits: Limits, t: nat, job: Job, lost: bool, seen: bool)
    requires k <= |run|
    requires var p := After(run, k, limits); p.At(t).Has? && p.At(t).id in p.ended
    ensures var p := After(run, k, limits); Unaffected(p, InCell(p, t, job, lost, seen), p.At(t).id)
  {
    var p := After(run, k, limits);
    EveryRunIsValid(run, k, limits);
    CellHasConn(p, t, limits);
    EndedCellIsIdle(p, p.At(t).id, limits);
    if p.ConnState(p.At(t).id).alive {
      IdleCellIsUnaffected(p, t, job, lost, seen);
    } else {
      DeadCellIsUnaffected(p, t, job, lost, seen);
    }
  }

  lemma CellHasConn(p: Pool, t: nat, limits: Limits)
    requires Valid(p, limits) && p.At(t).Has?
    ensures p.HasConn(p.At(t).id)
  {
  }

  lemma EndedCellIsIdle(p: Pool, id: nat, limits: Limits)
    requires Valid(p, limits) && id in p.ended && p.HasConn(id)
    ensures p.ConnState(id).alive ==> p.ConnState(id).block.Idle?
  {
    CellBlock(p, id, limits);
  }

  /** Each principal has at most one open handle, different open handles have different connections, and no handle is both
      open and closed. */
  lemma OneHandleEach(run: seq<Step>, k: nat, limits: Limits, a: nat, b: nat)
    requires k <= |run|
    requires var p := After(run, k, limits); a in p.open && b in p.open
    ensures var p := After(run, k, limits);
            && (p.open[a] == p.open[b] ==> a == b)
            && a in p.cells && b in p.cells && (p.cells[a] == p.cells[b] ==> a == b)
            && a !in p.closed
  {
    EveryRunIsValid(run, k, limits);
  }

  lemma {:induction false} FewerIds(ids: set<nat>, cells: map<nat, nat>, conns: set<nat>)
    requires ids <= cells.Keys && forall id :: id in ids ==> cells[id] in conns
    requires forall a, b :: a in ids && b in ids && cells[a] == cells[b] ==> a == b
    ensures |ids| <= |conns|
    decreases ids
  {
    if ids != {} {
      var id :| id in ids;
      FewerIds(ids - {id}, cells, conns - {cells[id]});
    }
  }

  /** At most as many handles are open as the pool has connections. */
  lemma OpenWithinPool(run: seq<Step>, k: nat, limits: Limits)
    requires k <= |run|
    ensures |After(run, k, limits).open| <= limits.size
  {
    var p := After(run, k, limits);
    EveryRunIsValid(run, k, limits);
    forall id | id in p.open.Keys ensures p.cells[id] in p.conns.Keys && p.owner[p.cells[id]] == Cell(id) {}
    FewerIds(p.open.Keys, p.cells, p.conns.Keys);
    assert |p.open.Keys| == |p.open| && |p.conns.Keys| == |p.conns|;
  }

  lemma BeginKeepsTerminal(p: Pool, step: BeginStep, limits: Limits)
    ensures NextBegin(p, step, limits).terminal == p.terminal
  {
  }

  lemma NoteKeepsTerminal(p: Pool, t: nat, id: nat)
    requires ValidEnds(p) && id in p.terminal
    ensures var n := Note(p, t); id in n.terminal && n.terminal[id] == p.terminal[id]
  {
  }

  lemma LoseKeepsTerminal(p: Pool, t: nat, id: nat)
    requires ValidEnds(p) && id in p.terminal
    ensures var n := Lose(p, t); id in n.terminal && n.terminal[id] == p.terminal[id]
  {
    LoseNotes(p, t);
  }

  lemma LoseNotes(p: Pool, t: nat)
    ensures var call := p.At(t);
            Lose(p, t).terminal ==
            if call.Losing? && call.id in p.open then p.terminal[call.id := Record(HandleState.Lost, None)] else p.terminal
  {
    var call := p.At(t);
    if call.Losing? && call.id in p.open {
      assert Lose(p, t) == p.Now(t, Free).Removed(call.id).Over(call.id).Noted(call.id, Record(HandleState.Lost, None));
    }
  }

  lemma CallKeepsTerminal(p: Pool, step: CallStep, id: nat)
    requires ValidEnds(p) && id in p.terminal
    ensures var n := NextCall(p, step); id in n.terminal && n.terminal[id] == p.terminal[id]
  {
    match step
    case NoteStep(t) => NoteKeepsTerminal(p, t, id);
    case LoseStep(t) => LoseKeepsTerminal(p, t, id);
    case _ => assert NextCall(p, step).terminal == p.terminal;
  }

  lemma StepKeepsTerminal(p: Pool, step: Step, limits: Limits, id: nat)
    requires ValidEnds(p) && id in p.terminal
    ensures var n := Next(p, step, limits); id in n.terminal && n.terminal[id] == p.terminal[id]
  {
    match step
    case Beginning(begin) => BeginKeepsTerminal(p, begin, limits);
    case Calling(call) => CallKeepsTerminal(p, call, id);
    case _ =>
  }

  /** A handle gets at most one terminal state, and keeps it. */
  lemma OneTerminalState(run: seq<Step>, j: nat, k: nat, limits: Limits, id: nat)
    requires j <= k <= |run| && id in After(run, j, limits).terminal
    ensures var n := After(run, k, limits); id in n.terminal && n.terminal[id] == After(run, j, limits).terminal[id]
  {
    var state := After(run, j, limits).terminal[id];
    ghost var inv := p => Valid(p, limits) && id in p.terminal && p.terminal[id] == state;
    EveryRunIsValid(run, j, limits);
    forall p, step | inv(p) ensures inv(Steps(limits)(p, step)) {
      StepKeeps(p, step, limits);
      StepKeepsTerminal(p, step, limits, id);
    }
    RunKeeps(run, j, k, Steps(limits), inv);
  }

  /** It is not open then, and the table of closed handles, as long as it remembers the handle, has that state. */
  lemma TerminalIsClosed(run: seq<Step>, k: nat, limits: Limits, id: nat)
    requires k <= |run| && id in After(run, k, limits).terminal
    ensures var p := After(run, k, limits); id !in p.open && (id in p.closed ==> p.closed[id] == p.terminal[id].state)
  {
    EveryRunIsValid(run, k, limits);
  }

  // Which handles that are no longer open have a terminal state.

  /** The call is the one that ends the handle. */
  predicate Ends(call: Call, id: nat) {
    Ending(call) && IdOf(call) == Some(id)
  }

  ghost predicate Kept(p: Pool, id: nat) {
    id in p.open || id in p.terminal || exists t: nat :: Ends(p.At(t), id)
  }

  /** The step returns from a commit or rollback of the handle before the block has ended. */
  predicate Cancels(p: Pool, step: Step, id: nat) {
    step.Calling? && step.call.CancelledStep? && p.At(step.call.t).Finishing? && p.At(step.call.t).id == id
  }

  /** The handle is nowhere any more, and cannot come back. */
  ghost predicate Gone(p: Pool, id: nat) {
    id < p.nextId && !Kept(p, id) && forall t: nat :: p.At(t).Begun? ==> p.At(t).id != id
  }

  /** What a step of one call may do about a handle: the other calls stay as they are, the handle neither gets lost nor turns
      up unless a begin brings it, and a begin has a new number. */
  ghost predicate Moves(p: Pool, n: Pool, t: nat, id: nat) {
    && (forall u: nat :: u != t ==> n.At(u) == p.At(u))
    && p.nextId <= n.nextId
    && (id in p.open || id in p.terminal || Ends(p.At(t), id) ==> id in n.open || id in n.terminal || Ends(n.At(t), id))
    && (id in n.open || id in n.terminal || Ends(n.At(t), id) ==>
          id in p.open || id in p.terminal || Ends(p.At(t), id) || (p.At(t).Begun? && p.At(t).id == id))
    && (n.At(t).Begun? && n.At(t).id == id ==> id == p.nextId || n.At(t) == p.At(t))
  }

  lemma MovesKeeps(p: Pool, n: Pool, t: nat, id: nat)
    requires Moves(p, n, t, id)
    ensures Kept(p, id) ==> Kept(n, id)
    ensures Gone(p, id) ==> Gone(n, id)
  {
    if Kept(p, id) && id !in p.open && id !in p.terminal {
      var u: nat :| Ends(p.At(u), id);
      assert Ends(n.At(u), id) || u == t;
    }
    if Gone(p, id) {
      assert !Ends(p.At(t), id);
      forall u: nat ensures !Ends(n.At(u), id) && (n.At(u).Begun? ==> n.At(u).id != id) {
        assert !Ends(p.At(u), id);
      }
    }
  }

  /** Only this call has moved, and neither from nor to the end of a handle. */
  predicate OnlyCall(p: Pool, n: Pool, t: nat) {
    && n.open == p.open && n.terminal == p.terminal && n.nextId >= p.nextId
    && (n.calls == p.calls || n.calls == p.calls[t := n.At(t)])
    && (n.At(t) == p.At(t) || (!Ending(p.At(t)) && !Ending(n.At(t))))
    && (n.At(t).Begun? ==> n.At(t).id == p.nextId || n.At(t) == p.At(t))
  }

  lemma OnlyCallMoves(p: Pool, n: Pool, t: nat, id: nat)
    requires OnlyCall(p, n, t)
    ensures Moves(p, n, t, id)
  {
  }

  lemma BeginMoves(p: Pool, step: BeginStep, limits: Limits, id: nat)
    ensures Moves(p, NextBegin(p, step, limits), step.t, id)
  {
    match step
    case CheckStep(t, principal) => CheckMoves(p, t, principal, limits, id);
    case CheckoutStep(t, conn) => CheckoutMoves(p, t, conn, limits, id);
    case GiveUpStep(t) => GiveUpMoves(p, t, id);
    case StartStep(t) => StartMoves(p, t, id);
    case InsertStep(t, lost) => InsertMoves(p, t, lost, id);
  }

  lemma CheckMoves(p: Pool, t: nat, principal: string, limits: Limits, id: nat)
    ensures Moves(p, Check(p, t, principal, limits.Cap()), t, id)
  {
    OnlyCallMoves(p, Check(p, t, principal, limits.Cap()), t, id);
  }

  lemma CheckoutMoves(p: Pool, t: nat, conn: nat, limits: Limits, id: nat)
    ensures OnlyCall(p, Checkout(p, t, conn, limits.size), t) && Moves(p, Checkout(p, t, conn, limits.size), t, id)
  {
    OnlyCallMoves(p, Checkout(p, t, conn, limits.size), t, id);
  }

  lemma GiveUpMoves(p: Pool, t: nat, id: nat)
    ensures OnlyCall(p, GiveUp(p, t), t) && Moves(p, GiveUp(p, t), t, id)
  {
    var n := GiveUp(p, t);
    var free := p.Now(t, Free);
    assert n == p || n == free || (ConnOf(p.At(t)).Some? && n == free.Returned(ConnOf(p.At(t)).value));
    OnlyCallMoves(p, n, t, id);
  }

  lemma StartMoves(p: Pool, t: nat, id: nat)
    ensures OnlyCall(p, StartBlock(p, t), t) && Moves(p, StartBlock(p, t), t, id)
  {
    OnlyCallMoves(p, StartBlock(p, t), t, id);
  }

  lemma InsertMoves(p: Pool, t: nat, lost: bool, id: nat)
    ensures Moves(p, Insert(p, t, lost), t, id)
  {
    var n, call := Insert(p, t, lost), p.At(t);
    if !call.Begun? || call.conn !in p.conns {
      assert n == p;
    } else if OpenFor(p, call.principal) {
      assert n == p.Now(t, Free).Set(call.conn, Ended(p.conns[call.conn], lost)).Returned(call.conn);
      OnlyCallMoves(p, n, t, id);
    } else {
      assert n == p.Now(t, Free).Entered(call.id, call.principal, call.conn);
      EntryMoves(p, t, id);
    }
  }

  lemma EntryMoves(p: Pool, t: nat, id: nat)
    requires p.At(t).Begun?
    ensures Moves(p, p.Now(t, Free).Entered(p.At(t).id, p.At(t).principal, p.At(t).conn), t, id)
  {
  }

  lemma CallMoves(p: Pool, step: CallStep, id: nat)
    requires !Cancels(p, Calling(step), id)
    ensures Moves(p, NextCall(p, step), step.t, id)
  {
    match step
    case LookupStep(t, h, principal) => OnlyCallMoves(p, Lookup(p, t, h, principal), t, id);
    case InCellStep(t, job, lost, seen) => InCellMoves(p, t, job, lost, seen, id);
    case TakeOutStep(t, h, principal, commits) => TakeOutMoves(p, t, h, principal, commits, id);
    case FinishStep(t, fate) => FinishMoves(p, t, fate, id);
    case CancelledStep(t) => assert Moves(p, Cancelled(p, t), t, id);
    case NoteStep(t) => NoteMoves(p, t, id);
    case LoseStep(t) => LoseMoves(p, t, id);
  }

  /** A call in the cell goes on to nothing or to losing its handle, and leaves the tables as they are. */
  lemma InCellCall(p: Pool, t: nat, job: Job, lost: bool, seen: bool)
    ensures var n := InCell(p, t, job, lost, seen);
            && n.open == p.open && n.terminal == p.terminal && n.nextId == p.nextId
            && (n.calls == p.calls ||
                (p.At(t).Has? && (n.At(t).Free? || n.At(t).Losing?) && n.calls == p.calls[t := n.At(t)]))
  {
    var n, call := InCell(p, t, job, lost, seen), p.At(t);
    if !call.Has? || !p.HasConn(call.id) {
      assert n == p;
    } else if p.ConnState(call.id).alive {
      InCellIs(p, t, call.id, job, lost, seen);
    } else {
      assert n == p.Now(t, if seen then Losing(call.id) else Free);
    }
  }

  lemma InCellMoves(p: Pool, t: nat, job: Job, lost: bool, seen: bool, id: nat)
    ensures OnlyCall(p, InCell(p, t, job, lost, seen), t) && Moves(p, InCell(p, t, job, lost, seen), t, id)
  {
    InCellCall(p, t, job, lost, seen);
    OnlyCallMoves(p, InCell(p, t, job, lost, seen), t, id);
  }

  lemma TakeOutMoves(p: Pool, t: nat, h: nat, principal: string, commits: bool, id: nat)
    ensures Moves(p, TakeOut(p, t, h, principal, commits), t, id)
  {
  }

  lemma FinishMoves(p: Pool, t: nat, fate: Fate, id: nat)
    ensures Moves(p, Finish(p, t, fate), t, id)
  {
  }

  lemma NoteMoves(p: Pool, t: nat, id: nat)
    ensures Moves(p, Note(p, t), t, id)
  {
  }

  lemma LoseMoves(p: Pool, t: nat, id: nat)
    ensures Moves(p, Lose(p, t), t, id)
  {
    var n, call := Lose(p, t), p.At(t);
    assert n == p || n == p.Now(t, Free)
      || (call.Losing? && n == p.Now(t, Free).Removed(call.id).Over(call.id).Noted(call.id, Record(HandleState.Lost, None)));
  }

  lemma EndMoves(p: Pool, h: nat, expires: bool, lost: bool, id: nat)
    ensures Moves(p, EndHandle(p, h, expires, lost), 0, id)
  {
    var n := EndHandle(p, h, expires, lost);
    assert n.calls == p.calls && n.nextId == p.nextId;
  }

  /** The other steps leave the calls and the tables of handles as they are. */
  lemma OtherLeaves(p: Pool, step: Step, limits: Limits)
    requires !step.Beginning? && !step.Calling? && !step.EndStep?
    ensures var n := Next(p, step, limits);
            n.open == p.open && n.terminal == p.terminal && n.nextId == p.nextId && n.calls == p.calls
  {
  }

  lemma OtherMoves(p: Pool, step: Step, limits: Limits, id: nat)
    requires !step.Beginning? && !step.Calling?
    ensures Moves(p, Next(p, step, limits), 0, id)
  {
    if step.EndStep? {
      EndMoves(p, step.id, step.expires, step.lost, id);
    } else {
      OtherLeaves(p, step, limits);
      OnlyCallMoves(p, Next(p, step, limits), 0, id);
    }
  }

  lemma StepKeepsKept(p: Pool, step: Step, limits: Limits, id: nat)
    ensures Kept(p, id) && !Cancels(p, step, id) ==> Kept(Next(p, step, limits), id)
    ensures Gone(p, id) ==> Gone(Next(p, step, limits), id)
  {
    var n := Next(p, step, limits);
    if Cancels(p, step, id) {
      assert Ends(p.At(step.call.t), id);
    } else {
      match step
      case Beginning(begin) =>
        BeginMoves(p, begin, limits, id);
        MovesKeeps(p, n, begin.t, id);
      case Calling(call) =>
        CallMoves(p, call, id);
        MovesKeeps(p, n, call.t, id);
      case _ =>
        OtherMoves(p, step, limits, id);
        MovesKeeps(p, n, 0, id);
    }
  }

  lemma CancelledIsGone(p: Pool, step: Step, limits: Limits, id: nat)
    requires Valid(p, limits) && Cancels(p, step, id)
    ensures Gone(Next(p, step, limits), id)
  {
    var n := p.Now(step.call.t, Free);
    assert Next(p, step, limits) == n;
    assert Gone(n, id);
  }

  /** One of these steps of a run is marked. */
  ghost predicate Marked(run: seq<Step>, j: nat, k: nat, next: (Pool, Step) -> Pool, marks: (Pool, Step) -> bool)
    requires k <= |run|
  {
    exists i :: j <= i < k && marks(Reached(run, i, next), run[i])
  }

  lemma MarkedOnce(run: seq<Step>, j: nat, k: nat, next: (Pool, Step) -> Pool, marks: (Pool, Step) -> bool)
    requires j <= k < |run|
    ensures Marked(run, j, k + 1, next, marks) <==>
      Marked(run, j, k, next, marks) || marks(Reached(run, k, next), run[k])
  {
  }

  /** What every step carries on, given whether a step has been marked, holds at every later point of a run. */
  lemma {:induction false} RunMarks(run: seq<Step>, j: nat, k: nat, next: (Pool, Step) -> Pool, marks: (Pool, Step) -> bool,
                                    inv: (Pool, bool) -> bool)
    requires j <= k <= |run| && inv(Reached(run, j, next), false)
    requires forall p, step, marked :: inv(p, marked) ==> inv(next(p, step), marked || marks(p, step))
    ensures inv(Reached(run, k, next), Marked(run, j, k, next, marks))
    decreases k - j
  {
    if j < k {
      RunMarks(run, j, k - 1, next, marks, inv);
      MarkedOnce(run, j, k - 1, next, marks);
    }
  }

  function Cancelling(id: nat): (Pool, Step) -> bool {
    (p, step) => Cancels(p, step, id)
  }

  /** A finish of the handle was cancelled in one of these steps. */
  ghost predicate CancelledBetween(run: seq<Step>, j: nat, k: nat, limits: Limits, id: nat)
    requires k <= |run|
  {
    Marked(run, j, k, Steps(limits), Cancelling(id))
  }

  /** A handle that was open once is still open, or being ended, or has a terminal state, if and only if no commit or rollback
      of it was cancelled. */
  lemma NotedUnlessCancelled(run: seq<Step>, j: nat, k: nat, limits: Limits, id: nat)
    requires j <= k <= |run| && id in After(run, j, limits).open
    ensures Kept(After(run, k, limits), id) <==> !CancelledBetween(run, j, k, limits, id)
  {
    GoneIfCancelled(run, j, k, limits, id);
  }

  /** Where the handle is, given whether it was cancelled. */
  ghost predicate Stands(p: Pool, id: nat, cancelled: bool) {
    if cancelled then Gone(p, id) else Kept(p, id)
  }

  lemma StandsFurther(p: Pool, step: Step, limits: Limits, id: nat, cancelled: bool)
    requires Valid(p, limits) && Stands(p, id, cancelled)
    ensures Stands(Next(p, step, limits), id, cancelled || Cancels(p, step, id))
  {
    StepKeepsKept(p, step, limits, id);
    if Cancels(p, step, id) { CancelledIsGone(p, step, limits, id); }
  }

  lemma GoneIfCancelled(run: seq<Step>, j: nat, k: nat, limits: Limits, id: nat)
    requires j <= k <= |run| && id in After(run, j, limits).open
    ensures Stands(After(run, k, limits), id, CancelledBetween(run, j, k, limits, id))
  {
    ghost var inv := (p, cancelled) => Valid(p, limits) && Stands(p, id, cancelled);
    EveryRunIsValid(run, j, limits);
    forall p, step, cancelled | inv(p, cancelled)
      ensures inv(Steps(limits)(p, step), cancelled || Cancelling(id)(p, step))
    {
      StepKeeps(p, step, limits);
      StandsFurther(p, step, limits, id, cancelled);
    }
    RunMarks(run, j, k, Steps(limits), Cancelling(id), inv);
  }
}
