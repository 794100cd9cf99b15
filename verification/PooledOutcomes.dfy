/** What pooled handles' terminal states, and the answers to commits and rollbacks, say about the database:
    crates/ownpg-core/src/engine.rs. */
module PooledOutcomes {
  import opened Basics
  import opened Backend
  import opened Guard
  import opened Handles
  import opened Pooled
  import opened PooledSteps
  import opened PooledRuns
  import opened PooledCap

  /** What a terminal state says has happened; a lost handle's says nothing of the outcome. */
  predicate IsTrue(record: Record) {
    record.state.Lost? ||
    (record.end.Some? &&
     var end := record.end.value;
     end.after.committed == end.before.committed + if record.state.Committed? then Work(end.before) else [])
  }

  /** The server has carried out a COMMIT of some work, its reply was lost, nobody has told the outcome, and the client was
      not yet seen to be closed. */
  predicate Misnoted(record: Record) {
    record.end.Some? &&
    var end := record.end.value;
    && end.commits && end.fate == Breaks(AfterEffect, false, false)
    && end.before.alive && !InAbortedBlock(end.before) && Work(end.before) != []
  }

  /** What the caller was told about the end of the block. */
  predicate AnsweredTruly(end: End) {
    match AnswerOf(end.before, end.commits, end.fate)
    case Success => end.after.committed == end.before.committed + if end.commits then Work(end.before) else []
    case Failure => end.after.committed == end.before.committed
    case Unknown => end.commits
  }

  /** A record as the steps make it. */
  predicate Recordable(record: Record) {
    match record.end
    case None => record.state.Lost?
    case Some(end) =>
      && Numbered(end.before) && end.after == FateOf(end.before, end.commits, end.fate)
      && (record.state == StateOf(end.before, end.commits, end.fate) ||
          (!end.commits && (record.state.Expired? || record.state.RolledBack?)))
  }

  lemma RecordIsTrueExactlyWhen(record: Record)
    requires Recordable(record)
    ensures IsTrue(record) <==> !Misnoted(record)
  {
    if record.end.Some? {
      var end := record.end.value;
      assert end.before.committed + [] == end.before.committed;
      if !Misnoted(record) && end.commits && end.fate.Breaks? && end.before.alive && end.before.block.Open? {
        assert !end.before.block.hasId ==> Work(end.before) == [];
      }
    }
  }

  lemma RecordIsAnsweredTruly(record: Record)
    requires Recordable(record) && record.end.Some?
    ensures AnsweredTruly(record.end.value)
  {
    var end := record.end.value;
    assert end.before.committed + [] == end.before.committed;
  }

  // Connections.

  ghost predicate AllNumbered(conns: map<nat, State>) {
    forall conn :: conn in conns ==> Numbered(conns[conn])
  }

  lemma GuardKeepsNumbered(s: State, caller: Option<nat>, effects: seq<Effect>, ok: bool, code: string)
    requires Numbered(s) && s.alive
    ensures Numbered(GuardedState(s, caller, effects, ok, code))
  {
    var (saved, one) := Apply(s, Savepoint(SAVEPOINT_NAME));
    SendingKeepsNumbered(s, Savepoint(SAVEPOINT_NAME), saved, one);
    var user := User(caller, effects, ok, code);
    var (worked, two) := Apply(saved, user);
    SendingKeepsNumbered(saved, user, worked, two);
    if two == Done {
      var (released, three) := Apply(worked, Release(SAVEPOINT_NAME));
      SendingKeepsNumbered(worked, Release(SAVEPOINT_NAME), released, three);
    } else {
      var (rolled, three) := Apply(worked, RollbackTo(SAVEPOINT_NAME));
      SendingKeepsNumbered(worked, RollbackTo(SAVEPOINT_NAME), rolled, three);
      var (released, four) := Apply(rolled, Release(SAVEPOINT_NAME));
      SendingKeepsNumbered(rolled, Release(SAVEPOINT_NAME), released, four);
    }
  }

  lemma JobKeepsNumbered(s: State, id: nat, job: Job)
    requires Numbered(s) && s.alive
    ensures Numbered(JobDone(s, id, job))
  {
    match job
    case Statement(effects, ok, code, _) => GuardKeepsNumbered(s, Some(id), effects, ok, code);
    case Mark(name) => SendingKeepsNumbered(s, Savepoint(name), JobDone(s, id, job), Apply(s, Savepoint(name)).1);
    case Return(name) => SendingKeepsNumbered(s, RollbackTo(name), JobDone(s, id, job), Apply(s, RollbackTo(name)).1);
    case Look =>
  }

  /** A step sets one connection at most. */
  ghost predicate SetsOne(p: Pool, n: Pool, conn: nat, s: State) {
    n.conns == p.conns || (n.conns == p.conns[conn := s] && Numbered(s)) || n.conns == p.conns - {conn}
  }

  lemma SettingKeepsNumbered(p: Pool, n: Pool, conn: nat, s: State)
    requires AllNumbered(p.conns) && SetsOne(p, n, conn, s)
    ensures AllNumbered(n.conns)
  {
  }

  lemma CheckoutKeepsNumbered(p: Pool, t: nat, conn: nat, size: nat)
    requires AllNumbered(p.conns)
    ensures AllNumbered(Checkout(p, t, conn, size).conns)
  {
    var s := Handed(p, conn, size);
    if s.Some? { SettingKeepsNumbered(p, Checkout(p, t, conn, size), conn, s.value); }
  }

  lemma StartKeepsNumbered(p: Pool, t: nat)
    requires AllNumbered(p.conns)
    ensures AllNumbered(StartBlock(p, t).conns)
  {
  }

  lemma InsertKeepsNumbered(p: Pool, t: nat, lost: bool)
    requires AllNumbered(p.conns)
    ensures AllNumbered(Insert(p, t, lost).conns)
  {
  }

  lemma BeginKeepsNumbered(p: Pool, step: BeginStep, limits: Limits)
    requires AllNumbered(p.conns)
    ensures AllNumbered(NextBegin(p, step, limits).conns)
  {
    match step
    case CheckStep(t, principal) =>
    case CheckoutStep(t, conn) => CheckoutKeepsNumbered(p, t, conn, limits.size);
    case GiveUpStep(t) =>
    case StartStep(t) => StartKeepsNumbered(p, t);
    case InsertStep(t, lost) => InsertKeepsNumbered(p, t, lost);
  }

  lemma InCellKeepsNumbered(p: Pool, t: nat, job: Job, lost: bool, seen: bool)
    requires AllNumbered(p.conns)
    ensures AllNumbered(InCell(p, t, job, lost, seen).conns)
  {
    var call := p.At(t);
    if call.Has? && p.HasConn(call.id) && p.ConnState(call.id).alive {
      var s := p.ConnState(call.id);
      var next := if lost then Dropped(s) else JobDone(s, call.id, job);
      JobKeepsNumbered(s, call.id, job);
      InCellIs(p, t, call.id, job, lost, seen);
      SettingKeepsNumbered(p, InCell(p, t, job, lost, seen), p.cells[call.id], next);
    }
  }

  lemma FinishKeepsNumbered(p: Pool, t: nat, fate: Fate)
    requires AllNumbered(p.conns)
    ensures AllNumbered(Finish(p, t, fate).conns)
  {
    var call := p.At(t);
    if call.Finishing? && p.HasConn(call.id) {
      var next := FateOf(p.ConnState(call.id), call.commits, fate);
      assert Numbered(next);
      SettingKeepsNumbered(p, Finish(p, t, fate), p.cells[call.id], next);
    }
  }

  lemma CallKeepsNumbered(p: Pool, step: CallStep)
    requires AllNumbered(p.conns)
    ensures AllNumbered(NextCall(p, step).conns)
  {
    match step
    case LookupStep(t, id, principal) =>
    case InCellStep(t, job, lost, seen) => InCellKeepsNumbered(p, t, job, lost, seen);
    case TakeOutStep(t, id, principal, commits) =>
    case FinishStep(t, fate) => FinishKeepsNumbered(p, t, fate);
    case CancelledStep(t) =>
    case NoteStep(t) =>
    case LoseStep(t) =>
  }

  lemma StepKeepsNumbered(p: Pool, step: Step, limits: Limits)
    requires AllNumbered(p.conns)
    ensures AllNumbered(Next(p, step, limits).conns)
  {
    match step
    case Beginning(begin) => BeginKeepsNumbered(p, begin, limits);
    case Calling(call) => CallKeepsNumbered(p, call);
    case EndStep(id, expires, lost) => EndKeepsNumbered(p, id, expires, lost);
    case _ =>
  }

  lemma EndKeepsNumbered(p: Pool, id: nat, expires: bool, lost: bool)
    requires AllNumbered(p.conns)
    ensures AllNumbered(EndHandle(p, id, expires, lost).conns)
  {
    if id in p.open && p.HasConn(id) {
      var next := FateOf(p.ConnState(id), false, Fails(lost));
      assert Numbered(next);
      SettingKeepsNumbered(p, EndHandle(p, id, expires, lost), p.cells[id], next);
    }
  }

  // Records.

  ghost predicate AllRecordable(terminal: map<nat, Record>) {
    forall id :: id in terminal ==> Recordable(terminal[id])
  }

  ghost predicate Carried(calls: map<nat, Call>) {
    forall t :: t in calls && calls[t].Finished? ==> Recordable(calls[t].record)
  }

  ghost predicate Kept(p: Pool) {
    AllNumbered(p.conns) && AllRecordable(p.terminal) && Carried(p.calls)
  }

  lemma CarriedOn(calls: map<nat, Call>, t: nat, call: Call)
    requires Carried(calls) && (call.Finished? ==> Recordable(call.record))
    ensures Carried(calls[t := call])
  {
  }

  lemma OnlyCallCarries(p: Pool, n: Pool, t: nat)
    requires Carried(p.calls) && OnlyCall(p, n, t)
    ensures Carried(n.calls)
  {
  }

  lemma BeginCarries(p: Pool, step: BeginStep, limits: Limits)
    requires Carried(p.calls)
    ensures Carried(NextBegin(p, step, limits).calls)
  {
    var n := NextBegin(p, step, limits);
    match step
    case CheckStep(t, principal) => CarriedOn(p.calls, t, Checked(principal));
    case CheckoutStep(t, conn) =>
      CheckoutMoves(p, t, conn, limits, 0);
      OnlyCallCarries(p, n, t);
    case GiveUpStep(t) =>
      GiveUpMoves(p, t, 0);
      OnlyCallCarries(p, n, t);
    case StartStep(t) =>
      StartMoves(p, t, 0);
      OnlyCallCarries(p, n, t);
    case InsertStep(t, lost) => CarriedOn(p.calls, t, Free);
  }

  lemma FinishCarries(p: Pool, t: nat, fate: Fate)
    requires AllNumbered(p.conns) && Carried(p.calls)
    ensures Carried(Finish(p, t, fate).calls)
  {
    var call := p.At(t);
    if call.Finishing? && p.HasConn(call.id) {
      var record := RecordOf(p.ConnState(call.id), call.commits, fate);
      assert Recordable(record);
      CarriedOn(p.calls, t, Finished(call.id, record));
    }
  }

  lemma CallCarries(p: Pool, step: CallStep)
    requires AllNumbered(p.conns) && Carried(p.calls)
    ensures Carried(NextCall(p, step).calls)
  {
    match step
    case LookupStep(t, id, principal) => CarriedOn(p.calls, t, Has(id));
    case InCellStep(t, job, lost, seen) =>
      InCellMoves(p, t, job, lost, seen, 0);
      OnlyCallCarries(p, InCell(p, t, job, lost, seen), t);
    case TakeOutStep(t, id, principal, commits) => CarriedOn(p.calls, t, Finishing(id, commits));
    case FinishStep(t, fate) => FinishCarries(p, t, fate);
    case CancelledStep(t) => CarriedOn(p.calls, t, Free);
    case NoteStep(t) => CarriedOn(p.calls, t, Free);
    case LoseStep(t) => CarriedOn(p.calls, t, Free);
  }

  lemma CallRecords(p: Pool, step: CallStep)
    requires AllRecordable(p.terminal) && Carried(p.calls)
    ensures AllRecordable(NextCall(p, step).terminal)
  {
    match step
    case NoteStep(t) => NoteRecords(p, t);
    case LoseStep(t) => LoseRecords(p, t);
    case _ => assert NextCall(p, step).terminal == p.terminal;
  }

  lemma NoteRecords(p: Pool, t: nat)
    requires AllRecordable(p.terminal) && Carried(p.calls)
    ensures AllRecordable(Note(p, t).terminal)
  {
  }

  lemma LoseRecords(p: Pool, t: nat)
    requires AllRecordable(p.terminal)
    ensures AllRecordable(Lose(p, t).terminal)
  {
    LoseNotes(p, t);
  }

  lemma EndRecords(p: Pool, id: nat, expires: bool, lost: bool)
    requires AllNumbered(p.conns) && AllRecordable(p.terminal)
    ensures AllRecordable(EndHandle(p, id, expires, lost).terminal)
  {
    if id in p.open && p.HasConn(id) {
      assert Recordable(SweptRecord(p.ConnState(id), expires, lost));
    }
  }

  lemma OtherKeeps(p: Pool, step: Step, limits: Limits)
    requires Kept(p) && !step.Beginning? && !step.Calling?
    ensures AllRecordable(Next(p, step, limits).terminal) && Next(p, step, limits).calls == p.calls
  {
    if step.EndStep? { EndRecords(p, step.id, step.expires, step.lost); } else { OtherLeaves(p, step, limits); }
  }

  lemma StepKeepsRecords(p: Pool, step: Step, limits: Limits)
    requires Kept(p)
    ensures Kept(Next(p, step, limits))
  {
    StepKeepsNumbered(p, step, limits);
    match step
    case Beginning(begin) =>
      BeginCarries(p, begin, limits);
      BeginKeepsTerminal(p, begin, limits);
    case Calling(call) =>
      CallCarries(p, call);
      CallRecords(p, call);
    case _ => OtherKeeps(p, step, limits);
  }

  lemma EveryRecordIsKept(run: seq<Step>, k: nat, limits: Limits)
    requires k <= |run|
    ensures Kept(After(run, k, limits))
  {
    ghost var inv := p => Kept(p);
    assert inv(START);
    forall p, step | inv(p) ensures inv(Steps(limits)(p, step)) {
      StepKeepsRecords(p, step, limits);
    }
    RunKeeps(run, 0, k, Steps(limits), inv);
  }

  // What that means for every run.

  /** In every interleaving, however the handle ended, its terminal state is true exactly when it is not a rollback that was
      noted after a COMMIT whose outcome nobody could tell, while the client was not yet seen to be closed. */
  lemma NotedStateIsTrueExactlyWhen(run: seq<Step>, k: nat, limits: Limits, id: nat)
    requires k <= |run| && id in After(run, k, limits).terminal
    ensures var record := After(run, k, limits).terminal[id];
            && (IsTrue(record) <==> !Misnoted(record))
            && (Misnoted(record) ==> record.state.RolledBack?)
  {
    EveryRecordIsKept(run, k, limits);
    RecordIsTrueExactlyWhen(After(run, k, limits).terminal[id]);
  }

  /** What a caller is told of a commit or rollback is true in every interleaving: a success means that it was done, a
      failure that nothing was committed, and only of a COMMIT is the outcome ever unknown. */
  lemma AnswersAreTrue(run: seq<Step>, k: nat, limits: Limits, t: nat, fate: Fate)
    requires k <= |run| && After(run, k, limits).At(t).Finishing?
    ensures var p := After(run, k, limits);
            var id, n := p.At(t).id, Finish(p, t, fate);
            && p.HasConn(id) && n.HasConn(id) && n.At(t).Finished? && n.At(t).record.end.Some?
            && var end := n.At(t).record.end.value;
               && end.before == p.ConnState(id) && end.after == n.ConnState(id)
               && AnsweredTruly(end)
  {
    var p := After(run, k, limits);
    EveryRecordIsKept(run, k, limits);
    EveryRunIsValid(run, k, limits);
    FinishIs(p, t, fate, limits);
    RecordIsAnsweredTruly(RecordOf(p.ConnState(p.At(t).id), p.At(t).commits, fate));
  }

  lemma FinishIs(p: Pool, t: nat, fate: Fate, limits: Limits)
    requires Valid(p, limits) && p.At(t).Finishing?
    ensures var call := p.At(t);
            && p.HasConn(call.id)
            && Finish(p, t, fate).At(t) == Finished(call.id, RecordOf(p.ConnState(call.id), call.commits, fate))
            && Finish(p, t, fate).HasConn(call.id)
            && Finish(p, t, fate).ConnState(call.id) == FateOf(p.ConnState(call.id), call.commits, fate)
  {
  }

  // A rollback that was none.

  /** Ann's handle is open, with this work in its block. */
  predicate AnnHas(p: Pool, work: seq<Effect>) {
    && p.At(0).Free? && p.open == map[0 := "ann"] && p.cells == map[0 := 0] && 0 in p.conns
    && p.conns[0] == State(true, [], Open(Some(0), false, false, work, [], {}, work != []))
  }

  lemma AnnChecksOut(limits: Limits) returns (run: seq<Step>, p: Pool)
    requires limits.size == 1
    ensures p.calls == map[0 := Holding("ann", 0)] && p.conns == map[0 := State(true, [], Idle)]
    ensures p.open == map[] && p.cells == map[] && p.nextId == 0 && p == After(run, |run|, limits)
  {
    AfterNothing(limits);
    var q := START.(calls := map[0 := Checked("ann")]);
    assert q == Check(START, 0, "ann", limits.Cap());
    run := Further([], START, Beginning(CheckStep(0, "ann")), limits);
    CheckoutTakes(q, 0, 0, "ann", limits.size);
    p := Checkout(q, 0, 0, limits.size);
    run := Further(run, q, Beginning(CheckoutStep(0, 0)), limits);
  }

  lemma AnnBegins(limits: Limits) returns (run: seq<Step>, p: Pool)
    requires limits.size == 1
    ensures AnnHas(p, []) && p == After(run, |run|, limits)
  {
    var q;
    run, q := AnnChecksOut(limits);
    StartBegins(q, 0);
    var n := StartBlock(q, 0);
    run := Further(run, q, Beginning(StartStep(0)), limits);
    AnnEnters(n);
    p := Insert(n, 0, false);
    run := Further(run, n, Beginning(InsertStep(0, false)), limits);
  }

  lemma AnnEnters(p: Pool)
    requires p.At(0) == Begun("ann", 0, 0) && p.open == map[] && p.cells == map[]
    requires p.conns == map[0 := State(true, [], Open(Some(0), false, false, [], [], {}, false))]
    ensures AnnHas(Insert(p, 0, false), [])
  {
    assert !OpenFor(p, "ann");
    assert Insert(p, 0, false) == p.Now(0, Free).Entered(0, "ann", 0);
  }

  /** What Ann's statement does to her block. */
  lemma WritingWorks()
    ensures var s := State(true, [], Open(Some(0), false, false, [], [], {}, false));
            JobDone(s, 0, Statement([1], true, "", false)) == State(true, [], Open(Some(0), false, false, [1], [], {}, true))
  {
    var s := State(true, [], Open(Some(0), false, false, [], [], {}, false));
    assert Works(s, [1], true);
    SuccessTakesEffect(s, Some(0), [1], true, "");
    assert s.block.work + [1] == [1];
  }

  lemma AnnWrites(p: Pool)
    requires AnnHas(p, [])
    ensures var has := Lookup(p, 0, 0, "ann");
            AnnHas(InCell(has, 0, Statement([1], true, "", false), false, false), [1])
  {
    var has := Lookup(p, 0, 0, "ann");
    assert has == p.Now(0, Has(0));
    InCellIs(has, 0, 0, Statement([1], true, "", false), false, false);
    WritingWorks();
  }

  const UNTOLD := Breaks(AfterEffect, false, false)

  lemma AnnCommits(p: Pool)
    requires AnnHas(p, [1])
    ensures var ending := TakeOut(p, 0, 0, "ann", true);
            var n := Note(Finish(ending, 0, UNTOLD), 0);
            0 in n.terminal && Misnoted(n.terminal[0])
  {
    var ending := TakeOut(p, 0, 0, "ann", true);
    assert ending == p.Removed(0).Now(0, Finishing(0, true));
    assert ending.ConnState(0) == p.conns[0];
    var record := RecordOf(p.conns[0], true, UNTOLD);
    assert Finish(ending, 0, UNTOLD).At(0) == Finished(0, record);
  }

  lemma AnnHasWritten(limits: Limits) returns (run: seq<Step>, p: Pool)
    requires limits.size == 1
    ensures AnnHas(p, [1]) && p == After(run, |run|, limits)
  {
    var q, job;
    run, q := AnnBegins(limits);
    job := Statement([1], true, "", false);
    AnnWrites(q);
    run := Further(run, q, Calling(LookupStep(0, 0, "ann")), limits);
    q := Lookup(q, 0, 0, "ann");
    run := Further(run, q, Calling(InCellStep(0, job, false, false)), limits);
    p := InCell(q, 0, job, false, false);
  }

  /** A run that ends with a handle noted as rolled back, although its work has been committed. */
  lemma CommitCanBeNotedAsRollback() returns (run: seq<Step>)
    ensures var p := After(run, |run|, Limits(1)); 0 in p.terminal && Misnoted(p.terminal[0])
  {
    var limits := Limits(1);
    var p;
    run, p := AnnHasWritten(limits);
    AnnCommits(p);
    run := Further(run, p, Calling(TakeOutStep(0, 0, "ann", true)), limits);
    p := TakeOut(p, 0, 0, "ann", true);
    run := Further(run, p, Calling(FinishStep(0, UNTOLD)), limits);
    p := Finish(p, 0, UNTOLD);
    run := Further(run, p, Calling(NoteStep(0)), limits);
  }
}
