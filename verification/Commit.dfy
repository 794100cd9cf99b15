/** What the engine makes of a COMMIT whose connection may drop at any point: crates/ownpg-core/src/engine.rs. */
module Commit {
  import opened Basics
  import opened Backend
  import opened Guard

  datatype CommitResult = Committed | NeverSent | RolledBack | Unknown

  const LOST_COMMIT_CHECKS: nat := 10

  /** The server's answer about a transaction; Other is in progress, or too old to tell. */
  datatype Status = SaysCommitted | SaysAborted | Other | NoAnswer

  /** The server does not lie about a transaction that has ended. */
  method AskStatus(committed: bool) returns (status: Status)
    ensures status == SaysCommitted ==> committed
    ensures status == SaysAborted ==> !committed
  {
    var answered, ended: bool := *, *;
    status := if !answered then NoAnswer else if !ended then Other else if committed then SaysCommitted else SaysAborted;
  }

  /** Asks on a new connection, at most ten times. */
  method LostCommitOutcome(committed: bool) returns (r: CommitResult, asked: nat)
    ensures r == Committed ==> committed
    ensures r == RolledBack ==> !committed
    ensures r != NeverSent && asked <= LOST_COMMIT_CHECKS
  {
    asked := 0;
    var connected: bool := *;
    if !connected { return Unknown, asked; }
    while asked < LOST_COMMIT_CHECKS
      invariant asked <= LOST_COMMIT_CHECKS
    {
      var status := AskStatus(committed);
      asked := asked + 1;
      match status
      case SaysCommitted => return Committed, asked;
      case SaysAborted => return RolledBack, asked;
      case Other =>
      case NoAnswer => break;
    }
    r := Unknown;
  }

  /** Whether the block took effect: all of it, or nothing. */
  predicate Atomic(before: State, after: State) {
    after.committed == before.committed || after.committed == before.committed + Work(before)
  }

  /** Commits after a check that finds the transaction id. A result that names an outcome names the right one, and an
      aborted block is never called committed. A live block is left, and left aborted, exactly when it was aborted before
      or the check is refused. */
  method CommitChecked(client: Client, probes: bool, answers: Answers) returns (r: Result<CommitResult, Fault>, ghost asked: nat)
    requires client.Sound()
    modifies client
    ensures client.Sound() && (old(client.refused) ==> client.refused) && client.left == old(client.left)
    ensures Atomic(old(client.s), client.s) && asked <= LOST_COMMIT_CHECKS
    ensures r == Ok(Committed) ==> client.s.committed == old(client.s.committed) + Work(old(client.s))
    ensures r == Ok(NeverSent) || r == Ok(RolledBack) || r.Err? ==> client.s.committed == old(client.s.committed)
    ensures InAbortedBlock(old(client.s)) ==> r != Ok(Committed)
    ensures !probes ==> r != Ok(RolledBack)
    ensures client.s.alive ==> old(client.s.alive) && (r.Ok? ==> r == Ok(Committed) && client.s.block.Idle?)
    ensures client.s.alive && old(client.s.block).Open? ==>
      if InAbortedBlock(old(client.s)) then r == Err(Sql(ABORTED)) && client.s == old(client.s)
      else if !answers.check then
        r == Err(Sql(answers.checkCode)) && client.refused && client.s == old(client.s).(block := Abort(old(client.s.block)))
      else client.s.block.Idle? && (r == Ok(Committed) <==> answers.commit)
    ensures client.s.alive && old(client.s.block).Idle? ==> client.s.block.Idle?
  {
    asked := 0;
    var before := client.s.committed;
    var reply := client.Send(Probe(answers.check, answers.checkCode));
    if reply == Lost { return Ok(NeverSent), asked; }
    if reply.Failed? { return Err(Sql(reply.code)), asked; }
    var transaction := probes && client.s.block.Open? && client.s.block.hasId;
    reply := client.Send(Backend.Commit(answers.commit));
    match reply {
      case Done => return Ok(Committed), asked;
      case Failed(code) => return Err(Sql(code)), asked;
      case Lost =>
    }
    if !probes { return Ok(Unknown), asked; }
    if !transaction { return Ok(Committed), asked; }
    var result;
    result, asked := LostCommitOutcome(client.s.committed != before);
    r := Ok(result);
  }

  method RollBackQuietly(client: Client)
    requires client.Sound()
    modifies client
    ensures client.Sound() && client.refused == old(client.refused) && client.left == old(client.left)
    ensures client.s.committed == old(client.s.committed)
    ensures client.s.alive ==> old(client.s.alive) && client.s.block.Idle?
  {
    var closed := client.IsClosed();
    if !closed {
      var _ := client.Send(Backend.Rollback);
    }
  }

  /** What the caller of commit or rollback is told. */
  datatype Finish = Finished | NotSent | ServerRolledBack | OutcomeUnknown | Aborted | FailedWith(fault: Fault)

  /** Ends a handle's block. Finished means what was asked for was done; every answer but Finished and OutcomeUnknown means
      that nothing was committed; and on a live connection no block is left open. */
  method FinishBlock(client: Client, probes: bool, commits: bool, answers: Answers) returns (r: Finish)
    requires client.Sound()
    modifies client
    ensures client.Sound() && (old(client.refused) ==> client.refused) && client.left == old(client.left)
    ensures Atomic(old(client.s), client.s)
    ensures r == Finished && commits ==> client.s.committed == old(client.s.committed) + Work(old(client.s))
    ensures !commits || (r != Finished && r != OutcomeUnknown) ==> client.s.committed == old(client.s.committed)
    ensures InAbortedBlock(old(client.s)) && commits ==> r != Finished
    ensures client.s.alive ==> old(client.s.alive) && client.s.block.Idle? && r != OutcomeUnknown
    ensures client.s.alive && !commits ==> r == Finished
    ensures client.s.alive && commits && old(client.s.block).Open? ==>
      (r == Finished <==> !InAbortedBlock(old(client.s)) && answers.check && answers.commit)
  {
    if !commits {
      var reply := client.Send(Backend.Rollback);
      return if reply == Done then Finished else FailedWith(OutcomeOf(reply).error);
    }
    var result, _ := CommitChecked(client, probes, answers);
    match result
    case Ok(Committed) => r := Finished;
    case Ok(NeverSent) => r := NotSent;
    case Ok(RolledBack) => r := ServerRolledBack;
    case Ok(Unknown) => r := OutcomeUnknown;
    case Err(fault) =>
      RollBackQuietly(client);
      r := if fault == Sql(ABORTED) then Aborted else FailedWith(fault);
  }

  /** Ends the block around a single statement, committing only if the statement succeeded. Nobody rolls back after a
      refused check: a live block is left, aborted, exactly when it was aborted before or the check is refused. */
  method SettleTransaction(client: Client, probes: bool, commits: bool, answers: Answers) returns (r: Finish)
    requires client.Sound()
    modifies client
    ensures client.Sound() && (old(client.refused) ==> client.refused) && client.left == old(client.left)
    ensures Atomic(old(client.s), client.s)
    ensures commits && r == Finished ==> client.s.committed == old(client.s.committed) + Work(old(client.s))
    ensures !commits || (r != Finished && r != OutcomeUnknown) ==> client.s.committed == old(client.s.committed)
    ensures !commits ==> r == Finished
    ensures client.s.alive ==> old(client.s.alive) && r != OutcomeUnknown
    ensures client.s.alive ==>
      (client.s.block.Open? <==> commits && old(client.s.block).Open? && (InAbortedBlock(old(client.s)) || !answers.check))
    ensures client.s.alive && client.s.block.Open? ==> client.s.block == Abort(old(client.s.block))
    ensures client.s.alive && client.s.block.Open? && !InAbortedBlock(old(client.s)) ==> client.refused
    ensures client.s.alive && commits && old(client.s.block).Open? ==>
      (r == Finished <==> !InAbortedBlock(old(client.s)) && answers.check && answers.commit)
  {
    if !commits {
      RollBackQuietly(client);
      return Finished;
    }
    var result, _ := CommitChecked(client, probes, answers);
    match result
    case Ok(Committed) => r := Finished;
    case Ok(NeverSent) => r := NotSent;
    case Ok(RolledBack) => r := ServerRolledBack;
    case Ok(Unknown) => r := OutcomeUnknown;
    case Err(fault) => r := FailedWith(fault);
  }
}
