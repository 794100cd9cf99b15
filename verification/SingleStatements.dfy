/** Statements that are run on their own, in a block of their own where settings have to be sent with them:
    crates/ownpg-core/src/engine.rs. */
module SingleStatements {
  import opened Basics
  import opened Backend
  import opened Guard
  import opened Commit

  datatype StatementFault = BySql(fault: Fault) | ByCommit(finish: Finish)

  type StatementOutcome = Result<(), StatementFault>

  /** Opens a block for writing, with the settings that go with it. If they are refused, the block is left, aborted. */
  method BeginBlock(client: Client, owner: Option<nat>, prefixed: bool, answers: Answers) returns (r: Outcome)
    requires client.Sound() && client.Clear()
    modifies client
    ensures client.Sound() && (old(client.refused) ==> client.refused) && client.s.committed == old(client.s.committed)
    ensures client.s.alive ==> old(client.s.alive)
    ensures client.s.alive ==> (r.Ok? <==> old(client.s.block).Idle? && (prefixed ==> answers.settings))
    ensures client.s.alive ==>
      if r.Ok? then client.s.block == Open(owner, false, false, [], [], {}, false) else client.refused && Stuck(client.s.block)
    ensures |client.left| <= 1 && (r.Err? ==> client.Clear()) && (client.s.alive && r.Ok? ==> client.left == [])
  {
    var reply := client.Send(Begin(owner, false));
    if reply == Done && prefixed {
      reply := client.Send(SetLocal(answers.settings));
    }
    r := OutcomeOf(reply);
    if r.Err? && client.s.alive && client.left == [] { client.LeaveAborted(); }
  }

  /** Runs a statement and commits it. It takes effect as a whole or not at all; a success means that it has, and only an
      unknown outcome, or a lost connection where the server commits by itself, leaves open whether it has. A block is
      left, aborted, exactly when one was there before, or the settings or the check are refused. */
  method Autocommit(client: Client, probes: bool, prefixed: bool, outside: bool, effects: seq<Effect>, ok: bool, code: string,
                    answers: Answers) returns (r: StatementOutcome)
    requires client.Sound() && client.Clear()
    modifies client
    ensures client.Sound() && (old(client.refused) ==> client.refused) && client.Clear()
    ensures client.s.alive ==> old(client.s.alive)
    ensures client.s.alive ==>
      (client.s.block.Open? <==>
        old(client.s.block).Open? || (prefixed && !outside && (!answers.settings || (ok && !answers.check))))
    ensures client.s.committed == old(client.s.committed) || client.s.committed == old(client.s.committed) + effects
    ensures r.Ok? ==> ok && client.s.committed == old(client.s.committed) + effects
    ensures r.Err? && client.s.alive ==> client.s.committed == old(client.s.committed)
    ensures r.Err? && prefixed && !outside && r.error != ByCommit(OutcomeUnknown) ==>
      client.s.committed == old(client.s.committed)
    ensures client.s.alive && old(client.s.block).Idle? ==>
      (r.Ok? <==> ok && (prefixed && !outside ==> answers.settings && answers.check && answers.commit))
    ensures client.s.alive && old(client.s.block).Idle? && !ok && (prefixed && !outside ==> answers.settings) ==>
      r == Err(BySql(Sql(code)))
  {
    if !prefixed || outside {
      var reply := client.Send(User(None, effects, ok, code));
      return if reply == Done then Ok(()) else Err(BySql(OutcomeOf(reply).error));
    }
    var begun := BeginBlock(client, None, true, answers);
    if begun.Err? { return Err(BySql(begun.error)); }
    var reply := client.Send(User(None, effects, ok, code));
    assert [] + effects == effects;
    var settled := SettleTransaction(client, probes, reply == Done, answers);
    if client.s.alive && client.s.block.Open? { client.LeaveAborted(); }
    if settled != Finished { return Err(ByCommit(settled)); }
    r := if reply == Done then Ok(()) else Err(BySql(OutcomeOf(reply).error));
  }

  /** Runs a statement and takes it back: nothing is committed. */
  method RunThenRollback(client: Client, prefixed: bool, effects: seq<Effect>, ok: bool, code: string, answers: Answers)
    returns (r: Outcome)
    requires client.Sound() && client.Clear()
    modifies client
    ensures client.Sound() && client.s.committed == old(client.s.committed)
    ensures (old(client.refused) ==> client.refused) && client.Clear()
    ensures client.s.alive ==> old(client.s.alive)
    ensures client.s.alive ==> (client.s.block.Open? <==> old(client.s.block).Open? || (prefixed && !answers.settings))
    ensures client.s.alive && client.s.block.Idle? ==> (r.Ok? <==> ok) && (r.Err? ==> r == Err(Sql(code)))
  {
    r := BeginBlock(client, None, prefixed, answers);
    if r.Err? { return; }
    r := GuardedStatement(client, None, effects, ok, code);
    var reply := client.Send(Backend.Rollback);
    if reply != Done {
      var closed := client.IsClosed();
      if !closed { r := OutcomeOf(reply); }
    }
  }
}
