/** Statements run under a savepoint, and the savepoints of a transaction handle: crates/ownpg-core/src/engine.rs. */
module Guard {
  import opened Basics
  import opened Backend

  datatype Fault = Sql(code: string) | ConnectionLost

  type Outcome = Result<(), Fault>

  const SAVEPOINT_NAME := "ownpg_call"

  function OutcomeOf(reply: Reply): Outcome {
    match reply
    case Done => Ok(())
    case Failed(code) => Err(Sql(code))
    case Lost => Err(ConnectionLost)
  }

  /** The same state, but for a transaction id that may have been given out. */
  predicate SameButId(a: State, b: State) {
    || a == b
    || (a.block.Open? && b == a.(block := a.block.(hasId := true)))
  }

  function Saved(s: State): State
    requires s.block.Open?
  {
    s.(block := s.block.(saves := s.block.saves + [Save(SAVEPOINT_NAME, s.block.work, s.block.portals)]))
  }

  /** Whatever has been done since the savepoint, rolling back to it and releasing it restores the block, but for portals
      closed since then. */
  lemma RollbackRestores(before: State, after: State)
    requires before.block.Open? && !before.block.failed && after.block.Open?
    requires after == Saved(before).(block := after.block) && after.block.saves == Saved(before).block.saves
    requires after.block.readOnly == before.block.readOnly && after.block.owner == before.block.owner
    ensures var (rolled, one) := Apply(after, RollbackTo(SAVEPOINT_NAME));
            var (released, two) := Apply(rolled, Release(SAVEPOINT_NAME));
            && one == Done && two == Done
            && released == before.(block := before.block.(portals := after.block.portals * before.block.portals,
                                                          hasId := after.block.hasId))
  {
    var saves := after.block.saves;
    var n := |before.block.saves|;
    assert FindSave(saves, SAVEPOINT_NAME, |saves|) == Some(n);
    assert saves[..n + 1] == saves;
    assert saves[..n] == before.block.saves;
  }

  /** Undoes what was done since the savepoint, and drops it. */
  method RollbackSavepoint(client: Client)
    requires client.Sound()
    modifies client
    ensures client.Sound()
    ensures client.ran == old(client.ran) && client.s.committed == old(client.s.committed)
    ensures client.refused == old(client.refused) && client.left == old(client.left)
    ensures client.s.alive ==> old(client.s.alive) && client.s == Undone(old(client.s))
  {
    var reply := client.Send(RollbackTo(SAVEPOINT_NAME));
    if reply == Done {
      var _ := client.Send(Release(SAVEPOINT_NAME));
    }
  }

  /** The effect of the two statements. */
  function Undone(s: State): State {
    var (rolled, one) := Apply(s, RollbackTo(SAVEPOINT_NAME));
    if one == Done then Apply(rolled, Release(SAVEPOINT_NAME)).0 else rolled
  }

  /** A user's statement in the block: it has run as it should. */
  predicate TookEffect(before: State, effects: seq<Effect>, after: State) {
    && before.block.Open? && !before.block.failed && (before.block.readOnly ==> effects == [])
    && after == before.(block := before.block.(work := before.block.work + effects,
                                               hasId := before.block.hasId || effects != []))
  }

  /** The block, if one is open, is the caller's. */
  predicate For(s: State, caller: Option<nat>) {
    s.alive && s.block.Open? ==> s.block.owner == caller && (caller.Some? ==> !s.block.readOnly)
  }

  /** What a statement and the end of its savepoint come to. */
  function Settled(saved: State, caller: Option<nat>, effects: seq<Effect>, ok: bool, code: string): State {
    var (worked, two) := Apply(saved, User(caller, effects, ok, code));
    if two == Done then Apply(worked, Release(SAVEPOINT_NAME)).0 else Undone(worked)
  }

  /** What the statements of a guarded call come to if the connection stays. */
  function GuardedState(s: State, caller: Option<nat>, effects: seq<Effect>, ok: bool, code: string): State {
    var (saved, one) := Apply(s, Savepoint(SAVEPOINT_NAME));
    if one != Done then saved else Settled(saved, caller, effects, ok, code)
  }

  /** A user's statement that the server takes and that succeeds. */
  predicate Works(s: State, effects: seq<Effect>, ok: bool) {
    s.block.Open? && !s.block.failed && ok && (s.block.readOnly ==> effects == [])
  }

  lemma SuccessTakesEffect(s: State, caller: Option<nat>, effects: seq<Effect>, ok: bool, code: string)
    requires Works(s, effects, ok)
    ensures TookEffect(s, effects, GuardedState(s, caller, effects, ok, code))
  {
    var worked := Apply(Saved(s), User(caller, effects, ok, code)).0;
    assert FindSave(worked.block.saves, SAVEPOINT_NAME, |worked.block.saves|) == Some(|s.block.saves|);
    assert worked.block.saves[..|s.block.saves|] == s.block.saves;
  }

  lemma FailureChangesNothing(s: State, caller: Option<nat>, effects: seq<Effect>, ok: bool, code: string)
    requires !Works(s, effects, ok)
    ensures SameButId(s, GuardedState(s, caller, effects, ok, code))
    ensures s.block.Idle? || s.block.failed ==> GuardedState(s, caller, effects, ok, code) == s
  {
    if s.block.Open? && !s.block.failed {
      RollbackRestores(s, Apply(Saved(s), User(caller, effects, ok, code)).0);
      assert s.block.portals * s.block.portals == s.block.portals;
    }
  }

  /** What the caller of a guarded statement is told if the connection stays. */
  predicate GuardedAnswer(s: State, effects: seq<Effect>, ok: bool, code: string, r: Outcome) {
    if s.block.Idle? then r == Err(Sql(NO_BLOCK))
    else if s.block.failed then r == Err(Sql(ABORTED))
    else (r.Ok? <==> Works(s, effects, ok)) && (r.Err? ==> r == Err(Sql(code)))
  }

  /** Runs a user's statement under a savepoint. Outside a block, and in an aborted one, it does not run at all; if it
      fails, the block is as it was before, its savepoints too. */
  method GuardedStatement(client: Client, caller: Option<nat>, effects: seq<Effect>, ok: bool, code: string) returns (r: Outcome)
    requires For(client.s, caller) && client.Sound()
    modifies client
    ensures client.Sound() && client.refused == old(client.refused) && client.left == old(client.left)
    ensures client.s.committed == old(client.s.committed)
    ensures client.s.alive ==> client.s == GuardedState(old(client.s), caller, effects, ok, code)
    ensures client.s.alive ==> old(client.s.alive) && GuardedAnswer(old(client.s), effects, ok, code, r)
    ensures r.Ok? ==> client.s.alive && ok && TookEffect(old(client.s), effects, client.s)
    ensures r.Err? && client.s.alive ==> SameButId(old(client.s), client.s)
    ensures client.s.alive && !(old(client.s.block).Open? && !old(client.s.block).failed) ==> client.s == old(client.s)
  {
    ghost var before := client.s;
    r := SendGuarded(client, caller, effects, ok, code);
    if client.s.alive {
      if Works(before, effects, ok) {
        SuccessTakesEffect(before, caller, effects, ok, code);
      } else {
        FailureChangesNothing(before, caller, effects, ok, code);
      }
    }
  }

  /** Sends what a guarded statement takes. */
  method SendGuarded(client: Client, caller: Option<nat>, effects: seq<Effect>, ok: bool, code: string) returns (r: Outcome)
    requires For(client.s, caller) && client.Sound()
    modifies client
    ensures client.Sound() && client.refused == old(client.refused) && client.left == old(client.left)
    ensures client.s.committed == old(client.s.committed)
    ensures client.s.alive ==> client.s == GuardedState(old(client.s), caller, effects, ok, code)
    ensures client.s.alive ==> old(client.s.alive) && GuardedAnswer(old(client.s), effects, ok, code, r)
    ensures r.Ok? ==> client.s.alive
  {
    var reply := client.Send(Savepoint(SAVEPOINT_NAME));
    if reply != Done { return OutcomeOf(reply); }
    r := SendSaved(client, caller, effects, ok, code);
  }

  /** Sends the statement after its savepoint, and releases that or goes back to it. */
  method SendSaved(client: Client, caller: Option<nat>, effects: seq<Effect>, ok: bool, code: string) returns (r: Outcome)
    requires For(client.s, caller) && client.Sound()
    requires client.s.alive ==> client.s.block.Open? && !client.s.block.failed && client.s.block.saves != []
    requires client.s.alive ==> client.s.block.saves[|client.s.block.saves| - 1].name == SAVEPOINT_NAME
    modifies client
    ensures client.Sound() && client.refused == old(client.refused) && client.left == old(client.left)
    ensures client.s.committed == old(client.s.committed)
    ensures client.s.alive ==>
      && old(client.s.alive) && client.s == Settled(old(client.s), caller, effects, ok, code)
      && (r.Ok? <==> Works(old(client.s), effects, ok)) && (r.Err? ==> r == Err(Sql(code)))
    ensures r.Ok? ==> client.s.alive
  {
    var reply := client.Send(User(caller, effects, ok, code));
    r := OutcomeOf(reply);
    if reply == Done {
      reply := client.Send(Release(SAVEPOINT_NAME));
      r := OutcomeOf(reply);
    } else {
      RollbackSavepoint(client);
    }
  }
}
