/** The savepoints of a transaction handle, kept by the engine beside the backend's own: crates/ownpg-core/src/engine.rs. */
module Savepoints {
  import opened Basics
  import opened Backend
  import opened Guard

  datatype HandleFault = NoSuchSavepoint | Server(fault: Fault)

  /** The position of the last savepoint of this name among the first n. */
  function FindName(savepoints: seq<string>, name: string, n: nat): (r: Option<nat>)
    requires n <= |savepoints|
    ensures r.Some? ==> r.value < n && savepoints[r.value] == name
    ensures r.None? ==> name !in savepoints[..n]
  {
    if n == 0 then None else if savepoints[n - 1] == name then Some(n - 1) else FindName(savepoints, name, n - 1)
  }

  /** The engine's list is the backend's stack, shadowed names included. */
  predicate SameStack(savepoints: seq<string>, saves: seq<Save>) {
    |savepoints| == |saves| && forall i :: 0 <= i < |saves| ==> savepoints[i] == saves[i].name
  }

  lemma {:induction false} SameFind(savepoints: seq<string>, saves: seq<Save>, name: string, n: nat)
    requires SameStack(savepoints, saves) && n <= |saves|
    ensures FindName(savepoints, name, n) == FindSave(saves, name, n)
  {
    if n > 0 { SameFind(savepoints, saves, name, n - 1); }
  }

  class WriteHandle {
    const id: nat
    const principal: string
    var savepoints: seq<string>
    var statements: nat

    constructor (id: nat, principal: string)
      ensures this.id == id && this.principal == principal && savepoints == [] && statements == 0
    {
      this.id, this.principal, savepoints, statements := id, principal, [], 0;
    }

    /** The handle's block is open and has the handle's savepoints, as long as there is a connection. */
    predicate InStep(s: State)
      reads this`savepoints
    {
      s.alive ==>
        && s.block.Open? && s.block.owner == Some(id) && !s.block.readOnly && s.block.portals == {}
        && SameStack(savepoints, s.block.saves)
    }

    method MakeSavepoint(client: Client, name: string) returns (r: Outcome)
      requires InStep(client.s) && client.Sound()
      modifies this`savepoints, client
      ensures InStep(client.s) && client.Sound() && client.refused == old(client.refused) && client.left == old(client.left)
      ensures savepoints == if r.Ok? then old(savepoints) + [name] else old(savepoints)
      ensures client.s.committed == old(client.s.committed)
      ensures client.s.alive ==> old(client.s.alive) && (r.Ok? <==> !old(client.s.block).failed)
      ensures client.s.alive && r.Ok? ==> var block := old(client.s.block);
        client.s.block == block.(saves := block.saves + [Save(name, block.work, {})])
      ensures client.s.alive && r.Err? ==> client.s == old(client.s)
    {
      var reply := client.Send(Savepoint(name));
      if reply == Done {
        savepoints := savepoints + [name];
      }
      r := OutcomeOf(reply);
    }

    /** A rollback to a savepoint is sent only if the engine knows the name, and then the backend knows it too: it
        restores what there was at the newest savepoint of that name, and keeps that savepoint. */
    method RollBackTo(client: Client, name: string) returns (r: Result<(), HandleFault>)
      requires InStep(client.s) && client.Sound()
      modifies this`savepoints, client
      ensures InStep(client.s) && client.Sound() && client.refused == old(client.refused) && client.left == old(client.left)
      ensures name !in old(savepoints) ==> r == Err(NoSuchSavepoint) && client.s == old(client.s)
      ensures name in old(savepoints) && client.s.alive ==>
        && r.Ok? && old(client.s.alive)
        && var at := FindName(old(savepoints), name, |old(savepoints)|);
           && at.Some? && savepoints == old(savepoints)[..at.value + 1]
           && client.s.block.saves == old(client.s.block).saves[..at.value + 1]
           && client.s.block.work == old(client.s.block).saves[at.value].work && !client.s.block.failed
      ensures r.Err? ==> savepoints == old(savepoints)
      ensures client.s.committed == old(client.s.committed)
    {
      var at := FindName(savepoints, name, |savepoints|);
      if at.None? { return Err(NoSuchSavepoint); }
      if client.s.alive {
        SameFind(savepoints, client.s.block.saves, name, |savepoints|);
      }
      var reply := client.Send(RollbackTo(name));
      match reply {
        case Done =>
          savepoints := savepoints[..at.value + 1];
          r := Ok(());
        case Failed(code) => r := Err(Server(Sql(code)));
        case Lost => r := Err(Server(ConnectionLost));
      }
    }

    /** Runs a statement in the handle. */
    method Run(client: Client, effects: seq<Effect>, ok: bool, code: string) returns (r: Outcome)
      requires InStep(client.s) && client.Sound()
      modifies this`statements, client
      ensures InStep(client.s) && client.Sound() && client.refused == old(client.refused) && client.left == old(client.left)
      ensures client.s.committed == old(client.s.committed)
      ensures r.Ok? ==> client.s.alive && TookEffect(old(client.s), effects, client.s)
      ensures r.Err? && client.s.alive ==> SameButId(old(client.s), client.s)
      ensures client.s.alive ==> old(client.s.alive) && (r.Ok? <==> ok && !InAbortedBlock(old(client.s)))
      ensures client.s.alive && r.Err? ==> r.error == Sql(if InAbortedBlock(old(client.s)) then ABORTED else code)
      ensures statements == old(statements) + if r.Ok? then 1 else 0
    {
      r := GuardedStatement(client, Some(id), effects, ok, code);
      if r.Ok? { statements := statements + 1; }
    }
  }

  /** What can be asked of an open handle. */
  datatype Action = Mark(name: string) | Return(name: string) | Statement(effects: seq<Effect>, ok: bool, code: string)

  /** Over every sequence of savepoints, rollbacks and statements the engine's list is the backend's stack. */
  method Use(handle: WriteHandle, client: Client, actions: seq<Action>)
    requires handle.InStep(client.s) && client.Sound()
    modifies handle, client
    ensures handle.InStep(client.s) && client.Sound() && client.s.committed == old(client.s.committed)
  {
    for i := 0 to |actions|
      invariant handle.InStep(client.s) && client.Sound() && client.s.committed == old(client.s.committed)
    {
      match actions[i]
      case Mark(name) => var _ := handle.MakeSavepoint(client, name);
      case Return(name) => var _ := handle.RollBackTo(client, name);
      case Statement(effects, ok, code) => var _ := handle.Run(client, effects, ok, code);
    }
  }
}
