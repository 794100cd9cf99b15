/** A PostgreSQL backend as one client sees it: its transaction block, savepoints and portals, and what it has committed.
    The client may lose the connection at any statement, before or after the server has run it. */
module Backend {
  import opened Basics

  /** What a statement did to the database, by a number. */
  type Effect = nat

  /** A savepoint, with what a rollback to it restores. */
  datatype Save = Save(name: string, work: seq<Effect>, portals: set<nat>)

  /** A transaction block: the handle it was opened for, if any, its effects so far, its savepoints from the oldest on,
      its open portals, and whether it has a transaction id. */
  datatype Block =
    | Idle
    | Open(owner: Option<nat>, readOnly: bool, failed: bool, work: seq<Effect>, saves: seq<Save>, portals: set<nat>,
           hasId: bool)

  datatype State = State(alive: bool, committed: seq<Effect>, block: Block)

  /** The statements the engine sends; a user's statement is sent for a handle, or for none. What it does, and whether it
      and the statements that can fail on their own succeed, is part of the statement. */
  datatype Command =
    | Begin(owner: Option<nat>, readOnly: bool)
    | SetLocal(ok: bool)
    | Savepoint(name: string)
    | RollbackTo(name: string)
    | Release(name: string)
    | Commit(ok: bool)
    | Rollback
    | Declare(portal: nat, ok: bool, code: string)
    | Fetch(portal: nat, ok: bool, code: string)
    | Close(portal: nat, ok: bool, code: string)
    | User(caller: Option<nat>, effects: seq<Effect>, ok: bool, code: string)
    | Probe(ok: bool, code: string)
    | Ping

  const NO_BLOCK := "25P01"
  const ABORTED := "25P02"
  const UNDEFINED := "34000"

  datatype Reply = Done | Failed(code: string) | Lost

  /** The position of the newest savepoint of this name among the first n. */
  function FindSave(saves: seq<Save>, name: string, n: nat): (r: Option<nat>)
    requires n <= |saves|
    ensures r.Some? ==> r.value < n && saves[r.value].name == name
    ensures r.None? ==> forall i :: 0 <= i < n ==> saves[i].name != name
    ensures r.Some? ==> forall i :: r.value < i < n ==> saves[i].name != name
  {
    if n == 0 then None else if saves[n - 1].name == name then Some(n - 1) else FindSave(saves, name, n - 1)
  }

  /** An error aborts a block, and does nothing outside one. */
  function Abort(block: Block): Block {
    if block.Open? then block.(failed := true) else block
  }

  /** What the server does with a statement, and what it answers. */
  function Apply(s: State, command: Command): (State, Reply) {
    var block := s.block;
    if block.Idle? then ApplyIdle(s, command)
    else if block.failed then ApplyFailed(s, command)
    else ApplyOpen(s, command)
  }

  /** Outside a block a savepoint is an error, and SET LOCAL, COMMIT and ROLLBACK are warnings. */
  function ApplyIdle(s: State, command: Command): (State, Reply) {
    match command
    case Begin(owner, readOnly) => (s.(block := Open(owner, readOnly, false, [], [], {}, false)), Done)
    case SetLocal(_) => (s, Done)
    case Commit(_) => (s, Done)
    case Rollback => (s, Done)
    case Probe(ok, code) => (s, if ok then Done else Failed(code))
    case Ping => (s, Done)
    case User(_, effects, ok, code) => if ok then (s.(committed := s.committed + effects), Done) else (s, Failed(code))
    case _ => (s, Failed(NO_BLOCK))
  }

  /** In an aborted block only a rollback does anything, and COMMIT is one. */
  function ApplyFailed(s: State, command: Command): (State, Reply)
    requires s.block.Open?
  {
    match command
    case RollbackTo(name) => RolledBackTo(s, name)
    case Commit(_) => (s.(block := Idle), Done)
    case Rollback => (s.(block := Idle), Done)
    case Ping => (s, Done)
    case _ => (s, Failed(ABORTED))
  }

  /** Portals opened since the savepoint are closed, those that were open before stay. */
  function RolledBackTo(s: State, name: string): (State, Reply)
    requires s.block.Open?
  {
    var block := s.block;
    var at := FindSave(block.saves, name, |block.saves|);
    if at.None? then (s.(block := Abort(block)), Failed(UNDEFINED))
    else
      var save := block.saves[at.value];
      (s.(block := block.(failed := false, work := save.work, saves := block.saves[..at.value + 1],
                          portals := block.portals * save.portals)), Done)
  }

  function ApplyOpen(s: State, command: Command): (State, Reply)
    requires s.block.Open?
  {
    var block := s.block;
    match command
    case Begin(_, _) => (s, Done)
    case SetLocal(ok) => if ok then (s, Done) else (s.(block := Abort(block)), Failed(UNDEFINED))
    case Savepoint(name) => (s.(block := block.(saves := block.saves + [Save(name, block.work, block.portals)])), Done)
    case RollbackTo(name) => RolledBackTo(s, name)
    case Release(name) =>
      var at := FindSave(block.saves, name, |block.saves|);
      if at.None? then (s.(block := Abort(block)), Failed(UNDEFINED))
      else (s.(block := block.(saves := block.saves[..at.value])), Done)
    case Commit(ok) =>
      if ok then (s.(committed := s.committed + block.work, block := Idle), Done) else (s.(block := Idle), Failed(UNDEFINED))
    case Rollback => (s.(block := Idle), Done)
    case Declare(portal, ok, code) =>
      if ok && portal !in block.portals then (s.(block := block.(portals := block.portals + {portal})), Done)
      else (s.(block := Abort(block)), Failed(code))
    case Fetch(portal, ok, code) =>
      if portal !in block.portals then (s.(block := Abort(block)), Failed(UNDEFINED))
      else if ok then (s, Done) else (s.(block := Abort(block)), Failed(code))
    case Close(portal, ok, code) =>
      if portal !in block.portals then (s.(block := Abort(block)), Failed(UNDEFINED))
      else if ok then (s.(block := block.(portals := block.portals - {portal})), Done)
      else (s.(block := Abort(block)), Failed(code))
    case User(_, effects, ok, code) =>
      var worked := block.(work := block.work + effects, hasId := block.hasId || effects != []);
      if ok && (block.readOnly ==> effects == []) then (s.(block := worked), Done)
      else (s.(block := Abort(if block.readOnly then block else worked)), Failed(code))
    case Probe(ok, code) => if ok then (s, Done) else (s.(block := Abort(block)), Failed(code))
    case Ping => (s, Done)
  }

  /** The block has failed, and only a rollback helps. */
  predicate InAbortedBlock(s: State) {
    s.block.Open? && s.block.failed
  }

  /** The effects that a commit of the current block would make permanent. */
  function Work(s: State): seq<Effect> {
    if s.block.Open? then s.block.work else []
  }

  /** The server refuses a statement that the engine sends of its own accord: the settings after a BEGIN, the check before
      a COMMIT, or the CLOSE of an open portal. That aborts the block. */
  predicate Refusal(s: State, command: Command) {
    s.alive && s.block.Open? && !s.block.failed &&
    match command
    case SetLocal(ok) => !ok
    case Probe(ok, _) => !ok
    case Close(portal, ok, _) => portal in s.block.portals && !ok
    case _ => false
  }

  /** A block that was left aborted: nothing but a rollback helps, and the engine sends none. */
  predicate Stuck(block: Block) {
    block.Open? && block.failed && block.portals == {}
  }

  /** In a block that was left aborted no statement of the engine does anything, and BEGIN does not help either. */
  lemma StuckStays(s: State, command: Command)
    requires Stuck(s.block) && !command.Commit? && !command.Rollback? && !command.RollbackTo?
    ensures Apply(s, command) == (s, if command.Ping? then Done else Failed(ABORTED))
  {
  }

  /** How the server answers what the engine adds to a statement: the settings after a BEGIN, the check before a COMMIT, and
      the COMMIT. */
  datatype Answers = Answers(settings: bool, check: bool, checkCode: string, commit: bool)

  /** A lost connection ends its block. */
  function Dropped(s: State): State {
    s.(alive := false, block := Idle)
  }

  /** What can come of sending a statement. */
  predicate Sent(before: State, command: Command, after: State, reply: Reply) {
    if !before.alive then after == before && reply == Lost
    else
      || (after, reply) == Apply(before, command)
      || (after == Dropped(before) && reply == Lost)
      || (after == Dropped(Apply(before, command).0) && reply == Lost)
  }

  /** A block without a transaction id has done nothing, nor had it at any savepoint. */
  predicate Numbered(s: State) {
    s.block.Open? && !s.block.hasId ==>
      s.block.work == [] && forall i :: 0 <= i < |s.block.saves| ==> s.block.saves[i].work == []
  }

  lemma SendingKeepsNumbered(before: State, command: Command, after: State, reply: Reply)
    requires Numbered(before) && Sent(before, command, after, reply)
    ensures Numbered(after)
  {
  }

  /** A user's statement that was sent into a block that takes statements: the handle it was for, the handle of the block,
      and whether the block is for reading only. */
  datatype Ran = Ran(caller: Option<nat>, owner: Option<nat>, readOnly: bool)

  /** A statement of a handle runs in that handle's block, which is for writing, and any other outside handles' blocks. */
  predicate Proper(ran: Ran) {
    ran.caller == ran.owner && (ran.caller.Some? ==> !ran.readOnly)
  }

  /** What a statement adds to the record; cursors are never opened or fetched for a handle. */
  function Trace(s: State, command: Command): seq<Ran> {
    if !s.alive || s.block.Idle? || s.block.failed then []
    else if command.User? then [Ran(command.caller, s.block.owner, s.block.readOnly)]
    else if command.Declare? || command.Fetch? then [Ran(None, s.block.owner, s.block.readOnly)]
    else []
  }

  class Client {
    var s: State
    ghost var ran: seq<Ran>
    ghost var refused: bool
    ghost var left: seq<State>

    constructor (committed: seq<Effect>)
      ensures s == State(true, committed, Idle) && ran == [] && !refused && left == []
    {
      s, ran, refused, left := State(true, committed, Idle), [], false, [];
    }

    /** No block is open, but for one that was left aborted after a refusal: that happens once at most, and from then on
        nothing has changed on the connection as long as it lives. */
    ghost predicate Clear()
      reads this`s, this`refused, this`left
    {
      && |left| <= 1
      && (s.alive ==> if left == [] then s.block.Idle? else s == left[0] && refused && Stuck(s.block))
    }

    /** The engine takes the connection for free, although an aborted block is open. */
    ghost method LeaveAborted()
      requires s.alive && s.block.Open? && left == [] && refused && Stuck(s.block)
      modifies this`left
      ensures left == old(left) + [s] && Clear()
    {
      left := left + [s];
    }

    /** Every user's statement so far was sent where it should be. */
    ghost predicate Sound()
      reads this`s, this`ran
    {
      Numbered(s) && forall r :: r in ran ==> Proper(r)
    }

    /** A lost connection may take a while to be seen as closed. */
    method IsClosed() returns (closed: bool)
      ensures closed ==> !s.alive
    {
      var seen: bool := *;
      closed := seen && !s.alive;
    }

    method Send(command: Command) returns (reply: Reply)
      modifies this
      ensures Sent(old(s), command, s, reply)
      ensures ran == old(ran) + Trace(old(s), command)
      ensures refused == (old(refused) || Refusal(old(s), command)) && left == old(left)
      ensures old(Sound()) && (forall r :: r in Trace(old(s), command) ==> Proper(r)) ==> Sound()
    {
      ghost var before := s;
      ran, refused, reply := ran + Trace(s, command), refused || Refusal(s, command), Lost;
      if s.alive {
        var reached: bool, answered: bool := *, *;
        var (after, answer) := Apply(s, command);
        if !reached {
          s := Dropped(s);
        } else if answered {
          s, reply := after, answer;
        } else {
          s := Dropped(after);
        }
      }
      if Numbered(before) { SendingKeepsNumbered(before, command, s, reply); }
    }
  }
}
