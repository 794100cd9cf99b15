/** How many pooled handles can be open at once. Begin compares the number of open handles with the cap before it waits for a
    connection, and not again when it enters its handle: crates/ownpg-core/src/engine.rs. */
module PooledCap {
  import opened Basics
  import opened Backend
  import opened Guard
  import opened Handles
  import opened Pooled
  import opened PooledSteps
  import opened PooledRuns

  /** A begin is under way: it has passed its check, and its handle is not in the table yet. */
  predicate UnderWay(call: Call) {
    call.Checked? || call.Holding? || call.Begun?
  }

  function Begins(calls: map<nat, Call>): set<nat> {
    set t | t in calls && UnderWay(calls[t])
  }

  /** The handles that are open or may soon be. */
  function Load(p: Pool): nat {
    |p.open| + |Begins(p.calls)|
  }

  lemma OneMore<T>(m: map<nat, T>, k: nat, v: T)
    ensures |m[k := v]| <= |m| + 1
  {
    assert m[k := v].Keys == m.Keys + {k};
    assert |m[k := v].Keys| == |m[k := v]| && |m.Keys| == |m|;
  }

  lemma JustOneMore<T>(m: map<nat, T>, k: nat, v: T)
    requires k !in m
    ensures |m[k := v]| == |m| + 1
  {
    assert m[k := v].Keys == m.Keys + {k};
    assert |m[k := v].Keys| == |m[k := v]| && |m.Keys| == |m|;
  }

  lemma OneFewer<T>(m: map<nat, T>, k: nat)
    ensures |m - {k}| <= |m|
  {
    assert (m - {k}).Keys == m.Keys - {k};
    assert |(m - {k}).Keys| == |m - {k}| && |m.Keys| == |m|;
  }

  function One(b: bool): nat {
    if b then 1 else 0
  }

  lemma BeginsNow(calls: map<nat, Call>, t: nat, call: Call)
    ensures |Begins(calls[t := call])| == |Begins(calls)| - One(t in calls && UnderWay(calls[t])) + One(UnderWay(call))
  {
    var before, after := Begins(calls), Begins(calls[t := call]);
    if UnderWay(call) {
      assert after == before - {t} + {t};
    } else {
      assert after == before - {t};
    }
  }

  /** A call moves without beginning, and the table grows by a begin that ends, or not at all. */
  predicate Bears(p: Pool, n: Pool, t: nat) {
    && (n.calls == p.calls || n.calls == p.calls[t := n.At(t)])
    && (UnderWay(n.At(t)) ==> UnderWay(p.At(t)))
    && |n.open| <= |p.open| + One(UnderWay(p.At(t)) && !UnderWay(n.At(t)))
  }

  lemma BearsLoad(p: Pool, n: Pool, t: nat)
    requires Bears(p, n, t)
    ensures Load(n) <= Load(p)
  {
    BeginsNow(p.calls, t, n.At(t));
  }

  lemma NowBears(p: Pool, n: Pool, t: nat, call: Call)
    requires n.calls == p.calls[t := call] && |n.open| <= |p.open| && (UnderWay(call) ==> UnderWay(p.At(t)))
    ensures Bears(p, n, t)
  {
  }

  lemma RemainsBears(p: Pool, n: Pool, t: nat)
    requires n.calls == p.calls && |n.open| <= |p.open|
    ensures Bears(p, n, t)
  {
  }

  lemma OnlyCallBears(p: Pool, n: Pool, t: nat)
    requires OnlyCall(p, n, t) && (UnderWay(n.At(t)) ==> UnderWay(p.At(t)))
    ensures Bears(p, n, t)
  {
  }

  lemma CheckoutBears(p: Pool, t: nat, conn: nat, limits: Limits)
    ensures Bears(p, Checkout(p, t, conn, limits.size), t)
  {
    var n := Checkout(p, t, conn, limits.size);
    CheckoutMoves(p, t, conn, limits, 0);
    assert UnderWay(n.At(t)) ==> UnderWay(p.At(t));
    OnlyCallBears(p, n, t);
  }

  lemma GiveUpBears(p: Pool, t: nat)
    ensures Bears(p, GiveUp(p, t), t)
  {
    var n := GiveUp(p, t);
    GiveUpMoves(p, t, 0);
    assert UnderWay(n.At(t)) ==> UnderWay(p.At(t));
    OnlyCallBears(p, n, t);
  }

  lemma StartBears(p: Pool, t: nat)
    ensures Bears(p, StartBlock(p, t), t)
  {
    var n := StartBlock(p, t);
    StartMoves(p, t, 0);
    assert UnderWay(n.At(t)) ==> UnderWay(p.At(t));
    OnlyCallBears(p, n, t);
  }

  lemma InsertBears(p: Pool, t: nat, lost: bool)
    ensures Bears(p, Insert(p, t, lost), t)
  {
    if p.At(t).Begun? { OneMore(p.open, p.At(t).id, p.At(t).principal); }
  }

  lemma BeginBears(p: Pool, step: BeginStep, limits: Limits)
    requires !step.CheckStep?
    ensures Bears(p, NextBegin(p, step, limits), step.t)
  {
    match step
    case CheckoutStep(t, conn) => CheckoutBears(p, t, conn, limits);
    case GiveUpStep(t) => GiveUpBears(p, t);
    case StartStep(t) => StartBears(p, t);
    case InsertStep(t, lost) => InsertBears(p, t, lost);
  }

  lemma LookupBears(p: Pool, t: nat, id: nat, principal: string)
    ensures Bears(p, Lookup(p, t, id, principal), t)
  {
    var n := Lookup(p, t, id, principal);
    if n == p { RemainsBears(p, n, t); } else { NowBears(p, n, t, Has(id)); }
  }

  lemma InCellBears(p: Pool, t: nat, job: Job, lost: bool, seen: bool)
    ensures Bears(p, InCell(p, t, job, lost, seen), t)
  {
    var n := InCell(p, t, job, lost, seen);
    InCellCall(p, t, job, lost, seen);
    if n.calls == p.calls { RemainsBears(p, n, t); } else { NowBears(p, n, t, n.At(t)); }
  }

  lemma TakeOutBears(p: Pool, t: nat, id: nat, principal: string, commits: bool)
    ensures Bears(p, TakeOut(p, t, id, principal, commits), t)
  {
    var n := TakeOut(p, t, id, principal, commits);
    OneFewer(p.open, id);
    if n == p { RemainsBears(p, n, t); } else { NowBears(p, n, t, Finishing(id, commits)); }
  }

  lemma FinishBears(p: Pool, t: nat, fate: Fate)
    ensures Bears(p, Finish(p, t, fate), t)
  {
    var n := Finish(p, t, fate);
    if n == p { RemainsBears(p, n, t); } else { NowBears(p, n, t, n.At(t)); }
  }

  lemma NoteBears(p: Pool, t: nat)
    ensures Bears(p, Note(p, t), t)
  {
    var n := Note(p, t);
    if n == p { RemainsBears(p, n, t); } else { NowBears(p, n, t, Free); }
  }

  lemma LoseOpenBears(p: Pool, t: nat)
    requires p.At(t).Losing? && p.At(t).id in p.open
    ensures Bears(p, Lose(p, t), t)
  {
    var id := p.At(t).id;
    OneFewer(p.open, id);
    assert Lose(p, t) == p.Now(t, Free).Removed(id).Over(id).Noted(id, Record(HandleState.Lost, None));
    NowBears(p, Lose(p, t), t, Free);
  }

  lemma LoseBears(p: Pool, t: nat)
    ensures Bears(p, Lose(p, t), t)
  {
    var n, call := Lose(p, t), p.At(t);
    if !call.Losing? {
      RemainsBears(p, n, t);
    } else if call.id in p.open {
      LoseOpenBears(p, t);
    } else {
      assert n == p.Now(t, Free);
      NowBears(p, n, t, Free);
    }
  }

  lemma CallBears(p: Pool, step: CallStep)
    ensures Bears(p, NextCall(p, step), step.t)
  {
    match step
    case LookupStep(t, id, principal) => LookupBears(p, t, id, principal);
    case InCellStep(t, job, lost, seen) => InCellBears(p, t, job, lost, seen);
    case TakeOutStep(t, id, principal, commits) => TakeOutBears(p, t, id, principal, commits);
    case FinishStep(t, fate) => FinishBears(p, t, fate);
    case CancelledStep(t) => CancelledBears(p, t);
    case NoteStep(t) => NoteBears(p, t);
    case LoseStep(t) => LoseBears(p, t);
  }

  lemma CancelledBears(p: Pool, t: nat)
    ensures Bears(p, Cancelled(p, t), t)
  {
    var n := Cancelled(p, t);
    if n == p { RemainsBears(p, n, t); } else { NowBears(p, n, t, Free); }
  }

  lemma EndBears(p: Pool, id: nat, expires: bool, lost: bool)
    ensures Bears(p, EndHandle(p, id, expires, lost), 0)
  {
    OneFewer(p.open, id);
    RemainsBears(p, EndHandle(p, id, expires, lost), 0);
  }

  lemma OtherBears(p: Pool, step: Step, limits: Limits)
    requires !step.Beginning? && !step.Calling?
    ensures Bears(p, Next(p, step, limits), 0)
  {
    if step.EndStep? {
      EndBears(p, step.id, step.expires, step.lost);
    } else {
      OtherLeaves(p, step, limits);
      RemainsBears(p, Next(p, step, limits), 0);
    }
  }

  /** Only a check adds to the load, and it does so below the cap. */
  lemma StepLoad(p: Pool, step: Step, limits: Limits)
    ensures var n := Next(p, step, limits); Load(n) <= Load(p) || (n.open == p.open && |p.open| < limits.Cap())
  {
    var n := Next(p, step, limits);
    match step
    case Beginning(begin) =>
      if !begin.CheckStep? {
        BeginBears(p, begin, limits);
        BearsLoad(p, n, begin.t);
      }
    case Calling(call) =>
      CallBears(p, call);
      BearsLoad(p, n, call.t);
    case _ =>
      OtherBears(p, step, limits);
      BearsLoad(p, n, 0);
  }

  /** Never more than w begins are under way at once in the first k steps. */
  ghost predicate AtOnce(run: seq<Step>, k: nat, limits: Limits, w: nat)
    requires k <= |run|
  {
    forall i: nat :: i <= k ==> |Begins(After(run, i, limits).calls)| <= w
  }

  /** If never more than w begins are under way at once, the cap is exceeded by less than w. */
  lemma {:induction false} OpenWithinCap(run: seq<Step>, k: nat, limits: Limits, w: nat)
    requires k <= |run| && 0 < w && AtOnce(run, k, limits, w)
    ensures |After(run, k, limits).open| <= Load(After(run, k, limits)) < limits.Cap() + w
  {
    if k > 0 {
      OpenWithinCap(run, k - 1, limits, w);
      StepLoad(After(run, k - 1, limits), run[k - 1], limits);
      assert |Begins(After(run, k, limits).calls)| <= w;
    }
  }

  /** Begins that do not overlap keep the cap. */
  lemma SingleBeginsKeepCap(run: seq<Step>, k: nat, limits: Limits)
    requires k <= |run| && AtOnce(run, k, limits, 1)
    ensures |After(run, k, limits).open| <= limits.Cap()
  {
    OpenWithinCap(run, k, limits, 1);
  }

  lemma InsertEnters(p: Pool, t: nat, lost: bool)
    requires p.At(t).Begun? && p.At(t).conn in p.conns
    ensures var call, n := p.At(t), Insert(p, t, lost);
            n.open == if OpenFor(p, call.principal) then p.open else p.open[call.id := call.principal]
    ensures !OpenFor(p, p.At(t).principal) ==>
      Insert(p, t, lost).conns == p.conns && Insert(p, t, lost).calls == p.calls[t := Free]
  {
  }

  lemma InsertGrows(p: Pool, t: nat, lost: bool)
    requires p.At(t).Begun? && p.At(t).conn in p.conns && p.At(t).id !in p.open
    ensures |Insert(p, t, lost).open| == |p.open| + One(!OpenFor(p, p.At(t).principal))
  {
    var call := p.At(t);
    InsertEnters(p, t, lost);
    JustOneMore(p.open, call.id, call.principal);
  }

  lemma BegunIsNew(p: Pool, t: nat, limits: Limits)
    requires Valid(p, limits) && p.At(t).Begun?
    ensures p.At(t).conn in p.conns && p.At(t).id !in p.open
  {
  }

  /** The last part of a begin keeps the cap exactly when its principal has a handle already or there is room: the test that
      is not made again. */
  lemma InsertKeepsCapExactlyWhen(run: seq<Step>, k: nat, limits: Limits, t: nat, lost: bool)
    requires k <= |run|
    requires var p := After(run, k, limits); p.At(t).Begun? && |p.open| <= limits.Cap()
    ensures var p := After(run, k, limits);
            |Insert(p, t, lost).open| <= limits.Cap() <==> OpenFor(p, p.At(t).principal) || |p.open| < limits.Cap()
  {
    var p := After(run, k, limits);
    EveryRunIsValid(run, k, limits);
    BegunIsNew(p, t, limits);
    InsertGrows(p, t, lost);
  }

  // Two begins at once.

  /** A run that goes on. */
  lemma Then(run: seq<Step>, p: Pool, begin: BeginStep, limits: Limits) returns (more: seq<Step>)
    requires p == After(run, |run|, limits)
    ensures NextBegin(p, begin, limits) == After(more, |more|, limits)
  {
    more := Further(run, p, Beginning(begin), limits);
  }

  lemma AfterNothing(limits: Limits)
    ensures After([], 0, limits) == START
  {
  }

  lemma BothCheck(limits: Limits) returns (run: seq<Step>, p: Pool)
    ensures p == START.(calls := map[0 := Checked("ann"), 1 := Checked("bob")]) && p == After(run, |run|, limits)
  {
    AfterNothing(limits);
    var q := START.(calls := map[0 := Checked("ann")]);
    run := Then([], START, CheckStep(0, "ann"), limits);
    assert q == Check(START, 0, "ann", limits.Cap());
    run := Then(run, q, CheckStep(1, "bob"), limits);
    p := START.(calls := map[0 := Checked("ann"), 1 := Checked("bob")]);
    assert p == Check(q, 1, "bob", limits.Cap());
  }

  const NEW_CONNECTION := State(true, [], Idle)

  lemma CheckoutTakes(p: Pool, t: nat, conn: nat, principal: string, size: nat)
    requires p.At(t) == Checked(principal) && conn !in p.owner && conn !in p.conns && |p.conns| < size
    ensures var n := Checkout(p, t, conn, size);
            && n.calls == p.calls[t := Holding(principal, conn)] && n.conns == p.conns[conn := NEW_CONNECTION]
            && n.owner == p.owner[conn := Thread(t)] && n.open == p.open && n.nextId == p.nextId
  {
  }

  lemma BothCheckOut(limits: Limits) returns (run: seq<Step>, p: Pool)
    requires limits.size == 2
    ensures p.calls == map[0 := Holding("ann", 0), 1 := Holding("bob", 1)]
    ensures p.conns == map[0 := NEW_CONNECTION, 1 := NEW_CONNECTION]
    ensures p.open == map[] && p.nextId == 0 && p == After(run, |run|, limits)
  {
    var q;
    run, q := BothCheck(limits);
    CheckoutTakes(q, 0, 0, "ann", limits.size);
    var n := Checkout(q, 0, 0, limits.size);
    run := Then(run, q, CheckoutStep(0, 0), limits);
    assert n.conns.Keys == {0} && |n.conns.Keys| == |n.conns|;
    CheckoutTakes(n, 1, 1, "bob", limits.size);
    p := Checkout(n, 1, 1, limits.size);
    run := Then(run, n, CheckoutStep(1, 1), limits);
  }

  lemma StartBegins(p: Pool, t: nat)
    requires p.At(t).Holding? && p.At(t).conn in p.conns && p.conns[p.At(t).conn].alive
    ensures var call, n := p.At(t), StartBlock(p, t);
            && n.calls == p.calls[t := Begun(call.principal, call.conn, p.nextId)]
            && n.open == p.open && n.nextId == p.nextId + 1
            && n.conns == p.conns[call.conn := Apply(p.conns[call.conn], Begin(Some(p.nextId), false)).0]
  {
    var call := p.At(t);
    var s := Apply(p.conns[call.conn], Begin(Some(p.nextId), false)).0;
    assert StartBlock(p, t) == p.Now(t, Free).Set(call.conn, s).(nextId := p.nextId + 1)
                               .Now(t, Begun(call.principal, call.conn, p.nextId));
    assert p.calls[t := Free][t := Begun(call.principal, call.conn, p.nextId)]
        == p.calls[t := Begun(call.principal, call.conn, p.nextId)];
  }

  predicate BothBegun(p: Pool) {
    p.At(0) == Begun("ann", 0, 0) && p.At(1) == Begun("bob", 1, 1) && p.conns.Keys == {0, 1} && p.open == map[]
  }

  lemma BothStart(limits: Limits) returns (run: seq<Step>, p: Pool)
    requires limits.size == 2
    ensures BothBegun(p) && p == After(run, |run|, limits)
  {
    var q;
    run, q := BothCheckOut(limits);
    StartBegins(q, 0);
    var n := StartBlock(q, 0);
    run := Then(run, q, StartStep(0), limits);
    StartBegins(n, 1);
    p := StartBlock(n, 1);
    run := Then(run, n, StartStep(1), limits);
  }

  lemma BothInsert(p: Pool)
    requires BothBegun(p)
    ensures |Insert(Insert(p, 0, false), 1, false).open| == 2
  {
    InsertEnters(p, 0, false);
    InsertEnters(Insert(p, 0, false), 1, false);
    var open := Insert(Insert(p, 0, false), 1, false).open;
    assert open == map[0 := "ann", 1 := "bob"];
    assert open.Keys == {0, 1} && |open.Keys| == |open|;
  }

  /** Two begins at once fill a pool of two, whose cap is one. */
  lemma CapCanBeExceeded() returns (run: seq<Step>)
    ensures |After(run, |run|, Limits(2)).open| == 2 && Limits(2).Cap() == 1
  {
    var limits := Limits(2);
    var p;
    run, p := BothStart(limits);
    run := Then(run, p, InsertStep(0, false), limits);
    run := Then(run, Insert(p, 0, false), InsertStep(1, false), limits);
    BothInsert(p);
  }
}
