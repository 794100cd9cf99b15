/** The counters of lost audit entries under concurrent calls: crates/ownpg-core/src/audit.rs. The log is behind one lock;
    the counters are atomics, which a failing call changes outside it. */
module LossAccounting {
  import opened Basics

  datatype Task = Recording | Admitting

  /** Where a thread stands. From Holding to Writing it holds the lock. */
  datatype Pc =
    | Idle
    | Wanting(task: Task)
    | Holding(task: Task)                    // keep_current, then close_gap reads the flag
    | Loading(task: Task)                    // close_gap reads the count
    | Marking(task: Task, lost: nat)         // close_gap writes the gap marker
    | Subtracting(task: Task, lost: nat)
    | Clearing(task: Task)
    | Writing
    | Dropping                               // note_failure, once the lock is free
    | Adding
    | Flagging

  predicate InLock(pc: Pc) {
    pc.Holding? || pc.Loading? || pc.Marking? || pc.Subtracting? || pc.Clearing? || pc.Writing?
  }

  /** From close_gap's reading of the count to its clearing of the flag. */
  predicate InGap(pc: Pc) {
    pc.Marking? || pc.Subtracting? || pc.Clearing?
  }

  /** The counters; reported is the sum over the gap markers written, and noted the number of additions to unreported. */
  datatype Counters = Counters(dropped: nat, unreported: nat, degraded: bool, reported: nat, noted: nat)

  /** The thread that holds the lock, the threads that do not, and the counters; overlapped says whether a failure was
      being noted, from its addition to its flag, while a gap was being closed. */
  datatype State = State(holder: Option<nat>, inside: Pc, outside: map<nat, Pc>, counters: Counters, overlapped: bool)

  const START := State(None, Idle, map[], Counters(0, 0, false, 0, 0), false)

  /** A thread's turn: the task it takes up if it is idle, and whether the file system lets it succeed. */
  datatype Turn = Turn(thread: nat, task: Task, ok: bool)

  /** fetch_sub on a 64-bit counter. */
  function Subtracted(count: nat, lost: nat): nat {
    if lost <= count then count - lost else (count - lost) % 0x1_0000_0000_0000_0000
  }

  /** Where the holder of the lock goes next, with Idle and Dropping outside the lock, and what it does to the counters. */
  function Inside(pc: Pc, ok: bool, c: Counters): (Pc, Counters) {
    match pc
    case Holding(task) =>
      (if !ok then Failed(task) else if c.degraded then Loading(task) else Done(task), c)
    case Loading(task) => (Marking(task, c.unreported), c)
    case Marking(task, lost) =>
      if ok then (Subtracting(task, lost), c.(reported := c.reported + lost)) else (Failed(task), c)
    case Subtracting(task, lost) => (Clearing(task), c.(unreported := Subtracted(c.unreported, lost)))
    case Clearing(task) => (Done(task), c.(degraded := false))
    case Writing => (if ok then Idle else Dropping, c)
    case _ => (pc, c)
  }

  /** Only a record that fails is a loss. */
  function Failed(task: Task): Pc {
    if task.Recording? then Dropping else Idle
  }

  function Done(task: Task): Pc {
    if task.Recording? then Writing else Idle
  }

  function Outside(pc: Pc, task: Task, c: Counters): (Pc, Counters) {
    match pc
    case Idle => (if task.Admitting? && !c.degraded then Idle else Wanting(task), c)
    case Dropping => (Adding, c.(dropped := c.dropped + 1))
    case Adding => (Flagging, c.(unreported := c.unreported + 1, noted := c.noted + 1))
    case Flagging => (Idle, c.(degraded := true))
    case _ => (pc, c)
  }

  function PcOf(s: State, thread: nat): Pc {
    if s.holder == Some(thread) then s.inside else if thread in s.outside then s.outside[thread] else Idle
  }

  function Flaggers(outside: map<nat, Pc>): set<nat> {
    set t | t in outside && outside[t].Flagging?
  }

  function Adders(outside: map<nat, Pc>): set<nat> {
    set t | t in outside && outside[t].Adding?
  }

  ghost predicate WellFormed(s: State) {
    && (s.holder.Some? <==> InLock(s.inside))
    && (forall t :: t in s.outside ==> !InLock(s.outside[t]) && s.holder != Some(t))
  }

  /** A turn of the thread that holds the lock. */
  function TurnInside(s: State, t: nat, turn: Turn): State {
    var (pc, counters) := Inside(s.inside, turn.ok, s.counters);
    var overlapped := s.overlapped || (s.inside.Loading? && Flaggers(s.outside) != {});
    if InLock(pc) then State(s.holder, pc, s.outside, counters, overlapped)
    else State(None, Idle, s.outside[t := pc], counters, overlapped)
  }

  function TakeLock(s: State, t: nat, task: Task): State {
    if s.holder.Some? then s else State(Some(t), Holding(task), s.outside - {t}, s.counters, s.overlapped)
  }

  function TurnOutside(s: State, t: nat, turn: Turn): State {
    var pc := PcOf(s, t);
    var (next, counters) := Outside(pc, turn.task, s.counters);
    var overlapped := s.overlapped || (InGap(s.inside) && (pc.Adding? || pc.Flagging?));
    State(s.holder, s.inside, s.outside[t := next], counters, overlapped)
  }

  function Next(s: State, turn: Turn): State {
    var t := turn.thread;
    if s.holder == Some(t) then TurnInside(s, t, turn)
    else if PcOf(s, t).Wanting? then TakeLock(s, t, PcOf(s, t).task)
    else TurnOutside(s, t, turn)
  }

  /** The state after the first k turns of a run. */
  function After(run: seq<Turn>, k: nat): State
    requires k <= |run|
  {
    if k == 0 then START else Next(After(run, k - 1), run[k - 1])
  }

  /** What the holder has reported in a marker but not yet subtracted. */
  function InFlight(pc: Pc): nat {
    if pc.Subtracting? then pc.lost else 0
  }

  predicate Balanced(c: Counters, inside: Pc) {
    && c.noted + InFlight(inside) == c.reported + c.unreported
    && (inside.Marking? || inside.Subtracting? ==> inside.lost <= c.unreported)
  }

  ghost predicate Accounted(s: State) {
    Balanced(s.counters, s.inside) && s.counters.dropped == s.counters.noted + |Adders(s.outside)|
  }

  lemma AddersMove(outside: map<nat, Pc>, t: nat, pc: Pc)
    ensures Adders(outside[t := pc]) == if pc.Adding? then Adders(outside) + {t} else Adders(outside) - {t}
    ensures Adders(outside - {t}) == Adders(outside) - {t}
    ensures |Adders(outside[t := pc])| ==
            |Adders(outside)| + (if pc.Adding? then 1 else 0) - if t in outside && outside[t].Adding? then 1 else 0
  {
    if t in Adders(outside) {
      assert Adders(outside) == Adders(outside) - {t} + {t};
    } else {
      assert Adders(outside) - {t} == Adders(outside);
    }
  }

  lemma FlaggersMove(outside: map<nat, Pc>, t: nat, pc: Pc)
    ensures Flaggers(outside[t := pc]) == if pc.Flagging? then Flaggers(outside) + {t} else Flaggers(outside) - {t}
    ensures Flaggers(outside - {t}) == Flaggers(outside) - {t}
    ensures t in Flaggers(outside) <==> t in outside && outside[t].Flagging?
    ensures |Flaggers(outside[t := pc])| ==
            |Flaggers(outside)| + (if pc.Flagging? then 1 else 0) - if t in outside && outside[t].Flagging? then 1 else 0
  {
    if t in Flaggers(outside) {
      assert Flaggers(outside) == Flaggers(outside) - {t} + {t};
    } else {
      assert Flaggers(outside) - {t} == Flaggers(outside);
    }
  }

  lemma InsideKeepsBalance(pc: Pc, ok: bool, c: Counters)
    requires InLock(pc) && Balanced(c, pc)
    ensures var (next, counters) := Inside(pc, ok, c);
            Balanced(counters, next) && counters.dropped == c.dropped && counters.noted == c.noted && !next.Adding?
  {
  }

  lemma InsideKeepsAccounts(s: State, t: nat, turn: Turn)
    requires WellFormed(s) && Accounted(s) && s.holder == Some(t)
    ensures WellFormed(TurnInside(s, t, turn)) && Accounted(TurnInside(s, t, turn))
  {
    InsideKeepsBalance(s.inside, turn.ok, s.counters);
    AddersMove(s.outside, t, Inside(s.inside, turn.ok, s.counters).0);
  }

  lemma LockKeepsAccounts(s: State, t: nat, task: Task)
    requires WellFormed(s) && Accounted(s) && s.holder != Some(t) && PcOf(s, t).Wanting?
    ensures WellFormed(TakeLock(s, t, task)) && Accounted(TakeLock(s, t, task))
  {
    AddersMove(s.outside, t, Idle);
  }

  lemma OutsideCounts(pc: Pc, task: Task, c: Counters)
    requires !InLock(pc)
    ensures var (next, counters) := Outside(pc, task, c);
            && !InLock(next)
            && counters.dropped == c.dropped + (if pc.Dropping? then 1 else 0)
            && counters.noted == c.noted + (if pc.Adding? then 1 else 0)
            && counters.unreported == c.unreported + (if pc.Adding? then 1 else 0)
            && counters.reported == c.reported
            && counters.degraded == (c.degraded || pc.Flagging?)
            && (next.Adding? <==> pc.Dropping?) && (next.Flagging? <==> pc.Adding?)
  {
  }

  lemma OutsideKeepsAccounts(s: State, t: nat, turn: Turn)
    requires WellFormed(s) && Accounted(s) && s.holder != Some(t)
    ensures WellFormed(TurnOutside(s, t, turn)) && Accounted(TurnOutside(s, t, turn))
  {
    var pc := PcOf(s, t);
    assert !InLock(pc);
    OutsideCounts(pc, turn.task, s.counters);
    AddersMove(s.outside, t, Outside(pc, turn.task, s.counters).0);
  }

  lemma TurnKeepsAccounts(s: State, turn: Turn)
    requires WellFormed(s) && Accounted(s)
    ensures WellFormed(Next(s, turn)) && Accounted(Next(s, turn))
  {
    var t := turn.thread;
    if s.holder == Some(t) {
      InsideKeepsAccounts(s, t, turn);
    } else if PcOf(s, t).Wanting? {
      LockKeepsAccounts(s, t, PcOf(s, t).task);
    } else {
      OutsideKeepsAccounts(s, t, turn);
    }
  }

  lemma StartIsAccounted()
    ensures WellFormed(START) && Accounted(START)
  {
    assert Adders(START.outside) == {};
  }

  /** In every interleaving the failures noted are those reported in gap markers and those still unreported, less what a
      thread has just reported and not yet subtracted; and the subtraction never wraps around. */
  lemma {:induction false} LossesAreAccounted(run: seq<Turn>, k: nat)
    requires k <= |run|
    ensures WellFormed(After(run, k)) && Accounted(After(run, k))
  {
    if k == 0 {
      StartIsAccounted();
    } else {
      LossesAreAccounted(run, k - 1);
      TurnKeepsAccounts(After(run, k - 1), run[k - 1]);
    }
  }

  /** No gap is being closed and no failure is being noted. */
  predicate Quiet(s: State) {
    !InGap(s.inside) && Adders(s.outside) == {} && Flaggers(s.outside) == {}
  }

  /** When no call is counting, every failed record is in a gap marker or still unreported. */
  lemma QuietLosses(run: seq<Turn>)
    requires Quiet(After(run, |run|))
    ensures var c := After(run, |run|).counters;
            c.dropped == c.reported + c.unreported
  {
    LossesAreAccounted(run, |run|);
  }

  // The degraded flag.

  /** While no failure was noted across the closing of a gap: the flag is set exactly when there are losses to report,
      except for losses whose threads are about to set it. */
  predicate FlagIs(inside: Pc, c: Counters, flaggers: nat) {
    && (inside.Loading? ==> c.degraded)
    && if InGap(inside) then
         && flaggers == 0 && c.degraded
         && (if inside.Clearing? then c.unreported == 0 else inside.lost == c.unreported > 0)
       else
         if c.degraded then c.unreported > 0 && flaggers <= c.unreported else c.unreported == flaggers
  }

  ghost predicate FlagSays(s: State) {
    FlagIs(s.inside, s.counters, |Flaggers(s.outside)|)
  }

  /** The holder of the lock leaves it for Idle or Dropping, so nobody starts or stops setting the flag. */
  lemma InsideKeepsFlagIs(pc: Pc, ok: bool, c: Counters, flaggers: nat)
    requires InLock(pc) && FlagIs(pc, c, flaggers) && (pc.Loading? ==> flaggers == 0)
    ensures var (next, counters) := Inside(pc, ok, c);
            !next.Flagging? && FlagIs(if InLock(next) then next else Idle, counters, flaggers)
  {
  }

  lemma InsideKeepsFlag(s: State, t: nat, turn: Turn)
    requires WellFormed(s) && FlagSays(s) && s.holder == Some(t) && !TurnInside(s, t, turn).overlapped
    ensures FlagSays(TurnInside(s, t, turn))
  {
    InsideKeepsFlagIs(s.inside, turn.ok, s.counters, |Flaggers(s.outside)|);
    FlaggersMove(s.outside, t, Inside(s.inside, turn.ok, s.counters).0);
  }

  lemma OutsideKeepsFlag(s: State, t: nat, turn: Turn)
    requires WellFormed(s) && FlagSays(s) && s.holder != Some(t) && !TurnOutside(s, t, turn).overlapped
    ensures FlagSays(TurnOutside(s, t, turn))
  {
    OutsideCounts(PcOf(s, t), turn.task, s.counters);
    FlaggersMove(s.outside, t, Outside(PcOf(s, t), turn.task, s.counters).0);
  }

  lemma TurnKeepsFlag(s: State, turn: Turn)
    requires WellFormed(s) && FlagSays(s) && !Next(s, turn).overlapped
    ensures FlagSays(Next(s, turn))
  {
    var t := turn.thread;
    if s.holder == Some(t) {
      InsideKeepsFlag(s, t, turn);
    } else if PcOf(s, t).Wanting? {
      FlaggersMove(s.outside, t, Idle);
    } else {
      OutsideKeepsFlag(s, t, turn);
    }
  }

  lemma {:induction false} FlagFollowsLosses(run: seq<Turn>, k: nat)
    requires k <= |run| && !After(run, k).overlapped
    ensures FlagSays(After(run, k))
  {
    if k > 0 {
      FlagFollowsLosses(run, k - 1);
      LossesAreAccounted(run, k - 1);
      TurnKeepsFlag(After(run, k - 1), run[k - 1]);
    }
  }

  /** If no failure is noted across the closing of a gap, as in every sequential run, the log counts as degraded exactly
      when there are unreported losses. */
  lemma DegradedUnlessOverlapped(run: seq<Turn>)
    requires Quiet(After(run, |run|)) && !After(run, |run|).overlapped
    ensures var c := After(run, |run|).counters;
            c.degraded <==> c.unreported > 0
  {
    FlagFollowsLosses(run, |run|);
  }

  // Which turns the flag and the count go back to.

  /** Where the thread stood that takes the turn at i. */
  function Standing(run: seq<Turn>, i: nat): Pc
    requires i < |run|
  {
    PcOf(After(run, i), run[i].thread)
  }

  /** The turn notes a loss in the count. */
  predicate CountsLoss(run: seq<Turn>, i: nat) {
    i < |run| && Standing(run, i).Adding?
  }

  /** The turn sets the flag. */
  predicate RaisesFlag(run: seq<Turn>, i: nat) {
    i < |run| && Standing(run, i).Flagging?
  }

  /** Since when nobody has read the count in order to report it. */
  function SinceLoad(run: seq<Turn>, k: nat): (r: nat)
    requires k <= |run|
    ensures r <= k
  {
    if k == 0 then 0 else if Standing(run, k - 1).Loading? then k else SinceLoad(run, k - 1)
  }

  /** Since when the last gap to be closed had read the count. */
  function SinceClosing(run: seq<Turn>, k: nat): (r: nat)
    requires k <= |run|
    ensures r <= k
  {
    if k == 0 then 0 else if Standing(run, k - 1).Subtracting? then SinceLoad(run, k - 1) else SinceClosing(run, k - 1)
  }

  /** Since when the flag has not been cleared. */
  function SinceClearing(run: seq<Turn>, k: nat): (r: nat)
    requires k <= |run|
    ensures r <= k
  {
    if k == 0 then 0 else if Standing(run, k - 1).Clearing? then k else SinceClearing(run, k - 1)
  }

  ghost predicate AddedSince(run: seq<Turn>, from: nat, k: nat) {
    exists i :: from <= i < k && CountsLoss(run, i)
  }

  ghost predicate RaisedSince(run: seq<Turn>, from: nat, k: nat) {
    exists i :: from <= i < k && RaisesFlag(run, i)
  }

  /** The flag says whether it was raised, and the count whether losses were added since the last closed gap had read it,
      and since it was last read at all. */
  predicate SaysSo(s: State, raised: bool, added: bool, addedSinceLoad: bool) {
    && (s.counters.degraded <==> raised)
    && (s.counters.unreported > 0 <==> added)
    && (s.inside.Marking? || s.inside.Subtracting? ==> (s.counters.unreported > s.inside.lost <==> addedSinceLoad))
  }

  /** The count and the flag go back to these turns. */
  ghost predicate GoesBack(run: seq<Turn>, k: nat)
    requires k <= |run|
  {
    SaysSo(After(run, k), RaisedSince(run, SinceClearing(run, k), k), AddedSince(run, SinceClosing(run, k), k),
           AddedSince(run, SinceLoad(run, k), k))
  }

  lemma AddedOnce(run: seq<Turn>, from: nat, k: nat)
    requires from <= k
    ensures AddedSince(run, from, k + 1) <==> AddedSince(run, from, k) || CountsLoss(run, k)
    ensures !AddedSince(run, k, k)
  {
  }

  lemma RaisedOnce(run: seq<Turn>, from: nat, k: nat)
    requires from <= k
    ensures RaisedSince(run, from, k + 1) <==> RaisedSince(run, from, k) || RaisesFlag(run, k)
    ensures !RaisedSince(run, k, k)
  {
  }

  /** What a turn does to the flag and the count, by where its thread stands. */
  lemma TurnCounts(s: State, turn: Turn)
    requires WellFormed(s) && Accounted(s)
    ensures var pc, n := PcOf(s, turn.thread), Next(s, turn);
            && (n.counters.degraded <==> if pc.Clearing? then false else s.counters.degraded || pc.Flagging?)
            && n.counters.unreported ==
               (if pc.Subtracting? then s.counters.unreported - pc.lost
                else if pc.Adding? then s.counters.unreported + 1
                else s.counters.unreported)
            && (pc.Loading? ==> n.inside.Marking? && n.inside.lost == n.counters.unreported)
            && (pc.Subtracting? ==> s.inside == pc && pc.lost <= s.counters.unreported)
            && (n.inside.Marking? || n.inside.Subtracting? ==>
                  pc.Loading? || ((s.inside.Marking? || s.inside.Subtracting?) && n.inside.lost == s.inside.lost
                                  && !pc.Subtracting?))
  {
  }

  lemma TurnSaysSo(s: State, turn: Turn, raised: bool, added: bool, sinceLoad: bool)
    requires WellFormed(s) && Accounted(s) && SaysSo(s, raised, added, sinceLoad)
    ensures var pc := PcOf(s, turn.thread);
            SaysSo(Next(s, turn), !pc.Clearing? && (raised || pc.Flagging?),
                   if pc.Subtracting? then sinceLoad else added || pc.Adding?,
                   !pc.Loading? && (sinceLoad || pc.Adding?))
  {
    TurnCounts(s, turn);
  }

  /** The turns that the flag and the count go back to, one turn later. */
  lemma TurnIsCounted(run: seq<Turn>, k: nat)
    requires k < |run|
    ensures var pc := Standing(run, k);
            && (RaisedSince(run, SinceClearing(run, k + 1), k + 1) <==>
                  !pc.Clearing? && (RaisedSince(run, SinceClearing(run, k), k) || pc.Flagging?))
            && (AddedSince(run, SinceClosing(run, k + 1), k + 1) <==>
                  if pc.Subtracting? then AddedSince(run, SinceLoad(run, k), k)
                  else AddedSince(run, SinceClosing(run, k), k) || pc.Adding?)
            && (AddedSince(run, SinceLoad(run, k + 1), k + 1) <==>
                  !pc.Loading? && (AddedSince(run, SinceLoad(run, k), k) || pc.Adding?))
  {
    AddedOnce(run, SinceClosing(run, k), k);
    AddedOnce(run, SinceLoad(run, k), k);
    AddedOnce(run, k + 1, k + 1);
    RaisedOnce(run, SinceClearing(run, k), k);
    RaisedOnce(run, k + 1, k + 1);
  }

  lemma TurnGoesBack(run: seq<Turn>, k: nat)
    requires k < |run| && GoesBack(run, k)
    ensures GoesBack(run, k + 1)
  {
    LossesAreAccounted(run, k);
    TurnSaysSo(After(run, k), run[k], RaisedSince(run, SinceClearing(run, k), k), AddedSince(run, SinceClosing(run, k), k),
               AddedSince(run, SinceLoad(run, k), k));
    TurnIsCounted(run, k);
  }

  lemma StartGoesBack(run: seq<Turn>)
    ensures GoesBack(run, 0)
  {
  }

  lemma {:induction false} EveryRunGoesBack(run: seq<Turn>, k: nat)
    requires k <= |run|
    ensures GoesBack(run, k)
  {
    if k == 0 {
      StartGoesBack(run);
    } else {
      EveryRunGoesBack(run, k - 1);
      TurnGoesBack(run, k - 1);
    }
  }

  /** In every interleaving the log counts as degraded exactly when there are unreported losses if and only if these agree:
      a loss was counted since the last gap that was closed had read the count, and the flag was set since it was last
      cleared. */
  lemma DegradedExactlyWhenUnreported(run: seq<Turn>, k: nat)
    requires k <= |run|
    ensures var c := After(run, k).counters;
            (c.degraded <==> c.unreported > 0) <==>
            (RaisedSince(run, SinceClearing(run, k), k) <==> AddedSince(run, SinceClosing(run, k), k))
  {
    EveryRunGoesBack(run, k);
  }

  lemma {:induction false} SamePrefix(a: seq<Turn>, b: seq<Turn>, k: nat)
    requires k <= |a| && k <= |b| && forall i :: 0 <= i < k ==> a[i] == b[i]
    ensures After(a, k) == After(b, k)
  {
    if k > 0 { SamePrefix(a, b, k - 1); }
  }

  /** A run with one turn more. */
  lemma Then(run: seq<Turn>, thread: nat, ok: bool) returns (longer: seq<Turn>)
    ensures longer == run + [Turn(thread, Recording, ok)]
    ensures After(longer, |longer|) == Next(After(run, |run|), Turn(thread, Recording, ok))
  {
    longer := run + [Turn(thread, Recording, ok)];
    SamePrefix(longer, run, |run|);
  }

  /** A record takes the lock and fails. */
  lemma Fails(run: seq<Turn>, t: nat) returns (longer: seq<Turn>)
    requires var s := After(run, |run|); s.holder == None && s.inside == Idle && PcOf(s, t).Idle?
    ensures var s := After(run, |run|);
            After(longer, |longer|) == s.(outside := s.outside[t := Dropping])
  {
    var s := After(run, |run|);
    longer := Then(run, t, true);
    longer := Then(longer, t, true);
    longer := Then(longer, t, false);
    assert (s.outside[t := Wanting(Recording)] - {t})[t := Dropping] == s.outside[t := Dropping];
  }

  /** It notes the failure. */
  lemma Adds(run: seq<Turn>, t: nat) returns (longer: seq<Turn>)
    requires var s := After(run, |run|); s.holder != Some(t) && PcOf(s, t).Dropping?
    ensures var s, n := After(run, |run|), After(longer, |longer|);
            && n.holder == s.holder && n.inside == s.inside && n.outside == s.outside[t := Flagging]
            && n.counters.unreported == s.counters.unreported + 1 && n.counters.degraded == s.counters.degraded
  {
    var s := After(run, |run|);
    longer := Then(run, t, true);
    longer := Then(longer, t, true);
    assert s.outside[t := Adding][t := Flagging] == s.outside[t := Flagging];
  }

  /** And sets the flag. */
  lemma Flags(run: seq<Turn>, t: nat) returns (longer: seq<Turn>)
    requires var s := After(run, |run|); s.holder != Some(t) && PcOf(s, t).Flagging?
    ensures var s, n := After(run, |run|), After(longer, |longer|);
            && n.holder == s.holder && n.inside == s.inside && n.outside == s.outside[t := Idle]
            && n.counters == s.counters.(degraded := true)
  {
    longer := Then(run, t, true);
  }

  /** A record takes the lock while the log is degraded, and reads the count. */
  lemma Loads(run: seq<Turn>, t: nat) returns (longer: seq<Turn>)
    requires var s := After(run, |run|); s.holder == None && PcOf(s, t).Idle? && s.counters.degraded
    ensures var s, n := After(run, |run|), After(longer, |longer|);
            && n.holder == Some(t) && n.inside == Marking(Recording, s.counters.unreported)
            && n.counters == s.counters && n.outside == s.outside - {t}
  {
    var s := After(run, |run|);
    longer := Then(run, t, true);
    longer := Then(longer, t, true);
    longer := Then(longer, t, true);
    longer := Then(longer, t, true);
    assert s.outside[t := Wanting(Recording)] - {t} == s.outside - {t};
  }

  /** It reports what it read, and is done. */
  lemma Closes(run: seq<Turn>, t: nat) returns (longer: seq<Turn>)
    requires var s := After(run, |run|);
             s.holder == Some(t) && s.inside.Marking? && s.inside.task.Recording? && s.inside.lost <= s.counters.unreported
    ensures var s, n := After(run, |run|), After(longer, |longer|);
            && n.holder == None && n.inside == Idle && n.outside == s.outside[t := Idle]
            && n.counters.unreported == s.counters.unreported - s.inside.lost && !n.counters.degraded
  {
    longer := Then(run, t, true);
    longer := Then(longer, t, true);
    longer := Then(longer, t, true);
    longer := Then(longer, t, true);
  }

  /** Across the closing of a gap the flag can be lost: a run of two threads ends with an unreported loss and the log
      not degraded, so that the next call is admitted under any policy. */
  lemma FlagCanBeLost() returns (run: seq<Turn>)
    ensures var s := After(run, |run|);
            Quiet(s) && !s.counters.degraded && s.counters.unreported == 1
  {
    run := Fails([], 1);
    run := Adds(run, 1);
    run := Flags(run, 1);
    run := Fails(run, 2);
    run := Loads(run, 1);
    run := Adds(run, 2);
    run := Flags(run, 2);
    run := Closes(run, 1);
  }

  /** Or set for nothing: a run ends degraded with every loss reported. */
  lemma FlagCanBeSetForNothing() returns (run: seq<Turn>)
    ensures var s := After(run, |run|);
            Quiet(s) && s.counters.degraded && s.counters.unreported == 0
  {
    run := Fails([], 1);
    run := Fails(run, 2);
    run := Adds(run, 1);
    run := Adds(run, 2);
    run := Flags(run, 2);
    run := Loads(run, 2);
    run := Closes(run, 2);
    run := Flags(run, 1);
  }
}
