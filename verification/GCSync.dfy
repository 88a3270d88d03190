// Stopping the world. Guard holders are counted; a writer takes the count's lock, removes the
// lock page and waits until every holder has faulted on it or left. A holder that cannot take
// the lock leaves a command instead, which only a writer reads.
module GCSync {

  datatype Holder = Running | Blocked

  // Locked: the count is locked and the page not yet removed. Waking: the page is back and the
  // lock not yet released.
  datatype Writer = Absent | Locked | Waiting(blocked: nat) | Exclusive | Waking

  // `commands` counts the Unregister commands not yet read, `faults` the page faults not yet read.
  datatype State = State(
    live: int,
    commands: nat,
    faults: nat,
    missing: bool,
    holders: map<nat, Holder>,
    writer: Writer)

  datatype Event =
    | Enter(t: nat)
    | Touch(t: nat)
    | LeaveFast(t: nat)
    | LeaveSlow(t: nat)
    | Lock
    | RemovePage
    | ReadCommand
    | ReadFault
    | Acquire
    | Drop
    | Unlock

  predicate Runs(s: State, t: nat) { t in s.holders && s.holders[t] == Running }

  // LeaveSlow needs no writer: the lock can be busy for a moment in some other thread.
  predicate Enabled(s: State, e: Event) {
    match e
    case Enter(t) => s.writer.Absent? && t !in s.holders
    case Touch(t) => Runs(s, t)
    case LeaveFast(t) => Runs(s, t) && s.writer.Absent?
    case LeaveSlow(t) => Runs(s, t)
    case Lock => s.writer.Absent?
    case RemovePage => s.writer.Locked?
    case ReadCommand => s.writer.Waiting? && s.commands > 0
    case ReadFault => s.writer.Waiting? && s.faults > 0
    case Acquire => s.writer.Waiting? && s.writer.blocked >= s.live
    case Drop => s.writer.Exclusive?
    case Unlock => s.writer.Waking?
  }

  function WakeAll(holders: map<nat, Holder>): map<nat, Holder> {
    map t | t in holders :: Running
  }

  function Next(s: State, e: Event): State
    requires Enabled(s, e)
  {
    match e
    case Enter(t) => s.(live := s.live + 1, holders := s.holders[t := Running])
    case Touch(t) => if s.missing then s.(holders := s.holders[t := Blocked], faults := s.faults + 1) else s
    case LeaveFast(t) => s.(live := s.live - 1, holders := s.holders - {t})
    case LeaveSlow(t) => s.(commands := s.commands + 1, holders := s.holders - {t})
    case Lock => s.(writer := Locked)
    case RemovePage => s.(writer := Waiting(0), missing := true)
    case ReadCommand => s.(commands := s.commands - 1, live := s.live - 1)
    case ReadFault => s.(faults := s.faults - 1, writer := Waiting(s.writer.blocked + 1))
    case Acquire => s.(writer := Exclusive)
    case Drop => s.(writer := Waking, missing := false, holders := WakeAll(s.holders))
    case Unlock => s.(writer := Absent)
  }

  // ----- The invariant -----

  function BlockedSet(s: State): set<nat> {
    set t | t in s.holders && s.holders[t] == Blocked
  }

  function RunningSet(s: State): set<nat> {
    set t | t in s.holders && s.holders[t] == Running
  }

  // The count is the guards plus the commands not read, whatever anyone is doing. Each blocked
  // thread has been counted by the writer or has its fault waiting to be read.
  ghost predicate Inv(s: State) {
    && s.live == |s.holders.Keys| + s.commands
    && (match s.writer
        case Waiting(blocked) => s.missing && blocked + s.faults == |BlockedSet(s)|
        case Exclusive => s.missing && s.commands == 0 && s.faults == 0 && RunningSet(s) == {}
        case _ => !s.missing && s.faults == 0 && BlockedSet(s) == {})
  }

  function Start(): State {
    State(0, 0, 0, false, map[], Absent)
  }

  lemma HoldersSplit(s: State)
    ensures |s.holders.Keys| == |RunningSet(s)| + |BlockedSet(s)|
  {
    assert s.holders.Keys == RunningSet(s) + BlockedSet(s);
  }

  // One holder more, less, or blocked.
  lemma HolderSteps(s: State, t: nat)
    ensures t !in s.holders ==> |s.holders[t := Running].Keys| == |s.holders.Keys| + 1
    ensures t in s.holders ==> |(s.holders - {t}).Keys| == |s.holders.Keys| - 1
    ensures t in s.holders ==> s.holders[t := Blocked].Keys == s.holders.Keys
  {
    assert s.holders[t := Running].Keys == s.holders.Keys + {t};
    assert (s.holders - {t}).Keys == s.holders.Keys - {t};
  }

  lemma BlockedSteps(s: State, t: nat)
    requires Runs(s, t)
    ensures |BlockedSet(s.(holders := s.holders[t := Blocked]))| == |BlockedSet(s)| + 1
    ensures BlockedSet(s.(holders := s.holders - {t})) == BlockedSet(s)
  {
    assert BlockedSet(s.(holders := s.holders[t := Blocked])) == BlockedSet(s) + {t};
  }

  // The test that ends the wait leaves nothing out: no command, no fault, no running holder.
  lemma AcquireMeansStopped(s: State)
    requires Inv(s) && s.writer.Waiting?
    ensures s.writer.blocked >= s.live <==> s.commands == 0 && s.faults == 0 && RunningSet(s) == {}
    ensures s.writer.blocked <= s.live
  {
    HoldersSplit(s);
  }

  lemma NextInv(s: State, e: Event)
    requires Inv(s) && Enabled(s, e)
    ensures Inv(Next(s, e))
  {
    hide Inv, Next, Enabled;
    match e {
      case Enter(t) => ThreadInv(s, e);
      case Touch(t) => ThreadInv(s, e);
      case LeaveFast(t) => ThreadInv(s, e);
      case LeaveSlow(t) => ThreadInv(s, e);
      case _ => WriterInv(s, e);
    }
  }

  lemma ThreadInv(s: State, e: Event)
    requires Inv(s) && Enabled(s, e) && (e.Enter? || e.Touch? || e.LeaveFast? || e.LeaveSlow?)
    ensures Inv(Next(s, e))
  {
    var s' := Next(s, e);
    HolderSteps(s, e.t);
    if e.Enter? {
      assert BlockedSet(s') == BlockedSet(s);
    } else {
      BlockedSteps(s, e.t);
      assert e.t in RunningSet(s);
      if e.Touch? && s.missing {
        assert BlockedSet(s') == BlockedSet(s.(holders := s.holders[e.t := Blocked]));
      } else {
        assert BlockedSet(s') == BlockedSet(s);
      }
    }
  }

  lemma WriterInv(s: State, e: Event)
    requires Inv(s) && Enabled(s, e) && !(e.Enter? || e.Touch? || e.LeaveFast? || e.LeaveSlow?)
    ensures Inv(Next(s, e))
  {
    var s' := Next(s, e);
    if e.Acquire? { AcquireMeansStopped(s); }
    if e.Drop? {
      assert s'.holders.Keys == s.holders.Keys;
    } else {
      assert BlockedSet(s') == BlockedSet(s) && RunningSet(s') == RunningSet(s);
    }
  }

  // ----- Runs -----

  predicate Run(s: State, es: seq<Event>, s': State)
    decreases |es|
  {
    if es == [] then s' == s
    else Enabled(s, es[0]) && Run(Next(s, es[0]), es[1..], s')
  }

  lemma {:induction false} RunInv(s: State, es: seq<Event>, s': State)
    requires Inv(s) && Run(s, es, s')
    ensures Inv(s')
    decreases |es|
  {
    if es != [] {
      NextInv(s, es[0]);
      RunInv(Next(s, es[0]), es[1..], s');
    }
  }

  // Whenever a writer is in, from the start over any run: no command is unread, the count is the
  // holders, all of them are blocked, and nothing can happen until the writer drops its guard.
  lemma StoppedWorld(es: seq<Event>, s: State)
    requires Run(Start(), es, s) && s.writer.Exclusive?
    ensures s.commands == 0 && s.faults == 0 && s.live == |s.holders.Keys|
    ensures forall t :: t in s.holders ==> s.holders[t] == Blocked
    ensures forall e :: Enabled(s, e) ==> e == Drop
  {
    assert Inv(Start());
    RunInv(Start(), es, s);
    forall t | t in s.holders ensures s.holders[t] == Blocked {
      assert t !in RunningSet(s);
    }
  }

  // The count never goes below zero: each decrement has a holder or a command to account for.
  lemma NoUnderflow(s: State, e: Event)
    requires Inv(s) && Enabled(s, e) && (e.LeaveFast? || e.ReadCommand?)
    ensures s.live >= 1 && Next(s, e).live >= 0
  {
    if e.LeaveFast? {
      HolderSteps(s, e.t);
      assert e.t in s.holders.Keys;
    }
  }

  // ----- Progress -----

  // Running holders twice, and what is left to read once.
  function Measure(s: State): nat {
    2 * |RunningSet(s)| + s.commands + s.faults
  }

  // While a writer waits, every step anyone can take brings the end nearer, except the step that
  // ends the wait; and no new holder can enter.
  lemma WaitingFalls(s: State, e: Event)
    requires Inv(s) && s.writer.Waiting? && Enabled(s, e) && !e.Acquire?
    ensures Next(s, e).writer.Waiting? && Measure(Next(s, e)) < Measure(s)
    ensures Next(s, e).holders.Keys <= s.holders.Keys
  {
    var s' := Next(s, e);
    if e.Touch? || e.LeaveSlow? {
      assert e.t in RunningSet(s);
      assert RunningSet(s') == RunningSet(s) - {e.t};
    } else {
      assert RunningSet(s') == RunningSet(s);
    }
  }

  // And it is never stuck: it can enter, or it has something to read, or some holder runs and
  // will come to a safepoint or leave. Commands left over from before it came count too.
  lemma WaitingNotStuck(s: State)
    requires Inv(s) && s.writer.Waiting?
    ensures Enabled(s, Acquire) || Enabled(s, ReadCommand) || Enabled(s, ReadFault)
      || exists t :: Enabled(s, Touch(t)) && Enabled(s, LeaveSlow(t))
    ensures Measure(s) == 0 <==> Enabled(s, Acquire)
  {
    AcquireMeansStopped(s);
    if RunningSet(s) != {} {
      var t :| t in RunningSet(s);
      assert Enabled(s, Touch(t)) && Enabled(s, LeaveSlow(t));
    }
  }

  predicate StaysWaiting(s: State, es: seq<Event>)
    decreases |es|
  {
    es == [] || (Enabled(s, es[0]) && !es[0].Acquire? && StaysWaiting(Next(s, es[0]), es[1..]))
  }

  // So no wait is longer than twice the running holders plus what is left to read.
  lemma {:induction false} WaitIsBounded(s: State, es: seq<Event>)
    requires Inv(s) && s.writer.Waiting? && StaysWaiting(s, es)
    ensures |es| <= Measure(s)
    decreases |es|
  {
    if es != [] {
      WaitingFalls(s, es[0]);
      NextInv(s, es[0]);
      WaitIsBounded(Next(s, es[0]), es[1..]);
    }
  }

  lemma {:induction false} RunSnoc(s: State, es: seq<Event>, s': State, e: Event)
    requires Run(s, es, s') && Enabled(s', e)
    ensures Run(s, es + [e], Next(s', e))
    decreases |es|
  {
    if es == [] {
      assert es + [e] == [e];
    } else {
      assert (es + [e])[0] == es[0] && (es + [e])[1..] == es[1..] + [e];
      RunSnoc(Next(s, es[0]), es[1..], s', e);
    }
  }

  // The live count is changed only by whoever has its lock: a thread while no writer is in, and the
  // writer when it reads a command. A thread that cannot take the lock leaves its command instead.
  lemma CountUnderLock(s: State, e: Event)
    requires Enabled(s, e)
    ensures Next(s, e).live != s.live ==> if s.writer.Absent? then e.Enter? || e.LeaveFast? else e.ReadCommand?
    ensures e.LeaveSlow? ==> Next(s, e).live == s.live && e.t !in Next(s, e).holders
  {
  }

  function SlowLeaves(es: seq<Event>): nat {
    if es == [] then 0 else (if es[0].LeaveSlow? then 1 else 0) + SlowLeaves(es[1..])
  }

  function CommandsRead(es: seq<Event>): nat {
    if es == [] then 0 else (if es[0].ReadCommand? then 1 else 0) + CommandsRead(es[1..])
  }

  // No command is lost or made up: each slow departure is read once, by whichever writer comes next.
  lemma {:induction false} CommandsCounted(s: State, es: seq<Event>, s': State)
    requires Run(s, es, s')
    ensures s'.commands + CommandsRead(es) == s.commands + SlowLeaves(es)
    decreases |es|
  {
    if es != [] { CommandsCounted(Next(s, es[0]), es[1..], s'); }
  }

  // ----- Polling -----

  // What threads do, each when it can.
  function ThreadStep(s: State, e: Event): State {
    if (e.Enter? || e.Touch? || e.LeaveFast? || e.LeaveSlow?) && Enabled(s, e) then Next(s, e) else s
  }

  function Threads(s: State, steps: seq<Event>): State
    decreases |steps|
  {
    if steps == [] then s else Threads(ThreadStep(s, steps[0]), steps[1..])
  }

  // A round of reading: every command, then every fault.
  function ReadOf(s: State): State {
    if s.writer.Waiting?
    then s.(live := s.live - s.commands, commands := 0, faults := 0, writer := Waiting(s.writer.blocked + s.faults))
    else s
  }

  function Satisfied(s: State): bool {
    s.writer.Waiting? && s.writer.blocked >= s.live
  }

  // Polling until everyone is counted, over the given rounds at most.
  function Polls(s: State, rounds: seq<seq<Event>>): State
    decreases |rounds|
  {
    if Satisfied(s) || rounds == [] then s else Polls(ReadOf(Threads(s, rounds[0])), rounds[1..])
  }

  predicate Stops(steps: seq<Event>, t: nat) {
    Touch(t) in steps || LeaveSlow(t) in steps
  }

  predicate StopsIn(rounds: seq<seq<Event>>, t: nat) {
    exists i :: 0 <= i < |rounds| && Stops(rounds[i], t)
  }

  // While a writer waits a thread's step starts nobody, and a holder that comes to a safepoint or
  // leaves runs no more.
  lemma ThreadStepStops(s: State, e: Event, t: nat)
    requires s.writer.Waiting? && s.missing
    ensures var u := ThreadStep(s, e);
      && u.writer == s.writer && u.missing && (Runs(u, t) ==> Runs(s, t))
      && (e == Touch(t) || e == LeaveSlow(t) ==> !Runs(u, t))
  {
  }

  lemma {:induction false} ThreadsStop(s: State, steps: seq<Event>, t: nat)
    requires s.writer.Waiting? && s.missing
    ensures var u := Threads(s, steps);
      u.writer == s.writer && u.missing && (Runs(u, t) ==> Runs(s, t) && !Stops(steps, t))
    decreases |steps|
  {
    if steps != [] {
      ThreadStepStops(s, steps[0], t);
      ThreadsStop(ThreadStep(s, steps[0]), steps[1..], t);
    }
  }

  lemma {:induction false} ThreadsInv(s: State, steps: seq<Event>)
    requires Inv(s)
    ensures Inv(Threads(s, steps))
    decreases |steps|
  {
    hide Inv, Next, Enabled;
    if steps != [] {
      if Enabled(s, steps[0]) { NextInv(s, steps[0]); }
      ThreadsInv(ThreadStep(s, steps[0]), steps[1..]);
    }
  }

  lemma ReadInv(s: State)
    requires Inv(s) && s.writer.Waiting?
    ensures Inv(ReadOf(s)) && forall t :: Runs(ReadOf(s), t) <==> Runs(s, t)
  {
  }

  // If every holder that runs comes to a safepoint or leaves in some round, the writer enters: it
  // does not give up before, and nobody is overlooked.
  lemma {:induction false} EntersWhenAllStop(s: State, rounds: seq<seq<Event>>)
    requires Inv(s) && s.writer.Waiting? && rounds != []
    requires forall t :: Runs(s, t) ==> StopsIn(rounds, t)
    ensures Inv(Polls(s, rounds)) && Satisfied(Polls(s, rounds))
    decreases |rounds|
  {
    hide Next, Enabled, Threads;
    if !Satisfied(s) {
      var mid := Threads(s, rounds[0]);
      var u := ReadOf(mid);
      ThreadsInv(s, rounds[0]);
      ThreadsStop(s, rounds[0], 0);
      forall t ensures Runs(mid, t) ==> Runs(s, t) && !Stops(rounds[0], t) {
        ThreadsStop(s, rounds[0], t);
      }
      ReadInv(mid);
      forall t | Runs(u, t) ensures StopsIn(rounds[1..], t) {
        var i :| 0 <= i < |rounds| && Stops(rounds[i], t);
        assert rounds[1..][i - 1] == rounds[i];
      }
      if rounds[1..] == [] {
        forall t ensures !Runs(u, t) { assert Runs(u, t) ==> StopsIn(rounds[1..], t); }
        NobodyRuns(u);
      } else {
        EntersWhenAllStop(u, rounds[1..]);
      }
    }
  }

  lemma NobodyRuns(s: State)
    requires Inv(s) && s.writer.Waiting? && s.commands == 0 && s.faults == 0 && forall t :: !Runs(s, t)
    ensures Satisfied(s)
  {
    forall t ensures t !in RunningSet(s) { assert !Runs(s, t); }
    AcquireMeansStopped(s);
  }

  // ----- The same, updated in place -----

  // `holders` stands for the threads themselves, and `writer` for where the lock's owner is.
  class Sync {
    var liveThreads: int
    var commands: nat
    var faults: nat
    var pageMissing: bool
    var holders: map<nat, Holder>
    var writer: Writer

    constructor ()
      ensures Now() == Start() && Inv(Now())
    {
      liveThreads, commands, faults, pageMissing, holders, writer := 0, 0, 0, false, map[], Absent;
    }

    function Now(): State
      reads this
    {
      State(liveThreads, commands, faults, pageMissing, holders, writer)
    }

    method GetShared(t: nat)
      requires Inv(Now()) && Enabled(Now(), Enter(t))
      modifies this
      ensures Inv(Now()) && Now() == Next(old(Now()), Enter(t))
    {
      NextInv(Now(), Enter(t));
      liveThreads := liveThreads + 1;
      holders := holders[t := Running];
    }

    // `tryLock` says whether the lock was free at that moment.
    method DisableGuard(t: nat, tryLock: bool)
      requires Inv(Now()) && Runs(Now(), t) && (tryLock ==> writer.Absent?)
      modifies this
      ensures Inv(Now()) && Now() == Next(old(Now()), if tryLock then LeaveFast(t) else LeaveSlow(t))
    {
      NextInv(Now(), if tryLock then LeaveFast(t) else LeaveSlow(t));
      if tryLock {
        liveThreads := liveThreads - 1;
      } else {
        commands := commands + 1;
      }
      holders := holders - {t};
    }

    method Safepoint(t: nat)
      requires Inv(Now()) && Runs(Now(), t)
      modifies this
      ensures Inv(Now()) && Now() == Next(old(Now()), Touch(t))
    {
      NextInv(Now(), Touch(t));
      if pageMissing {
        holders, faults := holders[t := Blocked], faults + 1;
      }
    }

    // What the threads do while the writer is away or until it polls again: enter, come to a
    // safepoint or leave, each when it can.
    method RunThreads(steps: seq<Event>, ghost from: State, ghost es: seq<Event>) returns (ghost es': seq<Event>)
      requires Inv(Now()) && (writer.Waiting? || writer.Absent?) && Run(from, es, Now())
      modifies this
      ensures Inv(Now()) && writer == old(writer) && Run(from, es', Now())
      ensures Now() == Threads(old(Now()), steps)
    {
      hide Run, Inv, Threads;
      es' := es;
      assert steps[..|steps|] == steps;
      ThreadsNone(Now());
      for i := 0 to |steps|
        invariant Inv(Now()) && writer == old(writer) && Run(from, es', Now())
        invariant Now() == Threads(old(Now()), steps[..i])
      {
        assert steps[..i + 1] == steps[..i] + [steps[i]];
        ThreadsSnoc(old(Now()), steps[..i], steps[i]);
        match steps[i] {
          case Enter(t) =>
            if writer.Absent? && t !in holders {
              RunSnoc(from, es', Now(), Enter(t));
              GetShared(t);
              es' := es' + [Enter(t)];
            }
          case Touch(t) =>
            if t in holders && holders[t] == Running {
              RunSnoc(from, es', Now(), Touch(t));
              Safepoint(t);
              es' := es' + [Touch(t)];
            }
          case LeaveFast(t) =>
            if writer.Absent? && t in holders && holders[t] == Running {
              RunSnoc(from, es', Now(), LeaveFast(t));
              DisableGuard(t, true);
              es' := es' + [LeaveFast(t)];
            }
          case LeaveSlow(t) =>
            if t in holders && holders[t] == Running {
              RunSnoc(from, es', Now(), LeaveSlow(t));
              DisableGuard(t, false);
              es' := es' + [LeaveSlow(t)];
            }
          case _ =>
        }
      }
    }

    // One round after a poll: read every command, then every fault.
    method ReadAll(blockedCount: nat, ghost from: State, ghost es: seq<Event>)
      returns (blocked: nat, ghost es': seq<Event>)
      requires Inv(Now()) && writer == Waiting(blockedCount) && Run(from, es, Now())
      modifies this
      ensures Inv(Now()) && writer == Waiting(blocked) && Run(from, es', Now())
      ensures commands == 0 && faults == 0 && holders == old(holders)
      ensures Now() == ReadOf(old(Now()))
    {
      hide Run, Inv;
      blocked, es' := blockedCount, es;
      while commands > 0
        invariant Inv(Now()) && writer == Waiting(blocked) && Run(from, es', Now()) && holders == old(holders)
        invariant Now() == old(Now()).(live := liveThreads, commands := commands)
        invariant liveThreads - commands == old(liveThreads) - old(commands)
      {
        NextInv(Now(), ReadCommand);
        RunSnoc(from, es', Now(), ReadCommand);
        commands, liveThreads := commands - 1, liveThreads - 1;
        es' := es' + [ReadCommand];
      }
      while faults > 0
        invariant Inv(Now()) && writer == Waiting(blocked) && Run(from, es', Now()) && holders == old(holders)
        invariant commands == 0 && blocked + faults == blockedCount + old(faults)
        invariant Now() == old(Now()).(live := old(liveThreads) - old(commands), commands := 0, faults := faults,
                                       writer := writer)
      {
        NextInv(Now(), ReadFault);
        RunSnoc(from, es', Now(), ReadFault);
        faults, blocked := faults - 1, blocked + 1;
        writer := Waiting(blocked);
        es' := es' + [ReadFault];
      }
    }

    // Waits over the given rounds, one list of thread steps for each poll. It enters exactly when
    // everyone has stopped or left; if it is still waiting then only for holders that run.
    method GetExclusive(rounds: seq<seq<Event>>) returns (entered: bool, ghost es: seq<Event>)
      requires Inv(Now()) && writer.Absent?
      modifies this
      ensures Inv(Now()) && Run(old(Now()), es, Now())
      ensures entered ==> writer.Exclusive? && commands == 0 && liveThreads == |holders.Keys|
      ensures entered ==> forall t :: t in holders ==> holders[t] == Blocked
      ensures !entered ==> writer.Waiting?
      ensures !entered && rounds != [] ==> exists t :: t in holders && holders[t] == Running
      ensures var s := Polls(Next(Next(old(Now()), Lock), RemovePage), rounds);
        && (entered <==> Satisfied(s)) && Now() == if entered then s.(writer := Exclusive) else s
    {
      hide Run, Inv;
      ghost var from := Now();
      es := [];
      RunNone(from);
      NextInv(Now(), Lock);
      RunSnoc(from, es, Now(), Lock);
      writer, es := Locked, es + [Lock];
      NextInv(Now(), RemovePage);
      RunSnoc(from, es, Now(), RemovePage);
      writer, pageMissing, es := Waiting(0), true, es + [RemovePage];
      ghost var start := Now();
      var blockedCount: nat := 0;
      var i := 0;
      assert rounds[0..] == rounds;
      while blockedCount < liveThreads
        invariant i <= |rounds|
        invariant Inv(Now()) && writer == Waiting(blockedCount) && Run(from, es, Now())
        invariant i > 0 ==> commands == 0 && faults == 0
        invariant Polls(start, rounds) == Polls(Now(), rounds[i..])
        decreases |rounds| - i
      {
        if i == |rounds| {
          if i > 0 { StillRunning(Now()); }
          return false, es;
        }
        es := RunThreads(rounds[i], from, es);
        blockedCount, es := ReadAll(blockedCount, from, es);
        assert rounds[i..][0] == rounds[i] && rounds[i..][1..] == rounds[i + 1..];
        i := i + 1;
      }
      AcquireMeansStopped(Now());
      AllBlocked(Now());
      NextInv(Now(), Acquire);
      RunSnoc(from, es, Now(), Acquire);
      writer, es := Exclusive, es + [Acquire];
      entered := true;
    }

    // The page comes back, which wakes every holder, and then the lock is released.
    method DropExclusive()
      requires Inv(Now()) && writer.Exclusive?
      modifies this
      ensures Inv(Now()) && Now() == Next(Next(old(Now()), Drop), Unlock)
    {
      NextInv(Now(), Drop);
      writer, pageMissing, holders := Waking, false, WakeAll(holders);
      NextInv(Now(), Unlock);
      writer := Absent;
    }

    // Threads come and go, the world is stopped, and if that came about it is let go again: then
    // nobody is left blocked, the page is back, nothing is unread, and the count is that of the
    // guards.
    method StopAndGo(steps: seq<Event>, rounds: seq<seq<Event>>) returns (entered: bool, ghost es: seq<Event>)
      requires Inv(Now()) && writer.Absent?
      modifies this
      ensures Inv(Now()) && Run(old(Now()), es, Now())
      ensures var s := Threads(old(Now()), steps);
        && s.writer.Absent?
        && var u := Polls(Next(Next(s, Lock), RemovePage), rounds);
           && (entered <==> Satisfied(u))
           && Now() == if entered then u.(writer := Absent, missing := false, holders := WakeAll(u.holders)) else u
      ensures entered ==> writer.Absent? && !pageMissing && commands == 0 && faults == 0
      ensures entered ==> liveThreads == |holders.Keys| && forall t :: t in holders ==> holders[t] == Running
      ensures !entered ==> writer.Waiting?
    {
      hide Run, Inv, Threads, Polls;
      ghost var from := Now();
      RunNone(from);
      es := RunThreads(steps, from, []);
      ghost var before, stop := es, [];
      ghost var mid := Now();
      entered, stop := GetExclusive(rounds);
      RunJoin(from, before, mid, stop, Now());
      es := before + stop;
      if entered {
        NothingUnread(Now());
        ghost var stopped := Now();
        DropExclusive();
        RunJoin(from, es, stopped, [Drop, Unlock], Now()) by { DropRun(stopped); }
        es := es + [Drop, Unlock];
      }
    }
  }

  lemma {:induction false} RunJoin(s: State, es1: seq<Event>, s1: State, es2: seq<Event>, s2: State)
    requires Run(s, es1, s1) && Run(s1, es2, s2)
    ensures Run(s, es1 + es2, s2)
    decreases |es1|
  {
    hide Next, Enabled;
    if es1 == [] {
      assert es1 + es2 == es2;
    } else {
      assert (es1 + es2)[0] == es1[0] && (es1 + es2)[1..] == es1[1..] + es2;
      RunJoin(Next(s, es1[0]), es1[1..], s1, es2, s2);
    }
  }

  lemma DropRun(s: State)
    requires s.writer.Exclusive?
    ensures Run(s, [Drop, Unlock], Next(Next(s, Drop), Unlock))
  {
    assert [Drop, Unlock][1..] == [Unlock] && [Unlock][1..] == [];
  }

  lemma NothingUnread(s: State)
    requires Inv(s) && s.writer.Exclusive?
    ensures s.faults == 0
  {
  }

  lemma ThreadsNone(s: State)
    ensures Threads(s, []) == s
  {
  }

  lemma {:induction false} ThreadsSnoc(s: State, steps: seq<Event>, e: Event)
    ensures Threads(s, steps + [e]) == ThreadStep(Threads(s, steps), e)
    decreases |steps|
  {
    hide ThreadStep;
    if steps == [] {
      assert [] + [e] == [e] && [e][1..] == [];
    } else {
      assert (steps + [e])[0] == steps[0] && (steps + [e])[1..] == steps[1..] + [e];
      ThreadsSnoc(ThreadStep(s, steps[0]), steps[1..], e);
    }
  }

  lemma RunNone(s: State)
    ensures Run(s, [], s)
  {
  }

  lemma StillRunning(s: State)
    requires Inv(s) && s.writer.Waiting? && s.writer.blocked < s.live && s.commands == 0 && s.faults == 0
    ensures exists t :: t in s.holders && s.holders[t] == Running
  {
    AcquireMeansStopped(s);
    var t :| t in RunningSet(s);
  }

  lemma AllBlocked(s: State)
    requires Inv(s) && RunningSet(s) == {} && s.commands == 0
    ensures s.live == |s.holders.Keys| && forall t :: t in s.holders ==> s.holders[t] == Blocked
  {
    forall t | t in s.holders ensures s.holders[t] == Blocked {
      assert t !in RunningSet(s);
    }
  }
}