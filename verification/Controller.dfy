// Requesting cycles and waiting for them, running code with no cycle in progress, and the
// collector's own loop, all under one lock with two condition variables.
module Controller {

  // Where the collector's thread is. NotStarted is before its first test of the shutdown flag;
  // Parked and Woken are inside its wait for a request.
  datatype Looper = NotStarted | Parked | Woken | Cycling | Exited

  // A caller waiting for the next cycle: the count it read, and whether it has been notified.
  datatype Waiter = Waiter(count: nat, woken: bool)

  // A caller of run_exclusive: waiting, notified, or running its body with the lock held.
  datatype Excl = ExclParked | ExclWoken | ExclBody

  datatype Flags = Flags(running: bool, requested: bool, shuttingDown: bool, finished: nat)

  datatype State = State(flags: Flags, looper: Looper, waiters: map<nat, Waiter>, excls: map<nat, Excl>)

  datatype Event =
    | Request(w: nat)
    | WaiterCheck(w: nat)
    | ClearRequest
    | Shutdown
    | LooperStart
    | LooperCheck
    | FinishCycle
    | ExclEnter(x: nat)
    | ExclCheck(x: nat)
    | ExclLeave(x: nat)

  predicate LockFree(s: State) {
    forall x :: x in s.excls ==> s.excls[x] != ExclBody
  }

  // Everything but leaving an exclusive body needs the lock.
  predicate Enabled(s: State, e: Event) {
    match e
    case Request(w) => LockFree(s) && w !in s.waiters
    case WaiterCheck(w) => LockFree(s) && w in s.waiters && s.waiters[w].woken
    case ClearRequest => LockFree(s) && s.looper.Cycling?
    case Shutdown => LockFree(s)
    case LooperStart => LockFree(s) && s.looper.NotStarted?
    case LooperCheck => LockFree(s) && s.looper.Woken?
    case FinishCycle => LockFree(s) && s.looper.Cycling?
    case ExclEnter(x) => LockFree(s) && x !in s.excls
    case ExclCheck(x) => LockFree(s) && x in s.excls && s.excls[x] == ExclWoken
    case ExclLeave(x) => x in s.excls && s.excls[x] == ExclBody
  }

  // Notifying the first condition variable: the looper and the exclusive callers wait on it.
  function Notify(s: State): State {
    s.(looper := if s.looper.Parked? then Woken else s.looper,
       excls := map x | x in s.excls :: if s.excls[x] == ExclParked then ExclWoken else s.excls[x])
  }

  // The end of the wait for a request: start a cycle if there is one, else wait on.
  function TestRequest(s: State): State {
    if s.flags.requested then s.(flags := s.flags.(running := true, requested := false), looper := Cycling)
    else s.(looper := Parked)
  }

  // The test at the head of the loop.
  function TestShutdown(s: State): State {
    if s.flags.shuttingDown then s.(looper := Exited) else TestRequest(s)
  }

  function TestExclusive(s: State, x: nat): State {
    s.(excls := s.excls[x := if s.flags.running then ExclParked else ExclBody])
  }

  function Next(s: State, e: Event): State
    requires Enabled(s, e)
  {
    match e
    case Request(w) =>
      Notify(s.(flags := s.flags.(requested := true), waiters := s.waiters[w := Waiter(s.flags.finished, false)]))
    case WaiterCheck(w) =>
      if s.waiters[w].count == s.flags.finished then s.(waiters := s.waiters[w := s.waiters[w].(woken := false)])
      else s.(waiters := s.waiters - {w})
    case ClearRequest => s.(flags := s.flags.(requested := false))
    case Shutdown => Notify(s.(flags := s.flags.(shuttingDown := true)))
    case LooperStart => TestShutdown(s)
    case LooperCheck => TestRequest(s)
    case FinishCycle =>
      TestShutdown(s.(flags := s.flags.(finished := s.flags.finished + 1, running := false),
                      waiters := map w | w in s.waiters :: s.waiters[w].(woken := true)))
    case ExclEnter(x) => TestExclusive(s, x)
    case ExclCheck(x) => TestExclusive(s, x)
    case ExclLeave(x) => s.(excls := s.excls - {x})
  }

  function Start(): State {
    State(Flags(false, false, false, 0), NotStarted, map[], map[])
  }

  // ----- The invariant -----

  // A waiter for the current count is being served, and one for an earlier count has been told.
  ghost predicate Served(s: State, w: nat)
    requires w in s.waiters
  {
    && s.waiters[w].count <= s.flags.finished
    && (s.waiters[w].count == s.flags.finished && !s.looper.Exited? ==> s.flags.requested || s.flags.running)
    && (s.waiters[w].count < s.flags.finished ==> s.waiters[w].woken)
  }

  ghost predicate Inv(s: State) {
    && (s.flags.running <==> s.looper.Cycling?)
    && (s.looper.Exited? ==> s.flags.shuttingDown)
    && (s.looper.Parked? ==> !s.flags.requested)
    && (forall w :: w in s.waiters ==> Served(s, w))
    && (forall x :: x in s.excls && s.excls[x] == ExclBody ==> !s.flags.running)
    && (forall x, y :: x in s.excls && y in s.excls && s.excls[x] == ExclBody && s.excls[y] == ExclBody ==> x == y)
  }

  lemma NextInv(s: State, e: Event)
    requires Inv(s) && Enabled(s, e)
    ensures Inv(Next(s, e))
  {
  }

  predicate Run(s: State, es: seq<Event>, s': State)
    decreases |es|
  {
    if es == [] then s' == s
    else Enabled(s, es[0]) && Run(Next(s, es[0]), es[1..], s')
  }

  lemma {:induction false} RunInv(s: State, es: seq<Event>, s': State)
    requires Inv(s) && Run(s, es, s')
    ensures Inv(s')
    decreases |es|
  {
    hide Inv, Enabled, Next;
    if es != [] {
      NextInv(s, es[0]);
      RunInv(Next(s, es[0]), es[1..], s');
    }
  }

  // No request is lost: over any run, as long as the looper has not exited, whoever waits for the
  // current count has a cycle requested or in progress; a requested cycle never finds the looper
  // asleep; and an exclusive body never runs beside a cycle.
  lemma NoLostRequest(es: seq<Event>, s: State)
    requires Run(Start(), es, s)
    ensures forall w :: w in s.waiters && s.waiters[w].count == s.flags.finished && !s.looper.Exited? ==>
      s.flags.requested || s.flags.running
    ensures s.flags.requested ==> !s.looper.Parked?
    ensures forall x :: x in s.excls && s.excls[x] == ExclBody ==> !s.looper.Cycling?
  {
    assert Inv(Start());
    RunInv(Start(), es, s);
    assert forall w :: w in s.waiters ==> Served(s, w);
  }

  // The cycles that have finished.
  function Finished(es: seq<Event>): nat {
    if es == [] then 0 else (if es[0].FinishCycle? then 1 else 0) + Finished(es[1..])
  }

  lemma {:induction false} FinishedCounts(s: State, es: seq<Event>, s': State)
    requires Run(s, es, s')
    ensures s'.flags.finished == s.flags.finished + Finished(es)
    decreases |es|
  {
    if es != [] { FinishedCounts(Next(s, es[0]), es[1..], s'); }
  }

  // A waiter stays as long as no cycle finishes, whoever wakes it.
  lemma {:induction false} StaysWaiting(s: State, es: seq<Event>, s': State, w: nat)
    requires w in s.waiters && s.waiters[w].count == s.flags.finished && Run(s, es, s') && Finished(es) == 0
    ensures w in s'.waiters && s'.waiters[w].count == s'.flags.finished == s.flags.finished
    decreases |es|
  {
    if es != [] { StaysWaiting(Next(s, es[0]), es[1..], s', w); }
  }

  // So a request does not return before a cycle has finished after it.
  lemma RequestWaits(s: State, w: nat, es: seq<Event>, s': State)
    requires Enabled(s, Request(w)) && Run(Next(s, Request(w)), es, s')
    ensures Next(s, Request(w)).flags.requested && w in Next(s, Request(w)).waiters
    ensures s'.flags.finished == s.flags.finished ==> w in s'.waiters && s'.waiters[w].count == s.flags.finished
    ensures w !in s'.waiters ==> FinishCycle in es
  {
    hide Finished;
    FinishedCounts(Next(s, Request(w)), es, s');
    if Finished(es) == 0 { StaysWaiting(Next(s, Request(w)), es, s', w); } else { SomeFinished(es); }
  }

  lemma {:induction false} SomeFinished(es: seq<Event>)
    requires Finished(es) > 0
    ensures FinishCycle in es
  {
    if !es[0].FinishCycle? { SomeFinished(es[1..]); }
  }

  // ----- As many cycles as were asked for -----

  function Begun(s: State): nat {
    s.flags.finished + if s.flags.running then 1 else 0
  }

  function Requests(es: seq<Event>): nat {
    if es == [] then 0 else (if es[0].Request? then 1 else 0) + Requests(es[1..])
  }

  function Owed(s: State): nat {
    Begun(s) + if s.flags.requested then 1 else 0
  }

  // No cycle is run that nobody asked for: each one takes a request away.
  lemma {:induction false} NoSpuriousCycle(s: State, es: seq<Event>, s': State)
    requires Inv(s) && Run(s, es, s')
    ensures Begun(s) <= Begun(s') <= Owed(s') <= Owed(s) + Requests(es)
    decreases |es|
  {
    if es != [] {
      NextInv(s, es[0]);
      NoSpuriousCycle(Next(s, es[0]), es[1..], s');
    }
  }

  // From the start, then, as many cycles have begun or are asked for as there were requests, at most.
  lemma CyclesAskedFor(es: seq<Event>, s: State)
    requires Run(Start(), es, s)
    ensures Begun(s) <= Owed(s) <= Requests(es)
  {
    assert Inv(Start()) && Owed(Start()) == 0;
    NoSpuriousCycle(Start(), es, s);
  }

  // A request is kept until a cycle begins for it, unless it is cleared; also one made while a cycle
  // runs.
  lemma {:induction false} RequestKept(s: State, es: seq<Event>, s': State)
    requires Inv(s) && s.flags.requested && Run(s, es, s') && ClearRequest !in es
    ensures s'.flags.requested || Begun(s') > Begun(s)
    decreases |es|
  {
    if es != [] {
      NextInv(s, es[0]);
      if Next(s, es[0]).flags.requested {
        RequestKept(Next(s, es[0]), es[1..], s');
      }
      NoSpuriousCycle(Next(s, es[0]), es[1..], s');
    }
  }

  // Once it is cleared no further cycle begins until there is a new request.
  lemma ClearedStays(s: State, es: seq<Event>, s': State)
    requires Inv(s) && Enabled(s, ClearRequest) && Run(Next(s, ClearRequest), es, s') && Requests(es) == 0
    ensures Begun(s') == Begun(s) && !s'.flags.requested
    ensures FinishCycle in es ==> !s'.looper.Cycling?
  {
    NextInv(s, ClearRequest);
    NoSpuriousCycle(Next(s, ClearRequest), es, s');
    FinishedCounts(Next(s, ClearRequest), es, s');
    RunInv(Next(s, ClearRequest), es, s');
    if FinishCycle in es { CountsFinish(es); }
  }

  lemma {:induction false} CountsFinish(es: seq<Event>)
    requires FinishCycle in es
    ensures Finished(es) > 0
  {
    if !es[0].FinishCycle? { CountsFinish(es[1..]); }
  }

  // Clearing the request is safe exactly because a cycle is in progress, which will raise the
  // count: done at any other time it keeps the promise if and only if nobody waits for it.
  lemma ClearSafeIff(s: State)
    requires Inv(s) && !s.looper.Exited?
    ensures Inv(s.(flags := s.flags.(requested := false)))
       <==> s.flags.running || forall w :: w in s.waiters ==> s.waiters[w].count < s.flags.finished
  {
    var s' := s.(flags := s.flags.(requested := false));
    assert forall w :: w in s.waiters ==> Served(s, w);
    if s.flags.running || forall w :: w in s.waiters ==> s.waiters[w].count < s.flags.finished {
      assert forall w :: w in s'.waiters ==> Served(s', w);
    } else {
      var w :| w in s.waiters && s.waiters[w].count >= s.flags.finished;
      assert !Served(s', w);
    }
  }

  // The loop has ended, or will at its first test.
  predicate Ending(s: State) {
    s.looper.Exited? || (s.looper.NotStarted? && s.flags.shuttingDown)
  }

  // Unless the loop is ending a waiter has a short way out: the looper takes the request, the
  // cycle ends, and the waiter looks.
  lemma WaiterCanLeave(s: State, w: nat) returns (es: seq<Event>, s': State)
    requires Inv(s) && w in s.waiters && LockFree(s)
    requires s.waiters[w].count < s.flags.finished || !Ending(s)
    ensures Run(s, es, s') && w !in s'.waiters && |es| <= 3
    ensures forall e :: e in es ==> e == LooperStart || e == LooperCheck || e == FinishCycle || e == WaiterCheck(w)
  {
    assert Served(s, w);
    if s.waiters[w].count < s.flags.finished {
      es, s' := [WaiterCheck(w)], Next(s, WaiterCheck(w));
      RunOne(s, WaiterCheck(w));
    } else if s.looper.Cycling? {
      es, s' := CycleReleases(s, w);
    } else {
      var e := if s.looper.NotStarted? then LooperStart else LooperCheck;
      assert Enabled(s, e) && Next(s, e).looper.Cycling?;
      NextInv(s, e);
      es, s' := CycleReleases(Next(s, e), w);
      es := [e] + es;
    }
  }

  // If it is, a waiter for the current count stays for ever.
  lemma {:induction false} ExitStrands(s: State, es: seq<Event>, s': State, w: nat)
    requires Inv(s) && Ending(s) && w in s.waiters && s.waiters[w].count == s.flags.finished && Run(s, es, s')
    ensures Ending(s') && w in s'.waiters && s'.waiters[w].count == s'.flags.finished
    decreases |es|
  {
    if es != [] {
      NextInv(s, es[0]);
      ExitStrands(Next(s, es[0]), es[1..], s', w);
    }
  }

  predicate Returns(s: State, w: nat, es: seq<Event>, s': State) {
    Run(s, es, s') && w !in s'.waiters
  }

  // Exactly when a waiter can return.
  lemma WaiterReturnsIff(s: State, w: nat)
    requires Inv(s) && w in s.waiters
    ensures (exists es, s' :: Returns(s, w, es, s'))
       <==> s.waiters[w].count < s.flags.finished || !Ending(s)
  {
    assert Served(s, w);
    if s.waiters[w].count < s.flags.finished || !Ending(s) {
      if LockFree(s) {
        var es, s' := WaiterCanLeave(s, w);
        assert Returns(s, w, es, s');
      } else {
        var x :| x in s.excls && s.excls[x] == ExclBody;
        NextInv(s, ExclLeave(x));
        var es, s' := WaiterCanLeave(Next(s, ExclLeave(x)), w);
        assert ([ExclLeave(x)] + es)[1..] == es;
        assert Returns(s, w, [ExclLeave(x)] + es, s');
      }
    } else {
      forall es, s' | Run(s, es, s') ensures !Returns(s, w, es, s') {
        ExitStrands(s, es, s', w);
      }
    }
  }

  lemma RunOne(s: State, e: Event)
    requires Enabled(s, e)
    ensures Run(s, [e], Next(s, e))
  {
    assert [e][1..] == [];
  }

  lemma CycleReleases(s: State, w: nat) returns (es: seq<Event>, s': State)
    requires Inv(s) && w in s.waiters && s.looper.Cycling? && LockFree(s)
    ensures Run(s, es, s') && w !in s'.waiters && es == [FinishCycle, WaiterCheck(w)]
  {
    assert Served(s, w);
    var s1 := Next(s, FinishCycle);
    assert Enabled(s1, WaiterCheck(w));
    s' := Next(s1, WaiterCheck(w));
    es := [FinishCycle, WaiterCheck(w)];
    RunOne(s1, WaiterCheck(w));
    assert es[1..] == [WaiterCheck(w)];
  }

  // ----- Shutting down -----

  predicate NoRequest(es: seq<Event>) {
    forall i :: 0 <= i < |es| ==> !es[i].Request?
  }

  predicate Waits(s: State) {
    (s.looper.Parked? || s.looper.Woken?) && !s.flags.requested
  }

  // A looper that waits with no request outstanding is not stopped by a shutdown: it only looks
  // at the shutdown flag after a cycle, so it waits until somebody asks for one.
  lemma {:induction false} WaitingLooperStays(s: State, es: seq<Event>, s': State)
    requires Waits(s) && NoRequest(es) && Run(s, es, s')
    ensures Waits(s')
    decreases |es|
  {
    if es != [] {
      assert forall i :: 0 <= i < |es[1..]| ==> es[1..][i] == es[i + 1];
      WaitingLooperStays(Next(s, es[0]), es[1..], s');
    }
  }

  // So a shutdown ends the looper without a further request if and only if a cycle is requested
  // or in progress, or the looper has not come to its first test, or it has ended already.
  lemma ShutdownEndsIff(s: State)
    requires Inv(s) && LockFree(s)
    ensures (exists es, s' :: Run(Next(s, Shutdown), es, s') && NoRequest(es) && s'.looper.Exited?)
       <==> s.flags.requested || s.flags.running || s.looper.NotStarted? || s.looper.Exited?
  {
    var s0 := Next(s, Shutdown);
    NextInv(s, Shutdown);
    if s.looper.Exited? {
      assert Run(s0, [], s0) && NoRequest([]);
    } else if s.looper.NotStarted? {
      RunOne(s0, LooperStart);
      assert NoRequest([LooperStart]);
    } else if s.flags.running {
      RunOne(s0, FinishCycle);
      assert NoRequest([FinishCycle]);
    } else if s.flags.requested {
      var s1 := Next(s0, LooperCheck);
      RunOne(s1, FinishCycle);
      var es := [LooperCheck, FinishCycle];
      assert es[1..] == [FinishCycle] && Run(s0, es, Next(s1, FinishCycle)) && NoRequest(es);
    } else {
      forall es, s' | Run(s0, es, s') && NoRequest(es) ensures !s'.looper.Exited? {
        WaitingLooperStays(s0, es, s');
      }
    }
  }

  // ----- Exclusive callers -----

  predicate Quiet(es: seq<Event>) {
    forall i :: 0 <= i < |es| ==> !es[i].Request? && !es[i].Shutdown?
  }

  // The end of a cycle notifies the other condition variable only: an exclusive caller that found
  // a cycle in progress stays where it is until the next request or shutdown.
  lemma {:induction false} ExclusiveNotWoken(s: State, es: seq<Event>, s': State, x: nat)
    requires x in s.excls && s.excls[x] == ExclParked && Quiet(es) && Run(s, es, s')
    ensures x in s'.excls && s'.excls[x] == ExclParked
    decreases |es|
  {
    if es != [] {
      assert forall i :: 0 <= i < |es[1..]| ==> es[1..][i] == es[i + 1];
      ExclusiveNotWoken(Next(s, es[0]), es[1..], s', x);
    }
  }

  // A request and a shutdown wake everyone who waits on the first condition variable.
  lemma NotifyWakes(s: State, e: Event)
    requires Enabled(s, e) && (e.Request? || e.Shutdown?)
    ensures var u := Next(s, e);
      && !u.looper.Parked? && u.excls.Keys == s.excls.Keys
      && forall x :: x in s.excls ==> u.excls[x] == if s.excls[x].ExclBody? then ExclBody else ExclWoken
  {
  }

  // A caller that tests gets in if and only if no cycle is running.
  lemma EntersIff(s: State, e: Event, x: nat)
    requires Enabled(s, e) && (e == ExclEnter(x) || e == ExclCheck(x))
    ensures var u := Next(s, e);
      && x in u.excls && (u.excls[x].ExclBody? <==> !s.flags.running) && !u.excls[x].ExclWoken?
      && u.flags == s.flags && u.looper == s.looper && u.waiters == s.waiters
      && u.excls == s.excls[x := u.excls[x]]
  {
  }

  // A loop or a caller that finds nothing for it goes back to sleep.
  lemma SleepsAgain(s: State, x: nat)
    ensures Enabled(s, LooperCheck) && !s.flags.requested ==>
      Next(s, LooperCheck) == s.(looper := Parked) && !Enabled(Next(s, LooperCheck), LooperCheck)
    ensures Enabled(s, ExclCheck(x)) && s.flags.running ==> !Enabled(Next(s, ExclCheck(x)), ExclCheck(x))
  {
  }

  // And when its body ends it is gone, and the lock is free for everyone.
  lemma LeavingFrees(s: State, x: nat)
    requires Inv(s) && Enabled(s, ExclLeave(x))
    ensures var u := Next(s, ExclLeave(x));
      && u.excls == s.excls - {x} && LockFree(u) && !LockFree(s)
      && u.flags == s.flags && u.looper == s.looper && u.waiters == s.waiters
  {
  }

  // A parked caller can be let in by a shutdown: three more steps at most.
  lemma ExclusiveCanEnter(s: State, x: nat) returns (es: seq<Event>, s': State)
    requires Inv(s) && LockFree(s) && x in s.excls
    ensures Run(s, es, s') && s'.excls.Keys == s.excls.Keys && s'.excls[x].ExclBody? && |es| <= 3 && NoRequest(es)
  {
    var s1 := Next(s, Shutdown);
    NextInv(s, Shutdown);
    var s2 := if s1.flags.running then Next(s1, FinishCycle) else s1;
    s' := Next(s2, ExclCheck(x));
    RunOne(s2, ExclCheck(x));
    es := [ExclCheck(x)];
    if s1.flags.running {
      assert ([FinishCycle] + es)[1..] == es;
      es := [FinishCycle] + es;
    }
    assert ([Shutdown] + es)[1..] == es;
    es := [Shutdown] + es;
  }

  // ----- The controller, updated in place -----

  // The four flags are the source's own; the thread positions stand for the callers.
  class GCController {
    var isRunning: bool
    var isRequested: bool
    var isShuttingDown: bool
    var finishedCount: nat
    var looper: Looper
    var waiters: map<nat, Waiter>
    var excls: map<nat, Excl>

    constructor ()
      ensures Now() == Start() && Inv(Now())
    {
      isRunning, isRequested, isShuttingDown, finishedCount := false, false, false, 0;
      looper, waiters, excls := NotStarted, map[], map[];
    }

    function Now(): State
      reads this
    {
      State(Flags(isRunning, isRequested, isShuttingDown, finishedCount), looper, waiters, excls)
    }

    method NotifyAll()
      modifies this`looper, this`excls
      ensures Now() == Notify(old(Now()))
    {
      if looper.Parked? {
        looper := Woken;
      }
      excls := map x | x in excls :: if excls[x] == ExclParked then ExclWoken else excls[x];
    }

    method StartAndWaitCycle(w: nat)
      requires Inv(Now()) && Enabled(Now(), Request(w))
      modifies this
      ensures Inv(Now()) && Now() == Next(old(Now()), Request(w))
    {
      NextInv(Now(), Request(w));
      var curCount := finishedCount;
      isRequested := true;
      waiters := waiters[w := Waiter(curCount, false)];
      NotifyAll();
    }

    method DoClearRequest()
      requires Inv(Now()) && Enabled(Now(), ClearRequest)
      modifies this
      ensures Inv(Now()) && Now() == Next(old(Now()), ClearRequest)
    {
      NextInv(Now(), ClearRequest);
      isRequested := false;
    }

    method DoShutdown()
      requires Inv(Now()) && Enabled(Now(), Shutdown)
      modifies this
      ensures Inv(Now()) && Now() == Next(old(Now()), Shutdown)
    {
      NextInv(Now(), Shutdown);
      isShuttingDown := true;
      NotifyAll();
    }

    // The head of the loop, with the lock held: exit, start a cycle, or wait.
    method LoopHead()
      modifies this`isRunning, this`isRequested, this`looper
      ensures Now() == TestShutdown(old(Now()))
    {
      if isShuttingDown {
        looper := Exited;
      } else if isRequested {
        isRunning, isRequested, looper := true, false, Cycling;
      } else {
        looper := Parked;
      }
    }

    method StartLooper()
      requires Inv(Now()) && Enabled(Now(), LooperStart)
      modifies this
      ensures Inv(Now()) && Now() == Next(old(Now()), LooperStart)
    {
      NextInv(Now(), LooperStart);
      LoopHead();
    }

    // The part of the loop from the end of one cycle to the start of the next or to the wait.
    method EndCycle()
      requires Inv(Now()) && Enabled(Now(), FinishCycle)
      modifies this
      ensures Inv(Now()) && Now() == Next(old(Now()), FinishCycle)
    {
      NextInv(Now(), FinishCycle);
      finishedCount := finishedCount + 1;
      isRunning := false;
      waiters := map w | w in waiters :: waiters[w].(woken := true);
      LoopHead();
    }

    // Runs the body only if no cycle is in progress; the lock it keeps holds the next one off.
    method RunExclusive(x: nat) returns (entered: bool)
      requires Inv(Now()) && Enabled(Now(), ExclEnter(x))
      modifies this`excls
      ensures Inv(Now()) && Now() == Next(old(Now()), ExclEnter(x))
      ensures entered <==> !isRunning
      ensures entered ==> forall e :: Enabled(Now(), e) ==> e == ExclLeave(x)
    {
      NextInv(Now(), ExclEnter(x));
      entered := !isRunning;
      excls := excls[x := if isRunning then ExclParked else ExclBody];
      assert entered ==> excls[x] == ExclBody;
    }

    // A waiter or an exclusive caller that was notified tests again, the loop does, or an exclusive
    // body ends.
    method Wake(e: Event)
      requires Inv(Now()) && Enabled(Now(), e) && (e.WaiterCheck? || e.LooperCheck? || e.ExclCheck? || e.ExclLeave?)
      modifies this
      ensures Inv(Now()) && Now() == Next(old(Now()), e)
    {
      NextInv(Now(), e);
      match e {
        case WaiterCheck(w) =>
          if waiters[w].count == finishedCount {
            waiters := waiters[w := waiters[w].(woken := false)];
          } else {
            waiters := waiters - {w};
          }
        case LooperCheck =>
          if isRequested {
            isRunning, isRequested, looper := true, false, Cycling;
          } else {
            looper := Parked;
          }
        case ExclCheck(x) => excls := excls[x := if isRunning then ExclParked else ExclBody];
        case ExclLeave(x) => excls := excls - {x};
      }
    }

    // Whatever is called and whoever wakes, in any order, each exactly when it can: a run of the
    // protocol, in which no request is lost and no exclusive body runs beside a cycle.
    method Serve(calls: seq<Event>) returns (ghost es: seq<Event>)
      requires Inv(Now())
      modifies this
      ensures Inv(Now()) && Run(old(Now()), es, Now()) && Now() == Calls(old(Now()), calls)
      ensures forall w :: w in waiters && waiters[w].count == finishedCount && !looper.Exited? ==>
        isRequested || isRunning
      ensures forall x :: x in excls && excls[x] == ExclBody ==> !isRunning
    {
      hide Run, Inv, Next, Calls;
      ghost var from := Now();
      es := [];
      RunNone(from);
      CallsSnoc(from, [], Shutdown);
      assert calls[..|calls|] == calls;
      for i := 0 to |calls|
        invariant Inv(Now()) && Run(from, es, Now()) && Now() == Calls(from, calls[..i])
      {
        var e := calls[i];
        assert calls[..i + 1] == calls[..i] + [e];
        CallsSnoc(from, calls[..i], e);
        if Enabled(Now(), e) {
          RunSnoc(from, es, Now(), e);
          match e {
            case Request(w) => StartAndWaitCycle(w);
            case ClearRequest => DoClearRequest();
            case Shutdown => DoShutdown();
            case LooperStart => StartLooper();
            case FinishCycle => EndCycle();
            case ExclEnter(x) => var entered := RunExclusive(x);
            case _ => Wake(e);
          }
          es := es + [e];
        }
      }
      NothingLost(Now());
    }
  }

  // Each call that can be made when it comes up takes effect, and the others none.
  function Calls(s: State, calls: seq<Event>): State
    decreases |calls|
  {
    if calls == [] then s else Calls(if Enabled(s, calls[0]) then Next(s, calls[0]) else s, calls[1..])
  }

  lemma {:induction false} CallsSnoc(s: State, calls: seq<Event>, e: Event)
    ensures var u := Calls(s, calls); Calls(s, calls + [e]) == if Enabled(u, e) then Next(u, e) else u
    ensures Calls(s, []) == s
    decreases |calls|
  {
    hide Enabled, Next;
    if calls == [] {
      assert [] + [e] == [e] && [e][1..] == [];
    } else {
      assert (calls + [e])[0] == calls[0] && (calls + [e])[1..] == calls[1..] + [e];
      CallsSnoc(if Enabled(s, calls[0]) then Next(s, calls[0]) else s, calls[1..], e);
    }
  }

  lemma NothingLost(s: State)
    requires Inv(s)
    ensures forall w :: w in s.waiters && s.waiters[w].count == s.flags.finished && !s.looper.Exited? ==>
      s.flags.requested || s.flags.running
    ensures forall x :: x in s.excls && s.excls[x] == ExclBody ==> !s.flags.running
  {
    assert forall w :: w in s.waiters ==> Served(s, w);
  }

  lemma RunNone(s: State)
    ensures Run(s, [], s)
  {
  }

  lemma {:induction false} RunSnoc(s: State, es: seq<Event>, s': State, e: Event)
    requires Run(s, es, s') && Enabled(s', e)
    ensures Run(s, es + [e], Next(s', e))
    decreases |es|
  {
    hide Next, Enabled;
    if es == [] {
      assert ([e])[1..] == [] && es + [e] == [e];
    } else {
      assert (es + [e])[0] == es[0] && (es + [e])[1..] == es[1..] + [e];
      RunSnoc(Next(s, es[0]), es[1..], s', e);
    }
  }
}
