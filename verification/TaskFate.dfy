/**
 What becomes of a task once the worker has handled it: when its endpoint takes it over, when the
 registry forgets it, and when no endpoint ever serves its port.
 */
module TaskFate {
  import opened Wrappers
  import opened Registry
  import opened Protocol
  import opened ProtocolInvariant
  import opened ProtocolTheorems
  import opened MediaServers

  /* ----- An endpoint left to its own steps ----- */

  lemma {:induction false} OneMore(s: State, steps: seq<Step>, cur: State, step: Step, pid: int)
    requires OwnSteps(steps, pid) && Run(s, steps) == Some(cur) && Enabled(cur, step) && OwnStep(step, pid)
    ensures OwnSteps(steps + [step], pid) && Run(s, steps + [step]) == Some(Apply(cur, step))
  {
    hide Run, Apply, Enabled;
    RunExtend(s, steps, step);
  }

  lemma {:induction false} Appended(s: State, first: seq<Step>, mid: State, rest: seq<Step>, last: State, pid: int)
    requires OwnSteps(first, pid) && Run(s, first) == Some(mid)
    requires OwnSteps(rest, pid) && Run(mid, rest) == Some(last)
    ensures OwnSteps(first + rest, pid) && Run(s, first + rest) == Some(last)
  {
    hide Run;
    RunConcat(s, first, rest);
  }

  // One field of a copy.
  lemma {:induction false} CopyOne(s: State, pid: int, slot: nat, k: nat, record: Data)
    requires InPhase(s, pid, Copying(slot, k)) && k < FIELDS
    requires RecordAt(s.table.used, slot) == Some(record) && FieldsBelow(s.procs[pid].conf, record, k)
    ensures var e, s' := s.procs[pid], Apply(s, Copy(pid));
            && pid in s'.procs && s' == SetProc(s, pid, s'.procs[pid])
            && s'.procs[pid] == e.(conf := s'.procs[pid].conf,
                                   phase := if k + 1 < FIELDS then Copying(slot, k + 1) else Waiting)
            && FieldsBelow(s'.procs[pid].conf, record, k + 1)
  {
  }

  lemma AllFields(conf: Data, record: Data)
    requires FieldsBelow(conf, record, FIELDS)
    ensures conf == record
  {
  }

  // The rest of a copy with nothing in between.
  lemma {:induction false} CopyAll(s: State, pid: int, slot: nat, k: nat, record: Data)
    returns (steps: seq<Step>, s': State)
    requires InPhase(s, pid, Copying(slot, k)) && k < FIELDS
    requires RecordAt(s.table.used, slot) == Some(record) && FieldsBelow(s.procs[pid].conf, record, k)
    ensures OwnSteps(steps, pid) && Run(s, steps) == Some(s')
    ensures s' == SetProc(s, pid, s.procs[pid].(conf := record, phase := Waiting))
    decreases FIELDS - k
  {
    assert Run(s, []) == Some(s);
    CopyOne(s, pid, slot, k, record);
    OneMore(s, [], s, Copy(pid), pid);
    var s1 := Apply(s, Copy(pid));
    hide Run, OwnSteps, Apply, RecordAt, FieldsBelow, Enabled;
    steps, s' := [] + [Copy(pid)], s1;
    if k + 1 == FIELDS {
      AllFields(s1.procs[pid].conf, record);
    } else {
      var rest, last := CopyAll(s1, pid, slot, k + 1, record);
      Appended(s, steps, s1, rest, last, pid);
      steps, s' := steps + rest, last;
    }
  }

  /** Fetching and copying with nothing in between is what `MediaEndpoint.HandleSignal` does in one go:
      the endpoint ends up waiting with its record as configuration. */
  lemma {:induction false} UninterruptedCopy(s: State, pid: int, n: nat) returns (steps: seq<Step>)
    requires Enabled(s, Fetch(pid))
    requires WellFormed(s.table, n)
    requires Lookup(s.table, s.procs[pid].conf.port).Some?
    ensures OwnSteps(steps, pid) && Run(s, steps).Some?
    ensures Run(s, steps).value == SetProc(s, pid, s.procs[pid].(
              conf := Lookup(s.table, s.procs[pid].conf.port).value.data, phase := Waiting))
  {
    var cell := Lookup(s.table, s.procs[pid].conf.port).value;
    RecordAtLookup(s.table, n, s.procs[pid].conf.port);
    assert Run(s, []) == Some(s);
    OneMore(s, [], s, Fetch(pid), pid);
    var s1 := Apply(s, Fetch(pid));
    hide Run, OwnSteps, Lookup, WellFormed, Apply, RecordAt;
    var rest, last := CopyAll(s1, pid, cell.slot, 0, cell.data);
    Appended(s, [] + [Fetch(pid)], s1, rest, last, pid);
    steps := [] + [Fetch(pid)] + rest;
  }

  lemma {:induction false} FetchAndCopy(s: State, pid: int, n: nat, ports: set<int>)
    returns (steps: seq<Step>, s': State)
    requires Inv(s, n, ports) && MutexFree(s) && InPhase(s, pid, Signalled)
    ensures OwnSteps(steps, pid) && Run(s, steps) == Some(s') && Inv(s', n, ports)
    ensures InPhase(s', pid, Waiting) && s' == SetProc(s, pid, s'.procs[pid])
    ensures s'.procs[pid].pending == s.procs[pid].pending && s'.procs[pid].port == s.procs[pid].port
  {
    FetchFindsOwnRecord(s, pid, n, ports);
    steps := UninterruptedCopy(s, pid, n);
    s' := Run(s, steps).value;
    assert EndpointOk(s.table, s.worker, pid, s.procs[pid]);
    LookupIsMember(s.table, s.procs[pid].port);
    hide Inv, Run, Lookup;
    LocalStep(s, pid, s'.procs[pid], n, ports);
  }

  // The rest of a copy.
  lemma {:induction false} FinishCopy(s: State, pid: int, n: nat, ports: set<int>)
    returns (steps: seq<Step>, s': State)
    requires Inv(s, n, ports) && pid in s.procs && s.procs[pid].phase.Copying?
    ensures OwnSteps(steps, pid) && Run(s, steps) == Some(s') && Inv(s', n, ports)
    ensures InPhase(s', pid, Waiting) && s' == SetProc(s, pid, s'.procs[pid])
    ensures s'.procs[pid].pending == s.procs[pid].pending && s'.procs[pid].port == s.procs[pid].port
    decreases FIELDS - s.procs[pid].phase.field
  {
    CopyKeeps(s, pid, n, ports);
    var s1 := Apply(s, Copy(pid));
    assert EndpointOk(s.table, s.worker, pid, s.procs[pid]);
    assert EndpointOk(s1.table, s1.worker, pid, s1.procs[pid]);
    assert Run(s, []) == Some(s);
    hide Inv, Run, Lookup;
    OneMore(s, [], s, Copy(pid), pid);
    if s1.procs[pid].phase.Waiting? {
      steps, s' := [] + [Copy(pid)], s1;
    } else {
      var rest, last := FinishCopy(s1, pid, n, ports);
      Appended(s, [] + [Copy(pid)], s1, rest, last, pid);
      steps, s' := [] + [Copy(pid)] + rest, last;
    }
  }

  // One signal is consumed.
  lemma {:induction false} ServesSignal(s: State, pid: int, n: nat, ports: set<int>)
    returns (steps: seq<Step>, s': State)
    requires Inv(s, n, ports) && MutexFree(s) && InPhase(s, pid, Waiting) && s.procs[pid].pending > 0
    ensures OwnSteps(steps, pid) && Run(s, steps) == Some(s') && Inv(s', n, ports)
    ensures InPhase(s', pid, Waiting) && s' == SetProc(s, pid, s'.procs[pid])
    ensures s'.procs[pid].pending == s.procs[pid].pending - 1 && s'.procs[pid].port == s.procs[pid].port
  {
    assert Run(s, []) == Some(s);
    hide Inv, Run;
    QuietKeeps(s, Consume(pid), n, ports);
    var s1 := Apply(s, Consume(pid));
    OneMore(s, [], s, Consume(pid), pid);
    var copying, last := FetchAndCopy(s1, pid, n, ports);
    Appended(s, [] + [Consume(pid)], s1, copying, last, pid);
    steps, s' := [] + [Consume(pid)] + copying, last;
  }

  /** Whatever signals are queued, a waiting endpoint left to its own steps consumes them all and
      ends up with the configuration its record asks for. */
  lemma {:induction false} CatchesUp(s: State, pid: int, n: nat, ports: set<int>)
    returns (steps: seq<Step>, s': State)
    requires Inv(s, n, ports) && s.worker.Idle? && InPhase(s, pid, Waiting)
    ensures OwnSteps(steps, pid) && Run(s, steps) == Some(s')
    ensures InPhase(s', pid, Waiting) && s'.procs[pid].pending == 0
    ensures s' == SetProc(s, pid, s'.procs[pid]) && s'.procs[pid].port == s.procs[pid].port
    ensures Lookup(s.table, s.procs[pid].port).Some?
    ensures Coherent(s'.procs[pid].conf, Lookup(s.table, s.procs[pid].port).value.data)
    decreases s.procs[pid].pending
  {
    assert EndpointOk(s.table, s.worker, pid, s.procs[pid]);
    assert Run(s, []) == Some(s);
    hide Inv, Run, Lookup, Coherent;
    if s.procs[pid].pending == 0 {
      steps, s' := [], s;
    } else {
      var first, s1 := ServesSignal(s, pid, n, ports);
      var rest, last := CatchesUp(s1, pid, n, ports);
      Appended(s, first, s1, rest, last, pid);
      steps, s' := first + rest, last;
    }
  }

  /* ----- When a signalled task is taken over ----- */

  // Still on its way to waiting for signals, or back to it.
  predicate CanAdopt(e: Endpoint) {
    || e.phase.Waiting? || e.phase.Signalled? || e.phase.Copying?
    || (e.phase.Starting? && ParseArguments(e.conf).Some?)
  }

  // From any of these phases its own steps lead to waiting.
  lemma {:induction false} ReachesWaiting(s: State, pid: int, n: nat, ports: set<int>)
    returns (steps: seq<Step>, s': State)
    requires Adequate(n, ports) && Inv(s, n, ports) && ProcsNamed(s, ports) && s.worker.Idle?
    requires pid in s.procs && CanAdopt(s.procs[pid])
    ensures OwnSteps(steps, pid) && Run(s, steps) == Some(s') && Inv(s', n, ports)
    ensures InPhase(s', pid, Waiting) && s' == SetProc(s, pid, s'.procs[pid])
    ensures s'.procs[pid].port == s.procs[pid].port
  {
    assert Run(s, []) == Some(s);
    match s.procs[pid].phase {
      case Starting =>
        StartKeeps(s, pid, n, ports);
        hide Inv, Run;
        OneMore(s, [], s, Start(pid), pid);
        steps, s' := [] + [Start(pid)], Apply(s, Start(pid));
      case Signalled =>
        steps, s' := FetchAndCopy(s, pid, n, ports);
      case Copying(_, _) =>
        steps, s' := FinishCopy(s, pid, n, ports);
      case Waiting =>
        hide Inv, Run;
        steps, s' := [], s;
        assert s == SetProc(s, pid, s.procs[pid]);
    }
  }

  // An endpoint in none of them stays so, whatever happens.
  lemma SpentStays(s: State, step: Step, pid: int)
    requires Enabled(s, step) && pid in s.procs && !CanAdopt(s.procs[pid])
    ensures pid in Apply(s, step).procs && !CanAdopt(Apply(s, step).procs[pid])
  {
    hide Update, Add, Remove, Lookup, ParseArguments;
  }

  /** An endpoint that has timed out, exited or was given arguments it rejects never waits again. */
  lemma {:induction false} SpentForever(s: State, steps: seq<Step>, pid: int)
    requires pid in s.procs && !CanAdopt(s.procs[pid]) && Run(s, steps).Some?
    ensures var s' := Run(s, steps).value; pid in s'.procs && !CanAdopt(s'.procs[pid])
    decreases |steps|
  {
    hide CanAdopt, Apply, Enabled;
    if steps == [] {
    } else {
      SpentStays(s, steps[0], pid);
      SpentForever(Apply(s, steps[0]), steps[1..], pid);
    }
  }

  // The endpoint's own steps bring it to wait for signals with what the task asks for.
  ghost predicate Adopts(s: State, steps: seq<Step>, pid: int, task: Data) {
    && OwnSteps(steps, pid) && Run(s, steps).Some?
    && var s' := Run(s, steps).value;
    && InPhase(s', pid, Waiting) && s'.procs[pid].pending == 0
    && Coherent(s'.procs[pid].conf, task)
  }

  // When the worker is idle, an endpoint reaches what its record asks for exactly from these phases.
  lemma {:induction false} AdoptsRecord(s: State, pid: int, n: nat, ports: set<int>)
    requires Adequate(n, ports) && Inv(s, n, ports) && ProcsNamed(s, ports) && s.worker.Idle?
    requires pid in s.procs && Lookup(s.table, s.procs[pid].port).Some?
    ensures var record := Lookup(s.table, s.procs[pid].port).value.data;
            (exists steps :: Adopts(s, steps, pid, record)) <==> CanAdopt(s.procs[pid])
  {
    var record := Lookup(s.table, s.procs[pid].port).value.data;
    hide Inv, Adequate, ProcsNamed, Lookup;
    if CanAdopt(s.procs[pid]) {
      var steps, s2 := ReachesWaiting(s, pid, n, ports);
      var rest, s3 := CatchesUp(s2, pid, n, ports);
      hide Run, OwnSteps, Coherent;
      Appended(s, steps, s2, rest, s3, pid);
      assert Adopts(s, steps + rest, pid, record);
    } else {
      forall steps ensures !Adopts(s, steps, pid, record) {
        if Run(s, steps).Some? { SpentForever(s, steps, pid); }
      }
    }
  }

  /** A task that the worker signals to an existing process is taken over by its endpoint exactly when
      that endpoint still waits for signals, handles one, or will parse its arguments. */
  lemma {:induction false} AdoptedExactly(n: nat, ports: set<int>, s: State)
    requires Adequate(n, ports) && Reachable(n, ports, s)
    requires s.worker.Updated? && Exists(s, s.worker.task.pid)
    ensures var task := s.worker.task;
            && LastTask(s.handled, task.port).Some? && SameRequest(task, LastTask(s.handled, task.port).value)
            && ((exists steps :: Adopts(Apply(s, Signal), steps, task.pid, task)) <==> CanAdopt(s.procs[task.pid]))
  {
    ReachableInv(n, ports, s);
    SignalledRecord(s, n, ports);
    StepKeeps(s, Signal, n, ports);
    SignalChangesPending(s);
    hide *;
    AdoptsRecord(Apply(s, Signal), s.worker.task.pid, n, ports);
  }

  // What the worker is about to signal is the record of the process, and the last task for its port.
  lemma SignalledRecord(s: State, n: nat, ports: set<int>)
    requires Inv(s, n, ports) && s.worker.Updated?
    ensures var task := s.worker.task;
            && Lookup(s.table, task.port).Some? && Lookup(s.table, task.port).value.data == task
            && task.pid in s.procs && s.procs[task.pid].port == task.port
            && LastTask(s.handled, task.port).Some? && SameRequest(task, LastTask(s.handled, task.port).value)
  {
    LookupIsMember(s.table, s.worker.task.port);
  }

  lemma SignalChangesPending(s: State)
    requires s.worker.Updated? && Exists(s, s.worker.task.pid)
    ensures var s1, pid := Apply(s, Signal), s.worker.task.pid;
            && s1.worker.Idle? && s1.table == s.table && pid in s1.procs
            && s1.procs[pid].port == s.procs[pid].port
            && (CanAdopt(s1.procs[pid]) <==> CanAdopt(s.procs[pid]))
  {
  }

  /* ----- When a task replaces a process ----- */

  // What makes an endpoint accept the arguments of a task.
  predicate Usable(d: Data) {
    d.duration != 0 && d.port % 65536 != 0 && d.destPort % 65536 != 0
  }

  lemma UsableParses(d: Data)
    ensures ParseArguments(d).Some? <==> Usable(d)
  {
  }

  // A task equal in everything the client asked for is taken over alike.
  lemma {:induction false} AdoptsAlike(s: State, pid: int, a: Data, b: Data)
    requires SameRequest(a, b)
    ensures (exists steps :: Adopts(s, steps, pid, a)) <==> (exists steps :: Adopts(s, steps, pid, b))
  {
    assert forall conf :: Coherent(conf, a) <==> Coherent(conf, b);
    hide Coherent, Run;
    if steps :| Adopts(s, steps, pid, a) { assert Adopts(s, steps, pid, b); }
    if steps :| Adopts(s, steps, pid, b) { assert Adopts(s, steps, pid, a); }
  }

  lemma {:induction false} RoomForTask(n: nat, ports: set<int>, s: State)
    requires Adequate(n, ports) && Inv(s, n, ports) && ProcsNamed(s, ports) && s.worker.Idle? && s.queue != []
    ensures Lookup(s.table, s.queue[0].port).Some? || |s.table.used| < n
  {
    if Lookup(s.table, s.queue[0].port).None? {
      StepKeeps(s, Pop, n, ports);
      var s1 := Apply(s, Pop);
      StepKeeps(s1, Look, n, ports);
      RoomToAdd(Apply(s1, Look), n, ports);
      assert |Chain(s.table)| == n;
    }
  }

  lemma {:induction false} TransactionKeeps(n: nat, ports: set<int>, s: State, outcome: Option<int>)
    requires Adequate(n, ports) && Inv(s, n, ports) && ProcsNamed(s, ports) && s.worker.Idle? && s.queue != []
    requires outcome.Some? ==> outcome.value !in s.procs
    ensures Inv(Transaction(s, outcome), n, ports) && ProcsNamed(Transaction(s, outcome), ports)
  {
    var steps := TransactionIsRun(s, outcome);
    hide Inv, ProcsNamed, Run, Transaction, Adequate;
    assert Names(steps, ports);
    RunKeeps(s, steps, n, ports);
  }

  /** A task whose port has no existing process (unlisted, or listed under one that was waited for)
      leaves the port listed under the new process, when the fork succeeds; and that process takes the
      task over by its own steps exactly when the task has a duration and ports that are not zero in
      16 bits. */
  lemma {:induction false} ReplacedExactly(n: nat, ports: set<int>, s: State, pid: int)
    requires Adequate(n, ports) && Reachable(n, ports, s) && s.worker.Idle? && s.queue != []
    requires ProcessOf(s, s.queue[0].port).None? && pid !in s.procs
    ensures var task, s' := s.queue[0], Transaction(s, Some(pid));
            && Lookup(s'.table, task.port).Some? && Lookup(s'.table, task.port).value.data == task.(pid := pid)
            && s'.procs == s.procs[pid := Endpoint(task.port, task.(pid := pid), 0, Starting)]
            && ((exists steps :: Adopts(s', steps, pid, task)) <==> Usable(task))
  {
    ReachableInv(n, ports, s);
    RoomForTask(n, ports, s);
    TransactionServes(s, n, Some(pid));
    TransactionKeeps(n, ports, s, Some(pid));
    hide Inv, Adequate, ProcsNamed, Transaction, Lookup, Reachable, Adopts, ParseArguments, Usable;
    var task, s' := s.queue[0], Transaction(s, Some(pid));
    UsableParses(task.(pid := pid));
    AdoptsRecord(s', pid, n, ports);
    AdoptsAlike(s', pid, task.(pid := pid), task);
    SameUsable(task, pid);
  }

  lemma SameUsable(task: Data, pid: int)
    ensures Usable(task.(pid := pid)) <==> Usable(task)
  {
  }

  /** A process can crash whenever it has not ended, whatever it is doing and whoever holds the mutex. */
  lemma CanCrash(s: State, pid: int)
    requires pid in s.procs && !s.procs[pid].phase.Exited? && !s.procs[pid].phase.Gone?
    ensures Enabled(s, Crash(pid))
  {
  }

  /** No endpoint reads or changes the registry between the worker's lookup and the end of its section. */
  lemma SectionsExclude(s: State, pid: int)
    requires s.worker.Updated? || s.worker.Relaunching?
    ensures !Enabled(s, Fetch(pid)) && !Enabled(s, Deregister(pid))
  {
  }

  /** In every run, a process exists from its launch until it is waited for, has ended once it crashed or
      exited, and before that is on its way out once it timed out. */
  lemma {:induction false} ExistsUntilReaped(n: nat, steps: seq<Step>, pid: int)
    requires Run(Init(n), steps).Some?
    ensures var s := Run(Init(n), steps).value;
            && (pid in s.procs <==> Launch(pid) in steps)
            && (Exists(s, pid) <==> Launch(pid) in steps && Reap(pid) !in steps)
            && (Reap(pid) in steps ==> Launch(pid) in steps)
            && (Crash(pid) in steps || Exit(pid) in steps ==>
                  pid in s.procs && (s.procs[pid].phase.Exited? || s.procs[pid].phase.Gone?))
            && (Crash(pid) !in steps && Exit(pid) !in steps ==>
                  && (Deregister(pid) in steps ==> InPhase(s, pid, Deregistered))
                  && (TimeOut(pid) in steps && Deregister(pid) !in steps ==> InPhase(s, pid, TimedOut)))
    decreases |steps|
  {
    if steps == [] {
    } else {
      var front, last := steps[..|steps|-1], steps[|steps|-1];
      RunLast(Init(n), steps);
      ExistsUntilReaped(n, front, pid);
      hide Run, Exists, InPhase;
      InRun(steps, Launch(pid));
      InRun(steps, Reap(pid));
      InRun(steps, Crash(pid));
      InRun(steps, Exit(pid));
      InRun(steps, Deregister(pid));
      InRun(steps, TimeOut(pid));
      ProcessStep(Run(Init(n), front).value, last, pid);
    }
  }

  lemma InRun(steps: seq<Step>, step: Step)
    requires steps != []
    ensures step in steps <==> step in steps[..|steps|-1] || step == steps[|steps|-1]
  {
    assert steps == steps[..|steps|-1] + [steps[|steps|-1]];
  }

  // What one step does to one process, as far as its existence goes.
  lemma ProcessStep(s: State, step: Step, pid: int)
    requires Enabled(s, step)
    ensures var s' := Apply(s, step);
            && (pid in s'.procs <==> pid in s.procs || step == Launch(pid))
            && (Exists(s', pid) <==> (Exists(s, pid) || step == Launch(pid)) && step != Reap(pid))
            && (step == Reap(pid) ==> pid in s.procs)
            && (pid in s.procs && (s.procs[pid].phase.Exited? || s.procs[pid].phase.Gone?) ==>
                  s'.procs[pid].phase.Exited? || s'.procs[pid].phase.Gone?)
            && (step == Crash(pid) || step == Exit(pid) ==> pid in s.procs && s'.procs[pid].phase.Exited?)
            && (step == TimeOut(pid) ==> InPhase(s', pid, TimedOut))
            && (step == Deregister(pid) ==> InPhase(s', pid, Deregistered))
            && (InPhase(s, pid, Deregistered) && step != Crash(pid) && step != Exit(pid) ==>
                  InPhase(s', pid, Deregistered))
            && (InPhase(s, pid, TimedOut) && step != Crash(pid) && step != Deregister(pid) ==>
                  InPhase(s', pid, TimedOut))
  {
    hide Lookup, Update, Remove, Add, ParseArguments;
  }

  /** A port whose listed process was waited for is served again by the next task for it, when the
      fork succeeds. */
  lemma {:induction false} ReapedIsReplaced(n: nat, ports: set<int>, steps: seq<Step>, pid: int)
    requires Adequate(n, ports) && Names(steps, ports) && Run(Init(n), steps).Some?
    requires var s := Run(Init(n), steps).value;
             && s.worker.Idle? && s.queue != [] && pid !in s.procs
             && Lookup(s.table, s.queue[0].port).Some?
             && Reap(Lookup(s.table, s.queue[0].port).value.data.pid) in steps
    ensures var s := Run(Init(n), steps).value;
            var task, s' := s.queue[0], Transaction(s, Some(pid));
            && Lookup(s'.table, task.port).Some? && Lookup(s'.table, task.port).value.data == task.(pid := pid)
            && s'.procs == s.procs[pid := Endpoint(task.port, task.(pid := pid), 0, Starting)]
            && ((exists more :: Adopts(s', more, pid, task)) <==> Usable(task))
  {
    var s := Run(Init(n), steps).value;
    ExistsUntilReaped(n, steps, Lookup(s.table, s.queue[0].port).value.data.pid);
    assert ProcessOf(s, s.queue[0].port).None?;
    assert Reachable(n, ports, s);
    hide *;
    ReplacedExactly(n, ports, s, pid);
  }

  /* ----- When the registry forgets a task ----- */

  // The last task naming the port was among the first tasks already.
  predicate SinceLast(first: seq<Data>, tasks: seq<Data>, port: int) {
    && first <= tasks && LastTask(first, port).Some?
    && forall k :: |first| <= k < |tasks| ==> tasks[k].port != port
  }

  // The worker is not in the middle of a task for the port.
  predicate Settled(w: Worker, port: int) {
    !w.Idle? ==> w.task.port != port
  }

  // The step drops the last task of the port: its fork fails, or the listed endpoint deregisters.
  predicate Drops(s: State, step: Step, port: int) {
    || (step.LaunchFails? && s.worker.Relaunching? && s.worker.task.port == port)
    || (step.Deregister? && Listed(s.table, port, step.pid) && step.pid in s.procs && s.procs[step.pid].port == port
        && !TaskInHand(s.worker, port))
  }

  // Step i of the run dropped the port, and no task for it was handled since.
  ghost predicate DroppedAt(n: nat, steps: seq<Step>, i: nat, tasks: seq<Data>, port: int) {
    && i < |steps| && Run(Init(n), steps[..i]).Some?
    && var s := Run(Init(n), steps[..i]).value;
    Enabled(s, steps[i]) && Drops(s, steps[i], port) && SinceLast(s.handled, tasks, port)
  }

  lemma {:induction false} SinceLastSame(first: seq<Data>, tasks: seq<Data>, port: int)
    requires first <= tasks && forall k :: |first| <= k < |tasks| ==> tasks[k].port != port
    ensures LastTask(first, port) == LastTask(tasks, port)
    decreases |tasks|
  {
    if first == tasks {
    } else {
      var front := tasks[..|tasks|-1];
      assert tasks == front + [tasks[|tasks|-1]];
      SinceLastSame(first, front, port);
    }
  }

  // One step back in a run: dropped before it, and no task for the port handled by it.
  lemma {:induction false} DroppedEarlier(n: nat, steps: seq<Step>, i: nat, port: int)
    requires steps != [] && Run(Init(n), steps).Some? && i < |steps| - 1
    ensures var front := steps[..|steps|-1];
            && Run(Init(n), front).Some?
            && var s0, s := Run(Init(n), front).value, Run(Init(n), steps).value;
            DroppedAt(n, steps, i, s.handled, port) <==>
            (DroppedAt(n, front, i, s0.handled, port)
             && !PopsFor(s0, steps[|steps|-1], port))
  {
    var front, last := steps[..|steps|-1], steps[|steps|-1];
    RunLast(Init(n), steps);
    var s0, s := Run(Init(n), front).value, Run(Init(n), steps).value;
    assert front[..i] == steps[..i] && front[i] == steps[i];
    var prefix := steps[..i];
    assert front == prefix + front[i..];
    if Run(Init(n), prefix).Some? {
      var si := Run(Init(n), prefix).value;
      RunConcat(Init(n), prefix, front[i..]);
      HandledPrefix(si, front[i..]);
      hide Run, Enabled, Drops, Apply, LastTask;
      SinceLastStep(si.handled, s0, last, port);
    }
  }

  // The step takes a task for the port off the queue.
  predicate PopsFor(s: State, step: Step, port: int) {
    step.Pop? && s.queue != [] && s.queue[0].port == port
  }

  lemma HandledGrows(s: State, step: Step)
    requires Enabled(s, step)
    ensures Apply(s, step).handled == if step.Pop? then s.handled + [s.queue[0]] else s.handled
  {
  }

  lemma SinceLastStep(first: seq<Data>, s: State, step: Step, port: int)
    requires first <= s.handled && Enabled(s, step)
    ensures SinceLast(first, Apply(s, step).handled, port) <==>
            SinceLast(first, s.handled, port) && !PopsFor(s, step, port)
  {
    HandledGrows(s, step);
    var after := Apply(s, step).handled;
    hide Apply, LastTask;
    if step.Pop? {
      assert after[|s.handled|] == s.queue[0];
      assert forall k :: 0 <= k < |s.handled| ==> after[k] == s.handled[k];
    }
  }

  lemma {:induction false} HandledPrefix(s: State, steps: seq<Step>)
    requires Run(s, steps).Some?
    ensures s.handled <= Run(s, steps).value.handled
    decreases |steps|
  {
    hide Apply, Enabled;
    if steps == [] {
    } else {
      HandledGrows(s, steps[0]);
      HandledPrefix(Apply(s, steps[0]), steps[1..]);
    }
  }

  // A port that is dropped stays absent, and the worker off it, while no task names it.
  lemma AbsentStays(s: State, step: Step, n: nat, ports: set<int>, port: int)
    requires Inv(s, n, ports) && |ports| <= n && Enabled(s, step)
    requires Lookup(s.table, port).None? && Settled(s.worker, port)
    requires !PopsFor(s, step, port)
    ensures Lookup(Apply(s, step).table, port).None? && Settled(Apply(s, step).worker, port)
  {
    match step {
      case Look =>
        if Lookup(s.table, s.worker.task.port).Some? { LookupAfterUpdate(s.table, Apply(s, step).worker.task, port); }
      case Signal =>
        hide Lookup, Remove;
        LookupAfterRemove(s.table, port, s.worker.task.port);
      case Launch(pid) =>
        LookupAfterAdd(s.table, s.worker.task.(pid := pid), port);
      case Deregister(pid) =>
        RemoveKeepsMembers(s.table, s.procs[pid].conf.port);
        if s.procs[pid].conf.port != port { LookupAfterRemove(s.table, port, s.procs[pid].conf.port); }
      case _ =>
    }
  }

  lemma DropLeavesAbsent(s: State, step: Step, n: nat, ports: set<int>, port: int)
    requires Inv(s, n, ports) && Enabled(s, step) && Drops(s, step, port)
    ensures Lookup(Apply(s, step).table, port).None? && Settled(Apply(s, step).worker, port)
  {
    if step.Deregister? {
      assert EndpointOk(s.table, s.worker, step.pid, s.procs[step.pid]);
      RemoveKeepsMembers(s.table, port);
    }
  }

  // When a settled port is absent after a step, the step dropped it or it was so before.
  lemma AbsentBefore(s: State, step: Step, n: nat, ports: set<int>, port: int)
    requires Adequate(n, ports) && Inv(s, n, ports) && Enabled(s, step)
    requires Lookup(Apply(s, step).table, port).None? && Settled(Apply(s, step).worker, port)
    ensures Drops(s, step, port) || (Lookup(s.table, port).None? && Settled(s.worker, port))
    ensures !PopsFor(s, step, port)
  {
    if Lookup(s.table, port).Some? {
      LossOfInv(n, ports, s, step, port);
      LookupIsMember(s.table, port);
    } else {
      match step {
        case Launch(pid) =>
          RoomToAdd(s, n, ports);
          var d := s.worker.task.(pid := pid);
          AddKeepsMembers(s.table, d);
        case _ =>
      }
    }
  }

  lemma {:induction false} LastTaskBefore(s: State, step: Step, port: int)
    requires Enabled(s, step) && !PopsFor(s, step, port)
    ensures LastTask(Apply(s, step).handled, port) == LastTask(s.handled, port)
  {
    HandledGrows(s, step);
    hide Apply, LastTask;
    if step.Pop? { LastTaskAppend(s.handled, s.queue[0], port); }
  }

  // A port named by a handled task, unlisted, with the worker not on it.
  predicate Forgotten(s: State, port: int) {
    LastTask(s.handled, port).Some? && Lookup(s.table, port).None? && Settled(s.worker, port)
  }

  /** In every run: the registry has forgotten a port whose task was handled exactly when, since the
      last task handled for it, a fork for it failed or its listed endpoint deregistered. */
  lemma {:induction false} ForgottenExactly(n: nat, ports: set<int>, steps: seq<Step>, port: int)
    requires Adequate(n, ports) && Names(steps, ports) && Run(Init(n), steps).Some?
    ensures var s := Run(Init(n), steps).value;
            Forgotten(s, port) <==> exists i: nat :: DroppedAt(n, steps, i, s.handled, port)
    decreases |steps|
  {
    if steps == [] {
      assert LastTask([], port).None?;
    } else {
      var front, last := steps[..|steps|-1], steps[|steps|-1];
      RunLast(Init(n), steps);
      assert Names(front, ports);
      FromInit(n, ports, front);
      var s0, s := Run(Init(n), front).value, Run(Init(n), steps).value;
      ForgottenExactly(n, ports, front, port);
      hide Run, Inv, Adequate, Names, Apply, Enabled;
      if Forgotten(s, port) { ForgottenSince(n, ports, steps, s0, s, port); }
      if i: nat :| DroppedAt(n, steps, i, s.handled, port) {
        ForgottenAfter(n, ports, steps, i, s0, s, port);
      }
    }
  }

  // The last step of a run that ends with the port forgotten.
  lemma {:induction false} ForgottenSince(n: nat, ports: set<int>, steps: seq<Step>, s0: State, s: State, port: int)
    requires steps != [] && Adequate(n, ports) && Inv(s0, n, ports)
    requires var front, last := steps[..|steps|-1], steps[|steps|-1];
             && Run(Init(n), front) == Some(s0) && Enabled(s0, last) && s == Apply(s0, last)
             && Run(Init(n), steps) == Some(s)
             && (Forgotten(s0, port) ==> exists i: nat :: DroppedAt(n, front, i, s0.handled, port))
    requires Forgotten(s, port)
    ensures exists i: nat :: DroppedAt(n, steps, i, s.handled, port)
  {
    var front, last := steps[..|steps|-1], steps[|steps|-1];
    AbsentBefore(s0, last, n, ports, port);
    LastTaskBefore(s0, last, port);
    hide Inv, Apply, Enabled, LastTask, Lookup;
    if Drops(s0, last, port) {
      HandledGrows(s0, last);
      assert DroppedAt(n, steps, |steps| - 1, s.handled, port);
    } else {
      var i: nat :| DroppedAt(n, front, i, s0.handled, port);
      DroppedEarlier(n, steps, i, port);
    }
  }

  // The last step of a run in which the port was dropped, and not named since.
  lemma {:induction false} ForgottenAfter(n: nat, ports: set<int>, steps: seq<Step>, i: nat, s0: State, s: State,
                                          port: int)
    requires steps != [] && Adequate(n, ports) && Inv(s0, n, ports)
    requires var front, last := steps[..|steps|-1], steps[|steps|-1];
             && Run(Init(n), front) == Some(s0) && Enabled(s0, last) && s == Apply(s0, last)
             && Run(Init(n), steps) == Some(s)
             && ((exists i: nat :: DroppedAt(n, front, i, s0.handled, port)) ==> Forgotten(s0, port))
    requires DroppedAt(n, steps, i, s.handled, port)
    ensures Forgotten(s, port)
  {
    var last := steps[|steps|-1];
    if i == |steps| - 1 {
      DropLeavesAbsent(s0, last, n, ports, port);
      SinceLastSame(s0.handled, s.handled, port);
    } else {
      DroppedEarlier(n, steps, i, port);
      AbsentStays(s0, last, n, ports, port);
      LastTaskBefore(s0, last, port);
    }
  }

  /* ----- When a port is never served ----- */

  // Past the parsing of its arguments and not gone yet.
  predicate Serving(e: Endpoint) {
    !e.phase.Starting? && !e.phase.Exited? && !e.phase.Gone?
  }

  // All the system knows about the port is tasks no endpoint can use.
  ghost predicate Unserved(s: State, port: int) {
    && (forall i :: 0 <= i < |s.queue| && s.queue[i].port == port ==> !Usable(s.queue[i]))
    && (!s.worker.Idle? && s.worker.task.port == port ==> !Usable(s.worker.task))
    && (forall pid :: pid in s.procs && s.procs[pid].port == port ==>
                        && !Serving(s.procs[pid])
                        && (s.procs[pid].phase.Starting? ==> ParseArguments(s.procs[pid].conf).None?))
  }

  lemma UnservedStays(s: State, step: Step, port: int)
    requires Unserved(s, port) && Enabled(s, step)
    requires step.Accept? && step.task.port == port ==> !Usable(step.task)
    ensures Unserved(Apply(s, step), port)
  {
    hide Update, Add, Remove, Lookup;
  }

  // Every accepted task is one of these.
  predicate AcceptsOnly(steps: seq<Step>, tasks: set<Data>) {
    forall i :: 0 <= i < |steps| && steps[i].Accept? ==> steps[i].task in tasks
  }

  lemma {:induction false} NeverServed(s: State, steps: seq<Step>, tasks: set<Data>, port: int)
    requires Unserved(s, port) && Run(s, steps).Some? && AcceptsOnly(steps, tasks)
    requires forall d :: d in tasks && d.port == port ==> !Usable(d)
    ensures Unserved(Run(s, steps).value, port)
    decreases |steps|
  {
    hide Unserved, Apply, Enabled, Usable;
    if steps == [] {
    } else {
      UnservedStays(s, steps[0], port);
      assert forall i :: 0 <= i < |steps| - 1 ==> steps[1..][i] == steps[i+1];
      NeverServed(Apply(s, steps[0]), steps[1..], tasks, port);
    }
  }

  // The tasks the handler lets through.
  function ValidOf(tasks: set<Data>): set<Data> {
    set d | d in tasks && ValidTask(d)
  }

  /** A port whose accepted tasks have no duration (or ports that are zero in 16 bits) is never served:
      each of its processes is yet to parse its arguments, has exited on them, or is gone. */
  lemma {:induction false} NoDurationNeverServed(n: nat, steps: seq<Step>, port: int)
    requires Run(Init(n), steps).Some?
    requires forall i :: 0 <= i < |steps| && steps[i].Accept? && steps[i].task.port == port ==> !Usable(steps[i].task)
    ensures var procs := Run(Init(n), steps).value.procs;
            forall pid :: pid in procs && procs[pid].port == port ==> !Serving(procs[pid])
  {
    hide Run, Usable;
    var tasks := set i | 0 <= i < |steps| && steps[i].Accept? :: steps[i].task;
    NeverServed(Init(n), steps, tasks, port);
  }

  // The run leaves a process of the port serving.
  ghost predicate ServedBy(n: nat, steps: seq<Step>, pid: int, tasks: set<Data>, port: int) {
    && AcceptsOnly(steps, tasks) && Run(Init(n), steps).Some?
    && var s := Run(Init(n), steps).value;
    pid in s.procs && s.procs[pid].port == port && Serving(s.procs[pid])
  }

  /** Some run that accepts only these tasks gets an endpoint of the port past its arguments exactly
      when one of them that the handler lets through has a duration and ports that are not zero in 16
      bits. In particular, without a duration the port is never served. */
  lemma {:induction false} ServedExactly(n: nat, tasks: set<Data>, port: int)
    ensures (exists steps, pid :: ServedBy(n, steps, pid, tasks, port))
            <==> exists d :: d in tasks && d.port == port && ValidTask(d) && Usable(d)
  {
    if d :| d in tasks && d.port == port && ValidTask(d) && Usable(d) {
      var steps := ServingRun(n, d);
      assert AcceptsOnly(steps, tasks);
      assert ServedBy(n, steps, 0, tasks, port);
    } else {
      forall steps, pid ensures !ServedBy(n, steps, pid, tasks, port) {
        if AcceptsOnly(steps, tasks) && Run(Init(n), steps).Some? {
          AcceptsValid(Init(n), steps, tasks);
          NeverServed(Init(n), steps, ValidOf(tasks), port);
        }
      }
    }
  }

  lemma {:induction false} AcceptsValid(s: State, steps: seq<Step>, tasks: set<Data>)
    requires Run(s, steps).Some? && AcceptsOnly(steps, tasks)
    ensures AcceptsOnly(steps, ValidOf(tasks))
    decreases |steps|
  {
    if steps == [] {
    } else {
      assert forall i :: 0 <= i < |steps| - 1 ==> steps[1..][i] == steps[i+1];
      AcceptsValid(Apply(s, steps[0]), steps[1..], tasks);
      forall i | 0 <= i < |steps| && steps[i].Accept? ensures ValidTask(steps[i].task) {
        if i > 0 { assert steps[1..][i-1] == steps[i]; }
      }
    }
  }

  lemma {:induction false} OneMoreStep(s: State, steps: seq<Step>, cur: State, step: Step) returns (next: State)
    requires Run(s, steps) == Some(cur) && Enabled(cur, step)
    ensures Run(s, steps + [step]) == Some(next) && next == Apply(cur, step)
  {
    RunExtend(s, steps, step);
    next := Apply(cur, step);
  }

  // Accept, pop, look, launch and start: the endpoint of a usable task waits for signals.
  lemma {:induction false} ServingRun(n: nat, d: Data) returns (steps: seq<Step>)
    requires ValidTask(d) && Usable(d)
    ensures AcceptsOnly(steps, {d}) && ServedBy(n, steps, 0, {d}, d.port)
  {
    var s := Init(n);
    var empty: seq<Step> := [];
    assert Run(s, empty) == Some(s);
    hide Run, Add, Lookup;
    EmptyLookup(n, d.port);
    var s1 := OneMoreStep(s, empty, s, Accept(d));
    assert s1.queue == [d];
    var s2 := OneMoreStep(s, empty + [Accept(d)], s1, Pop);
    var s3 := OneMoreStep(s, empty + [Accept(d)] + [Pop], s2, Look);
    var s4 := OneMoreStep(s, empty + [Accept(d)] + [Pop] + [Look], s3, Launch(0));
    var s5 := OneMoreStep(s, empty + [Accept(d)] + [Pop] + [Look] + [Launch(0)], s4, Start(0));
    steps := empty + [Accept(d)] + [Pop] + [Look] + [Launch(0)] + [Start(0)];
    assert s5.procs[0].phase == Waiting;
  }

  lemma EmptyLookup(n: nat, port: int)
    ensures Lookup(Initial(n), port).None?
  {
  }
}
