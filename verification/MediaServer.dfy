/**
 The media server in place: the request handler that queues tasks and the worker that serves them
 from the shared list. Each method is proved to be a run of steps of `Protocol`, so everything
 `ProtocolTheorems` says of runs holds of the code.
 */
module MediaServers {
  import opened Wrappers
  import opened Registry
  import opened SharedLists
  import opened Protocol
  import opened ProtocolInvariant

  // The processes and their queued signals, as seen through fork and sigqueue. The outcome of each
  // fork is given: the pid of the child, which no process had before, or a refusal.
  class Kernel {
    const outcome: nat -> Option<int>
    var forks: nat
    var procs: map<int, Endpoint>

    ghost predicate Valid()
      reads this
    {
      FreshFrom(outcome, forks, procs.Keys)
    }

    constructor (outcome: nat -> Option<int>)
      requires FreshFrom(outcome, 0, {})
      ensures Valid() && this.outcome == outcome && forks == 0 && procs == map[]
    {
      this.outcome := outcome;
      forks := 0;
      procs := map[];
    }

    // fork and exec: the pid of the new process, or -1.
    method LaunchBackground(data: Data) returns (pid: int)
      requires Valid()
      modifies this
      ensures Valid() && forks == old(forks) + 1
      ensures match outcome(old(forks))
              case None => pid == -1 && procs == old(procs)
              case Some(p) =>
                && pid == p != -1 && p !in old(procs)
                && procs == old(procs)[p := Endpoint(data.port, data.(pid := p), 0, Starting)]
    {
      var child := outcome(forks);
      forks := forks + 1;
      if child == None {
        return -1;
      }
      pid := child.value;
      procs := procs[pid := Endpoint(data.port, data.(pid := pid), 0, Starting)];
    }

    // -1 when there is no such process.
    method SigQueue(pid: int) returns (rc: int)
      requires Valid()
      modifies this`procs
      ensures Valid()
      ensures rc == -1 || rc == 0
      ensures rc == 0 <==> pid in old(procs) && old(procs)[pid].phase != Gone
      ensures rc == -1 ==> procs == old(procs)
      ensures rc == 0 ==> procs == old(procs)[pid := old(procs)[pid].(pending := old(procs)[pid].pending + 1)]
    {
      if pid !in procs || procs[pid].phase == Gone {
        return -1;
      }
      procs := procs[pid := procs[pid].(pending := procs[pid].pending + 1)];
      return 0;
    }
  }

  // From this fork on, no outcome is a pid that is taken, or comes twice.
  ghost predicate FreshFrom(outcome: nat -> Option<int>, forks: nat, taken: set<int>) {
    && (forall k :: forks <= k && outcome(k).Some? ==> outcome(k).value != -1 && outcome(k).value !in taken)
    && (forall j, k :: forks <= j < k && outcome(j).Some? ==> outcome(j) != outcome(k))
  }

  // A query parameter read with stoi.
  datatype Parameter = Missing | NotANumber | Number(value: int)

  datatype Request = Request(
    port: Parameter,
    daddress: Option<string>,
    dport: Parameter,
    duration: Parameter,
    client: bool)

  datatype Code = Ok | BadRequest | InternalServerError

  // stoi of a parameter with a default; None when stoi throws, for text or for too large a number.
  function Stoi(p: Parameter, default: int): Option<int> {
    match p
    case Missing => Some(default)
    case NotANumber => None
    case Number(v) => if FitsInt(v) then Some(v) else None
  }

  // A parameter stoi throws for.
  predicate Unreadable(p: Parameter) {
    p.NotANumber? || (p.Number? && !(-2147483648 <= p.value <= 2147483647))
  }

  // What the handler lets through.
  ghost predicate Acceptable(request: Request) {
    && request.port.Number? && request.port.value != 0
    && -2147483648 <= request.port.value <= 2147483647
    && (request.daddress.Some? ==> |request.daddress.value| <= 15)
    && !request.dport.NotANumber?
    && (request.dport.Number? ==>
          request.dport.value != 0 && -2147483648 <= request.dport.value <= 2147483647)
    && !request.duration.NotANumber?
    && (request.duration.Number? ==> 0 <= request.duration.value <= 2147483647)
  }

  // The task an acceptable request asks for, whatever its pid.
  ghost predicate AsksFor(request: Request, task: Data)
    requires Acceptable(request)
  {
    && task.port == request.port.value
    && task.destAddr == (if request.daddress.Some? then request.daddress.value else "127.0.0.1")
    && task.destPort == (if request.dport.Number? then request.dport.value else 5000)
    && task.duration == (if request.duration.Number? then request.duration.value else 0)
    && task.client == (if request.client then 1 else 0)
  }

  /** The tasks of the protocol are those that some request gets queued, but for the range of int. */
  lemma ValidTaskExactly(task: Data)
    requires FitsInt(task.port) && FitsInt(task.destPort) && FitsInt(task.duration) && task.client <= 1
    ensures ValidTask(task) <==> exists request :: Acceptable(request) && AsksFor(request, task)
  {
    if ValidTask(task) {
      var request := Request(Number(task.port), Some(task.destAddr), Number(task.destPort), Number(task.duration),
                             task.client == 1);
      assert Acceptable(request) && AsksFor(request, task);
    }
  }

  /* ----- A whole worker transaction ----- */

  // Lookup, and the signal when the port is listed.
  function AfterLook(s: State): State
    requires s.worker.Popped?
  {
    var s2 := LookStep(s);
    if s2.worker.Updated? then SignalStep(s2) else s2
  }

  // The worker is left to replace the process, if it did not signal one.
  function ForkStep(s: State, outcome: Option<int>): State
    requires s.worker.Relaunching?
  {
    match outcome
    case Some(pid) => LaunchStep(s, pid)
    case None => s.(worker := Idle)
  }

  // The transaction forks.
  predicate Forks(s: State)
    requires s.worker.Idle? && s.queue != []
  {
    AfterLook(Apply(s, Pop)).worker.Relaunching?
  }

  // One transaction, in which a fork, if there is one, comes out like this.
  function Transaction(s: State, outcome: Option<int>): (s': State)
    requires s.worker.Idle? && s.queue != []
    ensures s'.worker.Idle? && s'.queue == s.queue[1..]
  {
    var s3 := AfterLook(Apply(s, Pop));
    if s3.worker.Relaunching? then ForkStep(s3, outcome) else s3
  }

  // The process that has the port, as far as the registry and the kernel know.
  function ProcessOf(s: State, port: int): Option<int> {
    match Lookup(s.table, port)
    case None => None
    case Some(cell) =>
      if cell.data.pid in s.procs && s.procs[cell.data.pid].phase != Gone then Some(cell.data.pid) else None
  }

  // The task is served: rewritten and signalled to the process of its port, or, when there is none,
  // handed to the new process, listed under its pid when there is a node for it. Nothing else changes.
  ghost predicate Serves(s: State, s': State, task: Data, n: nat, outcome: Option<int>) {
    && (forall port :: port != task.port ==> Lookup(s'.table, port) == Lookup(s.table, port))
    && s.queue != [] && s'.queue == s.queue[1..] && s'.handled == s.handled + [task] && s'.accepted == s.accepted
    && match ProcessOf(s, task.port)
       case Some(pid) =>
         && Lookup(s'.table, task.port) == Some(Lookup(s.table, task.port).value.(data := task.(pid := pid)))
         && s'.procs == s.procs[pid := s.procs[pid].(pending := s.procs[pid].pending + 1)]
       case None =>
         match outcome
         case None => Lookup(s'.table, task.port).None? && s'.procs == s.procs
         case Some(pid) =>
           && s'.procs == s.procs[pid := Endpoint(task.port, task.(pid := pid), 0, Starting)]
           && (Lookup(s.table, task.port).Some? || |s.table.used| < n ==>
                 && Lookup(s'.table, task.port).Some?
                 && Lookup(s'.table, task.port).value.data == task.(pid := pid))
  }

  /** A transaction that nothing interleaves with is a run of the protocol. */
  lemma TransactionIsRun(s: State, outcome: Option<int>) returns (steps: seq<Step>)
    requires s.worker.Idle? && s.queue != []
    requires outcome.Some? ==> outcome.value !in s.procs
    ensures Names(steps, {}) && Run(s, steps) == Some(Transaction(s, outcome))
  {
    hide Lookup, Update, Add, Remove;
    var s1 := Apply(s, Pop);
    var s2 := LookStep(s1);
    RunExtend(s, [], Pop);
    RunExtend(s, [] + [Pop], Look);
    steps := [] + [Pop] + [Look];
    if s2.worker.Updated? {
      RunExtend(s, steps, Signal);
      steps := steps + [Signal];
    }
    var s3 := AfterLook(s1);
    if s3.worker.Relaunching? {
      var fork := match outcome case Some(pid) => Launch(pid) case None => LaunchFails;
      RunExtend(s, steps, fork);
      steps := steps + [fork];
    }
  }

  lemma {:induction false} TransactionTasks(s: State, outcome: Option<int>)
    requires s.worker.Idle? && s.queue != []
    ensures var s' := Transaction(s, outcome); s'.handled == s.handled + [s.queue[0]] && s'.queue == s.queue[1..]
  {
    hide Lookup, Update, Remove, Add;
  }

  lemma {:induction false} SignalServes(s: State, n: nat, outcome: Option<int>)
    requires s.worker.Idle? && s.queue != [] && PortsDistinct(s.table.used)
    requires ProcessOf(s, s.queue[0].port).Some?
    ensures !Forks(s) && PortsDistinct(Transaction(s, outcome).table.used)
    ensures Serves(s, Transaction(s, outcome), s.queue[0], n, outcome)
  {
    var task, pid := s.queue[0], ProcessOf(s, s.queue[0].port).value;
    var d := task.(pid := pid);
    UpdateKeepsMembers(s.table, d);
    forall port
      ensures Lookup(Update(s.table, d), port) ==
              if port == task.port then Some(Lookup(s.table, port).value.(data := d)) else Lookup(s.table, port)
    {
      LookupAfterUpdate(s.table, d, port);
    }
    hide Lookup, Update;
  }

  // The table once the record of a gone process is dropped.
  lemma {:induction false} DropServes(t: Table, d: Data)
    requires PortsDistinct(t.used) && Lookup(t, d.port).Some?
    ensures var t1 := Remove(Update(t, d), d.port);
            && PortsDistinct(t1.used) && Lookup(t1, d.port).None? && t1.free != []
            && forall port :: port != d.port ==> Lookup(t1, port) == Lookup(t, port)
  {
    UpdateKeepsMembers(t, d);
    RemoveKeepsMembers(Update(t, d), d.port);
    LookupAfterUpdate(t, d, d.port);
    forall port | port != d.port ensures Lookup(Remove(Update(t, d), d.port), port) == Lookup(t, port) {
      LookupAfterUpdate(t, d, port);
      LookupAfterRemove(Update(t, d), port, d.port);
    }
  }

  lemma {:induction false} AddServes(t: Table, d: Data)
    requires PortsDistinct(t.used) && Lookup(t, d.port).None?
    ensures PortsDistinct(Add(t, d).used)
    ensures t.free != [] ==> Lookup(Add(t, d), d.port).Some? && Lookup(Add(t, d), d.port).value.data == d
    ensures forall port :: port != d.port ==> Lookup(Add(t, d), port) == Lookup(t, port)
  {
    if t.free != [] { AddKeepsMembers(t, d); }
    forall port | port != d.port ensures Lookup(Add(t, d), port) == Lookup(t, port) {
      LookupAfterAdd(t, d, port);
    }
  }

  // With no process for the port, the worker goes on to launch one, the port unlisted.
  lemma {:induction false} GoesOnToLaunch(s: State)
    requires s.worker.Idle? && s.queue != [] && PortsDistinct(s.table.used)
    requires ProcessOf(s, s.queue[0].port).None?
    ensures var task, s3 := s.queue[0], AfterLook(Apply(s, Pop));
            && s3 == s.(table := s3.table, queue := s.queue[1..], worker := s3.worker, handled := s.handled + [task])
            && s3.worker.Relaunching? && s3.worker.task == task.(pid := s3.worker.task.pid)
            && PortsDistinct(s3.table.used) && Lookup(s3.table, task.port).None?
            && (forall port :: port != task.port ==> Lookup(s3.table, port) == Lookup(s.table, port))
            && if Lookup(s.table, task.port).Some? then s3.table.free != [] else s3.table == s.table
  {
    var task := s.queue[0];
    if Lookup(s.table, task.port).Some? {
      DropServes(s.table, task.(pid := Lookup(s.table, task.port).value.data.pid));
    }
    hide Lookup, Update, Remove, PortsDistinct;
  }

  lemma {:induction false} ForkServes(s: State, n: nat, outcome: Option<int>)
    requires s.worker.Idle? && s.queue != [] && WellFormed(s.table, n) && PortsDistinct(s.table.used)
    requires ProcessOf(s, s.queue[0].port).None?
    ensures Forks(s) && PortsDistinct(Transaction(s, outcome).table.used)
    ensures Serves(s, Transaction(s, outcome), s.queue[0], n, outcome)
  {
    assert |s.table.used| < n ==> s.table.free != [] by { assert |Chain(s.table)| == n; }
    GoesOnToLaunch(s);
    var s3 := AfterLook(Apply(s, Pop));
    hide WellFormed, PortsDistinct, AfterLook, Apply, Lookup, Update, Remove, Add;
    if outcome.Some? { AddServes(s3.table, s3.worker.task.(pid := outcome.value)); }
  }

  /** What a transaction means for its port: a task whose port has an existing process reaches that
      process, and any other launches one unless the fork is refused. */
  lemma {:induction false} TransactionServes(s: State, n: nat, outcome: Option<int>)
    requires s.worker.Idle? && s.queue != [] && WellFormed(s.table, n) && PortsDistinct(s.table.used)
    ensures Forks(s) <==> ProcessOf(s, s.queue[0].port).None?
    ensures PortsDistinct(Transaction(s, outcome).table.used)
    ensures Serves(s, Transaction(s, outcome), s.queue[0], n, outcome)
  {
    hide *;
    if ProcessOf(s, s.queue[0].port).Some? {
      SignalServes(s, n, outcome);
    } else {
      ForkServes(s, n, outcome);
    }
  }

  /* ----- Several transactions ----- */

  // The state after m transactions, and the number of forks by then.
  function Transactions(s: State, forks: nat, outcome: nat -> Option<int>, m: nat): (State, nat)
    requires s.worker.Idle? && m <= |s.queue|
    decreases m
  {
    if m == 0 then (s, forks)
    else
      Transactions(Transaction(s, outcome(forks)), if Forks(s) then forks + 1 else forks, outcome, m - 1)
  }

  lemma AcceptIs(s: State, task: Data)
    requires ValidTask(task)
    ensures Apply(s, Accept(task)) == s.(queue := s.queue + [task], accepted := s.accepted + [task])
  {
  }

  lemma PopIs(s: State)
    requires s.worker.Idle? && s.queue != []
    ensures Apply(s, Pop) ==
            s.(queue := s.queue[1..], worker := Popped(s.queue[0]), handled := s.handled + [s.queue[0]])
  {
  }

  class MediaServer {
    const list: SharedList
    const kernel: Kernel
    var taskQueue: seq<Data>
    ghost var accepted: seq<Data>
    ghost var handled: seq<Data>

    ghost predicate Valid()
      reads this, list, list.nodes, kernel
    {
      list.Valid() && kernel.Valid() && PortsDistinct(list.table.used)
    }

    // The protocol state while the worker is in the given phase.
    ghost function ViewIn(worker: Worker): State
      reads this, list, kernel
    {
      State(list.table, taskQueue, worker, kernel.procs, accepted, handled)
    }

    // The protocol state between two worker transactions.
    ghost function View(): State
      reads this, list, kernel
    {
      ViewIn(Idle)
    }

    constructor (memory: array<ListNode>, outcome: nat -> Option<int>)
      requires 2 <= memory.Length <= MAX_SHORT && FreshFrom(outcome, 0, {})
      modifies memory
      ensures Valid() && fresh(list) && fresh(kernel) && list.nodes == memory
      ensures kernel.outcome == outcome && kernel.forks == 0
      ensures View() == Init(memory.Length)
    {
      list := new SharedList(memory);
      kernel := new Kernel(outcome);
      taskQueue := [];
      accepted, handled := [], [];
      new;
      list.Initialize();
    }

    /** Validates a request and queues its task. */
    method AddTask(request: Request, garbage: int) returns (code: Code)
      modifies this
      ensures code == Ok <==> Acceptable(request)
      ensures code == Ok ==>
                exists task ::
                  && ValidTask(task) && View() == Apply(old(View()), Accept(task))
                  && taskQueue == old(taskQueue) + [task] && AsksFor(request, task)
      ensures code != Ok ==> View() == old(View())
      ensures code == InternalServerError <==>
              || Unreadable(request.port)
              || (request.port.Number? && request.port.value != 0
                  && (request.daddress.Some? ==> |request.daddress.value| <= 15)
                  && (Unreadable(request.dport)
                      || ((request.dport.Number? ==> request.dport.value != 0) && Unreadable(request.duration))))
    {
      hide Apply;
      // the pid of a queued task is never set
      var data := Data(0, 0, "", 0, garbage, if request.client then 1 else 0);
      var port := Stoi(request.port, 0);
      if port == None { return InternalServerError; }
      data := data.(port := port.value);
      if data.port == 0 { return BadRequest; }
      var address := if request.daddress.Some? then request.daddress.value else "127.0.0.1";
      if |address| > 15 { return BadRequest; }
      data := data.(destAddr := address);
      var dport := Stoi(request.dport, 5000);
      if dport == None { return InternalServerError; }
      data := data.(destPort := dport.value);
      if data.destPort == 0 { return BadRequest; }
      var duration := Stoi(request.duration, 0);
      if duration == None { return InternalServerError; }
      data := data.(duration := duration.value);
      if data.duration < 0 { return BadRequest; }
      taskQueue := taskQueue + [data];
      accepted := accepted + [data];
      AcceptIs(old(View()), data);
      assert ValidTask(data) && View() == Apply(old(View()), Accept(data)) && taskQueue == old(taskQueue) + [data];
      return Ok;
    }

    // Rewrites the record of a listed port but keeps the original pid.
    method Rewrite(slot: Short, task: Data) returns (data: Data)
      requires list.Valid() && Lookup(list.table, task.port).Some? && slot == Lookup(list.table, task.port).value.slot
      modifies list, list.nodes
      ensures list.Valid() && ViewIn(Updated(data)) == LookStep(old(ViewIn(Popped(task))))
      ensures 0 <= slot < list.nodes.Length && list.nodes[slot].data == data
    {
      ReadThrough(list, slot as nat, Lookup(list.table, task.port).value.data);
      data := task.(pid := list.nodes[slot].data.pid);
      LookupAfterUpdate(list.table, data, data.port);
      var updated := list.UpdateElement(data);
      assert updated;
      ReadThrough(list, slot as nat, data);
    }

    // Signals the process of a record just rewritten. `gone` tells that the process does not exist, in
    // which case the record has been dropped.
    method Notify(slot: Short, ghost data: Data) returns (gone: bool)
      requires list.Valid() && kernel.Valid() && 0 <= slot < list.nodes.Length && list.nodes[slot].data == data
      modifies list, list.nodes, kernel`procs
      ensures list.Valid() && kernel.Valid()
      ensures ViewIn(if gone then Relaunching(data) else Idle) == SignalStep(old(ViewIn(Updated(data))))
    {
      hide Consistent, Remove;
      gone := false;
      var rc := kernel.SigQueue(list.nodes[slot].data.pid);
      if rc == -1 {
        var removed := list.RemoveElement(list.nodes[slot].data.port);
        gone := true;
      }
    }

    // The worker's branch for an unlisted port: launch a process and list it.
    method Replace(task: Data)
      requires list.Valid() && kernel.Valid()
      modifies list, list.nodes, kernel
      ensures list.Valid() && kernel.Valid() && kernel.forks == old(kernel.forks) + 1
      ensures View() == ForkStep(old(ViewIn(Relaunching(task))), kernel.outcome(old(kernel.forks)))
    {
      var pid := kernel.LaunchBackground(task);
      if pid != -1 {
        var data := task.(pid := pid);
        var added := list.AddElement(data);
      }
    }

    // The transaction for the first task of the queue.
    method Transact()
      requires list.Valid() && kernel.Valid() && taskQueue != []
      modifies this, list, list.nodes, kernel
      ensures list.Valid() && kernel.Valid()
      ensures View() == Transaction(old(View()), kernel.outcome(old(kernel.forks)))
      ensures kernel.forks == old(kernel.forks) + if Forks(old(View())) then 1 else 0
    {
      ghost var s0 := View();
      PopIs(s0);
      hide Apply, LookStep, SignalStep, LaunchStep, Consistent, FreshFrom;
      var data := taskQueue[0];
      taskQueue := taskQueue[1..];
      handled := handled + [data];
      ghost var s1 := ViewIn(Popped(data));
      assert s1 == Apply(s0, Pop);

      var fetched := list.FetchElement(data.port);
      var relaunch := fetched == -1;
      if fetched != -1 {
        data := Rewrite(fetched, data);
        relaunch := Notify(fetched, data);
      }
      ghost var s3 := ViewIn(if relaunch then Relaunching(data) else Idle);
      assert s3 == AfterLook(s1);
      if relaunch {
        Replace(data);
      }
    }

    /** One turn of the worker with a task queued: the update-and-signal or replace transaction. A task
        whose port has an existing process is written to its record and signalled; for any other one a
        process is launched and listed, unless the fork is refused or the list is full. */
    method HandleTask()
      requires Valid() && taskQueue != []
      modifies this, list, list.nodes, kernel
      ensures Valid()
      ensures View() == Transaction(old(View()), kernel.outcome(old(kernel.forks)))
      ensures Serves(old(View()), View(), old(taskQueue[0]), list.nodes.Length, kernel.outcome(old(kernel.forks)))
      ensures kernel.forks == old(kernel.forks) + if Forks(old(View())) then 1 else 0
    {
      IsWellFormed(list);
      TransactionServes(View(), list.nodes.Length, kernel.outcome(kernel.forks));
      hide Serves, PortsDistinct, Transaction, Forks, Consistent, FreshFrom;
      Transact();
    }

    // One turn in the middle of the loop: so far, m tasks of the queue in s0 were handled.
    method WorkOne(ghost s0: State, ghost f0: nat, ghost m: nat, ghost steps: seq<Step>)
      returns (ghost more: seq<Step>)
      requires Valid() && taskQueue != []
      requires WorkedOff(s0, m, View(), steps) && Folded(s0, f0, kernel.outcome, m, View(), kernel.forks)
      modifies this, list, list.nodes, kernel
      ensures Valid()
      ensures WorkedOff(s0, m + 1, View(), more) && Folded(s0, f0, kernel.outcome, m + 1, View(), kernel.forks)
    {
      hide WorkedOff, Folded, Run, Names, Transaction, Transactions, Forks, Serves;
      hide Consistent, PortsDistinct, FreshFrom;
      ghost var s, f := View(), kernel.forks;
      FreshNow(kernel);
      AllQueued(s0, m, s, steps);
      more := AfterTransaction(s0, steps, m, s, kernel.outcome(f));
      FoldedStep(s0, f0, kernel.outcome, m, s, f);
      HandleTask();
    }

    /** The worker loop on the tasks that are queued, the running flag being found cleared from its
        reading number `stopAt` on: it is read before each wait and after it. The first tasks are
        handled, in order, one for each two readings, each by one transaction, and the forks come out
        one after another; the whole is a run of the protocol. The loop stops, or waits with the queue
        empty. */
    method Work(stopAt: nat) returns (stopped: bool, ghost steps: seq<Step>)
      requires Valid()
      modifies this, list, list.nodes, kernel
      ensures Valid()
      ensures var queued := old(taskQueue);
              var m := TasksWithin(stopAt, |queued|);
              && handled == old(handled) + queued[..m] && taskQueue == queued[m..]
              && (View(), kernel.forks) == Transactions(old(View()), old(kernel.forks), kernel.outcome, m)
              && (stopped <==> stopAt <= 2 * |queued| + 1)
      ensures Names(steps, {}) && Run(old(View()), steps) == Some(View())
    {
      ghost var s0, f0 := View(), kernel.forks;
      ghost var m := 0;
      var r := 0;
      steps := [];
      AtStart(s0);
      FoldedStart(s0, f0, kernel.outcome);
      stopped := true;
      hide WorkedOff, Folded, Run, Names, Transactions, TasksWithin, Consistent, PortsDistinct, FreshFrom;
      while r < stopAt
        invariant Valid() && stopped
        invariant r == 2 * m <= stopAt
        invariant WorkedOff(s0, m, View(), steps) && Folded(s0, f0, kernel.outcome, m, View(), kernel.forks)
      {
        AllQueued(s0, m, View(), steps);
        r := r + 1;
        if taskQueue == [] {
          stopped := r >= stopAt;
          break;
        }
        if r >= stopAt {
          break;
        }
        steps := WorkOne(s0, f0, m, steps);
        r, m := r + 1, m + 1;
      }
      AllQueued(s0, m, View(), steps);
      TasksWithinIs(stopAt, |s0.queue|, m);
      FoldedIs(s0, f0, kernel.outcome, m, View(), kernel.forks);
    }
  }

  // How many of the queued tasks are handled in this many readings of the running flag.
  function TasksWithin(stopAt: nat, queued: nat): (m: nat)
    ensures m <= queued
  {
    if stopAt / 2 < queued then stopAt / 2 else queued
  }

  lemma TasksWithinIs(stopAt: nat, queued: nat, m: nat)
    requires m <= queued && 2 * m <= stopAt && (m == queued || stopAt <= 2 * m + 1)
    ensures TasksWithin(stopAt, queued) == m
  {
  }

  // The first m queued tasks have been handled, by these steps.
  ghost predicate WorkedOff(s0: State, m: nat, s: State, steps: seq<Step>) {
    && m <= |s0.queue| && s.worker.Idle?
    && s.queue == s0.queue[m..] && s.handled == s0.handled + s0.queue[..m]
    && Names(steps, {}) && Run(s0, steps) == Some(s)
  }

  lemma AtStart(s0: State)
    requires s0.worker.Idle?
    ensures WorkedOff(s0, 0, s0, [])
  {
    assert s0.queue[0..] == s0.queue && s0.handled + s0.queue[..0] == s0.handled;
  }

  lemma {:induction false} AfterTransaction(s0: State, steps: seq<Step>, m: nat, s: State, outcome: Option<int>)
    returns (more: seq<Step>)
    requires WorkedOff(s0, m, s, steps) && s.queue != []
    requires outcome.Some? ==> outcome.value !in s.procs
    ensures WorkedOff(s0, m + 1, Transaction(s, outcome), more)
  {
    TransactionTasks(s, outcome);
    var rest := TransactionIsRun(s, outcome);
    hide Transaction, Run;
    RunConcat(s0, steps, rest);
    more := steps + rest;
    NextTask(s0.handled, s0.queue, m);
  }

  lemma {:induction false} AllQueued(s0: State, m: nat, s: State, steps: seq<Step>)
    requires WorkedOff(s0, m, s, steps)
    ensures m <= |s0.queue| && s.queue == s0.queue[m..] && s.handled == s0.handled + s0.queue[..m]
    ensures s.queue == [] <==> m == |s0.queue|
    ensures Names(steps, {}) && Run(s0, steps) == Some(s)
  {
    hide Run;
  }

  // The state and the forks after m transactions.
  ghost predicate Folded(s0: State, f0: nat, outcome: nat -> Option<int>, m: nat, s: State, forks: nat) {
    s0.worker.Idle? && m <= |s0.queue| && Transactions(s0, f0, outcome, m) == (s, forks)
  }

  lemma {:induction false} FoldedStart(s0: State, f0: nat, outcome: nat -> Option<int>)
    requires s0.worker.Idle?
    ensures Folded(s0, f0, outcome, 0, s0, f0)
  {
  }

  lemma {:induction false} FoldedIs(s0: State, f0: nat, outcome: nat -> Option<int>, m: nat, s: State, forks: nat)
    requires Folded(s0, f0, outcome, m, s, forks)
    ensures s0.worker.Idle? && m <= |s0.queue| && Transactions(s0, f0, outcome, m) == (s, forks)
  {
  }

  // The transactions with one more at the end.
  lemma {:induction false} TransactionsExtend(s: State, forks: nat, outcome: nat -> Option<int>, m: nat)
    requires s.worker.Idle? && m < |s.queue|
    ensures var (s1, f1) := Transactions(s, forks, outcome, m);
            && s1.worker.Idle? && s1.queue == s.queue[m..]
            && Transactions(s, forks, outcome, m + 1)
               == (Transaction(s1, outcome(f1)), if Forks(s1) then f1 + 1 else f1)
    decreases m
  {
    hide Transaction, Forks;
    if m == 0 {
      assert Transactions(Transaction(s, outcome(forks)), if Forks(s) then forks + 1 else forks, outcome, 0)
             == (Transaction(s, outcome(forks)), if Forks(s) then forks + 1 else forks);
    } else {
      TransactionsExtend(Transaction(s, outcome(forks)), if Forks(s) then forks + 1 else forks, outcome, m - 1);
      assert s.queue[1..][m-1..] == s.queue[m..];
    }
  }

  lemma {:induction false} FoldedStep(s0: State, f0: nat, outcome: nat -> Option<int>, m: nat, s: State, forks: nat)
    requires Folded(s0, f0, outcome, m, s, forks) && m < |s0.queue|
    ensures s.worker.Idle? && s.queue != []
    ensures Folded(s0, f0, outcome, m + 1, Transaction(s, outcome(forks)), if Forks(s) then forks + 1 else forks)
  {
    TransactionsExtend(s0, f0, outcome, m);
    hide Transaction, Forks, Transactions;
  }

  lemma NextTask(before: seq<Data>, queued: seq<Data>, m: nat)
    requires m < |queued|
    ensures queued[m..][1..] == queued[m+1..] && queued[m..][0] == queued[m]
    ensures (before + queued[..m]) + [queued[m]] == before + queued[..m+1]
  {
  }

  // The pointer returned by a fetch still reads the record after it was updated in place.
  lemma ReadThrough(list: SharedList, slot: nat, data: Data)
    requires list.Valid() && Lookup(list.table, data.port).Some?
    requires Lookup(list.table, data.port).value == Cell(slot, data)
    ensures slot < list.nodes.Length && list.nodes[slot].data == data
  {
    var k := Position(list.table, data.port);
    assert list.chain[k] == slot;
  }

  lemma FreshNow(kernel: Kernel)
    requires kernel.Valid()
    ensures kernel.outcome(kernel.forks).Some? ==> kernel.outcome(kernel.forks).value !in kernel.procs
  {
  }

  lemma IsWellFormed(list: SharedList)
    requires list.Valid()
    ensures WellFormed(list.table, list.nodes.Length)
  {
    ThreadsIsChain(list.table, list.chain);
  }
}
