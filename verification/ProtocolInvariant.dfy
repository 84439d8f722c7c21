/**
 The inductive invariant of the protocol, and the safety and coherence theorems over all runs.
 */
module ProtocolInvariant {
  import opened Wrappers
  import opened Registry
  import opened Protocol

  /* ----- The invariant ----- */

  // Every record belongs to a process launched for its port.
  ghost predicate TableOk(s: State, n: nat, ports: set<int>) {
    && WellFormed(s.table, n)
    && PortsDistinct(s.table.used)
    && forall cell :: cell in s.table.used ==>
                        && cell.data.port in ports
                        && cell.data.pid in s.procs && s.procs[cell.data.pid].port == cell.data.port
  }

  ghost predicate WorkerOk(s: State, ports: set<int>) {
    && (forall i :: 0 <= i < |s.queue| ==> s.queue[i].port in ports && ValidTask(s.queue[i]))
    && match s.worker
       case Idle => true
       case Popped(task) => task.port in ports && ValidTask(task) && LastTask(s.handled, task.port) == Some(task)
       case Updated(task) =>
         && task.port in ports
         && Lookup(s.table, task.port).Some? && Lookup(s.table, task.port).value.data == task
       case Relaunching(task) =>
         && task.port in ports && Lookup(s.table, task.port).None?
         && LastTask(s.handled, task.port).Some? && SameRequest(task, LastTask(s.handled, task.port).value)
  }

  // A signal for the endpoint is on its way: queued, or about to be sent by the worker.
  predicate SignalComing(w: Worker, e: Endpoint) {
    e.pending > 0 || (w.Updated? && w.task.port == e.port)
  }

  predicate EndpointOk(t: Table, w: Worker, pid: int, e: Endpoint) {
    Active(e) ==>
      && e.conf.port == e.port
      && Listed(t, e.port, pid)
      && var cell := Lookup(t, e.port).value;
      match e.phase
      case Starting => SignalComing(w, e) || Coherent(e.conf, cell.data)
      case Waiting => SignalComing(w, e) || Coherent(e.conf, cell.data)
      case Copying(slot, k) =>
        slot == cell.slot && k < FIELDS && (SignalComing(w, e) || FieldsBelow(e.conf, cell.data, k))
      case BadPointer => false
      case _ => true
  }

  ghost predicate EndpointsOk(s: State) {
    forall pid :: pid in s.procs ==> EndpointOk(s.table, s.worker, pid, s.procs[pid])
  }

  // The last task the worker popped for this port is not in the registry yet.
  predicate TaskInHand(w: Worker, port: int) {
    w.Popped? && w.task.port == port
  }

  // A record holds what the last task handled for its port asked for.
  ghost predicate LatestOk(s: State) {
    forall cell :: cell in s.table.used && !TaskInHand(s.worker, cell.data.port) ==>
                     && LastTask(s.handled, cell.data.port).Some?
                     && SameRequest(cell.data, LastTask(s.handled, cell.data.port).value)
  }

  ghost predicate Inv(s: State, n: nat, ports: set<int>) {
    && n >= 2
    && TableOk(s, n, ports)
    && WorkerOk(s, ports)
    && EndpointsOk(s)
    && LatestOk(s)
    && s.accepted == s.handled + s.queue
  }

  /* ----- Registry facts ----- */

  lemma LookupIsMember(t: Table, port: int)
    requires Lookup(t, port).Some?
    ensures Lookup(t, port).value in t.used && Lookup(t, port).value.data.port == port
  {
  }

  lemma MemberIsLookup(t: Table, cell: Cell)
    requires PortsDistinct(t.used) && cell in t.used
    ensures Lookup(t, cell.data.port) == Some(cell)
  {
    var k :| 0 <= k < |t.used| && t.used[k] == cell;
    FirstIndex(Records(t.used), cell.data.port, k);
  }

  lemma LookupNone(t: Table, port: int)
    requires Lookup(t, port).None?
    ensures forall cell :: cell in t.used ==> cell.data.port != port
  {
  }

  lemma WithoutPosition(used: seq<Cell>, k: nat)
    requires k < |used| && PortsDistinct(used)
    ensures var rest := used[..k] + used[k+1..];
            && PortsDistinct(rest)
            && forall cell :: cell in rest <==> cell in used && cell.data.port != used[k].data.port
  {
    var rest := used[..k] + used[k+1..];
    assert forall i {:trigger rest[i]} :: 0 <= i < |rest| ==> rest[i] == used[if i < k then i else i + 1];
    forall cell | cell in used && cell.data.port != used[k].data.port ensures cell in rest {
      var i :| 0 <= i < |used| && used[i] == cell;
      assert rest[if i < k then i else i - 1] == cell;
    }
    forall cell | cell in rest ensures cell in used && cell.data.port != used[k].data.port {
      var i :| 0 <= i < |rest| && rest[i] == cell;
      assert cell == used[if i < k then i else i + 1];
    }
  }

  lemma RemoveKeepsMembers(t: Table, port: int)
    requires PortsDistinct(t.used)
    ensures PortsDistinct(Remove(t, port).used)
    ensures forall cell :: cell in Remove(t, port).used <==> cell in t.used && cell.data.port != port
    ensures Lookup(Remove(t, port), port).None?
  {
    var k, r := Position(t, port), Remove(t, port);
    if k < |t.used| {
      WithoutPosition(t.used, k);
      assert r.used == t.used[..k] + t.used[k+1..];
    } else {
      LookupNone(t, port);
    }
    if Lookup(r, port).Some? { LookupIsMember(r, port); }
  }

  lemma UpdateKeepsMembers(t: Table, d: Data)
    requires PortsDistinct(t.used)
    ensures PortsDistinct(Update(t, d).used)
    ensures forall cell :: cell in Update(t, d).used ==> cell.data == d || (cell in t.used && cell.data.port != d.port)
  {
    var k, r := Position(t, d.port), Update(t, d);
    forall i | 0 <= i < |r.used| ensures r.used[i].data == d || (r.used[i] in t.used && r.used[i].data.port != d.port) {
      if i != k { assert r.used[i] == t.used[i]; }
    }
  }

  lemma AddKeepsMembers(t: Table, d: Data)
    requires PortsDistinct(t.used) && Lookup(t, d.port).None? && t.free != []
    ensures PortsDistinct(Add(t, d).used)
    ensures forall cell :: cell in Add(t, d).used <==> cell in t.used || cell == Cell(t.free[0], d)
    ensures Lookup(Add(t, d), d.port) == Some(Cell(t.free[0], d))
  {
    var r := Add(t, d);
    LookupNone(t, d.port);
    assert forall i :: 0 <= i < |t.used| ==> t.used[i] in t.used;
    assert r.used[|t.used|] == Cell(t.free[0], d);
    FirstIndex(Records(r.used), d.port, |t.used|);
  }

  // The pointer returned by a fetch reads the record of that port.
  lemma {:induction false} RecordAtSlot(used: seq<Cell>, k: nat)
    requires k < |used| && Distinct(Slots(used))
    ensures RecordAt(used, used[k].slot) == Some(used[k].data)
  {
    if k == 0 {
    } else {
      assert Slots(used)[0] != Slots(used)[k];
      assert Slots(used[1..]) == Slots(used)[1..];
      RecordAtSlot(used[1..], k - 1);
    }
  }

  lemma RecordAtLookup(t: Table, n: nat, port: int)
    requires WellFormed(t, n) && Lookup(t, port).Some?
    ensures RecordAt(t.used, Lookup(t, port).value.slot) == Some(Lookup(t, port).value.data)
  {
    forall i, j | 0 <= i < j < |t.used| ensures Slots(t.used)[i] != Slots(t.used)[j] {
      assert Chain(t)[i] != Chain(t)[j];
    }
    RecordAtSlot(t.used, Position(t, port));
  }

  lemma {:induction false} DistinctWithin(s: seq<int>, ports: set<int>)
    requires Distinct(s) && forall i :: 0 <= i < |s| ==> s[i] in ports
    ensures |s| <= |ports|
  {
    if s == [] {
    } else {
      forall i | 0 <= i < |s| - 1 ensures s[1..][i] in ports - {s[0]} { assert s[i+1] != s[0]; }
      DistinctWithin(s[1..], ports - {s[0]});
    }
  }

  /** While the worker is about to launch a process, the list has room for its record. */
  lemma RoomToAdd(s: State, n: nat, ports: set<int>)
    requires Inv(s, n, ports) && |ports| <= n && s.worker.Relaunching?
    ensures s.table.free != []
  {
    var port := s.worker.task.port;
    LookupNone(s.table, port);
    var used := s.table.used;
    var names := seq(|used|, i requires 0 <= i < |used| => used[i].data.port);
    forall i | 0 <= i < |names| ensures names[i] in ports - {port} { assert used[i] in used; }
    DistinctWithin(names, ports - {port});
    assert |Chain(s.table)| == n;
  }

  /* ----- Steps of one endpoint ----- */

  lemma LocalStep(s: State, pid: int, e: Endpoint, n: nat, ports: set<int>)
    requires Inv(s, n, ports) && pid in s.procs
    requires e.port == s.procs[pid].port && EndpointOk(s.table, s.worker, pid, e)
    ensures Inv(SetProc(s, pid, e), n, ports)
  {
  }

  lemma StartKeeps(s: State, pid: int, n: nat, ports: set<int>)
    requires Inv(s, n, ports) && Enabled(s, Start(pid))
    requires Representable(s.procs[pid].port)
    ensures Inv(Apply(s, Start(pid)), n, ports)
  {
    LocalStep(s, pid, AfterStart(s.procs[pid]), n, ports);
  }

  /** A consumed signal always finds the endpoint's own record: the pointer is never null. */
  lemma FetchFindsOwnRecord(s: State, pid: int, n: nat, ports: set<int>)
    requires Inv(s, n, ports) && Enabled(s, Fetch(pid))
    ensures Lookup(s.table, s.procs[pid].conf.port).Some?
    ensures Lookup(s.table, s.procs[pid].conf.port).value.data.pid == pid
    ensures Inv(Apply(s, Fetch(pid)), n, ports)
  {
    assert EndpointOk(s.table, s.worker, pid, s.procs[pid]);
    LookupIsMember(s.table, s.procs[pid].port);
    LocalStep(s, pid, AfterFetch(s.procs[pid], s.table), n, ports);
  }

  lemma CopyKeeps(s: State, pid: int, n: nat, ports: set<int>)
    requires Inv(s, n, ports) && Enabled(s, Copy(pid))
    ensures Inv(Apply(s, Copy(pid)), n, ports)
  {
    var e := s.procs[pid];
    assert EndpointOk(s.table, s.worker, pid, e);
    LookupIsMember(s.table, e.port);
    RecordAtLookup(s.table, n, e.port);
    LocalStep(s, pid, AfterCopy(e, s.table), n, ports);
  }

  lemma QuietKeeps(s: State, step: Step, n: nat, ports: set<int>)
    requires Inv(s, n, ports) && Enabled(s, step)
    requires step.Consume? || step.TimeOut? || step.Exit? || step.Crash? || step.Reap?
    ensures Inv(Apply(s, step), n, ports)
  {
    assert EndpointOk(s.table, s.worker, step.pid, s.procs[step.pid]);
    LocalStep(s, step.pid, Apply(s, step).procs[step.pid], n, ports);
  }

  /** On timeout the record removed by port is the endpoint's own. */
  lemma DeregisterRemovesOwn(s: State, pid: int, n: nat, ports: set<int>)
    requires Inv(s, n, ports) && Enabled(s, Deregister(pid))
    ensures Lookup(s.table, s.procs[pid].conf.port).Some?
    ensures Lookup(s.table, s.procs[pid].conf.port).value.data.pid == pid
    ensures Inv(Apply(s, Deregister(pid)), n, ports)
  {
    var e, s' := s.procs[pid], Apply(s, Deregister(pid));
    assert EndpointOk(s.table, s.worker, pid, e);
    LookupIsMember(s.table, e.port);
    RemovePreservesWellFormed(s.table, e.port, n);
    RemoveKeepsMembers(s.table, e.port);
    forall p | p in s'.procs ensures EndpointOk(s'.table, s'.worker, p, s'.procs[p]) {
      if p != pid {
        assert EndpointOk(s.table, s.worker, p, s.procs[p]);
        if s.procs[p].port != e.port { LookupAfterRemove(s.table, s.procs[p].port, e.port); }
      }
    }
  }

  /* ----- Steps of the server ----- */

  lemma {:induction false} LastTaskAppend(tasks: seq<Data>, d: Data, port: int)
    ensures LastTask(tasks + [d], port) == if d.port == port then Some(d) else LastTask(tasks, port)
  {
    assert (tasks + [d])[..|tasks|] == tasks;
  }

  lemma AcceptKeeps(s: State, task: Data, n: nat, ports: set<int>)
    requires Inv(s, n, ports) && Enabled(s, Accept(task)) && task.port in ports
    ensures Inv(Apply(s, Accept(task)), n, ports)
  {
    var s' := Apply(s, Accept(task));
    assert s'.accepted == s'.handled + s'.queue;
  }

  lemma PopKeeps(s: State, n: nat, ports: set<int>)
    requires Inv(s, n, ports) && Enabled(s, Pop)
    ensures Inv(Apply(s, Pop), n, ports)
  {
    var s', d := Apply(s, Pop), s.queue[0];
    assert s'.accepted == s'.handled + s'.queue;
    LastTaskAppend(s.handled, d, d.port);
    forall cell | cell in s'.table.used && !TaskInHand(s'.worker, cell.data.port)
      ensures LastTask(s'.handled, cell.data.port) == LastTask(s.handled, cell.data.port)
    {
      LastTaskAppend(s.handled, d, cell.data.port);
    }
    forall p | p in s'.procs ensures EndpointOk(s'.table, s'.worker, p, s'.procs[p]) {
      assert EndpointOk(s.table, s.worker, p, s.procs[p]);
    }
  }

  lemma LookKeeps(s: State, n: nat, ports: set<int>)
    requires Inv(s, n, ports) && Enabled(s, Look)
    ensures Inv(Apply(s, Look), n, ports)
  {
    var s', task := Apply(s, Look), s.worker.task;
    if Lookup(s.table, task.port).Some? {
      var d := s'.worker.task;
      LookupIsMember(s.table, task.port);
      UpdatePreservesWellFormed(s.table, d, n);
      UpdateKeepsMembers(s.table, d);
      LookupAfterUpdate(s.table, d, d.port);
      forall p | p in s'.procs ensures EndpointOk(s'.table, s'.worker, p, s'.procs[p]) {
        assert EndpointOk(s.table, s.worker, p, s.procs[p]);
        LookupAfterUpdate(s.table, d, s.procs[p].port);
      }
    } else {
      LookupNone(s.table, task.port);
      forall p | p in s'.procs ensures EndpointOk(s'.table, s'.worker, p, s'.procs[p]) {
        assert EndpointOk(s.table, s.worker, p, s.procs[p]);
      }
    }
  }

  lemma SignalKeeps(s: State, n: nat, ports: set<int>)
    requires Inv(s, n, ports) && Enabled(s, Signal)
    ensures Inv(Apply(s, Signal), n, ports)
  {
    var s', task := Apply(s, Signal), s.worker.task;
    LookupIsMember(s.table, task.port);
    if Exists(s, task.pid) {
      forall p | p in s'.procs ensures EndpointOk(s'.table, s'.worker, p, s'.procs[p]) {
        assert EndpointOk(s.table, s.worker, p, s.procs[p]);
      }
    } else {
      RemovePreservesWellFormed(s.table, task.port, n);
      RemoveKeepsMembers(s.table, task.port);
      forall p | p in s'.procs ensures EndpointOk(s'.table, s'.worker, p, s'.procs[p]) {
        assert EndpointOk(s.table, s.worker, p, s.procs[p]);
        if s.procs[p].port != task.port { LookupAfterRemove(s.table, s.procs[p].port, task.port); }
      }
      MemberIsLookup(s.table, Lookup(s.table, task.port).value);
    }
  }

  lemma LaunchKeeps(s: State, pid: int, n: nat, ports: set<int>)
    requires Inv(s, n, ports) && |ports| <= n && Enabled(s, Launch(pid))
    ensures Inv(Apply(s, Launch(pid)), n, ports)
  {
    var s', d := Apply(s, Launch(pid)), s.worker.task.(pid := pid);
    RoomToAdd(s, n, ports);
    AddPreservesWellFormed(s.table, d, n);
    AddKeepsMembers(s.table, d);
    forall p | p in s'.procs ensures EndpointOk(s'.table, s'.worker, p, s'.procs[p]) {
      if p != pid {
        assert EndpointOk(s.table, s.worker, p, s.procs[p]);
        if s.procs[p].port != d.port { LookupAfterAdd(s.table, d, s.procs[p].port); }
      }
    }
  }

  lemma LaunchFailsKeeps(s: State, n: nat, ports: set<int>)
    requires Inv(s, n, ports) && Enabled(s, LaunchFails)
    ensures Inv(Apply(s, LaunchFails), n, ports)
  {
    var s' := Apply(s, LaunchFails);
    forall p | p in s'.procs ensures EndpointOk(s'.table, s'.worker, p, s'.procs[p]) {
      assert EndpointOk(s.table, s.worker, p, s.procs[p]);
    }
  }

  /* ----- All runs ----- */

  // The setting in which the registry is large enough and every port is usable.
  ghost predicate Adequate(n: nat, ports: set<int>) {
    n >= 2 && |ports| <= n && forall p :: p in ports ==> Representable(p)
  }

  // Every launched process was launched for one of the ports.
  ghost predicate ProcsNamed(s: State, ports: set<int>) {
    forall pid :: pid in s.procs ==> s.procs[pid].port in ports
  }

  lemma NamesKept(s: State, step: Step, ports: set<int>)
    requires ProcsNamed(s, ports) && Enabled(s, step) && WorkerOk(s, ports)
    ensures ProcsNamed(Apply(s, step), ports)
  {
    hide Update, Add, Remove, Lookup;
  }

  /** Every step keeps the invariant. */
  lemma StepKeeps(s: State, step: Step, n: nat, ports: set<int>)
    requires Adequate(n, ports) && Inv(s, n, ports) && ProcsNamed(s, ports) && Enabled(s, step)
    requires step.Accept? ==> step.task.port in ports
    ensures Inv(Apply(s, step), n, ports) && ProcsNamed(Apply(s, step), ports)
  {
    assert |ports| <= n;
    NamesKept(s, step, ports);
    assert step.Start? ==> Representable(s.procs[step.pid].port);
    hide *;
    match step
    case Accept(task) => AcceptKeeps(s, task, n, ports);
    case Pop => PopKeeps(s, n, ports);
    case Look => LookKeeps(s, n, ports);
    case Signal => SignalKeeps(s, n, ports);
    case Launch(pid) => LaunchKeeps(s, pid, n, ports);
    case LaunchFails => LaunchFailsKeeps(s, n, ports);
    case Start(pid) => StartKeeps(s, pid, n, ports);
    case Fetch(pid) => FetchFindsOwnRecord(s, pid, n, ports);
    case Copy(pid) => CopyKeeps(s, pid, n, ports);
    case Deregister(pid) => DeregisterRemovesOwn(s, pid, n, ports);
    case _ => QuietKeeps(s, step, n, ports);
  }

  lemma {:induction false} RunKeeps(s: State, steps: seq<Step>, n: nat, ports: set<int>)
    requires Adequate(n, ports) && Inv(s, n, ports) && ProcsNamed(s, ports)
    requires Names(steps, ports) && Run(s, steps).Some?
    ensures Inv(Run(s, steps).value, n, ports) && ProcsNamed(Run(s, steps).value, ports)
    decreases |steps|
  {
    hide Inv, ProcsNamed, Adequate, Apply, Enabled;
    if steps == [] {
    } else {
      StepKeeps(s, steps[0], n, ports);
      assert forall i :: 0 <= i < |steps| - 1 ==> steps[1..][i] == steps[i+1];
      RunKeeps(Apply(s, steps[0]), steps[1..], n, ports);
    }
  }

  lemma InitialInv(n: nat, ports: set<int>)
    requires Adequate(n, ports)
    ensures Inv(Init(n), n, ports) && ProcsNamed(Init(n), ports)
  {
    InitializeRefines(n);
  }

  // A run from the start.
  lemma {:induction false} FromInit(n: nat, ports: set<int>, steps: seq<Step>)
    requires Adequate(n, ports) && Names(steps, ports) && Run(Init(n), steps).Some?
    ensures Inv(Run(Init(n), steps).value, n, ports) && ProcsNamed(Run(Init(n), steps).value, ports)
  {
    hide *;
    InitialInv(n, ports);
    RunKeeps(Init(n), steps, n, ports);
  }

  lemma ReachableInv(n: nat, ports: set<int>, s: State)
    requires Adequate(n, ports) && Reachable(n, ports, s)
    ensures Inv(s, n, ports) && ProcsNamed(s, ports)
  {
    hide Inv, Run, Init, Adequate, ProcsNamed, Names;
    var steps :| Names(steps, ports) && Run(Init(n), steps) == Some(s);
    FromInit(n, ports, steps);
  }
}
