/**
 The server/endpoint protocol over the registry, as a transition system.

 The worker of the media server pops tasks in FIFO order. Holding the registry mutex it either
 rewrites the record of the port and signals the endpoint process recorded there, or launches a
 new process. An endpoint consumes signals one at a time, fetches its record under the mutex,
 and copies it field by field after releasing the mutex; when no signal arrives in time it leaves
 its loop and removes its record by port. Any process may crash at any point.

 Assumptions: a launched process gets a pid no earlier process had; `sigqueue` fails exactly when
 the process no longer exists (an exited child that was not waited for still exists);
 `sigtimedwait` times out only when no signal is pending.
 */
module Protocol {
  import opened Wrappers
  import opened Registry

  const PORT_MODULUS: int := 0x1_0000

  // (pj_uint16_t) atoi(...), the endpoint's reading of a port argument.
  function Wrap(x: int): int {
    x % PORT_MODULUS
  }

  // What addTask lets through.
  predicate ValidTask(d: Data) {
    d.port != 0 && |d.destAddr| <= 15 && d.destPort != 0 && d.duration >= 0
  }

  datatype Phase =
    | Starting                          // forked, arguments not parsed yet
    | Waiting                           // in sigtimedwait
    | Signalled                         // a signal consumed, record not fetched yet
    | Copying(slot: nat, field: nat)    // pointer held, mutex released, fields below `field` copied
    | BadPointer                        // fetched NULL, or the record behind the pointer is gone
    | TimedOut                          // out of the loop, own record not removed yet
    | Deregistered
    | Exited                            // not waited for yet
    | Gone

  // `port` is the port the process was launched for.
  datatype Endpoint = Endpoint(port: int, conf: Data, pending: nat, phase: Phase)

  // The worker holds the registry mutex while Updated or Relaunching.
  datatype Worker =
    | Idle
    | Popped(task: Data)
    | Updated(task: Data)
    | Relaunching(task: Data)

  datatype State = State(
    table: Table,
    queue: seq<Data>,
    worker: Worker,
    procs: map<int, Endpoint>,
    accepted: seq<Data>,    // history: tasks ever queued
    handled: seq<Data>)     // history: tasks ever popped

  datatype Step =
    | Accept(task: Data)
    | Pop
    | Look
    | Signal
    | Launch(pid: int)
    | LaunchFails
    | Start(pid: int)
    | Consume(pid: int)
    | Fetch(pid: int)
    | Copy(pid: int)
    | TimeOut(pid: int)
    | Deregister(pid: int)
    | Exit(pid: int)
    | Crash(pid: int)
    | Reap(pid: int)

  function Init(n: nat): State {
    State(Initial(n), [], Idle, map[], [], [])
  }

  predicate MutexFree(s: State) {
    s.worker.Idle? || s.worker.Popped?
  }

  predicate InPhase(s: State, pid: int, phase: Phase) {
    pid in s.procs && s.procs[pid].phase == phase
  }

  // What kill and sigqueue see.
  predicate Exists(s: State, pid: int) {
    pid in s.procs && s.procs[pid].phase != Gone
  }

  // Running and still entitled to its record.
  predicate Active(e: Endpoint) {
    || e.phase.Starting? || e.phase.Waiting? || e.phase.Signalled? || e.phase.Copying?
    || e.phase.BadPointer? || e.phase.TimedOut?
  }

  /* ----- Endpoint operations ----- */

  // The configuration parsed from the arguments, None when the endpoint rejects them and exits.
  function ParseArguments(args: Data): Option<Data> {
    if Wrap(args.port) == 0 || Wrap(args.destPort) == 0 || args.duration == 0 then None
    else Some(Data(Wrap(args.port), Wrap(args.destPort), args.destAddr, args.duration, 0, 0))
  }

  const FIELDS: nat := 6

  // conf after copying the k-th field of the record, in memory order.
  function CopyField(conf: Data, record: Data, k: nat): Data {
    if k == 0 then conf.(port := record.port)
    else if k == 1 then conf.(destPort := record.destPort)
    else if k == 2 then conf.(destAddr := record.destAddr)
    else if k == 3 then conf.(duration := record.duration)
    else if k == 4 then conf.(pid := record.pid)
    else conf.(client := record.client)
  }

  // The fields below k agree with the record.
  predicate FieldsBelow(conf: Data, record: Data, k: nat) {
    && (k > 0 ==> conf.port == record.port)
    && (k > 1 ==> conf.destPort == record.destPort)
    && (k > 2 ==> conf.destAddr == record.destAddr)
    && (k > 3 ==> conf.duration == record.duration)
    && (k > 4 ==> conf.pid == record.pid)
    && (k > 5 ==> conf.client == record.client)
  }

  // The record currently in a node, if the node is in use.
  function RecordAt(used: seq<Cell>, slot: nat): Option<Data> {
    if used == [] then None
    else if used[0].slot == slot then Some(used[0].data)
    else RecordAt(used[1..], slot)
  }

  function AfterCopy(e: Endpoint, t: Table): Endpoint
    requires e.phase.Copying?
  {
    match RecordAt(t.used, e.phase.slot)
    case None => e.(phase := BadPointer)
    case Some(record) =>
      e.(conf := CopyField(e.conf, record, e.phase.field),
         phase := if e.phase.field + 1 < FIELDS then Copying(e.phase.slot, e.phase.field + 1) else Waiting)
  }

  function AfterFetch(e: Endpoint, t: Table): Endpoint {
    match Lookup(t, e.conf.port)
    case None => e.(phase := BadPointer)
    case Some(cell) => e.(phase := Copying(cell.slot, 0))
  }

  function AfterStart(e: Endpoint): Endpoint {
    match ParseArguments(e.conf)
    case None => e.(phase := Exited)
    case Some(conf) => e.(conf := conf, phase := Waiting)
  }

  /* ----- Steps ----- */

  predicate Enabled(s: State, step: Step) {
    match step
    case Accept(task) => ValidTask(task)
    case Pop => s.worker.Idle? && s.queue != []
    case Look => s.worker.Popped?
    case Signal => s.worker.Updated?
    case Launch(pid) => s.worker.Relaunching? && pid !in s.procs
    case LaunchFails => s.worker.Relaunching?
    case Start(pid) => InPhase(s, pid, Starting)
    case Consume(pid) => InPhase(s, pid, Waiting) && s.procs[pid].pending > 0
    case Fetch(pid) => InPhase(s, pid, Signalled) && MutexFree(s)
    case Copy(pid) => pid in s.procs && s.procs[pid].phase.Copying?
    case TimeOut(pid) => InPhase(s, pid, Waiting) && s.procs[pid].pending == 0
    case Deregister(pid) => InPhase(s, pid, TimedOut) && MutexFree(s)
    case Exit(pid) => InPhase(s, pid, Deregistered)
    case Crash(pid) => pid in s.procs && (Active(s.procs[pid]) || s.procs[pid].phase.Deregistered?)
    case Reap(pid) => InPhase(s, pid, Exited)
  }

  function SetProc(s: State, pid: int, e: Endpoint): State {
    s.(procs := s.procs[pid := e])
  }

  function SetPhase(s: State, pid: int, phase: Phase): State
    requires pid in s.procs
  {
    SetProc(s, pid, s.procs[pid].(phase := phase))
  }

  function LookStep(s: State): State
    requires s.worker.Popped?
  {
    var task := s.worker.task;
    match Lookup(s.table, task.port)
    case None => s.(worker := Relaunching(task))
    case Some(cell) =>
      // the recorded pid is kept
      var data := task.(pid := cell.data.pid);
      s.(table := Update(s.table, data), worker := Updated(data))
  }

  function SignalStep(s: State): State
    requires s.worker.Updated?
  {
    var task := s.worker.task;
    if Exists(s, task.pid) then
      var e := s.procs[task.pid];
      SetProc(s, task.pid, e.(pending := e.pending + 1)).(worker := Idle)
    else
      s.(table := Remove(s.table, task.port), worker := Relaunching(task))
  }

  // fork and add_element; a full list leaves the new process unlisted.
  function LaunchStep(s: State, pid: int): State
    requires s.worker.Relaunching?
  {
    var data := s.worker.task.(pid := pid);
    s.(table := Add(s.table, data),
       procs := s.procs[pid := Endpoint(data.port, data, 0, Starting)],
       worker := Idle)
  }

  function DeregisterStep(s: State, pid: int): State
    requires pid in s.procs
  {
    SetPhase(s, pid, Deregistered).(table := Remove(s.table, s.procs[pid].conf.port))
  }

  function Apply(s: State, step: Step): State
    requires Enabled(s, step)
  {
    match step
    case Accept(task) => s.(queue := s.queue + [task], accepted := s.accepted + [task])
    case Pop => s.(queue := s.queue[1..], worker := Popped(s.queue[0]), handled := s.handled + [s.queue[0]])
    case Look => LookStep(s)
    case Signal => SignalStep(s)
    case Launch(pid) => LaunchStep(s, pid)
    case LaunchFails => s.(worker := Idle)
    case Start(pid) => SetProc(s, pid, AfterStart(s.procs[pid]))
    case Consume(pid) => SetProc(s, pid, s.procs[pid].(pending := s.procs[pid].pending - 1, phase := Signalled))
    case Fetch(pid) => SetProc(s, pid, AfterFetch(s.procs[pid], s.table))
    case Copy(pid) => SetProc(s, pid, AfterCopy(s.procs[pid], s.table))
    case TimeOut(pid) => SetPhase(s, pid, TimedOut)
    case Deregister(pid) => DeregisterStep(s, pid)
    case Exit(pid) => SetPhase(s, pid, Exited)
    case Crash(pid) => SetPhase(s, pid, Exited)
    case Reap(pid) => SetPhase(s, pid, Gone)
  }

  /* ----- Runs ----- */

  // The state after the steps, None when one of them is not enabled.
  function Run(s: State, steps: seq<Step>): Option<State>
    decreases |steps|
  {
    if steps == [] then Some(s)
    else if Enabled(s, steps[0]) then Run(Apply(s, steps[0]), steps[1..])
    else None
  }

  // The steps only ever accept tasks for these ports.
  predicate Names(steps: seq<Step>, ports: set<int>) {
    forall i :: 0 <= i < |steps| && steps[i].Accept? ==> steps[i].task.port in ports
  }

  ghost predicate Reachable(n: nat, ports: set<int>, s: State) {
    exists steps :: Names(steps, ports) && Run(Init(n), steps) == Some(s)
  }

  // The steps of one endpoint process.
  predicate OwnStep(step: Step, pid: int) {
    match step
    case Accept(_) => false
    case Pop => false
    case Look => false
    case Signal => false
    case Launch(_) => false
    case LaunchFails => false
    case _ => step.pid == pid
  }

  predicate OwnSteps(steps: seq<Step>, pid: int) {
    forall i :: 0 <= i < |steps| ==> OwnStep(steps[i], pid)
  }

  // No process crashes and no fork fails.
  predicate Calm(steps: seq<Step>) {
    forall i :: 0 <= i < |steps| ==> !steps[i].Crash? && !steps[i].LaunchFails?
  }

  ghost predicate CalmlyReachable(n: nat, ports: set<int>, s: State) {
    exists steps :: Names(steps, ports) && Calm(steps) && Run(Init(n), steps) == Some(s)
  }

  lemma {:induction false} RunExtend(s: State, steps: seq<Step>, step: Step)
    requires Run(s, steps).Some? && Enabled(Run(s, steps).value, step)
    ensures Run(s, steps + [step]) == Some(Apply(Run(s, steps).value, step))
    decreases |steps|
  {
    if steps == [] {
      assert [] + [step] == [step];
      assert Run(Apply(s, step), []) == Some(Apply(s, step));
    } else {
      assert (steps + [step])[1..] == steps[1..] + [step];
      RunExtend(Apply(s, steps[0]), steps[1..], step);
    }
  }

  lemma {:induction false} RunConcat(s: State, first: seq<Step>, rest: seq<Step>)
    requires Run(s, first).Some?
    ensures Run(s, first + rest) == Run(Run(s, first).value, rest)
    decreases |first|
  {
    if first == [] {
      assert [] + rest == rest;
    } else {
      assert (first + rest)[1..] == first[1..] + rest;
      RunConcat(Apply(s, first[0]), first[1..], rest);
    }
  }

  // The last step of a run.
  lemma {:induction false} RunLast(s: State, steps: seq<Step>)
    requires steps != [] && Run(s, steps).Some?
    ensures var front, last := steps[..|steps|-1], steps[|steps|-1];
            && Run(s, front).Some? && Enabled(Run(s, front).value, last)
            && Run(s, steps) == Some(Apply(Run(s, front).value, last))
    decreases |steps|
  {
    var front, last := steps[..|steps|-1], steps[|steps|-1];
    assert steps == front + [last];
    if |steps| == 1 {
      assert front == [] && steps[1..] == [];
    } else {
      assert front[1..] == steps[1..][..|steps|-2] && front[0] == steps[0];
      RunLast(Apply(s, steps[0]), steps[1..]);
    }
  }

  /* ----- What is claimed ----- */

  // The endpoint is listed under its own pid.
  predicate Listed(t: Table, port: int, pid: int) {
    Lookup(t, port).Some? && Lookup(t, port).value.data.pid == pid
  }

  predicate PortsDistinct(used: seq<Cell>) {
    forall i, j :: 0 <= i < j < |used| ==> used[i].data.port != used[j].data.port
  }

  // Each port has at most one endpoint that has not deregistered, it is listed under its own pid,
  // and no endpoint ever holds a null or dangling pointer.
  ghost predicate Safe(s: State) {
    && PortsDistinct(s.table.used)
    && (forall pid :: pid in s.procs && Active(s.procs[pid]) ==>
                        !s.procs[pid].phase.BadPointer? && Listed(s.table, s.procs[pid].port, pid))
    && (forall p, q | p in s.procs && q in s.procs
                      && Active(s.procs[p]) && Active(s.procs[q]) && s.procs[p].port == s.procs[q].port
          :: p == q)
  }

  ghost predicate AlwaysSafe(n: nat, ports: set<int>) {
    forall s :: Reachable(n, ports, s) ==> Safe(s)
  }

  // The port survives the endpoint's 16-bit reading of it, or makes the endpoint exit at once.
  predicate Representable(port: int) {
    Wrap(port) == port || Wrap(port) == 0
  }

  // What the endpoint streams to: 16 bits of the remote port are used.
  predicate Coherent(conf: Data, record: Data) {
    && conf.port == record.port
    && Wrap(conf.destPort) == Wrap(record.destPort)
    && conf.destAddr == record.destAddr
    && conf.duration == record.duration
  }

  // Equal in everything the client asked for.
  predicate SameRequest(a: Data, b: Data) {
    a.(pid := 0) == b.(pid := 0)
  }

  // The last task naming the port.
  function LastTask(tasks: seq<Data>, port: int): Option<Data> {
    if tasks == [] then None
    else if tasks[|tasks|-1].port == port then Some(tasks[|tasks|-1])
    else LastTask(tasks[..|tasks|-1], port)
  }
}
