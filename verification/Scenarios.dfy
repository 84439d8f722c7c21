/**
 Runs of the protocol in which nothing crashes and no fork fails, and which still go wrong.
 */
module Scenarios {
  import opened Wrappers
  import opened Registry
  import opened Protocol

  /* ----- Building a run ----- */

  lemma CalmInit(n: nat, ports: set<int>)
    ensures CalmlyReachable(n, ports, Init(n))
  {
    assert Names([], ports) && Calm([]) && Run(Init(n), []) == Some(Init(n));
  }

  lemma CalmIsReachable(n: nat, ports: set<int>, s: State)
    requires CalmlyReachable(n, ports, s)
    ensures Reachable(n, ports, s)
  {
  }

  lemma CalmStep(n: nat, ports: set<int>, s: State, step: Step) returns (s': State)
    requires CalmlyReachable(n, ports, s) && Enabled(s, step) && !step.Crash? && !step.LaunchFails?
    requires step.Accept? ==> step.task.port in ports
    ensures s' == Apply(s, step) && CalmlyReachable(n, ports, s')
  {
    var steps :| Names(steps, ports) && Calm(steps) && Run(Init(n), steps) == Some(s);
    s' := Apply(s, step);
    RunExtend(Init(n), steps, step);
    hide Run, Apply, Enabled;
    assert Names(steps + [step], ports) && Calm(steps + [step]);
  }

  // A task is queued and popped with no other in the queue.
  lemma PopOnly(n: nat, ports: set<int>, s: State, d: Data) returns (s': State)
    requires CalmlyReachable(n, ports, s) && s.worker.Idle? && s.queue == []
    requires ValidTask(d) && d.port in ports
    ensures CalmlyReachable(n, ports, s')
    ensures s' == s.(worker := Popped(d), accepted := s.accepted + [d], handled := s.handled + [d])
  {
    hide CalmlyReachable;
    s' := CalmStep(n, ports, s, Accept(d));
    assert s'.queue == [d] && [d][1..] == [];
    s' := CalmStep(n, ports, s', Pop);
  }

  // The state after a task is queued and a process launched for it.
  function Launched(s: State, d: Data, pid: int): State {
    var data := d.(pid := pid);
    s.(table := Add(s.table, data),
       procs := s.procs[pid := Endpoint(d.port, data, 0, Starting)],
       accepted := s.accepted + [d],
       handled := s.handled + [d])
  }

  lemma LaunchTask(n: nat, ports: set<int>, s: State, d: Data, pid: int) returns (s': State)
    requires CalmlyReachable(n, ports, s) && s.worker.Idle? && s.queue == []
    requires ValidTask(d) && d.port in ports && Lookup(s.table, d.port).None? && pid !in s.procs
    ensures CalmlyReachable(n, ports, s') && s' == Launched(s, d, pid)
  {
    hide CalmlyReachable, Lookup, Add;
    var s2 := PopOnly(n, ports, s, d);
    var s3 := CalmStep(n, ports, s2, Look);
    s' := CalmStep(n, ports, s3, Launch(pid));
  }

  // The state after a task is queued, written to the record of its port, and signalled.
  function Refreshed(s: State, d: Data, pid: int): State
    requires pid in s.procs
  {
    s.(table := Update(s.table, d.(pid := pid)),
       procs := s.procs[pid := s.procs[pid].(pending := s.procs[pid].pending + 1)],
       accepted := s.accepted + [d],
       handled := s.handled + [d])
  }

  lemma SignalTask(n: nat, ports: set<int>, s: State, d: Data, pid: int) returns (s': State)
    requires CalmlyReachable(n, ports, s) && s.worker.Idle? && s.queue == []
    requires ValidTask(d) && d.port in ports && Listed(s.table, d.port, pid) && Exists(s, pid)
    ensures CalmlyReachable(n, ports, s') && s' == Refreshed(s, d, pid)
  {
    hide CalmlyReachable, Lookup, Update;
    var s2 := PopOnly(n, ports, s, d);
    var s3 := CalmStep(n, ports, s2, Look);
    assert s3 == s2.(table := Update(s2.table, d.(pid := pid)), worker := Updated(d.(pid := pid)));
    s' := CalmStep(n, ports, s3, Signal);
  }

  // A table with one record.
  lemma OneRecord(t: Table, d: Data, slot: nat, port: int)
    requires t.used == [Cell(slot, d)]
    ensures Lookup(t, port) == if port == d.port then Some(t.used[0]) else None
  {
    FirstIndex(Records(t.used), port, if port == d.port then 0 else 1);
  }

  lemma RemoveOnly(t: Table, port: int)
    requires |t.used| == 1 && t.used[0].data.port == port
    ensures Remove(t, port).used == [] && Lookup(Remove(t, port), port).None?
  {
    OneRecord(t, t.used[0].data, t.used[0].slot, port);
  }

  // The first launch of all: the record is in node 0, under pid 0.
  lemma FirstLaunch(n: nat, ports: set<int>, d: Data) returns (s: State)
    requires n >= 2 && ValidTask(d) && d.port in ports
    ensures CalmlyReachable(n, ports, s) && s == Launched(Init(n), d, 0)
    ensures s.table.used == [Cell(0, d.(pid := 0))] && Listed(s.table, d.port, 0)
  {
    CalmInit(n, ports);
    s := LaunchTask(n, ports, Init(n), d, 0);
    hide CalmlyReachable;
    assert s.table.used == [Cell(0, d.(pid := 0))];
    OneRecord(s.table, d.(pid := 0), 0, d.port);
  }

  // A later task for the same port leaves one record.
  lemma RefreshedRecord(t: Table, d: Data)
    requires |t.used| == 1 && t.used[0].data.port == d.port
    ensures Update(t, d).used == [t.used[0].(data := d)]
  {
    OneRecord(t, t.used[0].data, t.used[0].slot, d.port);
  }

  // A task the endpoint can use, and one without a duration.
  function Probe(port: int): Data {
    Data(port, 5000, "127.0.0.1", 1, 0, 0)
  }

  function WithoutDuration(port: int): Data {
    Data(port, 5000, "127.0.0.1", 0, 0, 0)
  }

  // The first process of all waits for its first signal.
  lemma FirstWait(n: nat, ports: set<int>, port: int) returns (s: State)
    requires n >= 2 && port in ports && Wrap(port) != 0
    ensures CalmlyReachable(n, ports, s) && s.worker.Idle? && s.queue == [] && s.handled == [Probe(port)]
    ensures s.table.used == [Cell(0, Probe(port))] && Listed(s.table, port, 0)
    ensures s.procs == map[0 := Endpoint(port, Probe(port).(port := Wrap(port)), 0, Waiting)]
  {
    s := FirstLaunch(n, ports, Probe(port));
    s := CalmStep(n, ports, s, Start(0));
    hide CalmlyReachable, Add, Lookup;
  }

  // The second task for its port is written to its record, and signalled.
  lemma SecondSignal(n: nat, ports: set<int>, s: State, d: Data) returns (s': State)
    requires CalmlyReachable(n, ports, s) && s.worker.Idle? && s.queue == []
    requires ValidTask(d) && d.port in ports && d.pid == 0
    requires s.table.used == [Cell(0, d)] && Listed(s.table, d.port, 0) && Exists(s, 0)
    ensures CalmlyReachable(n, ports, s') && s'.worker.Idle? && s'.queue == []
    ensures s'.handled == s.handled + [d] && s'.table.used == [Cell(0, d)]
    ensures s'.procs == s.procs[0 := s.procs[0].(pending := s.procs[0].pending + 1)]
    ensures forall port :: Lookup(s'.table, port) == if port == d.port then Some(Cell(0, d)) else None
  {
    RefreshedRecord(s.table, d);
    s' := SignalTask(n, ports, s, d, 0);
    hide CalmlyReachable, Update;
    forall port ensures Lookup(s'.table, port) == if port == d.port then Some(Cell(0, d)) else None {
      OneRecord(s'.table, d, 0, port);
    }
  }

  /* ----- Unusable ports ----- */

  /** An endpoint whose port does not survive the 16-bit reading looks up another port, finds
      nothing, and copies from NULL. */
  lemma UnrepresentablePortDereferencesNull(n: nat, ports: set<int>, port: int) returns (s: State)
    requires n >= 2 && port in ports && !Representable(port)
    ensures CalmlyReachable(n, ports, s) && InPhase(s, 0, BadPointer)
  {
    s := FirstWait(n, ports, port);
    s := SecondSignal(n, ports, s, Probe(port));
    hide CalmlyReachable, Lookup;
    s := CalmStep(n, ports, s, Consume(0));
    s := CalmStep(n, ports, s, Fetch(0));
  }

  /* ----- More ports than nodes ----- */

  lemma {:induction false} FillList(n: nat, ports: set<int>, names: seq<int>, k: nat) returns (s: State)
    requires k <= n && k <= |names| && Distinct(names)
    requires forall i :: 0 <= i < |names| ==> names[i] in ports && names[i] != 0
    ensures CalmlyReachable(n, ports, s) && |s.table.used| + |s.table.free| == n
    ensures |s.table.used| == k
    ensures s.worker.Idle? && s.queue == []
    ensures forall i :: 0 <= i < k ==> s.table.used[i].data.port == names[i]
    ensures forall pid :: pid in s.procs ==> 0 <= pid < k
  {
    if k == 0 {
      CalmInit(n, ports);
      s := Init(n);
    } else {
      var s0 := FillList(n, ports, names, k - 1);
      FirstIndex(Records(s0.table.used), names[k-1], k - 1);
      s := LaunchTask(n, ports, s0, Probe(names[k-1]), k - 1);
    }
  }

  ghost function Enumerate<T>(s: set<T>): (names: seq<T>)
    ensures |names| == |s| && Distinct(names)
    ensures forall i :: 0 <= i < |names| ==> names[i] in s
  {
    if s == {} then [] else
      var p :| p in s;
      [p] + Enumerate(s - {p})
  }

  /** With one port more than there are nodes, some run leaves a live endpoint unlisted. */
  lemma TooManyPortsLeaveOneUnlisted(n: nat, ports: set<int>) returns (s: State)
    requires n >= 2 && |ports| > n && 0 !in ports
    ensures CalmlyReachable(n, ports, s) && InPhase(s, n, Starting) && !Listed(s.table, s.procs[n].port, n)
  {
    var names := Enumerate(ports);
    var full := FillList(n, ports, names, n);
    assert full.table.free == [];
    FirstIndex(Records(full.table.used), names[n], n);
    s := LaunchTask(n, ports, full, Probe(names[n]), n);
    assert s.table == full.table;
  }

  /* ----- A task that comes too late ----- */

  /** A task can be lost for good although nothing fails: it is handled after the endpoint has timed
      out and before the endpoint removes its record (in the source, while it joins its streaming
      thread). The worker takes the process for a live one, and signals it. */
  lemma LateTaskIsLost(n: nat, ports: set<int>, port: int) returns (s: State)
    requires n >= 2 && port in ports && Representable(port) && Wrap(port) != 0
    ensures CalmlyReachable(n, ports, s) && s.worker.Idle? && s.queue == []
    ensures s.handled == [Probe(port), Probe(port)]
    ensures Lookup(s.table, port).None? && s.procs.Keys == {0} && s.procs[0].phase == Gone
  {
    hide CalmlyReachable, Lookup, Remove;
    s := FirstWait(n, ports, port);
    s := CalmStep(n, ports, s, TimeOut(0));
    s := SecondSignal(n, ports, s, Probe(port));
    RemoveOnly(s.table, port);
    s := CalmStep(n, ports, s, Deregister(0));
    s := CalmStep(n, ports, s, Exit(0));
    s := CalmStep(n, ports, s, Reap(0));
  }

  /* ----- A process that was waited for ----- */

  // The only entry names a process that exited on its arguments and was waited for.
  lemma ReapedFirst(n: nat, ports: set<int>, port: int) returns (s: State)
    requires n >= 2 && port in ports && port != 0
    ensures CalmlyReachable(n, ports, s) && s.worker.Idle? && s.queue == []
    ensures s.handled == [WithoutDuration(port)]
    ensures s.table.used == [Cell(0, WithoutDuration(port))] && s.table.free != []
    ensures s.procs.Keys == {0} && s.procs[0].phase == Gone
  {
    s := FirstLaunch(n, ports, WithoutDuration(port));
    assert s.table.free != [];
    s := CalmStep(n, ports, s, Start(0));
    s := CalmStep(n, ports, s, Reap(0));
    hide CalmlyReachable, Add, Lookup;
  }

  // A task for the only port, whose process is gone: its entry is dropped.
  lemma DropOnly(n: nat, ports: set<int>, s: State, d: Data, pid: int) returns (s': State)
    requires CalmlyReachable(n, ports, s) && s.worker.Idle? && s.queue == []
    requires ValidTask(d) && d.port in ports && |s.table.used| == 1
    requires s.table.used[0].data.port == d.port && s.table.used[0].data.pid == pid && !Exists(s, pid)
    ensures CalmlyReachable(n, ports, s') && s'.worker == Relaunching(d.(pid := pid)) && s'.queue == []
    ensures s'.handled == s.handled + [d] && s'.procs == s.procs && s'.table.used == [] && s'.table.free != []
  {
    var d' := d.(pid := pid);
    OneRecord(s.table, s.table.used[0].data, s.table.used[0].slot, d.port);
    RefreshedRecord(s.table, d');
    var u := Update(s.table, d');
    RemoveOnly(u, d.port);
    assert Remove(u, d.port).free != [];
    hide CalmlyReachable, Lookup, Update, Remove;
    s' := PopOnly(n, ports, s, d);
    s' := CalmStep(n, ports, s', Look);
    assert s'.worker == Updated(d') && s'.table == u && s'.procs == s.procs;
    s' := CalmStep(n, ports, s', Signal);
  }

  // The launch that follows, and its start.
  lemma LaunchOnly(n: nat, ports: set<int>, s: State, port: int, pid: int) returns (s': State)
    requires CalmlyReachable(n, ports, s) && s.worker == Relaunching(Probe(port)) && s.queue == []
    requires s.table.used == [] && s.table.free != [] && pid !in s.procs && Wrap(port) != 0
    ensures CalmlyReachable(n, ports, s') && s'.worker.Idle? && s'.queue == [] && s'.handled == s.handled
    ensures Listed(s'.table, port, pid)
    ensures pid in s'.procs && s'.procs[pid].phase == Waiting && s'.procs == s.procs[pid := s'.procs[pid]]
  {
    hide CalmlyReachable, Lookup;
    s' := CalmStep(n, ports, s, Launch(pid));
    OneRecord(s'.table, Probe(port).(pid := pid), s.table.free[0], port);
    s' := CalmStep(n, ports, s', Start(pid));
  }

  /** Once a process that exited on its arguments has been waited for, the next task with a duration is
      served: the entry is dropped, and a new process is launched, listed, and waits for signals. */
  lemma ReapedPortIsServedAgain(n: nat, ports: set<int>, port: int) returns (s: State)
    requires n >= 2 && port in ports && Wrap(port) != 0
    ensures CalmlyReachable(n, ports, s) && s.worker.Idle? && s.queue == []
    ensures s.handled == [WithoutDuration(port), Probe(port)]
    ensures s.procs.Keys == {0, 1} && s.procs[0].phase == Gone && s.procs[1].phase == Waiting
    ensures Listed(s.table, port, 1)
  {
    hide CalmlyReachable, Lookup;
    s := ReapedFirst(n, ports, port);
    s := DropOnly(n, ports, s, Probe(port), 0);
    s := LaunchOnly(n, ports, s, port, 1);
  }

  /* ----- A task without a duration ----- */

  /** A request without a duration, which the handler accepts, leaves its port to a process that has
      already exited; the next task for the port is signalled to it. */
  lemma MissingDurationLeavesDeadEntry(n: nat, ports: set<int>, port: int) returns (s: State)
    requires n >= 2 && port in ports && port != 0
    ensures CalmlyReachable(n, ports, s) && s.worker.Idle? && s.queue == []
    ensures s.handled == [WithoutDuration(port), WithoutDuration(port)]
    ensures s.procs.Keys == {0} && Listed(s.table, port, 0)
    ensures s.procs[0].phase == Exited && s.procs[0].pending == 1
  {
    var d := WithoutDuration(port);
    s := FirstLaunch(n, ports, d);
    s := CalmStep(n, ports, s, Start(0));
    s := SecondSignal(n, ports, s, d);
  }
}
