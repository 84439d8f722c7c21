/**
 What holds in every run of the server and its endpoints, and exactly when.
 */
module ProtocolTheorems {
  import opened Wrappers
  import opened Registry
  import opened Protocol
  import opened ProtocolInvariant
  import opened Scenarios

  /* ----- Consequences of the invariant, for every reachable state ----- */

  lemma InvImpliesSafe(s: State, n: nat, ports: set<int>)
    requires Inv(s, n, ports)
    ensures Safe(s)
  {
    forall pid | pid in s.procs && Active(s.procs[pid])
      ensures !s.procs[pid].phase.BadPointer? && Listed(s.table, s.procs[pid].port, pid)
    {
      assert EndpointOk(s.table, s.worker, pid, s.procs[pid]);
    }
  }

  /** A live endpoint waiting with no signal queued, none about to be sent and no newer task in the
      worker's hand streams where its registry record says, and that is where the last task
      handled for its port says, although the copy was made outside the mutex, field by field. */
  lemma WaitingEndpointIsCoherent(n: nat, ports: set<int>, s: State, pid: int)
    requires Adequate(n, ports) && Reachable(n, ports, s)
    requires InPhase(s, pid, Waiting) && !SignalComing(s.worker, s.procs[pid])
    ensures var e := s.procs[pid];
            && Lookup(s.table, e.port).Some?
            && Lookup(s.table, e.port).value.data.pid == pid
            && Coherent(e.conf, Lookup(s.table, e.port).value.data)
            && (!TaskInHand(s.worker, e.port) ==>
                  LastTask(s.handled, e.port).Some? && Coherent(e.conf, LastTask(s.handled, e.port).value))
  {
    ReachableInv(n, ports, s);
    assert EndpointOk(s.table, s.worker, pid, s.procs[pid]);
    LookupIsMember(s.table, s.procs[pid].port);
  }

  /** The record an endpoint fetches or removes is its own. */
  lemma EndpointTouchesOwnRecord(n: nat, ports: set<int>, s: State, pid: int)
    requires Adequate(n, ports) && Reachable(n, ports, s)
    requires Enabled(s, Fetch(pid)) || Enabled(s, Deregister(pid))
    ensures Listed(s.table, s.procs[pid].conf.port, pid)
    ensures Enabled(s, Deregister(pid)) ==>
              forall cell :: cell in s.table.used && cell.data.pid != pid ==>
                               cell in Apply(s, Deregister(pid)).table.used
  {
    ReachableInv(n, ports, s);
    if Enabled(s, Fetch(pid)) {
      FetchFindsOwnRecord(s, pid, n, ports);
    } else {
      DeregisterRemovesOwn(s, pid, n, ports);
      var port := s.procs[pid].conf.port;
      RemoveKeepsMembers(s.table, port);
      forall cell | cell in s.table.used && cell.data.pid != pid ensures cell.data.port != port {
        MemberIsLookup(s.table, cell);
      }
    }
  }

  /** No task is lost or reordered on its way to the worker, and `add_element` never fails. */
  lemma TasksConservedAndListNeverFull(n: nat, ports: set<int>, s: State)
    requires Adequate(n, ports) && Reachable(n, ports, s)
    ensures s.accepted == s.handled + s.queue
    ensures s.worker.Relaunching? ==> |s.table.used| < n
  {
    ReachableInv(n, ports, s);
    if s.worker.Relaunching? {
      RoomToAdd(s, n, ports);
      assert |Chain(s.table)| == n;
    }
  }

  /** A record always holds the last task handled for its port, under the pid of a process that
      was launched for that port. */
  lemma {:induction false} RecordIsLatestTask(n: nat, ports: set<int>, s: State, port: int)
    requires Adequate(n, ports) && Reachable(n, ports, s)
    requires Lookup(s.table, port).Some? && !TaskInHand(s.worker, port)
    ensures var record := Lookup(s.table, port).value.data;
            && LastTask(s.handled, port).Some? && SameRequest(record, LastTask(s.handled, port).value)
            && record.pid in s.procs && s.procs[record.pid].port == port
  {
    ReachableInv(n, ports, s);
    LookupIsMember(s.table, port);
  }

  lemma LossOfInv(n: nat, ports: set<int>, s: State, step: Step, port: int)
    requires Inv(s, n, ports) && Enabled(s, step)
    requires Lookup(s.table, port).Some? && Lookup(Apply(s, step).table, port).None?
    ensures var pid := Lookup(s.table, port).value.data.pid;
            || step == Deregister(pid)
            || (step.Signal? && !Exists(s, pid) && Apply(s, step).worker == Relaunching(s.worker.task)
                && s.worker.task.port == port)
  {
    LookupIsMember(s.table, port);
    match step {
      case Deregister(pid) =>
        DeregisterRemovesOwn(s, pid, n, ports);
        if s.procs[pid].conf.port != port { LookupAfterRemove(s.table, port, s.procs[pid].conf.port); }
      case Signal =>
        if !Exists(s, s.worker.task.pid) && s.worker.task.port != port {
          LookupAfterRemove(s.table, port, s.worker.task.port);
        }
      case Look =>
        if Lookup(s.table, s.worker.task.port).Some? {
          LookupAfterUpdate(s.table, Apply(s, step).worker.task, port);
        }
      case Launch(pid) => LookupAfterAdd(s.table, s.worker.task.(pid := pid), port);
      case _ =>
    }
  }

  /** A record leaves the registry exactly when its own endpoint deregisters, or when the worker is to
      signal its process while handling a task for the port, and finds it gone; the worker then goes on
      to launch another. */
  lemma RecordLossExactly(n: nat, ports: set<int>, s: State, step: Step, port: int)
    requires Adequate(n, ports) && Reachable(n, ports, s) && Enabled(s, step)
    requires Lookup(s.table, port).Some?
    ensures var pid := Lookup(s.table, port).value.data.pid;
            && pid in s.procs
            && (Lookup(Apply(s, step).table, port).None? <==>
                || step == Deregister(pid)
                || (step.Signal? && s.worker.task.port == port && s.procs[pid].phase == Gone))
            && (step.Signal? && Lookup(Apply(s, step).table, port).None? ==>
                  Apply(s, step).worker == Relaunching(s.worker.task))
  {
    ReachableInv(n, ports, s);
    LookupIsMember(s.table, port);
    if Lookup(Apply(s, step).table, port).None? {
      hide Apply;
      LossOfInv(n, ports, s, step, port);
    } else if step == Deregister(Lookup(s.table, port).value.data.pid) {
      DeregisterDrops(s, step.pid, n, ports);
    } else if step.Signal? && s.worker.task.port == port && !Exists(s, Lookup(s.table, port).value.data.pid) {
      RemoveKeepsMembers(s.table, port);
    }
  }

  lemma DeregisterDrops(s: State, pid: int, n: nat, ports: set<int>)
    requires Inv(s, n, ports) && Enabled(s, Deregister(pid))
    ensures Lookup(Apply(s, Deregister(pid)).table, s.procs[pid].port).None?
  {
    assert EndpointOk(s.table, s.worker, pid, s.procs[pid]);
    RemoveKeepsMembers(s.table, s.procs[pid].port);
  }

  /** An endpoint never times out on an update: when it does, it streams what its record and the last
      task handled for its port ask for. */
  lemma TimesOutUpToDate(n: nat, ports: set<int>, s: State, pid: int)
    requires Adequate(n, ports) && Reachable(n, ports, s)
    requires Enabled(s, TimeOut(pid)) && s.worker.Idle?
    ensures var e := s.procs[pid];
            && Lookup(s.table, e.port).Some? && Coherent(e.conf, Lookup(s.table, e.port).value.data)
            && LastTask(s.handled, e.port).Some? && Coherent(e.conf, LastTask(s.handled, e.port).value)
  {
    hide *;
    TimeOutIsQuiet(s, pid);
    WaitingEndpointIsCoherent(n, ports, s, pid);
    IdleHasNoTask(s, s.procs[pid].port);
  }

  lemma TimeOutIsQuiet(s: State, pid: int)
    requires Enabled(s, TimeOut(pid)) && s.worker.Idle?
    ensures InPhase(s, pid, Waiting) && !SignalComing(s.worker, s.procs[pid])
  {
  }

  lemma IdleHasNoTask(s: State, port: int)
    requires s.worker.Idle?
    ensures !TaskInHand(s.worker, port)
  {
  }

  /* ----- Exactly when every run is safe ----- */

  /** The protocol is safe in every run exactly when the registry has a node for every port the
      tasks may name and every port fits 16 bits, or is a multiple of 65536, which makes the endpoint
      exit at once. Tasks never name port 0: `addTask` rejects it. */
  lemma SafeExactlyWhenAdequate(n: nat, ports: set<int>)
    requires n >= 2 && 0 !in ports
    ensures AlwaysSafe(n, ports) <==>
            |ports| <= n && forall p :: p in ports ==> 0 <= p < 65536 || p % 65536 == 0
  {
    assert forall p :: Representable(p) <==> 0 <= p < 65536 || p % 65536 == 0;
    if |ports| > n {
      var s := TooManyPortsLeaveOneUnlisted(n, ports);
      CalmIsReachable(n, ports, s);
      assert !Safe(s);
    } else if p :| p in ports && !Representable(p) {
      var s := UnrepresentablePortDereferencesNull(n, ports, p);
      CalmIsReachable(n, ports, s);
      assert !Safe(s);
    } else {
      hide Representable;
      forall s | Reachable(n, ports, s) ensures Safe(s) {
        ReachableInv(n, ports, s);
        InvImpliesSafe(s, n, ports);
      }
    }
  }

  /** One task for port 70000 is enough. */
  lemma PortSeventyThousandIsUnsafe(n: nat)
    requires n >= 2
    ensures !AlwaysSafe(n, {70000})
  {
    SafeExactlyWhenAdequate(n, {70000});
    assert 70000 in {70000} && !Representable(70000);
  }
}
