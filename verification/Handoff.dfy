/**
 The handoff inside one client endpoint: the main thread writes `conf` and notifies a condition
 variable; the endpoint thread streams under the lock and waits on it.

 The lock of `conf` is explicit, `conf` is written and read field by field, and a wait may end
 spuriously. Main tests nothing before it notifies, the endpoint thread tests `running` before it
 takes the lock, and its wait has no predicate, as in the code.
 */
module Handoff {
  import opened Wrappers
  import opened Registry
  import Protocol

  datatype Owner = Nobody | MainOwns | ThreadOwns

  datatype MainPhase =
    | Serving                  // waiting for a signal
    | Writing(field: nat)      // holds the lock
    | NotifyDue                // lock released, notify to come
    | Ending                   // holds the lock to stop the thread
    | Stopped                  // running is false, still holds the lock
    | Joining

  datatype ThreadPhase =
    | Checking                 // about to test running
    | Locking                  // running was true, lock not taken yet
    | Opening                  // holds the lock
    | Addressed(addr: string, port: int)   // holds the lock, stream created
    | Streaming                // holds the lock
    | Blocked                  // in the wait, lock released
    | Waking                   // woken, lock not taken yet
    | Relocked                 // holds the lock
    | Finished

  // version: index of the write of conf that was current
  datatype Stream = Stream(addr: string, port: int, duration: int, version: nat)

  datatype State = State(
    conf: Data,
    running: bool,
    owner: Owner,
    main: MainPhase,
    thread: ThreadPhase,
    written: seq<Data>,              // history: the values of conf, the last one current unless being written
    streams: seq<Stream>,            // history: streams played
    begun: nat,                      // history: streams created
    stop: Option<(ThreadPhase, nat)>)   // history: the thread's phase and `begun` when running became false

  datatype Step =
    | MainLock
    | MainWrite(record: Data)
    | MainUnlock
    | MainNotify
    | EndLock
    | EndStop
    | EndNotify
    | ThreadCheck
    | ThreadLock
    | ThreadAddress
    | ThreadStream
    | ThreadWait
    | SpuriousWake
    | ThreadRelock
    | ThreadUnlock

  function Init(conf: Data): State {
    State(conf, true, Nobody, Serving, Checking, [conf], [], 0, None)
  }

  predicate Enabled(s: State, step: Step) {
    match step
    case MainLock => s.main.Serving? && s.owner.Nobody?
    case MainWrite(_) => s.main.Writing? && s.main.field < Protocol.FIELDS
    case MainUnlock => s.main.Writing? && s.main.field == Protocol.FIELDS
    case MainNotify => s.main.NotifyDue?
    case EndLock => s.main.Serving? && s.owner.Nobody?
    case EndStop => s.main.Ending?
    case EndNotify => s.main.Stopped?
    case ThreadCheck => s.thread.Checking?
    case ThreadLock => s.thread.Locking? && s.owner.Nobody?
    case ThreadAddress => s.thread.Opening?
    case ThreadStream => s.thread.Addressed?
    case ThreadWait => s.thread.Streaming?
    case SpuriousWake => s.thread.Blocked?
    case ThreadRelock => s.thread.Waking? && s.owner.Nobody?
    case ThreadUnlock => s.thread.Relocked?
  }

  // Index of the last write of conf.
  function Current(s: State): nat {
    if s.written == [] then 0 else |s.written| - 1
  }

  function Notified(t: ThreadPhase): ThreadPhase {
    if t.Blocked? then Waking else t
  }

  function Apply(s: State, step: Step): State
    requires Enabled(s, step)
  {
    match step
    case MainLock => s.(main := Writing(0), owner := MainOwns)
    case MainWrite(record) =>
      s.(conf := Protocol.CopyField(s.conf, record, s.main.field), main := Writing(s.main.field + 1))
    case MainUnlock => s.(main := NotifyDue, owner := Nobody, written := s.written + [s.conf])
    case MainNotify => s.(main := Serving, thread := Notified(s.thread))
    case EndLock => s.(main := Ending, owner := MainOwns)
    case EndStop => s.(main := Stopped, running := false, stop := Some((s.thread, s.begun)))
    case EndNotify => s.(main := Joining, owner := Nobody, thread := Notified(s.thread))
    case ThreadCheck => s.(thread := if s.running then Locking else Finished)
    case ThreadLock => s.(thread := Opening, owner := ThreadOwns)
    case ThreadAddress => s.(thread := Addressed(s.conf.destAddr, s.conf.destPort), begun := s.begun + 1)
    case ThreadStream =>
      s.(thread := Streaming,
         streams := s.streams + [Stream(s.thread.addr, s.thread.port, s.conf.duration, Current(s))])
    case ThreadWait => s.(thread := Blocked, owner := Nobody)
    case SpuriousWake => s.(thread := Waking)
    case ThreadRelock => s.(thread := Relocked, owner := ThreadOwns)
    case ThreadUnlock => s.(thread := Checking, owner := Nobody)
  }

  function Run(s: State, steps: seq<Step>): Option<State>
    decreases |steps|
  {
    if steps == [] then Some(s)
    else if Enabled(s, steps[0]) then Run(Apply(s, steps[0]), steps[1..])
    else None
  }

  /* ----- The invariant ----- */

  predicate MainHolds(m: MainPhase) {
    m.Writing? || m.Ending? || m.Stopped?
  }

  predicate ThreadHolds(t: ThreadPhase) {
    t.Opening? || t.Addressed? || t.Streaming? || t.Relocked?
  }

  // The stream was made of one write of conf.
  predicate FromOneWrite(st: Stream, written: seq<Data>) {
    && st.version < |written|
    && st.addr == written[st.version].destAddr
    && st.port == written[st.version].destPort
    && st.duration == written[st.version].duration
  }

  predicate StreamedCurrent(s: State) {
    |s.streams| > 0 && s.streams[|s.streams|-1].version == |s.written| - 1
  }

  // Which phases are left once running is false.
  predicate StopOk(s: State) {
    match s.stop
    case None => s.running && !s.main.Stopped? && !s.main.Joining? && !s.thread.Finished?
    case Some((phase, begun)) =>
      && !s.running && (s.main.Stopped? || s.main.Joining?)
      && (s.main.Stopped? ==> !ThreadHolds(s.thread))
      && if phase.Locking? then
           && (s.main.Stopped? ==> s.thread.Locking?)
           && s.begun == if s.thread.Locking? || s.thread.Opening? then begun else begun + 1
         else
           && s.begun == begun
           && !s.thread.Locking? && !s.thread.Opening? && !s.thread.Addressed? && !s.thread.Streaming?
           && (s.thread.Blocked? ==> s.main.Stopped?)
  }

  // Who holds the lock, and what conf and the streams are then.
  ghost predicate LockOk(s: State) {
    && (s.owner.MainOwns? <==> MainHolds(s.main))
    && (s.owner.ThreadOwns? <==> ThreadHolds(s.thread))
    && |s.written| > 0
    && (s.main.Writing? ==> s.main.field <= Protocol.FIELDS)
    && (!s.main.Writing? ==> s.conf == s.written[|s.written|-1])
    && (s.thread.Addressed? ==> s.thread.addr == s.conf.destAddr && s.thread.port == s.conf.destPort)
    && (s.thread.Streaming? ==> StreamedCurrent(s))
    && (s.thread.Blocked? && !s.main.NotifyDue? ==> StreamedCurrent(s))
    && (forall i :: 0 <= i < |s.streams| ==> FromOneWrite(s.streams[i], s.written))
  }

  ghost predicate Inv(s: State) {
    LockOk(s) && StopOk(s)
  }

  predicate ByMain(step: Step) {
    || step.MainLock? || step.MainWrite? || step.MainUnlock? || step.MainNotify?
    || step.EndLock? || step.EndStop? || step.EndNotify?
  }

  lemma MainKeeps(s: State, step: Step)
    requires Inv(s) && Enabled(s, step) && ByMain(step)
    ensures Inv(Apply(s, step))
  {
  }

  lemma ThreadKeepsLock(s: State, step: Step)
    requires LockOk(s) && Enabled(s, step) && !ByMain(step)
    ensures LockOk(Apply(s, step))
  {
  }

  lemma ThreadKeepsStop(s: State, step: Step)
    requires Inv(s) && Enabled(s, step) && !ByMain(step)
    ensures StopOk(Apply(s, step))
  {
  }

  lemma StepKeeps(s: State, step: Step)
    requires Inv(s) && Enabled(s, step)
    ensures Inv(Apply(s, step))
  {
    hide Apply, Enabled, LockOk, StopOk;
    if ByMain(step) {
      MainKeeps(s, step);
    } else {
      ThreadKeepsLock(s, step);
      ThreadKeepsStop(s, step);
    }
  }

  lemma {:induction false} RunKeeps(s: State, steps: seq<Step>)
    requires Inv(s) && Run(s, steps).Some?
    ensures Inv(Run(s, steps).value)
    decreases |steps|
  {
    if steps == [] {
    } else {
      StepKeeps(s, steps[0]);
      RunKeeps(Apply(s, steps[0]), steps[1..]);
    }
  }

  ghost predicate Reachable(conf: Data, s: State) {
    exists steps :: Run(Init(conf), steps) == Some(s)
  }

  lemma {:induction false} RunExtend(s: State, steps: seq<Step>, step: Step)
    requires Run(s, steps).Some? && Enabled(Run(s, steps).value, step)
    ensures Run(s, steps + [step]) == Some(Apply(Run(s, steps).value, step))
    decreases |steps|
  {
    if steps == [] {
      assert [] + [step] == [step];
      assert Run(Apply(s, step), []) == Some(Apply(s, step));
    } else {
      assert (steps + [step])[1..] == steps[1..] + [step];
      RunExtend(Apply(s, steps[0]), steps[1..], step);
    }
  }

  // The last step of a run.
  lemma {:induction false} RunLast(s: State, steps: seq<Step>)
    requires steps != [] && Run(s, steps).Some?
    ensures var front, last := steps[..|steps|-1], steps[|steps|-1];
            && Run(s, front).Some? && Enabled(Run(s, front).value, last)
            && Run(s, steps) == Some(Apply(Run(s, front).value, last))
    decreases |steps|
  {
    var front, last := steps[..|steps|-1], steps[|steps|-1];
    if |steps| == 1 {
      assert front == [] && steps[1..] == [];
    } else {
      assert front[1..] == steps[1..][..|steps|-2] && front[0] == steps[0];
      RunLast(Apply(s, steps[0]), steps[1..]);
    }
  }

  lemma TakeStep(conf: Data, s: State, step: Step) returns (s': State)
    requires Reachable(conf, s) && Enabled(s, step)
    ensures s' == Apply(s, step) && Reachable(conf, s')
  {
    var steps :| Run(Init(conf), steps) == Some(s);
    RunExtend(Init(conf), steps, step);
    s' := Apply(s, step);
  }

  lemma ReachableInv(conf: Data, s: State)
    requires Reachable(conf, s)
    ensures Inv(s)
  {
    var steps :| Run(Init(conf), steps) == Some(s);
    RunKeeps(Init(conf), steps);
  }

  /* ----- What is written is what main read ----- */

  // The records main reads in a run, one for each field of conf: those of the completed writes, and
  // those of the write under way.
  datatype Reads = Reads(done: seq<seq<Data>>, current: seq<Data>)

  function ReadsOf(steps: seq<Step>): Reads {
    if steps == [] then Reads([], []) else
      var before := ReadsOf(steps[..|steps|-1]);
      match steps[|steps|-1]
      case MainWrite(record) => before.(current := before.current + [record])
      case MainUnlock => Reads(before.done + [before.current], [])
      case _ => before
  }

  // The address, port and so on of the record read for each of them, in memory order.
  function Assembled(rs: seq<Data>): Data
    requires |rs| == 6
  {
    Data(rs[0].port, rs[1].destPort, rs[2].destAddr, rs[3].duration, rs[4].pid, rs[5].client)
  }

  // The first fields of conf come from these records.
  predicate BeginsWith(conf: Data, rs: seq<Data>) {
    && |rs| <= 6
    && (|rs| > 0 ==> conf.port == rs[0].port)
    && (|rs| > 1 ==> conf.destPort == rs[1].destPort)
    && (|rs| > 2 ==> conf.destAddr == rs[2].destAddr)
    && (|rs| > 3 ==> conf.duration == rs[3].duration)
    && (|rs| > 4 ==> conf.pid == rs[4].pid)
    && (|rs| > 5 ==> conf.client == rs[5].client)
  }

  predicate WrittenFrom(conf0: Data, written: seq<Data>, done: seq<seq<Data>>) {
    && |written| == |done| + 1 && written[0] == conf0
    && forall i :: 0 <= i < |done| ==> |done[i]| == 6 && written[i+1] == Assembled(done[i])
  }

  ghost predicate ReadOk(conf0: Data, s: State, rs: Reads) {
    && WrittenFrom(conf0, s.written, rs.done)
    && BeginsWith(s.conf, rs.current)
    && |rs.current| == if s.main.Writing? then s.main.field else 0
  }

  lemma {:induction false} ReadKept(conf0: Data, s: State, steps: seq<Step>, step: Step)
    requires ReadOk(conf0, s, ReadsOf(steps)) && Enabled(s, step)
    ensures ReadOk(conf0, Apply(s, step), ReadsOf(steps + [step]))
  {
    assert (steps + [step])[..|steps|] == steps;
  }

  lemma {:induction false} RunReads(conf0: Data, steps: seq<Step>)
    requires Run(Init(conf0), steps).Some?
    ensures ReadOk(conf0, Run(Init(conf0), steps).value, ReadsOf(steps))
    decreases |steps|
  {
    if steps == [] {
    } else {
      var front, last := steps[..|steps|-1], steps[|steps|-1];
      RunLast(Init(conf0), steps);
      RunReads(conf0, front);
      ReadKept(conf0, Run(Init(conf0), front).value, front, last);
      assert front + [last] == steps;
    }
  }

  /* ----- Theorems ----- */

  /** In every run, the values of conf are the initial one and then, in order, what main read: each
      field from the record at the time the field was copied. */
  lemma {:induction false} WritesAreReads(conf0: Data, steps: seq<Step>)
    requires Run(Init(conf0), steps).Some?
    ensures WrittenFrom(conf0, Run(Init(conf0), steps).value.written, ReadsOf(steps).done)
  {
    hide Run, ReadsOf, WrittenFrom;
    RunReads(conf0, steps);
  }

  predicate AllSame(rs: seq<Data>, record: Data) {
    forall i :: 0 <= i < |rs| ==> rs[i] == record
  }

  // A record that does not change while it is copied is written as it is.
  lemma SteadyRecord(rs: seq<Data>, record: Data)
    requires |rs| == 6 && AllSame(rs, record)
    ensures Assembled(rs) == record
  {
  }

  /** No record is missed: whenever the thread is blocked and main is not between a write and its
      notify, the last stream has the address, port and duration that main read last (those of the
      initial conf when it read none). */
  lemma {:induction false} BlockedHasStreamedLastRead(conf0: Data, steps: seq<Step>)
    requires Run(Init(conf0), steps).Some?
    ensures var s, done := Run(Init(conf0), steps).value, ReadsOf(steps).done;
            s.thread.Blocked? && !s.main.Writing? && !s.main.NotifyDue? ==>
              && s.streams != [] && (done != [] ==> |done[|done|-1]| == 6)
              && var last := if done == [] then conf0 else Assembled(done[|done|-1]);
              var st := s.streams[|s.streams|-1];
              st.addr == last.destAddr && st.port == last.destPort && st.duration == last.duration
  {
    var s := Run(Init(conf0), steps).value;
    WritesAreReads(conf0, steps);
    hide Run, ReadsOf, Assembled;
    if s.thread.Blocked? && !s.main.Writing? && !s.main.NotifyDue? {
      BlockedHasStreamedCurrent(conf0, s);
      ReachableInv(conf0, s);
    }
  }

  /** Each stream uses address, port and duration of a single write of conf. */
  lemma StreamsAreNotTorn(conf: Data, s: State, i: nat)
    requires Reachable(conf, s) && i < |s.streams|
    ensures FromOneWrite(s.streams[i], s.written)
  {
    ReachableInv(conf, s);
  }

  /** No write is missed: whenever the thread is blocked and main is not between a write and its
      notify, the last stream played is of the current conf. */
  lemma BlockedHasStreamedCurrent(conf: Data, s: State)
    requires Reachable(conf, s) && s.thread.Blocked? && !s.main.Writing? && !s.main.NotifyDue?
    ensures StreamedCurrent(s)
    ensures var st := s.streams[|s.streams|-1];
            st.addr == s.conf.destAddr && st.port == s.conf.destPort && st.duration == s.conf.duration
  {
    ReachableInv(conf, s);
  }

  /** In particular, when a record did not change while it was copied, it is what was streamed last. */
  lemma {:induction false} BlockedHasStreamedLastRecord(conf0: Data, steps: seq<Step>, record: Data)
    requires Run(Init(conf0), steps).Some?
    requires var s, done := Run(Init(conf0), steps).value, ReadsOf(steps).done;
             && s.thread.Blocked? && !s.main.Writing? && !s.main.NotifyDue?
             && done != [] && AllSame(done[|done|-1], record)
    ensures var s := Run(Init(conf0), steps).value;
            && s.streams != []
            && var st := s.streams[|s.streams|-1];
            st.addr == record.destAddr && st.port == record.destPort && st.duration == record.duration
  {
    hide Run, ReadsOf;
    BlockedHasStreamedLastRead(conf0, steps);
    var done := ReadsOf(steps).done;
    SteadyRecord(done[|done|-1], record);
  }

  // Main waits for a thread that waits for a notification nobody will send.
  predicate Hung(s: State) {
    s.main.Joining? && s.thread.Blocked?
  }

  /** After running becomes false at most one more stream is created; and once the thread has finished,
      or hangs, exactly one when it had tested running but not taken the lock, and none otherwise. */
  lemma AtMostOneStreamAfterStop(conf: Data, s: State)
    requires Reachable(conf, s) && s.stop.Some?
    ensures s.begun - s.stop.value.1 <= if s.stop.value.0.Locking? then 1 else 0
    ensures s.thread.Finished? || Hung(s) ==> s.begun - s.stop.value.1 == if s.stop.value.0.Locking? then 1 else 0
  {
    ReachableInv(conf, s);
  }

  /** Shutdown is not free of deadlock: the thread can be left waiting exactly when running became
      false between its test of running and its taking of the lock. */
  lemma HungOnlyWhenStoppedWhileLocking(conf: Data, s: State)
    requires Reachable(conf, s) && Hung(s)
    ensures s.stop.Some? && s.stop.value.0.Locking?
    ensures forall step :: Enabled(s, step) ==> step.SpuriousWake?
  {
    ReachableInv(conf, s);
  }

  // And then the thread's own steps lead there: it plays one more stream and waits.
  lemma StoppedWhileLockingHangs(conf: Data, s: State) returns (s': State)
    requires Reachable(conf, s) && s.main.Joining? && s.thread.Locking?
    ensures Reachable(conf, s') && Hung(s') && s'.stop == s.stop && s'.begun == s.begun + 1
  {
    ReachableInv(conf, s);
    s' := TakeStep(conf, s, ThreadLock);
    s' := TakeStep(conf, s', ThreadAddress);
    s' := TakeStep(conf, s', ThreadStream);
    s' := TakeStep(conf, s', ThreadWait);
  }

  // Without a spurious wake.
  predicate Plain(steps: seq<Step>) {
    forall i :: 0 <= i < |steps| ==> !steps[i].SpuriousWake?
  }

  // About to test running, or woken from its wait: with running false, what it does next ends it.
  predicate OnTheWayOut(t: ThreadPhase) {
    t.Checking? || t.Waking? || t.Relocked? || t.Finished?
  }

  // With running false and main joining, the thread finishes from these phases.
  lemma {:induction false} WayOut(s: State) returns (steps: seq<Step>)
    requires Inv(s) && s.main.Joining? && OnTheWayOut(s.thread)
    ensures Plain(steps) && Run(s, steps).Some? && Run(s, steps).value.thread.Finished?
  {
    var empty: seq<Step> := [];
    assert Run(s, empty) == Some(s);
    steps := empty;
    var cur := s;
    if cur.thread.Waking? {
      RunExtend(s, steps, ThreadRelock);
      steps, cur := steps + [ThreadRelock], Apply(cur, ThreadRelock);
    }
    if cur.thread.Relocked? {
      RunExtend(s, steps, ThreadUnlock);
      steps, cur := steps + [ThreadUnlock], Apply(cur, ThreadUnlock);
    }
    if cur.thread.Checking? {
      RunExtend(s, steps, ThreadCheck);
      steps, cur := steps + [ThreadCheck], Apply(cur, ThreadCheck);
    }
  }

  // From the other phases it comes to wait, and no notification comes.
  lemma {:induction false} NoWayOut(s: State, steps: seq<Step>)
    requires (s.main.Joining? || s.main.Stopped?) && !OnTheWayOut(s.thread)
    requires s.main.Stopped? ==> s.thread.Locking? && s.owner.MainOwns?
    requires Plain(steps) && Run(s, steps).Some?
    ensures !Run(s, steps).value.thread.Finished?
    decreases |steps|
  {
    if steps == [] {
    } else {
      assert forall i :: 0 <= i < |steps| - 1 ==> steps[1..][i] == steps[i+1];
      NoWayOut(Apply(s, steps[0]), steps[1..]);
    }
  }

  /** When running has just become false, the thread can finish without a spurious wake exactly when it
      was not between its test of running and its taking of the lock: in every other case its own
      steps end it, after main's notification. */
  lemma {:induction false} FinishesExactly(conf: Data, s: State)
    requires Reachable(conf, s) && s.main.Stopped?
    ensures s.stop.Some?
    ensures (exists steps :: Plain(steps) && Run(s, steps).Some? && Run(s, steps).value.thread.Finished?)
            <==> !s.stop.value.0.Locking?
  {
    ReachableInv(conf, s);
    if s.stop.value.0.Locking? {
      forall steps | Plain(steps) && Run(s, steps).Some? ensures !Run(s, steps).value.thread.Finished? {
        NoWayOut(s, steps);
      }
    } else {
      StepKeeps(s, EndNotify);
      var rest := WayOut(Apply(s, EndNotify));
      var steps := [EndNotify] + rest;
      assert steps[1..] == rest;
      assert Plain(steps) && Run(s, steps).Some? && Run(s, steps).value.thread.Finished?;
    }
  }

  /** A run that hangs: the timeout fires right after the thread's first test of running. */
  lemma ShutdownCanHang(conf: Data) returns (s: State)
    ensures Reachable(conf, s) && Hung(s)
  {
    s := Init(conf);
    assert Run(s, []) == Some(s);
    s := TakeStep(conf, s, ThreadCheck);
    s := TakeStep(conf, s, EndLock);
    s := TakeStep(conf, s, EndStop);
    s := TakeStep(conf, s, EndNotify);
    s := StoppedWhileLockingHangs(conf, s);
  }

  // A record is written and notified while the thread waits.
  lemma {:induction false} WriteToBlocked(conf: Data, s: State, record: Data) returns (s': State)
    requires Reachable(conf, s) && s.main.Serving? && s.thread.Blocked? && s.running
    ensures Reachable(conf, s') && s'.main.Serving? && s'.thread.Waking? && s'.owner.Nobody? && s'.running
    ensures s'.conf == record && s'.streams == s.streams
  {
    ReachableInv(conf, s);
    hide Reachable;
    s' := TakeStep(conf, s, MainLock);
    s' := TakeStep(conf, s', MainWrite(record));
    s' := TakeStep(conf, s', MainWrite(record));
    s' := TakeStep(conf, s', MainWrite(record));
    s' := TakeStep(conf, s', MainWrite(record));
    s' := TakeStep(conf, s', MainWrite(record));
    s' := TakeStep(conf, s', MainWrite(record));
    s' := TakeStep(conf, s', MainUnlock);
    s' := TakeStep(conf, s', MainNotify);
  }

  /** A record that main gets for a waiting endpoint is streamed next, and the endpoint waits again. */
  lemma {:induction false} NextRecordIsStreamed(conf: Data, s: State, record: Data) returns (s': State)
    requires Reachable(conf, s) && s.main.Serving? && s.thread.Blocked? && s.running
    ensures Reachable(conf, s') && s'.main.Serving? && s'.thread.Blocked? && s'.running
    ensures |s'.streams| == |s.streams| + 1 && s.streams <= s'.streams
    ensures var st := s'.streams[|s.streams|];
            st.addr == record.destAddr && st.port == record.destPort && st.duration == record.duration
  {
    hide Reachable;
    s' := WriteToBlocked(conf, s, record);
    s' := TakeStep(conf, s', ThreadRelock);
    s' := TakeStep(conf, s', ThreadUnlock);
    s' := TakeStep(conf, s', ThreadCheck);
    s' := TakeStep(conf, s', ThreadLock);
    s' := TakeStep(conf, s', ThreadAddress);
    s' := TakeStep(conf, s', ThreadStream);
    s' := TakeStep(conf, s', ThreadWait);
  }

  /** The initial conf is streamed first. */
  lemma {:induction false} FirstIsStreamed(conf: Data) returns (s: State)
    ensures Reachable(conf, s) && s.main.Serving? && s.thread.Blocked? && s.running
    ensures |s.streams| == 1
    ensures var st := s.streams[0]; st.addr == conf.destAddr && st.port == conf.destPort && st.duration == conf.duration
  {
    s := Init(conf);
    assert Run(s, []) == Some(s);
    hide Reachable;
    s := TakeStep(conf, s, ThreadCheck);
    s := TakeStep(conf, s, ThreadLock);
    s := TakeStep(conf, s, ThreadAddress);
    s := TakeStep(conf, s, ThreadStream);
    s := TakeStep(conf, s, ThreadWait);
  }

  /** Only a spurious wake ends a hang, and it does: the thread then finishes. */
  lemma {:induction false} SpuriousWakeEndsHang(conf: Data, s: State) returns (steps: seq<Step>)
    requires Reachable(conf, s) && Hung(s)
    ensures Plain(steps) && Run(s, [SpuriousWake] + steps).Some?
    ensures Run(s, [SpuriousWake] + steps).value.thread.Finished?
  {
    ReachableInv(conf, s);
    StepKeeps(s, SpuriousWake);
    steps := WayOut(Apply(s, SpuriousWake));
    assert ([SpuriousWake] + steps)[1..] == steps;
  }
}
