/**
 The rate-pattern scheduler as a function of its clock: several patterns of (delta, cps) pairs,
 each with a queue of absolute due times. A turn of the loop reads the clock, refills the queues
 that ran empty, takes the earliest due command, sleeps until it is due and sends it.

 The clock is arbitrary but for two things: it never runs backwards and a sleep never ends early.
 `lag` gives the extra time each clock reading and each sleep takes; it is zero for exact sleeps.
 */
module Scheduler {
  import opened Wrappers

  type Rate = real

  datatype Pattern = Pattern(deltas: seq<nat>, cps: seq<Rate>, repeat: bool)

  // Absolute due times and rates still to be sent.
  datatype Queue = Queue(due: seq<int>, cps: seq<Rate>)

  datatype Command = Command(pattern: nat, cps: Rate, due: int, at: int)

  datatype Env = Env(patterns: seq<Pattern>, end: int, lag: nat -> nat)

  // An empty queue that is not passed is refilled on the next turn.
  datatype State = State(now: int, tick: nat, queues: seq<Queue>, passed: seq<bool>, log: seq<Command>)

  predicate Usable(p: Pattern) {
    |p.deltas| == |p.cps| && |p.deltas| > 0
  }

  predicate UsableEnv(env: Env) {
    forall i :: 0 <= i < |env.patterns| ==> Usable(env.patterns[i])
  }

  // Sum of the first k deltas.
  function Prefix(deltas: seq<nat>, k: nat): (r: nat)
    requires k <= |deltas|
  {
    if k == 0 then 0 else Prefix(deltas, k - 1) + deltas[k-1]
  }

  function Period(p: Pattern): nat {
    Prefix(p.deltas, |p.deltas|)
  }

  function Initial(env: Env, start: int): State {
    State(start, 0, seq(|env.patterns|, i => Queue([], [])), seq(|env.patterns|, i => false), [])
  }

  // The queues line up with the patterns, times with rates, and passed patterns have nothing left.
  predicate Shape(env: Env, s: State) {
    && UsableEnv(env)
    && |s.queues| == |env.patterns| == |s.passed|
    && (forall i :: 0 <= i < |s.queues| ==> |s.queues[i].due| == |s.queues[i].cps| <= |env.patterns[i].deltas|)
    && (forall i :: 0 <= i < |s.queues| && s.passed[i] ==> s.queues[i].due == [] && !env.patterns[i].repeat)
  }

  function Dues(base: int, deltas: seq<nat>): (r: seq<int>)
    ensures |r| == |deltas|
    ensures forall j :: 0 <= j < |deltas| ==> r[j] == base + Prefix(deltas, j + 1)
  {
    seq(|deltas|, j requires 0 <= j < |deltas| => base + Prefix(deltas, j + 1))
  }

  function RefillOne(p: Pattern, q: Queue, passed: bool, cur: int): Queue {
    if passed || q.due != [] then q else Queue(Dues(cur, p.deltas), p.cps)
  }

  function Refill(env: Env, s: State, cur: int): (qs: seq<Queue>)
    requires Shape(env, s)
    ensures |qs| == |s.queues|
    ensures forall i :: 0 <= i < |qs| ==> qs[i] == RefillOne(env.patterns[i], s.queues[i], s.passed[i], cur)
  {
    seq(|s.queues|, i requires 0 <= i < |s.queues| => RefillOne(env.patterns[i], s.queues[i], s.passed[i], cur))
  }

  // The first queue whose head is earliest.
  function Earliest(qs: seq<Queue>): (r: Option<nat>)
    ensures r.Some? ==> r.value < |qs| && qs[r.value].due != []
  {
    if qs == [] then None else
      var last := qs[|qs|-1];
      match Earliest(qs[..|qs|-1])
      case None => if last.due == [] then None else Some(|qs| - 1)
      case Some(i) => if last.due != [] && last.due[0] < qs[i].due[0] then Some(|qs| - 1) else Some(i)
  }

  lemma {:induction false} EarliestIsFirstLeast(qs: seq<Queue>)
    ensures Earliest(qs).None? <==> forall i :: 0 <= i < |qs| ==> qs[i].due == []
    ensures Earliest(qs).Some? ==>
              var r := Earliest(qs).value;
              && (forall i :: 0 <= i < |qs| && qs[i].due != [] ==> qs[r].due[0] <= qs[i].due[0])
              && (forall i :: 0 <= i < r && qs[i].due != [] ==> qs[r].due[0] < qs[i].due[0])
  {
    if qs == [] {
    } else {
      var front := qs[..|qs|-1];
      EarliestIsFirstLeast(front);
      assert forall i :: 0 <= i < |front| ==> front[i] == qs[i];
    }
  }

  function Reading(env: Env, s: State): int {
    s.now + env.lag(s.tick)
  }

  predicate Continues(env: Env, s: State) {
    Reading(env, s) < env.end
  }

  function Max(a: int, b: int): int {
    if a < b then b else a
  }

  // Queues that were just refilled: lined up, and empty only where a pattern is passed.
  predicate Ready(env: Env, passed: seq<bool>, qs: seq<Queue>) {
    && |qs| == |env.patterns| == |passed|
    && (forall i :: 0 <= i < |qs| ==> |qs[i].due| == |qs[i].cps| <= |env.patterns[i].deltas|)
    && (forall i :: 0 <= i < |qs| ==> (passed[i] <==> qs[i].due == []))
    && (forall i :: 0 <= i < |qs| && passed[i] ==> !env.patterns[i].repeat)
  }

  lemma RefillReady(env: Env, s: State, cur: int)
    requires Shape(env, s)
    ensures Ready(env, s.passed, Refill(env, s, cur))
  {
  }

  // Sends the head of queue i once it is due.
  function Send(env: Env, s: State, qs: seq<Queue>, i: nat): State
    requires Ready(env, s.passed, qs) && i < |qs| && qs[i].due != []
  {
    var q := qs[i];
    var at := Max(Reading(env, s), q.due[0]) + env.lag(s.tick + 1);
    var rest := Queue(q.due[1..], q.cps[1..]);
    State(at, s.tick + 2, qs[i := rest],
          if rest.due == [] && !env.patterns[i].repeat then s.passed[i := true] else s.passed,
          s.log + [Command(i, q.cps[0], q.due[0], at)])
  }

  // Nothing is left to send: sleeps until the end.
  function SleepOut(env: Env, s: State): State {
    s.(now := env.end + env.lag(s.tick + 1), tick := s.tick + 2)
  }

  lemma SendShape(env: Env, s: State, qs: seq<Queue>, i: nat)
    requires UsableEnv(env) && Ready(env, s.passed, qs) && i < |qs| && qs[i].due != []
    ensures Shape(env, Send(env, s, qs, i))
  {
  }

  // One turn of the loop.
  function Turn(env: Env, s: State): (s': State)
    requires Shape(env, s) && Continues(env, s)
    ensures Shape(env, s')
  {
    var qs := Refill(env, s, Reading(env, s));
    RefillReady(env, s, Reading(env, s));
    match Earliest(qs)
    case None => SleepOut(env, s)
    case Some(i) => SendShape(env, s, qs, i); Send(env, s, qs, i)
  }

  // At most k turns.
  function Turns(env: Env, s: State, k: nat): (s': State)
    requires Shape(env, s)
    ensures Shape(env, s')
    decreases k
  {
    if k == 0 || !Continues(env, s) then s else Turns(env, Turn(env, s), k - 1)
  }

  lemma {:induction false} TurnsExtend(env: Env, s: State, k: nat)
    requires Shape(env, s)
    ensures var t := Turns(env, s, k);
            Turns(env, s, k + 1) == if Continues(env, t) then Turn(env, t) else t
    decreases k
  {
    hide Turn;
    if !Continues(env, s) {
    } else if k == 0 {
      assert Turns(env, Turn(env, s), 0) == Turn(env, s);
    } else {
      TurnsExtend(env, Turn(env, s), k - 1);
    }
  }

  /* ----- Any clock: nothing early, due times in order, one command past the end ----- */

  lemma {:induction false} PrefixMonotone(deltas: seq<nat>, j: nat, k: nat)
    requires j <= k <= |deltas|
    ensures Prefix(deltas, j) <= Prefix(deltas, k)
  {
    if j == k {
    } else {
      PrefixMonotone(deltas, j, k - 1);
    }
  }

  predicate Sorted(due: seq<int>) {
    forall i, j :: 0 <= i < j < |due| ==> due[i] <= due[j]
  }

  predicate NotBefore(due: seq<int>, t: int) {
    forall i :: 0 <= i < |due| ==> t <= due[i]
  }

  // Later commands are due no earlier than what was sent.
  predicate LogOk(env: Env, log: seq<Command>) {
    && (forall i :: 0 <= i < |log| ==> log[i].due <= log[i].at)
    && (forall i, j :: 0 <= i < j < |log| ==> log[i].due <= log[j].due && log[i].at <= log[j].at)
    && (forall i :: 0 <= i < |log| - 1 ==> log[i].at < env.end)
  }

  predicate Orderly(env: Env, s: State) {
    && LogOk(env, s.log)
    && (forall i :: 0 <= i < |s.queues| ==> Sorted(s.queues[i].due))
    && (s.log != [] ==>
          var last := s.log[|s.log|-1];
          && last.at <= s.now
          && forall i :: 0 <= i < |s.queues| ==> NotBefore(s.queues[i].due, last.due))
  }

  lemma DuesSorted(base: int, deltas: seq<nat>)
    ensures Sorted(Dues(base, deltas)) && NotBefore(Dues(base, deltas), base)
  {
    forall i, j | 0 <= i < j < |deltas| ensures Dues(base, deltas)[i] <= Dues(base, deltas)[j] {
      PrefixMonotone(deltas, i + 1, j + 1);
    }
  }

  lemma RefillOrderly(env: Env, s: State, i: nat)
    requires Shape(env, s) && Continues(env, s) && Orderly(env, s) && i < |s.queues|
    ensures var q := Refill(env, s, Reading(env, s))[i];
            Sorted(q.due) && (s.log != [] ==> NotBefore(q.due, s.log[|s.log|-1].due))
  {
    var cur := Reading(env, s);
    DuesSorted(cur, env.patterns[i].deltas);
    if s.log != [] { assert s.log[|s.log|-1].due <= cur; }
  }

  lemma LogExtend(env: Env, log: seq<Command>, c: Command)
    requires LogOk(env, log) && c.due <= c.at
    requires log != [] ==> var last := log[|log|-1]; last.due <= c.due && last.at <= c.at && last.at < env.end
    ensures LogOk(env, log + [c])
  {
    forall i | 0 <= i < |log|
      ensures log[i].due <= c.due && log[i].at <= c.at && log[i].at < env.end
    {
      if i < |log| - 1 { assert log[i].due <= log[|log|-1].due && log[i].at <= log[|log|-1].at; }
    }
  }

  lemma {:induction false} HeadIsEarliest(qs: seq<Queue>, i: nat, j: nat)
    requires Earliest(qs) == Some(i) && j < |qs| && Sorted(qs[j].due)
    ensures NotBefore(qs[j].due, qs[i].due[0])
  {
    if qs[j].due != [] {
      EarliestIsFirstLeast(qs);
      assert qs[i].due[0] <= qs[j].due[0];
      assert forall x :: 0 <= x < |qs[j].due| ==> qs[j].due[0] <= qs[j].due[x];
    }
  }

  // What a turn that sends a command of pattern i does.
  lemma TurnSends(env: Env, s: State, i: nat)
    requires Shape(env, s) && Continues(env, s)
    requires Earliest(Refill(env, s, Reading(env, s))) == Some(i)
    ensures var qs := Refill(env, s, Reading(env, s));
            Ready(env, s.passed, qs) && Turn(env, s) == Send(env, s, qs, i)
  {
    hide Shape, Ready, Refill, Send, SleepOut, Continues;
    RefillReady(env, s, Reading(env, s));
  }

  // Queue j after the head of queue i was sent.
  lemma SendQueue(env: Env, s: State, qs: seq<Queue>, i: nat, j: nat)
    requires Ready(env, s.passed, qs) && i < |qs| && qs[i].due != [] && j < |qs|
    ensures var s', p := Send(env, s, qs, i), env.patterns[j];
            && |s'.queues| == |s'.passed| == |qs| && Reading(env, s) <= s'.now && qs[i].due[0] <= s'.now
            && if j == i then
                 && s'.queues[j] == Queue(qs[j].due[1..], qs[j].cps[1..])
                 && s'.passed[j] == (s'.queues[j].due == [] && !p.repeat)
               else s'.queues[j] == qs[j] && s'.passed[j] == s.passed[j]
  {
  }

  // The command it sends: due no earlier than the last one, and sent no earlier than due.
  lemma SentCommand(env: Env, s: State, i: nat) returns (c: Command)
    requires Shape(env, s) && Continues(env, s) && Orderly(env, s)
    requires Earliest(Refill(env, s, Reading(env, s))) == Some(i)
    ensures Turn(env, s).log == s.log + [c]
    ensures c.due <= c.at && s.now <= c.at && s.now < env.end
    ensures s.log != [] ==> s.log[|s.log|-1].due <= c.due
  {
    RefillOrderly(env, s, i);
    assert s.log != [] ==> s.log[|s.log|-1].due <= Refill(env, s, Reading(env, s))[i].due[0];
    TurnSends(env, s, i);
    hide Turn, Shape, Orderly, RefillOne;
    c := Turn(env, s).log[|s.log|];
  }

  lemma SendKeepsLog(env: Env, s: State, i: nat)
    requires Shape(env, s) && Continues(env, s) && Orderly(env, s)
    requires Earliest(Refill(env, s, Reading(env, s))) == Some(i)
    ensures LogOk(env, Turn(env, s).log)
  {
    var c := SentCommand(env, s, i);
    hide Turn, Shape, LogOk, Refill;
    LogExtend(env, s.log, c);
  }

  lemma SendKeepsQueue(env: Env, s: State, i: nat, j: nat)
    requires Shape(env, s) && Continues(env, s) && Orderly(env, s) && j < |s.queues|
    requires Earliest(Refill(env, s, Reading(env, s))) == Some(i)
    ensures var qs, s' := Refill(env, s, Reading(env, s)), Turn(env, s);
            && |s'.queues| == |s.queues|
            && Sorted(s'.queues[j].due) && NotBefore(s'.queues[j].due, qs[i].due[0])
  {
    var qs := Refill(env, s, Reading(env, s));
    TurnSends(env, s, i);
    RefillOrderly(env, s, j);
    hide Turn, Shape, Orderly, Refill, RefillOne, Send;
    SendQueue(env, s, qs, i, j);
    HeadIsEarliest(qs, i, j);
  }

  lemma SendOrderly(env: Env, s: State, i: nat)
    requires Shape(env, s) && Continues(env, s) && Orderly(env, s)
    requires Earliest(Refill(env, s, Reading(env, s))) == Some(i)
    ensures Orderly(env, Turn(env, s))
  {
    TurnSends(env, s, i);
    SendKeepsLog(env, s, i);
    var s' := Turn(env, s);
    hide Turn, LogOk, Sorted, NotBefore, RefillOne;
    forall j | 0 <= j < |s'.queues|
      ensures Sorted(s'.queues[j].due) && NotBefore(s'.queues[j].due, s'.log[|s'.log|-1].due)
    {
      SendKeepsQueue(env, s, i, j);
    }
  }

  lemma TurnOrderly(env: Env, s: State)
    requires Shape(env, s) && Continues(env, s) && Orderly(env, s)
    ensures Orderly(env, Turn(env, s))
  {
    var qs := Refill(env, s, Reading(env, s));
    match Earliest(qs) {
      case None =>
        EarliestIsFirstLeast(qs);
        forall j | 0 <= j < |qs| ensures s.queues[j].due == [] { assert qs[j].due == []; }
      case Some(i) =>
        SendOrderly(env, s, i);
    }
  }

  lemma {:induction false} TurnsOrderly(env: Env, s: State, k: nat)
    requires Shape(env, s) && Orderly(env, s)
    ensures Orderly(env, Turns(env, s, k))
    decreases k
  {
    hide Turn;
    if k == 0 || !Continues(env, s) {
    } else {
      TurnOrderly(env, s);
      TurnsOrderly(env, Turn(env, s), k - 1);
    }
  }

  lemma InitialShape(env: Env, start: int)
    requires UsableEnv(env)
    ensures Shape(env, Initial(env, start)) && Orderly(env, Initial(env, start))
  {
  }

  /** On any clock: no command is sent before it is due, due times never decrease across refills,
      and only the last command can be sent at or after the end time. */
  lemma {:induction false} CommandsInOrder(env: Env, start: int, k: nat)
    requires UsableEnv(env)
    ensures Shape(env, Initial(env, start))
    ensures LogOk(env, Turns(env, Initial(env, start), k).log)
  {
    InitialShape(env, start);
    TurnsOrderly(env, Initial(env, start), k);
  }

  /* ----- Any clock: when the commands go out, and when the loop is left ----- */

  // When the last command was sent, the start when none was.
  function LastSent(start: int, log: seq<Command>): int {
    if log == [] then start else log[|log|-1].at
  }

  // The command goes out when it is due, or at once when the clock, read after the one before, is past
  // that; the reading and the sleep each take their extra time.
  predicate PromptAt(env: Env, start: int, log: seq<Command>, m: nat)
    requires m < |log|
  {
    log[m].at == Max(LastSent(start, log[..m]) + env.lag(2 * m), log[m].due) + env.lag(2 * m + 1)
  }

  ghost predicate SentOnTime(env: Env, start: int, log: seq<Command>) {
    forall m :: 0 <= m < |log| ==> PromptAt(env, start, log, m)
  }

  // The clock stands at the last command, or, with nothing left to send, at the end.
  ghost predicate OnTime(env: Env, start: int, s: State) {
    var n := |s.log|;
    && SentOnTime(env, start, s.log)
    && (|| (s.tick == 2 * n && s.now == LastSent(start, s.log))
        || (&& s.tick == 2 * n + 2 && s.now == env.end + env.lag(2 * n + 1)
            && LastSent(start, s.log) + env.lag(2 * n) < env.end))
  }

  lemma SentOnTimeExtend(env: Env, start: int, log: seq<Command>, c: Command)
    requires SentOnTime(env, start, log)
    requires c.at == Max(LastSent(start, log) + env.lag(2 * |log|), c.due) + env.lag(2 * |log| + 1)
    ensures SentOnTime(env, start, log + [c])
  {
    var whole := log + [c];
    forall m | 0 <= m < |log| ensures PromptAt(env, start, whole, m) {
      assert PromptAt(env, start, log, m);
      assert whole[..m] == log[..m] && whole[m] == log[m];
    }
    assert PromptAt(env, start, whole, |log|) by { assert whole[..|log|] == log; }
    hide PromptAt;
  }

  lemma {:induction false} SentAfterStart(env: Env, start: int, log: seq<Command>)
    requires SentOnTime(env, start, log)
    ensures start <= LastSent(start, log)
    decreases |log|
  {
    if log == [] {
    } else {
      var front := log[..|log|-1];
      forall m | 0 <= m < |front| ensures PromptAt(env, start, front, m) {
        assert PromptAt(env, start, log, m);
        assert front[..m] == log[..m] && front[m] == log[m];
      }
      SentAfterStart(env, start, front);
      assert PromptAt(env, start, log, |front|);
    }
  }

  lemma TurnOnTime(env: Env, start: int, s: State)
    requires Shape(env, s) && Continues(env, s) && OnTime(env, start, s)
    ensures OnTime(env, start, Turn(env, s))
  {
    var qs := Refill(env, s, Reading(env, s));
    assert s.tick == 2 * |s.log|;
    match Earliest(qs) {
      case None =>
      case Some(i) =>
        TurnSends(env, s, i);
        hide Turn, Shape, Refill, Ready, SentOnTime;
        var log := Turn(env, s).log;
        SentOnTimeExtend(env, start, s.log, log[|log|-1]);
    }
  }

  lemma {:induction false} TurnsKeepOnTime(env: Env, start: int, s: State, k: nat)
    requires Shape(env, s) && OnTime(env, start, s)
    ensures OnTime(env, start, Turns(env, s, k))
    decreases k
  {
    hide Turn, OnTime;
    if k == 0 || !Continues(env, s) {
    } else {
      TurnOnTime(env, start, s);
      TurnsKeepOnTime(env, start, Turn(env, s), k - 1);
    }
  }

  /** On any clock: each command goes out at its due time or, when that is past, at once, but for the
      extra time the clock and the sleep take; and the loop is left at its last command or, when there
      was nothing left to send, at the end. */
  lemma {:induction false} TurnsOnTime(env: Env, start: int, k: nat)
    requires UsableEnv(env)
    ensures Shape(env, Initial(env, start))
    ensures OnTime(env, start, Turns(env, Initial(env, start), k))
  {
    InitialShape(env, start);
    InitialOnTime(env, start);
    hide *;
    TurnsKeepOnTime(env, start, Initial(env, start), k);
  }

  lemma InitialOnTime(env: Env, start: int)
    ensures OnTime(env, start, Initial(env, start))
  {
  }

  /** After every refill the times and rates still line up, and exactly the passed patterns have an
      empty queue: neither the minimum nor the pop ever meets an empty list. */
  lemma {:induction false} QueuesReady(env: Env, start: int, k: nat, i: nat)
    requires UsableEnv(env) && i < |env.patterns|
    ensures Shape(env, Initial(env, start))
    ensures var s := Turns(env, Initial(env, start), k);
            var q := Refill(env, s, Reading(env, s))[i];
            |q.due| == |q.cps| && (q.due == [] <==> s.passed[i])
  {
    InitialShape(env, start);
  }

  /* ----- Any clock: termination ----- */

  predicate Productive(env: Env) {
    forall i :: 0 <= i < |env.patterns| && env.patterns[i].repeat ==> Period(env.patterns[i]) > 0
  }

  // Bound on the commands a pattern can still send before the end.
  function Remaining(p: Pattern, q: Queue, passed: bool, now: int, end: int): nat {
    if passed then 0
    else if !p.repeat then (if q.due == [] then |p.deltas| else |q.due|)
    else if q.due == [] then |p.deltas| * Max(0, end - now)
    else |q.due| + |p.deltas| * Max(0, end - q.due[|q.due|-1])
  }

  function RemainingAt(env: Env, s: State, i: nat): nat
    requires Shape(env, s) && i < |env.patterns|
  {
    Remaining(env.patterns[i], s.queues[i], s.passed[i], s.now, env.end)
  }

  function Total(env: Env, s: State, k: nat): nat
    requires Shape(env, s) && k <= |env.patterns|
  {
    if k == 0 then 0 else Total(env, s, k - 1) + RemainingAt(env, s, k - 1)
  }

  function Measure(env: Env, s: State): nat
    requires Shape(env, s)
  {
    Total(env, s, |env.patterns|) + if s.now < env.end then 1 else 0
  }

  lemma TimesMonotone(n: nat, a: int, b: int)
    requires a <= b
    ensures n * a <= n * b
  {
  }

  lemma RefillShrinks(p: Pattern, q: Queue, passed: bool, now: int, cur: int, end: int)
    requires Usable(p) && (p.repeat ==> Period(p) > 0) && now <= cur < end
    ensures Remaining(p, RefillOne(p, q, passed, cur), passed, cur, end) <= Remaining(p, q, passed, now, end)
  {
    var n := |p.deltas|;
    if !passed && p.repeat && q.due == [] {
      var last := cur + Period(p);
      TimesMonotone(n, 1 + Max(0, end - last), end - now);
    }
  }

  lemma PopShrinks(p: Pattern, q: Queue, cur: int, at: int, end: int)
    requires q.due != [] && |q.due| == |q.cps| && q.due[0] <= at
    ensures var rest := Queue(q.due[1..], q.cps[1..]);
            Remaining(p, rest, rest.due == [] && !p.repeat, at, end) < Remaining(p, q, false, cur, end)
  {
    if p.repeat && |q.due| == 1 {
      TimesMonotone(|p.deltas|, Max(0, end - at), Max(0, end - q.due[0]));
    }
  }

  lemma {:induction false} TotalMonotone(env: Env, s: State, s': State, k: nat)
    requires Shape(env, s) && Shape(env, s') && k <= |env.patterns|
    requires forall i :: 0 <= i < k ==> RemainingAt(env, s', i) <= RemainingAt(env, s, i)
    ensures Total(env, s', k) <= Total(env, s, k)
  {
    if k == 0 {
    } else {
      TotalMonotone(env, s, s', k - 1);
    }
  }

  lemma {:induction false} TotalShrinks(env: Env, s: State, s': State, k: nat, i: nat)
    requires Shape(env, s) && Shape(env, s') && i < k <= |env.patterns|
    requires forall j :: 0 <= j < k ==> RemainingAt(env, s', j) <= RemainingAt(env, s, j)
    requires RemainingAt(env, s', i) < RemainingAt(env, s, i)
    ensures Total(env, s', k) < Total(env, s, k)
  {
    if i == k - 1 {
      TotalMonotone(env, s, s', k - 1);
    } else {
      TotalShrinks(env, s, s', k - 1, i);
    }
  }

  // What pattern j can still send, once its queue was refilled and the head of queue i sent.
  lemma SendShrinks(env: Env, s: State, qs: seq<Queue>, i: nat, j: nat)
    requires Shape(env, s) && Continues(env, s) && Productive(env)
    requires qs == Refill(env, s, Reading(env, s)) && Ready(env, s.passed, qs)
    requires i < |qs| && qs[i].due != [] && j < |qs|
    ensures var s' := Send(env, s, qs, i);
            && |s'.queues| == |s'.passed| == |qs|
            && var before := RemainingAt(env, s, j);
            var after := Remaining(env.patterns[j], s'.queues[j], s'.passed[j], s'.now, env.end);
            after <= before && (j == i ==> after < before)
  {
    var cur := Reading(env, s);
    RefillShrinks(env.patterns[j], s.queues[j], s.passed[j], s.now, cur, env.end);
    hide Send, Refill, RefillOne, Shape, Productive, Remaining;
    SendQueue(env, s, qs, i, j);
    if j == i {
      PopShrinks(env.patterns[j], qs[j], cur, Send(env, s, qs, i).now, env.end);
    } else {
      LaterIsSame(env.patterns[j], qs[j], s.passed[j], cur, Send(env, s, qs, i).now, env.end);
    }
  }

  // Time matters to an empty queue only.
  lemma LaterIsSame(p: Pattern, q: Queue, passed: bool, now: int, later: int, end: int)
    requires passed <==> q.due == []
    ensures Remaining(p, q, passed, now, end) == Remaining(p, q, passed, later, end)
  {
  }

  lemma MeasureAfterSend(env: Env, s: State, i: nat)
    requires Shape(env, s) && Continues(env, s) && Productive(env)
    requires Earliest(Refill(env, s, Reading(env, s))) == Some(i)
    ensures Measure(env, Turn(env, s)) < Measure(env, s)
  {
    var qs, n := Refill(env, s, Reading(env, s)), |env.patterns|;
    TurnSends(env, s, i);
    var s' := Turn(env, s);
    hide Turn, Shape, Send, Refill, Total, Productive, Remaining;
    forall j | 0 <= j < n
      ensures RemainingAt(env, s', j) <= RemainingAt(env, s, j)
      ensures j == i ==> RemainingAt(env, s', j) < RemainingAt(env, s, j)
    {
      SendShrinks(env, s, qs, i, j);
    }
    hide RemainingAt;
    SendQueue(env, s, qs, i, i);
    TotalShrinks(env, s, s', n, i);
  }

  lemma MeasureAtRest(env: Env, s: State)
    requires Shape(env, s) && Continues(env, s)
    requires Earliest(Refill(env, s, Reading(env, s))).None?
    ensures Measure(env, Turn(env, s)) < Measure(env, s)
  {
    RefillReady(env, s, Reading(env, s));
    EarliestIsFirstLeast(Refill(env, s, Reading(env, s)));
    var s', n := Turn(env, s), |env.patterns|;
    assert s' == SleepOut(env, s);
    hide Turn, Shape, Refill, Total;
    forall j | 0 <= j < n ensures RemainingAt(env, s', j) == RemainingAt(env, s, j) {
      assert s.passed[j];
    }
    TotalMonotone(env, s, s', n);
  }

  lemma TurnShrinks(env: Env, s: State)
    requires Shape(env, s) && Continues(env, s) && Productive(env)
    ensures Measure(env, Turn(env, s)) < Measure(env, s)
  {
    hide *;
    match Earliest(Refill(env, s, Reading(env, s))) {
      case None => MeasureAtRest(env, s);
      case Some(i) => MeasureAfterSend(env, s, i);
    }
  }

  /** On any clock the loop ends when every repeating pattern has a positive period, zero deltas
      inside it notwithstanding. */
  lemma {:induction false} Terminates(env: Env, s: State, k: nat)
    requires Shape(env, s) && Productive(env) && Measure(env, s) <= k
    ensures !Continues(env, Turns(env, s, k))
    decreases k
  {
    hide Turn;
    if !Continues(env, s) {
    } else {
      TurnShrinks(env, s);
      Terminates(env, Turn(env, s), k - 1);
    }
  }
}
