/**
 The scheduler loop in place, proved to compute the turns of `Scheduler`.
 */
module SchedulerLoop {
  import opened Wrappers
  import opened Scheduler

  // A clock that never runs backwards and whose sleeps never end early.
  class Clock {
    const lag: nat -> nat
    var now: int
    var tick: nat

    constructor (start: int, lag: nat -> nat)
      ensures now == start && tick == 0 && this.lag == lag
    {
      this.lag := lag;
      now := start;
      tick := 0;
    }

    method GetEpochMs() returns (t: int)
      modifies this
      ensures t == now == old(now) + lag(old(tick)) && tick == old(tick) + 1
    {
      now := now + lag(tick);
      tick := tick + 1;
      t := now;
    }

    method Sleep(ms: nat)
      modifies this
      ensures now == old(now) + ms + lag(old(tick)) && tick == old(tick) + 1
    {
      now := now + ms + lag(tick);
      tick := tick + 1;
    }
  }

  // The running sums of the deltas.
  method Offsets(t: seq<nat>) returns (streams: seq<int>)
    requires t != []
    ensures |streams| == |t| && forall j :: 0 <= j < |t| ==> streams[j] == Prefix(t, j + 1)
  {
    streams := [t[0]];
    var x := 1;
    assert Prefix(t, 1) == Prefix(t, 0) + t[0];
    while x < |t|
      invariant 1 <= x <= |t| && |streams| == x
      invariant forall j :: 0 <= j < x ==> streams[j] == Prefix(t, j + 1)
    {
      streams := streams + [t[x] + streams[|streams|-1]];
      x := x + 1;
    }
  }

  // The refill pass; it stops on an empty list of time points.
  method RefillQueues(patterns: seq<Pattern>, queues: seq<Queue>, passed: seq<bool>, cur: int)
    returns (qs: seq<Queue>, indexError: bool)
    requires |patterns| == |queues| == |passed|
    ensures indexError <==>
            exists i :: 0 <= i < |patterns| && !passed[i] && queues[i].due == [] && patterns[i].deltas == []
    ensures |qs| == |queues|
    ensures !indexError ==> forall i :: 0 <= i < |qs| ==> qs[i] == RefillOne(patterns[i], queues[i], passed[i], cur)
  {
    qs := queues;
    indexError := false;
    var i := 0;
    while i < |patterns|
      invariant 0 <= i <= |patterns| && |qs| == |queues| && !indexError
      invariant forall j :: 0 <= j < i ==> qs[j] == RefillOne(patterns[j], queues[j], passed[j], cur)
      invariant forall j :: 0 <= j < i ==> passed[j] || queues[j].due != [] || patterns[j].deltas != []
      invariant forall j :: i <= j < |qs| ==> qs[j] == queues[j]
    {
      if !passed[i] && qs[i].due == [] {
        if patterns[i].deltas == [] {
          return qs, true;
        }
        var streams := Offsets(patterns[i].deltas);
        var due := seq(|streams|, j requires 0 <= j < |streams| => cur + streams[j]);
        assert due == Dues(cur, patterns[i].deltas);
        qs := qs[i := Queue(due, patterns[i].cps)];
      }
      i := i + 1;
    }
  }

  lemma {:induction false} EarliestExtend(qs: seq<Queue>, q: Queue)
    ensures Earliest(qs + [q]) == match Earliest(qs)
                                  case None => if q.due == [] then None else Some(|qs|)
                                  case Some(i) => if q.due != [] && q.due[0] < qs[i].due[0] then Some(|qs|) else Some(i)
  {
    assert (qs + [q])[..|qs|] == qs;
  }

  // The minimum over the heads of the queues, the first of them when several are equal.
  method NextToChange(qs: seq<Queue>) returns (scn: Option<nat>)
    ensures scn == Earliest(qs)
  {
    scn := None;
    var i := 0;
    assert Earliest(qs[..0]) == None;
    hide Earliest;
    while i < |qs|
      invariant 0 <= i <= |qs|
      invariant scn == Earliest(qs[..i])
    {
      EarliestExtend(qs[..i], qs[i]);
      assert qs[..i+1] == qs[..i] + [qs[i]];
      if qs[i].due != [] && (scn == None || qs[i].due[0] < qs[scn.value].due[0]) {
        scn := Some(i);
      }
      i := i + 1;
    }
    assert qs[..|qs|] == qs;
  }

  // Waits for the head of queue i and sends it.
  method SendHead(ghost env: Env, ghost s: State, patterns: seq<Pattern>, clock: Clock, cur: int, i: nat,
                  queues: seq<Queue>, passed: seq<bool>, log: seq<Command>)
    returns (queues': seq<Queue>, passed': seq<bool>, log': seq<Command>)
    requires env.patterns == patterns && env.lag == clock.lag
    requires cur == Reading(env, s) == clock.now && clock.tick == s.tick + 1
    requires passed == s.passed && log == s.log
    requires Ready(env, s.passed, queues) && i < |queues| && queues[i].due != []
    modifies clock
    ensures State(clock.now, clock.tick, queues', passed', log') == Send(env, s, queues, i)
  {
    var nextTimepoint, cps := queues[i].due[0], queues[i].cps[0];
    queues' := queues[i := Queue(queues[i].due[1..], queues[i].cps[1..])];
    var waitTime := nextTimepoint - cur;
    if waitTime < 0 {
      waitTime := 0;
    }
    assert waitTime == Max(cur, nextTimepoint) - cur;
    clock.Sleep(waitTime);
    log' := log + [Command(i, cps, nextTimepoint, clock.now)];
    passed' := passed;
    if queues'[i].due == [] && !patterns[i].repeat {
      passed' := passed[i := true];
    }
  }

  // The rest of a turn, once the queues are refilled.
  method SendNext(ghost env: Env, ghost s: State, patterns: seq<Pattern>, end: int, clock: Clock, cur: int,
                  queues: seq<Queue>, passed: seq<bool>, log: seq<Command>)
    returns (queues': seq<Queue>, passed': seq<bool>, log': seq<Command>)
    requires Shape(env, s) && Continues(env, s)
    requires env.patterns == patterns && env.end == end && env.lag == clock.lag
    requires cur == Reading(env, s) == clock.now && clock.tick == s.tick + 1
    requires queues == Refill(env, s, cur) && passed == s.passed && log == s.log
    modifies clock
    ensures State(clock.now, clock.tick, queues', passed', log') == Turn(env, s)
  {
    var scn := NextToChange(queues);
    if scn != None {
      TurnSends(env, s, scn.value);
      hide Turn, Send, Refill, Shape;
      queues', passed', log' := SendHead(env, s, patterns, clock, cur, scn.value, queues, passed, log);
    } else {
      NothingToSend(env, s);
      queues', passed', log' := queues, passed, log;
      clock.Sleep(end - cur);
    }
  }

  // With every pattern passed a turn sleeps until the end.
  lemma NothingToSend(env: Env, s: State)
    requires Shape(env, s) && Continues(env, s)
    requires Earliest(Refill(env, s, Reading(env, s))).None?
    ensures Turn(env, s) == SleepOut(env, s) && Refill(env, s, Reading(env, s)) == s.queues
  {
    RefillReady(env, s, Reading(env, s));
    var qs := Refill(env, s, Reading(env, s));
    EarliestIsFirstLeast(qs);
    hide Turn, Refill;
    forall i | 0 <= i < |qs| ensures qs[i] == s.queues[i] {
      assert s.passed[i];
    }
    assert qs == s.queues;
    TurnSleeps(env, s);
  }

  lemma TurnSleeps(env: Env, s: State)
    requires Shape(env, s) && Continues(env, s)
    requires Earliest(Refill(env, s, Reading(env, s))).None?
    ensures Turn(env, s) == SleepOut(env, s)
  {
    hide Shape, Refill, SleepOut, Send;
  }

  lemma RefilledQueues(env: Env, s: State, qs: seq<Queue>)
    requires Shape(env, s) && |qs| == |s.queues|
    requires forall i :: 0 <= i < |qs| ==>
                           qs[i] == RefillOne(env.patterns[i], s.queues[i], s.passed[i], Reading(env, s))
    ensures qs == Refill(env, s, Reading(env, s))
  {
  }

  lemma TurnSizes(env: Env, s: State)
    requires Shape(env, s) && Continues(env, s)
    ensures |Turn(env, s).queues| == |Turn(env, s).passed| == |env.patterns|
  {
    hide Turn;
  }

  // What the loop has done after some turns, and what it can still do. With an empty pattern it
  // does not get past its first turn.
  ghost predicate Progress(env: Env, s0: State, s: State, turns: nat) {
    if UsableEnv(env) then
      && Shape(env, s0) && s == Turns(env, s0, turns)
      && (Productive(env) ==> turns + Measure(env, s) <= Measure(env, s0))
    else
      && turns == 0 && s == s0 && s.tick == 0 && s.log == []
      && |s.queues| == |s.passed| == |env.patterns|
      && forall i :: 0 <= i < |env.patterns| ==> s.queues[i].due == [] && !s.passed[i]
  }

  lemma AtStart(env: Env, start: int)
    ensures Progress(env, Initial(env, start), Initial(env, start), 0)
  {
    if UsableEnv(env) { InitialShape(env, start); }
  }

  lemma ProgressTurn(env: Env, s0: State, s: State, turns: nat)
    requires Progress(env, s0, s, turns) && UsableEnv(env) && Continues(env, s)
    ensures Shape(env, s) && Progress(env, s0, Turn(env, s), turns + 1)
  {
    hide Turn, Measure, Shape, Continues;
    TurnsExtend(env, s0, turns);
    if Productive(env) { TurnShrinks(env, s); }
  }

  // One turn of the loop, the clock already read.
  method OneTurn(ghost env: Env, ghost s0: State, ghost s: State, turns: nat, patterns: seq<Pattern>, end: int,
                 clock: Clock, cur: int, queues: seq<Queue>, passed: seq<bool>, log: seq<Command>)
    returns (queues': seq<Queue>, passed': seq<bool>, log': seq<Command>, indexError: bool,
            turns': nat, ghost s': State)
    requires |patterns| == |queues| == |passed|
    requires env.patterns == patterns && env.end == end && env.lag == clock.lag
    requires cur == Reading(env, s) == clock.now && clock.tick == s.tick + 1
    requires queues == s.queues && passed == s.passed && log == s.log
    requires forall i :: 0 <= i < |patterns| ==> |patterns[i].deltas| == |patterns[i].cps|
    requires Continues(env, s) && Progress(env, s0, s, turns)
    modifies clock
    ensures indexError == !UsableEnv(env)
    ensures |queues'| == |passed'| == |patterns|
    ensures indexError ==> log' == log && s' == s && turns' == turns && clock.now == cur
    ensures !indexError ==>
              && s' == State(clock.now, clock.tick, queues', passed', log')
              && Progress(env, s0, s', turns') && turns' == turns + 1
  {
    passed', log', s', turns' := passed, log, s, turns;
    queues', indexError := RefillQueues(patterns, queues, passed, cur);
    if !indexError {
      assert UsableEnv(env);
      hide *;
      ProgressTurn(env, s0, s, turns);
      RefilledQueues(env, s, queues');
      queues', passed', log' := SendNext(env, s, patterns, end, clock, cur, queues', passed, log);
      TurnSizes(env, s);
      s', turns' := Turn(env, s), turns + 1;
    }
  }

  // How a run that began in s0 came out, and when.
  ghost predicate Outcome(env: Env, s0: State, stopAt: nat,
                          log: seq<Command>, ended: bool, indexError: bool, turns: nat, now: int) {
    if UsableEnv(env) then
      && !indexError && Shape(env, s0) && turns <= stopAt
      && log == Turns(env, s0, turns).log
      && (if ended then !Continues(env, Turns(env, s0, turns)) else turns == stopAt)
      && (Productive(env) && Measure(env, s0) < stopAt ==> ended)
      && Stands(env, s0.now, log, ended, now)
    else
      && log == [] && ended == (stopAt > 0 && !Continues(env, s0))
      && indexError == (stopAt > 0 && !ended)
      && now == if stopAt > 0 then s0.now + env.lag(0) else s0.now
  }

  // Where the clock stands after the run. An ended run has seen the end go by on its last reading; its
  // last sleep was that of its last command, or one until the end, and took its own extra time. With
  // exact sleeps the run ends at the end, or with a later last command, or not after a later start.
  ghost predicate Stands(env: Env, start: int, log: seq<Command>, ended: bool, now: int) {
    var n := |log|;
    && SentOnTime(env, start, log)
    && (ended ==>
          && now >= env.end
          && (|| now == LastSent(start, log) + env.lag(2 * n)
              || now == env.end + env.lag(2 * n + 1) + env.lag(2 * n + 2)))
    && (!ended ==> now == LastSent(start, log) || now == env.end + env.lag(2 * n + 1))
    && (ended && (forall t: nat :: env.lag(t) == 0) ==> now == Max(Max(start, env.end), LastSent(start, log)))
  }

  lemma {:induction false} StandsAtEnd(env: Env, s0: State, s: State, ended: bool)
    requires OnTime(env, s0.now, s) && (ended ==> !Continues(env, s))
    ensures Stands(env, s0.now, s.log, ended, if ended then Reading(env, s) else s.now)
  {
    SentAfterStart(env, s0.now, s.log);
    hide SentOnTime;
  }

  lemma {:induction false} AtEnd(env: Env, start: int, s: State, stopAt: nat,
                                 ended: bool, indexError: bool, turns: nat, now: int)
    requires Progress(env, Initial(env, start), s, turns) && turns <= stopAt
    requires indexError ==> !UsableEnv(env)
    requires if ended then !indexError && !Continues(env, s) && turns < stopAt
             else if indexError then Continues(env, s) && turns < stopAt
             else turns == stopAt
    requires now == if ended || indexError then Reading(env, s) else s.now
    ensures Outcome(env, Initial(env, start), stopAt, s.log, ended, indexError, turns, now)
  {
    var s0 := Initial(env, start);
    if UsableEnv(env) {
      TurnsOnTime(env, start, turns);
      hide OnTime, Stands;
      StandsAtEnd(env, s0, s, ended);
    }
    hide Measure, Shape, Turns, Productive, Stands, OnTime;
  }

  /** Runs the patterns until the end time, or until the running flag is found cleared before turn
      `stopAt`. Without an empty pattern the commands sent are those of the turns of `Scheduler`, each
      when due or at once, and patterns with positive periods reach the end, where the run stops but
      for a later last command; an empty pattern ends the run with an error before any command. */
  method RunPatterns(patterns: seq<Pattern>, end: int, clock: Clock, stopAt: nat)
    returns (log: seq<Command>, ended: bool, indexError: bool, turns: nat)
    requires forall i :: 0 <= i < |patterns| ==> |patterns[i].deltas| == |patterns[i].cps|
    requires clock.tick == 0
    modifies clock
    ensures var env := Env(patterns, end, clock.lag);
            Outcome(env, Initial(env, old(clock.now)), stopAt, log, ended, indexError, turns, clock.now)
  {
    ghost var env := Env(patterns, end, clock.lag);
    ghost var start := clock.now;
    ghost var s0 := Initial(env, start);
    AtStart(env, start);
    var queues := seq(|patterns|, i => Queue([], []));
    var passed := seq(|patterns|, i => false);
    log, ended, indexError, turns := [], false, false, 0;
    assert State(clock.now, clock.tick, queues, passed, log) == s0;
    hide *;
    ghost var s := s0;
    while turns < stopAt
      invariant |patterns| == |queues| == |passed| && turns <= stopAt
      invariant s == State(clock.now, clock.tick, queues, passed, log)
      invariant Progress(env, s0, s, turns)
    {
      var cur := clock.GetEpochMs();
      if cur >= end {
        AtEnd(env, start, s, stopAt, true, false, turns, clock.now);
        return log, true, false, turns;
      }
      queues, passed, log, indexError, turns, s :=
        OneTurn(env, s0, s, turns, patterns, end, clock, cur, queues, passed, log);
      if indexError {
        AtEnd(env, start, s, stopAt, false, true, turns, clock.now);
        return log, false, true, turns;
      }
    }
    AtEnd(env, start, s, stopAt, false, false, turns, clock.now);
    return log, false, false, turns;
  }
}
