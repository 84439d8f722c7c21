/**
 The scheduler under exact sleeps, against its closed form: the command with index c of a pattern
 with n deltas of sum P is its rate c mod n, sent at start + (c div n) * P + the sum of its deltas
 0..(c mod n), whatever the other patterns do.
 */
module SchedulerExact {
  import opened Wrappers
  import opened Arithmetic
  import opened Scheduler

  ghost predicate Exact(env: Env) {
    forall t :: env.lag(t) == 0
  }

  // Start of the cycle that command c belongs to.
  function CycleStart(p: Pattern, start: int, c: nat): int
    requires Usable(p)
  {
    start + c / |p.deltas| * Period(p)
  }

  function DueOf(p: Pattern, start: int, c: nat): int
    requires Usable(p)
  {
    CycleStart(p, start, c) + Prefix(p.deltas, c % |p.deltas| + 1)
  }

  /** The first command of a pattern is due its first delta after the start, and each other one the next
      delta of the list, going round, after the one before. */
  lemma DueOneAfterAnother(p: Pattern, start: int, c: nat)
    requires Usable(p)
    ensures DueOf(p, start, 0) == start + p.deltas[0]
    ensures DueOf(p, start, c + 1) == DueOf(p, start, c) + p.deltas[(c + 1) % |p.deltas|]
  {
    var n := |p.deltas|;
    QuotientIs(0, n, 0, 0);
    assert Prefix(p.deltas, 1) == p.deltas[0];
    NextInCycle(p, start, c);
    if c % n + 1 == n { assert Prefix(p.deltas, 1) == p.deltas[0]; }
  }

  // Commands of pattern i in the log.
  function Count(log: seq<Command>, i: nat): nat {
    if log == [] then 0
    else Count(log[..|log|-1], i) + if log[|log|-1].pattern == i then 1 else 0
  }

  // Command m of the log is what the closed form says.
  predicate EntryMatches(env: Env, start: int, log: seq<Command>, m: nat)
    requires UsableEnv(env) && m < |log|
  {
    var e := log[m];
    e.pattern < |env.patterns| &&
    var p, c := env.patterns[e.pattern], Count(log[..m], e.pattern);
    && (p.repeat || c < |p.deltas|)
    && e.cps == p.cps[c % |p.deltas|]
    && e.due == DueOf(p, start, c)
    && e.at == e.due
  }

  predicate LogMatches(env: Env, start: int, log: seq<Command>)
    requires UsableEnv(env)
  {
    forall m :: 0 <= m < |log| ==> EntryMatches(env, start, log, m)
  }

  // With c commands sent, the queue holds the rest of the current cycle.
  predicate QueueMatches(p: Pattern, q: Queue, passed: bool, c: nat, start: int, now: int)
    requires Usable(p)
  {
    var n := |p.deltas|;
    if passed then c == n && !p.repeat && q.due == []
    else
      && (p.repeat || c < n)
      && if q.due == [] then c % n == 0 && now == CycleStart(p, start, c)
         else
           && |q.due| == |q.cps| <= n && c % n == n - |q.due|
           && (forall j :: 0 <= j < |q.due| ==> q.cps[j] == p.cps[n - |q.due| + j])
           && (forall j :: 0 <= j < |q.due| ==>
                             q.due[j] == CycleStart(p, start, c) + Prefix(p.deltas, n - |q.due| + j + 1))
           && NotBefore(q.due, now)
  }

  predicate Follows(env: Env, start: int, s: State) {
    && Shape(env, s)
    && (forall i :: 0 <= i < |s.queues| ==>
                      QueueMatches(env.patterns[i], s.queues[i], s.passed[i], Count(s.log, i), start, s.now))
    && LogMatches(env, start, s.log)
  }

  lemma {:induction false} CountAppend(log: seq<Command>, e: Command, i: nat)
    ensures Count(log + [e], i) == Count(log, i) + if e.pattern == i then 1 else 0
  {
    assert (log + [e])[..|log|] == log;
  }

  lemma NextInCycle(p: Pattern, start: int, c: nat)
    requires Usable(p)
    ensures var n := |p.deltas|;
            if c % n + 1 < n
            then (c + 1) % n == c % n + 1 && CycleStart(p, start, c + 1) == CycleStart(p, start, c)
            else (c + 1) % n == 0 && CycleStart(p, start, c + 1) == CycleStart(p, start, c) + Period(p)
  {
    var n := |p.deltas|;
    var k, r := c / n, c % n;
    assert c == k * n + r;
    if r + 1 < n {
      QuotientIs(c + 1, n, k, r + 1);
    } else {
      assert c + 1 == (k + 1) * n;
      QuotientIs(c + 1, n, k + 1, 0);
      assert (k + 1) * Period(p) == k * Period(p) + Period(p);
    }
  }

  lemma RefillMatches(p: Pattern, q: Queue, passed: bool, c: nat, start: int, now: int)
    requires Usable(p) && QueueMatches(p, q, passed, c, start, now)
    ensures var q' := RefillOne(p, q, passed, now);
            QueueMatches(p, q', passed, c, start, now) && (passed <==> q'.due == [])
  {
    DuesSorted(now, p.deltas);
  }

  lemma PopMatches(p: Pattern, q: Queue, c: nat, start: int, now: int)
    requires Usable(p) && q.due != [] && Sorted(q.due) && QueueMatches(p, q, false, c, start, now)
    ensures var rest := Queue(q.due[1..], q.cps[1..]);
            && QueueMatches(p, rest, rest.due == [] && !p.repeat, c + 1, start, q.due[0])
            && q.due[0] == DueOf(p, start, c) && q.cps[0] == p.cps[c % |p.deltas|]
  {
    NextInCycle(p, start, c);
    if !p.repeat {
      QuotientIs(c, |p.deltas|, 0, c);
    }
  }

  lemma LogMatchesExtend(env: Env, start: int, log: seq<Command>, e: Command)
    requires UsableEnv(env) && LogMatches(env, start, log)
    requires EntryMatches(env, start, log + [e], |log|)
    ensures LogMatches(env, start, log + [e])
  {
    forall m | 0 <= m < |log| ensures EntryMatches(env, start, log + [e], m) {
      assert (log + [e])[..m] == log[..m] && EntryMatches(env, start, log, m);
    }
  }

  // A queue that is not empty keeps matching while time has not reached its head.
  lemma OtherMatches(p: Pattern, q: Queue, passed: bool, c: nat, start: int, now: int, later: int)
    requires Usable(p) && QueueMatches(p, q, passed, c, start, now)
    requires (passed <==> q.due == []) && NotBefore(q.due, later)
    ensures QueueMatches(p, q, passed, c, start, later)
  {
  }

  // The refilled queues match, and only passed patterns have an empty one.
  ghost predicate Refilled(env: Env, start: int, s: State, qs: seq<Queue>) {
    && Follows(env, start, s) && qs == Refill(env, s, s.now)
    && forall j :: 0 <= j < |qs| ==>
                     && QueueMatches(env.patterns[j], qs[j], s.passed[j], Count(s.log, j), start, s.now)
                     && (s.passed[j] <==> qs[j].due == [])
  }

  // What popping a matching queue adds to the log, and leaves of the queue.
  lemma {:induction false} PopEntry(env: Env, start: int, log: seq<Command>, i: nat, q: Queue, now: int)
    requires UsableEnv(env) && i < |env.patterns| && q.due != [] && |q.due| == |q.cps| && Sorted(q.due)
    requires QueueMatches(env.patterns[i], q, false, Count(log, i), start, now)
    ensures var whole, rest := log + [Command(i, q.cps[0], q.due[0], q.due[0])], Queue(q.due[1..], q.cps[1..]);
            && EntryMatches(env, start, whole, |log|)
            && QueueMatches(env.patterns[i], rest, rest.due == [] && !env.patterns[i].repeat, Count(whole, i), start,
                            q.due[0])
  {
    var e := Command(i, q.cps[0], q.due[0], q.due[0]);
    PopMatches(env.patterns[i], q, Count(log, i), start, now);
    CountAppend(log, e, i);
    assert (log + [e])[..|log|] == log;
  }

  // The case in which the turn sends a command of pattern i.
  ghost predicate Sends(env: Env, start: int, s: State, i: nat) {
    && Exact(env) && Orderly(env, s) && Shape(env, s) && Continues(env, s)
    && Refilled(env, start, s, Refill(env, s, s.now))
    && Earliest(Refill(env, s, s.now)) == Some(i)
  }

  // What is known of queue j in that case.
  lemma {:induction false} QueueBefore(env: Env, start: int, s: State, i: nat, j: nat)
    requires Sends(env, start, s, i) && j < |env.patterns|
    ensures UsableEnv(env) && Shape(env, s) && |s.passed| == |s.queues| == |env.patterns| && i < |env.patterns|
    ensures Usable(env.patterns[j]) && Refill(env, s, s.now)[i].due != []
    ensures var q := Refill(env, s, s.now)[j];
            && QueueMatches(env.patterns[j], q, s.passed[j], Count(s.log, j), start, s.now)
            && (s.passed[j] <==> q.due == []) && |q.due| == |q.cps| && Sorted(q.due)
            && NotBefore(q.due, Refill(env, s, s.now)[i].due[0])
  {
    assert Reading(env, s) == s.now;
    RefillOrderly(env, s, j);
    HeadIsEarliest(Refill(env, s, s.now), i, j);
    hide QueueMatches;
  }

  // What sending the head of queue i does when nothing takes extra time.
  lemma SendExactly(env: Env, s: State, qs: seq<Queue>, i: nat)
    requires Ready(env, s.passed, qs) && i < |qs| && qs[i].due != []
    requires Reading(env, s) == s.now <= qs[i].due[0] && env.lag(s.tick + 1) == 0
    ensures var s', q := Send(env, s, qs, i), qs[i];
            var rest := Queue(q.due[1..], q.cps[1..]);
            && |qs| == |env.patterns| == |s.passed| && !s.passed[i] && |s'.queues| == |s'.passed| == |env.patterns|
            && s'.queues[i] == rest && s'.now == q.due[0]
            && s'.passed[i] == (rest.due == [] && !env.patterns[i].repeat)
            && (forall j :: 0 <= j < |env.patterns| && j != i ==>
                              s'.queues[j] == qs[j] && s'.passed[j] == s.passed[j])
            && s'.log == s.log + [Command(i, q.cps[0], q.due[0], q.due[0])]
  {
  }

  // What the turn does in that case: it sends the head of queue i at its due time.
  lemma TurnInCase(env: Env, start: int, s: State, i: nat)
    requires Sends(env, start, s, i)
    ensures UsableEnv(env) && Shape(env, s) && Continues(env, s)
    ensures i < |env.patterns| && s.queues != [] && |s.passed| == |env.patterns|
    ensures var s', q := Turn(env, s), Refill(env, s, s.now)[i];
            var rest := Queue(q.due[1..], q.cps[1..]);
            && !s.passed[i] && |s'.queues| == |s'.passed| == |env.patterns|
            && s'.queues[i] == rest && s'.now == q.due[0]
            && s'.passed[i] == (rest.due == [] && !env.patterns[i].repeat)
            && (forall j :: 0 <= j < |env.patterns| && j != i ==>
                              s'.queues[j] == Refill(env, s, s.now)[j] && s'.passed[j] == s.passed[j])
            && s'.log == s.log + [Command(i, q.cps[0], q.due[0], q.due[0])]
  {
    assert Reading(env, s) == s.now && env.lag(s.tick + 1) == 0;
    QueueBefore(env, start, s, i, i);
    assert s.now <= Refill(env, s, s.now)[i].due[0];
    hide *;
    TurnSends(env, s, i);
    SendExactly(env, s, Refill(env, s, s.now), i);
  }

  lemma {:induction false} SenderMatches(env: Env, start: int, s: State, i: nat)
    requires Sends(env, start, s, i)
    ensures UsableEnv(env) && Shape(env, s) && Continues(env, s) && i < |env.patterns|
    ensures var s' := Turn(env, s);
            && |s'.queues| == |s'.passed| == |env.patterns| && |s'.log| == |s.log| + 1
            && QueueMatches(env.patterns[i], s'.queues[i], s'.passed[i], Count(s'.log, i), start, s'.now)
            && EntryMatches(env, start, s'.log, |s.log|)
  {
    hide *;
    TurnInCase(env, start, s, i);
    QueueBefore(env, start, s, i, i);
    PopEntry(env, start, s.log, i, Refill(env, s, s.now)[i], s.now);
  }

  lemma {:induction false} OthersMatch(env: Env, start: int, s: State, i: nat, j: nat)
    requires Sends(env, start, s, i) && j < |env.patterns| && i != j
    ensures UsableEnv(env) && Shape(env, s) && Continues(env, s)
    ensures var s' := Turn(env, s);
            && |s'.queues| == |s'.passed| == |env.patterns|
            && QueueMatches(env.patterns[j], s'.queues[j], s'.passed[j], Count(s'.log, j), start, s'.now)
  {
    hide *;
    TurnInCase(env, start, s, i);
    QueueBefore(env, start, s, i, j);
    CountAppend(s.log, Turn(env, s).log[|s.log|], j);
    var q, later := Refill(env, s, s.now)[j], Turn(env, s).now;
    OtherMatches(env.patterns[j], q, s.passed[j], Count(s.log, j), start, s.now, later);
  }

  // The turn that sends a command of pattern i.
  lemma PopOne(env: Env, start: int, s: State, i: nat)
    requires Sends(env, start, s, i) && i < |env.patterns|
    ensures Follows(env, start, Turn(env, s))
  {
    SenderMatches(env, start, s, i);
    hide Turn, QueueMatches, EntryMatches;
    var s' := Turn(env, s);
    LogMatchesExtend(env, start, s.log, s'.log[|s.log|]);
    forall j | 0 <= j < |env.patterns|
      ensures QueueMatches(env.patterns[j], s'.queues[j], s'.passed[j], Count(s'.log, j), start, s'.now)
    {
      if j != i { OthersMatch(env, start, s, i, j); }
    }
  }

  lemma RefillFollows(env: Env, start: int, s: State)
    requires Exact(env) && Follows(env, start, s)
    ensures Reading(env, s) == s.now && Refilled(env, start, s, Refill(env, s, s.now))
  {
    hide QueueMatches, LogMatches;
    forall j | 0 <= j < |env.patterns|
      ensures QueueMatches(env.patterns[j], Refill(env, s, s.now)[j], s.passed[j], Count(s.log, j), start, s.now)
      ensures s.passed[j] <==> Refill(env, s, s.now)[j].due == []
    {
      RefillMatches(env.patterns[j], s.queues[j], s.passed[j], Count(s.log, j), start, s.now);
    }
  }

  lemma TurnFollows(env: Env, start: int, s: State)
    requires Exact(env) && Follows(env, start, s) && Continues(env, s) && Orderly(env, s)
    ensures Follows(env, start, Turn(env, s))
  {
    RefillFollows(env, start, s);
    var s', qs := Turn(env, s), Refill(env, s, s.now);
    match Earliest(qs) {
      case None =>
        EarliestIsFirstLeast(qs);
        hide LogMatches;
        forall j | 0 <= j < |qs| ensures s.passed[j] && s'.queues[j] == s.queues[j] { assert qs[j].due == []; }
      case Some(i) =>
        PopOne(env, start, s, i);
    }
  }

  lemma {:induction false} TurnsFollow(env: Env, start: int, s: State, k: nat)
    requires Exact(env) && Follows(env, start, s) && Orderly(env, s)
    ensures Follows(env, start, Turns(env, s, k))
    decreases k
  {
    hide Turn;
    if k == 0 || !Continues(env, s) {
    } else {
      TurnOrderly(env, s);
      TurnFollows(env, start, s);
      TurnsFollow(env, start, Turn(env, s), k - 1);
    }
  }

  lemma InitialFollows(env: Env, start: int)
    requires UsableEnv(env)
    ensures Follows(env, start, Initial(env, start))
  {
  }

  /* ----- Theorems ----- */

  /** The j-th command of a pattern is the closed form's, sent exactly when due, and a pattern that
      does not repeat sends a prefix of its list. */
  lemma {:induction false} CommandsMatchClosedForm(env: Env, start: int, k: nat, m: nat)
    requires UsableEnv(env) && Exact(env)
    ensures Shape(env, Initial(env, start))
    ensures var log := Turns(env, Initial(env, start), k).log;
            m < |log| ==> EntryMatches(env, start, log, m)
  {
    InitialShape(env, start);
    InitialFollows(env, start);
    TurnsFollow(env, start, Initial(env, start), k);
  }

  lemma DistanceOfDue(p: Pattern, start: int, c: nat)
    requires Usable(p)
    ensures var j := c % |p.deltas|;
            && (c < |p.deltas| ==> CycleStart(p, start, c) == start && j == c)
            && (DueOf(p, start, c) == CycleStart(p, start, c) + p.deltas[j] <==> Prefix(p.deltas, j) == 0)
  {
    if c < |p.deltas| { QuotientIs(c, |p.deltas|, 0, c); }
    hide Period;
  }

  /** Read as a distance from the start (of the run, or of the cycle a repetition is in), a time point
      is when its command is sent exactly when all earlier ones of the list add up to zero. */
  lemma {:induction false} DistanceFromStartExactly(env: Env, start: int, k: nat, m: nat)
    requires UsableEnv(env) && Exact(env)
    ensures Shape(env, Initial(env, start))
    ensures var log := Turns(env, Initial(env, start), k).log;
            m < |log| ==>
              && log[m].pattern < |env.patterns|
              && var p := env.patterns[log[m].pattern];
              var c := Count(log[..m], log[m].pattern);
              var j := c % |p.deltas|;
              && (c < |p.deltas| ==> CycleStart(p, start, c) == start && j == c)
              && (log[m].at == CycleStart(p, start, c) + p.deltas[j] <==> Prefix(p.deltas, j) == 0)
  {
    CommandsMatchClosedForm(env, start, k, m);
    var log := Turns(env, Initial(env, start), k).log;
    hide Turns, Initial, Shape, Exact, DueOf, CycleStart, Prefix, Count;
    if m < |log| {
      DistanceOfDue(env.patterns[log[m].pattern], start, Count(log[..m], log[m].pattern));
    }
  }

  lemma {:induction false} DueMonotone(p: Pattern, start: int, c: nat, d: nat)
    requires Usable(p) && c <= d
    ensures DueOf(p, start, c) <= DueOf(p, start, d)
    decreases d - c
  {
    if c == d {
    } else {
      var n := |p.deltas|;
      NextInCycle(p, start, c);
      if c % n + 1 < n {
        PrefixMonotone(p.deltas, c % n + 1, c % n + 2);
      } else {
        assert c % n + 1 == n;
      }
      DueMonotone(p, start, c + 1, d);
    }
  }

  // The next command of a pattern that is not passed is not due before now.
  lemma NextNotBefore(p: Pattern, q: Queue, c: nat, start: int, now: int)
    requires Usable(p) && QueueMatches(p, q, false, c, start, now)
    ensures now <= DueOf(p, start, c)
  {
    if q.due != [] { assert q.due[0] == DueOf(p, start, c); }
  }

  /** When the loop has ended, every command of every pattern due before the end has been sent:
      the ones left are due at the end or later. */
  lemma {:induction false} EverythingDueWasSent(env: Env, start: int, k: nat, i: nat, c: nat)
    requires UsableEnv(env) && Exact(env) && i < |env.patterns|
    requires Shape(env, Initial(env, start)) && !Continues(env, Turns(env, Initial(env, start), k))
    requires c >= Count(Turns(env, Initial(env, start), k).log, i)
    requires env.patterns[i].repeat || c < |env.patterns[i].deltas|
    ensures DueOf(env.patterns[i], start, c) >= env.end
  {
    InitialShape(env, start);
    InitialFollows(env, start);
    TurnsFollow(env, start, Initial(env, start), k);
    NothingDueLeft(env, start, Turns(env, Initial(env, start), k), i, c);
  }

  lemma {:induction false} NothingDueLeft(env: Env, start: int, s: State, i: nat, c: nat)
    requires Exact(env) && Follows(env, start, s) && i < |env.patterns| && !Continues(env, s)
    requires c >= Count(s.log, i)
    requires env.patterns[i].repeat || c < |env.patterns[i].deltas|
    ensures DueOf(env.patterns[i], start, c) >= env.end
  {
    var p, sent := env.patterns[i], Count(s.log, i);
    assert s.now == Reading(env, s);
    assert QueueMatches(p, s.queues[i], s.passed[i], sent, start, s.now);
    assert !s.passed[i];
    hide QueueMatches, LogMatches, DueOf;
    NextNotBefore(p, s.queues[i], sent, start, s.now);
    DueMonotone(p, start, sent, c);
  }

  // A pattern that goes round without time passing.
  predicate Stuckable(env: Env, z: nat) {
    z < |env.patterns| && env.patterns[z].repeat && Period(env.patterns[z]) == 0
  }

  // Pattern z goes round at a standstill.
  predicate Stuck(env: Env, start: int, s: State, z: nat)
    requires Shape(env, s) && z < |env.patterns|
  {
    && s.now == start && !s.passed[z]
    && (forall i :: 0 <= i < |s.queues| ==> NotBefore(s.queues[i].due, start))
    && (forall j :: 0 <= j < |s.queues[z].due| ==> s.queues[z].due[j] == start)
  }

  // After the refill the stuck pattern has a command due at once, and no queue has an earlier one.
  lemma RefillStuck(env: Env, start: int, s: State, z: nat)
    requires Shape(env, s) && Exact(env) && Stuckable(env, z) && Stuck(env, start, s, z)
    ensures var qs := Refill(env, s, s.now);
            && qs[z].due != []
            && (forall i :: 0 <= i < |qs| ==> NotBefore(qs[i].due, start))
            && (forall j :: 0 <= j < |qs[z].due| ==> qs[z].due[j] == start)
  {
    var qs, deltas := Refill(env, s, s.now), env.patterns[z].deltas;
    forall j | 0 <= j < |deltas| ensures Dues(start, deltas)[j] == start {
      PrefixMonotone(deltas, j + 1, |deltas|);
    }
    forall i | 0 <= i < |qs| ensures NotBefore(qs[i].due, start) {
      DuesSorted(start, env.patterns[i].deltas);
    }
  }

  // Sending a command due at once changes nothing of that.
  lemma SendStuck(env: Env, start: int, s: State, qs: seq<Queue>, z: nat, i: nat, j: nat)
    requires Exact(env) && s.now == start && Ready(env, s.passed, qs)
    requires i < |qs| && qs[i].due != [] && qs[i].due[0] == start && j < |qs| && z < |qs|
    requires Stuckable(env, z) && !s.passed[z]
    requires NotBefore(qs[j].due, start)
    requires forall l :: 0 <= l < |qs[z].due| ==> qs[z].due[l] == start
    ensures var s' := Send(env, s, qs, i);
            && |s'.queues| == |s'.passed| == |qs| && NotBefore(s'.queues[j].due, start) && s'.now == start
            && !s'.passed[z] && forall l :: 0 <= l < |s'.queues[z].due| ==> s'.queues[z].due[l] == start
  {
    SendQueue(env, s, qs, i, j);
    SendQueue(env, s, qs, i, z);
    assert Send(env, s, qs, i).now == start;
    hide Send, Ready, Exact;
  }

  lemma TurnStuck(env: Env, start: int, s: State, z: nat)
    requires Shape(env, s) && Exact(env) && Continues(env, s) && Stuckable(env, z)
    requires Stuck(env, start, s, z)
    ensures Stuck(env, start, Turn(env, s), z)
  {
    var qs := Refill(env, s, s.now);
    assert Reading(env, s) == s.now;
    RefillStuck(env, start, s, z);
    EarliestIsFirstLeast(qs);
    var i := Earliest(qs).value;
    assert NotBefore(qs[i].due, start) && qs[z].due[0] == start;
    assert qs[i].due[0] == start;
    hide Turn, Refill, Shape, Send, Earliest, NotBefore, Exact, Continues, Stuckable;
    TurnSends(env, s, i);
    forall j | 0 <= j < |qs|
      ensures var s' := Send(env, s, qs, i);
              |s'.queues| == |s'.passed| == |qs| && NotBefore(s'.queues[j].due, start) && s'.now == start
    {
      SendStuck(env, start, s, qs, z, i, j);
    }
    SendStuck(env, start, s, qs, z, i, z);
  }

  lemma {:induction false} StuckForever(env: Env, start: int, s: State, z: nat, k: nat)
    requires Shape(env, s) && Exact(env) && start < env.end
    requires Stuckable(env, z) && Stuck(env, start, s, z)
    ensures Continues(env, Turns(env, s, k))
    decreases k
  {
    hide Turn;
    assert Reading(env, s) == s.now;
    if k == 0 {
    } else {
      TurnStuck(env, start, s, z);
      StuckForever(env, start, Turn(env, s), z, k - 1);
    }
  }

  /** Under exact sleeps the loop ends exactly when every repeating pattern has a positive period
      (or there is no time to run at all). */
  lemma {:induction false} TerminatesExactly(env: Env, start: int)
    requires UsableEnv(env) && Exact(env)
    ensures Shape(env, Initial(env, start))
    ensures (exists k :: !Continues(env, Turns(env, Initial(env, start), k))) <==> start >= env.end || Productive(env)
  {
    InitialShape(env, start);
    var s := Initial(env, start);
    assert Reading(env, s) == start;
    if start >= env.end {
      assert !Continues(env, Turns(env, s, 0));
    } else if Productive(env) {
      Terminates(env, s, Measure(env, s));
    } else {
      var z :| 0 <= z < |env.patterns| && env.patterns[z].repeat && Period(env.patterns[z]) == 0;
      forall k ensures Continues(env, Turns(env, s, k)) {
        if k >= 0 { StuckForever(env, start, s, z, k); }
      }
    }
  }
}
