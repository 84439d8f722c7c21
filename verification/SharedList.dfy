/**
 The shared list in place: one fixed array of nodes threaded by `next` links. The first `count`
 nodes from `head` are in use and the rest are free; there is no separate free pointer.

 Every method is proved to do to the nodes exactly what the operation of `Registry` does to the
 ghost `table`. The mutex is not part of the class: callers hold it around each call.
 */
module SharedLists {
  import opened Wrappers
  import opened Registry

  // C++ short, the type of every link, of the head and of the count.
  type Short = x: int | -32768 <= x <= 32767

  const MAX_SHORT: nat := 32767

  datatype ListNode = ListNode(data: Data, next: Short)

  /* ----- The two pointer updates of a removal, on node contents ----- */

  // `next` follows the chain and the last node holds -1.
  ghost predicate Follows(ns: seq<ListNode>, c: seq<nat>)
    requires Within(c, |ns|)
  {
    && (forall i {:trigger ns[c[i]]} :: 0 <= i < |c| - 1 ==> ns[c[i]].next == c[i+1])
    && (|c| > 0 ==> ns[c[|c|-1]].next == -1)
  }

  function SetNext(ns: seq<ListNode>, i: nat, x: Short): (r: seq<ListNode>)
    requires i < |ns|
    ensures |r| == |ns|
  {
    ns[i := ns[i].(next := x)]
  }

  lemma WithoutOne(c: seq<nat>, k: nat, n: nat)
    requires k < |c| && Within(c, n) && Distinct(c)
    ensures var rest := c[..k] + c[k+1..];
            Within(rest, n) && Distinct(rest) && c[k] !in rest
  {
  }

  // Pointing the previous node past the k-th one leaves the chain without it.
  lemma UnlinkFollows(ns: seq<ListNode>, c: seq<nat>, k: nat)
    requires k < |c| && Within(c, |ns|) && Distinct(c) && Follows(ns, c)
    ensures var rest := c[..k] + c[k+1..];
            Within(rest, |ns|) && Follows(if k == 0 then ns else SetNext(ns, c[k-1], ns[c[k]].next), rest)
  {
  }

  // Linking x in after the node at position b-1.
  lemma SpliceFollows(ns: seq<ListNode>, c: seq<nat>, b: nat, x: nat)
    requires 0 < b <= |c| && Within(c, |ns|) && Distinct(c) && Follows(ns, c)
    requires x < |ns| && x <= MAX_SHORT && x !in c
    ensures var p, target := c[b-1], c[..b] + [x] + c[b..];
            && Within(target, |ns|)
            && Follows(SetNext(SetNext(ns, x, if ns[p].next >= 0 then ns[p].next else -1), p, x), target)
  {
  }

  lemma MoveIsSplice(c: seq<nat>, k: nat, b: nat)
    requires k <= b < |c|
    ensures var rest := c[..k] + c[k+1..];
            MoveRight(c, k, b) == rest[..b] + [c[k]] + rest[b..]
  {
  }

  /* ----- Chain and records ----- */

  // c lists the nodes of the table, used ones first.
  ghost predicate Threads(t: Table, c: seq<nat>) {
    && |t.used| <= |c| && t.free == c[|t.used|..]
    && forall i :: 0 <= i < |t.used| ==> t.used[i].slot == c[i]
  }

  lemma ThreadsIsChain(t: Table, c: seq<nat>)
    ensures Threads(t, c) <==> c == Chain(t)
  {
    if Threads(t, c) {
      assert c == c[..|t.used|] + c[|t.used|..];
      assert c[..|t.used|] == Slots(t.used);
    }
  }

  // Where the i-th record that stays was.
  function Formerly(i: nat, k: nat): nat {
    if i < k then i else i + 1
  }

  lemma RemainingCells(t: Table, port: int)
    requires Position(t, port) < |t.used|
    ensures var t', k := Remove(t, port), Position(t, port);
            && |t'.used| == |t.used| - 1
            && forall i {:trigger t'.used[i]} :: 0 <= i < |t'.used| ==> t'.used[i] == t.used[Formerly(i, k)]
  {
  }

  // The nodes at the front of the chain hold the records in use.
  ghost predicate Holds(ns: seq<ListNode>, c: seq<nat>, used: seq<Cell>)
    requires Within(c, |ns|)
  {
    && |used| <= |c|
    && forall i {:trigger used[i]} {:trigger c[i]} :: 0 <= i < |used| ==> ns[c[i]].data == used[i].data
  }

  // The records in the nodes, in node order.
  ghost function DataOf(ns: seq<ListNode>): (s: seq<Data>)
    ensures |s| == |ns|
  {
    seq(|ns|, i requires 0 <= i < |ns| => ns[i].data)
  }

  // Rewiring links leaves the records where they are.
  lemma SameDataHolds(ns: seq<ListNode>, ns': seq<ListNode>, c: seq<nat>, used: seq<Cell>)
    requires DataOf(ns) == DataOf(ns') && Within(c, |ns|) && Holds(ns, c, used)
    ensures |ns| == |ns'| && Holds(ns', c, used)
  {
    assert |ns| == |ns'|;
    forall i | 0 <= i < |used| ensures ns'[c[i]].data == used[i].data {
      assert DataOf(ns)[c[i]] == DataOf(ns')[c[i]];
    }
  }

  // After a removal the nodes are those of the moved chain.
  lemma RemovalMoves(t: Table, c: seq<nat>, port: int)
    requires |c| >= 2 && Within(c, |c|) && Distinct(c) && Threads(t, c)
    requires Position(t, port) < |t.used|
    ensures Position(t, port) <= Boundary(t) < |c|
    ensures var t', c' := Remove(t, port), MoveRight(c, Position(t, port), Boundary(t));
            Threads(t', c') && Within(c', |c|) && Distinct(c') && |t'.used| == |t.used| - 1
  {
    RemainingCells(t, port);
    hide *;
    ThreadsIsChain(t, c);
    assert WellFormed(t, |c|);
    RemoveMovesNode(t, port, |c|);
    MovePreservesDistinct(c, Position(t, port), Boundary(t));
    MovePreservesBound(c, Position(t, port), Boundary(t), |c|);
    ThreadsIsChain(Remove(t, port), Chain(Remove(t, port)));
  }

  // The nodes of the records that stay already hold them.
  lemma KeepsRecords(ns: seq<ListNode>, t: Table, c: seq<nat>, port: int, c': seq<nat>)
    requires Within(c, |ns|) && Threads(t, c) && Holds(ns, c, t.used)
    requires Position(t, port) < |t.used|
    requires Within(c', |ns|) && Threads(Remove(t, port), c')
    ensures Holds(ns, c', Remove(t, port).used)
  {
    RemainingCells(t, port);
    var t', k := Remove(t, port), Position(t, port);
    hide Remove, Position;
    forall i | 0 <= i < |t'.used| ensures ns[c'[i]].data == t'.used[i].data {
      var j := Formerly(i, k);
      assert t'.used[i] == t.used[j] && t.used[j].slot == c[j];
    }
  }

  // The nodes, head and count implement the table, along the chain of all nodes.
  ghost predicate Consistent(ns: seq<ListNode>, head: Short, count: Short, t: Table, c: seq<nat>) {
    && 2 <= |ns| <= MAX_SHORT
    && |c| == |ns| && Within(c, |ns|) && Distinct(c)
    && Threads(t, c)
    && count == |t.used|
    && head == c[0]
    && Follows(ns, c)
    && Holds(ns, c, t.used)
  }

  function SetData(ns: seq<ListNode>, i: nat, d: Data): (r: seq<ListNode>)
    requires i < |ns|
    ensures |r| == |ns|
  {
    ns[i := ns[i].(data := d)]
  }

  lemma StoreKeepsFollows(ns: seq<ListNode>, c: seq<nat>, i: nat, d: Data)
    requires i < |ns| && Within(c, |ns|) && Follows(ns, c)
    ensures Follows(SetData(ns, i, d), c)
  {
  }

  // Overwriting the record of a port in its node is an update of the table.
  lemma StoreUpdates(ns: seq<ListNode>, head: Short, count: Short, t: Table, c: seq<nat>, d: Data)
    requires Consistent(ns, head, count, t, c) && Lookup(t, d.port).Some?
    ensures var slot := Lookup(t, d.port).value.slot;
            slot < |ns| && Consistent(SetData(ns, slot, d), head, count, Update(t, d), c)
  {
    var k := Position(t, d.port);
    hide Position;
    assert c[k] == t.used[k].slot;
    StoreKeepsFollows(ns, c, c[k], d);
    hide Follows, Within;
  }

  // Writing the first free node is an addition to the table.
  lemma StoreAdds(ns: seq<ListNode>, head: Short, count: Short, t: Table, c: seq<nat>, d: Data)
    requires Consistent(ns, head, count, t, c) && count as int < |ns|
    ensures c[count] < |ns| && Consistent(SetData(ns, c[count], d), head, count + 1, Add(t, d), c)
  {
    StoreKeepsFollows(ns, c, c[count], d);
    hide Follows, Within;
  }

  // A search for the port has passed the first i records.
  ghost predicate Passed(t: Table, port: int, i: nat) {
    i <= |t.used| && forall j :: 0 <= j < i ==> t.used[j].data.port != port
  }

  lemma PassedOne(t: Table, port: int, i: nat)
    requires Passed(t, port, i) && i < |t.used| && t.used[i].data.port != port
    ensures Passed(t, port, i + 1)
  {
  }

  lemma StoppedAt(t: Table, port: int, i: nat)
    requires Passed(t, port, i) && (i < |t.used| ==> t.used[i].data.port == port)
    ensures Position(t, port) == i
  {
    FirstIndex(Records(t.used), port, i);
  }

  class SharedList {
    const nodes: array<ListNode>
    var head: Short
    var count: Short
    ghost var table: Table
    ghost var chain: seq<nat>  // all node indices in link order

    ghost predicate Sized() {
      2 <= nodes.Length <= MAX_SHORT
    }

    ghost predicate Valid()
      reads this, nodes
    {
      Consistent(nodes[..], head, count, table, chain)
    }

    // What the i-th node of the chain holds.
    lemma NodeAt(i: nat)
      requires Valid() && i < nodes.Length
      ensures |chain| == nodes.Length && chain[i] < nodes.Length && |table.used| <= nodes.Length
      ensures nodes[chain[i]].next == if i + 1 < nodes.Length then chain[i+1] else -1
      ensures i < |table.used| ==> nodes[chain[i]].data == table.used[i].data && table.used[i].slot == chain[i]
    {
    }

    // Mapped memory of arbitrary content: nothing is usable before Initialize.
    constructor (memory: array<ListNode>)
      requires 2 <= memory.Length <= MAX_SHORT
      ensures nodes == memory
    {
      nodes := memory;
    }

    method Initialize()
      requires Sized()
      modifies this, nodes
      ensures Valid() && table == Initial(nodes.Length)
      ensures head == 0 && count == 0 && nodes[nodes.Length-1].next == -1
      ensures forall i :: 0 <= i < nodes.Length - 1 ==> nodes[i].next == i + 1 && nodes[i].data.port == -1
    {
      var n := nodes.Length;
      var i := 0;
      while i < n - 1
        invariant 0 <= i <= n - 1
        invariant forall j :: 0 <= j < i ==> nodes[j].next == j + 1 && nodes[j].data.port == -1
      {
        nodes[i] := nodes[i].(next := i + 1);
        nodes[i] := nodes[i].(data := nodes[i].data.(port := -1));
        i := i + 1;
      }
      nodes[n-1] := nodes[n-1].(next := -1);
      head := 0;
      count := 0;
      table := Initial(n);
      chain := seq(n, j => j);
    }

    // The node the record of this port is in, -1 standing for NULL.
    method FetchElement(port: int) returns (slot: Short)
      requires Valid()
      ensures match Lookup(table, port)
              case None => slot == -1
              case Some(cell) => slot == cell.slot && 0 <= slot < nodes.Length && nodes[slot].data == cell.data
    {
      var h := head;
      var i := 0;
      assert 0 <= count == |table.used| <= nodes.Length == |chain| && head == chain[0];
      hide Consistent, Position, Records;
      while i < count
        invariant 0 <= i <= count
        invariant h == if i < nodes.Length then chain[i] else -1
        invariant Passed(table, port, i)
      {
        NodeAt(i);
        var n := h;
        if nodes[n].data.port == port {
          StoppedAt(table, port, i);
          return n;
        }
        PassedOne(table, port, i);
        i, h := i + 1, nodes[n].next;
      }
      StoppedAt(table, port, i);
      return -1;
    }

    // The memcpy of a record into a node.
    method Store(i: Short, data: Data)
      requires 0 <= i < nodes.Length
      modifies nodes
      ensures nodes[..] == SetData(old(nodes[..]), i, data)
    {
      nodes[i] := nodes[i].(data := data);
    }

    method UpdateElement(data: Data) returns (success: bool)
      requires Valid()
      modifies nodes, `table
      ensures Valid()
      ensures success == Lookup(old(table), data.port).Some?
      ensures table == Update(old(table), data)
    {
      var d := FetchElement(data.port);
      hide *;
      if d == -1 {
        UpdateAbsent(table, data);
        return false;
      }
      StoreUpdates(nodes[..], head, count, table, chain, data);
      Store(d, data);
      table := Update(table, data);
      return true;
    }

    method AddElement(data: Data) returns (success: bool)
      requires Valid()
      modifies nodes, `count, `table
      ensures Valid()
      ensures success == (|old(table).used| < nodes.Length)
      ensures table == Add(old(table), data)
    {
      if count >= nodes.Length {
        return false;
      }
      var temp := head;
      var i := 0;
      while i < count
        invariant 0 <= i <= count
        invariant temp == chain[i]
      {
        temp := nodes[temp].next;
        i := i + 1;
      }
      StoreAdds(nodes[..], head, count, table, chain, data);
      Store(temp, data);
      count := count + 1;
      table := Add(table, data);
      return true;
    }

    // The search loop of RemoveElement: the node with the port and the one before it.
    method Locate(port: int) returns (found: bool, temp: Short, previous: Short)
      requires Valid()
      ensures var k := Position(table, port);
              && found == (k < |table.used|)
              && (found ==> temp == chain[k])
              && (found && k > 0 ==> previous == chain[k-1])
    {
      found := false;
      temp := head;
      previous := -1;
      var i := 0;
      assert 0 <= count == |table.used| <= nodes.Length == |chain| && head == chain[0];
      hide *;
      while i < count
        invariant 0 <= i <= count
        invariant temp == if i < nodes.Length then chain[i] else -1
        invariant i > 0 ==> previous == chain[i-1]
        invariant Passed(table, port, i) && !found
      {
        NodeAt(i);
        if nodes[temp].data.port == port {
          found := true;
          break;
        }
        PassedOne(table, port, i);
        previous := temp;
        temp := nodes[temp].next;
        i := i + 1;
      }
      StoppedAt(table, port, i);
    }

    // One assignment to a link.
    method Link(i: Short, x: Short)
      requires 0 <= i < nodes.Length
      modifies nodes
      ensures nodes[..] == SetNext(old(nodes[..]), i, x)
      ensures DataOf(nodes[..]) == old(DataOf(nodes[..]))
    {
      nodes[i] := nodes[i].(next := x);
    }

    // Takes the k-th node off the chain.
    method Unlink(temp: Short, previous: Short, ghost k: nat)
      requires k < |chain| && 2 <= |chain| && Within(chain, nodes.Length) && Distinct(chain)
      requires Follows(nodes[..], chain)
      requires head == chain[0] && temp == chain[k] && (k > 0 ==> previous == chain[k-1])
      modifies nodes, `head
      ensures var rest := chain[..k] + chain[k+1..];
              Within(rest, nodes.Length) && Follows(nodes[..], rest) && head == rest[0]
      ensures DataOf(nodes[..]) == old(DataOf(nodes[..]))
    {
      UnlinkFollows(nodes[..], chain, k);
      if temp == head {
        head := nodes[temp].next;
      } else {
        Link(previous, nodes[temp].next);
      }
    }

    // Walks along a shortened chain to the node at its used/free boundary.
    method Walk(steps: int, ghost rest: seq<nat>) returns (p: Short)
      requires |rest| > 0 && steps < |rest| && Within(rest, nodes.Length)
      requires Follows(nodes[..], rest) && head == rest[0]
      ensures p == rest[if steps < 0 then 0 else steps]
    {
      p := head;
      var i := 0;
      while i < steps
        invariant 0 <= i && (i == 0 || i <= steps)
        invariant p == rest[i]
      {
        p := nodes[p].next;
        i := i + 1;
      }
    }

    // Links temp in after the node at the boundary.
    method SpliceBack(temp: Short, steps: int, ghost rest: seq<nat>, ghost b: nat)
      requires |rest| > 0 && steps < |rest| && b == (if steps < 0 then 1 else steps + 1)
      requires Within(rest, nodes.Length) && Distinct(rest) && Follows(nodes[..], rest)
      requires head == rest[0] && 0 <= temp < nodes.Length && temp !in rest
      modifies nodes
      ensures var target := rest[..b] + [temp] + rest[b..];
              Within(target, nodes.Length) && Follows(nodes[..], target)
      ensures DataOf(nodes[..]) == old(DataOf(nodes[..]))
    {
      var p := Walk(steps, rest);
      SpliceFollows(nodes[..], rest, b, temp);
      hide *;
      Link(temp, if nodes[p].next >= 0 then nodes[p].next else -1);
      Link(p, temp);
    }

    // The pointer surgery of RemoveElement, once the node is found.
    method MoveToFree(temp: Short, previous: Short, ghost k: nat, ghost b: nat)
      requires k <= b < |chain| && 1 <= count && b == (if count == 1 then 1 else count - 1)
      requires Within(chain, nodes.Length) && Distinct(chain) && Follows(nodes[..], chain)
      requires head == chain[0] && temp == chain[k] && (k > 0 ==> previous == chain[k-1])
      modifies nodes, `head, `count
      ensures var target := MoveRight(chain, k, b);
              Within(target, nodes.Length) && Follows(nodes[..], target) && head == target[0]
      ensures count == old(count) - 1
      ensures DataOf(nodes[..]) == old(DataOf(nodes[..]))
    {
      ghost var rest := chain[..k] + chain[k+1..];
      WithoutOne(chain, k, nodes.Length);
      MoveIsSplice(chain, k, b);
      hide *;
      Unlink(temp, previous, k);
      count := count - 1;
      SpliceBack(temp, count - 1, rest, b);
    }

    method RemoveFound(port: int, temp: Short, previous: Short)
      requires Valid() && Position(table, port) < |table.used|
      requires var k := Position(table, port); temp == chain[k] && (k > 0 ==> previous == chain[k-1])
      modifies nodes, `head, `count, `table, `chain
      ensures Valid()
      ensures table == Remove(old(table), port)
      ensures DataOf(nodes[..]) == old(DataOf(nodes[..]))
    {
      ghost var k, b := Position(table, port), Boundary(table);
      RemovalMoves(table, chain, port);
      ghost var t', c' := Remove(table, port), MoveRight(chain, k, b);
      ghost var was := nodes[..];
      KeepsRecords(was, table, chain, port, c');
      hide Position, Remove, MoveRight, Holds, Follows, DataOf, Threads, Within, Distinct;
      MoveToFree(temp, previous, k, b);
      SameDataHolds(was, nodes[..], c', t'.used);
      assert Consistent(nodes[..], head, count, t', c');
      hide Consistent;
      table, chain := t', c';
    }

    method RemoveElement(port: int) returns (success: bool)
      requires Valid()
      modifies nodes, `head, `count, `table, `chain
      ensures Valid()
      ensures success == Lookup(old(table), port).Some?
      ensures table == Remove(old(table), port)
      ensures DataOf(nodes[..]) == old(DataOf(nodes[..]))
    {
      var found, temp, previous := Locate(port);
      if !found {
        return false;
      }
      RemoveFound(port, temp, previous);
      return true;
    }

    // One line for each record in use, in list order.
    method PrintList() returns (output: string)
      requires Valid()
      ensures output == ListText(Records(table.used))
    {
      ghost var records := Records(table.used);
      PrintedNone(records);
      assert count == |records| <= nodes.Length == |chain| && head == chain[0];
      hide *;
      var h := head;
      output := "";
      var i := 0;
      while i < count
        invariant 0 <= i <= count == |records|
        invariant |chain| == nodes.Length && (i < nodes.Length ==> h == chain[i])
        invariant Printed(records, i, output)
      {
        NodeAt(i);
        PrintedNext(records, i, output);
        var node := nodes[h];
        output := output + Line(node.data);
        i, h := i + 1, node.next;
        if node.next == -1 {
          assert i == |records|;
          break;
        }
      }
      PrintedAll(records, output);
    }

    lemma RoomMeansFree()
      requires Valid()
      ensures |table.used| < nodes.Length <==> table.free != []
    {
    }

    // One call of the interface, the fetched pointer being read at once.
    method Execute(call: Call) returns (reply: Reply)
      requires Sized() && (call.InitializeCall? || Valid())
      modifies this, nodes
      ensures Valid()
      ensures (table, reply) == ExecTable(old(table), nodes.Length, call)
    {
      hide Consistent, Initial, Add, Update, Remove, Position, Records, ListText;
      match call {
        case InitializeCall =>
          Initialize();
          reply := Done;
        case AddCall(d) =>
          RoomMeansFree();
          var ok := AddElement(d);
          reply := Rc(ok);
        case UpdateCall(d) =>
          var ok := UpdateElement(d);
          reply := Rc(ok);
        case RemoveCall(p) =>
          var ok := RemoveElement(p);
          reply := Rc(ok);
        case FetchCall(p) =>
          var slot := FetchElement(p);
          reply := Fetched(if slot == -1 then None else Some(nodes[slot].data));
        case PrintCall =>
          var out := PrintList();
          reply := Listing(out);
      }
    }

    /** Whatever the mapped memory held, after Initialize any sequence of calls returns what the
        same calls return on an initially empty plain list of that capacity. */
    method ExecuteAll(calls: seq<Call>) returns (replies: seq<Reply>)
      requires Sized()
      modifies this, nodes
      ensures Valid()
      ensures (Records(table.used), replies) == RunPlain([], nodes.Length, calls)
    {
      Initialize();
      var i := 0;
      replies := [];
      ExecutedStart(nodes.Length, calls);
      hide *;
      while i < |calls|
        invariant 0 <= i <= |calls| && Valid()
        invariant Executed(nodes.Length, calls, i, table, replies)
      {
        ghost var t := table;
        var reply := Execute(calls[i]);
        ExecutedStep(nodes.Length, calls, i, t, replies);
        replies := replies + [reply];
        i := i + 1;
      }
      ExecutedAll(nodes.Length, calls, table, replies);
    }
  }

  // After i calls on an empty table: what is left to run completes the whole run.
  ghost predicate Executed(n: nat, calls: seq<Call>, i: nat, t: Table, replies: seq<Reply>) {
    i <= |calls| &&
    var (t', rs) := RunTable(t, n, calls[i..]);
    RunTable(Initial(n), n, calls) == (t', replies + rs)
  }

  lemma {:induction false} ExecutedStart(n: nat, calls: seq<Call>)
    ensures Executed(n, calls, 0, Initial(n), [])
  {
    assert calls[0..] == calls;
    assert [] + RunTable(Initial(n), n, calls).1 == RunTable(Initial(n), n, calls).1;
  }

  lemma {:induction false} ExecutedStep(n: nat, calls: seq<Call>, i: nat, t: Table, replies: seq<Reply>)
    requires i < |calls| && Executed(n, calls, i, t, replies)
    ensures var (t1, reply) := ExecTable(t, n, calls[i]); Executed(n, calls, i + 1, t1, replies + [reply])
  {
    hide ExecTable;
    var (t1, reply) := ExecTable(t, n, calls[i]);
    assert calls[i..][1..] == calls[i+1..];
    var rs := RunTable(t1, n, calls[i+1..]).1;
    assert replies + ([reply] + rs) == (replies + [reply]) + rs;
  }

  lemma {:induction false} ExecutedAll(n: nat, calls: seq<Call>, t: Table, replies: seq<Reply>)
    requires n >= 2 && Executed(n, calls, |calls|, t, replies)
    ensures (Records(t.used), replies) == RunPlain([], n, calls)
  {
    assert calls[|calls|..] == [] && replies + [] == replies;
    InitializeRefines(n);
    RunRefinesPlainList(Initial(n), n, calls);
  }
}
