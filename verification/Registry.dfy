/**
 The registry of media endpoints as a value.

 Two views of the same data:
 - a `Table` names the node (slot) that holds each record, and the free nodes in the order
   in which they will be handed out; it is what the in-place list of `SharedList.dfy` refines,
 - a plain ordered sequence of records with a capacity is what its users believe they have.

 `RunRefinesPlainList` shows that the second view explains every result of the first.
 */
module Registry {
  import opened Wrappers
  import Numbering

  datatype Data = Data(port: int, destPort: int, destAddr: string, duration: int, pid: int, client: nat)

  // A node in use: its index in the node array and the record stored there.
  datatype Cell = Cell(slot: nat, data: Data)

  // Nodes in use, in list order, followed by the free nodes.
  datatype Table = Table(used: seq<Cell>, free: seq<nat>)

  function Records(used: seq<Cell>): (s: seq<Data>)
    ensures |s| == |used|
    ensures forall i :: 0 <= i < |used| ==> s[i] == used[i].data
  {
    seq(|used|, i requires 0 <= i < |used| => used[i].data)
  }

  function Slots(used: seq<Cell>): (s: seq<nat>)
    ensures |s| == |used|
    ensures forall i :: 0 <= i < |used| ==> s[i] == used[i].slot
  {
    seq(|used|, i requires 0 <= i < |used| => used[i].slot)
  }

  // The whole chain of nodes, used ones first.
  function Chain(t: Table): seq<nat> {
    Slots(t.used) + t.free
  }

  predicate Distinct<T(==)>(s: seq<T>) {
    forall i, j :: 0 <= i < j < |s| ==> s[i] != s[j]
  }

  // Indices into an array of n nodes.
  predicate Within(c: seq<nat>, n: nat) {
    forall i :: 0 <= i < |c| ==> c[i] < n
  }

  // The chain is a permutation of the n nodes.
  predicate WellFormed(t: Table, n: nat) {
    |Chain(t)| == n && Within(Chain(t), n) && Distinct(Chain(t))
  }

  /* ----- Operations on the plain sequence of records ----- */

  // Position of the first record with this port, or the length when there is none.
  function IndexOf(s: seq<Data>, port: int): (k: nat)
    ensures k <= |s|
    ensures k < |s| ==> s[k].port == port
    ensures forall i :: 0 <= i < k ==> s[i].port != port
  {
    if s == [] || s[0].port == port then 0 else 1 + IndexOf(s[1..], port)
  }

  function PlainRemove(s: seq<Data>, port: int): seq<Data> {
    var k := IndexOf(s, port);
    if k == |s| then s else s[..k] + s[k+1..]
  }

  function PlainUpdate(s: seq<Data>, d: Data): seq<Data> {
    var k := IndexOf(s, d.port);
    if k == |s| then s else s[k := d]
  }

  /* ----- The printed form ----- */

  // %-8d and %-16s
  function LeftJustified(word: string, width: nat): string {
    if |word| >= width then word else word + seq(width - |word|, i => ' ')
  }

  function NumberText(x: int): string {
    if x < 0 then "-" + Numbering.Dec(-x) else Numbering.Dec(x)
  }

  // A word printed after its name, to a width.
  datatype Field = Field(name: string, word: string, width: nat)

  function FieldText(f: Field): string {
    f.name + LeftJustified(f.word, f.width)
  }

  function FieldsText(fs: seq<Field>): string {
    if fs == [] then ""
    else if |fs| == 1 then FieldText(fs[0])
    else FieldText(fs[0]) + (" " + FieldsText(fs[1..]))
  }

  function FieldsOf(d: Data): seq<Field> {
    [Field("source port: ", NumberText(d.port), 8), Field("dest port: ", NumberText(d.destPort), 8),
     Field("dest addr: ", d.destAddr, 16), Field("duration: ", NumberText(d.duration), 8),
     Field("pid: ", NumberText(d.pid), 8), Field("client: ", NumberText(d.client), 8)]
  }

  function ElementText(d: Data): string {
    FieldsText(FieldsOf(d))
  }

  function Line(d: Data): string {
    ElementText(d) + "\n"
  }

  // One line for each record, in order.
  function ListText(s: seq<Data>): string {
    if s == [] then "" else ListText(s[..|s|-1]) + Line(s[|s|-1])
  }

  predicate FitsInt(x: int) {
    -0x8000_0000 <= x < 0x8000_0000
  }

  lemma {:induction false} NumberTextFits(x: int)
    requires FitsInt(x)
    ensures |NumberText(x)| <= 11
  {
    Numbering.TenDigits();
    hide Numbering.Dec, Numbering.Pow10;
    Numbering.DecShort(if x < 0 then -x else x, 10);
  }

  lemma {:induction false} FieldsFit(fs: seq<Field>, k: nat)
    requires forall i :: 0 <= i < |fs| ==> |FieldText(fs[i])| < k
    ensures |FieldsText(fs)| <= k * |fs|
  {
    hide FieldText;
    if fs == [] {
    } else {
      FieldsFit(fs[1..], k);
    }
  }

  /** The 200 characters a record is printed into are enough for it and its end mark. */
  lemma {:induction false} LineFits(d: Data)
    requires FitsInt(d.port) && FitsInt(d.destPort) && FitsInt(d.duration) && FitsInt(d.pid) && FitsInt(d.client)
    requires |d.destAddr| <= 16
    ensures |ElementText(d)| < 200
  {
    NumberTextFits(d.port);
    NumberTextFits(d.destPort);
    NumberTextFits(d.duration);
    NumberTextFits(d.pid);
    NumberTextFits(d.client);
    hide NumberText, FitsInt, FieldsText;
    FieldsFit(FieldsOf(d), 30);
  }

  // The columns of the fields, one character apart.
  function Columns(fs: seq<Field>): nat {
    if fs == [] then 0
    else if |fs| == 1 then |fs[0].name| + fs[0].width
    else |fs[0].name| + fs[0].width + 1 + Columns(fs[1..])
  }

  lemma {:induction false} FieldsFillColumns(fs: seq<Field>)
    requires forall i :: 0 <= i < |fs| ==> |fs[i].word| <= fs[i].width
    ensures |FieldsText(fs)| == Columns(fs)
  {
    if fs == [] {
    } else {
      FieldsFillColumns(fs[1..]);
    }
  }

  /** Records whose numbers have at most 8 characters and whose addresses have at most 16 are printed in
      columns: every line has 119 characters. */
  lemma {:induction false} LinesAlign(d: Data)
    requires |NumberText(d.port)| <= 8 && |NumberText(d.destPort)| <= 8 && |d.destAddr| <= 16
    requires |NumberText(d.duration)| <= 8 && |NumberText(d.pid)| <= 8 && |NumberText(d.client)| <= 8
    ensures |ElementText(d)| == 119
  {
    hide NumberText, FieldsText;
    var fs := FieldsOf(d);
    FieldsFillColumns(fs);
    assert fs[1..][1..] == fs[2..] && fs[2..][1..] == fs[3..] && fs[3..][1..] == fs[4..] && fs[4..][1..] == fs[5..];
    assert Columns(fs[5..]) == 16 && Columns(fs[4..]) == 30 && Columns(fs[3..]) == 49 && Columns(fs[2..]) == 77;
  }

  // The text of the first i records.
  predicate Printed(s: seq<Data>, i: nat, text: string) {
    i <= |s| && text == ListText(s[..i])
  }

  lemma {:induction false} PrintedNone(s: seq<Data>)
    ensures Printed(s, 0, "")
  {
  }

  lemma {:induction false} PrintedNext(s: seq<Data>, i: nat, text: string)
    requires i < |s| && Printed(s, i, text)
    ensures Printed(s, i + 1, text + Line(s[i]))
  {
    assert s[..i+1][..i] == s[..i];
  }

  lemma {:induction false} PrintedAll(s: seq<Data>, text: string)
    requires Printed(s, |s|, text)
    ensures text == ListText(s)
  {
    assert s[..|s|] == s;
  }

  /* ----- Operations on the table ----- */

  function Initial(n: nat): Table {
    Table([], seq(n, i => i))
  }

  function Position(t: Table, port: int): (k: nat)
    ensures k <= |t.used|
    ensures k < |t.used| ==> t.used[k].data.port == port
    ensures forall i :: 0 <= i < k ==> t.used[i].data.port != port
  {
    IndexOf(Records(t.used), port)
  }

  // The node that a fetch by port points to.
  function Lookup(t: Table, port: int): Option<Cell> {
    var k := Position(t, port);
    if k == |t.used| then None else Some(t.used[k])
  }

  function Add(t: Table, d: Data): Table {
    if t.free == [] then t else Table(t.used + [Cell(t.free[0], d)], t.free[1..])
  }

  function Update(t: Table, d: Data): Table {
    var k := Position(t, d.port);
    if k == |t.used| then t else t.(used := t.used[k := t.used[k].(data := d)])
  }

  // The freed node becomes the first free one, except that emptying the list leaves it second:
  // the head always stays on the chain's old successor.
  function Remove(t: Table, port: int): Table {
    var k := Position(t, port);
    if k == |t.used| then t else
      var rest := t.used[..k] + t.used[k+1..];
      var slot := t.used[k].slot;
      if rest == [] && t.free != []
      then Table([], [t.free[0], slot] + t.free[1..])
      else Table(rest, [slot] + t.free)
  }

  /* ----- The chain stays a permutation ----- */

  // c with its k-th element moved right to position b.
  function MoveRight(c: seq<nat>, k: nat, b: nat): (r: seq<nat>)
    requires k <= b < |c|
    ensures |r| == |c|
  {
    c[..k] + c[k+1..b+1] + [c[k]] + c[b+1..]
  }

  lemma MoveRightAt(c: seq<nat>, k: nat, b: nat)
    requires k <= b < |c|
    ensures var r := MoveRight(c, k, b);
            forall i {:trigger r[i]} :: 0 <= i < |c| ==>
                          r[i] == if i == b then c[k] else if k <= i < b then c[i+1] else c[i]
  {
  }

  // Position of the used/free boundary where a removed node is spliced back in.
  function Boundary(t: Table): nat {
    if |t.used| <= 1 then 1 else |t.used| - 1
  }

  lemma Without(used: seq<Cell>, k: nat)
    requires k < |used|
    ensures var rest := used[..k] + used[k+1..];
            && Slots(rest) == Slots(used)[..k] + Slots(used)[k+1..]
            && Records(rest) == Records(used)[..k] + Records(used)[k+1..]
  {
    var rest := used[..k] + used[k+1..];
    assert |Slots(used)[..k] + Slots(used)[k+1..]| == |rest|;
    assert |Records(used)[..k] + Records(used)[k+1..]| == |rest|;
  }

  // Moving the k-th of the used nodes to the end of them.
  lemma MoveToEnd(slots: seq<nat>, free: seq<nat>, k: nat)
    requires k < |slots|
    ensures MoveRight(slots + free, k, |slots| - 1) == (slots[..k] + slots[k+1..]) + ([slots[k]] + free)
  {
  }

  // The only used node ends up second in the chain.
  lemma MoveOnly(slot: nat, free: seq<nat>)
    requires free != []
    ensures MoveRight([slot] + free, 0, 1) == [free[0], slot] + free[1..]
  {
  }

  // Removal is one move along the chain, for a head, middle, last, only or full-list removal.
  lemma RemoveMovesNode(t: Table, port: int, n: nat)
    requires n >= 2 && WellFormed(t, n)
    requires Position(t, port) < |t.used|
    ensures Position(t, port) <= Boundary(t) < n
    ensures Chain(Remove(t, port)) == MoveRight(Chain(t), Position(t, port), Boundary(t))
  {
    var k := Position(t, port);
    assert |Chain(t)| == n;
    hide WellFormed, Position, MoveRight, Slots;
    Without(t.used, k);
    var rest := t.used[..k] + t.used[k+1..];
    if |t.used| == 1 {
      assert Slots(t.used) == [t.used[0].slot];
      MoveOnly(t.used[0].slot, t.free);
      assert rest == [] && Slots([]) == [] && k == 0;
      assert Remove(t, port) == Table([], [t.free[0], t.used[0].slot] + t.free[1..]);
    } else {
      MoveToEnd(Slots(t.used), t.free, k);
      assert Remove(t, port) == Table(rest, [t.used[k].slot] + t.free);
    }
  }

  lemma MovePreservesDistinct(c: seq<nat>, k: nat, b: nat)
    requires k <= b < |c| && Distinct(c)
    ensures Distinct(MoveRight(c, k, b))
  {
    var r := MoveRight(c, k, b);
    MoveRightAt(c, k, b);
    hide MoveRight;
    forall i, j | 0 <= i < j < |r| ensures r[i] != r[j] {
      var i' := if i == b then k else if k <= i < b then i + 1 else i;
      var j' := if j == b then k else if k <= j < b then j + 1 else j;
      assert i' != j' && r[i] == c[i'] && r[j] == c[j'];
      if i' < j' { assert c[i'] != c[j']; } else { assert c[j'] != c[i']; }
    }
  }

  lemma MovePreservesBound(c: seq<nat>, k: nat, b: nat, n: nat)
    requires k <= b < |c| && Within(c, n)
    ensures Within(MoveRight(c, k, b), n)
  {
    MoveRightAt(c, k, b);
    hide MoveRight;
  }

  lemma AddPreservesWellFormed(t: Table, d: Data, n: nat)
    requires WellFormed(t, n)
    ensures WellFormed(Add(t, d), n) && Chain(Add(t, d)) == Chain(t)
  {
    if t.free != [] {
      assert Slots(t.used + [Cell(t.free[0], d)]) == Slots(t.used) + [t.free[0]];
      assert Chain(Add(t, d)) == Chain(t);
    }
  }

  lemma UpdatePreservesWellFormed(t: Table, d: Data, n: nat)
    requires WellFormed(t, n)
    ensures WellFormed(Update(t, d), n) && Chain(Update(t, d)) == Chain(t)
  {
    assert Slots(Update(t, d).used) == Slots(t.used);
  }

  lemma RemovePreservesWellFormed(t: Table, port: int, n: nat)
    requires n >= 2 && WellFormed(t, n)
    ensures WellFormed(Remove(t, port), n)
  {
    if Position(t, port) < |t.used| {
      RemoveMovesNode(t, port, n);
      hide Chain, MoveRight, Position, Boundary, Remove, Distinct;
      MovePreservesDistinct(Chain(t), Position(t, port), Boundary(t));
      MovePreservesBound(Chain(t), Position(t, port), Boundary(t), n);
    }
  }

  /* ----- Any sequence of calls: refinement of the plain list ----- */

  datatype Call =
    | InitializeCall
    | AddCall(data: Data)
    | UpdateCall(data: Data)
    | RemoveCall(port: int)
    | FetchCall(port: int)
    | PrintCall

  datatype Reply =
    | Done
    | Rc(success: bool)
    | Fetched(record: Option<Data>)
    | Listing(text: string)

  function ExecTable(t: Table, n: nat, c: Call): (Table, Reply) {
    match c
    case InitializeCall => (Initial(n), Done)
    case AddCall(d) => (Add(t, d), Rc(t.free != []))
    case UpdateCall(d) => (Update(t, d), Rc(Lookup(t, d.port).Some?))
    case RemoveCall(p) => (Remove(t, p), Rc(Lookup(t, p).Some?))
    case FetchCall(p) => (t, Fetched(match Lookup(t, p) case None => None case Some(cell) => Some(cell.data)))
    case PrintCall => (t, Listing(ListText(Records(t.used))))
  }

  function ExecPlain(s: seq<Data>, n: nat, c: Call): (seq<Data>, Reply) {
    match c
    case InitializeCall => ([], Done)
    case AddCall(d) => if |s| < n then (s + [d], Rc(true)) else (s, Rc(false))
    case UpdateCall(d) => (PlainUpdate(s, d), Rc(exists e :: e in s && e.port == d.port))
    case RemoveCall(p) => (PlainRemove(s, p), Rc(exists e :: e in s && e.port == p))
    case FetchCall(p) => (s, Fetched(if IndexOf(s, p) < |s| then Some(s[IndexOf(s, p)]) else None))
    case PrintCall => (s, Listing(ListText(s)))
  }

  function RunTable(t: Table, n: nat, calls: seq<Call>): (Table, seq<Reply>)
    decreases |calls|
  {
    if calls == [] then (t, []) else
      var (t1, r) := ExecTable(t, n, calls[0]);
      var (t2, rs) := RunTable(t1, n, calls[1..]);
      (t2, [r] + rs)
  }

  function RunPlain(s: seq<Data>, n: nat, calls: seq<Call>): (seq<Data>, seq<Reply>)
    decreases |calls|
  {
    if calls == [] then (s, []) else
      var (s1, r) := ExecPlain(s, n, calls[0]);
      var (s2, rs) := RunPlain(s1, n, calls[1..]);
      (s2, [r] + rs)
  }

  lemma {:induction false} FirstIndex(s: seq<Data>, port: int, k: nat)
    requires k <= |s|
    requires k < |s| ==> s[k].port == port
    requires forall i :: 0 <= i < k ==> s[i].port != port
    ensures IndexOf(s, port) == k
  {
  }

  lemma InitializeRefines(n: nat)
    ensures WellFormed(Initial(n), n) && Records(Initial(n).used) == []
  {
    assert Chain(Initial(n)) == seq(n, i => i);
  }

  lemma AddRefines(t: Table, d: Data, n: nat)
    requires WellFormed(t, n)
    ensures WellFormed(Add(t, d), n) && (t.free != [] <==> |t.used| < n)
    ensures Records(Add(t, d).used) == if t.free != [] then Records(t.used) + [d] else Records(t.used)
  {
    AddPreservesWellFormed(t, d, n);
    assert |Chain(t)| == |t.used| + |t.free|;
    hide WellFormed, Chain;
  }

  lemma {:induction false} IndexOfMember(s: seq<Data>, port: int)
    ensures IndexOf(s, port) < |s| <==> exists e :: e in s && e.port == port
  {
    var k := IndexOf(s, port);
    hide IndexOf;
    if k < |s| { assert s[k] in s; }
  }

  lemma {:induction false} LookupIsMemberAnswer(t: Table, port: int)
    ensures Lookup(t, port).Some? <==> exists e :: e in Records(t.used) && e.port == port
    ensures Lookup(t, port).Some? ==> Lookup(t, port).value.data == Records(t.used)[IndexOf(Records(t.used), port)]
  {
    IndexOfMember(Records(t.used), port);
  }

  lemma UpdateRefines(t: Table, d: Data, n: nat)
    requires WellFormed(t, n)
    ensures WellFormed(Update(t, d), n) && Records(Update(t, d).used) == PlainUpdate(Records(t.used), d)
  {
    UpdatePreservesWellFormed(t, d, n);
    hide WellFormed, IndexOf;
    assert |Records(Update(t, d).used)| == |PlainUpdate(Records(t.used), d)|;
  }

  lemma RemoveRefines(t: Table, port: int, n: nat)
    requires n >= 2 && WellFormed(t, n)
    ensures WellFormed(Remove(t, port), n) && Records(Remove(t, port).used) == PlainRemove(Records(t.used), port)
  {
    RemovePreservesWellFormed(t, port, n);
    var k := Position(t, port);
    if k < |t.used| {
      Without(t.used, k);
      assert Remove(t, port).used == t.used[..k] + t.used[k+1..];
      hide WellFormed, IndexOf, Remove, Records;
    }
  }

  lemma ExecRefines(t: Table, n: nat, c: Call)
    requires n >= 2 && WellFormed(t, n)
    ensures var (t', r) := ExecTable(t, n, c);
            WellFormed(t', n) && (Records(t'.used), r) == ExecPlain(Records(t.used), n, c)
  {
    hide WellFormed, Lookup, Add, Update, Remove, PlainUpdate, PlainRemove, Initial, IndexOf, ListText;
    match c
    case InitializeCall => InitializeRefines(n);
    case AddCall(d) => AddRefines(t, d, n);
    case UpdateCall(d) =>
      UpdateRefines(t, d, n);
      LookupIsMemberAnswer(t, d.port);
    case RemoveCall(p) =>
      RemoveRefines(t, p, n);
      LookupIsMemberAnswer(t, p);
    case FetchCall(p) =>
      LookupIsMemberAnswer(t, p);
      IndexOfMember(Records(t.used), p);
    case PrintCall =>
  }

  /** Every sequence of calls answers exactly as on a plain list of capacity n; in particular no
      reply ever depends on which node holds a record, nor on what a freed node still contains. */
  lemma {:induction false} RunRefinesPlainList(t: Table, n: nat, calls: seq<Call>)
    requires n >= 2 && WellFormed(t, n)
    ensures var (t', rs) := RunTable(t, n, calls);
            WellFormed(t', n) && (Records(t'.used), rs) == RunPlain(Records(t.used), n, calls)
    decreases |calls|
  {
    if calls == [] {
    } else {
      ExecRefines(t, n, calls[0]);
      RunRefinesPlainList(ExecTable(t, n, calls[0]).0, n, calls[1..]);
    }
  }

  /* ----- What a removal means ----- */

  // r is s without its first record with the port, at k, the others in order.
  predicate WithoutFirst(s: seq<Data>, port: int, k: nat, r: seq<Data>) {
    && k < |s| && s[k].port == port && (forall i :: 0 <= i < k ==> s[i].port != port)
    && |r| == |s| - 1
    && (forall i {:trigger r[i]} :: 0 <= i < |r| ==> r[i] == if i < k then s[i] else s[i+1])
  }

  lemma CutAt(s: seq<Data>, k: nat)
    requires k < |s|
    ensures var r := s[..k] + s[k+1..];
            forall i {:trigger r[i]} :: 0 <= i < |r| ==> r[i] == if i < k then s[i] else s[i+1]
  {
  }

  /** Removal deletes exactly the first record with the port and keeps all others in order. */
  lemma {:induction false} RemoveDeletesFirst(s: seq<Data>, port: int)
    ensures var r := PlainRemove(s, port);
            if exists e :: e in s && e.port == port then exists k :: WithoutFirst(s, port, k, r) else r == s
  {
    var k := IndexOf(s, port);
    IndexOfMember(s, port);
    hide IndexOf;
    if k < |s| {
      CutAt(s, k);
      assert PlainRemove(s, port) == s[..k] + s[k+1..];
      assert WithoutFirst(s, port, k, PlainRemove(s, port));
    }
  }

  /* ----- Slot stability ----- */

  // Calls that may move or rewrite the record of this port.
  predicate Disturbs(c: Call, port: int) {
    || c.InitializeCall?
    || (c.UpdateCall? && c.data.port == port)
    || (c.RemoveCall? && c.port == port)
  }

  lemma UpdateAbsent(t: Table, d: Data)
    requires Lookup(t, d.port).None?
    ensures Update(t, d) == t
  {
  }

  lemma LookupAfterRemove(t: Table, port: int, other: int)
    requires port != other
    ensures Lookup(Remove(t, other), port) == Lookup(t, port)
  {
    var k, q := Position(t, port), Position(t, other);
    if q < |t.used| {
      var r := Remove(t, other);
      hide IndexOf;
      assert r.used == t.used[..q] + t.used[q+1..];
      FirstIndex(Records(r.used), port, if k < q then k else k - 1);
    }
  }

  lemma LookupAfterAdd(t: Table, d: Data, port: int)
    requires Lookup(t, port).Some? || d.port != port || t.free == []
    ensures Lookup(Add(t, d), port) == Lookup(t, port)
  {
    var k, r := Position(t, port), Add(t, d);
    if t.free != [] {
      FirstIndex(Records(r.used), port, if k < |t.used| then k else k + 1);
    }
  }

  lemma LookupAfterUpdate(t: Table, d: Data, port: int)
    ensures Lookup(Update(t, d), port) ==
            if d.port == port && Lookup(t, port).Some? then Some(Lookup(t, port).value.(data := d))
            else Lookup(t, port)
  {
    FirstIndex(Records(Update(t, d).used), port, Position(t, port));
  }

  /** The node holding a port's record keeps its index and its contents through any calls that
      neither update nor remove that port. */
  lemma {:induction false} SlotStability(t: Table, n: nat, calls: seq<Call>, port: int)
    requires Lookup(t, port).Some?
    requires forall c :: c in calls ==> !Disturbs(c, port)
    ensures Lookup(RunTable(t, n, calls).0, port) == Lookup(t, port)
    decreases |calls|
  {
    if calls == [] {
    } else {
      var c := calls[0];
      assert !Disturbs(c, port);
      match c {
        case AddCall(d) => LookupAfterAdd(t, d, port);
        case UpdateCall(d) => LookupAfterUpdate(t, d, port);
        case RemoveCall(p) => LookupAfterRemove(t, port, p);
        case _ =>
      }
      SlotStability(ExecTable(t, n, c).0, n, calls[1..], port);
    }
  }
}
