/**
 Media ports: each scenario takes a range of ports on its media server, RTP on the even offsets
 and RTCP next to it (section 11 of RFC 3550), and the ranges of a server are checked for overlap
 by sorting them by start and comparing neighbours.
 */
module PortRanges {

  datatype Range = Range(start: int, end: int, name: string)

  predicate Empty(r: Range) {
    r.end < r.start
  }

  predicate Contains(r: Range, port: int) {
    r.start <= port <= r.end
  }

  ghost predicate Overlap(a: Range, b: Range) {
    exists port :: Contains(a, port) && Contains(b, port)
  }

  predicate SortedByStart(s: seq<Range>) {
    forall i, j :: 0 <= i < j < |s| ==> s[i].start <= s[j].start
  }

  ghost predicate PairwiseDisjoint(s: seq<Range>) {
    forall i, j :: 0 <= i < j < |s| ==> !Overlap(s[i], s[j])
  }

  /* ----- The stable sort ----- */

  // Position of r in a sorted list, after all ranges that start no later.
  function Place(s: seq<Range>, r: Range): (k: nat)
    ensures k <= |s|
    ensures forall i :: k <= i < |s| ==> r.start < s[i].start
    ensures k > 0 ==> s[k-1].start <= r.start
  {
    if s == [] || s[|s|-1].start <= r.start then |s| else Place(s[..|s|-1], r)
  }

  function Insert(s: seq<Range>, r: Range): seq<Range> {
    var k := Place(s, r);
    s[..k] + [r] + s[k..]
  }

  // list.sort(key=start)
  function Sort(s: seq<Range>): (t: seq<Range>)
    ensures |t| == |s|
  {
    if s == [] then [] else Insert(Sort(s[..|s|-1]), s[|s|-1])
  }

  lemma InsertSorts(t: seq<Range>, r: Range)
    requires SortedByStart(t)
    ensures SortedByStart(Insert(t, r))
  {
    var k, u := Place(t, r), Insert(t, r);
    hide Place;
    forall i | 0 <= i < k ensures t[i].start <= r.start { assert t[i].start <= t[k-1].start; }
    forall i, j | 0 <= i < j < |u| ensures u[i].start <= u[j].start {
      assert u[i] == if i < k then t[i] else if i == k then r else t[i-1];
      assert u[j] == if j < k then t[j] else if j == k then r else t[j-1];
    }
  }

  lemma InsertAdds(t: seq<Range>, r: Range)
    ensures multiset(Insert(t, r)) == multiset(t) + multiset{r}
  {
    hide Place;
    var k := Place(t, r);
    assert t == t[..k] + t[k..];
  }

  lemma {:induction false} SortSorts(s: seq<Range>)
    ensures SortedByStart(Sort(s)) && multiset(Sort(s)) == multiset(s)
  {
    hide Insert;
    if s == [] {
    } else {
      SortSorts(s[..|s|-1]);
      hide SortedByStart;
      InsertSorts(Sort(s[..|s|-1]), s[|s|-1]);
      InsertAdds(Sort(s[..|s|-1]), s[|s|-1]);
      assert s == s[..|s|-1] + [s[|s|-1]];
    }
  }

  ghost predicate DisjointFrom(s: seq<Range>, r: Range) {
    forall i :: 0 <= i < |s| ==> !Overlap(s[i], r)
  }

  lemma MembersOf(s: seq<Range>, t: seq<Range>)
    requires multiset(s) == multiset(t)
    ensures forall i :: 0 <= i < |t| ==> t[i] in s
  {
    forall i | 0 <= i < |t| ensures t[i] in s {
      assert t[i] in multiset(t);
    }
  }

  lemma SameMembers(s: seq<Range>, t: seq<Range>, r: Range)
    requires multiset(s) == multiset(t) && DisjointFrom(s, r)
    ensures DisjointFrom(t, r)
  {
    hide Overlap;
    MembersOf(s, t);
  }

  lemma OverlapSymmetric(r: Range)
    ensures forall q :: Overlap(q, r) <==> Overlap(r, q)
  {
  }

  lemma InsertDisjoint(s: seq<Range>, r: Range, k: nat)
    requires k <= |s|
    ensures PairwiseDisjoint(s[..k] + [r] + s[k..]) <==>
            PairwiseDisjoint(s) && DisjointFrom(s, r)
  {
    OverlapSymmetric(r);
    hide Overlap;
    var t := s[..k] + [r] + s[k..];
    if PairwiseDisjoint(t) {
      forall i, j | 0 <= i < j < |s| ensures !Overlap(s[i], s[j]) {
        var i', j' := if i < k then i else i + 1, if j < k then j else j + 1;
        assert t[i'] == s[i] && t[j'] == s[j];
      }
      forall i | 0 <= i < |s| ensures !Overlap(s[i], r) {
        if i < k { assert t[i] == s[i] && t[k] == r; } else { assert t[i+1] == s[i] && t[k] == r; }
      }
    }
    if PairwiseDisjoint(s) && DisjointFrom(s, r) {
      forall i, j | 0 <= i < j < |t| ensures !Overlap(t[i], t[j]) {
        var i', j' := if i < k then i else i - 1, if j < k then j else j - 1;
        if i == k {
          assert t[j] == s[j'];
        } else if j == k {
          assert t[i] == s[i'];
        } else {
          assert t[i] == s[i'] && t[j] == s[j'];
        }
      }
    }
  }

  // Two lists with the same ranges, one more range put somewhere into each of them.
  lemma DisjointAfterInsert(s: seq<Range>, t: seq<Range>, r: Range, k: nat)
    requires k <= |t| && multiset(s) == multiset(t) && (PairwiseDisjoint(s) <==> PairwiseDisjoint(t))
    ensures PairwiseDisjoint(s + [r]) <==> PairwiseDisjoint(t[..k] + [r] + t[k..])
  {
    hide *;
    InsertDisjoint(s, r, |s|);
    assert s[..|s|] + [r] + s[|s|..] == s + [r];
    InsertDisjoint(t, r, k);
    if DisjointFrom(s, r) { SameMembers(s, t, r); }
    if DisjointFrom(t, r) { SameMembers(t, s, r); }
  }

  lemma {:induction false} SortDisjoint(s: seq<Range>)
    ensures PairwiseDisjoint(Sort(s)) <==> PairwiseDisjoint(s)
  {
    hide PairwiseDisjoint;
    if s == [] {
    } else {
      var front, r := s[..|s|-1], s[|s|-1];
      SortDisjoint(front);
      SortSorts(front);
      hide SortedByStart, Place;
      DisjointAfterInsert(front, Sort(front), r, Place(Sort(front), r));
      assert front + [r] == s;
    }
  }

  /* ----- Comparing neighbours ----- */

  // What the loop looks for in a sorted list.
  predicate NeighboursClash(t: seq<Range>) {
    exists i :: 0 <= i < |t| - 1 && t[i+1].start <= t[i].end
  }

  // A range reaches the start of a later one.
  predicate Clash(t: seq<Range>) {
    exists i, j :: 0 <= i < j < |t| && t[j].start <= t[i].end
  }

  lemma NeighboursSuffice(t: seq<Range>)
    requires SortedByStart(t)
    ensures NeighboursClash(t) <==> Clash(t)
  {
    if NeighboursClash(t) {
      var i :| 0 <= i < |t| - 1 && t[i+1].start <= t[i].end;
      var j := i + 1;
      assert t[j].start <= t[i].end;
    }
    if Clash(t) {
      var i, j :| 0 <= i < j < |t| && t[j].start <= t[i].end;
      assert t[i+1].start <= t[j].start;
    }
  }

  // A list the check lets through has no overlap, whatever its ranges.
  lemma NoClashNoOverlap(t: seq<Range>)
    requires !Clash(t)
    ensures PairwiseDisjoint(t)
  {
  }

  lemma ClashIsOverlap(t: seq<Range>)
    requires SortedByStart(t) && forall i :: 0 <= i < |t| ==> !Empty(t[i])
    ensures Clash(t) <==> !PairwiseDisjoint(t)
  {
    if Clash(t) {
      var i, j :| 0 <= i < j < |t| && t[j].start <= t[i].end;
      assert Contains(t[i], t[j].start) && Contains(t[j], t[j].start);
      assert Overlap(t[i], t[j]);
    } else {
      NoClashNoOverlap(t);
    }
  }

  /* ----- check_overlap ----- */

  // The ranges of each media server, in the order of the dictionary.
  class PortTable {
    var servers: seq<seq<Range>>

    constructor (servers: seq<seq<Range>>)
      ensures this.servers == servers
    {
      this.servers := servers;
    }

    // The neighbour loop over one sorted list.
    static method FindClash(v: seq<Range>) returns (clash: bool)
      ensures clash <==> NeighboursClash(v)
    {
      var i := 0;
      while i < |v| - 1
        invariant 0 <= i <= |v| && (|v| > 0 ==> i <= |v| - 1)
        invariant forall j :: 0 <= j < i && j < |v| - 1 ==> v[j+1].start > v[j].end
      {
        if v[i+1].start <= v[i].end {
          return true;
        }
        i := i + 1;
      }
      return false;
    }

    /** True at the first server with a clash; the lists looked at are left sorted. */
    method CheckOverlap() returns (overlap: bool)
      modifies this
      ensures overlap <==> exists k :: 0 <= k < |old(servers)| && NeighboursClash(Sort(old(servers)[k]))
      ensures |servers| == |old(servers)|
      ensures forall k :: 0 <= k < |servers| ==> servers[k] == old(servers)[k] || servers[k] == Sort(old(servers)[k])
      ensures !overlap ==> forall k :: 0 <= k < |servers| ==> PairwiseDisjoint(old(servers)[k])
      ensures (forall k, i :: 0 <= k < |old(servers)| && 0 <= i < |old(servers)[k]| ==> !Empty(old(servers)[k][i])) ==>
                (!overlap <==> forall k :: 0 <= k < |old(servers)| ==> PairwiseDisjoint(old(servers)[k]))
    {
      ghost var was := servers;
      var k := 0;
      overlap := false;
      while k < |servers|
        invariant 0 <= k <= |servers| == |was| && !overlap
        invariant forall j :: 0 <= j < k ==> servers[j] == was[j] || servers[j] == Sort(was[j])
        invariant forall j :: k <= j < |was| ==> servers[j] == was[j]
        invariant forall j :: 0 <= j < k ==> !NeighboursClash(Sort(was[j]))
      {
        if |servers[k]| >= 2 {
          var v := Sort(servers[k]);
          servers := servers[k := v];
          overlap := FindClash(v);
          if overlap {
            break;
          }
        }
        k := k + 1;
      }
      forall j | 0 <= j < |was| { ReportMeansOverlap(was[j]); }
    }
  }

  lemma {:induction false} ReportMeansOverlap(s: seq<Range>)
    ensures !NeighboursClash(Sort(s)) ==> PairwiseDisjoint(s)
    ensures (forall i :: 0 <= i < |s| ==> !Empty(s[i])) ==> (!NeighboursClash(Sort(s)) <==> PairwiseDisjoint(s))
  {
    var t := Sort(s);
    hide *;
    SortSorts(s);
    SortDisjoint(s);
    NeighboursSuffice(t);
    if !Clash(t) { NoClashNoOverlap(t); }
    if forall i :: 0 <= i < |s| ==> !Empty(s[i]) {
      MembersOf(s, t);
      ClashIsOverlap(t);
    }
  }

  // What a clash is in a sorted list whose empty ranges end just before they start.
  ghost predicate OverlapOrEmptyInside(t: seq<Range>) {
    exists i, j :: 0 <= i < j < |t| && (Overlap(t[i], t[j]) || (Empty(t[j]) && Contains(t[i], t[j].start)))
  }

  lemma ClashMeans(t: seq<Range>)
    requires SortedByStart(t) && forall i :: 0 <= i < |t| ==> t[i].start - 1 <= t[i].end
    ensures Clash(t) <==> OverlapOrEmptyInside(t)
  {
    if Clash(t) {
      var i, j :| 0 <= i < j < |t| && t[j].start <= t[i].end;
      assert Contains(t[i], t[j].start);
      if !Empty(t[j]) {
        assert Contains(t[j], t[j].start);
        assert Overlap(t[i], t[j]);
      }
    }
    if OverlapOrEmptyInside(t) {
      var i, j :| 0 <= i < j < |t| && (Overlap(t[i], t[j]) || (Empty(t[j]) && Contains(t[i], t[j].start)));
      assert t[j].start <= t[i].end;
    }
  }

  /** What is reported, empty ranges (of a scenario without endpoints) included: an overlap, or an
      empty range that starts inside another one. */
  lemma {:induction false} ReportedExactly(s: seq<Range>)
    requires forall i :: 0 <= i < |s| ==> s[i].start - 1 <= s[i].end
    ensures NeighboursClash(Sort(s)) <==> OverlapOrEmptyInside(Sort(s))
  {
    var t := Sort(s);
    hide *;
    SortSorts(s);
    NeighboursSuffice(t);
    MembersOf(s, t);
    ClashMeans(t);
  }

  /** Such an empty range is reported although no port is shared. */
  lemma EmptyRangeFalseAlarm()
    ensures var s := [Range(10, 12, "a"), Range(10, 9, "b")];
            NeighboursClash(Sort(s)) && PairwiseDisjoint(s)
  {
    var a, b := Range(10, 12, "a"), Range(10, 9, "b");
    assert [a, b][..1] == [a] && [a][..0] == [];
    assert Sort([a]) == [a];
    assert Sort([a, b]) == [a, b];
    assert [a, b][1].start <= [a, b][0].end;
  }

  /* ----- Ports of endpoints ----- */

  // A scenario's endpoints: SIPp hands out offset + 2k to the k-th of n.
  datatype Pool = Pool(offset: int, n: nat, name: string)

  function RangeOf(p: Pool): Range {
    Range(p.offset, p.offset + 2 * p.n - 1, p.name)
  }

  function RangesOf(pools: seq<Pool>): (s: seq<Range>)
    ensures |s| == |pools|
  {
    seq(|pools|, i requires 0 <= i < |pools| => RangeOf(pools[i]))
  }

  function RtpPort(p: Pool, k: nat): int {
    p.offset + 2 * k
  }

  function RtcpPort(p: Pool, k: nat): int {
    p.offset + 2 * k + 1
  }

  /** The range of a pool is exactly the RTP and RTCP ports of its endpoints, the k-th one's being 2k and
      2k + 1 above the offset. */
  lemma RangeIsPorts(p: Pool, port: int)
    ensures Contains(RangeOf(p), port) <==>
            exists k: nat :: k < p.n && (port == p.offset + 2 * k || port == p.offset + 2 * k + 1)
  {
    if Contains(RangeOf(p), port) {
      var k := (port - p.offset) / 2;
      assert 0 <= k < p.n && (port == p.offset + 2 * k || port == p.offset + 2 * k + 1);
    }
  }

  /** With an even offset, RTP ports are even and each RTCP port is the next one (section 11 of RFC
      3550); the first endpoint has the offset, the others follow two apart. */
  lemma PairedPorts(p: Pool, k: nat)
    ensures p.offset % 2 == 0 ==> RtpPort(p, k) % 2 == 0
    ensures RtcpPort(p, k) == RtpPort(p, k) + 1
    ensures RtpPort(p, 0) == p.offset && RtpPort(p, k + 1) == RtpPort(p, k) + 2
  {
  }

  // No endpoint of one pool has a port of an endpoint of the other.
  ghost predicate Apart(p: Pool, q: Pool) {
    forall k: nat, l: nat :: k < p.n && l < q.n ==>
                               && RtpPort(p, k) != RtpPort(q, l) && RtpPort(p, k) != RtcpPort(q, l)
                               && RtcpPort(p, k) != RtpPort(q, l) && RtcpPort(p, k) != RtcpPort(q, l)
  }

  lemma ApartIsDisjoint(p: Pool, q: Pool)
    ensures Apart(p, q) <==> !Overlap(RangeOf(p), RangeOf(q))
  {
    if port :| Contains(RangeOf(p), port) && Contains(RangeOf(q), port) {
      RangeIsPorts(p, port);
      RangeIsPorts(q, port);
      var k: nat :| k < p.n && (port == p.offset + 2 * k || port == p.offset + 2 * k + 1);
      var l: nat :| l < q.n && (port == q.offset + 2 * l || port == q.offset + 2 * l + 1);
      assert port == RtpPort(p, k) || port == RtcpPort(p, k);
      assert port == RtpPort(q, l) || port == RtcpPort(q, l);
    } else {
      forall k: nat, l: nat | k < p.n && l < q.n
        ensures && RtpPort(p, k) != RtpPort(q, l) && RtpPort(p, k) != RtcpPort(q, l)
                && RtcpPort(p, k) != RtpPort(q, l) && RtcpPort(p, k) != RtcpPort(q, l)
      {
        assert Contains(RangeOf(p), RtpPort(p, k)) && Contains(RangeOf(p), RtcpPort(p, k));
        assert !Contains(RangeOf(q), RtpPort(p, k)) && !Contains(RangeOf(q), RtcpPort(p, k));
      }
    }
  }

  /** The check passes pools that have endpoints exactly when no two of them share a port. */
  lemma {:induction false} PassesExactly(pools: seq<Pool>)
    requires forall i :: 0 <= i < |pools| ==> pools[i].n > 0
    ensures !NeighboursClash(Sort(RangesOf(pools))) <==>
            forall i, j :: 0 <= i < j < |pools| ==> Apart(pools[i], pools[j])
  {
    var s := RangesOf(pools);
    ReportMeansOverlap(s);
    forall i, j | 0 <= i < j < |pools| ensures Apart(pools[i], pools[j]) <==> !Overlap(s[i], s[j]) {
      ApartIsDisjoint(pools[i], pools[j]);
    }
    hide NeighboursClash, Sort, Apart, Overlap;
  }

  /** Once the check passes, no two endpoints on a server share an RTP or RTCP port. */
  lemma NoSharedPorts(pools: seq<Pool>, i: nat, k: nat, j: nat, l: nat)
    requires !NeighboursClash(Sort(RangesOf(pools)))
    requires i < |pools| && k < pools[i].n && j < |pools| && l < pools[j].n && (i, k) != (j, l)
    ensures RtpPort(pools[i], k) != RtpPort(pools[j], l) && RtcpPort(pools[i], k) != RtcpPort(pools[j], l)
    ensures RtpPort(pools[i], k) != RtcpPort(pools[j], l)
  {
    var s := RangesOf(pools);
    ReportMeansOverlap(s);
    if i != j {
      var a, b := if i < j then i else j, if i < j then j else i;
      assert !Overlap(s[a], s[b]);
      assert Contains(s[i], RtpPort(pools[i], k)) && Contains(s[i], RtcpPort(pools[i], k));
      assert !Contains(s[j], RtpPort(pools[i], k)) && !Contains(s[j], RtcpPort(pools[i], k));
    }
  }
}
