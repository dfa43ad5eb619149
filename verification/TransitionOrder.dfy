/**
 The order in which a project's observations are republished
 (orderProjectTransitionObservations, internal/memory/sync.go): Kahn's algorithm
 with a min-heap of ready indices.
 */
module TransitionOrder {
  import opened Sets
  import opened SyncService

  // ------------------------------------------------------------- reference

  predicate Identified(m: Mutation) {
    m.observation.Some? && m.recordId != "" && m.observation.value.id == m.recordId
  }

  predicate AllIdentified(items: seq<Mutation>) {
    forall i | 0 <= i < |items| :: Identified(items[i])
  }

  predicate IdsDistinct(items: seq<Mutation>) {
    forall i, j | 0 <= i < j < |items| :: items[i].recordId != items[j].recordId
  }

  predicate Present(items: seq<Mutation>, id: string) {
    exists j :: 0 <= j < |items| && items[j].recordId == id
  }

  function RefsOf(m: Mutation): seq<string> {
    if m.observation.Some? then m.observation.value.references else []
  }

  predicate ReferencesPresent(items: seq<Mutation>) {
    forall i, k | 0 <= i < |items| && 0 <= k < |RefsOf(items[i])| :: Present(items, RefsOf(items[i])[k])
  }

  /** The snapshot names every observation once and refers to nothing outside itself. */
  predicate WellFormed(items: seq<Mutation>) {
    AllIdentified(items) && IdsDistinct(items) && ReferencesPresent(items)
  }

  /** Item i refers to item j. */
  predicate Needs(items: seq<Mutation>, i: int, j: int) {
    0 <= i < |items| && 0 <= j < |items| && items[j].recordId in RefsOf(items[i])
  }

  predicate IsPermutation(order: seq<int>, n: nat) {
    && |order| == n
    && (forall p | 0 <= p < n :: 0 <= order[p] < n)
    && (forall p, q | 0 <= p < q < n :: order[p] != order[q])
  }

  /** Everything an item refers to comes before it. */
  predicate RespectsReferences(items: seq<Mutation>, order: seq<int>) {
    forall p, j | 0 <= p < |order| && 0 <= j < |items| && Needs(items, order[p], j) :: j in order[..p]
  }

  predicate Topological(items: seq<Mutation>, order: seq<int>) {
    IsPermutation(order, |items|) && RespectsReferences(items, order)
  }

  /** A round trip along references. */
  predicate Cycle(items: seq<Mutation>, walk: seq<int>) {
    && walk != []
    && (forall p | 0 <= p < |walk| - 1 :: Needs(items, walk[p], walk[p + 1]))
    && Needs(items, walk[|walk| - 1], walk[0])
  }

  /** First difference smaller, or none. */
  predicate LexAtMost(a: seq<int>, b: seq<int>) {
    a == b || exists p :: 0 <= p < |a| && p < |b| && a[..p] == b[..p] && a[p] < b[p]
  }

  predicate Ready(items: seq<Mutation>, done: set<int>, i: int) {
    0 <= i < |items| && i !in done && forall j | 0 <= j < |items| && Needs(items, i, j) :: j in done
  }

  function Elements(order: seq<int>): set<int> {
    set p | 0 <= p < |order| :: order[p]
  }

  /** Every item was the least ready one when its turn came. */
  predicate Greedy(items: seq<Mutation>, order: seq<int>) {
    forall p | 0 <= p < |order| ::
      && Ready(items, Elements(order[..p]), order[p])
      && forall i | 0 <= i < |items| && Ready(items, Elements(order[..p]), i) :: order[p] <= i
  }

  // ------------------------------------------------------------- theorems

  lemma GreedyRespects(items: seq<Mutation>, order: seq<int>)
    requires Greedy(items, order)
    ensures RespectsReferences(items, order)
    ensures forall p, q | 0 <= p < q < |order| :: order[p] != order[q]
  {
    forall p, j | 0 <= p < |order| && Needs(items, order[p], j) ensures j in order[..p] {
      assert Ready(items, Elements(order[..p]), order[p]);
    }
    forall p, q | 0 <= p < q < |order| ensures order[p] != order[q] {
      assert Ready(items, Elements(order[..q]), order[q]);
      assert order[..q][p] == order[p];
    }
  }

  /** A greedy order is the least of all topological orders. */
  lemma GreedyIsLeast(items: seq<Mutation>, order: seq<int>, other: seq<int>)
    requires Greedy(items, order) && |order| == |items| && Topological(items, other)
    ensures LexAtMost(order, other)
  {
    if order != other {
      var p := FirstDifference(order, other);
      assert Elements(other[..p]) == Elements(order[..p]);
      assert other[p] !in Elements(other[..p]);
      assert Ready(items, Elements(order[..p]), other[p]);
    }
  }

  lemma FirstDifference(a: seq<int>, b: seq<int>) returns (p: nat)
    requires |a| == |b| && a != b
    ensures p < |a| && a[..p] == b[..p] && a[p] != b[p]
  {
    p := 0;
    while a[p] == b[p]
      invariant p < |a| && a[..p] == b[..p]
      invariant exists q :: p <= q < |a| && a[q] != b[q]
      decreases |a| - p
    {
      p := p + 1;
    }
  }

  /** Items none of which is ready keep every topological order away. */
  predicate Stuck(items: seq<Mutation>, done: set<int>) {
    && (exists i :: 0 <= i < |items| && i !in done)
    && forall i | 0 <= i < |items| :: !Ready(items, done, i)
  }

  /** The first item of a topological order outside a set is ready for it. */
  lemma OrderIsNeverStuck(items: seq<Mutation>, done: set<int>, order: seq<int>)
    requires Topological(items, order)
    ensures !Stuck(items, done)
  {
    if i :| 0 <= i < |items| && i !in done {
      PermutationCovers(order, |items|, i);
      var p := FirstOutside(order, done);
      forall j | 0 <= j < |items| && Needs(items, order[p], j) ensures j in done {
        assert j in order[..p];
      }
      assert Ready(items, done, order[p]);
    }
  }

  lemma FirstOutside(order: seq<int>, done: set<int>) returns (p: nat)
    requires exists q :: 0 <= q < |order| && order[q] !in done
    ensures p < |order| && order[p] !in done && forall q | 0 <= q < p :: order[q] in done
  {
    p := 0;
    while order[p] in done
      invariant p < |order| && forall q | 0 <= q < p :: order[q] in done
      invariant exists q :: p <= q < |order| && order[q] !in done
      decreases |order| - p
    {
      p := p + 1;
    }
  }

  lemma {:induction false} DistinctCount(order: seq<int>)
    requires forall p, q | 0 <= p < q < |order| :: order[p] != order[q]
    ensures |Elements(order)| == |order|
    decreases |order|
  {
    if order == [] {
      assert Elements(order) == {};
    } else {
      var n := |order| - 1;
      DistinctCount(order[..n]);
      assert Elements(order) == Elements(order[..n]) + {order[n]};
    }
  }

  function Below(n: nat): (s: set<int>)
    ensures |s| == n
    ensures forall i :: i in s <==> 0 <= i < n
  {
    if n == 0 then {} else Below(n - 1) + {n - 1}
  }

  lemma PermutationCovers(order: seq<int>, n: nat, i: int)
    requires IsPermutation(order, n) && 0 <= i < n
    ensures exists p :: 0 <= p < |order| && order[p] == i
  {
    DistinctCount(order);
    assert Elements(order) <= Below(n);
    SubsetOfSameSize(Elements(order), Below(n));
    assert i in Elements(order);
  }

  lemma SubsetOfSameSize(a: set<int>, b: set<int>)
    requires a <= b && |a| == |b|
    ensures a == b
  {
    assert b == a + (b - a);
    assert |b - a| == 0;
  }

  // ----------------------------------------------------------------- cycles

  /** Following unmet references from a stuck item never leaves the stuck ones. */
  lemma {:induction false} StuckWalk(items: seq<Mutation>, done: set<int>, n: nat) returns (walk: seq<int>)
    requires Stuck(items, done)
    ensures |walk| == n + 1
    ensures forall p | 0 <= p <= n :: 0 <= walk[p] < |items| && walk[p] !in done
    ensures forall p | 0 <= p < n :: Needs(items, walk[p], walk[p + 1])
    decreases n
  {
    if n == 0 {
      var i :| 0 <= i < |items| && i !in done;
      walk := [i];
    } else {
      var shorter := StuckWalk(items, done, n - 1);
      assert !Ready(items, done, shorter[n - 1]);
      var j :| 0 <= j < |items| && Needs(items, shorter[n - 1], j) && j !in done;
      walk := shorter + [j];
    }
  }

  lemma StuckHasCycle(items: seq<Mutation>, done: set<int>) returns (walk: seq<int>)
    requires Stuck(items, done)
    ensures Cycle(items, walk)
  {
    var long := StuckWalk(items, done, |items|);
    if forall p, q | 0 <= p < q < |long| :: long[p] != long[q] {
      DistinctCount(long);
      assert Elements(long) <= Below(|items|);
      SubsetCount(Elements(long), Below(|items|));
      assert false;
    }
    var p, q :| 0 <= p < q < |long| && long[p] == long[q];
    walk := long[p..q];
  }

  lemma SubsetCount(a: set<int>, b: set<int>)
    requires a <= b
    ensures |a| <= |b|
  {
    assert b == a + (b - a);
  }

  lemma CycleHasNoOrder(items: seq<Mutation>, walk: seq<int>, order: seq<int>)
    requires Cycle(items, walk)
    ensures !Topological(items, order)
  {
    if Topological(items, order) {
      PermutationCovers(order, |items|, walk[0]);
      var p :| 0 <= p < |order| && order[p] == walk[0];
      CycleGoesDown(items, walk, order, 0, p);
      assert false;
    }
  }

  /** Along references positions only fall, so a walk cannot return. */
  lemma {:induction false} CycleGoesDown(items: seq<Mutation>, walk: seq<int>, order: seq<int>, k: nat, p: nat)
    requires Cycle(items, walk) && Topological(items, order)
    requires k < |walk| && p < |order| && order[p] == walk[k]
    requires forall q | 0 <= q < |order| && order[q] == walk[0] :: p <= q
    ensures false
    decreases |walk| - k
  {
    var next := if k + 1 < |walk| then walk[k + 1] else walk[0];
    assert Needs(items, order[p], next);
    assert next in order[..p];
    var q :| 0 <= q < p && order[..p][q] == next;
    if k + 1 < |walk| {
      CycleGoesDown(items, walk, order, k + 1, q);
    }
  }

  // --------------------------------------------------------------- counting

  function Occurrences(list: seq<int>, x: int): nat {
    if list == [] then 0 else Occurrences(list[..|list| - 1], x) + if list[|list| - 1] == x then 1 else 0
  }

  /** How many entries are not done yet. */
  function Pending(list: seq<int>, done: set<int>): nat {
    if list == [] then 0 else Pending(list[..|list| - 1], done) + if list[|list| - 1] !in done then 1 else 0
  }

  lemma OccurrencesAppend(list: seq<int>, y: int, x: int)
    ensures Occurrences(list + [y], x) == Occurrences(list, x) + if y == x then 1 else 0
  {
    assert (list + [y])[..|list|] == list;
  }

  lemma {:induction false} OccurrencesPositive(list: seq<int>, x: int)
    ensures Occurrences(list, x) > 0 <==> x in list
    decreases |list|
  {
    if list != [] {
      OccurrencesPositive(list[..|list| - 1], x);
      assert list == list[..|list| - 1] + [list[|list| - 1]];
    }
  }

  lemma {:induction false} OccurrencesPrefix(list: seq<int>, k: nat, x: int)
    requires k <= |list|
    ensures Occurrences(list[..k], x) <= Occurrences(list, x)
    ensures k < |list| && list[k] == x ==> Occurrences(list[..k], x) < Occurrences(list, x)
    decreases |list|
  {
    if k < |list| {
      OccurrencesPrefix(list[..|list| - 1], k, x);
      assert list[..|list| - 1][..k] == list[..k];
    } else {
      assert list[..k] == list;
    }
  }

  lemma {:induction false} PendingAfter(list: seq<int>, done: set<int>, j: int)
    requires j !in done
    ensures Pending(list, done) == Pending(list, done + {j}) + Occurrences(list, j)
    decreases |list|
  {
    if list != [] {
      PendingAfter(list[..|list| - 1], done, j);
    }
  }

  lemma {:induction false} PendingNone(list: seq<int>, done: set<int>)
    ensures Pending(list, done) == 0 <==> forall k | 0 <= k < |list| :: list[k] in done
    decreases |list|
  {
    if list != [] {
      var n := |list| - 1;
      PendingNone(list[..n], done);
      if Pending(list, done) == 0 {
        forall k | 0 <= k < |list| ensures list[k] in done {
          assert k < n ==> list[..n][k] == list[k];
        }
      }
    }
  }

  lemma {:induction false} PendingAll(list: seq<int>)
    ensures Pending(list, {}) == |list|
    decreases |list|
  {
    if list != [] {
      PendingAll(list[..|list| - 1]);
    }
  }

  // ------------------------------------------------------------- algorithm

  /** byID maps each record id to its index. */
  predicate Indexes(items: seq<Mutation>, byId: map<string, int>) {
    && (forall i | 0 <= i < |items| :: items[i].recordId in byId && byId[items[i].recordId] == i)
    && (forall id | id in byId :: 0 <= byId[id] < |items| && items[byId[id]].recordId == id)
  }

  method IndexById(items: seq<Mutation>) returns (ok: bool, byId: map<string, int>)
    ensures ok <==> AllIdentified(items) && IdsDistinct(items)
    ensures ok ==> Indexes(items, byId)
  {
    byId := map[];
    var i := 0;
    while i < |items|
      invariant 0 <= i <= |items|
      invariant AllIdentified(items[..i]) && IdsDistinct(items[..i])
      invariant Indexes(items[..i], byId)
    {
      var m := items[i];
      if m.observation.None? || m.recordId == "" || m.observation.value.id != m.recordId {
        assert !Identified(items[i]);
        return false, byId;
      }
      if m.recordId in byId {
        assert items[..i][byId[m.recordId]] == items[byId[m.recordId]];
        return false, byId;
      }
      byId := byId[m.recordId := i];
      i := i + 1;
    }
    assert items[..i] == items;
    ok := true;
  }

  /** The indices behind an item's first k references, in the order it refers to them. */
  function Resolved(m: Mutation, byId: map<string, int>, k: nat): (list: seq<int>)
    requires k <= |RefsOf(m)|
    ensures |list| == k
  {
    seq(k, r requires 0 <= r < k => if RefsOf(m)[r] in byId then byId[RefsOf(m)[r]] else -1)
  }

  function Dependencies(m: Mutation, byId: map<string, int>): seq<int> {
    Resolved(m, byId, |RefsOf(m)|)
  }

  lemma ResolvedNext(m: Mutation, byId: map<string, int>, k: nat)
    requires k < |RefsOf(m)| && RefsOf(m)[k] in byId
    ensures Resolved(m, byId, k + 1) == Resolved(m, byId, k) + [byId[RefsOf(m)[k]]]
  {
  }

  /** What has been counted when items before i, and k references of item i, have been looked at. */
  function Counted(items: seq<Mutation>, byId: map<string, int>, i: nat, k: nat, x: int): seq<int>
    requires i < |items| ==> k <= |RefsOf(items[i])|
  {
    if 0 <= x < |items| && x < i then Dependencies(items[x], byId)
    else if 0 <= x < |items| && x == i then Resolved(items[x], byId, k)
    else []
  }

  predicate CountsAre(items: seq<Mutation>, byId: map<string, int>, i: nat, k: nat, indegree: seq<int>, dependents: seq<seq<int>>)
    requires i < |items| ==> k <= |RefsOf(items[i])|
  {
    && |indegree| == |dependents| == |items|
    && (forall x | 0 <= x < |items| :: indegree[x] == |Counted(items, byId, i, k, x)|)
  }

  ghost predicate EdgesAre(items: seq<Mutation>, byId: map<string, int>, i: nat, k: nat, dependents: seq<seq<int>>)
    requires i < |items| ==> k <= |RefsOf(items[i])|
  {
    && |dependents| == |items|
    && (forall j, x | 0 <= j < |items| :: Occurrences(dependents[j], x) == Occurrences(Counted(items, byId, i, k, x), j))
  }

  predicate RefsIndexed(m: Mutation, byId: map<string, int>, k: nat)
    requires k <= |RefsOf(m)|
  {
    forall r | 0 <= r < k :: RefsOf(m)[r] in byId
  }

  lemma IndexedIsPresent(items: seq<Mutation>, byId: map<string, int>)
    requires Indexes(items, byId)
    ensures ReferencesPresent(items) <==> forall i | 0 <= i < |items| :: RefsIndexed(items[i], byId, |RefsOf(items[i])|)
  {
    forall id ensures Present(items, id) <==> id in byId {
      if id in byId {
        assert items[byId[id]].recordId == id;
      }
    }
  }

  lemma EdgeAdded(items: seq<Mutation>, byId: map<string, int>, i: nat, k: nat, dependents: seq<seq<int>>, added: seq<seq<int>>)
    requires Indexes(items, byId) && i < |items| && k < |RefsOf(items[i])| && RefsOf(items[i])[k] in byId
    requires EdgesAre(items, byId, i, k, dependents)
    requires var d := byId[RefsOf(items[i])[k]]; added == dependents[d := dependents[d] + [i]]
    ensures EdgesAre(items, byId, i, k + 1, added)
  {
    var d := byId[RefsOf(items[i])[k]];
    ResolvedNext(items[i], byId, k);
    forall j, x | 0 <= j < |items| ensures Occurrences(added[j], x) == Occurrences(Counted(items, byId, i, k + 1, x), j) {
      OccurrencesAppend(dependents[d], i, x);
      OccurrencesAppend(Resolved(items[i], byId, k), d, j);
      assert Counted(items, byId, i, k + 1, x) == if x == i then Resolved(items[i], byId, k) + [d] else Counted(items, byId, i, k, x);
      assert Occurrences(dependents[j], x) == Occurrences(Counted(items, byId, i, k, x), j);
      assert added[j] == if j == d then dependents[d] + [i] else dependents[j];
    }
  }

  method CountItem(items: seq<Mutation>, byId: map<string, int>, i: nat, indegree: array<int>, dependents: array<seq<int>>) returns (ok: bool)
    requires Indexes(items, byId) && i < |items|
    requires CountsAre(items, byId, i, 0, indegree[..], dependents[..]) && EdgesAre(items, byId, i, 0, dependents[..])
    modifies indegree, dependents
    ensures ok <==> RefsIndexed(items[i], byId, |RefsOf(items[i])|)
    ensures ok ==> CountsAre(items, byId, i + 1, 0, indegree[..], dependents[..])
    ensures ok ==> EdgesAre(items, byId, i + 1, 0, dependents[..])
  {
    hide Occurrences, EdgesAre, CountsAre;
    var references := RefsOf(items[i]);
    var k := 0;
    while k < |references|
      invariant 0 <= k <= |references|
      invariant RefsIndexed(items[i], byId, k)
      invariant CountsAre(items, byId, i, k, indegree[..], dependents[..])
      invariant EdgesAre(items, byId, i, k, dependents[..])
    {
      if references[k] !in byId {
        return false;
      }
      var dependency := byId[references[k]];
      CountsInRange(items, byId, i, k, indegree[..], dependents[..]);
      ghost var counts, edges := indegree[..], dependents[..];
      EdgeAdded(items, byId, i, k, edges, edges[dependency := edges[dependency] + [i]]);
      CountAdded(items, byId, i, k, counts, edges, dependency);
      indegree[i] := indegree[i] + 1;
      dependents[dependency] := dependents[dependency] + [i];
      assert indegree[..] == counts[i := counts[i] + 1];
      assert dependents[..] == edges[dependency := edges[dependency] + [i]];
      k := k + 1;
    }
    ItemCounted(items, byId, i, indegree[..], dependents[..]);
    ok := true;
  }

  lemma CountsInRange(items: seq<Mutation>, byId: map<string, int>, i: nat, k: nat, indegree: seq<int>, dependents: seq<seq<int>>)
    requires i < |items| && k <= |RefsOf(items[i])| && CountsAre(items, byId, i, k, indegree, dependents)
    ensures |indegree| == |dependents| == |items|
  {
  }

  lemma CountAdded(items: seq<Mutation>, byId: map<string, int>, i: nat, k: nat, indegree: seq<int>, dependents: seq<seq<int>>, d: int)
    requires Indexes(items, byId) && i < |items| && k < |RefsOf(items[i])| && RefsOf(items[i])[k] in byId && 0 <= d < |items|
    requires CountsAre(items, byId, i, k, indegree, dependents)
    ensures CountsAre(items, byId, i, k + 1, indegree[i := indegree[i] + 1], dependents[d := dependents[d] + [i]])
  {
    ResolvedNext(items[i], byId, k);
    forall x | 0 <= x < |items| && x != i ensures Counted(items, byId, i, k + 1, x) == Counted(items, byId, i, k, x) {
    }
  }

  method CountReferences(items: seq<Mutation>, byId: map<string, int>)
    returns (ok: bool, indegree: array<int>, dependents: array<seq<int>>)
    requires Indexes(items, byId)
    ensures fresh(indegree) && fresh(dependents) && indegree.Length == dependents.Length == |items|
    ensures ok <==> ReferencesPresent(items)
    ensures ok ==> CountsAre(items, byId, |items|, 0, indegree[..], dependents[..])
    ensures ok ==> EdgesAre(items, byId, |items|, 0, dependents[..])
  {
    hide Occurrences, EdgesAre, CountsAre, Indexes, RefsIndexed, ReferencesPresent;
    indegree := new int[|items|](_ => 0);
    dependents := new seq<int>[|items|](_ => []);
    IndexedIsPresent(items, byId);
    CountsStart(items, byId, indegree[..], dependents[..]);
    var i := 0;
    while i < |items|
      invariant 0 <= i <= |items|
      invariant forall x | 0 <= x < i :: RefsIndexed(items[x], byId, |RefsOf(items[x])|)
      invariant CountsAre(items, byId, i, 0, indegree[..], dependents[..])
      invariant EdgesAre(items, byId, i, 0, dependents[..])
    {
      ok := CountItem(items, byId, i, indegree, dependents);
      if !ok {
        return;
      }
      i := i + 1;
    }
    ok := true;
  }

  lemma CountsStart(items: seq<Mutation>, byId: map<string, int>, indegree: seq<int>, dependents: seq<seq<int>>)
    requires |indegree| == |dependents| == |items|
    requires forall j | 0 <= j < |items| :: indegree[j] == 0 && dependents[j] == []
    ensures CountsAre(items, byId, 0, 0, indegree, dependents)
    ensures EdgesAre(items, byId, 0, 0, dependents)
  {
    if items != [] {
      assert Resolved(items[0], byId, 0) == [];
    }
  }

  lemma ItemCounted(items: seq<Mutation>, byId: map<string, int>, i: nat, indegree: seq<int>, dependents: seq<seq<int>>)
    requires i < |items|
    requires CountsAre(items, byId, i, |RefsOf(items[i])|, indegree, dependents) && EdgesAre(items, byId, i, |RefsOf(items[i])|, dependents)
    ensures CountsAre(items, byId, i + 1, 0, indegree, dependents) && EdgesAre(items, byId, i + 1, 0, dependents)
  {
    hide Occurrences;
    forall x ensures Counted(items, byId, i, |RefsOf(items[i])|, x) == Counted(items, byId, i + 1, 0, x) {
      if x == i + 1 < |items| {
        assert Resolved(items[i + 1], byId, 0) == [];
      }
    }
    forall j, x | 0 <= j < |items| ensures Occurrences(dependents[j], x) == Occurrences(Counted(items, byId, i + 1, 0, x), j) {
      assert Occurrences(dependents[j], x) == Occurrences(Counted(items, byId, i, |RefsOf(items[i])|, x), j);
    }
  }

  /** References from item x to item j. */
  function Edges(deps: seq<seq<int>>, x: int, j: int): nat {
    if 0 <= x < |deps| then Occurrences(deps[x], j) else 0
  }

  /** Each dependency list mirrors the dependents lists, entry for entry. */
  ghost predicate Mirrored(deps: seq<seq<int>>, dependents: seq<seq<int>>) {
    && |deps| == |dependents|
    && forall j, x | 0 <= j < |deps| :: Occurrences(dependents[j], x) == Edges(deps, x, j)
  }

  lemma MirroredAt(deps: seq<seq<int>>, dependents: seq<seq<int>>, j: int)
    requires Mirrored(deps, dependents) && 0 <= j < |deps|
    ensures forall x :: Occurrences(dependents[j], x) == Edges(deps, x, j)
  {
    hide Occurrences;
  }

  /** The dependency lists say what the references say. */
  predicate DepsShowNeeds(items: seq<Mutation>, deps: seq<seq<int>>) {
    && |deps| == |items|
    && forall i, j | 0 <= i < |items| && 0 <= j < |items| :: j in deps[i] <==> Needs(items, i, j)
  }

  function AllDependencies(items: seq<Mutation>, byId: map<string, int>): (deps: seq<seq<int>>)
    ensures |deps| == |items|
  {
    seq(|items|, i requires 0 <= i < |items| => Dependencies(items[i], byId))
  }

  lemma DependenciesShowNeeds(items: seq<Mutation>, byId: map<string, int>)
    requires Indexes(items, byId) && IdsDistinct(items) && ReferencesPresent(items)
    ensures DepsShowNeeds(items, AllDependencies(items, byId))
    ensures forall i, k | 0 <= i < |items| && 0 <= k < |AllDependencies(items, byId)[i]| :: 0 <= AllDependencies(items, byId)[i][k] < |items|
  {
    IndexedIsPresent(items, byId);
    var deps := AllDependencies(items, byId);
    forall i, j | 0 <= i < |items| && 0 <= j < |items| ensures j in deps[i] <==> Needs(items, i, j) {
      assert RefsIndexed(items[i], byId, |RefsOf(items[i])|);
      if Needs(items, i, j) {
        var k :| 0 <= k < |RefsOf(items[i])| && RefsOf(items[i])[k] == items[j].recordId;
        assert deps[i][k] == j;
      }
      if j in deps[i] {
        var k :| 0 <= k < |deps[i]| && deps[i][k] == j;
        assert RefsOf(items[i])[k] == items[j].recordId;
      }
    }
    forall i, k | 0 <= i < |items| && 0 <= k < |deps[i]| ensures 0 <= deps[i][k] < |items| {
      assert RefsIndexed(items[i], byId, |RefsOf(items[i])|);
    }
  }

  /** What is still missing of each item, and which items are ready, once done has been placed. */
  ghost predicate Counters(items: seq<Mutation>, deps: seq<seq<int>>, done: set<int>, indegree: seq<int>, ready: set<int>) {
    && |indegree| == |deps| == |items|
    && (forall i | 0 <= i < |items| :: indegree[i] == Pending(deps[i], done))
    && (forall i :: i in ready <==> 0 <= i < |items| && i !in done && indegree[i] == 0)
  }

  lemma ReadyMeansCounted(items: seq<Mutation>, deps: seq<seq<int>>, done: set<int>, indegree: seq<int>, ready: set<int>, i: int)
    requires DepsShowNeeds(items, deps) && Counters(items, deps, done, indegree, ready)
    requires forall x, k | 0 <= x < |deps| && 0 <= k < |deps[x]| :: 0 <= deps[x][k] < |items|
    ensures i in ready <==> Ready(items, done, i)
  {
    if 0 <= i < |items| {
      PendingNone(deps[i], done);
      if Ready(items, done, i) {
        forall k | 0 <= k < |deps[i]| ensures deps[i][k] in done {
          assert Needs(items, i, deps[i][k]);
        }
      }
    }
  }

  /** heap.Pop: the least element. */
  method PopMin(ready: set<int>) returns (least: int)
    requires |ready| > 0
    ensures least in ready && forall x | x in ready :: least <= x
  {
    EmptyOrInhabitedInts(ready);
    least :| least in ready;
    var rest := ready - {least};
    while |rest| > 0
      invariant rest <= ready && least in ready
      invariant forall x | x in ready && x !in rest :: least <= x
      decreases |rest|
    {
      EmptyOrInhabitedInts(rest);
      var x :| x in rest;
      if x < least {
        least := x;
      }
      rest := rest - {x};
    }
  }

  /** Placing an item: its dependents lose one count per reference to it, and those at zero become ready. */
  method Release(items: seq<Mutation>, ghost deps: seq<seq<int>>, ghost done: set<int>, index: int, indegree: array<int>,
                 list: seq<int>, ready: set<int>) returns (ready': set<int>)
    requires Counters(items, deps, done, indegree[..], ready + {index})
    requires 0 <= index < |items| && index !in done && index !in ready && indegree.Length == |items|
    requires forall x :: Occurrences(list, x) == Edges(deps, x, index)
    requires forall d | d in done && 0 <= d < |items| :: Pending(deps[d], done) == 0
    modifies indegree
    ensures Counters(items, deps, done + {index}, indegree[..], ready')
  {
    ready' := ready;
    assert list[..0] == [];
    hide Occurrences, Pending;
    var q := 0;
    while q < |list|
      invariant 0 <= q <= |list|
      invariant forall i | 0 <= i < |items| :: indegree[i] == Pending(deps[i], done) - Occurrences(list[..q], i)
      invariant forall i :: i in ready' <==> 0 <= i < |items| && i !in done && i != index && indegree[i] == 0
    {
      var dependent := list[q];
      OccurrencesPositive(list, dependent);
      OccurrencesPrefix(list, q, dependent);
      PendingAfter(deps[dependent], done, index);
      assert list[..q + 1] == list[..q] + [dependent];
      forall i | 0 <= i < |items| ensures Occurrences(list[..q + 1], i) == Occurrences(list[..q], i) + if i == dependent then 1 else 0 {
        OccurrencesAppend(list[..q], dependent, i);
      }
      indegree[dependent] := indegree[dependent] - 1;
      if indegree[dependent] == 0 {
        ready' := ready' + {dependent};
      }
      q := q + 1;
    }
    assert list[..q] == list;
    forall i | 0 <= i < |items| ensures indegree[i] == Pending(deps[i], done + {index}) {
      PendingAfter(deps[i], done, index);
    }
  }

  datatype Ordering = Ordered(items: seq<Mutation>) | Unordered

  function Pick(items: seq<Mutation>, order: seq<int>): (picked: seq<Mutation>)
    requires forall p | 0 <= p < |order| :: 0 <= order[p] < |items|
    ensures |picked| == |order| && forall p | 0 <= p < |order| :: picked[p] == items[order[p]]
  {
    seq(|order|, p requires 0 <= p < |order| => items[order[p]])
  }

  /** The loop: the least ready item is placed until none is left. */
  method Drain(items: seq<Mutation>, ghost deps: seq<seq<int>>, indegree: array<int>, dependents: array<seq<int>>)
    returns (placed: seq<int>)
    requires DepsShowNeeds(items, deps) && Mirrored(deps, dependents[..])
    requires forall x, k | 0 <= x < |deps| && 0 <= k < |deps[x]| :: 0 <= deps[x][k] < |items|
    requires indegree.Length == dependents.Length == |items|
    requires forall i | 0 <= i < |items| :: indegree[i] == |deps[i]|
    modifies indegree
    ensures Greedy(items, placed)
    ensures forall p | 0 <= p < |placed| :: 0 <= placed[p] < |items|
    ensures |placed| <= |items|
    ensures |placed| < |items| ==> Stuck(items, Elements(placed))
  {
    hide Pending, Occurrences, Needs;
    var ready: set<int> := {};
    var i := 0;
    while i < |items|
      invariant 0 <= i <= |items|
      invariant forall x :: x in ready <==> 0 <= x < i && indegree[x] == 0
    {
      if indegree[i] == 0 {
        ready := ready + {i};
      }
      i := i + 1;
    }
    forall x | 0 <= x < |items| ensures indegree[x] == Pending(deps[x], {}) {
      PendingAll(deps[x]);
    }
    placed := [];
    assert Elements(placed) == {};
    while |ready| > 0
      invariant Greedy(items, placed)
      invariant forall p | 0 <= p < |placed| :: 0 <= placed[p] < |items|
      invariant Counters(items, deps, Elements(placed), indegree[..], ready)
      invariant |placed| <= |items|
      decreases |items| - |placed|
    {
      ghost var done := Elements(placed);
      var index := PopMin(ready);
      forall x ensures x in ready <==> Ready(items, done, x) {
        ReadyMeansCounted(items, deps, done, indegree[..], ready, x);
      }
      DoneNeedNothing(items, deps, placed);
      assert (ready - {index}) + {index} == ready && dependents[..][index] == dependents[index];
      MirroredAt(deps, dependents[..], index);
      ready := Release(items, deps, done, index, indegree, dependents[index], ready - {index});
      GreedyGrows(items, placed, index);
      ElementsAppend(placed, index);
      placed := placed + [index];
      PlacedCount(items, placed);
    }
    forall x ensures !Ready(items, Elements(placed), x) {
      EmptyHasNone(ready, x);
      ReadyMeansCounted(items, deps, Elements(placed), indegree[..], ready, x);
    }
    if |placed| < |items| {
      SomeLeft(items, placed);
    }
  }

  lemma ElementsAppend(order: seq<int>, x: int)
    ensures Elements(order + [x]) == Elements(order) + {x}
  {
    var longer := order + [x];
    assert forall p | 0 <= p < |order| :: longer[p] == order[p];
    assert longer[|order|] == x;
  }

  lemma EmptyHasNone(s: set<int>, x: int)
    requires |s| == 0
    ensures x !in s
  {
  }

  lemma SomeLeft(items: seq<Mutation>, placed: seq<int>)
    requires |placed| < |items|
    ensures exists i :: 0 <= i < |items| && i !in Elements(placed)
  {
    ElementsCount(placed);
    if forall i | 0 <= i < |items| :: i in Elements(placed) {
      assert Below(|items|) <= Elements(placed);
      SubsetCount(Below(|items|), Elements(placed));
    }
  }

  lemma {:induction false} ElementsCount(order: seq<int>)
    ensures |Elements(order)| <= |order|
    decreases |order|
  {
    if order == [] {
      assert Elements(order) == {};
    } else {
      var n := |order| - 1;
      ElementsCount(order[..n]);
      assert Elements(order) == Elements(order[..n]) + {order[n]};
    }
  }

  lemma PlacedCount(items: seq<Mutation>, placed: seq<int>)
    requires Greedy(items, placed) && forall p | 0 <= p < |placed| :: 0 <= placed[p] < |items|
    ensures |placed| <= |items|
  {
    GreedyRespects(items, placed);
    DistinctCount(placed);
    assert Elements(placed) <= Below(|items|);
    SubsetCount(Elements(placed), Below(|items|));
  }

  lemma GreedyGrows(items: seq<Mutation>, placed: seq<int>, index: int)
    requires Greedy(items, placed)
    requires Ready(items, Elements(placed), index)
    requires forall i | 0 <= i < |items| && Ready(items, Elements(placed), i) :: index <= i
    ensures Greedy(items, placed + [index])
  {
    hide Ready;
    var longer := placed + [index];
    forall p | 0 <= p < |longer| ensures Elements(longer[..p]) == Elements(if p < |placed| then placed[..p] else placed) {
      assert longer[..p] == if p < |placed| then placed[..p] else placed;
    }
  }

  /** What is placed has everything it refers to placed too. */
  lemma DoneNeedNothing(items: seq<Mutation>, deps: seq<seq<int>>, placed: seq<int>)
    requires Greedy(items, placed) && DepsShowNeeds(items, deps)
    requires forall x, k | 0 <= x < |deps| && 0 <= k < |deps[x]| :: 0 <= deps[x][k] < |items|
    ensures forall d | d in Elements(placed) && 0 <= d < |items| :: Pending(deps[d], Elements(placed)) == 0
  {
    GreedyRespects(items, placed);
    forall d | d in Elements(placed) && 0 <= d < |items| ensures Pending(deps[d], Elements(placed)) == 0 {
      PendingNone(deps[d], Elements(placed));
      var p :| 0 <= p < |placed| && placed[p] == d;
      forall k | 0 <= k < |deps[d]| ensures deps[d][k] in Elements(placed) {
        assert Needs(items, placed[p], deps[d][k]);
        assert deps[d][k] in placed[..p];
      }
    }
  }

  /**
   Succeeds if and only if the snapshot is well formed and has no reference cycle; then
   the result is the least topological order of the items.
   */
  method OrderObservations(items: seq<Mutation>) returns (result: Ordering)
    ensures result.Ordered? <==> WellFormed(items) && exists order :: Topological(items, order)
    ensures result.Ordered? ==>
      exists order :: LeastOrder(items, order) && result.items == Pick(items, order)
  {
    hide Topological, Greedy, Stuck;
    var ok, byId := IndexById(items);
    if !ok {
      return Unordered;
    }
    var counted, indegree, dependents := CountReferences(items, byId);
    if !counted {
      return Unordered;
    }
    ghost var deps := AllDependencies(items, byId);
    DependenciesShowNeeds(items, byId);
    EdgesAreMirrored(items, byId, dependents[..]);
    CountsAreLengths(items, byId, indegree[..], dependents[..]);
    var placed := Drain(items, deps, indegree, dependents);
    if |placed| != |items| {
      forall order ensures !Topological(items, order) {
        if Topological(items, order) {
          OrderIsNeverStuck(items, Elements(placed), order);
        }
      }
      return Unordered;
    }
    GreedyIsTopological(items, placed);
    forall other | Topological(items, other) ensures LexAtMost(placed, other) {
      GreedyIsLeast(items, placed, other);
    }
    assert LeastOrder(items, placed);
    result := Ordered(Pick(items, placed));
  }

  ghost predicate LeastOrder(items: seq<Mutation>, order: seq<int>) {
    && Topological(items, order)
    && (forall p | 0 <= p < |order| :: 0 <= order[p] < |items|)
    && forall other | Topological(items, other) :: LexAtMost(order, other)
  }

  lemma GreedyIsTopological(items: seq<Mutation>, order: seq<int>)
    requires Greedy(items, order) && |order| == |items| && forall p | 0 <= p < |order| :: 0 <= order[p] < |items|
    ensures Topological(items, order)
  {
    GreedyRespects(items, order);
  }

  lemma NoOccurrence(x: int)
    ensures Occurrences([], x) == 0
  {
  }

  lemma EdgesAt(items: seq<Mutation>, byId: map<string, int>, dependents: seq<seq<int>>, j: int, x: int)
    requires EdgesAre(items, byId, |items|, 0, dependents) && 0 <= j < |items|
    ensures Occurrences(dependents[j], x) == Occurrences(Counted(items, byId, |items|, 0, x), j)
  {
    hide Occurrences, Counted;
  }

  lemma EdgesAreMirrored(items: seq<Mutation>, byId: map<string, int>, dependents: seq<seq<int>>)
    requires EdgesAre(items, byId, |items|, 0, dependents)
    ensures Mirrored(AllDependencies(items, byId), dependents)
  {
    hide Occurrences;
    var deps := AllDependencies(items, byId);
    forall j, x | 0 <= j < |deps|
      ensures Occurrences(dependents[j], x) == Edges(deps, x, j)
    {
      EdgesAt(items, byId, dependents, j, x);
      assert Counted(items, byId, |items|, 0, x) == if 0 <= x < |deps| then deps[x] else [];
      if !(0 <= x < |deps|) {
        assert Occurrences([], j) == 0 by { NoOccurrence(j); }
      }
    }
  }

  lemma CountsAreLengths(items: seq<Mutation>, byId: map<string, int>, indegree: seq<int>, dependents: seq<seq<int>>)
    requires CountsAre(items, byId, |items|, 0, indegree, dependents)
    ensures forall i | 0 <= i < |items| :: indegree[i] == |AllDependencies(items, byId)[i]|
  {
  }

  /** A well-formed snapshot can be ordered if and only if its references have no cycle. */
  lemma OrderableExactly(items: seq<Mutation>)
    requires WellFormed(items)
    ensures (exists other :: Topological(items, other)) <==> !exists walk :: Cycle(items, walk)
  {
    if walk :| Cycle(items, walk) {
      forall other ensures !Topological(items, other) {
        CycleHasNoOrder(items, walk, other);
      }
    } else {
      var greedy := GreedyOrder(items, []);
      if |greedy| < |items| {
        var walk := StuckHasCycle(items, Elements(greedy));
      } else {
        GreedyIsTopological(items, greedy);
      }
    }
  }

  /** The greedy order as a value: placing the least ready item while there is one. */
  lemma {:induction false} GreedyOrder(items: seq<Mutation>, placed: seq<int>) returns (order: seq<int>)
    requires Greedy(items, placed) && |placed| <= |items| && forall p | 0 <= p < |placed| :: 0 <= placed[p] < |items|
    ensures Greedy(items, order) && |order| <= |items| && forall p | 0 <= p < |order| :: 0 <= order[p] < |items|
    ensures |order| < |items| ==> Stuck(items, Elements(order))
    decreases |items| - |placed|
  {
    hide Needs, Greedy;
    if |placed| == |items| {
      order := placed;
    } else if exists i :: 0 <= i < |items| && Ready(items, Elements(placed), i) {
      var i := LeastReady(items, Elements(placed));
      GreedyGrows(items, placed, i);
      order := GreedyOrder(items, placed + [i]);
    } else {
      SomeLeft(items, placed);
      order := placed;
    }
  }

  lemma LeastReady(items: seq<Mutation>, done: set<int>) returns (i: int)
    requires exists k :: 0 <= k < |items| && Ready(items, done, k)
    ensures 0 <= i < |items| && Ready(items, done, i)
    ensures forall k | 0 <= k < |items| && Ready(items, done, k) :: i <= k
  {
    i := 0;
    while !Ready(items, done, i)
      invariant 0 <= i < |items|
      invariant exists k :: i <= k < |items| && Ready(items, done, k)
      invariant forall k | 0 <= k < i :: !Ready(items, done, k)
      decreases |items| - i
    {
      i := i + 1;
    }
  }
}
