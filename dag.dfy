/**
 * The dependency sorter: Kahn's algorithm over "depends on" edges, with ready
 * tasks taken earliest original start first.
 *
 * A `Map`'s insertion order is kept explicitly as the sequence `keys`; the
 * `adjacency` and `inDegree` maps are Dafny maps that the methods reassign.
 */
module Dag {
  import opened Types

  /** What `topologicalSort` produces: an order of ids, or the `CycleError` it throws with the leftover ids. */
  datatype SortResult = Sorted(order: seq<Id>) | CycleError(cycle: seq<Id>)

  /** An edge `from -> to`: task `to` depends on the known task `from`. */
  datatype Edge = Edge(from: Id, to: Id)

  // ---------------------------------------------------------------------------
  // Vocabulary
  // ---------------------------------------------------------------------------

  /** The set of task ids (`new Set(tasks.map(t => t.docId))`). */
  function Ids(tasks: seq<SettlementTask>): set<Id>
  {
    set i | 0 <= i < |tasks| :: tasks[i].id
  }

  /** The elements of a sequence, as a set. */
  function Elems(s: seq<Id>): set<Id>
  {
    set x | x in s
  }

  predicate Distinct(s: seq<Id>)
  {
    forall i, j :: 0 <= i < j < |s| ==> s[i] != s[j]
  }

  /** Task `b` depends on `a`, and `a` is the id of some task (unknown ids are ignored). */
  predicate DependsOn(tasks: seq<SettlementTask>, b: Id, a: Id)
  {
    a in Ids(tasks) && exists i :: 0 <= i < |tasks| && tasks[i].id == b && a in tasks[i].dependsOnTaskIds
  }

  /** Every known dependency of `v` is in `done`. */
  ghost predicate Ready(tasks: seq<SettlementTask>, v: Id, done: set<Id>)
  {
    forall a :: DependsOn(tasks, v, a) ==> a in done
  }

  /** Every known dependency of an element comes earlier in `order`. */
  ghost predicate Topological(tasks: seq<SettlementTask>, order: seq<Id>)
  {
    forall i, a :: 0 <= i < |order| && DependsOn(tasks, order[i], a) ==> a in order[..i]
  }

  /** Start date of the last task carrying `id` (`taskMap.get(id)!`). */
  function StartIn(taskMap: map<Id, SettlementTask>, id: Id): Instant
  {
    if id in taskMap then taskMap[id].startDate else 0
  }

  function StartOf(tasks: seq<SettlementTask>, id: Id): Instant
  {
    StartIn(TaskMap(tasks), id)
  }

  /**
   * Whenever `order[j]` was already ready when `order[i]` was taken (all its
   * known dependencies lie in `order[..i]`), `order[i]` does not start later.
   */
  ghost predicate GreedyByStart(tasks: seq<SettlementTask>, order: seq<Id>)
  {
    forall i, j :: 0 <= i < j < |order| && Ready(tasks, order[j], Elems(order[..i])) ==>
      StartOf(tasks, order[i]) <= StartOf(tasks, order[j])
  }

  predicate SortedByStart(taskMap: map<Id, SettlementTask>, s: seq<Id>)
  {
    forall i, j :: 0 <= i < j < |s| ==> StartIn(taskMap, s[i]) <= StartIn(taskMap, s[j])
  }

  /** A non-empty set of known ids each of which depends on another member: no task in it can ever become ready. */
  ghost predicate Stuck(tasks: seq<SettlementTask>, s: set<Id>)
  {
    s != {} && s <= Ids(tasks) && forall v {:trigger WaitsWithin(tasks, s, v)} :: v in s ==> WaitsWithin(tasks, s, v)
  }

  /** `v` depends on some member of `s`. */
  ghost predicate WaitsWithin(tasks: seq<SettlementTask>, s: set<Id>, v: Id)
  {
    exists a :: a in s && DependsOn(tasks, v, a)
  }

  /** `tasks.filter(t => !result.includes(t.docId)).map(t => t.docId)`. */
  function Leftover(tasks: seq<SettlementTask>, result: seq<Id>): (r: seq<Id>)
    ensures forall x :: x in r <==> x in Ids(tasks) && x !in result
  {
    if tasks == [] then []
    else
      var rest := Leftover(tasks[1..], result);
      assert forall x :: x in Ids(tasks) <==> x == tasks[0].id || x in Ids(tasks[1..]) by {
        forall x | x in Ids(tasks) ensures x == tasks[0].id || x in Ids(tasks[1..]) {
          var i :| 0 <= i < |tasks| && tasks[i].id == x;
          if i > 0 { assert tasks[1..][i - 1].id == x; }
        }
        forall x | x in Ids(tasks[1..]) ensures x in Ids(tasks) {
          var i :| 0 <= i < |tasks[1..]| && tasks[1..][i].id == x;
          assert tasks[i + 1].id == x;
        }
      }
      if tasks[0].id in result then rest else [tasks[0].id] + rest
  }

  // ---------------------------------------------------------------------------
  // The graph (`buildGraph`)
  // ---------------------------------------------------------------------------

  /** The edges contributed by one task's dependency list, in list order. */
  function DepEdges(to: Id, deps: seq<Id>, known: set<Id>): seq<Edge>
  {
    if deps == [] then []
    else
      DepEdges(to, deps[..|deps| - 1], known)
      + (if deps[|deps| - 1] in known then [Edge(deps[|deps| - 1], to)] else [])
  }

  /** All edges, in the order the edge loop visits them. */
  function EdgesOf(tasks: seq<SettlementTask>, known: set<Id>): seq<Edge>
  {
    if tasks == [] then []
    else
      var last := tasks[|tasks| - 1];
      EdgesOf(tasks[..|tasks| - 1], known) + DepEdges(last.id, last.dependsOnTaskIds, known)
  }

  function Edges(tasks: seq<SettlementTask>): seq<Edge>
  {
    EdgesOf(tasks, Ids(tasks))
  }

  /** The adjacency list of `a`: the targets of its out-edges, with multiplicity, in edge order. */
  function Targets(es: seq<Edge>, a: Id): seq<Id>
  {
    if es == [] then []
    else Targets(es[..|es| - 1], a) + (if es[|es| - 1].from == a then [es[|es| - 1].to] else [])
  }

  /** Number of edges into `v`. */
  function CountInto(es: seq<Edge>, v: Id): nat
  {
    if es == [] then 0
    else CountInto(es[..|es| - 1], v) + (if es[|es| - 1].to == v then 1 else 0)
  }

  /** Number of edges into `v` whose source is in `done`. */
  function CountFrom(es: seq<Edge>, done: set<Id>, v: Id): nat
  {
    if es == [] then 0
    else CountFrom(es[..|es| - 1], done, v) + (if es[|es| - 1].to == v && es[|es| - 1].from in done then 1 else 0)
  }

  function Occurrences(s: seq<Id>, v: Id): nat
  {
    if s == [] then 0
    else Occurrences(s[..|s| - 1], v) + (if s[|s| - 1] == v then 1 else 0)
  }

  /** The distinct ids in order of first occurrence: the iteration order of the `inDegree` map. */
  function Keys(tasks: seq<SettlementTask>): (k: seq<Id>)
    ensures Distinct(k)
    ensures forall x :: x in k <==> x in Ids(tasks)
  {
    if tasks == [] then []
    else
      var init := tasks[..|tasks| - 1];
      var last := tasks[|tasks| - 1];
      var k0 := Keys(init);
      IdsSnoc(tasks);
      if last.id in k0 then k0 else k0 + [last.id]
  }

  lemma IdsSnoc(tasks: seq<SettlementTask>)
    requires tasks != []
    ensures Ids(tasks) == Ids(tasks[..|tasks| - 1]) + {tasks[|tasks| - 1].id}
  {
    var init := tasks[..|tasks| - 1];
    forall x | x in Ids(tasks) ensures x in Ids(init) + {tasks[|tasks| - 1].id} {
      var i :| 0 <= i < |tasks| && tasks[i].id == x;
      if i < |init| { assert init[i].id == x; }
    }
    forall x | x in Ids(init) ensures x in Ids(tasks) {
      var i :| 0 <= i < |init| && init[i].id == x;
      assert tasks[i].id == x;
    }
  }

  lemma {:induction false} DepEdgesMember(to: Id, deps: seq<Id>, known: set<Id>, e: Edge)
    ensures e in DepEdges(to, deps, known) <==> e.to == to && e.from in deps && e.from in known
    decreases |deps|
  {
    if deps != [] {
      var init := deps[..|deps| - 1];
      DepEdgesMember(to, init, known, e);
      assert deps == init + [deps[|deps| - 1]];
    }
  }

  lemma {:induction false} EdgesOfMember(tasks: seq<SettlementTask>, known: set<Id>, e: Edge)
    ensures e in EdgesOf(tasks, known) <==>
      e.from in known && exists i :: 0 <= i < |tasks| && tasks[i].id == e.to && e.from in tasks[i].dependsOnTaskIds
    decreases |tasks|
  {
    if tasks != [] {
      var init := tasks[..|tasks| - 1];
      var last := tasks[|tasks| - 1];
      EdgesOfMember(init, known, e);
      DepEdgesMember(last.id, last.dependsOnTaskIds, known, e);
      assert EdgesOf(tasks, known) == EdgesOf(init, known) + DepEdges(last.id, last.dependsOnTaskIds, known);
      if e in EdgesOf(init, known) {
        var i :| 0 <= i < |init| && init[i].id == e.to && e.from in init[i].dependsOnTaskIds;
        assert tasks[i] == init[i];
      } else if e in DepEdges(last.id, last.dependsOnTaskIds, known) {
        assert tasks[|tasks| - 1] == last;
      }
      if e.from in known && exists i :: 0 <= i < |tasks| && tasks[i].id == e.to && e.from in tasks[i].dependsOnTaskIds {
        var i :| 0 <= i < |tasks| && tasks[i].id == e.to && e.from in tasks[i].dependsOnTaskIds;
        if i < |init| {
          assert init[i] == tasks[i];
        } else {
          assert tasks[i] == last;
        }
      }
    }
  }

  /** The edge set is exactly the known dependency relation: unknown dependency ids contribute no edge. */
  lemma EdgesMember(tasks: seq<SettlementTask>, e: Edge)
    ensures e in Edges(tasks) <==> DependsOn(tasks, e.to, e.from)
  {
    EdgesOfMember(tasks, Ids(tasks), e);
  }

  lemma {:induction false} TargetsMember(es: seq<Edge>, a: Id, v: Id)
    ensures v in Targets(es, a) <==> Edge(a, v) in es
    decreases |es|
  {
    if es != [] {
      var init := es[..|es| - 1];
      TargetsMember(init, a, v);
      assert es == init + [es[|es| - 1]];
    }
  }

  lemma {:induction false} OccurrencesTargets(es: seq<Edge>, a: Id, v: Id)
    ensures Occurrences(Targets(es, a), v) == CountFrom(es, {a}, v)
    decreases |es|
  {
    if es != [] {
      var init := es[..|es| - 1];
      var last := es[|es| - 1];
      OccurrencesTargets(init, a, v);
      var t := Targets(init, a);
      if last.from == a {
        assert Targets(es, a) == t + [last.to];
        assert (t + [last.to])[..|t|] == t;
      } else {
        assert Targets(es, a) == t;
      }
    }
  }

  lemma {:induction false} CountFromSplit(es: seq<Edge>, done: set<Id>, a: Id, v: Id)
    requires a !in done
    ensures CountFrom(es, done + {a}, v) == CountFrom(es, done, v) + CountFrom(es, {a}, v)
    decreases |es|
  {
    if es != [] {
      CountFromSplit(es[..|es| - 1], done, a, v);
    }
  }

  lemma {:induction false} CountFromEmpty(es: seq<Edge>, v: Id)
    ensures CountFrom(es, {}, v) == 0
    decreases |es|
  {
    if es != [] {
      CountFromEmpty(es[..|es| - 1], v);
    }
  }

  lemma {:induction false} CountFromBound(es: seq<Edge>, done: set<Id>, v: Id)
    ensures CountFrom(es, done, v) <= CountInto(es, v)
    ensures CountFrom(es, done, v) == CountInto(es, v) <==>
      forall k :: 0 <= k < |es| && es[k].to == v ==> es[k].from in done
    decreases |es|
  {
    if es != [] {
      var init := es[..|es| - 1];
      CountFromBound(init, done, v);
      assert forall k :: 0 <= k < |init| ==> init[k] == es[k];
    }
  }

  /** The in-degree left after emitting `done` is zero exactly when the task is ready. */
  lemma DegreeZero(tasks: seq<SettlementTask>, done: set<Id>, v: Id)
    ensures CountFrom(Edges(tasks), done, v) <= CountInto(Edges(tasks), v)
    ensures CountInto(Edges(tasks), v) - CountFrom(Edges(tasks), done, v) == 0 <==> Ready(tasks, v, done)
  {
    var es := Edges(tasks);
    CountFromBound(es, done, v);
    if Ready(tasks, v, done) {
      forall k | 0 <= k < |es| && es[k].to == v ensures es[k].from in done {
        EdgesMember(tasks, es[k]);
      }
    }
    if forall k :: 0 <= k < |es| && es[k].to == v ==> es[k].from in done {
      forall a | DependsOn(tasks, v, a) ensures a in done {
        EdgesMember(tasks, Edge(a, v));
        var k :| 0 <= k < |es| && es[k] == Edge(a, v);
      }
    }
  }

  // ---------------------------------------------------------------------------
  // Sorting and merging by start (`sortByStartDate`, `compareByStartDate`, the merge loop)
  // ---------------------------------------------------------------------------

  /** `compareByStartDate`: negative, zero or positive as `a` starts before, with or after `b`. */
  function CompareByStart(taskMap: map<Id, SettlementTask>, a: Id, b: Id): (c: int)
    ensures c < 0 <==> StartIn(taskMap, a) < StartIn(taskMap, b)
    ensures c == 0 <==> StartIn(taskMap, a) == StartIn(taskMap, b)
  {
    StartIn(taskMap, a) - StartIn(taskMap, b)
  }

  function InsertId(taskMap: map<Id, SettlementTask>, x: Id, s: seq<Id>): seq<Id>
  {
    if s == [] || CompareByStart(taskMap, x, s[0]) <= 0 then [x] + s
    else [s[0]] + InsertId(taskMap, x, s[1..])
  }

  /** `ids.sort(compareByStartDate)`: `Array.prototype.sort` is stable, modelled as an insertion sort. */
  function SortIds(taskMap: map<Id, SettlementTask>, s: seq<Id>): seq<Id>
  {
    if s == [] then [] else InsertId(taskMap, s[0], SortIds(taskMap, s[1..]))
  }

  /** The two-pointer merge: on equal starts the element already queued goes first. */
  function Merge(taskMap: map<Id, SettlementTask>, q: seq<Id>, n: seq<Id>): seq<Id>
    decreases |q| + |n|
  {
    if q == [] then n
    else if n == [] then q
    else if CompareByStart(taskMap, q[0], n[0]) <= 0 then [q[0]] + Merge(taskMap, q[1..], n)
    else [n[0]] + Merge(taskMap, q, n[1..])
  }

  lemma SortedCons(taskMap: map<Id, SettlementTask>, h: Id, t: seq<Id>)
    requires SortedByStart(taskMap, t)
    requires forall k :: 0 <= k < |t| ==> StartIn(taskMap, h) <= StartIn(taskMap, t[k])
    ensures SortedByStart(taskMap, [h] + t)
  {
    forall i, j | 0 <= i < j < |[h] + t|
      ensures StartIn(taskMap, ([h] + t)[i]) <= StartIn(taskMap, ([h] + t)[j])
    {
      assert ([h] + t)[j] == t[j - 1];
      if i > 0 { assert ([h] + t)[i] == t[i - 1]; }
    }
  }

  lemma {:induction false} InsertIdMultiset(taskMap: map<Id, SettlementTask>, x: Id, s: seq<Id>)
    ensures multiset(InsertId(taskMap, x, s)) == multiset(s) + multiset{x}
    decreases |s|
  {
    if s != [] && CompareByStart(taskMap, x, s[0]) > 0 {
      InsertIdMultiset(taskMap, x, s[1..]);
      assert s == [s[0]] + s[1..];
    }
  }

  lemma {:induction false} InsertIdSorted(taskMap: map<Id, SettlementTask>, x: Id, s: seq<Id>)
    requires SortedByStart(taskMap, s)
    ensures SortedByStart(taskMap, InsertId(taskMap, x, s))
    decreases |s|
  {
    if s == [] {
    } else if CompareByStart(taskMap, x, s[0]) <= 0 {
      SortedCons(taskMap, x, s);
    } else {
      InsertIdSorted(taskMap, x, s[1..]);
      InsertIdMultiset(taskMap, x, s[1..]);
      var t := InsertId(taskMap, x, s[1..]);
      forall k | 0 <= k < |t| ensures StartIn(taskMap, s[0]) <= StartIn(taskMap, t[k]) {
        assert t[k] in multiset(t);
        if t[k] != x {
          assert t[k] in multiset(s[1..]);
          var m :| 0 <= m < |s[1..]| && s[1..][m] == t[k];
          assert s[m + 1] == t[k];
        }
      }
      SortedCons(taskMap, s[0], t);
    }
  }

  lemma {:induction false} SortIdsFacts(taskMap: map<Id, SettlementTask>, s: seq<Id>)
    ensures SortedByStart(taskMap, SortIds(taskMap, s))
    ensures multiset(SortIds(taskMap, s)) == multiset(s)
    decreases |s|
  {
    if s != [] {
      SortIdsFacts(taskMap, s[1..]);
      InsertIdSorted(taskMap, s[0], SortIds(taskMap, s[1..]));
      InsertIdMultiset(taskMap, s[0], SortIds(taskMap, s[1..]));
      assert s == [s[0]] + s[1..];
    }
  }

  lemma {:induction false} MergeMultiset(taskMap: map<Id, SettlementTask>, q: seq<Id>, n: seq<Id>)
    ensures multiset(Merge(taskMap, q, n)) == multiset(q) + multiset(n)
    decreases |q| + |n|
  {
    if q != [] && n != [] {
      assert q == [q[0]] + q[1..];
      assert n == [n[0]] + n[1..];
      if CompareByStart(taskMap, q[0], n[0]) <= 0 {
        MergeMultiset(taskMap, q[1..], n);
      } else {
        MergeMultiset(taskMap, q, n[1..]);
      }
    }
  }

  /** Every element of `s` starts no earlier than `x`. */
  lemma LowerBound(taskMap: map<Id, SettlementTask>, x: Id, s: seq<Id>, r: seq<Id>)
    requires forall k :: 0 <= k < |s| ==> StartIn(taskMap, x) <= StartIn(taskMap, s[k])
    requires multiset(r) <= multiset(s)
    ensures forall k :: 0 <= k < |r| ==> StartIn(taskMap, x) <= StartIn(taskMap, r[k])
  {
    forall k | 0 <= k < |r| ensures StartIn(taskMap, x) <= StartIn(taskMap, r[k]) {
      assert r[k] in multiset(r);
      assert r[k] in multiset(s);
      var m :| 0 <= m < |s| && s[m] == r[k];
    }
  }

  lemma {:induction false} MergeSorted(taskMap: map<Id, SettlementTask>, q: seq<Id>, n: seq<Id>)
    requires SortedByStart(taskMap, q) && SortedByStart(taskMap, n)
    ensures SortedByStart(taskMap, Merge(taskMap, q, n))
    decreases |q| + |n|
  {
    if q != [] && n != [] {
      if CompareByStart(taskMap, q[0], n[0]) <= 0 {
        MergeSorted(taskMap, q[1..], n);
        MergeMultiset(taskMap, q[1..], n);
        var r := Merge(taskMap, q[1..], n);
        LowerBound(taskMap, q[0], q[1..] + n, r);
        SortedCons(taskMap, q[0], r);
      } else {
        MergeSorted(taskMap, q, n[1..]);
        MergeMultiset(taskMap, q, n[1..]);
        var r := Merge(taskMap, q, n[1..]);
        LowerBound(taskMap, n[0], q + n[1..], r);
        SortedCons(taskMap, n[0], r);
      }
    }
  }

  /** `x` occurs somewhere before `y` in `s`. */
  predicate Precedes(s: seq<Id>, x: Id, y: Id)
  {
    exists i, j :: 0 <= i < j < |s| && s[i] == x && s[j] == y
  }

  lemma PrecedesCons(h: Id, s: seq<Id>, x: Id, y: Id)
    requires Precedes(s, x, y)
    ensures Precedes([h] + s, x, y)
  {
    var i, j :| 0 <= i < j < |s| && s[i] == x && s[j] == y;
    assert ([h] + s)[i + 1] == x && ([h] + s)[j + 1] == y;
  }

  lemma PrecedesHead(h: Id, s: seq<Id>, y: Id)
    requires y in s
    ensures Precedes([h] + s, h, y)
  {
    var j :| 0 <= j < |s| && s[j] == y;
    assert ([h] + s)[0] == h && ([h] + s)[j + 1] == y;
  }

  lemma {:induction false} InsertIdKeepsOrder(taskMap: map<Id, SettlementTask>, x: Id, s: seq<Id>, a: Id, b: Id)
    requires Precedes(s, a, b)
    ensures Precedes(InsertId(taskMap, x, s), a, b)
    decreases |s|
  {
    if CompareByStart(taskMap, x, s[0]) <= 0 {
      PrecedesCons(x, s, a, b);
    } else {
      var i, j :| 0 <= i < j < |s| && s[i] == a && s[j] == b;
      InsertIdMultiset(taskMap, x, s[1..]);
      if i == 0 {
        assert b == s[1..][j - 1];
        assert b in multiset(InsertId(taskMap, x, s[1..]));
        PrecedesHead(s[0], InsertId(taskMap, x, s[1..]), b);
      } else {
        assert s[1..][i - 1] == a && s[1..][j - 1] == b;
        InsertIdKeepsOrder(taskMap, x, s[1..], a, b);
        PrecedesCons(s[0], InsertId(taskMap, x, s[1..]), a, b);
      }
    }
  }

  /** The inserted id goes before every id with the same start. */
  lemma {:induction false} InsertIdBeforeEqual(taskMap: map<Id, SettlementTask>, x: Id, s: seq<Id>, y: Id)
    requires y in s && StartIn(taskMap, x) == StartIn(taskMap, y)
    ensures Precedes(InsertId(taskMap, x, s), x, y)
    decreases |s|
  {
    if CompareByStart(taskMap, x, s[0]) <= 0 {
      PrecedesHead(x, s, y);
    } else {
      assert y != s[0] && y in s[1..];
      InsertIdBeforeEqual(taskMap, x, s[1..], y);
      PrecedesCons(s[0], InsertId(taskMap, x, s[1..]), x, y);
    }
  }

  /** `sortByStartDate` is stable: ids with equal starts keep their relative order. */
  lemma {:induction false} SortIdsStable(taskMap: map<Id, SettlementTask>, s: seq<Id>, a: Id, b: Id)
    requires Precedes(s, a, b) && a != b && StartIn(taskMap, a) == StartIn(taskMap, b)
    ensures Precedes(SortIds(taskMap, s), a, b)
    decreases |s|
  {
    var i, j :| 0 <= i < j < |s| && s[i] == a && s[j] == b;
    var rest := SortIds(taskMap, s[1..]);
    SortIdsFacts(taskMap, s[1..]);
    if i == 0 {
      assert b == s[1..][j - 1];
      assert b in multiset(rest);
      InsertIdBeforeEqual(taskMap, a, rest, b);
    } else {
      assert s[1..][i - 1] == a && s[1..][j - 1] == b;
      SortIdsStable(taskMap, s[1..], a, b);
      InsertIdKeepsOrder(taskMap, s[0], rest, a, b);
    }
  }

  /** On equal starts the merge puts the id that was already queued first. */
  lemma {:induction false} MergeQueuedFirst(taskMap: map<Id, SettlementTask>, q: seq<Id>, n: seq<Id>, x: Id, y: Id)
    requires SortedByStart(taskMap, q)
    requires x in q && y in n && StartIn(taskMap, x) == StartIn(taskMap, y)
    ensures Precedes(Merge(taskMap, q, n), x, y)
    decreases |q| + |n|
  {
    if CompareByStart(taskMap, q[0], n[0]) <= 0 {
      MergeMultiset(taskMap, q[1..], n);
      var r := Merge(taskMap, q[1..], n);
      if x == q[0] {
        assert y in multiset(r);
        PrecedesHead(q[0], r, y);
      } else {
        assert x in q[1..];
        assert SortedByStart(taskMap, q[1..]) by { SortedTail(taskMap, q); }
        MergeQueuedFirst(taskMap, q[1..], n, x, y);
        PrecedesCons(q[0], r, x, y);
      }
    } else {
      var k :| 0 <= k < |q| && q[k] == x;
      assert StartIn(taskMap, q[0]) <= StartIn(taskMap, x) by {
        if k > 0 { assert StartIn(taskMap, q[0]) <= StartIn(taskMap, q[k]); }
      }
      assert y != n[0] && y in n[1..];
      MergeQueuedFirst(taskMap, q, n[1..], x, y);
      PrecedesCons(n[0], Merge(taskMap, q, n[1..]), x, y);
    }
  }

  lemma MergeUnfold(taskMap: map<Id, SettlementTask>, q: seq<Id>, n: seq<Id>, qi: nat, ni: nat)
    requires qi <= |q| && ni <= |n|
    ensures qi < |q| && ni < |n| && CompareByStart(taskMap, q[qi], n[ni]) <= 0 ==>
      Merge(taskMap, q[qi..], n[ni..]) == [q[qi]] + Merge(taskMap, q[qi + 1..], n[ni..])
    ensures qi < |q| && ni < |n| && CompareByStart(taskMap, q[qi], n[ni]) > 0 ==>
      Merge(taskMap, q[qi..], n[ni..]) == [n[ni]] + Merge(taskMap, q[qi..], n[ni + 1..])
    ensures qi < |q| && ni == |n| ==> Merge(taskMap, q[qi..], n[ni..]) == [q[qi]] + Merge(taskMap, q[qi + 1..], n[ni..])
    ensures qi == |q| ==> Merge(taskMap, q[qi..], n[ni..]) == n[ni..]
  {
    if qi < |q| {
      assert q[qi..][1..] == q[qi + 1..];
    }
    if ni < |n| {
      assert n[ni..][1..] == n[ni + 1..];
    }
    if qi < |q| && ni == |n| {
      assert n[ni..] == [];
      if qi + 1 == |q| {
        assert q[qi + 1..] == [];
      }
    }
  }

  /** The merge loop of `topologicalSort`, lines 79-92. */
  method MergeByStart(taskMap: map<Id, SettlementTask>, queue: seq<Id>, newRoots: seq<Id>) returns (merged: seq<Id>)
    ensures merged == Merge(taskMap, queue, newRoots)
  {
    merged := [];
    var qi, ni := 0, 0;
    assert queue[qi..] == queue && newRoots[ni..] == newRoots;
    while qi < |queue| && ni < |newRoots|
      invariant 0 <= qi <= |queue| && 0 <= ni <= |newRoots|
      invariant merged + Merge(taskMap, queue[qi..], newRoots[ni..]) == Merge(taskMap, queue, newRoots)
      decreases |queue| - qi + |newRoots| - ni
    {
      merged, qi, ni := MergeStep(taskMap, queue, newRoots, merged, qi, ni);
    }
    MergeUnfold(taskMap, queue, newRoots, qi, ni);
    if ni == |newRoots| {
      assert newRoots[ni..] == [];
      if qi < |queue| {
        assert Merge(taskMap, queue[qi..], []) == queue[qi..];
      }
    }
    ghost var before := merged;
    merged := PushAll(merged, queue, qi);
    merged := PushAll(merged, newRoots, ni);
    assert merged == before + (queue[qi..] + newRoots[ni..]);
  }

  /** One comparison of the merge loop: the earlier of the two heads moves to `merged`. */
  method MergeStep(taskMap: map<Id, SettlementTask>, queue: seq<Id>, newRoots: seq<Id>, merged: seq<Id>, qi: nat, ni: nat)
    returns (merged': seq<Id>, qi': nat, ni': nat)
    requires qi < |queue| && ni < |newRoots|
    requires merged + Merge(taskMap, queue[qi..], newRoots[ni..]) == Merge(taskMap, queue, newRoots)
    ensures qi' <= |queue| && ni' <= |newRoots| && qi' + ni' == qi + ni + 1 && qi <= qi' && ni <= ni'
    ensures merged' + Merge(taskMap, queue[qi'..], newRoots[ni'..]) == Merge(taskMap, queue, newRoots)
  {
    MergeUnfold(taskMap, queue, newRoots, qi, ni);
    if CompareByStart(taskMap, queue[qi], newRoots[ni]) <= 0 {
      merged', qi', ni' := merged + [queue[qi]], qi + 1, ni;
      assert merged + ([queue[qi]] + Merge(taskMap, queue[qi + 1..], newRoots[ni..]))
        == merged' + Merge(taskMap, queue[qi + 1..], newRoots[ni..]);
    } else {
      merged', qi', ni' := merged + [newRoots[ni]], qi, ni + 1;
      assert merged + ([newRoots[ni]] + Merge(taskMap, queue[qi..], newRoots[ni + 1..]))
        == merged' + Merge(taskMap, queue[qi..], newRoots[ni + 1..]);
    }
  }

  /** `while (i < s.length) merged.push(s[i++])`. */
  method PushAll(merged: seq<Id>, s: seq<Id>, from: nat) returns (r: seq<Id>)
    requires from <= |s|
    ensures r == merged + s[from..]
  {
    r := merged;
    var i := from;
    while i < |s|
      invariant from <= i <= |s|
      invariant r == merged + s[from..i]
    {
      r := r + [s[i]];
      assert s[from..i + 1] == s[from..i] + [s[i]];
      i := i + 1;
    }
    assert s[from..|s|] == s[from..];
  }

  // ---------------------------------------------------------------------------
  // `buildGraph`
  // ---------------------------------------------------------------------------

  lemma TargetsSnoc(es: seq<Edge>, e: Edge, a: Id)
    ensures Targets(es + [e], a) == Targets(es, a) + (if e.from == a then [e.to] else [])
  {
    assert (es + [e])[..|es|] == es;
  }

  lemma CountIntoSnoc(es: seq<Edge>, e: Edge, v: Id)
    ensures CountInto(es + [e], v) == CountInto(es, v) + (if e.to == v then 1 else 0)
  {
    assert (es + [e])[..|es|] == es;
  }

  lemma DepEdgesSnoc(to: Id, deps: seq<Id>, j: nat, known: set<Id>)
    requires j < |deps|
    ensures DepEdges(to, deps[..j + 1], known)
      == DepEdges(to, deps[..j], known) + (if deps[j] in known then [Edge(deps[j], to)] else [])
  {
    assert deps[..j + 1][..j] == deps[..j];
  }

  /** The inner edge loop of `buildGraph` for one task (lines 31-35). */
  method AddTaskEdges(taskIds: set<Id>, task: SettlementTask, adjacency: map<Id, seq<Id>>, inDegree: map<Id, int>,
                      ghost done: seq<Edge>)
    returns (adj: map<Id, seq<Id>>, deg: map<Id, int>)
    requires task.id in taskIds && adjacency.Keys == taskIds && inDegree.Keys == taskIds
    requires forall a :: a in adjacency ==> adjacency[a] == Targets(done, a)
    requires forall v :: v in inDegree ==> inDegree[v] == CountInto(done, v)
    ensures adj.Keys == taskIds && deg.Keys == taskIds
    ensures forall a :: a in adj ==> adj[a] == Targets(done + DepEdges(task.id, task.dependsOnTaskIds, taskIds), a)
    ensures forall v :: v in deg ==> deg[v] == CountInto(done + DepEdges(task.id, task.dependsOnTaskIds, taskIds), v)
  {
    adj, deg := adjacency, inDegree;
    var deps := task.dependsOnTaskIds;
    ghost var es := done;
    assert deps[..0] == [] && done + DepEdges(task.id, [], taskIds) == done;
    for j := 0 to |deps|
      invariant es == done + DepEdges(task.id, deps[..j], taskIds)
      invariant adj.Keys == taskIds && deg.Keys == taskIds
      invariant forall a :: a in adj ==> adj[a] == Targets(es, a)
      invariant forall v :: v in deg ==> deg[v] == CountInto(es, v)
    {
      adj, deg, es := AddDependency(taskIds, task, j, adj, deg, done, es);
    }
    assert deps[..|deps|] == deps;
  }

  /** One iteration of the edge loop: dependency `j` of `task` adds an edge when it names a known task. */
  method AddDependency(taskIds: set<Id>, task: SettlementTask, j: nat, adjacency: map<Id, seq<Id>>,
                       inDegree: map<Id, int>, ghost done: seq<Edge>, ghost es: seq<Edge>)
    returns (adj: map<Id, seq<Id>>, deg: map<Id, int>, ghost es': seq<Edge>)
    requires task.id in taskIds && j < |task.dependsOnTaskIds|
    requires es == done + DepEdges(task.id, task.dependsOnTaskIds[..j], taskIds)
    requires adjacency.Keys == taskIds && inDegree.Keys == taskIds
    requires forall a :: a in adjacency ==> adjacency[a] == Targets(es, a)
    requires forall v :: v in inDegree ==> inDegree[v] == CountInto(es, v)
    ensures es' == done + DepEdges(task.id, task.dependsOnTaskIds[..j + 1], taskIds)
    ensures adj.Keys == taskIds && deg.Keys == taskIds
    ensures forall a :: a in adj ==> adj[a] == Targets(es', a)
    ensures forall v :: v in deg ==> deg[v] == CountInto(es', v)
  {
    var deps := task.dependsOnTaskIds;
    DepEdgesSnoc(task.id, deps, j, taskIds);
    ghost var before := DepEdges(task.id, deps[..j], taskIds);
    adj, deg, es' := adjacency, inDegree, es;
    var dep := deps[j];
    if dep in taskIds {
      var e := Edge(dep, task.id);
      adj, deg := AddEdge(taskIds, adj, deg, es, e);
      assert (done + before) + [e] == done + (before + [e]);
      es' := es + [e];
    }
  }

  /** One edge `dep -> task.id`: appended to the adjacency list of `dep`, counted in the degree of `task.id`. */
  method AddEdge(taskIds: set<Id>, adjacency: map<Id, seq<Id>>, inDegree: map<Id, int>, ghost es: seq<Edge>, e: Edge)
    returns (adj: map<Id, seq<Id>>, deg: map<Id, int>)
    requires e.from in taskIds && e.to in taskIds && adjacency.Keys == taskIds && inDegree.Keys == taskIds
    requires forall a :: a in adjacency ==> adjacency[a] == Targets(es, a)
    requires forall v :: v in inDegree ==> inDegree[v] == CountInto(es, v)
    ensures adj.Keys == taskIds && deg.Keys == taskIds
    ensures forall a :: a in adj ==> adj[a] == Targets(es + [e], a)
    ensures forall v :: v in deg ==> deg[v] == CountInto(es + [e], v)
  {
    adj := adjacency[e.from := adjacency[e.from] + [e.to]];
    deg := inDegree[e.to := inDegree[e.to] + 1];
    forall a | a in adj ensures adj[a] == Targets(es + [e], a) {
      TargetsSnoc(es, e, a);
    }
    forall v | v in deg ensures deg[v] == CountInto(es + [e], v) {
      CountIntoSnoc(es, e, v);
    }
  }

  /** The initialisation loop of `buildGraph` (lines 22-25); `keys` records the maps' insertion order. */
  method InitGraph(tasks: seq<SettlementTask>)
    returns (keys: seq<Id>, adjacency: map<Id, seq<Id>>, inDegree: map<Id, int>)
    ensures keys == Keys(tasks)
    ensures adjacency.Keys == Ids(tasks) && inDegree.Keys == Ids(tasks)
    ensures forall a :: a in adjacency ==> adjacency[a] == []
    ensures forall v :: v in inDegree ==> inDegree[v] == 0
  {
    keys, adjacency, inDegree := [], map[], map[];
    for i := 0 to |tasks|
      invariant keys == Keys(tasks[..i])
      invariant adjacency.Keys == Ids(tasks[..i]) && inDegree.Keys == Ids(tasks[..i])
      invariant forall a :: a in adjacency ==> adjacency[a] == []
      invariant forall v :: v in inDegree ==> inDegree[v] == 0
    {
      var id := tasks[i].id;
      assert tasks[..i + 1][..i] == tasks[..i];
      IdsSnoc(tasks[..i + 1]);
      if id !in inDegree {
        keys := keys + [id];
      }
      adjacency := adjacency[id := []];
      inDegree := inDegree[id := 0];
    }
    assert tasks[..|tasks|] == tasks;
  }

  /**
   * `buildGraph`: every id gets an adjacency list and an in-degree; an edge
   * `dep -> task` is added for every listed dependency that is a known id,
   * once per listing.
   */
  method BuildGraph(tasks: seq<SettlementTask>)
    returns (keys: seq<Id>, adjacency: map<Id, seq<Id>>, inDegree: map<Id, int>)
    ensures keys == Keys(tasks)
    ensures adjacency.Keys == Ids(tasks) && inDegree.Keys == Ids(tasks)
    ensures forall a :: a in adjacency ==> adjacency[a] == Targets(Edges(tasks), a)
    ensures forall v :: v in inDegree ==> inDegree[v] == CountInto(Edges(tasks), v)
  {
    keys, adjacency, inDegree := InitGraph(tasks);
    var taskIds := Ids(tasks);
    for i := 0 to |tasks|
      invariant adjacency.Keys == taskIds && inDegree.Keys == taskIds
      invariant forall a :: a in adjacency ==> adjacency[a] == Targets(EdgesOf(tasks[..i], taskIds), a)
      invariant forall v :: v in inDegree ==> inDegree[v] == CountInto(EdgesOf(tasks[..i], taskIds), v)
    {
      assert tasks[..i + 1][..i] == tasks[..i];
      assert tasks[i].id in taskIds;
      assert EdgesOf(tasks[..i + 1], taskIds)
        == EdgesOf(tasks[..i], taskIds) + DepEdges(tasks[i].id, tasks[i].dependsOnTaskIds, taskIds);
      adjacency, inDegree := AddTaskEdges(taskIds, tasks[i], adjacency, inDegree, EdgesOf(tasks[..i], taskIds));
    }
    assert tasks[..|tasks|] == tasks;
    assert EdgesOf(tasks[..|tasks|], taskIds) == Edges(tasks);
  }

  // ---------------------------------------------------------------------------
  // Finite-set facts
  // ---------------------------------------------------------------------------

  lemma DistinctCons(s: seq<Id>)
    requires s != []
    ensures Distinct(s) <==> s[0] !in s[1..] && Distinct(s[1..])
  {
    if Distinct(s) {
      forall k | 0 <= k < |s[1..]| ensures s[1..][k] != s[0] {
        assert s[1..][k] == s[k + 1];
      }
    }
    if s[0] !in s[1..] && Distinct(s[1..]) {
      forall i, j | 0 <= i < j < |s| ensures s[i] != s[j] {
        assert s[j] == s[1..][j - 1];
        if i > 0 { assert s[i] == s[1..][i - 1]; }
      }
    }
  }

  lemma {:induction false} ElemsCard(s: seq<Id>)
    ensures |Elems(s)| <= |s|
    ensures Distinct(s) <==> |Elems(s)| == |s|
    decreases |s|
  {
    if s != [] {
      ElemsCard(s[1..]);
      DistinctCons(s);
      assert Elems(s) == {s[0]} + Elems(s[1..]);
      if s[0] in s[1..] {
        assert Elems(s) == Elems(s[1..]);
      }
    }
  }

  lemma SubsetCard(a: set<Id>, b: set<Id>)
    requires a <= b
    ensures |a| <= |b|
    ensures |a| == |b| ==> a == b
    decreases a
  {
    if a != {} {
      var x :| x in a;
      SubsetCard(a - {x}, b - {x});
    } else if b != {} {
      var y :| y in b;
      assert |b| >= 1;
    }
  }

  lemma {:induction false} DistinctMultiset(s: seq<Id>)
    ensures Distinct(s) <==> forall x :: multiset(s)[x] <= 1
    decreases |s|
  {
    if s != [] {
      DistinctMultiset(s[1..]);
      DistinctCons(s);
      assert s == [s[0]] + s[1..];
      assert multiset(s) == multiset{s[0]} + multiset(s[1..]);
      if !Distinct(s) {
        if s[0] in s[1..] {
          assert multiset(s)[s[0]] >= 2;
        } else {
          var x :| multiset(s[1..])[x] > 1;
          assert multiset(s)[x] > 1;
        }
      }
    }
  }

  lemma DistinctCount(s: seq<Id>, x: Id)
    requires Distinct(s)
    ensures multiset(s)[x] == if x in s then 1 else 0
  {
    DistinctMultiset(s);
  }

  lemma IdsAsElems(tasks: seq<SettlementTask>)
    ensures Ids(tasks) == Elems(TaskIds(tasks))
  {
    var ids := TaskIds(tasks);
    forall x | x in Ids(tasks) ensures x in Elems(ids) {
      var i :| 0 <= i < |tasks| && tasks[i].id == x;
      assert ids[i] == x;
    }
    forall x | x in Elems(ids) ensures x in Ids(tasks) {
      var i :| 0 <= i < |ids| && ids[i] == x;
      assert tasks[i].id == x;
    }
  }

  lemma IdsCard(tasks: seq<SettlementTask>)
    ensures Ids(tasks) == Elems(TaskIds(tasks))
    ensures |Ids(tasks)| <= |tasks|
    ensures DistinctIds(tasks) <==> |Ids(tasks)| == |tasks|
  {
    var ids := TaskIds(tasks);
    IdsAsElems(tasks);
    ElemsCard(ids);
    DistinctAsIds(tasks);
  }

  lemma DistinctAsIds(tasks: seq<SettlementTask>)
    ensures DistinctIds(tasks) <==> Distinct(TaskIds(tasks))
  {
    var ids := TaskIds(tasks);
    if DistinctIds(tasks) {
      forall i, j | 0 <= i < j < |ids| ensures ids[i] != ids[j] {
        assert ids[i] == tasks[i].id && ids[j] == tasks[j].id;
      }
    }
    if Distinct(ids) {
      forall i, j | 0 <= i < j < |tasks| ensures tasks[i].id != tasks[j].id {
        assert ids[i] == tasks[i].id && ids[j] == tasks[j].id;
      }
    }
  }

  // ---------------------------------------------------------------------------
  // Kahn's algorithm (`topologicalSort`)
  // ---------------------------------------------------------------------------

  /** The ids of `keys` whose degree is zero, in `keys` order. */
  function ZeroDegree(keys: seq<Id>, inDegree: map<Id, int>): (r: seq<Id>)
    requires forall v :: v in keys ==> v in inDegree
    ensures forall v :: v in r <==> v in keys && inDegree[v] == 0
    ensures Distinct(keys) ==> Distinct(r)
  {
    if keys == [] then []
    else
      var init := keys[..|keys| - 1];
      var last := keys[|keys| - 1];
      assert keys == init + [last];
      assert Distinct(keys) ==> Distinct(init) && last !in init;
      ZeroDegree(init, inDegree) + (if inDegree[last] == 0 then [last] else [])
  }

  /** The loop of lines 55-58. */
  method CollectRoots(keys: seq<Id>, inDegree: map<Id, int>) returns (queue: seq<Id>)
    requires forall v :: v in keys ==> v in inDegree
    ensures queue == ZeroDegree(keys, inDegree)
  {
    queue := [];
    for i := 0 to |keys|
      invariant queue == ZeroDegree(keys[..i], inDegree)
    {
      assert keys[..i + 1][..i] == keys[..i];
      if inDegree[keys[i]] == 0 {
        queue := queue + [keys[i]];
      }
    }
    assert keys[..|keys|] == keys;
  }

  /** The neighbour loop of lines 68-74: each listed neighbour loses one degree, and those reaching zero are collected. */
  method DecrementNeighbors(inDegree: map<Id, int>, neighbors: seq<Id>) returns (deg: map<Id, int>, newRoots: seq<Id>)
    requires forall v :: v in neighbors ==> v in inDegree && inDegree[v] >= Occurrences(neighbors, v)
    ensures deg.Keys == inDegree.Keys
    ensures forall v :: v in deg ==> deg[v] == inDegree[v] - Occurrences(neighbors, v)
    ensures Distinct(newRoots)
    ensures forall v :: v in newRoots <==> v in neighbors && deg[v] == 0
  {
    deg, newRoots := inDegree, [];
    for k := 0 to |neighbors|
      invariant deg.Keys == inDegree.Keys
      invariant forall v :: v in deg ==> deg[v] == inDegree[v] - Occurrences(neighbors[..k], v)
      invariant Distinct(newRoots)
      invariant forall v :: v in newRoots <==> v in neighbors[..k] && deg[v] == 0
    {
      var neighbor := neighbors[k];
      assert neighbors[..k + 1] == neighbors[..k] + [neighbor];
      assert neighbors[..k + 1][..k] == neighbors[..k];
      OccurrencesPrefix(neighbors, k + 1, neighbor);
      var newDeg := deg[neighbor] - 1;
      deg := deg[neighbor := newDeg];
      if newDeg == 0 {
        DistinctSnoc(newRoots, neighbor);
        newRoots := newRoots + [neighbor];
      }
    }
    assert neighbors[..|neighbors|] == neighbors;
  }

  lemma {:induction false} OccurrencesPrefix(s: seq<Id>, k: nat, v: Id)
    requires k <= |s|
    ensures Occurrences(s[..k], v) <= Occurrences(s, v)
    decreases |s| - k
  {
    if k < |s| {
      OccurrencesPrefix(s, k + 1, v);
      assert s[..k + 1][..k] == s[..k];
    } else {
      assert s[..k] == s;
    }
  }

  lemma DistinctSnoc(s: seq<Id>, x: Id)
    requires Distinct(s) && x !in s
    ensures Distinct(s + [x])
  {
  }

  ghost predicate QueueState(tasks: seq<SettlementTask>, result: seq<Id>, queue: seq<Id>)
  {
    Distinct(result + queue) && forall v :: v in result + queue ==> v in Ids(tasks)
  }

  /** The remaining in-degree of a node is its number of edges from nodes not yet emitted. */
  ghost predicate DegreeState(tasks: seq<SettlementTask>, deg: map<Id, int>, result: seq<Id>)
  {
    deg.Keys == Ids(tasks)
    && forall v :: v in deg ==> deg[v] == CountInto(Edges(tasks), v) - CountFrom(Edges(tasks), Elems(result), v)
  }

  /** A node has been emitted or is queued exactly when all its known dependencies have been emitted. */
  ghost predicate ReadyState(tasks: seq<SettlementTask>, result: seq<Id>, queue: seq<Id>)
  {
    forall v :: v in Ids(tasks) ==> (v in result + queue <==> Ready(tasks, v, Elems(result)))
  }

  /** No later-taken node that was ready when `result[i]` was taken starts before it. */
  ghost predicate GreedyState(tasks: seq<SettlementTask>, result: seq<Id>, queue: seq<Id>)
  {
    forall i, v :: 0 <= i < |result| && (v in result[i + 1..] || v in queue) && Ready(tasks, v, Elems(result[..i])) ==>
      StartOf(tasks, result[i]) <= StartOf(tasks, v)
  }

  ghost predicate KahnInv(tasks: seq<SettlementTask>, deg: map<Id, int>, result: seq<Id>, queue: seq<Id>)
  {
    && QueueState(tasks, result, queue)
    && DegreeState(tasks, deg, result)
    && ReadyState(tasks, result, queue)
    && GreedyState(tasks, result, queue)
    && SortedByStart(TaskMap(tasks), queue)
    && Topological(tasks, result)
  }

  lemma InitialState(tasks: seq<SettlementTask>, keys: seq<Id>, deg: map<Id, int>, queue: seq<Id>)
    requires keys == Keys(tasks) && deg.Keys == Ids(tasks)
    requires forall v :: v in deg ==> deg[v] == CountInto(Edges(tasks), v)
    requires queue == SortIds(TaskMap(tasks), ZeroDegree(keys, deg))
    ensures KahnInv(tasks, deg, [], queue)
  {
    var roots := ZeroDegree(keys, deg);
    SortIdsFacts(TaskMap(tasks), roots);
    InitialQueue(tasks, keys, deg, queue);
    InitialDegree(tasks, deg);
    InitialReady(tasks, keys, deg, queue);
    assert Topological(tasks, []);
    assert GreedyState(tasks, [], queue);
  }

  lemma InitialQueue(tasks: seq<SettlementTask>, keys: seq<Id>, deg: map<Id, int>, queue: seq<Id>)
    requires keys == Keys(tasks) && deg.Keys == Ids(tasks)
    requires queue == SortIds(TaskMap(tasks), ZeroDegree(keys, deg))
    ensures QueueState(tasks, [], queue)
  {
    var roots := ZeroDegree(keys, deg);
    SortIdsFacts(TaskMap(tasks), roots);
    DistinctMultiset(roots);
    DistinctMultiset(queue);
    assert [] + queue == queue;
    forall v | v in queue ensures v in Ids(tasks) {
      assert v in multiset(queue);
      assert v in roots;
    }
  }

  lemma InitialDegree(tasks: seq<SettlementTask>, deg: map<Id, int>)
    requires deg.Keys == Ids(tasks)
    requires forall v :: v in deg ==> deg[v] == CountInto(Edges(tasks), v)
    ensures DegreeState(tasks, deg, [])
  {
    assert Elems([]) == {};
    forall v | v in deg ensures deg[v] == CountInto(Edges(tasks), v) - CountFrom(Edges(tasks), {}, v) {
      CountFromEmpty(Edges(tasks), v);
    }
  }

  lemma InitialReady(tasks: seq<SettlementTask>, keys: seq<Id>, deg: map<Id, int>, queue: seq<Id>)
    requires keys == Keys(tasks) && deg.Keys == Ids(tasks)
    requires forall v :: v in deg ==> deg[v] == CountInto(Edges(tasks), v)
    requires queue == SortIds(TaskMap(tasks), ZeroDegree(keys, deg))
    ensures ReadyState(tasks, [], queue)
  {
    var roots := ZeroDegree(keys, deg);
    SortIdsFacts(TaskMap(tasks), roots);
    assert Elems([]) == {};
    assert [] + queue == queue;
    forall v | v in Ids(tasks) ensures v in queue <==> Ready(tasks, v, {}) {
      DegreeZero(tasks, {}, v);
      CountFromEmpty(Edges(tasks), v);
      assert v in queue <==> v in multiset(queue);
      assert v in roots <==> v in multiset(roots);
    }
  }

  lemma CurrentFresh(result: seq<Id>, queue: seq<Id>)
    requires queue != [] && Distinct(result + queue)
    ensures queue[0] !in result
    ensures Elems(result + [queue[0]]) == Elems(result) + {queue[0]}
  {
    forall k | 0 <= k < |result| ensures result[k] != queue[0] {
      assert (result + queue)[k] == result[k] && (result + queue)[|result|] == queue[0];
    }
  }

  /** Every neighbour of the queue head is a known node whose degree covers its multiplicity. */
  lemma NeighborsBound(tasks: seq<SettlementTask>, deg: map<Id, int>, result: seq<Id>, queue: seq<Id>)
    requires KahnInv(tasks, deg, result, queue) && queue != []
    ensures forall v :: v in Targets(Edges(tasks), queue[0]) ==>
      v in deg && deg[v] >= Occurrences(Targets(Edges(tasks), queue[0]), v)
  {
    var c := queue[0];
    var es := Edges(tasks);
    CurrentFresh(result, queue);
    forall v | v in Targets(es, c) ensures v in deg && deg[v] >= Occurrences(Targets(es, c), v) {
      TargetsMember(es, c, v);
      EdgesMember(tasks, Edge(c, v));
      var i :| 0 <= i < |tasks| && tasks[i].id == v && c in tasks[i].dependsOnTaskIds;
      assert v in Ids(tasks);
      OccurrencesTargets(es, c, v);
      CountFromSplit(es, Elems(result), c, v);
      CountFromBound(es, Elems(result) + {c}, v);
    }
  }

  lemma StepDegree(tasks: seq<SettlementTask>, deg: map<Id, int>, result: seq<Id>, c: Id, deg': map<Id, int>)
    requires DegreeState(tasks, deg, result) && c !in result
    requires deg'.Keys == deg.Keys
    requires forall v :: v in deg' ==> deg'[v] == deg[v] - Occurrences(Targets(Edges(tasks), c), v)
    ensures DegreeState(tasks, deg', result + [c])
  {
    var es := Edges(tasks);
    assert Elems(result + [c]) == Elems(result) + {c};
    forall v | v in deg' ensures deg'[v] == CountInto(es, v) - CountFrom(es, Elems(result + [c]), v) {
      OccurrencesTargets(es, c, v);
      CountFromSplit(es, Elems(result), c, v);
    }
  }

  /** A node freed by emitting `c` depends on `c`, is ready now and was neither emitted nor queued before. */
  lemma NewRoot(tasks: seq<SettlementTask>, deg: map<Id, int>, result: seq<Id>, queue: seq<Id>, deg': map<Id, int>, v: Id)
    requires KahnInv(tasks, deg, result, queue) && queue != []
    requires DegreeState(tasks, deg', result + [queue[0]])
    requires v in Targets(Edges(tasks), queue[0]) && v in deg' && deg'[v] == 0
    ensures v in Ids(tasks) && DependsOn(tasks, v, queue[0])
    ensures Ready(tasks, v, Elems(result + [queue[0]]))
    ensures !Ready(tasks, v, Elems(result)) && v !in result + queue
  {
    var c := queue[0];
    CurrentFresh(result, queue);
    TargetsMember(Edges(tasks), c, v);
    EdgesMember(tasks, Edge(c, v));
    var i :| 0 <= i < |tasks| && tasks[i].id == v && c in tasks[i].dependsOnTaskIds;
    assert v in Ids(tasks);
    DegreeZero(tasks, Elems(result + [c]), v);
  }

  lemma StepReady(tasks: seq<SettlementTask>, deg: map<Id, int>, result: seq<Id>, queue: seq<Id>,
                  deg': map<Id, int>, newRoots: seq<Id>, queue': seq<Id>)
    requires KahnInv(tasks, deg, result, queue) && queue != []
    requires DegreeState(tasks, deg', result + [queue[0]])
    requires forall v :: v in newRoots <==> v in Targets(Edges(tasks), queue[0]) && v in deg' && deg'[v] == 0
    requires forall v :: v in queue' <==> v in queue[1..] || v in newRoots
    ensures ReadyState(tasks, result + [queue[0]], queue')
  {
    var r' := result + [queue[0]];
    CurrentFresh(result, queue);
    forall v | v in Ids(tasks) ensures v in r' + queue' <==> Ready(tasks, v, Elems(r')) {
      if v in newRoots {
        NewRoot(tasks, deg, result, queue, deg', v);
      }
      StepReadyAt(tasks, deg', result, queue, newRoots, queue', v);
    }
  }

  /** StepReady for one task id `v`, from the facts NewRoot gives about the new roots. */
  lemma StepReadyAt(tasks: seq<SettlementTask>, deg': map<Id, int>, result: seq<Id>, queue: seq<Id>,
                    newRoots: seq<Id>, queue': seq<Id>, v: Id)
    requires queue != [] && queue[0] !in result
    requires ReadyState(tasks, result, queue)
    requires DegreeState(tasks, deg', result + [queue[0]])
    requires v in newRoots <==> v in Targets(Edges(tasks), queue[0]) && v in deg' && deg'[v] == 0
    requires v in newRoots ==> Ready(tasks, v, Elems(result + [queue[0]])) && v !in result + queue
    requires v in queue' <==> v in queue[1..] || v in newRoots
    requires v in Ids(tasks)
    ensures v in result + [queue[0]] + queue' <==> Ready(tasks, v, Elems(result + [queue[0]]))
  {
    var c := queue[0];
    var r' := result + [c];
    assert Elems(r') == Elems(result) + {c};
    assert queue == [c] + queue[1..];
    assert v in r' + queue' <==> v in result + queue || v in newRoots;
    if Ready(tasks, v, Elems(r')) && !Ready(tasks, v, Elems(result)) {
      var a :| DependsOn(tasks, v, a) && a !in Elems(result);
      assert a == c;
      EdgesMember(tasks, Edge(c, v));
      TargetsMember(Edges(tasks), c, v);
      DegreeZero(tasks, Elems(r'), v);
    }
  }

  lemma StepQueue(tasks: seq<SettlementTask>, deg: map<Id, int>, result: seq<Id>, queue: seq<Id>,
                  deg': map<Id, int>, newRoots: seq<Id>, queue': seq<Id>)
    requires KahnInv(tasks, deg, result, queue) && queue != []
    requires DegreeState(tasks, deg', result + [queue[0]])
    requires Distinct(newRoots)
    requires forall v :: v in newRoots <==> v in Targets(Edges(tasks), queue[0]) && v in deg' && deg'[v] == 0
    requires multiset(queue') == multiset(queue[1..]) + multiset(newRoots)
    ensures QueueState(tasks, result + [queue[0]], queue')
  {
    var c := queue[0];
    var all := result + [c] + queue';
    assert queue == [c] + queue[1..];
    assert multiset(all) == multiset(result + queue) + multiset(newRoots);
    DistinctMultiset(result + queue);
    DistinctMultiset(newRoots);
    forall x ensures multiset(all)[x] <= 1 {
      if x in newRoots {
        NewRoot(tasks, deg, result, queue, deg', x);
        assert x !in multiset(result + queue);
      } else {
        assert x !in multiset(newRoots);
      }
    }
    DistinctMultiset(all);
    forall v | v in all ensures v in Ids(tasks) {
      assert v in multiset(all);
      if v in newRoots {
        NewRoot(tasks, deg, result, queue, deg', v);
      } else {
        assert v in multiset(result + queue);
      }
    }
  }

  /** A freshly freed node depends on the head, so it was not ready at any earlier point. */
  lemma NewRootsLate(tasks: seq<SettlementTask>, deg: map<Id, int>, result: seq<Id>, queue: seq<Id>,
                     deg': map<Id, int>, newRoots: seq<Id>)
    requires KahnInv(tasks, deg, result, queue) && queue != []
    requires DegreeState(tasks, deg', result + [queue[0]])
    requires forall v :: v in newRoots <==> v in Targets(Edges(tasks), queue[0]) && v in deg' && deg'[v] == 0
    ensures forall v, i :: v in newRoots && 0 <= i <= |result| ==> !Ready(tasks, v, Elems(result[..i]))
  {
    CurrentFresh(result, queue);
    forall v, i | v in newRoots && 0 <= i <= |result| ensures !Ready(tasks, v, Elems(result[..i])) {
      NewRoot(tasks, deg, result, queue, deg', v);
      assert queue[0] !in result[..i];
    }
  }

  lemma StepGreedy(tasks: seq<SettlementTask>, result: seq<Id>, queue: seq<Id>, newRoots: seq<Id>, queue': seq<Id>)
    requires queue != [] && GreedyState(tasks, result, queue) && SortedByStart(TaskMap(tasks), queue)
    requires forall v :: v in queue' <==> v in queue[1..] || v in newRoots
    requires forall v, i :: v in newRoots && 0 <= i <= |result| ==> !Ready(tasks, v, Elems(result[..i]))
    ensures GreedyState(tasks, result + [queue[0]], queue')
  {
    var c := queue[0];
    var r' := result + [c];
    forall i, v | 0 <= i < |r'| && (v in r'[i + 1..] || v in queue') && Ready(tasks, v, Elems(r'[..i]))
      ensures StartOf(tasks, r'[i]) <= StartOf(tasks, v)
    {
      assert r'[..i] == result[..i];
      assert v !in newRoots;
      if i < |result| {
        GreedyEarlier(tasks, result, queue, i, v);
      } else {
        assert r'[i] == c && r'[i + 1..] == [];
        var k :| 0 <= k < |queue[1..]| && queue[1..][k] == v;
        assert queue[k + 1] == v;
      }
    }
  }

  lemma GreedyEarlier(tasks: seq<SettlementTask>, result: seq<Id>, queue: seq<Id>, i: int, v: Id)
    requires queue != [] && GreedyState(tasks, result, queue)
    requires 0 <= i < |result|
    requires v in (result + [queue[0]])[i + 1..] || v in queue[1..]
    requires Ready(tasks, v, Elems(result[..i]))
    ensures StartOf(tasks, result[i]) <= StartOf(tasks, v)
  {
    var r' := result + [queue[0]];
    if v in r'[i + 1..] {
      var k :| i + 1 <= k < |r'| && r'[k] == v;
      if k < |result| {
        assert result[i + 1..][k - i - 1] == v;
      } else {
        assert v == queue[0];
      }
    } else {
      var k :| 0 <= k < |queue[1..]| && queue[1..][k] == v;
      assert queue[k + 1] == v;
    }
  }

  lemma StepTopological(tasks: seq<SettlementTask>, deg: map<Id, int>, result: seq<Id>, queue: seq<Id>)
    requires KahnInv(tasks, deg, result, queue) && queue != []
    ensures Topological(tasks, result + [queue[0]])
  {
    var c := queue[0];
    var r' := result + [c];
    assert c in Ids(tasks);
    assert Ready(tasks, c, Elems(result));
    forall i, a | 0 <= i < |r'| && DependsOn(tasks, r'[i], a) ensures a in r'[..i] {
      if i < |result| {
        assert r'[..i] == result[..i];
      } else {
        assert r'[..i] == result;
      }
    }
  }

  /** One iteration of the main loop preserves the invariant. */
  lemma KahnStep(tasks: seq<SettlementTask>, deg: map<Id, int>, result: seq<Id>, queue: seq<Id>,
                 deg': map<Id, int>, newRoots: seq<Id>, queue': seq<Id>)
    requires KahnInv(tasks, deg, result, queue) && queue != []
    requires deg'.Keys == deg.Keys
    requires forall v :: v in deg' ==> deg'[v] == deg[v] - Occurrences(Targets(Edges(tasks), queue[0]), v)
    requires Distinct(newRoots)
    requires forall v :: v in newRoots <==> v in Targets(Edges(tasks), queue[0]) && v in deg' && deg'[v] == 0
    requires SortedByStart(TaskMap(tasks), queue')
    requires multiset(queue') == multiset(queue[1..]) + multiset(newRoots)
    ensures KahnInv(tasks, deg', result + [queue[0]], queue')
    ensures |result| + 1 + |queue'| <= |Ids(tasks)|
  {
    var c := queue[0];
    CurrentFresh(result, queue);
    NeighborsBound(tasks, deg, result, queue);
    StepDegree(tasks, deg, result, c, deg');
    forall v ensures v in queue' <==> v in queue[1..] || v in newRoots {
      assert v in queue' <==> v in multiset(queue');
    }
    StepQueue(tasks, deg, result, queue, deg', newRoots, queue');
    StepReady(tasks, deg, result, queue, deg', newRoots, queue');
    NewRootsLate(tasks, deg, result, queue, deg', newRoots);
    StepGreedy(tasks, result, queue, newRoots, queue');
    StepTopological(tasks, deg, result, queue);
    QueueBound(tasks, result + [c], queue');
  }

  /** Emitted and queued ids, all distinct task ids, are no more than the task ids. */
  lemma QueueBound(tasks: seq<SettlementTask>, result: seq<Id>, queue: seq<Id>)
    requires QueueState(tasks, result, queue)
    ensures |result| + |queue| <= |Ids(tasks)|
  {
    var all := result + queue;
    ElemsCard(all);
    SubsetCard(Elems(all), Ids(tasks));
  }

  ghost predicate HasOrder(tasks: seq<SettlementTask>)
  {
    exists o :: Topological(tasks, o) && Ids(tasks) <= Elems(o)
  }

  lemma {:induction false} NotInStuck(tasks: seq<SettlementTask>, s: set<Id>, o: seq<Id>, i: nat)
    requires Stuck(tasks, s) && Topological(tasks, o) && i < |o|
    ensures o[i] !in s
    decreases i
  {
    if o[i] in s {
      assert WaitsWithin(tasks, s, o[i]);
      var a :| a in s && DependsOn(tasks, o[i], a);
      assert a in o[..i];
      var k :| 0 <= k < i && o[k] == a;
      NotInStuck(tasks, s, o, k);
    }
  }

  /** A stuck set rules out every topological order that lists all tasks: the graph has a cycle. */
  lemma StuckBlocksOrder(tasks: seq<SettlementTask>, s: set<Id>)
    requires Stuck(tasks, s)
    ensures !HasOrder(tasks)
  {
    if HasOrder(tasks) {
      var o :| Topological(tasks, o) && Ids(tasks) <= Elems(o);
      var v :| v in s;
      assert v in Elems(o);
      var i :| 0 <= i < |o| && o[i] == v;
      NotInStuck(tasks, s, o, i);
    }
  }

  lemma FinishGreedy(tasks: seq<SettlementTask>, result: seq<Id>)
    requires GreedyState(tasks, result, [])
    ensures GreedyByStart(tasks, result)
  {
    forall i, j | 0 <= i < j < |result| && Ready(tasks, result[j], Elems(result[..i]))
      ensures StartOf(tasks, result[i]) <= StartOf(tasks, result[j])
    {
      assert result[i + 1..][j - i - 1] == result[j];
    }
  }

  lemma FinishSorted(tasks: seq<SettlementTask>, result: seq<Id>)
    requires Distinct(result) && Elems(result) <= Ids(tasks) && |result| == |tasks|
    ensures DistinctIds(tasks) && Elems(result) == Ids(tasks)
    ensures multiset(result) == multiset(TaskIds(tasks))
  {
    ElemsCard(result);
    IdsCard(tasks);
    SubsetCard(Elems(result), Ids(tasks));
    var ids := TaskIds(tasks);
    assert Distinct(ids);
    forall x ensures multiset(result)[x] == multiset(ids)[x] {
      DistinctCount(result, x);
      DistinctCount(ids, x);
      assert x in result <==> x in Elems(result);
      assert x in ids <==> x in Elems(ids);
    }
    assert multiset(result) == multiset(ids);
  }

  /** When the queue runs dry, every leftover id waits on another leftover id. */
  lemma FinishStuck(tasks: seq<SettlementTask>, result: seq<Id>)
    requires ReadyState(tasks, result, [])
    requires Leftover(tasks, result) != []
    ensures Stuck(tasks, Elems(Leftover(tasks, result)))
  {
    var left := Leftover(tasks, result);
    assert left[0] in Elems(left);
    forall v | v in Elems(left) ensures WaitsWithin(tasks, Elems(left), v) {
      LeftoverWaits(tasks, result, v);
    }
  }

  lemma LeftoverWaits(tasks: seq<SettlementTask>, result: seq<Id>, v: Id)
    requires ReadyState(tasks, result, [])
    requires v in Leftover(tasks, result)
    ensures WaitsWithin(tasks, Elems(Leftover(tasks, result)), v)
  {
    assert result + [] == result;
    assert v in Ids(tasks) && v !in result;
    assert !Ready(tasks, v, Elems(result));
    var a :| DependsOn(tasks, v, a) && a !in Elems(result);
    assert a in Leftover(tasks, result);
  }

  /** With distinct ids, a short order leaves some id over. */
  lemma FinishNonEmpty(tasks: seq<SettlementTask>, result: seq<Id>)
    requires Distinct(result) && Elems(result) <= Ids(tasks) && |result| != |tasks| && DistinctIds(tasks)
    ensures Leftover(tasks, result) != []
  {
    ElemsCard(result);
    IdsCard(tasks);
    SubsetCard(Elems(result), Ids(tasks));
    assert Elems(result) != Ids(tasks);
    var x :| x in Ids(tasks) && x !in Elems(result);
    assert x in Leftover(tasks, result);
  }

  /**
   * `topologicalSort`. On success the order lists every task id exactly once,
   * puts every known dependency before its dependents, and takes ready tasks
   * earliest start first. Otherwise the `CycleError` carries the ids of the
   * tasks not emitted, in input order; each of them waits on another leftover
   * id. With distinct ids, the result is an order exactly when one exists.
   * `emitted` is the order the loop produced in both cases.
   */
  method TopologicalSort(tasks: seq<SettlementTask>) returns (r: SortResult, ghost emitted: seq<Id>)
    ensures tasks == [] ==> r == Sorted([])
    ensures Distinct(emitted) && Elems(emitted) <= Ids(tasks)
    ensures Topological(tasks, emitted) && GreedyByStart(tasks, emitted)
    ensures r.Sorted? <==> |emitted| == |tasks|
    ensures r.Sorted? ==> r.order == emitted && DistinctIds(tasks) && multiset(r.order) == multiset(TaskIds(tasks))
    ensures r.CycleError? ==> r.cycle == Leftover(tasks, emitted)
    ensures r.CycleError? && r.cycle != [] ==> Stuck(tasks, Elems(r.cycle))
    ensures DistinctIds(tasks) ==> (r.Sorted? <==> HasOrder(tasks))
  {
    if |tasks| == 0 {
      assert Topological(tasks, []) && Ids(tasks) <= Elems([]);
      return Sorted([]), [];
    }
    var taskMap, adjacency, inDegree, queue := StartKahn(tasks);
    var result;
    inDegree, result := RunKahn(tasks, taskMap, adjacency, inDegree, queue);
    emitted := result;
    Conclude(tasks, inDegree, result);
    if |result| != |tasks| {
      return CycleError(Leftover(tasks, result)), result;
    }
    return Sorted(result), result;
  }

  /** The graph, the task map and the sorted roots the main loop starts from. */
  method StartKahn(tasks: seq<SettlementTask>)
    returns (taskMap: map<Id, SettlementTask>, adjacency: map<Id, seq<Id>>, inDegree: map<Id, int>, queue: seq<Id>)
    ensures taskMap == TaskMap(tasks) && adjacency.Keys == Ids(tasks)
    ensures forall a :: a in adjacency ==> adjacency[a] == Targets(Edges(tasks), a)
    ensures KahnInv(tasks, inDegree, [], queue) && |queue| <= |Ids(tasks)|
  {
    var keys;
    keys, adjacency, inDegree := BuildGraph(tasks);
    taskMap := TaskMap(tasks);
    queue := CollectRoots(keys, inDegree);
    queue := SortIds(taskMap, queue);
    InitialState(tasks, keys, inDegree, queue);
    ElemsCard(queue);
    SubsetCard(Elems(queue), Ids(tasks));
    assert [] + queue == queue;
  }

  /** The main loop: runs until the queue is empty. */
  method RunKahn(tasks: seq<SettlementTask>, taskMap: map<Id, SettlementTask>, adjacency: map<Id, seq<Id>>,
                 inDegree: map<Id, int>, queue: seq<Id>)
    returns (deg: map<Id, int>, result: seq<Id>)
    requires taskMap == TaskMap(tasks) && adjacency.Keys == Ids(tasks)
    requires forall a :: a in adjacency ==> adjacency[a] == Targets(Edges(tasks), a)
    requires KahnInv(tasks, inDegree, [], queue) && |queue| <= |Ids(tasks)|
    ensures KahnInv(tasks, deg, result, [])
  {
    deg, result := inDegree, [];
    var q := queue;
    while |q| > 0
      invariant KahnInv(tasks, deg, result, q)
      invariant |result| + |q| <= |Ids(tasks)|
      decreases |Ids(tasks)| - |result|
    {
      deg, result, q := KahnIteration(tasks, taskMap, adjacency, deg, result, q);
    }
  }

  /** One iteration of the main loop: take the queue head, free its neighbours and merge them into the queue. */
  method KahnIteration(tasks: seq<SettlementTask>, taskMap: map<Id, SettlementTask>, adjacency: map<Id, seq<Id>>,
                       inDegree: map<Id, int>, result: seq<Id>, queue: seq<Id>)
    returns (inDegree': map<Id, int>, result': seq<Id>, queue': seq<Id>)
    requires taskMap == TaskMap(tasks) && adjacency.Keys == Ids(tasks)
    requires forall a :: a in adjacency ==> adjacency[a] == Targets(Edges(tasks), a)
    requires KahnInv(tasks, inDegree, result, queue) && queue != []
    ensures KahnInv(tasks, inDegree', result', queue')
    ensures result' == result + [queue[0]] && |result'| + |queue'| <= |Ids(tasks)|
  {
    NeighborsBound(tasks, inDegree, result, queue);
    var current := queue[0];
    queue' := queue[1..];
    result' := result + [current];
    var neighbors := adjacency[current];
    var newRoots;
    inDegree', newRoots := DecrementNeighbors(inDegree, neighbors);
    SortedTail(taskMap, queue);
    if |newRoots| > 0 {
      var sortedRoots := SortIds(taskMap, newRoots);
      SortIdsFacts(taskMap, newRoots);
      MergeSorted(taskMap, queue', sortedRoots);
      MergeMultiset(taskMap, queue', sortedRoots);
      queue' := MergeByStart(taskMap, queue', sortedRoots);
    }
    KahnStep(tasks, inDegree, result, queue, inDegree', newRoots, queue');
  }

  /** What the invariant gives once the queue is empty. */
  lemma Conclude(tasks: seq<SettlementTask>, deg: map<Id, int>, result: seq<Id>)
    requires KahnInv(tasks, deg, result, [])
    ensures Distinct(result) && Elems(result) <= Ids(tasks)
    ensures Topological(tasks, result) && GreedyByStart(tasks, result)
    ensures |result| == |tasks| ==> DistinctIds(tasks) && multiset(result) == multiset(TaskIds(tasks))
    ensures |result| == |tasks| ==> HasOrder(tasks)
    ensures |result| != |tasks| && Leftover(tasks, result) != [] ==> Stuck(tasks, Elems(Leftover(tasks, result)))
    ensures |result| != |tasks| && DistinctIds(tasks) ==> !HasOrder(tasks)
  {
    assert result + [] == result;
    FinishGreedy(tasks, result);
    if |result| != |tasks| {
      if Leftover(tasks, result) != [] {
        FinishStuck(tasks, result);
      }
      if DistinctIds(tasks) {
        FinishNonEmpty(tasks, result);
        FinishStuck(tasks, result);
        StuckBlocksOrder(tasks, Elems(Leftover(tasks, result)));
      }
    } else {
      FinishSorted(tasks, result);
      assert Ids(tasks) <= Elems(result);
    }
  }

  lemma SortedTail(taskMap: map<Id, SettlementTask>, s: seq<Id>)
    requires SortedByStart(taskMap, s) && s != []
    ensures SortedByStart(taskMap, s[1..])
  {
    forall i, j | 0 <= i < j < |s[1..]| ensures StartIn(taskMap, s[1..][i]) <= StartIn(taskMap, s[1..][j]) {
      assert s[1..][i] == s[i + 1] && s[1..][j] == s[j + 1];
    }
  }
}
