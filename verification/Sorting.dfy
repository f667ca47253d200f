/** Ordering dependent jobs newest first. The library sort the operator calls is not part of this
    model; SortBy stands for it, with the order the operator relies on. */
module Sorting {
  import opened Options
  import opened Objects

  ghost predicate NewestFirst(jobs: seq<Job>) {
    forall i, j :: 0 <= i < j < |jobs| ==> GenerationOf(jobs[i]) >= GenerationOf(jobs[j])
  }

  ghost predicate StrictlyNewestFirst(jobs: seq<Job>) {
    forall i, j :: 0 <= i < j < |jobs| ==> GenerationOf(jobs[i]) > GenerationOf(jobs[j])
  }

  ghost predicate DistinctGenerations(jobs: seq<Job>) {
    forall i, j :: 0 <= i < j < |jobs| ==> GenerationOf(jobs[i]) != GenerationOf(jobs[j])
  }

  /** The comparison panics on an annotation that is not a number. It runs only when there are at
      least two jobs, and then looks at each of them. */
  predicate SortPanics(jobs: seq<Job>) {
    |jobs| >= 2 && exists i :: 0 <= i < |jobs| && ParsedGeneration(jobs[i]).None?
  }

  function Insert(sorted: seq<Job>, job: Job): seq<Job> {
    if sorted == [] then [job]
    else if GenerationOf(sorted[|sorted| - 1]) < GenerationOf(job) then
      Insert(sorted[..|sorted| - 1], job) + [sorted[|sorted| - 1]]
    else sorted + [job]
  }

  /** The jobs ordered by descending generation, jobs of equal generation in their given order. */
  function Sorted(jobs: seq<Job>): seq<Job> {
    if jobs == [] then []
    else Insert(Sorted(jobs[..|jobs| - 1]), jobs[|jobs| - 1])
  }

  /** Appending a job that is not newer than any job of the list. */
  lemma AppendKeepsOrder(front: seq<Job>, last: Job)
    requires NewestFirst(front)
    requires forall j :: j in multiset(front) ==> GenerationOf(j) >= GenerationOf(last)
    ensures NewestFirst(front + [last])
  {
    hide GenerationOf;
    forall i | 0 <= i < |front| ensures GenerationOf(front[i]) >= GenerationOf(last) {
      assert front[i] in multiset(front);
    }
  }

  lemma LastIsOldest(sorted: seq<Job>)
    requires NewestFirst(sorted) && sorted != []
    ensures forall j :: j in multiset(sorted) ==> GenerationOf(j) >= GenerationOf(sorted[|sorted| - 1])
    ensures NewestFirst(sorted[..|sorted| - 1])
  {
    hide GenerationOf;
    forall j | j in multiset(sorted) ensures GenerationOf(j) >= GenerationOf(sorted[|sorted| - 1]) {
      assert j in sorted;
      var i :| 0 <= i < |sorted| && sorted[i] == j;
    }
  }

  lemma {:induction false} InsertIsOrdered(sorted: seq<Job>, job: Job)
    requires NewestFirst(sorted)
    ensures multiset(Insert(sorted, job)) == multiset(sorted) + multiset{job}
    ensures NewestFirst(Insert(sorted, job))
  {
    hide GenerationOf, NewestFirst;
    if sorted == [] {
      AppendKeepsOrder([], job) by { NothingOrdered(); }
      assert [] + [job] == [job];
    } else {
      var front := sorted[..|sorted| - 1];
      var last := sorted[|sorted| - 1];
      assert sorted == front + [last];
      LastIsOldest(sorted);
      if GenerationOf(last) < GenerationOf(job) {
        InsertIsOrdered(front, job);
        AppendKeepsOrder(Insert(front, job), last);
      } else {
        AppendKeepsOrder(sorted, job);
      }
    }
  }

  lemma NothingOrdered()
    ensures NewestFirst([])
  {
  }

  lemma {:induction false} SortedIsOrdered(jobs: seq<Job>)
    ensures multiset(Sorted(jobs)) == multiset(jobs)
    ensures NewestFirst(Sorted(jobs))
  {
    if jobs != [] {
      assert jobs == jobs[..|jobs| - 1] + [jobs[|jobs| - 1]];
      SortedIsOrdered(jobs[..|jobs| - 1]);
      InsertIsOrdered(Sorted(jobs[..|jobs| - 1]), jobs[|jobs| - 1]);
    }
  }

  lemma SortedMembers(jobs: seq<Job>)
    ensures |Sorted(jobs)| == |jobs|
    ensures forall j :: j in Sorted(jobs) <==> j in jobs
  {
    SortedIsOrdered(jobs);
    assert |multiset(Sorted(jobs))| == |multiset(jobs)|;
    forall j: Job ensures j in Sorted(jobs) <==> j in jobs {
      assert j in Sorted(jobs) <==> j in multiset(Sorted(jobs));
      assert j in jobs <==> j in multiset(jobs);
    }
  }

  lemma FirstIsUnique(a: seq<Job>, b: seq<Job>)
    requires a != [] && multiset(a) == multiset(b)
    requires NewestFirst(a) && NewestFirst(b) && DistinctGenerations(a)
    ensures b != [] && a[0] == b[0]
  {
    hide GenerationOf;
    assert |multiset(b)| == |multiset(a)| > 0;
    assert a[0] in multiset(b) && b[0] in multiset(a);
    var i :| 0 <= i < |a| && a[i] == b[0];
    var j :| 0 <= j < |b| && b[j] == a[0];
    assert GenerationOf(a[0]) >= GenerationOf(a[i]);
    assert GenerationOf(b[0]) >= GenerationOf(b[j]);
  }

  lemma TailMultiset(a: seq<Job>)
    requires a != []
    ensures multiset(a[1..]) == multiset(a) - multiset{a[0]}
  {
    assert a == [a[0]] + a[1..];
  }

  /** With distinct generations there is only one newest-first order, so any correct sort computes it. */
  lemma {:induction false} OrderIsUnique(a: seq<Job>, b: seq<Job>)
    requires multiset(a) == multiset(b)
    requires NewestFirst(a) && NewestFirst(b) && DistinctGenerations(a)
    ensures a == b
  {
    hide GenerationOf;
    if a == [] {
      assert |multiset(b)| == 0;
    } else {
      FirstIsUnique(a, b);
      TailMultiset(a);
      TailMultiset(b);
      OrderIsUnique(a[1..], b[1..]);
      assert a == [a[0]] + a[1..] && b == [b[0]] + b[1..];
    }
  }

  /** The operator's comparison; it panics on keys that are not numbers. */
  predicate Less(x: Job, y: Job)
    requires ParsedGeneration(x).Some? && ParsedGeneration(y).Some?
  {
    ParsedGeneration(x).value < ParsedGeneration(y).value
  }

  method SortBy(jobs: seq<Job>) returns (sorted: seq<Job>)
    requires !SortPanics(jobs)
    ensures sorted == Sorted(jobs)
    ensures multiset(sorted) == multiset(jobs) && NewestFirst(sorted)
  {
    hide ParsedGeneration;
    sorted := [];
    for n := 0 to |jobs|
      invariant |sorted| == n && sorted == Sorted(jobs[..n])
      invariant |jobs| >= 2 ==> forall j :: j in sorted ==> ParsedGeneration(j).Some?
    {
      var job := jobs[n];
      var tail: seq<Job> := [];
      var front := sorted;
      while front != [] && Less(front[|front| - 1], job)
        invariant |front| + |tail| == n
        invariant forall j :: j in front + tail ==> j in sorted
        invariant Insert(sorted, job) == Insert(front, job) + tail
        decreases |front|
      {
        tail := [front[|front| - 1]] + tail;
        front := front[..|front| - 1];
      }
      assert Insert(front, job) == front + [job];
      sorted := front + [job] + tail;
      assert jobs[..n + 1][..n] == jobs[..n];
    }
    assert jobs[..|jobs|] == jobs;
    SortedIsOrdered(jobs);
  }
}
