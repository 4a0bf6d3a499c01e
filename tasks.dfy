/**
 * The task and subtask records of the task store, and the sequence searches and
 * filters the server and the browser both apply to task lists.
 */
module Tasks {
  import opened Wrappers
  import opened Json

  /**
   * A subtask record. Its title and its completed flag are whatever JSON values
   * the requests carried (the store itself checks neither).
   */
  datatype Subtask = Subtask(
    id: string,
    title: Json,
    completed: Json,
    createdAt: string,
    completedAt: Option<string>)

  /**
   * A task record. The server stores `title`, `urgency`, `effort` and `collapsed`
   * as the request gave them (adding a task validates none of them), so they are JSON values.
   */
  datatype Task = Task(
    id: string,
    title: Json,
    urgency: Json,
    effort: Json,
    completed: bool,
    createdAt: string,
    completedAt: Option<string>,
    subtasks: seq<Subtask>,
    collapsed: Json)

  /** The index of the first element satisfying `p` (Python's `for i, x in enumerate(xs): if p(x): ... break`). */
  function FirstIndex<T>(xs: seq<T>, p: T -> bool): (r: Option<nat>)
    ensures r.Some? ==> r.value < |xs| && p(xs[r.value])
    ensures r.Some? ==> forall j :: 0 <= j < r.value ==> !p(xs[j])
    ensures r.None? <==> forall j :: 0 <= j < |xs| ==> !p(xs[j])
  {
    if xs == [] then None
    else if p(xs[0]) then Some(0)
    else match FirstIndex(xs[1..], p)
      case None => None
      case Some(i) => Some(i + 1)
  }

  /** The elements of `xs` satisfying `p`, in their original order (`filter`, a list comprehension with a guard). */
  function Filter<T>(xs: seq<T>, p: T -> bool): (r: seq<T>)
    ensures |r| <= |xs|
  {
    if xs == [] then []
    else (if p(xs[0]) then [xs[0]] else []) + Filter(xs[1..], p)
  }

  /** What filtering keeps comes from `xs` and passes `p`, and every element of `xs` that passes is kept. */
  lemma {:induction false} FilterMembers<T>(xs: seq<T>, p: T -> bool)
    ensures forall i :: 0 <= i < |Filter(xs, p)| ==> Filter(xs, p)[i] in xs && p(Filter(xs, p)[i])
    ensures forall i :: 0 <= i < |xs| && p(xs[i]) ==> xs[i] in Filter(xs, p)
  {
    if xs != [] {
      var rest := xs[1..];
      FilterMembers(rest, p);
      var head := if p(xs[0]) then [xs[0]] else [];
      assert Filter(xs, p) == head + Filter(rest, p);
      forall i | 0 <= i < |xs| && p(xs[i])
        ensures xs[i] in Filter(xs, p)
      {
        if i > 0 {
          assert xs[i] == rest[i - 1];
        }
      }
    }
  }

  /** Filtering keeps every copy of a value that passes `p` and no copy of one that fails it. */
  lemma {:induction false} FilterCounts<T>(xs: seq<T>, p: T -> bool, x: T)
    ensures multiset(Filter(xs, p))[x] == if p(x) then multiset(xs)[x] else 0
  {
    if xs != [] {
      var rest := xs[1..];
      FilterCounts(rest, p, x);
      var head := if p(xs[0]) then [xs[0]] else [];
      assert Filter(xs, p) == head + Filter(rest, p);
      assert xs == [xs[0]] + rest;
    }
  }

  /** `r` is `xs` with some elements left out and the order of the rest kept. */
  ghost predicate IsSubsequence<T>(r: seq<T>, xs: seq<T>)
  {
    if r == [] then true
    else if xs == [] then false
    else (r[0] == xs[0] && IsSubsequence(r[1..], xs[1..])) || IsSubsequence(r, xs[1..])
  }

  lemma {:induction false} FilterIsSubsequence<T>(xs: seq<T>, p: T -> bool)
    ensures IsSubsequence(Filter(xs, p), xs)
  {
    if xs != [] {
      FilterIsSubsequence(xs[1..], p);
      var r := Filter(xs, p);
      if p(xs[0]) {
        assert r[0] == xs[0] && r[1..] == Filter(xs[1..], p);
      } else {
        assert r == Filter(xs[1..], p);
      }
    }
  }

  /** Filtering distributes over concatenation; with the one-element case this fixes the order of the result. */
  lemma {:induction false} FilterAppend<T>(a: seq<T>, b: seq<T>, p: T -> bool)
    ensures Filter(a + b, p) == Filter(a, p) + Filter(b, p)
  {
    if a == [] {
      assert a + b == b;
    } else {
      var head := if p(a[0]) then [a[0]] else [];
      assert (a + b)[0] == a[0] && (a + b)[1..] == a[1..] + b;
      FilterAppend(a[1..], b, p);
      assert Filter(a + b, p) == head + (Filter(a[1..], p) + Filter(b, p));
    }
  }

  /** When every element qualifies, filtering changes nothing. */
  lemma {:induction false} FilterKeepsAll<T>(xs: seq<T>, p: T -> bool)
    requires forall i :: 0 <= i < |xs| ==> p(xs[i])
    ensures Filter(xs, p) == xs
  {
    if xs != [] {
      FilterKeepsAll(xs[1..], p);
    }
  }

  /** When exactly the element at `i` fails `p`, filtering removes it and nothing else. */
  lemma {:induction false} FilterRemovesOne<T>(xs: seq<T>, i: nat, p: T -> bool)
    requires i < |xs| && !p(xs[i])
    requires forall j :: 0 <= j < |xs| && j != i ==> p(xs[j])
    ensures Filter(xs, p) == xs[..i] + xs[i + 1..]
  {
    var a, b := xs[..i], xs[i + 1..];
    assert xs == a + ([xs[i]] + b);
    FilterAppend(a, [xs[i]] + b, p);
    FilterAppend([xs[i]], b, p);
    assert Filter([xs[i]], p) == [] by {
      assert [xs[i]][1..] == [];
    }
    forall j | 0 <= j < |a| ensures p(a[j]) { assert a[j] == xs[j]; }
    FilterKeepsAll(a, p);
    forall j | 0 <= j < |b| ensures p(b[j]) { assert b[j] == xs[i + 1 + j]; }
    FilterKeepsAll(b, p);
  }

  /** Filtering shortens the sequence exactly when some element fails the test. */
  lemma {:induction false} FilterShorterIff<T>(xs: seq<T>, p: T -> bool)
    ensures |Filter(xs, p)| < |xs| <==> exists i :: 0 <= i < |xs| && !p(xs[i])
  {
    if xs != [] {
      var rest := xs[1..];
      FilterShorterIff(rest, p);
      assert forall i :: 0 <= i < |rest| ==> rest[i] == xs[i + 1];
      if exists i :: 0 <= i < |rest| && !p(rest[i]) {
        var i :| 0 <= i < |rest| && !p(rest[i]);
        assert !p(xs[i + 1]);
      }
    }
  }

  /** The first task with the given id. */
  function FindTask(tasks: seq<Task>, id: string): Option<nat>
  {
    FirstIndex(tasks, (t: Task) => t.id == id)
  }

  /** The first subtask with the given id. */
  function FindSubtask(subtasks: seq<Subtask>, id: string): Option<nat>
  {
    FirstIndex(subtasks, (st: Subtask) => st.id == id)
  }

  lemma FindTaskAt(tasks: seq<Task>, id: string, i: nat)
    requires i < |tasks| && tasks[i].id == id
    requires forall j :: 0 <= j < i ==> tasks[j].id != id
    ensures FindTask(tasks, id) == Some(i)
  {
    var r := FindTask(tasks, id);
    assert r != None by {
      assert exists j :: 0 <= j < |tasks| && tasks[j].id == id;
    }
  }


  /** The search fails exactly when no task carries the id. */
  lemma FindTaskNone(tasks: seq<Task>, id: string)
    ensures FindTask(tasks, id) == None <==> forall j :: 0 <= j < |tasks| ==> tasks[j].id != id
  {
  }

  lemma FindSubtaskAt(subtasks: seq<Subtask>, id: string, i: nat)
    requires i < |subtasks| && subtasks[i].id == id
    requires forall j :: 0 <= j < i ==> subtasks[j].id != id
    ensures FindSubtask(subtasks, id) == Some(i)
  {
    var r := FindSubtask(subtasks, id);
    assert r != None by {
      assert exists j :: 0 <= j < |subtasks| && subtasks[j].id == id;
    }
  }


  /** The subtask search fails exactly when no subtask carries the id. */
  lemma FindSubtaskNone(subtasks: seq<Subtask>, id: string)
    ensures FindSubtask(subtasks, id) == None <==> forall j :: 0 <= j < |subtasks| ==> subtasks[j].id != id
  {
  }

  /** `tasks.filter(task => !task.completed)`. */
  function Incomplete(tasks: seq<Task>): seq<Task>
  {
    Filter(tasks, (t: Task) => !t.completed)
  }

  /** `tasks.filter(task => task.completed)`. */
  function CompletedOnly(tasks: seq<Task>): seq<Task>
  {
    Filter(tasks, (t: Task) => t.completed)
  }
}
