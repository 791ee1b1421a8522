/** The task record and the pure list computations of app/dashboard/page.jsx: the `filter`
    behind delete and the pending/completed lists, the `map` behind toggle and save, and the
    status flip. */
module Tasks {

  /** A task as the server returns it. `status` is kept as the string the server sends, since
      the page compares it against 'Pending' and 'Completed' and treats anything else as
      neither. */
  datatype Task = Task(id: string, title: string, content: string, status: string,
                       createdAt: string, updatedAt: string)

  const Pending: string := "Pending"
  const Completed: string := "Completed"

  /** `a` is `b` with some elements left out, the rest in their original order. */
  ghost predicate Subseq<T>(a: seq<T>, b: seq<T>)
    decreases |b|
  {
    if a == [] then true
    else if b == [] then false
    else (a[0] == b[0] && Subseq(a[1..], b[1..])) || Subseq(a, b[1..])
  }

  /** Array.prototype.filter: the elements of `s` that satisfy `p`, all of them (with their
      multiplicity) and in order. */
  function Filter<T>(s: seq<T>, p: T -> bool): (r: seq<T>)
    ensures |r| <= |s|
    ensures forall x | x in r :: x in s && p(x)
    ensures forall x | x in s && p(x) :: x in r && multiset(r)[x] == multiset(s)[x]
    ensures Subseq(r, s)
  {
    if s == [] then []
    else
      var rest := Filter(s[1..], p);
      assert s == [s[0]] + s[1..];
      if p(s[0]) then [s[0]] + rest else rest
  }

  /** The list after a delete: `tasks.filter(t => t._id !== id)`. */
  function WithoutId(tasks: seq<Task>, id: string): (r: seq<Task>)
    ensures forall t :: t in r <==> t in tasks && t.id != id
    ensures forall t: Task | t.id != id :: multiset(r)[t] == multiset(tasks)[t]
    ensures Subseq(r, tasks)
  {
    Filter(tasks, (t: Task) => t.id != id)
  }

  /** The list shown under "Pending Tasks". */
  function PendingOf(tasks: seq<Task>): (r: seq<Task>)
    ensures forall t :: t in r <==> t in tasks && t.status == Pending
    ensures forall t: Task | t.status == Pending :: multiset(r)[t] == multiset(tasks)[t]
    ensures Subseq(r, tasks)
  {
    Filter(tasks, (t: Task) => t.status == Pending)
  }

  /** The list shown under "Completed Tasks". */
  function CompletedOf(tasks: seq<Task>): (r: seq<Task>)
    ensures forall t :: t in r <==> t in tasks && t.status == Completed
    ensures forall t: Task | t.status == Completed :: multiset(r)[t] == multiset(tasks)[t]
    ensures Subseq(r, tasks)
  {
    Filter(tasks, (t: Task) => t.status == Completed)
  }

  /** The status the toggle button asks for. */
  function Toggled(status: string): (r: string)
    ensures r == Pending || r == Completed
    ensures r == Completed <==> status == Pending
  {
    if status == Pending then Completed else Pending
  }

  /** `tasks.map(t => t._id === id ? { ...t, status } : t)`: only the status of the tasks with
      that id changes. */
  function SetStatus(tasks: seq<Task>, id: string, status: string): (r: seq<Task>)
    ensures |r| == |tasks|
    ensures forall i | 0 <= i < |tasks| ::
              r[i] == if tasks[i].id == id then tasks[i].(status := status) else tasks[i]
  {
    if tasks == [] then []
    else
      var t := tasks[0];
      [if t.id == id then t.(status := status) else t] + SetStatus(tasks[1..], id, status)
  }

  /** `prev.map(t => t._id === task._id ? task : t)`: every task with the saved task's id is
      replaced by it, every other one is kept. */
  function ReplaceById(tasks: seq<Task>, task: Task): (r: seq<Task>)
    ensures |r| == |tasks|
    ensures forall i | 0 <= i < |tasks| :: r[i] == if tasks[i].id == task.id then task else tasks[i]
  {
    if tasks == [] then []
    else [if tasks[0].id == task.id then task else tasks[0]] + ReplaceById(tasks[1..], task)
  }

  /** The ids of a list, in order. */
  function Ids(tasks: seq<Task>): (r: seq<string>)
    ensures |r| == |tasks|
    ensures forall i | 0 <= i < |tasks| :: r[i] == tasks[i].id
  {
    if tasks == [] then [] else [tasks[0].id] + Ids(tasks[1..])
  }

  // ---------------------------------------------------------------------------------------
  // Properties

  /** Toggling twice restores a status exactly when it is one of the two the page knows. */
  lemma ToggleTwice(status: string)
    ensures Toggled(Toggled(status)) == status <==> status == Pending || status == Completed
  {
  }

  /** Toggle and save keep the length of the list and the order of the ids. */
  lemma IdsPreserved(tasks: seq<Task>, id: string, status: string, saved: Task)
    ensures Ids(SetStatus(tasks, id, status)) == Ids(tasks)
    ensures Ids(ReplaceById(tasks, saved)) == Ids(tasks)
  {
  }

  /** Two toggles of the same card, the second one made from the status the first one set,
      restore the list when every task with that id had the card's status. */
  lemma ToggleTwiceRestores(tasks: seq<Task>, id: string, status: string)
    requires status == Pending || status == Completed
    requires forall t | t in tasks && t.id == id :: t.status == status
    ensures SetStatus(SetStatus(tasks, id, Toggled(status)), id, Toggled(Toggled(status))) == tasks
  {
  }

  /** Saving a task whose id is not in the list leaves the list as it was. */
  lemma ReplaceAbsent(tasks: seq<Task>, task: Task)
    requires forall t | t in tasks :: t.id != task.id
    ensures ReplaceById(tasks, task) == tasks
  {
  }

  /** Saving the same task twice is the same as saving it once. */
  lemma ReplaceIdempotent(tasks: seq<Task>, task: Task)
    ensures ReplaceById(ReplaceById(tasks, task), task) == ReplaceById(tasks, task)
  {
  }

  /** No task is both pending and completed. */
  lemma PartitionDisjoint(tasks: seq<Task>)
    ensures forall t | t in PendingOf(tasks) :: t !in CompletedOf(tasks)
  {
  }

  predicate KnownStatus(t: Task) {
    t.status == Pending || t.status == Completed
  }

  /** Number of tasks whose status is neither Pending nor Completed. */
  function UnknownCount(tasks: seq<Task>): (n: nat)
    ensures n <= |tasks|
  {
    if tasks == [] then 0 else (if KnownStatus(tasks[0]) then 0 else 1) + UnknownCount(tasks[1..])
  }

  /** Every task is pending, completed or of unknown status. */
  lemma {:induction false} PartitionSum(tasks: seq<Task>)
    ensures |PendingOf(tasks)| + |CompletedOf(tasks)| + UnknownCount(tasks) == |tasks|
  {
    if tasks != [] {
      PartitionSum(tasks[1..]);
    }
  }

  lemma {:induction false} UnknownCountZero(tasks: seq<Task>)
    ensures UnknownCount(tasks) == 0 <==> forall i | 0 <= i < |tasks| :: KnownStatus(tasks[i])
  {
    if tasks != [] {
      UnknownCountZero(tasks[1..]);
      assert forall i | 1 <= i < |tasks| :: tasks[i] == tasks[1..][i - 1];
    }
  }

  /** The two lists together never hold more tasks than the list, and hold all of them exactly
      when every status is Pending or Completed. */
  lemma PartitionCount(tasks: seq<Task>)
    ensures |PendingOf(tasks)| + |CompletedOf(tasks)| <= |tasks|
    ensures |PendingOf(tasks)| + |CompletedOf(tasks)| == |tasks| <==>
              forall i | 0 <= i < |tasks| :: KnownStatus(tasks[i])
  {
    PartitionSum(tasks);
    UnknownCountZero(tasks);
  }

  /** When every status is Pending or Completed, every task shows up in one of the two lists. */
  lemma PartitionCovers(tasks: seq<Task>)
    requires forall t | t in tasks :: KnownStatus(t)
    ensures forall t | t in tasks :: t in PendingOf(tasks) || t in CompletedOf(tasks)
  {
  }

  /** A new pending task saved in create mode heads the pending list. */
  lemma PrependedHeadsPending(tasks: seq<Task>, task: Task)
    requires task.status == Pending
    ensures PendingOf([task] + tasks) == [task] + PendingOf(tasks)
  {
  }

  /** After a task's status is set to Completed it has left the pending list and joined the
      completed one. */
  lemma CompletedLeavesPending(tasks: seq<Task>, id: string)
    ensures forall t | t in PendingOf(SetStatus(tasks, id, Completed)) :: t.id != id
    ensures forall i | 0 <= i < |tasks| && tasks[i].id == id ::
              tasks[i].(status := Completed) in CompletedOf(SetStatus(tasks, id, Completed))
  {
  }
}
