/**
 * Focus mode: the page that shows one incomplete task at a time. The cursor is
 * an index into a snapshot of the incomplete tasks; completing the current task
 * removes it from the snapshot and leaves the index where it is.
 */
module FocusMode {
  import opened Wrappers
  import opened Json
  import opened Tasks

  /** The state update that clears a stale selection. */
  const ClearSelection: Json := JObj(map["selected_task_id" := JNull])

  /** The state update written when leaving focus mode. */
  const ExitFocusWrite: Json := JObj(map["focus_mode" := JBool(false), "selected_task_id" := JNull])

  /** Where the cursor starts, and whether the persisted selection must be cleared. */
  datatype Resolution = Resolution(index: nat, clearSelection: bool)

  /**
   * The starting cursor for the persisted `selected_task_id` value: the first
   * active task with that id (`findIndex` with `===`), else 0 with a clear
   * requested; a falsy value leaves the cursor at 0 and requests nothing.
   */
  function ResolveSelection(active: seq<Task>, selected: Json): Resolution
  {
    if !JsTruthy(selected) then Resolution(0, false)
    else
      var found := if selected.JStr? then FindTask(active, selected.s) else None;
      match found
      case Some(i) => Resolution(i, false)
      case None => Resolution(0, true)
  }

  /** The three outcomes of resolving a selection. */
  lemma ResolveSelectionCases(active: seq<Task>, selected: Json)
    ensures var r := ResolveSelection(active, selected);
      && (!JsTruthy(selected) ==> r == Resolution(0, false))
      && (JsTruthy(selected) && selected.JStr? && FindTask(active, selected.s).Some? ==>
            !r.clearSelection && r.index < |active| && active[r.index].id == selected.s
            && forall j :: 0 <= j < r.index ==> active[j].id != selected.s)
      && (JsTruthy(selected) && (!selected.JStr? || forall j :: 0 <= j < |active| ==> active[j].id != selected.s) ==>
            r == Resolution(0, true))
  {
  }

  /** `activeTasks.length === 0 || currentTaskIndex >= activeTasks.length`: nothing left to show. */
  predicate Exhausted(active: seq<Task>, index: nat)
  {
    |active| == 0 || index >= |active|
  }

  /** Every task of the snapshot is incomplete. */
  ghost predicate AllIncomplete(active: seq<Task>)
  {
    forall i :: 0 <= i < |active| ==> !active[i].completed
  }

  /** Filtering out the completed tasks leaves a snapshot of incomplete tasks. */
  lemma IncompleteSnapshot(tasks: seq<Task>)
    ensures AllIncomplete(Incomplete(tasks))
  {
    FilterMembers(tasks, (t: Task) => !t.completed);
  }

  /** A successful completion: mark the task at the cursor completed, then filter the snapshot again. */
  function CompleteAt(active: seq<Task>, index: nat): seq<Task>
    requires index < |active|
  {
    Incomplete(active[index := active[index].(completed := true)])
  }

  /**
   * On a snapshot of incomplete tasks, a completion removes exactly the task
   * at the cursor, so the same index now shows the task that followed it.
   */
  lemma CompleteAtRemovesCurrent(active: seq<Task>, index: nat)
    requires AllIncomplete(active) && index < |active|
    ensures CompleteAt(active, index) == active[..index] + active[index + 1..]
    ensures |CompleteAt(active, index)| == |active| - 1
    ensures AllIncomplete(CompleteAt(active, index))
    ensures index + 1 < |active| ==> CompleteAt(active, index)[index] == active[index + 1]
    ensures index + 1 == |active| ==> Exhausted(CompleteAt(active, index), index)
  {
    var marked := active[index := active[index].(completed := true)];
    FilterRemovesOne(marked, index, (t: Task) => !t.completed);
    assert marked[..index] == active[..index];
    assert marked[index + 1..] == active[index + 1..];
  }

  /** `n` successful completions at a fixed cursor, stopping once exhausted. */
  function CompleteRepeatedly(active: seq<Task>, index: nat, n: nat): seq<Task>
    decreases n
  {
    if n == 0 || Exhausted(active, index) then active
    else CompleteRepeatedly(CompleteAt(active, index), index, n - 1)
  }

  /** What the induction below needs of one completion: the prefix before the cursor survives. */
  lemma CompleteAtKeepsPrefix(active: seq<Task>, index: nat)
    requires AllIncomplete(active) && index < |active|
    ensures |CompleteAt(active, index)| == |active| - 1
    ensures CompleteAt(active, index)[..index] == active[..index]
    ensures AllIncomplete(CompleteAt(active, index))
  {
    CompleteAtRemovesCurrent(active, index);
  }

  /** Completing from a valid cursor as often as there are tasks from it onward leaves exactly the tasks before it, and exhausted. */
  lemma {:induction false} CompletionsExhaust(active: seq<Task>, index: nat)
    requires AllIncomplete(active) && index <= |active|
    ensures CompleteRepeatedly(active, index, |active| - index) == active[..index]
    ensures Exhausted(CompleteRepeatedly(active, index, |active| - index), index)
    decreases |active| - index
  {
    if index < |active| {
      var next := CompleteAt(active, index);
      CompleteAtKeepsPrefix(active, index);
      CompletionsExhaust(next, index);
    } else {
      assert active[..index] == active;
    }
  }

  /** The focus page's state: the snapshot, the cursor, and the requests it has sent. */
  class FocusSession {
    var activeTasks: seq<Task>
    var currentTaskIndex: nat
    /** The `PUT /api/state` bodies sent, in order. */
    var stateWrites: seq<Json>
    /** The ids sent to `PUT /api/tasks/<id>/complete`, in order. */
    var completeRequests: seq<string>

    ghost predicate Valid()
      reads this
    {
      AllIncomplete(activeTasks)
    }

    /** `fetchInitialData()` after the state and the task list have been fetched. */
    constructor (allTasks: seq<Task>, appState: Json)
      ensures Valid()
      ensures activeTasks == Incomplete(allTasks)
      ensures var r := ResolveSelection(Incomplete(allTasks), FieldOrNull(appState, "selected_task_id"));
        currentTaskIndex == r.index && stateWrites == (if r.clearSelection then [ClearSelection] else [])
      ensures completeRequests == []
    {
      IncompleteSnapshot(allTasks);
      activeTasks := Incomplete(allTasks);
      currentTaskIndex := 0;
      stateWrites := [];
      completeRequests := [];
      new;
      var selected := FieldOrNull(appState, "selected_task_id");
      if JsTruthy(selected) {
        var found := if selected.JStr? then FindTask(activeTasks, selected.s) else None;
        if found.Some? {
          currentTaskIndex := found.value;
        } else {
          stateWrites := stateWrites + [ClearSelection];
        }
      }
    }

    /**
     * The task `displayCurrentTask()` shows, or None for the "no more tasks"
     * message. On a valid session the task shown is always an incomplete one.
     */
    function Current(): (r: Option<Task>)
      reads this
      ensures r.None? <==> currentTaskIndex >= |activeTasks|
      ensures r.Some? ==> r.value == activeTasks[currentTaskIndex]
      ensures Valid() && r.Some? ==> !r.value.completed
    {
      if Exhausted(activeTasks, currentTaskIndex) then None else Some(activeTasks[currentTaskIndex])
    }

    /**
     * `completeAndNextTask()`. `succeeded` is the outcome of the complete
     * request; on failure the snapshot and the cursor stay as they were.
     */
    method CompleteAndNext(succeeded: bool)
      requires Valid()
      modifies this
      ensures Valid()
      ensures currentTaskIndex == old(currentTaskIndex) && stateWrites == old(stateWrites)
      ensures old(Exhausted(activeTasks, currentTaskIndex)) ==>
        activeTasks == old(activeTasks) && completeRequests == old(completeRequests)
      ensures !old(Exhausted(activeTasks, currentTaskIndex)) ==>
        completeRequests == old(completeRequests) + [old(activeTasks[currentTaskIndex].id)]
      ensures !old(Exhausted(activeTasks, currentTaskIndex)) && succeeded ==>
        activeTasks == CompleteAt(old(activeTasks), old(currentTaskIndex))
        && activeTasks == old(activeTasks[..currentTaskIndex] + activeTasks[currentTaskIndex + 1..])
      ensures !succeeded ==> activeTasks == old(activeTasks)
    {
      if |activeTasks| == 0 || currentTaskIndex >= |activeTasks| {
        return;
      }
      var taskToComplete := activeTasks[currentTaskIndex];
      completeRequests := completeRequests + [taskToComplete.id];
      if !succeeded {
        return;
      }
      CompleteAtRemovesCurrent(activeTasks, currentTaskIndex);
      activeTasks := activeTasks[currentTaskIndex := taskToComplete.(completed := true)];
      activeTasks := Incomplete(activeTasks);
    }

    /** The exit button's handler, before it navigates away. */
    method ExitFocusMode()
      modifies this
      ensures stateWrites == old(stateWrites) + [ExitFocusWrite]
      ensures activeTasks == old(activeTasks) && currentTaskIndex == old(currentTaskIndex)
      ensures completeRequests == old(completeRequests)
    {
      stateWrites := stateWrites + [ExitFocusWrite];
    }
  }
}
