/**
 * The server's store: the recursive merge of state updates, the application
 * state with its defaults, and the task and subtask operations over the
 * persisted task list. The loaded document is the state of a `DataFile`;
 * loading and saving it is not modelled.
 */
module TaskModel {
  import opened Wrappers
  import opened Json
  import opened Tasks

  // ---------------------------------------------------------------------------
  // Recursive merge
  // ---------------------------------------------------------------------------

  /** What `d.get(k, {})` yields: the existing value, or a new empty dictionary. */
  function ExistingOrEmpty(d: map<string, Json>, k: string): Json
  {
    if k in d then d[k] else JObj(map[])
  }

  /**
   * `deep_update(d, u)` runs without a type error: wherever `u` holds a
   * dictionary, the value it merges into is a dictionary too (recursively), or
   * the dictionary from `u` is empty, in which case the recursive call returns
   * the existing value untouched.
   */
  predicate Mergeable(d: map<string, Json>, u: map<string, Json>)
    decreases JObj(u)
  {
    forall k :: k in u && u[k].JObj? ==>
      var sub := ExistingOrEmpty(d, k);
      if sub.JObj? then Mergeable(sub.fields, u[k].fields) else u[k].fields == map[]
  }

  /** The merge as a value: update values that are dictionaries merge recursively, all others overwrite. */
  function DeepMerge(d: map<string, Json>, u: map<string, Json>): (r: map<string, Json>)
    requires Mergeable(d, u)
    decreases JObj(u)
    ensures r.Keys == d.Keys + u.Keys
    ensures forall k :: k in d && k !in u ==> r[k] == d[k]
    ensures forall k :: k in u && !u[k].JObj? ==> r[k] == u[k]
    ensures forall k :: k in u && u[k].JObj? ==> r[k].JObj? || (k in d && r[k] == d[k] && u[k].fields == map[])
  {
    map k | k in d.Keys + u.Keys ::
      if k !in u || !u[k].JObj? then (if k in u then u[k] else d[k])
      else
        var sub := ExistingOrEmpty(d, k);
        if sub.JObj? then JObj(DeepMerge(sub.fields, u[k].fields)) else sub
  }

  /** The merged value at one key of the update. */
  lemma DeepMergeAt(d: map<string, Json>, u: map<string, Json>, k: string)
    requires Mergeable(d, u) && k in u
    ensures var sub := ExistingOrEmpty(d, k);
      DeepMerge(d, u)[k] ==
        if !u[k].JObj? then u[k]
        else if sub.JObj? then JObj(DeepMerge(sub.fields, u[k].fields))
        else sub
  {
  }

  /** `deep_update(d, u)`, which updates `d` key by key and returns it. */
  method DeepUpdate(d: map<string, Json>, u: map<string, Json>) returns (r: map<string, Json>)
    requires Mergeable(d, u)
    decreases JObj(u)
    ensures r == DeepMerge(d, u)
  {
    r := d;
    var todo := u.Keys;
    while todo != {}
      invariant todo <= u.Keys
      invariant forall k :: k in r <==> k in d || (k in u && k !in todo)
      invariant forall k :: k in r ==> r[k] == if k in u && k !in todo then DeepMerge(d, u)[k] else d[k]
      decreases todo
    {
      var k :| k in todo;
      var v := u[k];
      var value;
      if v.JObj? {
        var sub := if k in r then r[k] else JObj(map[]);
        if sub.JObj? {
          var merged := DeepUpdate(sub.fields, v.fields);
          value := JObj(merged);
        } else {
          // The update is an empty dictionary: the recursive call's loop does nothing.
          value := sub;
        }
      } else {
        value := v;
      }
      DeepMergeAt(d, u, k);
      assert value == DeepMerge(d, u)[k];
      r := r[k := value];
      todo := todo - {k};
    }
  }

  /** Merging into an empty dictionary reproduces the update. */
  lemma {:induction false} MergeIntoEmpty(u: map<string, Json>)
    ensures Mergeable(map[], u)
    ensures DeepMerge(map[], u) == u
    decreases JObj(u)
  {
    forall k | k in u && u[k].JObj?
      ensures Mergeable(map[], u[k].fields) && DeepMerge(map[], u[k].fields) == u[k].fields
    {
      MergeIntoEmpty(u[k].fields);
    }
  }

  /** A merged dictionary can take the same update again. */
  lemma {:induction false} MergeStaysMergeable(d: map<string, Json>, u: map<string, Json>)
    requires Mergeable(d, u)
    ensures Mergeable(DeepMerge(d, u), u)
    decreases JObj(u)
  {
    var r := DeepMerge(d, u);
    forall k | k in u && u[k].JObj?
      ensures var sub := ExistingOrEmpty(r, k);
        if sub.JObj? then Mergeable(sub.fields, u[k].fields) else u[k].fields == map[]
    {
      var sub := ExistingOrEmpty(d, k);
      if sub.JObj? {
        MergeStaysMergeable(sub.fields, u[k].fields);
      }
    }
  }

  /** Applying the same update twice gives the same result as applying it once. */
  lemma {:induction false} MergeIdempotent(d: map<string, Json>, u: map<string, Json>)
    requires Mergeable(d, u)
    ensures Mergeable(DeepMerge(d, u), u)
    ensures DeepMerge(DeepMerge(d, u), u) == DeepMerge(d, u)
    decreases JObj(u)
  {
    MergeStaysMergeable(d, u);
    var r := DeepMerge(d, u);
    forall k | k in u && u[k].JObj? && ExistingOrEmpty(r, k).JObj?
      ensures DeepMerge(ExistingOrEmpty(r, k).fields, u[k].fields) == r[k].fields
    {
      var sub := ExistingOrEmpty(d, k);
      if sub.JObj? {
        MergeIdempotent(sub.fields, u[k].fields);
      }
    }
  }

  /**
   * A nested dictionary in the update keeps the sibling fields it does not
   * name: writing `{pomodoro: {active: ...}}` keeps `pomodoro.cycles_completed_today`.
   */
  lemma NestedSiblingsSurvive(d: map<string, Json>, u: map<string, Json>, k: string, j: string)
    requires Mergeable(d, u)
    requires k in d && d[k].JObj? && k in u && u[k].JObj?
    requires j in d[k].fields && j !in u[k].fields
    ensures DeepMerge(d, u)[k].JObj? && j in DeepMerge(d, u)[k].fields
    ensures DeepMerge(d, u)[k].fields[j] == d[k].fields[j]
  {
  }

  /** `deep_update` applied to a value that may not be a dictionary (the recursive call's case). */
  predicate MergeableInto(d: Json, u: map<string, Json>)
  {
    if d.JObj? then Mergeable(d.fields, u) else u == map[]
  }

  function MergeInto(d: Json, u: map<string, Json>): (r: Json)
    requires MergeableInto(d, u)
    ensures r.JObj? <==> d.JObj?
    ensures d.JObj? ==> r.fields.Keys == d.fields.Keys + u.Keys
  {
    if d.JObj? then JObj(DeepMerge(d.fields, u)) else d
  }

  // ---------------------------------------------------------------------------
  // Application state
  // ---------------------------------------------------------------------------


  /** `DEFAULT_APP_STATE`. */
  const DefaultAppState: Json := JObj(map[
    "current_view" := JStr("active"),
    "selected_task_id" := JNull,
    "focus_mode" := JBool(false),
    "pomodoro" := JObj(map[
      "enabled" := JBool(true),
      "work_minutes" := JInt(25),
      "break_minutes" := JInt(5),
      "active" := JBool(false),
      "on_break" := JBool(false),
      "visible" := JBool(true)]),
    "last_session" := JObj(map[
      "timestamp" := JNull,
      "view" := JStr("active"),
      "selected_task_id" := JNull,
      "focus_mode" := JBool(false)]),
    "settings" := JObj(map[
      "theme" := JStr("default"),
      "keyboard_shortcuts" := JObj(map[
        "add_urgent_task" := JStr("Shift+1"),
        "add_normal_task" := JStr("Shift+2"),
        "add_subtask" := JStr("Shift+3"),
        "toggle_focus_mode" := JStr("Shift+F"),
        "complete_task" := JStr("Space"),
        "effort_level_1" := JStr("Alt+1"),
        "effort_level_2" := JStr("Alt+2"),
        "effort_level_3" := JStr("Alt+3"),
        "edit_task" := JStr("Shift+E"),
        "delete_task" := JStr("Shift+D"),
        "collapse_subtasks" := JStr("Ctrl+ArrowLeft"),
        "expand_subtasks" := JStr("Ctrl+ArrowRight"),
        "move_task_up" := JStr("Alt+ArrowUp"),
        "move_task_down" := JStr("Alt+ArrowDown"),
        "active_tasks_tab" := JStr("Alt+A"),
        "completed_tasks_tab" := JStr("Alt+C"),
        "toggle_pomodoro" := JStr("Shift+T"),
        "access_templates" := JStr("Alt+T"),
        "save_as_template" := JStr("Shift+S")])])])

  /**
   * `get_app_state()` on the stored `app_state` (None when the key is absent):
   * the stored value when it is a non-empty dictionary, otherwise the defaults.
   */
  function AppStateView(stored: Option<Json>): (r: Json)
    ensures r.JObj? && r.fields != map[]
    ensures stored.None? || !stored.value.JObj? || stored.value.fields == map[] ==> r == DefaultAppState
    ensures stored.Some? && stored.value.JObj? && stored.value.fields != map[] ==> r == stored.value
  {
    if stored.None? || !stored.value.JObj? || stored.value.fields == map[] then
      assert "focus_mode" in DefaultAppState.fields;
      DefaultAppState
    else stored.value
  }

  /** `data.get('app_state', DEFAULT_APP_STATE.copy())`: what `update_app_state` merges into. */
  function MergeBase(stored: Option<Json>): Json
  {
    stored.GetOr(DefaultAppState)
  }

  /**
   * The two defaulting rules differ: a stored empty dictionary reads back as
   * the defaults, but an update merges into it as it is, so the first update
   * after it replaces the state by that update alone.
   */
  lemma EmptyStoredStateDropsDefaults(u: map<string, Json>)
    requires u != map[]
    ensures AppStateView(Some(JObj(map[]))) == DefaultAppState
    ensures MergeableInto(MergeBase(Some(JObj(map[]))), u)
    ensures AppStateView(Some(MergeInto(MergeBase(Some(JObj(map[]))), u))) == JObj(u)
  {
    MergeIntoEmpty(u);
  }

  /** After a non-empty update of a stored dictionary, reading the state gives the merged dictionary. */
  lemma ReadAfterUpdate(stored: Option<Json>, u: map<string, Json>)
    requires u != map[] && MergeableInto(MergeBase(stored), u)
    ensures MergeBase(stored).JObj? ==> AppStateView(Some(MergeInto(MergeBase(stored), u))) == MergeInto(MergeBase(stored), u)
  {
    if MergeBase(stored).JObj? {
      var k :| k in u;
      assert k in MergeInto(MergeBase(stored), u).fields;
    }
  }

  // ---------------------------------------------------------------------------
  // Task and subtask updates
  // ---------------------------------------------------------------------------

  /** The change `set_task_completion_status` makes to the matching task. */
  function WithCompletion(t: Task, status: bool, now: string): Task
  {
    if t.completed == status then t
    else t.(completed := status, completedAt := if status then Some(now) else None)
  }

  /** The completion update sets the flag, stamps or clears the time only on a change, and touches nothing else. */
  lemma WithCompletionProperties(t: Task, status: bool, now: string, later: string)
    ensures WithCompletion(t, status, now).completed == status
    ensures t.completed == status ==> WithCompletion(t, status, now) == t
    ensures t.completed != status ==> WithCompletion(t, status, now).completedAt == (if status then Some(now) else None)
    ensures WithCompletion(t, status, now) == t.(completed := status, completedAt := WithCompletion(t, status, now).completedAt)
    ensures WithCompletion(WithCompletion(t, status, now), status, later) == WithCompletion(t, status, now)
  {
  }

  /** The keys `update_task_by_id` copies into the task. */
  const TaskUpdateKeys: set<string> := {"title", "urgency", "effort", "collapsed"}

  /** The value of key `k` in `updates` if present, else `current`. */
  function Updated(updates: map<string, Json>, k: string, current: Json): Json
  {
    if k in updates then updates[k] else current
  }

  /** The change `update_task_by_id` makes to the matching task. */
  function WithTaskUpdates(t: Task, updates: map<string, Json>): Task
  {
    t.(title := Updated(updates, "title", t.title),
       urgency := Updated(updates, "urgency", t.urgency),
       effort := Updated(updates, "effort", t.effort),
       collapsed := Updated(updates, "collapsed", t.collapsed))
  }

  /** `updates` restricted to the keys in `keys`. */
  function Restrict(updates: map<string, Json>, keys: set<string>): (r: map<string, Json>)
    ensures r.Keys == updates.Keys * keys
    ensures forall k :: k in r ==> r[k] == updates[k]
  {
    map k | k in updates && k in keys :: updates[k]
  }

  /**
   * Only the four updatable fields change, each exactly when its key is
   * present; every other key of the update is ignored, and applying it again
   * changes nothing.
   */
  lemma TaskUpdatesProperties(t: Task, updates: map<string, Json>)
    ensures var r := WithTaskUpdates(t, updates);
      && r.id == t.id && r.completed == t.completed && r.createdAt == t.createdAt
      && r.completedAt == t.completedAt && r.subtasks == t.subtasks
      && ("title" in updates ==> r.title == updates["title"]) && ("title" !in updates ==> r.title == t.title)
      && ("urgency" in updates ==> r.urgency == updates["urgency"]) && ("urgency" !in updates ==> r.urgency == t.urgency)
      && ("effort" in updates ==> r.effort == updates["effort"]) && ("effort" !in updates ==> r.effort == t.effort)
      && ("collapsed" in updates ==> r.collapsed == updates["collapsed"]) && ("collapsed" !in updates ==> r.collapsed == t.collapsed)
    ensures WithTaskUpdates(t, Restrict(updates, TaskUpdateKeys)) == WithTaskUpdates(t, updates)
    ensures WithTaskUpdates(WithTaskUpdates(t, updates), updates) == WithTaskUpdates(t, updates)
    ensures (forall k :: k in updates ==> k !in TaskUpdateKeys) ==> WithTaskUpdates(t, updates) == t
  {
  }

  /** The list `delete_task_by_id` keeps: every task whose id differs. */
  function WithoutTask(tasks: seq<Task>, id: string): seq<Task>
  {
    Filter(tasks, (t: Task) => t.id != id)
  }

  /** Deleting leaves no task with the id, keeps the others in order, and shortens the list exactly when the id was present. */
  lemma WithoutTaskProperties(tasks: seq<Task>, id: string)
    ensures forall i :: 0 <= i < |WithoutTask(tasks, id)| ==> WithoutTask(tasks, id)[i].id != id
    ensures forall i :: 0 <= i < |tasks| && tasks[i].id != id ==> tasks[i] in WithoutTask(tasks, id)
    ensures IsSubsequence(WithoutTask(tasks, id), tasks)
    ensures |WithoutTask(tasks, id)| < |tasks| <==> exists i :: 0 <= i < |tasks| && tasks[i].id == id
    ensures FindTask(tasks, id).None? ==> WithoutTask(tasks, id) == tasks
  {
    var p := (t: Task) => t.id != id;
    FilterMembers(tasks, p);
    FilterIsSubsequence(tasks, p);
    FilterShorterIff(tasks, p);
    if FindTask(tasks, id).None? {
      FilterKeepsAll(tasks, p);
    }
  }

  /** The subtask `add_subtask_to_task` appends. */
  function NewSubtask(request: map<string, Json>, subtaskId: string, now: string): (st: Subtask)
    ensures st.id == subtaskId && st.completed == JBool(false) && st.completedAt.None? && st.createdAt == now
    ensures st.title == if "title" in request then request["title"] else JStr("New Subtask")
  {
    Subtask(subtaskId, Updated(request, "title", JStr("New Subtask")), JBool(false), now, None)
  }

  /**
   * With a fresh id, the appended subtask is what the id search finds next,
   * and it starts incomplete: checking it later stamps the time of that check.
   */
  lemma NewSubtaskFound(subtasks: seq<Subtask>, request: map<string, Json>, subtaskId: string, now: string, later: string)
    requires forall j :: 0 <= j < |subtasks| ==> subtasks[j].id != subtaskId
    ensures var st := NewSubtask(request, subtaskId, now);
      && FindSubtask(subtasks + [st], subtaskId) == Some(|subtasks|)
      && !PyTruthy(st.completed) && st.completedAt.None?
      && WithSubtaskUpdates(st, map["completed" := JBool(true)], later).completedAt == Some(later)
  {
    var st := NewSubtask(request, subtaskId, now);
    var all := subtasks + [st];
    assert forall j :: 0 <= j < |subtasks| ==> all[j] == subtasks[j];
    FindSubtaskAt(all, subtaskId, |subtasks|);
  }

  /** The change `update_subtask_in_task` makes to the matching subtask. */
  function WithSubtaskUpdates(st: Subtask, updates: map<string, Json>, now: string): Subtask
  {
    var titled := st.(title := Updated(updates, "title", st.title));
    if "completed" !in updates then titled
    else
      var isNow := updates["completed"];
      var stamp :=
        if PyTruthy(isNow) && !PyTruthy(st.completed) then Some(now)
        else if !PyTruthy(isNow) then None
        else st.completedAt;
      titled.(completed := isNow, completedAt := stamp)
  }

  /**
   * The completion time is stamped only on a false-to-true change, kept when
   * the subtask stays completed, and cleared whenever it is set to false.
   */
  lemma SubtaskUpdatesProperties(st: Subtask, updates: map<string, Json>, now: string)
    ensures var r := WithSubtaskUpdates(st, updates, now);
      && r.id == st.id && r.createdAt == st.createdAt
      && r.title == Updated(updates, "title", st.title)
      && ("completed" !in updates ==> r.completed == st.completed && r.completedAt == st.completedAt)
      && ("completed" in updates ==> r.completed == updates["completed"])
      && ("completed" in updates && PyTruthy(updates["completed"]) && !PyTruthy(st.completed) ==> r.completedAt == Some(now))
      && ("completed" in updates && PyTruthy(updates["completed"]) && PyTruthy(st.completed) ==> r.completedAt == st.completedAt)
      && ("completed" in updates && !PyTruthy(updates["completed"]) ==> r.completedAt.None?)
  {
  }

  /** The subtask list `delete_subtask_from_task` keeps. */
  function WithoutSubtask(subtasks: seq<Subtask>, id: string): seq<Subtask>
  {
    Filter(subtasks, (st: Subtask) => st.id != id)
  }

  lemma WithoutSubtaskProperties(subtasks: seq<Subtask>, id: string)
    ensures forall i :: 0 <= i < |WithoutSubtask(subtasks, id)| ==> WithoutSubtask(subtasks, id)[i].id != id
    ensures IsSubsequence(WithoutSubtask(subtasks, id), subtasks)
    ensures |WithoutSubtask(subtasks, id)| < |subtasks| <==> exists i :: 0 <= i < |subtasks| && subtasks[i].id == id
    ensures FindSubtask(subtasks, id).None? ==> WithoutSubtask(subtasks, id) == subtasks
  {
    var p := (st: Subtask) => st.id != id;
    FilterMembers(subtasks, p);
    FilterIsSubsequence(subtasks, p);
    FilterShorterIff(subtasks, p);
    if FindSubtask(subtasks, id).None? {
      FilterKeepsAll(subtasks, p);
    }
  }

  /** The loaded document: its `tasks` list and its `app_state` entry (None when the key is absent). */
  class DataFile {
    var tasks: seq<Task>
    var appState: Option<Json>

    constructor (tasks: seq<Task>, appState: Option<Json>)
      ensures this.tasks == tasks && this.appState == appState
    {
      this.tasks := tasks;
      this.appState := appState;
    }

    /** `get_app_state()`. */
    function GetAppState(): (r: Json)
      reads this
      ensures r.JObj? && r.fields != map[]
    {
      AppStateView(appState)
    }

    /** `update_app_state(new_state_data)`; None for an update that is not a dictionary. */
    method UpdateAppState(newState: Json) returns (r: Option<Json>)
      requires newState.JObj? ==> MergeableInto(MergeBase(appState), newState.fields)
      modifies this
      ensures tasks == old(tasks)
      ensures !newState.JObj? ==> r.None? && appState == old(appState)
      ensures newState.JObj? ==> r == Some(MergeInto(MergeBase(old(appState)), newState.fields)) && appState == r
    {
      if !newState.JObj? {
        return None;
      }
      var current := MergeBase(appState);
      var updated := current;
      if current.JObj? {
        var merged := DeepUpdate(current.fields, newState.fields);
        updated := JObj(merged);
      }
      appState := Some(updated);
      r := Some(updated);
    }

    /** `set_task_completion_status(task_id, completed_status)` with `now` for the current time. */
    method SetTaskCompletionStatus(taskId: string, status: bool, now: string) returns (r: Option<Task>)
      modifies this
      ensures appState == old(appState)
      ensures FindTask(old(tasks), taskId).None? ==> r.None? && tasks == old(tasks)
      ensures FindTask(old(tasks), taskId).Some? ==>
        var i := FindTask(old(tasks), taskId).value;
        tasks == old(tasks)[i := WithCompletion(old(tasks)[i], status, now)] && r == Some(tasks[i])
    {
      var i := 0;
      while i < |tasks|
        invariant i <= |tasks| && tasks == old(tasks)
        invariant forall j :: 0 <= j < i ==> tasks[j].id != taskId
      {
        if tasks[i].id == taskId {
          FindTaskAt(tasks, taskId, i);
          var task := tasks[i];
          if task.completed == status {
            return Some(task);
          }
          task := task.(completed := status);
          if status {
            task := task.(completedAt := Some(now));
          } else {
            task := task.(completedAt := None);
          }
          tasks := tasks[i := task];
          return Some(task);
        }
        i := i + 1;
      }
      FindTaskNone(tasks, taskId);
      return None;
    }

    /** `update_task_by_id(task_id, task_updates)`. */
    method UpdateTaskById(taskId: string, updates: map<string, Json>) returns (r: Option<Task>)
      modifies this
      ensures appState == old(appState)
      ensures FindTask(old(tasks), taskId).None? ==> r.None? && tasks == old(tasks)
      ensures FindTask(old(tasks), taskId).Some? ==>
        var i := FindTask(old(tasks), taskId).value;
        tasks == old(tasks)[i := WithTaskUpdates(old(tasks)[i], updates)] && r == Some(tasks[i])
    {
      var i := 0;
      while i < |tasks|
        invariant i <= |tasks| && tasks == old(tasks)
        invariant forall j :: 0 <= j < i ==> tasks[j].id != taskId
      {
        if tasks[i].id == taskId {
          FindTaskAt(tasks, taskId, i);
          var task := tasks[i];
          if "title" in updates {
            task := task.(title := updates["title"]);
          }
          if "urgency" in updates {
            task := task.(urgency := updates["urgency"]);
          }
          if "effort" in updates {
            task := task.(effort := updates["effort"]);
          }
          if "collapsed" in updates {
            task := task.(collapsed := updates["collapsed"]);
          }
          tasks := tasks[i := task];
          return Some(task);
        }
        i := i + 1;
      }
      FindTaskNone(tasks, taskId);
      return None;
    }

    /** `delete_task_by_id(task_id)`: true exactly when some task had the id. */
    method DeleteTaskById(taskId: string) returns (deleted: bool)
      modifies this
      ensures appState == old(appState)
      ensures deleted <==> exists i :: 0 <= i < |old(tasks)| && old(tasks)[i].id == taskId
      ensures tasks == WithoutTask(old(tasks), taskId)
    {
      WithoutTaskProperties(tasks, taskId);
      var kept := WithoutTask(tasks, taskId);
      if |kept| < |tasks| {
        tasks := kept;
        return true;
      }
      return false;
    }

    /** `add_subtask_to_task(parent_task_id, subtask_data_from_request)` with the new id and the time as parameters. */
    method AddSubtaskToTask(parentId: string, request: map<string, Json>, subtaskId: string, now: string)
      returns (r: Option<Subtask>)
      modifies this
      ensures appState == old(appState)
      ensures FindTask(old(tasks), parentId).None? ==> r.None? && tasks == old(tasks)
      ensures FindTask(old(tasks), parentId).Some? ==>
        var i := FindTask(old(tasks), parentId).value;
        r == Some(NewSubtask(request, subtaskId, now))
        && tasks == old(tasks)[i := old(tasks)[i].(subtasks := old(tasks)[i].subtasks + [r.value])]
    {
      var parentIndex := -1;
      var i := 0;
      while i < |tasks|
        invariant i <= |tasks| && tasks == old(tasks)
        invariant forall j :: 0 <= j < i ==> tasks[j].id != parentId
      {
        if tasks[i].id == parentId {
          FindTaskAt(tasks, parentId, i);
          parentIndex := i;
          break;
        }
        i := i + 1;
      }
      if parentIndex == -1 {
        FindTaskNone(tasks, parentId);
        return None;
      }
      var parent := tasks[parentIndex];
      var subtask := Subtask(subtaskId, Updated(request, "title", JStr("New Subtask")), JBool(false), now, None);
      parent := parent.(subtasks := parent.subtasks + [subtask]);
      tasks := tasks[parentIndex := parent];
      return Some(subtask);
    }

    /** `update_subtask_in_task(parent_task_id, subtask_id, subtask_updates)`; only the first task with the parent id is searched. */
    method UpdateSubtaskInTask(parentId: string, subtaskId: string, updates: map<string, Json>, now: string)
      returns (r: Option<Subtask>)
      modifies this
      ensures appState == old(appState)
      ensures FindTask(old(tasks), parentId).None? ==> r.None? && tasks == old(tasks)
      ensures FindTask(old(tasks), parentId).Some? ==>
        var i := FindTask(old(tasks), parentId).value;
        var subs := old(tasks)[i].subtasks;
        (FindSubtask(subs, subtaskId).None? ==> r.None? && tasks == old(tasks))
        && (FindSubtask(subs, subtaskId).Some? ==>
              var j := FindSubtask(subs, subtaskId).value;
              r == Some(WithSubtaskUpdates(subs[j], updates, now))
              && tasks == old(tasks)[i := old(tasks)[i].(subtasks := subs[j := r.value])])
    {
      var parentIndex := -1;
      var subtaskIndex := -1;
      var i := 0;
      while i < |tasks|
        invariant i <= |tasks| && tasks == old(tasks)
        invariant forall j :: 0 <= j < i ==> tasks[j].id != parentId
      {
        if tasks[i].id == parentId {
          FindTaskAt(tasks, parentId, i);
          parentIndex := i;
          var subs := tasks[i].subtasks;
          var j := 0;
          while j < |subs|
            invariant j <= |subs|
            invariant forall m :: 0 <= m < j ==> subs[m].id != subtaskId
          {
            if subs[j].id == subtaskId {
              FindSubtaskAt(subs, subtaskId, j);
              subtaskIndex := j;
              break;
            }
            j := j + 1;
          }
          if subtaskIndex == -1 {
            FindSubtaskNone(subs, subtaskId);
          }
          break;
        }
        i := i + 1;
      }
      if parentIndex == -1 {
        FindTaskNone(tasks, parentId);
        return None;
      }
      if subtaskIndex == -1 {
        return None;
      }
      var parent := tasks[parentIndex];
      var subtask := parent.subtasks[subtaskIndex];
      if "title" in updates {
        subtask := subtask.(title := updates["title"]);
      }
      if "completed" in updates {
        var wasCompleted := subtask.completed;
        var isNowCompleted := updates["completed"];
        subtask := subtask.(completed := isNowCompleted);
        if PyTruthy(isNowCompleted) && !PyTruthy(wasCompleted) {
          subtask := subtask.(completedAt := Some(now));
        } else if !PyTruthy(isNowCompleted) {
          subtask := subtask.(completedAt := None);
        }
      }
      parent := parent.(subtasks := parent.subtasks[subtaskIndex := subtask]);
      tasks := tasks[parentIndex := parent];
      return Some(subtask);
    }

    /** `delete_subtask_from_task(parent_task_id, subtask_id)`: true exactly when the first task with the parent id had such a subtask. */
    method DeleteSubtaskFromTask(parentId: string, subtaskId: string) returns (deleted: bool)
      modifies this
      ensures appState == old(appState)
      ensures FindTask(old(tasks), parentId).None? ==> !deleted && tasks == old(tasks)
      ensures FindTask(old(tasks), parentId).Some? ==>
        var i := FindTask(old(tasks), parentId).value;
        var subs := old(tasks)[i].subtasks;
        (deleted <==> exists m :: 0 <= m < |subs| && subs[m].id == subtaskId)
        && tasks == old(tasks)[i := old(tasks)[i].(subtasks := WithoutSubtask(subs, subtaskId))]
    {
      var i := 0;
      while i < |tasks|
        invariant i <= |tasks| && tasks == old(tasks)
        invariant forall j :: 0 <= j < i ==> tasks[j].id != parentId
      {
        if tasks[i].id == parentId {
          FindTaskAt(tasks, parentId, i);
          var task := tasks[i];
          WithoutSubtaskProperties(task.subtasks, subtaskId);
          var originalCount := |task.subtasks|;
          task := task.(subtasks := WithoutSubtask(task.subtasks, subtaskId));
          tasks := tasks[i := task];
          return |task.subtasks| < originalCount;
        }
        i := i + 1;
      }
      FindTaskNone(tasks, parentId);
      return false;
    }
  }
}
