/**
 * The JSON API's request handling: the acceptance rules and status codes of the
 * task, subtask, completion and state routes. Each rule is a pure function
 * from the request body to either what is passed on to the store or the error
 * response; each handler runs its rule and then the store operation.
 */
module ApiRoutes {
  import opened Wrappers
  import opened Json
  import opened Text
  import opened Tasks
  import opened TaskModel
  import AppView

  /** A response body: a record, the state, a JSON error message, or the framework's page for an uncaught exception. */
  datatype Payload =
    | TaskBody(task: Task)
    | SubtaskBody(subtask: Subtask)
    | StateBody(state: Json)
    | ErrorBody(error: string)
    | UncaughtError

  datatype Response = Response(status: nat, payload: Payload)

  /** The response for a refused request; status 500 with no message stands for an exception the route does not catch. */
  function Refusal<T>(r: Result<T>): Response
    requires r.Fail?
  {
    if r.status == 500 && r.message == "" then Response(500, UncaughtError) else Response(r.status, ErrorBody(r.message))
  }

  /** The body `request.json` yields: None for a missing body; a dictionary otherwise. */
  type Body = Option<map<string, Json>>

  /** `not body`: no body, or an empty dictionary. */
  predicate Empty(body: Body)
  {
    body.None? || body.value == map[]
  }

  /** A dictionary with a key is not `{}`. */
  lemma HasKeyNotEmpty(b: map<string, Json>, k: string)
    requires k in b
    ensures b != map[]
  {
    var e: map<string, Json> := map[];
    assert k !in e;
  }

  // ---------------------------------------------------------------------------
  // POST /tasks
  // ---------------------------------------------------------------------------

  /** `add_task`'s check and the record it builds, with the new id and the time as parameters. */
  function NewTaskFromRequest(body: Body, taskId: string, now: string): Result<Task>
  {
    if Empty(body) || "title" !in body.value then Fail(400, "Task title is required")
    else
      var b := body.value;
      Ok(Task(taskId, b["title"], Updated(b, "urgency", JInt(0)), Updated(b, "effort", JInt(1)),
              false, now, None, [], JBool(false)))
  }

  /**
   * A task is created exactly when the body has a title; it takes the title
   * as given, urgency 0 and effort 1 unless given, and starts incomplete with
   * no subtasks and not collapsed, whatever the body says about those.
   */
  lemma NewTaskProperties(body: Body, taskId: string, now: string)
    ensures NewTaskFromRequest(body, taskId, now).Ok? <==> body.Some? && "title" in body.value
    ensures NewTaskFromRequest(body, taskId, now).Fail? ==> NewTaskFromRequest(body, taskId, now).status == 400
    ensures NewTaskFromRequest(body, taskId, now).Ok? ==>
      var t := NewTaskFromRequest(body, taskId, now).value;
      && t.id == taskId && t.createdAt == now && t.title == body.value["title"]
      && t.urgency == (if "urgency" in body.value then body.value["urgency"] else JInt(0))
      && t.effort == (if "effort" in body.value then body.value["effort"] else JInt(1))
      && !t.completed && t.completedAt.None? && t.subtasks == [] && t.collapsed == JBool(false)
  {
  }

  /** `POST /api/tasks`: 201 with the new task, appended at the end of the list. */
  method AddTaskRoute(store: DataFile, body: Body, taskId: string, now: string) returns (resp: Response)
    modifies store
    ensures store.appState == old(store.appState)
    ensures NewTaskFromRequest(body, taskId, now).Fail? ==>
      resp == Refusal(NewTaskFromRequest(body, taskId, now)) && store.tasks == old(store.tasks)
    ensures NewTaskFromRequest(body, taskId, now).Ok? ==>
      var t := NewTaskFromRequest(body, taskId, now).value;
      resp == Response(201, TaskBody(t)) && store.tasks == old(store.tasks) + [t]
  {
    var r := NewTaskFromRequest(body, taskId, now);
    if r.Fail? {
      return Refusal(r);
    }
    store.tasks := store.tasks + [r.value];
    return Response(201, TaskBody(r.value));
  }

  // ---------------------------------------------------------------------------
  // PUT /tasks/<id>
  // ---------------------------------------------------------------------------

  predicate ValidUrgency(v: Json)
  {
    v == JInt(0) || v == JInt(1)
  }

  predicate ValidEffort(v: Json)
  {
    v.JInt? && 1 <= v.i <= 3
  }

  /** `update_task`'s checks, in the order the source makes them, and the updates it passes on. */
  function AllowedTaskUpdates(body: Body): Result<map<string, Json>>
  {
    if Empty(body) then Fail(400, "No update data provided")
    else
      var u := body.value;
      if "urgency" in u && !ValidUrgency(u["urgency"]) then Fail(400, "Invalid urgency value")
      else if "effort" in u && !ValidEffort(u["effort"]) then Fail(400, "Invalid effort value")
      else if "collapsed" in u && !u["collapsed"].JBool? then Fail(400, "Invalid collapsed value")
      else
        var allowed := Restrict(u, TaskUpdateKeys);
        if allowed == map[] then Fail(400, "No valid fields to update provided")
        else Ok(allowed)
  }

  /**
   * The updates pass exactly when the body is non-empty, names at least one
   * of the four updatable fields, and every one of urgency, effort and
   * collapsed it names is valid; what passes on is the body restricted to those
   * four fields.
   */
  lemma AllowedTaskUpdatesProperties(body: Body)
    ensures var r := AllowedTaskUpdates(body);
      && (r.Ok? <==>
            && body.Some?
            && (exists k :: k in body.value && k in TaskUpdateKeys)
            && ("urgency" in body.value ==> ValidUrgency(body.value["urgency"]))
            && ("effort" in body.value ==> ValidEffort(body.value["effort"]))
            && ("collapsed" in body.value ==> body.value["collapsed"].JBool?))
      && (r.Ok? ==> r.value == Restrict(body.value, TaskUpdateKeys) && r.value != map[])
      && (r.Fail? ==> r.status == 400)
  {
    var r := AllowedTaskUpdates(body);
    if body.Some? && exists k :: k in body.value && k in TaskUpdateKeys {
      var k :| k in body.value && k in TaskUpdateKeys;
      assert k in Restrict(body.value, TaskUpdateKeys);
    }
  }

  /** `PUT /api/tasks/<id>`: 200 with the updated task, 404 when no task has the id. */
  method UpdateTaskRoute(store: DataFile, taskId: string, body: Body) returns (resp: Response)
    modifies store
    ensures store.appState == old(store.appState)
    ensures AllowedTaskUpdates(body).Fail? ==> resp == Refusal(AllowedTaskUpdates(body)) && store.tasks == old(store.tasks)
    ensures AllowedTaskUpdates(body).Ok? && FindTask(old(store.tasks), taskId).None? ==>
      resp == Response(404, ErrorBody("Task not found or update failed")) && store.tasks == old(store.tasks)
    ensures AllowedTaskUpdates(body).Ok? && FindTask(old(store.tasks), taskId).Some? ==>
      var i := FindTask(old(store.tasks), taskId).value;
      store.tasks == old(store.tasks)[i := WithTaskUpdates(old(store.tasks)[i], AllowedTaskUpdates(body).value)]
      && resp == Response(200, TaskBody(store.tasks[i]))
  {
    var allowed := AllowedTaskUpdates(body);
    if allowed.Fail? {
      return Refusal(allowed);
    }
    var updated := store.UpdateTaskById(taskId, allowed.value);
    if updated.Some? {
      return Response(200, TaskBody(updated.value));
    }
    return Response(404, ErrorBody("Task not found or update failed"));
  }

  // ---------------------------------------------------------------------------
  // Subtasks
  // ---------------------------------------------------------------------------

  /** What `.strip()` on a title does: raises on a non-string, else yields blank or non-blank text. */
  datatype TitleVerdict = Raises | Blank | NonBlank

  function CheckTitle(v: Json): TitleVerdict
  {
    if !v.JStr? then Raises else if IsBlank(v.s) then Blank else NonBlank
  }

  /** `add_subtask_route`'s check; the body passes on unchanged. */
  function ValidNewSubtask(body: Body): Result<map<string, Json>>
  {
    if Empty(body) || "title" !in body.value then Fail(400, "Subtask title is required")
    else match CheckTitle(body.value["title"])
      case Raises => Fail(500, "")
      case Blank => Fail(400, "Subtask title is required")
      case NonBlank => Ok(body.value)
  }

  /** A subtask is accepted exactly when its title is a string that is not blank after stripping. */
  lemma ValidNewSubtaskProperties(body: Body)
    ensures var r := ValidNewSubtask(body);
      && (r.Ok? <==> body.Some? && "title" in body.value && body.value["title"].JStr? && Trim(body.value["title"].s) != [])
      && (r.Ok? ==> r.value == body.value)
      && (r.Fail? && r.status == 500 <==> body.Some? && "title" in body.value && !body.value["title"].JStr?)
  {
    if !Empty(body) && "title" in body.value {
      var t := body.value["title"];
      if t.JStr? {
        TrimEmptyIffBlank(t.s);
        assert ValidNewSubtask(body) == (if Trim(t.s) == [] then Fail(400, "Subtask title is required") else Ok(body.value));
      } else {
        assert ValidNewSubtask(body) == Fail(500, "");
      }
    }
  }

  /** `POST /api/tasks/<id>/subtasks`: 201 with the new subtask, 404 when no task has the parent id. */
  method AddSubtaskRoute(store: DataFile, taskId: string, body: Body, subtaskId: string, now: string) returns (resp: Response)
    modifies store
    ensures store.appState == old(store.appState)
    ensures ValidNewSubtask(body).Fail? ==> resp == Refusal(ValidNewSubtask(body)) && store.tasks == old(store.tasks)
    ensures ValidNewSubtask(body).Ok? && FindTask(old(store.tasks), taskId).None? ==>
      resp == Response(404, ErrorBody("Parent task not found or failed to add subtask")) && store.tasks == old(store.tasks)
    ensures ValidNewSubtask(body).Ok? && FindTask(old(store.tasks), taskId).Some? ==>
      var i := FindTask(old(store.tasks), taskId).value;
      var st := NewSubtask(body.value, subtaskId, now);
      resp == Response(201, SubtaskBody(st))
      && store.tasks == old(store.tasks)[i := old(store.tasks)[i].(subtasks := old(store.tasks)[i].subtasks + [st])]
  {
    var checked := ValidNewSubtask(body);
    if checked.Fail? {
      return Refusal(checked);
    }
    var added := store.AddSubtaskToTask(taskId, checked.value, subtaskId, now);
    if added.Some? {
      return Response(201, SubtaskBody(added.value));
    }
    return Response(404, ErrorBody("Parent task not found or failed to add subtask"));
  }

  /** `update_subtask_route`'s checks; the body passes on unchanged. */
  function ValidSubtaskUpdates(body: Body): Result<map<string, Json>>
  {
    if Empty(body) then Fail(400, "No update data provided")
    else
      var u := body.value;
      if "completed" in u && !u["completed"].JBool? then Fail(400, "Invalid 'completed' status")
      else if "title" in u && u["title"] == JNull then Fail(400, "Title cannot be empty")
      else if "title" in u && CheckTitle(u["title"]) == Raises then Fail(500, "")
      else if "title" in u && CheckTitle(u["title"]) == Blank then Fail(400, "Title cannot be empty")
      else Ok(u)
  }

  /**
   * Subtask updates pass exactly when the body is non-empty, any `completed`
   * is a boolean and any `title` is a non-blank string; a title that is
   * neither null nor a string raises.
   */
  lemma ValidSubtaskUpdatesProperties(body: Body)
    ensures var r := ValidSubtaskUpdates(body);
      && (r.Ok? <==>
            && !Empty(body)
            && ("completed" in body.value ==> body.value["completed"].JBool?)
            && ("title" in body.value ==> body.value["title"].JStr? && Trim(body.value["title"].s) != []))
      && (r.Ok? ==> r.value == body.value)
      && (r.Fail? && r.status == 500 <==>
            && !Empty(body)
            && ("completed" in body.value ==> body.value["completed"].JBool?)
            && "title" in body.value && body.value["title"] != JNull && !body.value["title"].JStr?)
  {
    if Empty(body) {
      assert ValidSubtaskUpdates(body) == Fail(400, "No update data provided");
    } else {
      var u := body.value;
      if "completed" in u && !u["completed"].JBool? {
        assert ValidSubtaskUpdates(body) == Fail(400, "Invalid 'completed' status");
      } else if "title" !in u {
        assert ValidSubtaskUpdates(body) == Ok(u);
      } else {
        var t := u["title"];
        if t.JStr? {
          TrimEmptyIffBlank(t.s);
          assert ValidSubtaskUpdates(body) == (if Trim(t.s) == [] then Fail(400, "Title cannot be empty") else Ok(u));
        } else if t == JNull {
          assert ValidSubtaskUpdates(body) == Fail(400, "Title cannot be empty");
        } else {
          assert ValidSubtaskUpdates(body) == Fail(500, "");
        }
      }
    }
  }

  /** `PUT /api/tasks/<id>/subtasks/<subtask_id>`: 200 with the updated subtask, 404 when the parent or the subtask is missing. */
  method UpdateSubtaskRoute(store: DataFile, taskId: string, subtaskId: string, body: Body, now: string) returns (resp: Response)
    modifies store
    ensures store.appState == old(store.appState)
    ensures ValidSubtaskUpdates(body).Fail? ==> resp == Refusal(ValidSubtaskUpdates(body)) && store.tasks == old(store.tasks)
    ensures ValidSubtaskUpdates(body).Ok? ==>
      var parent := FindTask(old(store.tasks), taskId);
      var found := parent.Some? && FindSubtask(old(store.tasks)[parent.value].subtasks, subtaskId).Some?;
      && (!found ==> resp == Response(404, ErrorBody("Parent task or subtask not found, or update failed")) && store.tasks == old(store.tasks))
      && (found ==>
            var i := parent.value;
            var subs := old(store.tasks)[i].subtasks;
            var j := FindSubtask(subs, subtaskId).value;
            var st := WithSubtaskUpdates(subs[j], body.value, now);
            resp == Response(200, SubtaskBody(st))
            && store.tasks == old(store.tasks)[i := old(store.tasks)[i].(subtasks := subs[j := st])])
  {
    var checked := ValidSubtaskUpdates(body);
    if checked.Fail? {
      return Refusal(checked);
    }
    var updated := store.UpdateSubtaskInTask(taskId, subtaskId, checked.value, now);
    if updated.Some? {
      return Response(200, SubtaskBody(updated.value));
    }
    return Response(404, ErrorBody("Parent task or subtask not found, or update failed"));
  }

  // ---------------------------------------------------------------------------
  // Completion
  // ---------------------------------------------------------------------------

  /** `PUT /api/tasks/<id>/complete` (`status` true) and `.../uncomplete` (false): 404 exactly when the store finds no task. */
  method SetCompletionRoute(store: DataFile, taskId: string, status: bool, now: string) returns (resp: Response)
    modifies store
    ensures store.appState == old(store.appState)
    ensures FindTask(old(store.tasks), taskId).None? ==>
      resp == Response(404, ErrorBody("Task not found or failed to update")) && store.tasks == old(store.tasks)
    ensures FindTask(old(store.tasks), taskId).Some? ==>
      var i := FindTask(old(store.tasks), taskId).value;
      store.tasks == old(store.tasks)[i := WithCompletion(old(store.tasks)[i], status, now)]
      && resp == Response(200, TaskBody(store.tasks[i]))
  {
    var updated := store.SetTaskCompletionStatus(taskId, status, now);
    if updated.Some? {
      return Response(200, TaskBody(updated.value));
    }
    return Response(404, ErrorBody("Task not found or failed to update"));
  }

  // ---------------------------------------------------------------------------
  // PUT /state
  // ---------------------------------------------------------------------------

  /** What `update_state_route` does with a body, given the stored `app_state`. */
  function StateUpdateOutcome(stored: Option<Json>, body: Option<Json>): Result<Json>
  {
    if body.None? || !body.value.JObj? then Fail(400, "Invalid request data: must be a JSON object")
    else if !MergeableInto(MergeBase(stored), body.value.fields) then Fail(500, "An internal error occurred while updating state")
    else
      var merged := MergeInto(MergeBase(stored), body.value.fields);
      if merged == JNull then Fail(400, "Failed to update application state, data might be invalid")
      else Ok(merged)
  }

  /**
   * A body that is not an object is refused with 400; an object is merged into
   * the stored state (or the defaults when there is none), with 500 when the
   * merge hits a value that is not a dictionary, and with 400 in the one case
   * the merge yields None: a stored null and an empty update.
   */
  lemma StateUpdateProperties(stored: Option<Json>, body: Option<Json>)
    ensures var r := StateUpdateOutcome(stored, body);
      && (body.None? || !body.value.JObj? ==> r == Fail(400, "Invalid request data: must be a JSON object"))
      && (r.Ok? ==> body.Some? && body.value.JObj? && r.value == MergeInto(MergeBase(stored), body.value.fields))
      && (r.Ok? && MergeBase(stored).JObj? ==> r.value.JObj? && r.value.fields.Keys == MergeBase(stored).fields.Keys + body.value.fields.Keys)
      && (stored.None? && body.Some? && body.value.JObj? ==> r.Ok? || r.status == 500)
      && (stored == Some(JNull) && body == Some(JObj(map[])) ==> r.Fail? && r.status == 400)
      && (body.Some? && body.value.JObj? ==> (r.Fail? && r.status == 500 <==> !MergeableInto(MergeBase(stored), body.value.fields)))
      && (body.Some? && body.value.JObj? && MergeBase(stored).JObj? && MergeableInto(MergeBase(stored), body.value.fields) ==> r.Ok?)
  {
    var r := StateUpdateOutcome(stored, body);
    if body.Some? && body.value.JObj? {
      var base := MergeBase(stored);
      var u := body.value.fields;
      if !MergeableInto(base, u) {
        assert r == Fail(500, "An internal error occurred while updating state");
      } else {
        var merged := MergeInto(base, u);
        if base.JObj? {
          assert merged.JObj?;
          assert r == Ok(merged);
        } else {
          assert r.Ok? || r.status == 400;
        }
      }
    }
  }

  /** `PUT /api/state`: 200 with the merged state, which is stored. */
  method UpdateStateRoute(store: DataFile, body: Option<Json>) returns (resp: Response)
    modifies store
    ensures store.tasks == old(store.tasks)
    ensures var r := StateUpdateOutcome(old(store.appState), body);
      && (r.Ok? ==> resp == Response(200, StateBody(r.value)) && store.appState == Some(r.value))
      && (r.Fail? ==> resp == Refusal(r))
      && (r.Fail? ==> store.appState == old(store.appState))
  {
    var r := StateUpdateOutcome(store.appState, body);
    if body.None? || !body.value.JObj? {
      return Refusal(r);
    }
    if !MergeableInto(MergeBase(store.appState), body.value.fields) {
      return Refusal(r);
    }
    var updated := store.UpdateAppState(body.value);
    if updated.None? || updated.value == JNull {
      return Refusal(r);
    }
    return Response(200, StateBody(updated.value));
  }

  // ---------------------------------------------------------------------------
  // The page's requests against the server's rules
  // ---------------------------------------------------------------------------

  /** A body of the form's shape, with values the form can produce. */
  predicate FormShaped(b: map<string, Json>)
  {
    && b.Keys == {"title", "urgency", "effort"}
    && ValidUrgency(b["urgency"]) && ValidEffort(b["effort"])
  }

  /** Such a body passes both server checks unchanged. */
  lemma FormShapedAccepted(b: map<string, Json>, taskId: string, now: string)
    requires FormShaped(b)
    ensures NewTaskFromRequest(Some(b), taskId, now).Ok?
    ensures var t := NewTaskFromRequest(Some(b), taskId, now).value;
      t.title == b["title"] && t.urgency == b["urgency"] && t.effort == b["effort"]
    ensures AllowedTaskUpdates(Some(b)) == Ok(b)
  {
    assert "title" in b && "collapsed" !in b;
    var r := Restrict(b, TaskUpdateKeys);
    assert r.Keys == b.Keys;
    assert r == b;
  }

  /** What the task form sends passes the server's checks: a creation makes a task with the form's fields, an update passes on all three. */
  lemma FormSubmissionsAccepted(titleInput: string, urgencyChecked: bool, effortInput: string, editingTaskId: Option<string>, taskId: string, now: string)
    requires !AppView.SubmitTaskForm(titleInput, urgencyChecked, effortInput, editingTaskId).Refused?
    ensures var o := AppView.SubmitTaskForm(titleInput, urgencyChecked, effortInput, editingTaskId);
      && (o.PostTask? ==>
            NewTaskFromRequest(Some(o.body), taskId, now).Ok?
            && NewTaskFromRequest(Some(o.body), taskId, now).value.title == o.body["title"]
            && NewTaskFromRequest(Some(o.body), taskId, now).value.urgency == o.body["urgency"]
            && NewTaskFromRequest(Some(o.body), taskId, now).value.effort == o.body["effort"])
      && (o.PutTask? ==> AllowedTaskUpdates(Some(o.body)) == Ok(o.body))
  {
    var o := AppView.SubmitTaskForm(titleInput, urgencyChecked, effortInput, editingTaskId);
    AppView.SubmitTaskFormBody(titleInput, urgencyChecked, effortInput, editingTaskId);
    assert FormShaped(o.body);
    FormShapedAccepted(o.body, taskId, now);
  }

  /** The page's add-subtask request, a trimmed non-empty title, passes the server's check. */
  lemma PageNewSubtaskAccepted(title: string)
    requires Trim(title) != []
    ensures ValidNewSubtask(Some(map["title" := JStr(Trim(title))])).Ok?
  {
    TrimmedNotBlank(title);
    var b := map["title" := JStr(Trim(title))];
    HasKeyNotEmpty(b, "title");
    assert CheckTitle(b["title"]) == NonBlank;
  }

  /** The page's subtask checkbox request passes the server's check. */
  lemma PageSubtaskToggleAccepted(checked: bool)
    ensures ValidSubtaskUpdates(Some(map["completed" := JBool(checked)])).Ok?
  {
    var b := map["completed" := JBool(checked)];
    assert "title" !in b;
    HasKeyNotEmpty(b, "completed");
  }
}
