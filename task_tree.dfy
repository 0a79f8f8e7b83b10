/**
 * The to-do tree of the task page and the pure updates its handlers apply:
 * each handler builds a new top-level list by mapping or filtering the old
 * one, addressing a task by `(taskId, optional subtask or parent id)`.
 */
module TaskTree {
  import opened Wrappers
  import Js

  /** A to-do item. The type is recursive; in practice subtasks have no subtasks. */
  datatype Task = Task(id: string, text: string, completed: bool, subtasks: seq<Task>, collapsed: bool)

  /** The edit session's target: a task, or subtask `id` of task `parentId`. */
  datatype EditTarget = EditTarget(id: string, parentId: Option<string>)

  /** The cap `slice(0, 5)` puts on a task's subtasks. */
  const MaxSubtasks := 5

  /** A freshly created task: not completed, no subtasks, expanded. */
  function NewTask(id: string, text: string): Task {
    Task(id, text, false, [], false)
  }

  function FlipCompleted(t: Task): Task { t.(completed := !t.completed) }

  function FlipCollapsed(t: Task): Task { t.(collapsed := !t.collapsed) }

  // ---------------------------------------------------------------------------
  // The array operations the handlers are built from

  /** `s.map(t => t._id === id ? f(t) : t)`. */
  function MapMatching(s: seq<Task>, id: string, f: Task -> Task): (r: seq<Task>)
    ensures |r| == |s|
    ensures forall i :: 0 <= i < |s| ==> r[i] == (if s[i].id == id then f(s[i]) else s[i])
  {
    if s == [] then []
    else [if s[0].id == id then f(s[0]) else s[0]] + MapMatching(s[1..], id, f)
  }

  /** `s.filter(t => t._id !== id)`. */
  function FilterOut(s: seq<Task>, id: string): (r: seq<Task>)
    ensures |r| <= |s|
    ensures forall t :: t in r <==> t in s && t.id != id
  {
    if s == [] then []
    else (if s[0].id == id then [] else [s[0]]) + FilterOut(s[1..], id)
  }

  /** The index `s.find(t => t._id === id)` stops at, if any. */
  function FirstIndex(s: seq<Task>, id: string): (r: Option<nat>)
    ensures r.None? <==> forall i :: 0 <= i < |s| ==> s[i].id != id
    ensures r.Some? ==> r.value < |s| && s[r.value].id == id
                        && forall j :: 0 <= j < r.value ==> s[j].id != id
  {
    if s == [] then None
    else if s[0].id == id then Some(0)
    else match FirstIndex(s[1..], id)
      case None => None
      case Some(k) => Some(k + 1)
  }

  /** `s.slice(0, n)`. */
  function Take(s: seq<Task>, n: nat): seq<Task> {
    if |s| <= n then s else s[..n]
  }

  // ---------------------------------------------------------------------------
  // The handlers' tree updates

  /** addTask: a new task is appended unless the input is blank. */
  function AddTask(tasks: seq<Task>, newTask: string, id: string): (r: seq<Task>)
    ensures |r| == |tasks| + 1 <==> !Js.AllWhitespace(newTask)
    ensures |r| == |tasks| || |r| == |tasks| + 1
    ensures r[..|tasks|] == tasks
    ensures |r| == |tasks| + 1 ==> r[|tasks|] == NewTask(id, newTask)
  {
    Js.TrimEmptyIffAllWhitespace(newTask);
    if Js.Trim(newTask) != "" then tasks + [NewTask(id, newTask)] else tasks
  }

  /** What toggleTask does to a task whose id matched. */
  function ToggleOne(t: Task, subtaskId: Option<string>): Task {
    if subtaskId.Some? then t.(subtasks := MapMatching(t.subtasks, subtaskId.value, FlipCompleted))
    else FlipCompleted(t)
  }

  /** toggleTask(taskId, subtaskId). */
  function ToggleTask(tasks: seq<Task>, taskId: string, subtaskId: Option<string>): seq<Task> {
    MapMatching(tasks, taskId, t => ToggleOne(t, subtaskId))
  }

  /** removeTask(taskId, subtaskId): the source maps the matching task to null
      (or to a copy with the subtask filtered out) and then drops the nulls. */
  function RemoveTask(tasks: seq<Task>, taskId: string, subtaskId: Option<string>): seq<Task> {
    match subtaskId
    case Some(sid) => MapMatching(tasks, taskId, (t: Task) => t.(subtasks := FilterOut(t.subtasks, sid)))
    case None => FilterOut(tasks, taskId)
  }

  /** openBreakdownModal's `Math.min(5 - task.subtasks.length, 3)`. */
  function BreakdownCount(t: Task): (r: int)
    ensures r <= 3 && r <= MaxSubtasks - |t.subtasks|
    ensures r == 3 || r == MaxSubtasks - |t.subtasks|
  {
    if MaxSubtasks - |t.subtasks| < 3 then MaxSubtasks - |t.subtasks| else 3
  }

  /** addGeneratedSubtasks' `formattedSubtasks`: one new task per generated
      text, with the id generated for it. */
  function FormatSubtasks(texts: seq<string>, ids: seq<string>): seq<Task>
    requires |ids| == |texts|
  {
    seq(|texts|, i requires 0 <= i < |texts| => NewTask(ids[i], texts[i]))
  }

  /** addGeneratedSubtasks: `[...task.subtasks, ...batch].slice(0, 5)` on the target. */
  function AddGeneratedSubtasks(tasks: seq<Task>, targetId: string, batch: seq<Task>): seq<Task> {
    MapMatching(tasks, targetId, (t: Task) => t.(subtasks := Take(t.subtasks + batch, MaxSubtasks)))
  }

  /** startEditing's lookup: the text of the addressed task, or "" when the
      lookup (first parent, then first subtask under it) finds nothing. */
  function LoadEditText(tasks: seq<Task>, taskId: string, parentId: Option<string>): string {
    if Js.TruthyString(parentId) then
      match FirstIndex(tasks, parentId.value)
      case None => ""
      case Some(p) =>
        match FirstIndex(tasks[p].subtasks, taskId)
        case None => ""
        case Some(k) => tasks[p].subtasks[k].text
    else
      match FirstIndex(tasks, taskId)
      case None => ""
      case Some(k) => tasks[k].text
  }

  /** `editingTask.parentId || editingTask._id`: the top-level id saveEdit matches. */
  function Addressed(target: EditTarget): string {
    if Js.TruthyString(target.parentId) then target.parentId.value else target.id
  }

  /** What saveEdit does to a top-level task whose id matched. */
  function SaveOne(t: Task, target: EditTarget, editText: string): Task {
    if Js.TruthyString(target.parentId) then
      t.(subtasks := MapMatching(t.subtasks, target.id, (s: Task) => s.(text := editText)))
    else t.(text := editText)
  }

  /** saveEdit's tree update. */
  function SaveEdit(tasks: seq<Task>, target: EditTarget, editText: string): seq<Task> {
    MapMatching(tasks, Addressed(target), t => SaveOne(t, target, editText))
  }

  /** toggleCollapse(taskId). */
  function ToggleCollapse(tasks: seq<Task>, taskId: string): seq<Task> {
    MapMatching(tasks, taskId, FlipCollapsed)
  }

  // ---------------------------------------------------------------------------
  // Invariants of the tree

  /** At most five subtasks per task, and subtasks have no subtasks. */
  predicate WellShaped(tasks: seq<Task>) {
    forall i :: 0 <= i < |tasks| ==>
      |tasks[i].subtasks| <= MaxSubtasks
      && forall j :: 0 <= j < |tasks[i].subtasks| ==> tasks[i].subtasks[j].subtasks == []
  }

  predicate UniqueIds(s: seq<Task>) {
    forall i, j :: 0 <= i < j < |s| ==> s[i].id != s[j].id
  }

  /** Ids unique among the top-level tasks and among each task's subtasks. */
  predicate WellKeyed(tasks: seq<Task>) {
    UniqueIds(tasks) && forall i :: 0 <= i < |tasks| ==> UniqueIds(tasks[i].subtasks)
  }

  predicate NoneHasId(s: seq<Task>, id: string) {
    forall i :: 0 <= i < |s| ==> s[i].id != id
  }

  // ---------------------------------------------------------------------------
  // The array operations

  lemma MapMatchingNoMatch(s: seq<Task>, id: string, f: Task -> Task)
    requires NoneHasId(s, id)
    ensures MapMatching(s, id, f) == s
  {
  }

  lemma {:induction false} FilterOutNoMatch(s: seq<Task>, id: string)
    requires NoneHasId(s, id)
    ensures FilterOut(s, id) == s
  {
    if s != [] {
      FilterOutNoMatch(s[1..], id);
    }
  }

  /** Filtering keeps the relative order: it distributes over concatenation. */
  lemma {:induction false} FilterOutAppend(a: seq<Task>, b: seq<Task>, id: string)
    ensures FilterOut(a + b, id) == FilterOut(a, id) + FilterOut(b, id)
  {
    if a != [] {
      assert (a + b)[0] == a[0] && (a + b)[1..] == a[1..] + b;
      FilterOutAppend(a[1..], b, id);
    } else {
      assert a + b == b;
    }
  }

  /** With unique ids, filtering out the id of `s[k]` drops exactly `s[k]`. */
  lemma FilterOutUnique(s: seq<Task>, k: nat)
    requires UniqueIds(s) && k < |s|
    ensures FilterOut(s, s[k].id) == s[..k] + s[k + 1..]
  {
    UniqueApart(s, k);
    FilterOutAt(s, k);
  }

  /** When only position k carries its id, filtering that id out drops position k. */
  lemma FilterOutAt(s: seq<Task>, k: nat)
    requires k < |s| && NoneHasId(s[..k], s[k].id) && NoneHasId(s[k + 1..], s[k].id)
    ensures FilterOut(s, s[k].id) == s[..k] + s[k + 1..]
  {
    var id, before, here, after := s[k].id, s[..k], [s[k]], s[k + 1..];
    SplitAt(s, k);
    FilterOutAppend(before, here + after, id);
    FilterOutAppend(here, after, id);
    FilterOutNoMatch(before, id);
    FilterOutNoMatch(after, id);
    assert FilterOut(here, id) == [] by {
      assert here[1..] == [];
    }
    assert FilterOut(here + after, id) == after;
  }

  lemma SplitAt(s: seq<Task>, k: nat)
    requires k < |s|
    ensures s == s[..k] + ([s[k]] + s[k + 1..])
  {
  }

  /** With unique ids, no task before or after position k shares its id. */
  lemma UniqueApart(s: seq<Task>, k: nat)
    requires UniqueIds(s) && k < |s|
    ensures NoneHasId(s[..k], s[k].id) && NoneHasId(s[k + 1..], s[k].id)
  {
    var after := s[k + 1..];
    forall i | 0 <= i < |after| ensures after[i].id != s[k].id {
      assert after[i] == s[k + 1 + i];
    }
  }

  // ---------------------------------------------------------------------------
  // addTask

  /** Input made only of white space (the empty string included) adds nothing;
      any other input adds exactly one fresh task at the end. */
  lemma AddTaskSpec(tasks: seq<Task>, newTask: string, id: string)
    ensures Js.AllWhitespace(newTask) ==> AddTask(tasks, newTask, id) == tasks
    ensures !Js.AllWhitespace(newTask) ==> AddTask(tasks, newTask, id) == tasks + [NewTask(id, newTask)]
  {
    Js.TrimEmptyIffAllWhitespace(newTask);
    var r := AddTask(tasks, newTask, id);
    if !Js.AllWhitespace(newTask) {
      assert r == r[..|tasks|] + [r[|tasks|]];
    }
  }

  // ---------------------------------------------------------------------------
  // toggleTask

  /** Without a subtask id, a matching task flips `completed` and nothing else;
      every other task is unchanged. */
  lemma ToggleTopLevel(tasks: seq<Task>, taskId: string, i: nat)
    requires i < |tasks|
    ensures var r := ToggleTask(tasks, taskId, None);
      && |r| == |tasks|
      && (tasks[i].id == taskId ==>
            && r[i].completed == !tasks[i].completed
            && r[i].id == tasks[i].id && r[i].text == tasks[i].text
            && r[i].subtasks == tasks[i].subtasks && r[i].collapsed == tasks[i].collapsed)
      && (tasks[i].id != taskId ==> r[i] == tasks[i])
  {
  }

  /** With a subtask id, the parent keeps its own fields (its `completed`
      included); only matching subtasks under it flip `completed`. */
  lemma ToggleSubtask(tasks: seq<Task>, taskId: string, subtaskId: string, i: nat, k: nat)
    requires i < |tasks| && tasks[i].id == taskId && k < |tasks[i].subtasks|
    ensures var r := ToggleTask(tasks, taskId, Some(subtaskId));
      var sub := tasks[i].subtasks[k];
      && |r| == |tasks|
      && r[i].completed == tasks[i].completed
      && r[i].id == tasks[i].id && r[i].text == tasks[i].text && r[i].collapsed == tasks[i].collapsed
      && |r[i].subtasks| == |tasks[i].subtasks|
      && (sub.id == subtaskId ==> r[i].subtasks[k] == sub.(completed := !sub.completed))
      && (sub.id != subtaskId ==> r[i].subtasks[k] == sub)
    ensures var r := ToggleTask(tasks, taskId, Some(subtaskId));
      forall j :: 0 <= j < |tasks| && tasks[j].id != taskId ==> r[j] == tasks[j]
  {
  }

  /** With unique ids, toggling subtask k of task i changes exactly that
      subtask's `completed` and nothing else anywhere in the tree. */
  lemma ToggleSubtaskExactlyOne(tasks: seq<Task>, i: nat, k: nat)
    requires WellKeyed(tasks) && i < |tasks| && k < |tasks[i].subtasks|
    ensures var parent := tasks[i];
      var sub := parent.subtasks[k];
      ToggleTask(tasks, parent.id, Some(sub.id))
      == tasks[i := parent.(subtasks := parent.subtasks[k := sub.(completed := !sub.completed)])]
  {
    var parent := tasks[i];
    var sub := parent.subtasks[k];
    var flipped := MapMatching(parent.subtasks, sub.id, FlipCompleted);
    assert UniqueIds(parent.subtasks);
    assert flipped == parent.subtasks[k := sub.(completed := !sub.completed)];
  }

  lemma FlipSubtasksTwice(s: seq<Task>, id: string)
    ensures MapMatching(MapMatching(s, id, FlipCompleted), id, FlipCompleted) == s
  {
    var r := MapMatching(MapMatching(s, id, FlipCompleted), id, FlipCompleted);
    assert forall i :: 0 <= i < |s| ==> r[i] == s[i];
  }

  /** Toggling twice with the same arguments restores the tree. */
  lemma ToggleInvolution(tasks: seq<Task>, taskId: string, subtaskId: Option<string>)
    ensures ToggleTask(ToggleTask(tasks, taskId, subtaskId), taskId, subtaskId) == tasks
  {
    var r1 := ToggleTask(tasks, taskId, subtaskId);
    var r2 := ToggleTask(r1, taskId, subtaskId);
    forall i | 0 <= i < |tasks| ensures r2[i] == tasks[i] {
      if tasks[i].id == taskId && subtaskId.Some? {
        FlipSubtasksTwice(tasks[i].subtasks, subtaskId.value);
      }
    }
  }

  /** An id that matches nothing leaves the tree unchanged; so does a subtask
      id that matches nothing under the addressed task. */
  lemma ToggleNoMatch(tasks: seq<Task>, taskId: string, subtaskId: Option<string>)
    requires || NoneHasId(tasks, taskId)
             || (subtaskId.Some? &&
                 forall i :: 0 <= i < |tasks| && tasks[i].id == taskId ==> NoneHasId(tasks[i].subtasks, subtaskId.value))
    ensures ToggleTask(tasks, taskId, subtaskId) == tasks
  {
    var r := ToggleTask(tasks, taskId, subtaskId);
    forall i | 0 <= i < |tasks| ensures r[i] == tasks[i] {
      if tasks[i].id == taskId {
        MapMatchingNoMatch(tasks[i].subtasks, subtaskId.value, FlipCompleted);
      }
    }
  }

  /** With unique ids, toggling a top-level task changes exactly that task's
      `completed` and nothing else anywhere in the tree. */
  lemma ToggleExactlyOne(tasks: seq<Task>, k: nat)
    requires UniqueIds(tasks) && k < |tasks|
    ensures ToggleTask(tasks, tasks[k].id, None) == tasks[k := tasks[k].(completed := !tasks[k].completed)]
  {
  }

  // ---------------------------------------------------------------------------
  // removeTask

  /** Without a subtask id: no remaining task has the id (so none of the removed
      task's subtasks is reachable), every other task remains, and with unique
      ids exactly the addressed task is dropped, the rest keeping their order. */
  lemma RemoveTopLevel(tasks: seq<Task>, taskId: string)
    ensures var r := RemoveTask(tasks, taskId, None);
      && NoneHasId(r, taskId)
      && (forall t :: t in tasks && t.id != taskId ==> t in r)
      && (forall t :: t in r ==> t in tasks)
      && (NoneHasId(tasks, taskId) ==> r == tasks)
  {
    var r := RemoveTask(tasks, taskId, None);
    forall i | 0 <= i < |r| ensures r[i].id != taskId {
      assert r[i] in r;
    }
    if NoneHasId(tasks, taskId) {
      FilterOutNoMatch(tasks, taskId);
    }
  }

  /** With unique ids, removing `tasks[k]` yields the list without position k. */
  lemma RemoveTopLevelUnique(tasks: seq<Task>, k: nat)
    requires UniqueIds(tasks) && k < |tasks|
    ensures RemoveTask(tasks, tasks[k].id, None) == tasks[..k] + tasks[k + 1..]
  {
    FilterOutUnique(tasks, k);
  }

  /** With a subtask id, only the subtasks of tasks with `taskId` are filtered;
      the parent's other fields and all other tasks stay as they were. */
  lemma RemoveSubtask(tasks: seq<Task>, taskId: string, subtaskId: string, i: nat)
    requires i < |tasks|
    ensures var r := RemoveTask(tasks, taskId, Some(subtaskId));
      && |r| == |tasks|
      && (tasks[i].id == taskId ==>
            && r[i].id == tasks[i].id && r[i].text == tasks[i].text
            && r[i].completed == tasks[i].completed && r[i].collapsed == tasks[i].collapsed
            && NoneHasId(r[i].subtasks, subtaskId)
            && (forall t :: t in tasks[i].subtasks && t.id != subtaskId ==> t in r[i].subtasks)
            && (forall t :: t in r[i].subtasks ==> t in tasks[i].subtasks))
      && (tasks[i].id != taskId ==> r[i] == tasks[i])
  {
    var r := RemoveTask(tasks, taskId, Some(subtaskId));
    if tasks[i].id == taskId {
      forall j | 0 <= j < |r[i].subtasks| ensures r[i].subtasks[j].id != subtaskId {
        assert r[i].subtasks[j] in r[i].subtasks;
      }
    }
  }

  // ---------------------------------------------------------------------------
  // openBreakdownModal

  /** For a task the page offers to break down (fewer than five subtasks), the
      proposed count is between 1 and 3 and never overshoots the cap. */
  lemma BreakdownCountFits(t: Task)
    requires |t.subtasks| < MaxSubtasks
    ensures 1 <= BreakdownCount(t) <= 3
    ensures |t.subtasks| + BreakdownCount(t) <= MaxSubtasks
    ensures |t.subtasks| <= 2 ==> BreakdownCount(t) == 3
  {
  }

  // ---------------------------------------------------------------------------
  // addGeneratedSubtasks

  /** The target's subtasks become the old list followed by the batch, cut to
      five: never more than five, the old ones kept in front when there were at
      most five, the batch after them in order. Other tasks are unchanged. */
  lemma AddGeneratedSpec(tasks: seq<Task>, targetId: string, batch: seq<Task>, i: nat)
    requires i < |tasks|
    ensures var r := AddGeneratedSubtasks(tasks, targetId, batch);
      var prev := tasks[i].subtasks;
      && |r| == |tasks|
      && (tasks[i].id == targetId ==>
            && |r[i].subtasks| <= MaxSubtasks
            && r[i].id == tasks[i].id && r[i].text == tasks[i].text
            && r[i].completed == tasks[i].completed && r[i].collapsed == tasks[i].collapsed
            && (|prev| <= MaxSubtasks ==>
                  var room := MaxSubtasks - |prev|;
                  r[i].subtasks == prev + batch[..if |batch| <= room then |batch| else room]))
      && (tasks[i].id != targetId ==> r[i] == tasks[i])
  {
    var r := AddGeneratedSubtasks(tasks, targetId, batch);
    var prev := tasks[i].subtasks;
    if tasks[i].id == targetId && |prev| <= MaxSubtasks {
      var room := MaxSubtasks - |prev|;
      var n := if |batch| <= room then |batch| else room;
      assert r[i].subtasks == (prev + batch)[..|prev| + n];
      assert (prev + batch)[..|prev| + n] == prev + batch[..n];
    }
  }

  /** Generated subtasks start out open, empty and expanded, carrying the
      generated texts in order. */
  lemma FormattedSubtasksAreFresh(texts: seq<string>, ids: seq<string>, i: nat)
    requires |ids| == |texts| && i < |texts|
    ensures var b := FormatSubtasks(texts, ids);
      && b[i].text == texts[i] && b[i].id == ids[i]
      && !b[i].completed && b[i].subtasks == [] && !b[i].collapsed
  {
  }

  // ---------------------------------------------------------------------------
  // The edit session

  /** startEditing with a falsy parent id loads the text of the first task
      with the id. */
  lemma LoadEditTextTopLevel(tasks: seq<Task>, taskId: string, parentId: Option<string>, k: nat)
    requires !Js.TruthyString(parentId)
    requires k < |tasks| && tasks[k].id == taskId
    requires forall j :: 0 <= j < k ==> tasks[j].id != taskId
    ensures LoadEditText(tasks, taskId, parentId) == tasks[k].text
  {
    assert FirstIndex(tasks, taskId) == Some(k);
  }

  /** startEditing with a parent id loads the text of the first subtask with
      the id under the first task with the parent id. */
  lemma LoadEditTextSubtask(tasks: seq<Task>, taskId: string, parentId: Option<string>, p: nat, k: nat)
    requires Js.TruthyString(parentId)
    requires p < |tasks| && tasks[p].id == parentId.value
    requires forall j :: 0 <= j < p ==> tasks[j].id != parentId.value
    requires k < |tasks[p].subtasks| && tasks[p].subtasks[k].id == taskId
    requires forall j :: 0 <= j < k ==> tasks[p].subtasks[j].id != taskId
    ensures LoadEditText(tasks, taskId, parentId) == tasks[p].subtasks[k].text
  {
    assert FirstIndex(tasks, parentId.value) == Some(p);
    assert FirstIndex(tasks[p].subtasks, taskId) == Some(k);
  }

  /** When the addressed task is not there, startEditing loads "". */
  lemma LoadEditTextMissing(tasks: seq<Task>, taskId: string, parentId: Option<string>)
    ensures !Js.TruthyString(parentId) && NoneHasId(tasks, taskId) ==> LoadEditText(tasks, taskId, parentId) == ""
    ensures Js.TruthyString(parentId) && NoneHasId(tasks, parentId.value) ==> LoadEditText(tasks, taskId, parentId) == ""
    ensures Js.TruthyString(parentId) && (forall i :: 0 <= i < |tasks| ==> NoneHasId(tasks[i].subtasks, taskId))
            ==> LoadEditText(tasks, taskId, parentId) == ""
  {
  }

  /** saveEdit for a top-level target (falsy parent id) writes `editText`,
      possibly "", into every task with that id; nothing else changes. */
  lemma SaveEditTopLevel(tasks: seq<Task>, target: EditTarget, editText: string, i: nat)
    requires !Js.TruthyString(target.parentId) && i < |tasks|
    ensures var r := SaveEdit(tasks, target, editText);
      && |r| == |tasks|
      && (tasks[i].id == target.id ==> r[i] == tasks[i].(text := editText))
      && (tasks[i].id != target.id ==> r[i] == tasks[i])
  {
  }

  /** saveEdit for a subtask target writes `editText` into the subtasks with
      that id under tasks with the parent id; the parent's own text and every
      other task stay as they were. */
  lemma SaveEditSubtask(tasks: seq<Task>, target: EditTarget, editText: string, i: nat, k: nat)
    requires Js.TruthyString(target.parentId) && i < |tasks|
    ensures var r := SaveEdit(tasks, target, editText);
      && |r| == |tasks|
      && (tasks[i].id == target.parentId.value ==>
            && r[i].text == tasks[i].text && r[i].id == tasks[i].id
            && r[i].completed == tasks[i].completed && r[i].collapsed == tasks[i].collapsed
            && |r[i].subtasks| == |tasks[i].subtasks|
            && (k < |tasks[i].subtasks| ==>
                  r[i].subtasks[k] == if tasks[i].subtasks[k].id == target.id
                                      then tasks[i].subtasks[k].(text := editText)
                                      else tasks[i].subtasks[k]))
      && (tasks[i].id != target.parentId.value ==> r[i] == tasks[i])
  {
  }

  /** Saving the text startEditing loaded, untouched, changes nothing (ids
      unique): the edit session's load and save are inverse. */
  lemma SaveLoadedTextIsNoOp(tasks: seq<Task>, target: EditTarget)
    requires WellKeyed(tasks)
    ensures SaveEdit(tasks, target, LoadEditText(tasks, target.id, target.parentId)) == tasks
  {
    var text := LoadEditText(tasks, target.id, target.parentId);
    var r := SaveEdit(tasks, target, text);
    forall i | 0 <= i < |tasks| ensures r[i] == tasks[i] {
      if tasks[i].id == Addressed(target) {
        var f := FirstIndex(tasks, Addressed(target));
        assert f == Some(i) by {
        }
        if Js.TruthyString(target.parentId) {
          var subs := tasks[i].subtasks;
          var s2 := SaveOne(tasks[i], target, text).subtasks;
          forall j | 0 <= j < |subs| ensures s2[j] == subs[j] {
            if subs[j].id == target.id {
              var g := FirstIndex(subs, target.id);
              assert g == Some(j) by {
                assert UniqueIds(subs);
              }
            }
          }
          assert s2 == subs;
        }
      }
    }
  }

  // ---------------------------------------------------------------------------
  // toggleCollapse

  /** A matching task flips `collapsed` only; others are unchanged. */
  lemma ToggleCollapseSpec(tasks: seq<Task>, taskId: string, i: nat)
    requires i < |tasks|
    ensures var r := ToggleCollapse(tasks, taskId);
      && |r| == |tasks|
      && (tasks[i].id == taskId ==>
            && r[i].collapsed == !tasks[i].collapsed
            && r[i].id == tasks[i].id && r[i].text == tasks[i].text
            && r[i].completed == tasks[i].completed && r[i].subtasks == tasks[i].subtasks)
      && (tasks[i].id != taskId ==> r[i] == tasks[i])
  {
  }

  /** Collapsing twice restores the tree; an unknown id changes nothing. */
  lemma ToggleCollapseInvolution(tasks: seq<Task>, taskId: string)
    ensures ToggleCollapse(ToggleCollapse(tasks, taskId), taskId) == tasks
    ensures NoneHasId(tasks, taskId) ==> ToggleCollapse(tasks, taskId) == tasks
  {
    var r := ToggleCollapse(ToggleCollapse(tasks, taskId), taskId);
    assert forall i :: 0 <= i < |tasks| ==> r[i] == tasks[i];
  }

  // ---------------------------------------------------------------------------
  // Every update keeps the tree well shaped

  lemma AddTaskPreservesShape(tasks: seq<Task>, newTask: string, id: string)
    requires WellShaped(tasks)
    ensures WellShaped(AddTask(tasks, newTask, id))
  {
    var r := AddTask(tasks, newTask, id);
    forall i | 0 <= i < |r| ensures |r[i].subtasks| <= MaxSubtasks
      && forall j :: 0 <= j < |r[i].subtasks| ==> r[i].subtasks[j].subtasks == []
    {
      if i < |tasks| { assert r[i] == r[..|tasks|][i] == tasks[i]; }
    }
  }

  lemma ToggleTaskPreservesShape(tasks: seq<Task>, taskId: string, subtaskId: Option<string>)
    requires WellShaped(tasks)
    ensures WellShaped(ToggleTask(tasks, taskId, subtaskId))
  {
  }

  lemma RemoveTaskPreservesShape(tasks: seq<Task>, taskId: string, subtaskId: Option<string>)
    requires WellShaped(tasks)
    ensures WellShaped(RemoveTask(tasks, taskId, subtaskId))
  {
    var r := RemoveTask(tasks, taskId, subtaskId);
    forall i | 0 <= i < |r| ensures |r[i].subtasks| <= MaxSubtasks
      && forall j :: 0 <= j < |r[i].subtasks| ==> r[i].subtasks[j].subtasks == []
    {
      if subtaskId.None? {
        assert r[i] in r;
        var k :| 0 <= k < |tasks| && tasks[k] == r[i];
      } else if tasks[i].id == taskId {
        forall j | 0 <= j < |r[i].subtasks| ensures r[i].subtasks[j].subtasks == [] {
          assert r[i].subtasks[j] in r[i].subtasks;
        }
      }
    }
  }

  /** The cap holds whatever the batch's size, provided each generated subtask
      is a leaf. */
  lemma AddGeneratedPreservesShape(tasks: seq<Task>, targetId: string, batch: seq<Task>)
    requires WellShaped(tasks)
    requires forall j :: 0 <= j < |batch| ==> batch[j].subtasks == []
    ensures WellShaped(AddGeneratedSubtasks(tasks, targetId, batch))
  {
    var r := AddGeneratedSubtasks(tasks, targetId, batch);
    forall i | 0 <= i < |r| && tasks[i].id == targetId
      ensures forall j :: 0 <= j < |r[i].subtasks| ==> r[i].subtasks[j].subtasks == []
    {
      var all := tasks[i].subtasks + batch;
      forall j | 0 <= j < |r[i].subtasks| ensures r[i].subtasks[j].subtasks == [] {
        assert r[i].subtasks[j] == all[j];
        if j >= |tasks[i].subtasks| { assert all[j] == batch[j - |tasks[i].subtasks|]; }
      }
    }
  }

  lemma SaveEditPreservesShape(tasks: seq<Task>, target: EditTarget, editText: string)
    requires WellShaped(tasks)
    ensures WellShaped(SaveEdit(tasks, target, editText))
  {
  }

  lemma ToggleCollapsePreservesShape(tasks: seq<Task>, taskId: string)
    requires WellShaped(tasks)
    ensures WellShaped(ToggleCollapse(tasks, taskId))
  {
  }
}
