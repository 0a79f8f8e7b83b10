/**
 * The state of the task page component and its event handlers. Each handler
 * replaces component state the way the page's `set...` calls do; the tree
 * updates themselves are the pure functions of TaskTree. Ids that the page
 * draws from the clock and from randomness are parameters here.
 */
module TaskPage {
  import opened Wrappers
  import TaskTree
  import Js

  /** The three sample tasks the page starts with. */
  function InitialTasks(): seq<TaskTree.Task> {
    [ TaskTree.NewTask("1", "Design new website layout"),
      TaskTree.NewTask("2", "Implement user authentication"),
      TaskTree.NewTask("3", "Create content management system") ]
  }

  class TaskManager {
    var tasks: seq<TaskTree.Task>
    var newTask: string
    var editingTask: Option<TaskTree.EditTarget>
    var editText: string
    var breakdownTask: Option<TaskTree.Task>
    var subtaskCount: int

    /** The tree keeps the shape the handlers promise: at most five subtasks
        per task, and subtasks without subtasks. */
    ghost predicate Valid()
      reads this
    {
      TaskTree.WellShaped(tasks)
    }

    constructor ()
      ensures Valid()
      ensures tasks == InitialTasks() && newTask == "" && editText == ""
      ensures editingTask == None && breakdownTask == None && subtaskCount == 3
    {
      tasks := InitialTasks();
      newTask := "";
      editingTask := None;
      editText := "";
      breakdownTask := None;
      subtaskCount := 3;
    }

    /** The input box's `setNewTask`. */
    method SetNewTask(text: string)
      modifies this`newTask
      ensures newTask == text
    {
      newTask := text;
    }

    /** addTask with `id` standing for `Date.now().toString()`: blank input
        changes nothing; otherwise the untrimmed text becomes a new task at the
        end and the input box is cleared. */
    method AddTask(id: string)
      requires Valid()
      modifies this`tasks, this`newTask
      ensures Valid()
      ensures Js.AllWhitespace(old(newTask)) ==> tasks == old(tasks) && newTask == old(newTask)
      ensures !Js.AllWhitespace(old(newTask)) ==>
                tasks == old(tasks) + [TaskTree.NewTask(id, old(newTask))] && newTask == ""
    {
      Js.TrimEmptyIffAllWhitespace(newTask);
      TaskTree.AddTaskSpec(tasks, newTask, id);
      TaskTree.AddTaskPreservesShape(tasks, newTask, id);
      if Js.Trim(newTask) != "" {
        tasks := TaskTree.AddTask(tasks, newTask, id);
        newTask := "";
      }
    }

    /** toggleTask(taskId, subtaskId?). */
    method ToggleTask(taskId: string, subtaskId: Option<string>)
      requires Valid()
      modifies this`tasks
      ensures Valid()
      ensures tasks == TaskTree.ToggleTask(old(tasks), taskId, subtaskId)
    {
      TaskTree.ToggleTaskPreservesShape(tasks, taskId, subtaskId);
      tasks := TaskTree.ToggleTask(tasks, taskId, subtaskId);
    }

    /** removeTask(taskId, subtaskId?). */
    method RemoveTask(taskId: string, subtaskId: Option<string>)
      requires Valid()
      modifies this`tasks
      ensures Valid()
      ensures tasks == TaskTree.RemoveTask(old(tasks), taskId, subtaskId)
    {
      TaskTree.RemoveTaskPreservesShape(tasks, taskId, subtaskId);
      tasks := TaskTree.RemoveTask(tasks, taskId, subtaskId);
    }

    /** openBreakdownModal(task): remembers the task and proposes a count. */
    method OpenBreakdownModal(task: TaskTree.Task)
      modifies this`breakdownTask, this`subtaskCount
      ensures breakdownTask == Some(task)
      ensures subtaskCount == TaskTree.BreakdownCount(task)
    {
      breakdownTask := Some(task);
      subtaskCount := TaskTree.BreakdownCount(task);
    }

    /** The dialog's `setSubtaskCount`. */
    method SetSubtaskCount(count: int)
      modifies this`subtaskCount
      ensures subtaskCount == count
    {
      subtaskCount := count;
    }

    /** The dialog's `onClose`. */
    method CloseBreakdown()
      modifies this`breakdownTask
      ensures breakdownTask == None
    {
      breakdownTask := None;
    }

    /** addGeneratedSubtasks, given the texts the generator returned and the
        id drawn for each: the remembered task's subtasks get the batch
        appended and cut to five, and the dialog closes. With no remembered
        task nothing happens. */
    method AddGeneratedSubtasks(generated: seq<string>, ids: seq<string>)
      requires Valid()
      requires |ids| == |generated|
      modifies this`tasks, this`breakdownTask
      ensures Valid()
      ensures old(breakdownTask).None? ==> tasks == old(tasks) && breakdownTask == None
      ensures old(breakdownTask).Some? ==>
                && tasks == TaskTree.AddGeneratedSubtasks(old(tasks), old(breakdownTask).value.id,
                                                          TaskTree.FormatSubtasks(generated, ids))
                && breakdownTask == None
    {
      if breakdownTask.Some? {
        var batch := TaskTree.FormatSubtasks(generated, ids);
        TaskTree.AddGeneratedPreservesShape(tasks, breakdownTask.value.id, batch);
        tasks := TaskTree.AddGeneratedSubtasks(tasks, breakdownTask.value.id, batch);
        breakdownTask := None;
      }
    }

    /** startEditing(taskId, parentId?): opens the session and loads the
        addressed task's text, or "" when it is not found. */
    method StartEditing(taskId: string, parentId: Option<string>)
      modifies this`editingTask, this`editText
      ensures editingTask == Some(TaskTree.EditTarget(taskId, parentId))
      ensures editText == TaskTree.LoadEditText(tasks, taskId, parentId)
    {
      editingTask := Some(TaskTree.EditTarget(taskId, parentId));
      editText := TaskTree.LoadEditText(tasks, taskId, parentId);
    }

    /** The edit box's `setEditText`. */
    method SetEditText(text: string)
      modifies this`editText
      ensures editText == text
    {
      editText := text;
    }

    /** saveEdit: commits `editText` (possibly "") to the session's target and
        closes the session; `editText` itself is left as it was. */
    method SaveEdit()
      requires Valid()
      modifies this`tasks, this`editingTask
      ensures Valid()
      ensures old(editingTask).None? ==> tasks == old(tasks) && editingTask == None
      ensures old(editingTask).Some? ==>
                tasks == TaskTree.SaveEdit(old(tasks), old(editingTask).value, editText)
                && editingTask == None
    {
      if editingTask.Some? {
        TaskTree.SaveEditPreservesShape(tasks, editingTask.value, editText);
        tasks := TaskTree.SaveEdit(tasks, editingTask.value, editText);
        editingTask := None;
      }
    }

    /** cancelEdit: closes the session without touching the tree. */
    method CancelEdit()
      modifies this`editingTask, this`editText
      ensures editingTask == None && editText == ""
    {
      editingTask := None;
      editText := "";
    }

    /** toggleCollapse(taskId). */
    method ToggleCollapse(taskId: string)
      requires Valid()
      modifies this`tasks
      ensures Valid()
      ensures tasks == TaskTree.ToggleCollapse(old(tasks), taskId)
    {
      TaskTree.ToggleCollapsePreservesShape(tasks, taskId);
      tasks := TaskTree.ToggleCollapse(tasks, taskId);
    }
  }

  /** An edit session on top-level task k that clears the text: cancelling
      keeps the original text, saving then commits the empty text to task k
      and to no other task. */
  method ClearTextThenCancelThenSave(m: TaskManager, k: nat)
    requires m.Valid() && TaskTree.UniqueIds(m.tasks) && k < |m.tasks|
    modifies m
    ensures m.Valid()
    ensures m.tasks == old(m.tasks)[k := old(m.tasks)[k].(text := "")]
  {
    var id := m.tasks[k].id;
    m.StartEditing(id, None);
    m.SetEditText("");
    m.CancelEdit();
    assert m.tasks == old(m.tasks);
    m.StartEditing(id, None);
    m.SetEditText("");
    m.SaveEdit();
  }
}
