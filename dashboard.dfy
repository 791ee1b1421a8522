/** The list state of app/dashboard/page.jsx: the task list, the task being edited and the
    open state of the modal, updated by the delete, toggle, save, new-task and edit handlers.
    `confirm()` and the outcome of each request are inputs; the requests are recorded. */
module Dashboard {
  import opened Wrappers
  import opened Tasks
  import opened Api

  class DashboardPage {
    var tasks: seq<Task>
    var editingTask: Option<Task>
    var isModalOpen: bool
    /** The requests issued so far, oldest first. */
    var requests: seq<Request>

    /** The initial state of the page's `useState` hooks. */
    constructor ()
      ensures tasks == [] && editingTask == None && !isModalOpen && requests == []
    {
      tasks := [];
      editingTask := None;
      isModalOpen := false;
      requests := [];
    }

    /** handleDeleteTask: nothing happens unless the user confirms; then DELETE is sent, and
        only when it succeeds are the tasks with that id removed. */
    method HandleDeleteTask(id: string, confirmed: bool, ok: bool)
      modifies this
      ensures editingTask == old(editingTask) && isModalOpen == old(isModalOpen)
      ensures requests == if confirmed then old(requests) + [Delete(TaskPath(id))] else old(requests)
      ensures tasks == if confirmed && ok then WithoutId(old(tasks), id) else old(tasks)
    {
      if !confirmed {
        return;
      }
      requests := requests + [Delete(TaskPath(id))];
      if ok {
        tasks := WithoutId(tasks, id);
      }
    }

    /** handleToggleStatus: the new status is computed from the status the card shows, sent
        with PUT, and written into every task with that id once the request succeeds. */
    method HandleToggleStatus(id: string, status: string, ok: bool)
      modifies this
      ensures editingTask == old(editingTask) && isModalOpen == old(isModalOpen)
      ensures requests == old(requests) + [Put(TaskPath(id), StatusBody(Toggled(status)))]
      ensures tasks == if ok then SetStatus(old(tasks), id, Toggled(status)) else old(tasks)
    {
      var newStatus := Toggled(status);
      requests := requests + [Put(TaskPath(id), StatusBody(newStatus))];
      if ok {
        tasks := SetStatus(tasks, id, newStatus);
      }
    }

    /** handleTaskSaved, the modal's onSave: in edit mode the saved task replaces the tasks
        with its id, in create mode it is put first; the modal closes either way. */
    method HandleTaskSaved(task: Task)
      modifies this
      ensures editingTask == old(editingTask) && requests == old(requests)
      ensures !isModalOpen
      ensures old(editingTask).Some? ==> tasks == ReplaceById(old(tasks), task)
      ensures old(editingTask).None? ==> tasks == [task] + old(tasks)
    {
      if editingTask.Some? {
        tasks := ReplaceById(tasks, task);
      } else {
        tasks := [task] + tasks;
      }
      isModalOpen := false;
    }

    /** The "New Task" button: create mode. */
    method OpenNewTask()
      modifies this
      ensures tasks == old(tasks) && requests == old(requests)
      ensures editingTask == None && isModalOpen
    {
      editingTask := None;
      isModalOpen := true;
    }

    /** A card's edit button: edit mode for that task. */
    method OpenEditTask(task: Task)
      modifies this
      ensures tasks == old(tasks) && requests == old(requests)
      ensures editingTask == Some(task) && isModalOpen
    {
      editingTask := Some(task);
      isModalOpen := true;
    }

    /** The modal's onClose. */
    method CloseModal()
      modifies this
      ensures tasks == old(tasks) && requests == old(requests) && editingTask == old(editingTask)
      ensures !isModalOpen
    {
      isModalOpen := false;
    }
  }
}
