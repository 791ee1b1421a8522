/** End-to-end runs of the pages, composed as the application composes them: the dashboard
    owns the list and opens the modal, whose successful save is handed to the dashboard's
    onSave handler. Each method asserts what the user sees at the end. */
module Scenarios {
  import opened Wrappers
  import JsText
  import opened Validators
  import opened Tasks
  import opened Api
  import Dashboard
  import TaskModal
  import Login

  lemma SampleEmailAccepted()
    ensures ValidateEmail("a@b.com")
  {
    assert "a@b.com" == "a" + "@" + "b" + "." + "com";
    ShapedEmailAccepted("a@b.com", "a", "b", "com");
  }

  /** Signing in with a well-formed address and a rejected password shows the server's message
      and stays on the login page. */
  method RejectedLogin() {
    var page := new Login.LoginPage();
    var email := "a@b.com";
    page.HandleChange(Login.Email, email);
    page.HandleChange(Login.Password, "x");
    assert page.formData == Login.FormData(email, "x") && !page.loading;
    SampleEmailAccepted();
    assert ValidateEmail(page.formData.email) && page.formData.password != "";
    var sent := page.Submit();
    assert sent && page.loading;
    assert page.requests == [Post("/auth/login", LoginBody("a@b.com", "x"))];
    page.Resolve(LoginErr(Some("Invalid credentials")));
    assert page.apiError == "Invalid credentials";
    assert page.navigations == [] && !page.loading;
  }

  /** Creating a task puts the saved task at the head of the pending list, with no request
      other than the POST. */
  method CreateTask(existing: seq<Task>) {
    var dash := new Dashboard.DashboardPage();
    dash.tasks := existing;
    dash.OpenNewTask();
    var modal := new TaskModal.TaskModalState(dash.editingTask, dash.isModalOpen);
    modal.HandleChange(TaskModal.Title, "Buy milk");
    modal.HandleChange(TaskModal.Content, "2% milk");
    assert modal.formData == TaskModal.FormData("Buy milk", "2% milk");
    assert !JsText.IsBlank("Buy milk") && !JsText.IsBlank("2% milk") by {
      assert !JsText.IsWs("Buy milk"[0]) && !JsText.IsWs("2% milk"[0]);
    }
    var sent := modal.Submit();
    assert sent;
    assert modal.requests == [Post("/tasks", TaskBody("Buy milk", "2% milk"))];
    var t := Task("1", "Buy milk", "2% milk", Pending, "T", "T");
    modal.Resolve(TaskOk(true, t));
    assert modal.saved == [t] && modal.formData == TaskModal.EmptyForm;
    dash.HandleTaskSaved(modal.saved[0]);
    PrependedHeadsPending(existing, t);
    assert PendingOf(dash.tasks)[0] == t;
    assert !dash.isModalOpen && dash.requests == [];
  }

  /** Declining the confirmation prompt changes nothing and sends nothing. */
  method DeclinedDelete(existing: seq<Task>, id: string) {
    var dash := new Dashboard.DashboardPage();
    dash.tasks := existing;
    dash.HandleDeleteTask(id, false, true);
    assert dash.tasks == existing && dash.requests == [];
  }

  /** Toggling a pending task moves it to the completed list as soon as the PUT succeeds. */
  method ToggleToCompleted(before: seq<Task>, after: seq<Task>) {
    var t := Task("1", "Buy milk", "2% milk", Pending, "T", "T");
    var dash := new Dashboard.DashboardPage();
    dash.tasks := before + [t] + after;
    dash.HandleToggleStatus("1", Pending, true);
    assert dash.requests == [Put(TaskPath("1"), StatusBody(Completed))];
    var i := |before|;
    assert dash.tasks[i] == t.(status := Completed);
    assert t.(status := Completed) in CompletedOf(dash.tasks);
    CompletedLeavesPending(before + [t] + after, "1");
    assert forall u | u in PendingOf(dash.tasks) :: u.id != "1";
  }
}
