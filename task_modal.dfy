/** The form state of components/TaskModal.jsx. The asynchronous `handleSubmit` is split at
    its `await`: `Submit` runs up to and including the request, `Resolve` is the continuation
    that receives the request's outcome. The `onSave` and `onClose` callbacks are recorded. */
module TaskModal {
  import opened Wrappers
  import opened JsText
  import opened Tasks
  import opened Api

  datatype Field = Title | Content

  datatype FormData = FormData(title: string, content: string) {
    function Get(f: Field): string {
      match f
      case Title => title
      case Content => content
    }

    /** `{ ...prev, [name]: value }`. */
    function With(f: Field, v: string): (r: FormData)
      ensures r.Get(f) == v
      ensures forall g: Field | g != f :: r.Get(g) == Get(g)
    {
      match f
      case Title => this.(title := v)
      case Content => this.(content := v)
    }
  }

  /** The `errors` object: an entry per field that has been given a message (possibly the
      empty string, which handleChange writes to blank a shown message). */
  datatype Errors = Errors(title: Option<string>, content: Option<string>) {
    function Get(f: Field): Option<string> {
      match f
      case Title => title
      case Content => content
    }

    /** `{ ...prev, [name]: message }`. */
    function Set(f: Field, message: string): (r: Errors)
      ensures r.Get(f) == Some(message)
      ensures forall g: Field | g != f :: r.Get(g) == Get(g)
    {
      match f
      case Title => this.(title := Some(message))
      case Content => this.(content := Some(message))
    }

    /** `Object.keys(errors).length`. */
    function KeyCount(): (n: nat)
      ensures n == 0 <==> title.None? && content.None?
    {
      (if title.Some? then 1 else 0) + (if content.Some? then 1 else 0)
    }
  }

  const NoErrors := Errors(None, None)
  const EmptyForm := FormData("", "")
  const TitleRequired := "Title is required"
  const ContentRequired := "Content is required"
  const SaveFailed := "Failed to save task. Please try again."

  /** `errors[name]` is truthy: an entry that is present and not the empty string, the test
      used both by handleChange and by the markup that shows the message. */
  predicate HasError(errors: Errors, f: Field) {
    errors.Get(f).Some? && errors.Get(f).value != ""
  }

  /** The form the reset effect fills in: the task's title and content in edit mode, empty
      fields in create mode. */
  function Prefill(task: Option<Task>): (r: FormData)
    ensures task.Some? ==> r.title == task.value.title && r.content == task.value.content
    ensures task.None? ==> r == EmptyForm
  {
    if task.Some? then FormData(task.value.title, task.value.content) else EmptyForm
  }

  /** The errors validateForm reports: "Title is required" when the title is
      whitespace only and "Content is required" when the content is. */
  function FormErrors(form: FormData): Errors {
    Errors(if IsBlank(form.title) then Some(TitleRequired) else None,
           if IsBlank(form.content) then Some(ContentRequired) else None)
  }

  /** The body of validateForm up to `setErrors`: `newErrors` starts empty and gets an entry
      for each field whose trimmed value is empty; the form is valid when no key was added. */
  method CollectErrors(form: FormData) returns (newErrors: Errors, valid: bool)
    ensures newErrors == FormErrors(form)
    ensures valid <==> newErrors == NoErrors
  {
    TrimEmptyIffBlank(form.title);
    TrimEmptyIffBlank(form.content);
    newErrors := NoErrors;
    if |Trim(form.title)| == 0 {
      newErrors := newErrors.Set(Title, TitleRequired);
    }
    if |Trim(form.content)| == 0 {
      newErrors := newErrors.Set(Content, ContentRequired);
    }
    // Object.keys(newErrors).length === 0
    valid := newErrors.KeyCount() == 0;
  }

  /** The request a valid submit sends: PUT to the task in edit mode, POST otherwise, with the
      form as body. */
  function SubmitRequest(task: Option<Task>, form: FormData): (r: Request)
    ensures !r.Delete? && r.body == TaskBody(form.title, form.content)
    ensures task.Some? <==> r.Put?
    ensures task.Some? ==> r.path == TaskPath(task.value.id)
    ensures task.None? ==> r == Post("/tasks", r.body)
  {
    var body := TaskBody(form.title, form.content);
    if task.Some? then Put(TaskPath(task.value.id), body) else Post("/tasks", body)
  }

  class TaskModalState {
    /** The `task` and `isOpen` props. */
    var task: Option<Task>
    var isOpen: bool
    var formData: FormData
    var errors: Errors
    var loading: bool
    var apiError: string
    /** Requests sent, tasks passed to `onSave` and the number of `onClose` calls. */
    var requests: seq<Request>
    var saved: seq<Task>
    var closeCalls: nat
    /** Requests sent whose continuation has not run yet. */
    var outstanding: nat

    /** `loading` is true exactly while a request is awaited, and the submit button, disabled
        while loading, lets at most one request be in flight. */
    predicate Valid()
      reads this
    {
      (loading <==> outstanding > 0) && outstanding <= 1
    }

    /** The resetting effect: the form taken from the task, errors and apiError cleared. */
    method ResetForProps()
      requires Valid()
      modifies this
      ensures Valid()
      ensures formData == Prefill(task) && errors == NoErrors && apiError == ""
      ensures task == old(task) && isOpen == old(isOpen) && loading == old(loading)
      ensures requests == old(requests) && saved == old(saved) && closeCalls == old(closeCalls)
      ensures outstanding == old(outstanding)
    {
      if task.Some? {
        formData := FormData(task.value.title, task.value.content);
      } else {
        formData := FormData("", "");
      }
      errors := NoErrors;
      apiError := "";
    }

    /** Mounting: the initial state, then the effect's first run. */
    constructor (task: Option<Task>, isOpen: bool)
      ensures Valid()
      ensures this.task == task && this.isOpen == isOpen
      ensures formData == Prefill(task) && errors == NoErrors && !loading && apiError == ""
      ensures requests == [] && saved == [] && closeCalls == 0 && outstanding == 0
    {
      this.task := task;
      this.isOpen := isOpen;
      formData := FormData("", "");
      errors := NoErrors;
      loading := false;
      apiError := "";
      requests := [];
      saved := [];
      closeCalls := 0;
      outstanding := 0;
      new;
      ResetForProps();
    }

    /** New props from the parent; the effect runs when `task` or `isOpen` differs. */
    method ReceiveProps(newTask: Option<Task>, newIsOpen: bool)
      requires Valid()
      modifies this
      ensures Valid()
      ensures task == newTask && isOpen == newIsOpen
      ensures (newTask, newIsOpen) != old((task, isOpen)) ==>
                formData == Prefill(newTask) && errors == NoErrors && apiError == ""
      ensures (newTask, newIsOpen) == old((task, isOpen)) ==>
                formData == old(formData) && errors == old(errors) && apiError == old(apiError)
      ensures loading == old(loading) && outstanding == old(outstanding)
      ensures requests == old(requests) && saved == old(saved) && closeCalls == old(closeCalls)
    {
      var changed := newTask != task || newIsOpen != isOpen;
      task, isOpen := newTask, newIsOpen;
      if changed {
        ResetForProps();
      }
    }

    /** handleChange: the named field takes the value, its error is blanked if it was shown,
        and the API error is cleared. */
    method HandleChange(f: Field, v: string)
      requires Valid()
      modifies this
      ensures Valid()
      ensures formData == old(formData).With(f, v)
      ensures errors == if HasError(old(errors), f) then old(errors).Set(f, "") else old(errors)
      ensures !HasError(errors, f)
      ensures forall g: Field | g != f :: HasError(errors, g) == HasError(old(errors), g)
      ensures apiError == ""
      ensures task == old(task) && isOpen == old(isOpen) && loading == old(loading)
      ensures requests == old(requests) && saved == old(saved) && closeCalls == old(closeCalls)
      ensures outstanding == old(outstanding)
    {
      formData := formData.With(f, v);
      if HasError(errors, f) {
        errors := errors.Set(f, "");
      }
      apiError := "";
    }

    /** validateForm: stores the collected errors and reports whether there were none. */
    method ValidateForm() returns (valid: bool)
      requires Valid()
      modifies this
      ensures Valid()
      ensures errors == FormErrors(formData)
      ensures valid <==> !IsBlank(formData.title) && !IsBlank(formData.content)
      ensures formData == old(formData) && apiError == old(apiError) && loading == old(loading)
      ensures task == old(task) && isOpen == old(isOpen)
      ensures requests == old(requests) && saved == old(saved) && closeCalls == old(closeCalls)
      ensures outstanding == old(outstanding)
    {
      var newErrors;
      newErrors, valid := CollectErrors(formData);
      errors := newErrors;
    }

    /** handleSubmit up to the await: clears the API error and validates; an invalid form sends
        nothing and leaves `loading` alone, a valid one sets `loading` and sends the request. The
        submit button is disabled while `loading`, so no second request can start. */
    method Submit() returns (sent: bool)
      requires Valid() && !loading
      modifies this
      ensures Valid()
      ensures apiError == "" && errors == FormErrors(old(formData)) && formData == old(formData)
      ensures sent <==> !IsBlank(formData.title) && !IsBlank(formData.content)
      ensures sent ==> loading && outstanding == old(outstanding) + 1
                       && requests == old(requests) + [SubmitRequest(task, formData)]
      ensures !sent ==> loading == old(loading) && outstanding == old(outstanding)
                        && requests == old(requests)
      ensures task == old(task) && isOpen == old(isOpen)
      ensures saved == old(saved) && closeCalls == old(closeCalls)
    {
      apiError := "";
      var valid := ValidateForm();
      if !valid {
        return false;
      }
      loading := true;
      var body := TaskBody(formData.title, formData.content);
      if task.Some? {
        requests := requests + [Put(TaskPath(task.value.id), body)];
      } else {
        requests := requests + [Post("/tasks", body)];
      }
      outstanding := outstanding + 1;
      sent := true;
    }

    /** handleSubmit after the await: a successful response goes to `onSave` and empties the
        form; a rejected request shows the server's message or the fallback and keeps the
        form; `loading` ends false on every path. */
    method Resolve(response: TaskResponse)
      requires Valid() && outstanding > 0
      modifies this
      ensures Valid()
      ensures !loading && outstanding == old(outstanding) - 1
      ensures response.TaskOk? && response.success ==>
                saved == old(saved) + [response.task] && formData == EmptyForm
                && apiError == old(apiError)
      ensures response.TaskOk? && !response.success ==>
                saved == old(saved) && formData == old(formData) && apiError == old(apiError)
      ensures response.TaskErr? ==>
                saved == old(saved) && formData == old(formData)
                && apiError == ErrorMessage(response.message, SaveFailed) && apiError != ""
      ensures errors == old(errors) && task == old(task) && isOpen == old(isOpen)
      ensures requests == old(requests) && closeCalls == old(closeCalls)
    {
      match response {
      case TaskOk(success, t) =>
        if success {
          saved := saved + [t];
          formData := FormData("", "");
        }
      case TaskErr(message) =>
        apiError := ErrorMessage(message, SaveFailed);
      }
      loading := false;
      outstanding := outstanding - 1;
    }

    /** handleClose: empties the form, errors and API error, then calls `onClose`. */
    method HandleClose()
      requires Valid()
      modifies this
      ensures Valid()
      ensures formData == EmptyForm && errors == NoErrors && apiError == ""
      ensures closeCalls == old(closeCalls) + 1
      ensures task == old(task) && isOpen == old(isOpen) && loading == old(loading)
      ensures requests == old(requests) && saved == old(saved) && outstanding == old(outstanding)
    {
      formData := FormData("", "");
      errors := NoErrors;
      apiError := "";
      closeCalls := closeCalls + 1;
    }
  }
}
