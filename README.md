# Task manager client: validators, dashboard list and forms

A model of the logic of a small Next.js task manager client. The repository is
Aman3007/TASK_MANAGER. The model covers:

- **Validators** (`lib/utils.js`). `validateEmail` tests `/^[^\s@]+@[^\s@]+\.[^\s@]+$/`.
  `validatePassword` tests `/^(?=.*[A-Z])(?=.*\d)(?=.*[!@#$%^&*]).{8,}$/`. Both are modelled as
  predicates on strings that follow how the backtracking matcher reads each pattern. Each is
  proved equal to a plain description of the strings it accepts. The email pattern is a simple
  check of its own. It is not the addr-spec of section 3.4.1 of RFC 5322.
- **Dashboard list state** (`app/dashboard/page.jsx`). A class holds `tasks`, `editingTask`,
  `isModalOpen` and the requests sent. Its handlers are delete (confirm, DELETE, filter),
  toggle (PUT, map), save (replace by id or prepend, then close the modal), new task, edit and
  close. Each handler assigns `tasks` from a pure function of module `Tasks`
  (`WithoutId`, `SetStatus`, `ReplaceById`). `PendingOf` and `CompletedOf` give the
  pending/completed partition.
- **Task form** (`components/TaskModal.jsx`). A class holds the props, `formData`, `errors`,
  `loading` and `apiError`, plus a record of the requests sent and of the `onSave`/`onClose`
  calls. It has the reset effect, `handleChange`, `validateForm`, `handleSubmit` and
  `handleClose`.
- **Login form** (`app/login/page.jsx`). The same shape, with `successMessage` and a record
  of router navigations.

Module `JsText` gives the whitespace set shared by `\s` and `String.prototype.trim`, and
`trim` itself. Module `Api` gives request paths and bodies, server responses, and the
`error.response?.data?.message || fallback` rule. Module `Scenarios` composes the classes the
way the application wires them: the modal's successful save goes to the dashboard's
`handleTaskSaved`. It asserts the outcome of four end-to-end flows: a rejected login, creating
a task, a declined delete and a toggle to Completed.

Modelling conventions:

- A JavaScript string is a `seq<char>`. A Dafny `char` is a Unicode scalar value, so this matches JavaScript's sequence of UTF-16 code units only for text inside the Basic Multilingual Plane.
- Each asynchronous `handleSubmit` is split at its `await` into two methods.
  - `Submit` runs everything up to and including sending the request.
  - `Resolve(response)` is the continuation, covering the `try`/`catch`/`finally` after the
    `await`.
  - A counter `outstanding` tracks requests whose continuation has not run. The submit
    button is `disabled={loading}`, so `Submit` requires `!loading`. The invariant `Valid()`
    says `loading` is true exactly while a request is outstanding, and that at most one is.
- The dashboard handlers await nothing after their one request. They take the outcome as a
  boolean `ok`. A failed request is a rejected promise, which skips the state update after the
  `await`.
- `confirm()` is a boolean input.
- In the responses, `success` is the `response.data.success` flag. `TaskErr`/`LoginErr` is a
  thrown request, carrying `error.response?.data?.message` when present.

## Model

| member | source | states |
|---|---|---|
| JsText.IsWs | lib/utils.js:9 | the characters `\s` matches, which are also the ones `trim` removes: ECMAScript WhiteSpace and LineTerminator; its use is characterised by JsText.TrimIsCut and Validators.EmailIff |
| JsText.TrimStart | components/TaskModal.jsx:47-51 | the result is a suffix of the input and starts with a non-whitespace character, or is empty |
| JsText.TrimEnd | components/TaskModal.jsx:47-51 | the result is a prefix of the input and ends with a non-whitespace character, or is empty |
| JsText.Trim | components/TaskModal.jsx:47-51 | `String.prototype.trim`; JsText.TrimIsCut proves it drops exactly the whitespace at both ends, JsText.TrimEmptyIffBlank when the result is empty |
| JsText.TrimIsCut | components/TaskModal.jsx:47-51 | `trim(s)` is a slice of `s` whose dropped prefix and suffix are whitespace only, and whose own ends are not whitespace |
| JsText.TrimEmptyIffBlank | components/TaskModal.jsx:47-51 | `trim(s)` is empty exactly when every character of `s` is whitespace: the `!x.trim()` test of both forms |
| Validators.ValidateEmail | lib/utils.js:9-15 | validateEmail, read as the anchored matcher reads the pattern; Validators.EmailIff proves it accepts exactly the L@A.B shape |
| Validators.EmailIff | lib/utils.js:9-15 | validateEmail(s) holds iff s = L + "@" + A + "." + B with L, A, B non-empty and free of whitespace and '@' |
| Validators.ValidEmailSplit | lib/utils.js:9-15 | every accepted address splits into the three parts of the pattern |
| Validators.ShapedEmailAccepted | lib/utils.js:9-15 | every string of the form L@A.B with such parts is accepted |
| Validators.EmailAccepted | lib/utils.js:9-15 | an accepted address contains no whitespace and exactly one '@' |
| Validators.EmailRejected | lib/utils.js:9-15 | a string with a whitespace character, no '@', or two or more '@' is rejected |
| Validators.EmptyEmailRejected | lib/utils.js:9-15 | "" is rejected |
| Validators.DotlessEmailRejected | lib/utils.js:9-15 | "a@b" (no dot after the '@') is rejected |
| Validators.LeadingSpaceEmailRejected | lib/utils.js:9-15 | " a@b.c" is rejected: the pattern is anchored and a space is not in [^\s@] |
| Validators.SmallestEmailAccepted | lib/utils.js:9-15 | "a@b.c" is accepted |
| Validators.ValidatePassword | lib/utils.js:17-18 | validatePassword, the three lookaheads and `.{8,}$` anchored at the start; Validators.PasswordIff proves its exact accept set |
| Validators.DotsToEndIff | lib/utils.js:17-18 | `.{n,}$` from the start matches iff the string has at least n characters and no line terminator |
| Validators.LookaheadIff | lib/utils.js:17-18 | on a string without line terminators, `(?=.*X)` succeeds iff some character is in class X |
| Validators.PasswordIff | lib/utils.js:17-18 | validatePassword(s) holds iff \|s\| >= 8, s has an ASCII upper-case letter, an ASCII digit and one of !@#$%^&*, and no line terminator |
| Validators.ShortPasswordRejected | lib/utils.js:17-18 | every string of fewer than eight characters is rejected, whatever it contains |
| Validators.LineTerminatorRejected | lib/utils.js:17-18 | a \n, \r, U+2028 or U+2029 anywhere makes an otherwise qualifying password fail |
| Validators.PasswordExtended | lib/utils.js:17-18 | appending a non-line-terminator character to an accepted password keeps it accepted |
| Validators.QualifyingPasswordAccepted | lib/utils.js:17-18 | "Passw0rd!" is accepted |
| Validators.SymbolFreePasswordRejected | lib/utils.js:17-18 | "Passw0rd" (no symbol) is rejected |
| Tasks.Filter | app/dashboard/page.jsx:52 | `filter` keeps exactly the elements satisfying the predicate, with their multiplicity, as an order-preserving subsequence no longer than the input |
| Tasks.WithoutId | app/dashboard/page.jsx:52 | after a delete a task is in the list iff it was before and has another id; the others keep their count and their order |
| Tasks.PendingOf | app/dashboard/page.jsx:70 | the pending list holds exactly the tasks whose status is 'Pending', in list order |
| Tasks.CompletedOf | app/dashboard/page.jsx:71 | the completed list holds exactly the tasks whose status is 'Completed', in list order |
| Tasks.Toggled | app/dashboard/page.jsx:56 | the new status is 'Completed' iff the old one is 'Pending', and 'Pending' otherwise |
| Tasks.SetStatus | app/dashboard/page.jsx:58 | toggle keeps the length; each task with the id has only its status changed; every other task is unchanged |
| Tasks.ReplaceById | app/dashboard/page.jsx:64 | save in edit mode keeps the length, puts the saved task at every position whose id matches, and keeps every other task |
| Tasks.ToggleTwice | app/dashboard/page.jsx:56 | toggling twice gives back the status iff it is 'Pending' or 'Completed' |
| Tasks.IdsPreserved | app/dashboard/page.jsx:58-64 | toggle and save in edit mode keep the sequence of ids |
| Tasks.ToggleTwiceRestores | app/dashboard/page.jsx:56-58 | two toggles of the same card restore the list when the tasks with that id had the card's known status |
| Tasks.ReplaceAbsent | app/dashboard/page.jsx:64 | saving a task whose id is not in the list leaves it unchanged |
| Tasks.ReplaceIdempotent | app/dashboard/page.jsx:64 | saving the same task twice equals saving it once |
| Tasks.PartitionDisjoint | app/dashboard/page.jsx:70-71 | no task is both in the pending and in the completed list |
| Tasks.PartitionSum | app/dashboard/page.jsx:70-71 | pending + completed + tasks of another status = all tasks |
| Tasks.PartitionCount | app/dashboard/page.jsx:70-71 | \|pending\| + \|completed\| <= \|tasks\|, with equality iff every status is 'Pending' or 'Completed' |
| Tasks.PartitionCovers | app/dashboard/page.jsx:70-71 | with only known statuses every task appears in one of the two lists |
| Tasks.PrependedHeadsPending | app/dashboard/page.jsx:65-70 | a pending task saved in create mode heads the pending list, followed by the old pending list |
| Tasks.CompletedLeavesPending | app/dashboard/page.jsx:56-71 | after setting a task's status to Completed no task with that id is pending, and the updated tasks are in the completed list |
| Api.TaskPath | app/dashboard/page.jsx:51 | the task URL is "/tasks/" followed by the id |
| Api.TaskPathInjective | app/dashboard/page.jsx:51 | distinct ids give distinct task URLs |
| Api.ErrorMessage | components/TaskModal.jsx:82-84 | a present, non-empty server message is shown, otherwise the fallback; the result is non-empty when the fallback is |
| Dashboard.DashboardPage.constructor | app/dashboard/page.jsx:14-17 | no tasks, no task being edited, modal closed, nothing sent |
| Dashboard.DashboardPage.HandleDeleteTask | app/dashboard/page.jsx:49-53 | declined: nothing changes and nothing is sent; confirmed: DELETE /tasks/id is sent; and only on success the tasks with that id are removed |
| Dashboard.DashboardPage.HandleToggleStatus | app/dashboard/page.jsx:55-59 | PUT /tasks/id with the toggled status is sent; on success that status is set on the tasks with the id, on failure the list is unchanged |
| Dashboard.DashboardPage.HandleTaskSaved | app/dashboard/page.jsx:61-68 | edit mode replaces by id, create mode prepends; the modal closes; nothing else changes |
| Dashboard.DashboardPage.OpenNewTask | app/dashboard/page.jsx:120-124 | the modal opens in create mode |
| Dashboard.DashboardPage.OpenEditTask | app/dashboard/page.jsx:149-152 | the modal opens in edit mode for the card's task |
| Dashboard.DashboardPage.CloseModal | app/dashboard/page.jsx:193 | the modal closes, nothing else changes |
| TaskModal.FormData.With | components/TaskModal.jsx:36 | only the named field takes the new value |
| TaskModal.Errors.Set | components/TaskModal.jsx:39 | only the named field's entry is set |
| TaskModal.Errors.KeyCount | components/TaskModal.jsx:56 | the key count is zero iff no field has an entry |
| TaskModal.Prefill | components/TaskModal.jsx:18-29 | edit mode takes title and content from the task; create mode gives the empty form |
| TaskModal.HasError | components/TaskModal.jsx:38 | the `errors[name]` test: an entry that is present and not the empty string |
| TaskModal.FormErrors | components/TaskModal.jsx:44-55 | the error object validateForm builds: each field's message exactly when that field is whitespace only; TaskModal.CollectErrors proves the trim-based code computes it |
| TaskModal.CollectErrors | components/TaskModal.jsx:44-56 | "Title is required" iff the trimmed title is empty, "Content is required" iff the trimmed content is empty, valid iff no entry was set |
| TaskModal.SubmitRequest | components/TaskModal.jsx:70-75 | edit mode sends PUT /tasks/{id}, create mode POST /tasks, both with the form as body |
| TaskModal.TaskModalState.ResetForProps | components/TaskModal.jsx:18-32 | the effect pre-fills the form from the task (or empties it) and clears errors and apiError |
| TaskModal.TaskModalState.constructor | components/TaskModal.jsx:10-32 | mounting gives the initial state followed by a run of the effect |
| TaskModal.TaskModalState.ReceiveProps | components/TaskModal.jsx:18-32 | new `task`/`isOpen` props rerun the effect when they differ, and leave the form alone otherwise |
| TaskModal.TaskModalState.HandleChange | components/TaskModal.jsx:34-42 | only the named field changes; its error is blanked if shown; other errors are kept; apiError is cleared |
| TaskModal.TaskModalState.ValidateForm | components/TaskModal.jsx:44-57 | errors become the trim-based errors; the result is true iff neither field is blank |
| TaskModal.TaskModalState.Submit | components/TaskModal.jsx:59-75 | callable only while not loading (the button is disabled otherwise); apiError is cleared; an invalid form sends nothing and leaves loading alone; a valid one sets loading and sends the create or update request |
| TaskModal.TaskModalState.Resolve | components/TaskModal.jsx:76-88 | success: the task goes to onSave and the form is emptied; failure: the server message or the fallback, form kept; loading ends false |
| TaskModal.TaskModalState.HandleClose | components/TaskModal.jsx:90-95 | form, errors and apiError are emptied and onClose is called once |
| Login.FormData.With | app/login/page.jsx:31 | only the named field takes the new value |
| Login.Errors.Set | app/login/page.jsx:34 | only the named field's entry is set |
| Login.Errors.KeyCount | app/login/page.jsx:53 | the key count is zero iff no field has an entry |
| Login.HasError | app/login/page.jsx:33 | the `errors[name]` test: an entry that is present and not the empty string |
| Login.LoginErrors | app/login/page.jsx:39-52 | the error object validateForm builds: required or format message for the email, required message for an empty password; Login.CollectErrors proves the trim-based code computes it and Login.LoginValidIff when it is empty |
| Login.CollectErrors | app/login/page.jsx:39-53 | blank email: "Email is required"; otherwise a failing untrimmed validateEmail: "Please enter a valid email address"; empty password: "Password is required"; valid iff no entry |
| Login.LoginValidIff | app/login/page.jsx:39-53 | the form is valid iff validateEmail accepts the email and the password is non-empty (a whitespace-only password passes, no strength check) |
| Login.LeadingSpaceEmailMessage | app/login/page.jsx:42-46 | " a@b.c" gets "Please enter a valid email address", not "Email is required" |
| Login.LoginPage.constructor | app/login/page.jsx:18-26 | empty form, no errors, not loading, no messages, nothing sent or navigated |
| Login.LoginPage.HandleChange | app/login/page.jsx:29-37 | only the named field changes; its error is blanked if shown; apiError is cleared |
| Login.LoginPage.ValidateForm | app/login/page.jsx:39-54 | errors become the login errors; the result is true iff the email is valid and the password non-empty |
| Login.LoginPage.Submit | app/login/page.jsx:56-68 | callable only while not loading (the button is disabled otherwise); apiError and successMessage are cleared; an invalid form sends nothing; a valid one sets loading and posts the form to /auth/login |
| Login.LoginPage.Resolve | app/login/page.jsx:67-79 | success true navigates to /dashboard; success false changes nothing else; failure shows the server message or "Login failed. Please try again." with the form kept; loading ends false |
| Scenarios.RejectedLogin | app/login/page.jsx:56-79 | a well-formed login rejected by the server posts once, shows "Invalid credentials", does not navigate and ends not loading |
| Scenarios.CreateTask | app/dashboard/page.jsx:61-68 | a task created through the modal is posted to /tasks, hands the saved task to the dashboard, heads the pending list, and the modal closes |
| Scenarios.DeclinedDelete | app/dashboard/page.jsx:49-53 | a declined confirmation leaves the list unchanged and sends nothing |
| Scenarios.ToggleToCompleted | app/dashboard/page.jsx:55-71 | toggling a pending task sends PUT with 'Completed', and after the PUT the task is in the completed list and not in the pending list |
| Scenarios.SampleEmailAccepted | lib/utils.js:9-15 | "a@b.com" is accepted |

## Left out

- `lib/axios.js`: the HTTP client set-up (base URL, credentials, headers). Requests are recorded values and responses are inputs.
- `app/layout.js` and `components/TaskCard.jsx`: markup. The card's `formatDate` is locale date formatting by the platform.
- `cn` in `lib/utils.js`: a wrapper over `clsx`/`tailwind-merge`.
- The dashboard's mount effect (`verifyAuth` and `fetchTasks` run concurrently), its `user` and `loading` state and `handleLogout`. These are network and routing flows with no list logic.
- React scheduling: batched state updates, re-renders and the stale `tasks`/`errors` closures that two overlapping handlers would see. Each handler runs against the current state.
- The reset effect's dependency test uses object identity of `task`. The model compares `task` by value.
- Characters outside the Basic Multilingual Plane have no faithful representation. JavaScript stores each as two code units, so `.{8,}` counts it twice and a lone surrogate is a valid JavaScript string; in the model such a character is one element, and lone surrogates cannot occur.
- `IsWs` is given as the fixed set of ECMAScript WhiteSpace and LineTerminator code points (tab, VT, FF, space, U+00A0, U+1680, U+2000–U+200A, U+2028, U+2029, U+202F, U+205F, U+3000, U+FEFF, LF, CR). It is not derived from the Unicode Space_Separator category of a particular Unicode version.
- `showPassword`, styling and JSX; `console.error`.
- The browser's input handling is outside the model. The login email field is `type="email"`: the browser strips leading and trailing whitespace from its value and runs its own constraint validation before the page's handlers see it. Login.LeadingSpaceEmailMessage is about `validateForm`'s code given such a value, which the real input does not deliver.
- Server messages that are not strings: the `message` of an error response is modelled as an optional string.
- Dashboard.DashboardPage.HandleDeleteTask: a failed DELETE (and likewise a failed PUT in HandleToggleStatus) is modelled as "the list is unchanged". The rejected promise that the source leaves unhandled is not modelled further.
- Callbacks: `onSave` and `onClose` are recorded in the modal. `Scenarios` passes the saved task to the dashboard explicitly rather than through a stored function.
