/** The requests the pages send to the backend, recorded instead of performed, and the
    outcomes of those requests, given to the handlers as inputs. */
module Api {
  import opened Wrappers
  import opened Tasks

  datatype Body =
    | NoBody
    | StatusBody(status: string)
    | TaskBody(title: string, content: string)
    | LoginBody(email: string, password: string)

  datatype Request =
    | Post(path: string, body: Body)
    | Put(path: string, body: Body)
    | Delete(path: string)

  /** The path of one task: `/tasks/${id}`. */
  function TaskPath(id: string): (p: string)
    ensures |p| == 7 + |id| && p[..7] == "/tasks/" && p[7..] == id
  {
    "/tasks/" + id
  }

  /** Different ids address different tasks. */
  lemma TaskPathInjective(a: string, b: string)
    requires TaskPath(a) == TaskPath(b)
    ensures a == b
  {
  }

  /** Outcome of a create or update request: a response body, or a rejected request that may
      carry the server's `message`. */
  datatype TaskResponse = TaskOk(success: bool, task: Task) | TaskErr(message: Option<string>)

  /** Outcome of the login request. */
  datatype LoginResponse = LoginOk(success: bool) | LoginErr(message: Option<string>)

  /** `error.response?.data?.message || fallback`: the server's message when there is one that
      is not the empty string, the fallback otherwise. */
  function ErrorMessage(message: Option<string>, fallback: string): (r: string)
    ensures r == fallback || (message.Some? && r == message.value)
    ensures message.Some? && message.value != "" ==> r == message.value
    ensures fallback != "" ==> r != ""
  {
    if message.Some? && message.value != "" then message.value else fallback
  }
}
