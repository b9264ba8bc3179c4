/**
 * What the store's asynchronous thunks share: the request status and the error
 * text a rejected thunk leaves (`action.error.message || fallback`).
 */
module AsyncStatus {
  import opened Wrappers

  datatype Status = Idle | Loading | Succeeded | Failed

  /** The rejection's message, or `fallback` when it is missing or empty. */
  function ErrorText(message: Option<string>, fallback: string): (r: string)
    ensures message.Some? && message.value != "" ==> r == message.value
    ensures message.None? || message.value == "" ==> r == fallback
  {
    if message.Some? && message.value != "" then message.value else fallback
  }
}
