/**
 * Turning a caught request failure into the one message the page shows.
 */
module Api {
  import opened Wrappers

  /**
   * What was caught: either not an HTTP client error at all, or one with the
   * `message` field of the server's response body (absent when there is no
   * response, no body, or no such field), the error's own message, and its
   * error code.
   */
  datatype CaughtError =
    | NotAxios
    | Axios(responseMessage: Option<string>, message: string, code: Option<string>)

  const NetworkErrorText := "Network Error"
  const TimeoutCode := "ECONNABORTED"

  const ConnectionMessage := "Erro de conexão. Verifique se a API está rodando."
  const TimeoutMessage := "Tempo de requisição excedido. Tente novamente."
  const UnknownMessage := "Erro desconhecido. Tente novamente."

  /** The server's message when there is a non-empty one (an empty string is falsy). */
  predicate HasServerMessage(e: CaughtError)
  {
    e.Axios? && e.responseMessage.Some? && e.responseMessage.value != ""
  }

  /**
   * The display message, by priority: the server's own message; then the
   * fixed connection message for the literal "Network Error"; then the fixed
   * timeout message for the code ECONNABORTED; then the error's own message.
   * Anything that is not an HTTP client error gets the fixed unknown-error
   * message.
   */
  function GetErrorMessage(error: CaughtError): (r: string)
    ensures error.NotAxios? ==> r == UnknownMessage
    ensures HasServerMessage(error) ==> r == error.responseMessage.value
    ensures error.Axios? && !HasServerMessage(error) && error.message == NetworkErrorText ==> r == ConnectionMessage
    ensures error.Axios? && !HasServerMessage(error) && error.message != NetworkErrorText ==>
              r == if error.code == Some(TimeoutCode) then TimeoutMessage else error.message
    ensures r == "" <==>
              error.Axios? && !HasServerMessage(error) && error.message == "" && error.code != Some(TimeoutCode)
  {
    match error
    case NotAxios => UnknownMessage
    case Axios(responseMessage, message, code) =>
      if responseMessage.Some? && responseMessage.value != "" then responseMessage.value
      else if message == NetworkErrorText then ConnectionMessage
      else if code == Some(TimeoutCode) then TimeoutMessage
      else message
  }

  /** A server message wins over whatever the error's own message and code say. */
  lemma ServerMessageWins(text: string, m1: string, c1: Option<string>, m2: string, c2: Option<string>)
    requires text != ""
    ensures GetErrorMessage(Axios(Some(text), m1, c1)) == GetErrorMessage(Axios(Some(text), m2, c2)) == text
  {
  }

  /** Without a server message, "Network Error" gives the connection message whatever the code. */
  lemma NetworkErrorIgnoresCode(body: Option<string>, c1: Option<string>, c2: Option<string>)
    requires body.None? || body == Some("")
    ensures GetErrorMessage(Axios(body, NetworkErrorText, c1)) == GetErrorMessage(Axios(body, NetworkErrorText, c2))
              == ConnectionMessage
  {
  }

  /**
   * The message depends on nothing but the kind of value, the server message
   * when non-empty, the error's message and its code: an empty server message
   * counts as none.
   */
  lemma EmptyServerMessageIsNone(m: string, c: Option<string>)
    ensures GetErrorMessage(Axios(Some(""), m, c)) == GetErrorMessage(Axios(None, m, c))
  {
  }

  /** The result can be empty: an error with an empty message and no special code is passed through. */
  lemma EmptyMessagePassesThrough()
    ensures GetErrorMessage(Axios(None, "", None)) == ""
  {
  }
}
