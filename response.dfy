/**
 * The response envelope `{code, message, data}` that every handler sends,
 * and the HTTP status it is sent with.
 */
module Response {
  import opened Wrappers

  /** `{code, message, data?}`; `data == None` means the field is left out. */
  datatype Envelope<T> = Envelope(code: int, message: string, data: Option<T>)

  /** What reaches the client: the HTTP status line and the JSON body. */
  datatype Reply<T> = Reply(status: int, body: Envelope<T>)

  const DefaultSuccessMessage: string := "操作成功"
  const DefaultErrorMessage: string := "操作失败"
  const DefaultErrorCode: int := 400

  /**
   * `success(res, data?, message = '操作成功')`: envelope code 200, sent with
   * Express's default status 200. An absent argument takes its default.
   */
  function Success<T>(data: Option<T>, message: Option<string>): (r: Reply<T>)
    ensures r.status == 200 && r.body.code == 200
    ensures r.body.data == data
    ensures message.Some? ==> r.body.message == message.value
    ensures message.None? ==> r.body.message == DefaultSuccessMessage
  {
    Reply(200, Envelope(200, message.GetOr(DefaultSuccessMessage), data))
  }

  /** The status line `error` picks for an envelope code. */
  function ErrorStatus(code: int): int {
    if code >= 500 then 500 else 400
  }

  /**
   * `error(res, message = '操作失败', code = 400)`: the caller's code and
   * message in an envelope without data, sent with ErrorStatus(code).
   */
  function Error<T>(message: Option<string>, code: Option<int>): (r: Reply<T>)
    ensures r.body.data.None?
    ensures r.body.code == code.GetOr(DefaultErrorCode)
    ensures r.body.message == message.GetOr(DefaultErrorMessage)
    ensures r.status == 400 || r.status == 500
    ensures r.status == 500 <==> r.body.code >= 500
  {
    var c := code.GetOr(DefaultErrorCode);
    Reply(ErrorStatus(c), Envelope(c, message.GetOr(DefaultErrorMessage), None))
  }

  /** A not-found envelope (code 404) travels under status 400, not 404. */
  lemma NotFoundTravelsAs400<T>(message: string)
    ensures Error<T>(Some(message), Some(404)).status == 400
    ensures Error<T>(Some(message), Some(404)).body.code == 404
  {
  }
}
