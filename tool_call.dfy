/** The contract every tool shares with the API client `make_api_request`:
    the request it hands over and how its `(success, response)` answer is
    turned into the tool's result. */
module ToolCall {
  import opened Values

  datatype HttpMethod = Get | Post

  /** The `data` argument of `make_api_request`: `None`, or a dict. */
  datatype Payload = NoBody | Json(body: Body)

  /** The arguments of one `make_api_request` call. */
  datatype Request = Request(path: string, verb: HttpMethod, params: Body, data: Payload)

  /** What `make_api_request` answers: `(success, response)`. */
  datatype Reply = Reply(success: bool, response: Body)

  /** The API client `make_api_request` as a tool sees it: every call is
      appended to `log`, in order, and answered by `answer`. */
  class Client {
    var log: seq<Request>
    const answer: Request -> Reply

    constructor (answer: Request -> Reply)
      ensures this.answer == answer && log == []
    {
      this.answer := answer;
      log := [];
    }

    /** `await make_api_request(...)`: one request, one reply. */
    method Call(r: Request) returns (reply: Reply)
      modifies this
      ensures log == old(log) + [r]
      ensures reply == answer(r)
    {
      log := log + [r];
      reply := answer(r);
    }
  }

  /** The message used when a failed reply carries no `error` entry. */
  const DefaultError: Value := Str("Request failed")

  /** `response.get("error", "Request failed")`. */
  function ErrorMessage(response: Body): Value {
    if "error" in response then response["error"] else DefaultError
  }

  /** The result a tool returns for a reply: the response unchanged on
      success; on failure a mapping whose only key is `error`, holding the
      reported error or the default message. No other shape is returned. */
  function Normalize(reply: Reply): (result: Body)
    ensures result == reply.response || result.Keys == {"error"}
    ensures reply.success ==> result == reply.response
    ensures !reply.success ==> result.Keys == {"error"}
    ensures !reply.success && "error" in reply.response ==> result["error"] == reply.response["error"]
    ensures !reply.success && "error" !in reply.response ==> result["error"] == Str("Request failed")
  {
    if !reply.success then map["error" := ErrorMessage(reply.response)] else reply.response
  }

  /** A caller tells failure from success by the `error` key, which is
      reliable whenever successful payloads carry no `error` entry of their own. */
  lemma ErrorKeySignalsFailure(reply: Reply)
    ensures "error" in Normalize(reply) <==> !reply.success || "error" in reply.response
  {
  }

  /** The uniform error shape and the success pass-through on concrete replies. */
  lemma NormalizeExamples()
    ensures Normalize(Reply(false, map[])) == map["error" := Str("Request failed")]
    ensures Normalize(Reply(false, map["error" := Str("401"), "detail" := Null])) == map["error" := Str("401")]
    ensures Normalize(Reply(true, map["id" := Str("42")])) == map["id" := Str("42")]
  {
  }
}
