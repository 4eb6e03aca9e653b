/** The `/api/v2/klaudia/rca/sessions/{id}` tool. */
module KlaudiaRcaSessionsId {
  import opened Values
  import opened NestedBody
  import opened ToolCall

  const SessionsPrefix: string := "/api/v2/klaudia/rca/sessions/"

  /** `get_klaudia_rca_results(path_id)`, given the API client `client`: one GET
      to the sessions prefix followed by `pathId`, with no query parameters
      and the empty mapping as data; then the outcome is normalised. */
  method GetKlaudiaRcaResults(pathId: string, client: Client) returns (result: Body)
    modifies client
    ensures client.log == old(client.log) + [Request(SessionsPrefix + pathId, Get, map[], Json(map[]))]
    ensures result == Normalize(client.answer(Request(SessionsPrefix + pathId, Get, map[], Json(map[]))))
  {
    var params: Body := map[];
    var flatBody: FlatBody := [];
    var data := AssembleNestedBody(flatBody);
    var request := Request(SessionsPrefix + pathId, Get, params, Json(data.value));
    var reply := client.Call(request);
    if !reply.success {
      result := map["error" := ErrorMessage(reply.response)];
    } else {
      result := reply.response;
    }
  }
}
