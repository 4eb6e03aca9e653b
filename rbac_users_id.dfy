/** The `/mgmt/v1/rbac/users/{id}` tool. */
module RbacUsersId {
  import opened Values
  import opened NestedBody
  import opened ToolCall

  const UsersPrefix: string := "/mgmt/v1/rbac/users/"

  /** `rbac_user_controller_v1_get(path_id)`, given the API client `client`: one
      GET to the users prefix followed by `pathId` verbatim, with no query
      parameters and the empty mapping as data; no retry. */
  method RbacUserControllerV1Get(pathId: string, client: Client) returns (result: Body)
    modifies client
    ensures client.log == old(client.log) + [Request(UsersPrefix + pathId, Get, map[], Json(map[]))]
    ensures result == Normalize(client.answer(Request(UsersPrefix + pathId, Get, map[], Json(map[]))))
  {
    var params: Body := map[];
    var flatBody: FlatBody := [];
    var data := AssembleNestedBody(flatBody);
    var request := Request(UsersPrefix + pathId, Get, params, Json(data.value));
    var reply := client.Call(request);
    if !reply.success {
      result := map["error" := ErrorMessage(reply.response)];
    } else {
      result := reply.response;
    }
  }
}
