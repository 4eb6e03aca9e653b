/** The `/api/v2/clusters/issues/search` tool. */
module ClustersIssuesSearch {
  import opened Values
  import opened NestedBody
  import opened ToolCall

  const SearchPath: string := "/api/v2/clusters/issues/search"

  /** `post_api_v2_clusters_issues_search(body)`, given the API client `client`:
      one POST with no query parameters and the empty mapping (not `None`)
      as data, whatever `body` says; then the outcome is normalised. */
  method PostApiV2ClustersIssuesSearch(body: string, client: Client) returns (result: Body)
    modifies client
    ensures client.log == old(client.log) + [Request(SearchPath, Post, map[], Json(map[]))]
    ensures result == Normalize(client.answer(Request(SearchPath, Post, map[], Json(map[]))))
  {
    var params: Body := map[];
    var flatBody: FlatBody := [];
    var data := AssembleNestedBody(flatBody);
    var request := Request(SearchPath, Post, params, Json(data.value));
    var reply := client.Call(request);
    if !reply.success {
      result := map["error" := ErrorMessage(reply.response)];
    } else {
      result := reply.response;
    }
  }
}
