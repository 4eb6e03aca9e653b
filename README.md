# Nested request bodies and tool calls of the Komodor MCP server

This project models the part of the Komodor MCP server that has logic of its
own. It proves properties of that model in Dafny.

- `assemble_nested_body` turns a flat dict whose keys are `_`-separated
  paths (`scope_clusters`) into a nested dict (`{"scope": {"clusters": ...}}`).
  Three tool files carry copies of it whose code (lines 21-28 of each) is
  identical; only the docstrings differ in wording. The model defines it
  once, in module `NestedBody`.
- The three tools in those files each build one fixed request. Each hands it to
  the API client `make_api_request` and turns the client's
  `(success, response)` answer into the tool's result.

Modules:

- `Values`: the decoded-JSON-like values (`Value`; `Obj` is a dict) and
  path lookup in a tree.
- `KeyPath`: `str.split("_")` as `Split`, its inverse `Join` and the
  round trips between them.
- `NestedBody`: the assembler.
  - `AssembleNestedBody` is the imperative loop. The outer loop runs over the
    items. The inner loop walks the cursor `d` down the first n-1 segments,
    as `setdefault` does. The value is then assigned at the last segment.
  - It is proved equal to `Assemble`, the left-to-right fold of `Put` (one
    key's insertion) over the items.
  - `None` stands for the call raising.
- `AssemblyProperties`: what one key does to a tree. It says where the value
  lands, what stays untouched and exactly when the call raises. It also shows
  that a later prefix key replaces a subtree and that keys on diverging paths
  commute.
- `AssemblyLaws`: what a whole call does.
  - Every part of the result comes from some input item.
  - Keys where no segment list is a prefix of another's never fail, do not
    depend on order and can be read back.
  - Worked examples cover the order-dependent cases.
- `ToolCall`: the request and reply shapes of `make_api_request`, the client
  `Client` whose `log` records every request handed to it, and the outcome
  normalisation `Normalize`.
- `ClustersIssuesSearch`, `RbacUsersId`, `KlaudiaRcaSessionsId`: the three
  tools.

The input dict is a sequence of `(key, value)` pairs in insertion order,
because Python dicts iterate in that order and the result depends on it. The
API client is an object of class `Client`: each `Call` appends its request to
the client's `log` and is answered by the client's `answer` function. Each
tool states the exact request it appends to the log, so a tool that called
the client twice, or retried, would not meet its contract.

A flat body is a sequence of pairs, so it could repeat a key, which a Python
dict cannot. Every property proved here holds for all such sequences; the
inputs Python can produce are those without repeated keys.

## Behaviour worth knowing

- Key order matters. `{"a_b": 1, "a": 2}` silently gives `{"a": 2}`: the
  later, shorter key replaces the subtree (`OverwriteExample`,
  `LaterPrefixReplaces`).
- Using one path both as a leaf and as a parent is an error only in one
  order: `{"a": 2, "a_b": 1}` raises (`ConflictExample`,
  `PutFailsIffBlocked`).
- The result does not depend on key order when no key's segment list is a
  prefix of another's (`AssembleOrderIrrelevant`).
- Empty segments are kept: `"a__b"` yields the segment `""` (`SplitExamples`).
- The `ValueError` named in the source's own docstrings is never raised by
  the code.

## Model

| member | source | states |
|---|---|---|
| KeyPath.Split | agent_komodor/protocol_bindings/mcp_server/mcp_komodor/tools/api_v2_clusters_issues_search.py:23 | splitting always yields at least one segment; no segment contains `_`; joining the segments with `_` gives the key back |
| KeyPath.SplitNoSep | agent_komodor/protocol_bindings/mcp_server/mcp_komodor/tools/api_v2_clusters_issues_search.py:23 | a key without `_` splits into exactly one segment, itself |
| KeyPath.SplitAtSep | agent_komodor/protocol_bindings/mcp_server/mcp_komodor/tools/api_v2_clusters_issues_search.py:23 | splitting `a + "_" + b`, where `a` has no `_`, yields `a` followed by the segments of `b` |
| KeyPath.SplitJoin | agent_komodor/protocol_bindings/mcp_server/mcp_komodor/tools/api_v2_clusters_issues_search.py:23 | splitting a `_`-joined list of `_`-free segments returns that list, empty segments included |
| KeyPath.SplitExamples | agent_komodor/protocol_bindings/mcp_server/mcp_komodor/tools/mgmt_v1_rbac_users_id.py:23 | `"a__b"` gives `["a", "", "b"]`, `"a_"` gives `["a", ""]`, `"_"` gives two empty segments, `""` gives `[""]` |
| NestedBody.PutByCursor | agent_komodor/protocol_bindings/mcp_server/mcp_komodor/tools/api_v2_clusters_issues_search.py:24-27 | inserting one key is the same as two steps: walk the cursor over the first n-1 segments (create if absent, reuse if a mapping), then assign in the mapping reached; it fails exactly when the walk meets a non-mapping |
| NestedBody.AssembleNestedBody | agent_komodor/protocol_bindings/mcp_server/mcp_komodor/tools/api_v2_clusters_issues_search.py:21-28 | the nested loop returns exactly `Assemble(flatBody)`: the items inserted one by one in insertion order, starting from `{}`; `None` exactly where Python raises; the same input always gives the same tree |
| AssemblyProperties.PutAtPath | agent_komodor/protocol_bindings/mcp_server/mcp_komodor/tools/api_v2_klaudia_rca_sessions_id.py:27 | after a key is inserted, the tree at and below its path is the assigned value, and any previous subtree there is gone |
| AssemblyProperties.PutPrefixIsMapping | agent_komodor/protocol_bindings/mcp_server/mcp_komodor/tools/api_v2_klaudia_rca_sessions_id.py:25-26 | after a key with n segments is inserted, each of its n-1 proper prefixes holds a mapping, created or reused |
| AssemblyProperties.PutFrame | agent_komodor/protocol_bindings/mcp_server/mcp_komodor/tools/api_v2_clusters_issues_search.py:25-26 | inserting a key leaves every path that diverges from its own unchanged, so siblings under a shared prefix survive |
| AssemblyProperties.PutOtherEntry | agent_komodor/protocol_bindings/mcp_server/mcp_komodor/tools/api_v2_clusters_issues_search.py:25-27 | inserting a key reads and writes only the top-level entry named by its first segment |
| AssemblyProperties.PutFailsIffBlocked | agent_komodor/protocol_bindings/mcp_server/mcp_komodor/tools/api_v2_clusters_issues_search.py:26-27 | inserting a key fails if and only if some proper prefix of its path already holds a value that is not a mapping; a missing segment is created instead of failing |
| AssemblyProperties.PutSingleSegment | agent_komodor/protocol_bindings/mcp_server/mcp_komodor/tools/api_v2_clusters_issues_search.py:23-27 | a key without `_` becomes a top-level entry holding its value unchanged, whatever was there before |
| AssemblyProperties.LaterPrefixReplaces | agent_komodor/protocol_bindings/mcp_server/mcp_komodor/tools/api_v2_clusters_issues_search.py:27 | inserting a key whose path is a proper prefix of an earlier key's path gives the same tree as if the earlier key had never been inserted |
| AssemblyProperties.PutCommutes | agent_komodor/protocol_bindings/mcp_server/mcp_komodor/tools/api_v2_clusters_issues_search.py:22-27 | two keys whose paths diverge give the same tree, or the same failure, in either order |
| AssemblyLaws.AssembleEmpty | agent_komodor/protocol_bindings/mcp_server/mcp_komodor/tools/api_v2_clusters_issues_search.py:21-28 | an empty flat body yields `{}` |
| AssemblyLaws.AssembleProvenance | agent_komodor/protocol_bindings/mcp_server/mcp_komodor/tools/api_v2_klaudia_rca_sessions_id.py:21-28 | nothing extra: every path in the result lies on the way to some key's path and holds a mapping, or lies at or below a key's path and holds that key's value or a part of it |
| AssemblyLaws.TopLevelKeys | agent_komodor/protocol_bindings/mcp_server/mcp_komodor/tools/api_v2_klaudia_rca_sessions_id.py:21-28 | every top-level key of the result is the first segment of some input key |
| AssemblyLaws.PrefixFreeNotBlocked | agent_komodor/protocol_bindings/mcp_server/mcp_komodor/tools/mgmt_v1_rbac_users_id.py:25-27 | when the keys are prefix-free, the next key never has to descend through a non-mapping |
| AssemblyLaws.AssemblePrefixFree | agent_komodor/protocol_bindings/mcp_server/mcp_komodor/tools/api_v2_clusters_issues_search.py:22-27 | when no key's segment list is a prefix of another's, assembly never fails and every value sits at its key's path |
| AssemblyLaws.ReflattenRecoversInput | agent_komodor/protocol_bindings/mcp_server/mcp_komodor/tools/api_v2_clusters_issues_search.py:22-27 | with prefix-free keys and values that are not mappings, the leaves of the result are exactly the input items, and joining a leaf's path with `_` gives back its key |
| AssemblyLaws.AssembleOrderIrrelevant | agent_komodor/protocol_bindings/mcp_server/mcp_komodor/tools/api_v2_clusters_issues_search.py:22-27 | with prefix-free keys, any reordering of the items gives the same result |
| AssemblyLaws.OverwriteExample | agent_komodor/protocol_bindings/mcp_server/mcp_komodor/tools/api_v2_clusters_issues_search.py:27 | `{"a_b": 1, "a": 2}` gives `{"a": 2}` without an error |
| AssemblyLaws.ConflictExample | agent_komodor/protocol_bindings/mcp_server/mcp_komodor/tools/api_v2_clusters_issues_search.py:26-27 | `{"a": 2, "a_b": 1}` fails |
| AssemblyLaws.SharedPrefixSiblings | agent_komodor/protocol_bindings/mcp_server/mcp_komodor/tools/api_v2_clusters_issues_search.py:25-26 | two keys `a_b1` and `a_b2` both land in the mapping under `a`; the second reuses that mapping and does not replace it |
| AssemblyLaws.SiblingsExample | agent_komodor/protocol_bindings/mcp_server/mcp_komodor/tools/api_v2_klaudia_rca_sessions_id.py:25-27 | for any `_`-free names, keys `e`, `s_c`, `s_n` (as in `eventType`, `scope_clusters`, `scope_namespaces`) give `{e: .., s: {c: .., n: ..}}`: one-segment keys stay at the top level and keys with a shared first segment become siblings |
| ToolCall.Client.Call | agent_komodor/protocol_bindings/mcp_server/mcp_komodor/tools/mgmt_v1_rbac_users_id.py:57 | one `make_api_request` call: the request is appended to the log, nothing else in the log changes, and the reply is the client's answer to that request |
| ToolCall.Normalize | agent_komodor/protocol_bindings/mcp_server/mcp_komodor/tools/mgmt_v1_rbac_users_id.py:59-62 | on success the result is the response unchanged; on failure it is a mapping whose only key is `error`, holding the reported error or `"Request failed"`; no other shape occurs |
| ToolCall.ErrorKeySignalsFailure | agent_komodor/protocol_bindings/mcp_server/mcp_komodor/tools/api_v2_klaudia_rca_sessions_id.py:61-64 | the result has an `error` key exactly when the call failed or the successful payload has one of its own |
| ToolCall.NormalizeExamples | agent_komodor/protocol_bindings/mcp_server/mcp_komodor/tools/mgmt_v1_rbac_users_id.py:61-62 | a failure with `{}` gives exactly `{"error": "Request failed"}`; a failure keeps only the reported `error`; a success `{"id": "42"}` is returned as is |
| ClustersIssuesSearch.PostApiV2ClustersIssuesSearch | agent_komodor/protocol_bindings/mcp_server/mcp_komodor/tools/api_v2_clusters_issues_search.py:36-66 | the client log grows by exactly one request: POST to `/api/v2/clusters/issues/search` with params `{}` and data `{}` (not `None`), independent of `body`; the result is the normalised answer to that request |
| RbacUsersId.RbacUserControllerV1Get | agent_komodor/protocol_bindings/mcp_server/mcp_komodor/tools/mgmt_v1_rbac_users_id.py:36-62 | the client log grows by exactly one request, so there is no retry: GET to `/mgmt/v1/rbac/users/` followed by `pathId` verbatim, params `{}`, data `{}`; the result is the normalised answer to that request |
| KlaudiaRcaSessionsId.GetKlaudiaRcaResults | agent_komodor/protocol_bindings/mcp_server/mcp_komodor/tools/api_v2_klaudia_rca_sessions_id.py:36-64 | the client log grows by exactly one request: GET to `/api/v2/klaudia/rca/sessions/` followed by `pathId`, params `{}`, data `{}`; the result is the normalised answer to that request |

## Left out

- Aliasing: values are modelled by value. When a flat value is itself a dict, a later key that descends into it mutates the caller's dict in place in Python. Here the result tree is the same unless one dict object is reachable from two places in the input: with `x = {}`, Python turns `{"a": x, "b": x, "a_c": 1}` into `{"a": {"c": 1}, "b": {"c": 1}}`, while the model gives `{"a": {"c": 1}, "b": {}}`. The caller's dict is never changed here.
- In-place update: the cursor `d` is a copy of the mapping it stands on. The final `d[parts[-1]] = value` is written back into the root with `Graft`.
- Failure kinds: `TypeError` and `AttributeError` are one failure outcome, `None`. The `ValueError` named in the docstrings is never raised by the code, so it is not modelled.
- Value types: Python values other than `None`, booleans, integers, strings, lists and string-keyed dicts are not modelled. That includes floats.
- `make_api_request` is not part of this model. HTTP, authentication, base URL and serialisation are inside it; here it is the `Client` object, whose answers are a fixed function of the request.
- Concurrency: async/await scheduling is not modelled. Each tool is one straight-line call.
- Logging: the debug and error log lines and the module-level logging setup are not modelled.
- Reassembling a flattened tree (the tree-side round trip) is not modelled, because the code has no flattening function. The flat-side round trip is proved instead (`ReflattenRecoversInput`).
- Server bootstrap (`server.py`) is not part of this model.
- Other tools: the other per-endpoint tool files are not part of this model. They copy arguments into `params`/`data` and apply the same normalisation. Among them, `mgmt_v1_events.py` sends its `scope_*` fields as flat keys without calling the assembler. `SiblingsExample` shows only what the assembler would do with such a body.
