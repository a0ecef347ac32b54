# Lifecycle of the `trello_board` resource, in Dafny

This project models the three lifecycle methods of the Terraform provider's
`trello_board` resource (`internal/provider/main_resource.go`): `Create`,
`Update` and `Delete`. Each method is a short sequential script of HTTP calls
against the Trello API. Some failures are fatal: they add an error diagnostic
and return without saving a state. Others are best-effort: they add a
diagnostic and the script carries on.

The model abstracts the HTTP layer into a **service**. A service is a
function from the history of calls already made and the next call to a
reply, `Ok(id)` or `Fail`. Because the service sees the history, two
identical calls may be answered differently. `Fail` stands for exactly what
the code checks: a transport error, or a JSON decode error for the two calls
whose body is decoded (workspace and board creation). HTTP status codes are
never inspected by the code, so an error status with a decodable body is an
`Ok`.

Each lifecycle method is a pure function of a service and the resource data.
It returns an `Outcome`: the log of calls with their replies, the error
diagnostics, and how the method ended. It may save a state, return early
without saving, or panic. The Go runtime panics in `Update` when a slot
that is not `"null"` has no board name at its index.

Modules, one per file:

- `Remote` (`remote.dfy`): the calls, replies and service, which calls are best-effort, and the diagnostic summaries.
- `Session` (`session.dfy`): logs, diagnostics, issuing calls, the best-effort loop, and the link between a log and its diagnostics.
- `Resource` (`resource.dfy`): the resource data (`TerraformResourceModel`, lines 28-46), the three board-id slots and the `"null"` sentinel.
- `Lifecycle` (`lifecycle.dfy`): `Create`, `Update` and `Delete` and their loops.
- `CreateProperties` (`create_properties.dfy`): call order, fatal and best-effort failures, diagnostic counts and slot contents of `Create`.
- `UpdateDeleteProperties` (`update_delete_properties.dfy`): the behaviour of `Update` and `Delete` against reference call lists, and the fact that a state saved by `Create` never makes `Update` panic.

Four details of the code shape the model:

- The sentinel that `Update` and `Delete` skip is the literal string `"null"`. An empty slot is not skipped: it is renamed or deleted like any other id.
- `Update` reads the board names and the slots from the prior state (`req.State`), not from the plan. It renames each board to the name it already had in the prior state, and it saves the prior state unchanged.
- In a create plan the three id attributes are computed and still unknown, so they read as `""`. A slot whose board was not created keeps the plan's value and then becomes `"null"`. The lemmas that rely on this take a plan with empty slots as a precondition.
- The inner loops of `Create` reuse the name `i`. The slot is assigned before they run, from the board index, so boards from index 3 on are created and populated but their ids are kept nowhere.

## Model

| member | source | states |
|---|---|---|
| `Lifecycle.Create` | internal/provider/main_resource.go:144-293 | The first call creates the workspace. If it fails, that call is the whole log, there is exactly one "Unable to Create Resource" error and nothing is saved. Create never panics on any reply the model represents (a workspace reply whose body is `null` is not one of them; see below). A saved state equals the plan except for the ids; its workspace id is the one the first call returned, and no slot is empty. |
| `Lifecycle.CreateRecord` | internal/provider/main_resource.go:157-277 | Every reply in Create's log is the service's answer to that call after the calls before it. The diagnostics are exactly one error per failed call, in order, with the summary the code uses for that call. |
| `Lifecycle.CreateBoards` | internal/provider/main_resource.go:187-222 | The board loop only appends to the log. When it aborts, its last call is a failed board creation. |
| `Lifecycle.CreateBoardsRecord` | internal/provider/main_resource.go:190-253 | The board loop keeps every reply the service's answer and reports each failed board, list or invitation call with one error. |
| `Lifecycle.CreateBoardsData` | internal/provider/main_resource.go:216-222 | A completed board loop changes only the board-id slots of the data and keeps the workspace id. |
| `Lifecycle.PopulateBoard` | internal/provider/main_resource.go:224-254 | After a board is created, the calls made for it are one list creation per card name in order, then one board invitation per email in order. |
| `Lifecycle.PopulateBoardRecord` | internal/provider/main_resource.go:228-253 | Each failed list creation or board invitation adds one error with its own summary, and the loop carries on. |
| `Lifecycle.Finish` | internal/provider/main_resource.go:257-292 | After an aborted board loop Create returns with the log unchanged. After a completed one it saves a state that differs from the loop's data only in the slots: an empty slot becomes `"null"`, every other slot is kept. |
| `Lifecycle.FinishRecord` | internal/provider/main_resource.go:269-276 | Each failed workspace-member invitation adds one error, and the log stays answered by the service. |
| `Lifecycle.RenameFrom` | internal/provider/main_resource.go:309-333 | The rename loop only appends to the log. When it saves, the state it saves is the prior state. |
| `Lifecycle.RenameFromRecord` | internal/provider/main_resource.go:323-332 | A failed rename is reported with one "Unable to Update Board" error, and the log stays answered by the service. |
| `Lifecycle.Update` | internal/provider/main_resource.go:299-336 | A state Update saves is the prior state, unchanged. |
| `Lifecycle.UpdateRecord` | internal/provider/main_resource.go:302-335 | Every reply in Update's log is the service's answer, and the diagnostics are one error per failed call. |
| `Lifecycle.DeleteFrom` | internal/provider/main_resource.go:365-386 | The board-deletion loop only appends to the log and never saves a state. |
| `Lifecycle.DeleteFromRecord` | internal/provider/main_resource.go:376-385 | A failed board deletion is reported with one "Unable Delete Board" error, and the log stays answered by the service. |
| `Lifecycle.Delete` | internal/provider/main_resource.go:338-389 | The first call deletes the workspace, and Delete never saves a state. |
| `Lifecycle.DeleteRecord` | internal/provider/main_resource.go:348-385 | Every reply in Delete's log is the service's answer, and the diagnostics are one error per failed call. |
| `Resource.AssignSlot` | internal/provider/main_resource.go:216-222 | Board index i < 3 sets slot i and leaves the other slots and all other data unchanged. A board index from 3 on changes nothing. |
| `Resource.FillNull` | internal/provider/main_resource.go:280-282 | An empty value becomes `"null"`, a non-empty value is kept, so the result is never empty. |
| `Resource.FillNullSlots` | internal/provider/main_resource.go:279-290 | Each slot is replaced by its sentinel-filled value, and nothing else changes. |
| `Session.BestEffort` | internal/provider/main_resource.go:224-236 | A best-effort loop makes every one of its calls in order, whatever the replies. |
| `Session.BestEffortRecord` | internal/provider/main_resource.go:228-235 | A best-effort loop reports each failed call with one error carrying that call's summary. |
| `Session.ReportCountsFailures` | internal/provider/main_resource.go:246-253 | The number of errors a log reports is the number of failed best-effort calls plus the number of failed fatal calls. |
| `CreateProperties.CreateBoardsDone` | internal/provider/main_resource.go:187-255 | A completed board loop has made, for every board in order, its creation, lists and invitations. It has no fatal failure, and slot j holds the id of board j or the plan's value. |
| `CreateProperties.CreateBoardsAborted` | internal/provider/main_resource.go:188-214 | An aborted board loop ends with the failed creation of some board k. Before it, the log holds the complete calls for boards 0..k-1 and no fatal failure. |
| `CreateProperties.CreateBoardsAbortedFromStart` | internal/provider/main_resource.go:188-214 | Started after a successful workspace creation, an aborted board loop stops at the first board whose creation failed. No board after it and no invitation after that failure is attempted. |
| `CreateProperties.CreateCallOrder` | internal/provider/main_resource.go:187-277 | A Create that saves has made exactly these calls: the workspace creation; then for each board in order its creation, one list per card and one invitation per email; then one workspace-member invitation per member, with the workspace id. |
| `CreateProperties.CreateSlots` | internal/provider/main_resource.go:216-290 | When Create saves, one board was created per name, and slot j holds the id of board j when there is one, else the plan's value, with empty values replaced by `"null"`. |
| `CreateProperties.CreateSlotsFromEmptyPlan` | internal/provider/main_resource.go:279-290 | From a plan with empty slots, slot j holds the id returned for board j when that board was created with a non-empty id, and `"null"` otherwise. |
| `CreateProperties.CreateFatalFailureLast` | internal/provider/main_resource.go:159-214 | When Create returns without saving, its last call failed and is a workspace or board creation, and no fatal call before it failed. |
| `CreateProperties.CreateStopsAtFatalFailure` | internal/provider/main_resource.go:188-214 | When Create returns early after the workspace call, that call succeeded and fewer boards were created than named. The log holds the complete calls for the boards before the failed one and ends with the failed board creation, so no later board and no workspace-member invitation is attempted. |
| `CreateProperties.CreateSavesIffNoFatalFailure` | internal/provider/main_resource.go:157-292 | Create saves exactly when no workspace or board creation failed, and returns early exactly when one did. |
| `CreateProperties.CreateDiagnosticCount` | internal/provider/main_resource.go:228-276 | A Create that saves reports exactly one error per failed best-effort call. A Create that returns early reports one more. |
| `CreateProperties.CreateSlotsInRange` | internal/provider/main_resource.go:216-222 | From a plan with empty slots, every slot Create saves other than `"null"` has a board name at its index. |
| `CreateProperties.CreateIgnoresBestEffortReplies` | internal/provider/main_resource.go:224-277 | Replies to list creations and invitations do not steer Create: services that differ only on them lead to the same calls and the same ending, including the same saved state. |
| `UpdateDeleteProperties.RenameFromCalls` | internal/provider/main_resource.go:309-317 | The rename loop makes a prefix of the reference renames: one per slot that is not `"null"`, in slot order, with the name at that index, up to the first such slot with no name. When it saves or panics, it has made all of them. |
| `UpdateDeleteProperties.RenameFromEnd` | internal/provider/main_resource.go:309-335 | The rename loop saves the prior state exactly when every remaining slot is in range and every rename succeeded. It panics only after successful renames, on a slot out of range. Neither ending adds a diagnostic. |
| `UpdateDeleteProperties.RenameFromFailure` | internal/provider/main_resource.go:321-332 | A rename loop that returns early stops at its first failed rename, which is its last call, and adds exactly one error. |
| `UpdateDeleteProperties.UpdateBehaviour` | internal/provider/main_resource.go:302-335 | Update renames, in slot order, every board whose slot is not `"null"`, to the name at its index, up to the first such slot with no name; its calls are a prefix of those renames, and all of them when it saves or panics. It saves the unchanged prior state, with no diagnostic, exactly when every slot is in range and every rename succeeded. It panics exactly when a slot is out of range and the renames before it succeeded. Otherwise the first failed rename ends it with one error. |
| `UpdateDeleteProperties.DeleteFromCalls` | internal/provider/main_resource.go:365-374 | The board-deletion loop makes a prefix of one deletion per slot that is not `"null"`, in slot order, and all of them when every deletion succeeds. |
| `UpdateDeleteProperties.DeleteFromFailure` | internal/provider/main_resource.go:376-385 | The board-deletion loop adds no diagnostic when every deletion succeeds. Otherwise its last call is its only failed deletion, and it adds one error. |
| `UpdateDeleteProperties.DeleteBehaviour` | internal/provider/main_resource.go:346-389 | Delete deletes the workspace first. If that fails, it makes no other call and reports one "Unable Delete Workspace" error. Its calls are a prefix of the workspace deletion followed by one board deletion per slot that is not `"null"`. It reports no error exactly when every call succeeded, and then it has made all of them. Otherwise the first failure ends it with one error. |
| `UpdateDeleteProperties.UpdateAfterCreateNeverPanics` | internal/provider/main_resource.go:311-315 | A state Create saved from a plan with empty slots never makes Update panic on its name lookup, whatever either call's service answers. |

## Left out

- HTTP transport, URL assembly and JSON decoding are replaced by the service. Only the answer the code branches on is kept: a transport or decode failure against anything else.
- The credentials `key` and `token` and the `tflog.Debug` lines have no effect on control flow.
- The detail text of each diagnostic, which embeds the Go error string, is not modelled. Only the summary is.
- The diagnostics of `req.Plan.Get`, `req.State.Get` and `resp.State.Set` are not modelled. The model assumes that reading the plan or state succeeds, and that setting the state is the saved state.
- The error of `http.NewRequest` is discarded by the code. If construction failed, the nil request would make `Header.Set` panic; request construction is assumed to succeed.
- Lifecycle.Create: does not promise anything for a workspace reply whose body is the JSON literal `null`. The code decodes that reply into a pointer to a pointer (line 172), which `null` sets to nil without an error, and then reads its `id` (line 185), which panics. `Reply` has no answer for this body, so the model's "Create never panics" holds only over the replies it represents. A board reply with a `null` body is decoded into a plain pointer (line 203), leaves the id empty, and is modelled as `Ok("")`.
- A nil entry in `workspace_members` would make the code dereference nil and panic. Members are modelled as values.
- `Metadata`, `Schema`, `Configure` and the empty `Read` (lines 48-142 and 295-297) are declarative framework glue.
- `internal/provider/provider.go`, `main.go` and `resource_server.go` are not part of this model. The first two are registration and bootstrap. The last is an older single-board revision of the resource that ends the process on errors.
- There is no concurrency, retry or timeout in the code, and the model is strictly sequential.
