/**
 The remote collaboration-board service as the resource's lifecycle code sees it.
 Every HTTP round trip the resource makes is one `Call`; the service answers each
 with a `Reply`. URL assembly, credentials and JSON decoding are abstracted away:
 what is left is which request is made, with which identifiers and names, and
 whether the code treats the answer as a failure.
 */
module Remote {

  /** One request to the service, carrying the values the source splices into its URL. */
  datatype Call =
    | CreateWorkspace(displayName: string)                  // POST organizations
    | CreateBoard(workspaceId: string, name: string)        // POST boards, no default lists
    | CreateList(boardId: string, name: string)             // POST lists
    | InviteBoard(boardId: string, email: string)           // PUT boards/{id}/members
    | InviteWsMember(workspaceId: string, email: string, fullName: string, role: string)
                                                            // PUT organizations/{id}/members
    | RenameBoard(boardId: string, name: string)            // PUT boards/{id}
    | DeleteWorkspace(workspaceId: string)                  // DELETE organizations/{id}
    | DeleteBoard(boardId: string)                          // DELETE boards/{id}

  /**
   The answer to a call as the code reads it. `Fail` is a transport error, or,
   for the two calls whose body is decoded (workspace and board creation), a JSON
   decode error. HTTP status codes are never inspected, so an error status with a
   decodable body is an `Ok`; a body without an `id` field decodes to `Ok("")`,
   and so does a board reply whose body is the JSON literal `null`. A workspace
   reply whose body is `null` is not among these answers: the code decodes it
   into a pointer to a pointer, which `null` leaves nil, and then panics reading
   its `id` (main_resource.go:170-185).
   For calls whose body is not decoded the `id` of an `Ok` is irrelevant.
   */
  datatype Reply = Ok(id: string) | Fail

  /**
   The service: its answer may depend on every call issued before (the history)
   as well as on the call itself, so two identical calls may be answered differently.
   */
  type Service = (seq<Call>, Call) -> Reply

  /** Calls whose failure the lifecycle code reports and then carries on past. */
  predicate IsBestEffort(call: Call) {
    call.CreateList? || call.InviteBoard? || call.InviteWsMember?
  }

  /** `s1` and `s2` answer every call whose failure is fatal alike, after any history. */
  ghost predicate SameFatalReplies(s1: Service, s2: Service) {
    forall h, c :: !IsBestEffort(c) ==> s1(h, c) == s2(h, c)
  }

  const CreateResourceError := "Unable to Create Resource"
  const CreateCardsError := "Unable to Create Cards"
  const InviteMembersError := "Unable to Invite Members"
  const InviteWsMembersError := "Unable to Invite Workspace Members"
  const UpdateBoardError := "Unable to Update Board"
  const DeleteWorkspaceError := "Unable Delete Workspace"
  const DeleteBoardError := "Unable Delete Board"

  /** The summary of the error diagnostic the code adds when `call` fails. */
  function Summary(call: Call): string {
    match call
    case CreateWorkspace(_) => CreateResourceError
    case CreateBoard(_, _) => CreateResourceError
    case CreateList(_, _) => CreateCardsError
    case InviteBoard(_, _) => InviteMembersError
    case InviteWsMember(_, _, _, _) => InviteWsMembersError
    case RenameBoard(_, _) => UpdateBoardError
    case DeleteWorkspace(_) => DeleteWorkspaceError
    case DeleteBoard(_) => DeleteBoardError
  }
}
