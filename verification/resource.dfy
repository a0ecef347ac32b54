/**
 The resource's state record (the `trello_board` resource data): the desired
 workspace, boards, lists and invitations, plus the identifiers the service
 assigned. Board identifiers live in three fixed slots; `"null"` marks a slot
 with no board behind it.
 */
module Resource {

  /** The sentinel Create writes into a slot that received no identifier. */
  const Null := "null"

  datatype WorkspaceMember = WorkspaceMember(email: string, name: string, role: string)

  /** The credentials `key` and `token` are left out: they only appear in URLs. */
  datatype ResourceData = ResourceData(
    workspaceName: string,
    boardNames: seq<string>,
    boardId1: string,
    boardId2: string,
    boardId3: string,
    workspaceId: string,
    cards: seq<string>,
    memberEmails: seq<string>,
    workspaceMembers: seq<WorkspaceMember>)

  /** The three board-id slots in order, as Update and Delete gather them. */
  function Slots(d: ResourceData): seq<string> {
    [d.boardId1, d.boardId2, d.boardId3]
  }

  /** `a` and `b` agree on everything but the service-assigned identifiers. */
  predicate SameExceptIds(a: ResourceData, b: ResourceData) {
    b == a.(workspaceId := b.workspaceId, boardId1 := b.boardId1, boardId2 := b.boardId2, boardId3 := b.boardId3)
  }

  /** Every slot that is not the sentinel has a board name at its index. */
  predicate SlotsInRange(d: ResourceData) {
    forall j :: 0 <= j < 3 && Slots(d)[j] != Null ==> j < |d.boardNames|
  }

  /** Records the id of board `i` in slot `i` when there is one; boards from index 3 on have no slot. */
  function AssignSlot(d: ResourceData, i: nat, id: string): (d': ResourceData)
    ensures SameExceptIds(d, d') && d'.workspaceId == d.workspaceId
    ensures forall j :: 0 <= j < 3 ==> Slots(d')[j] == if j == i then id else Slots(d)[j]
  {
    if i == 0 then d.(boardId1 := id)
    else if i == 1 then d.(boardId2 := id)
    else if i == 2 then d.(boardId3 := id)
    else d
  }

  /** An empty slot becomes the sentinel; anything else is kept. */
  function FillNull(s: string): (r: string)
    ensures r != ""
    ensures s == "" ==> r == Null
    ensures s != "" ==> r == s
  {
    if s == "" then Null else s
  }

  /** Replaces every empty slot by the sentinel. */
  function FillNullSlots(d: ResourceData): (d': ResourceData)
    ensures SameExceptIds(d, d') && d'.workspaceId == d.workspaceId
    ensures forall j :: 0 <= j < 3 ==> Slots(d')[j] == FillNull(Slots(d)[j])
  {
    d.(boardId1 := FillNull(d.boardId1), boardId2 := FillNull(d.boardId2), boardId3 := FillNull(d.boardId3))
  }
}
