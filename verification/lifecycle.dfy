/**
 The Create, Update and Delete methods of the `trello_board` resource
 (internal/provider/main_resource.go), as pure functions of the service's
 behaviour and the resource data the framework hands in.
 */
module Lifecycle {
  import opened Remote
  import opened Session
  import opened Resource

  /**
   How a lifecycle call ends: it saves a state (`resp.State.Set` is reached),
   it returns early after an error without saving, or the Go runtime panics
   on an out-of-range index.
   */
  datatype End = Saved(state: ResourceData) | Returned | Panicked

  datatype Outcome = Outcome(log: seq<Step>, diags: seq<Diagnostic>, end: End)

  /** One list creation per card name, in order, on board `boardId`. */
  function ListCalls(boardId: string, cards: seq<string>): seq<Call> {
    seq(|cards|, k requires 0 <= k < |cards| => CreateList(boardId, cards[k]))
  }

  /** One board invitation per email, in order, on board `boardId`. */
  function InviteCalls(boardId: string, emails: seq<string>): seq<Call> {
    seq(|emails|, k requires 0 <= k < |emails| => InviteBoard(boardId, emails[k]))
  }

  /** One workspace invitation per workspace member, in order. */
  function MemberCalls(workspaceId: string, members: seq<WorkspaceMember>): seq<Call> {
    seq(|members|, k requires 0 <= k < |members| =>
      InviteWsMember(workspaceId, members[k].email, members[k].name, members[k].role))
  }

  /**
   The two inner loops run for a board just created with id `boardId`: one
   list per card name, then one invitation per email, all best-effort.
   */
  function PopulateBoard(service: Service, run: Run, boardId: string, cards: seq<string>, emails: seq<string>): (r: Run)
    ensures Extends(r.log, run.log)
    ensures CallsOf(r.log) == CallsOf(run.log) + ListCalls(boardId, cards) + InviteCalls(boardId, emails)
  {
    var run' := BestEffort(service, run, ListCalls(boardId, cards));
    var r := BestEffort(service, run', InviteCalls(boardId, emails));
    ExtendsTrans(r.log, run'.log, run.log);
    r
  }

  /** Populating a board keeps the log answered by the service and the diagnostics equal to its report. */
  lemma PopulateBoardRecord(service: Service, run: Run, boardId: string, cards: seq<string>, emails: seq<string>)
    requires Answered(service, run.log) && run.diags == Report(run.log)
    ensures var r := PopulateBoard(service, run, boardId, cards, emails);
            Answered(service, r.log) && r.diags == Report(r.log)
  {
    BestEffortRecord(service, run, ListCalls(boardId, cards));
    BestEffortRecord(service, BestEffort(service, run, ListCalls(boardId, cards)), InviteCalls(boardId, emails));
  }

  datatype BoardsEnd = BoardsDone(run: Run, data: ResourceData) | BoardsAborted(run: Run)

  /**
   The board loop of Create from board `i` on: create the board (fatal on
   failure), record its id in slot `i`, then populate it. The inner loops'
   own index does not affect the slot, which is assigned before them from
   the board index.
   */
  function CreateBoards(service: Service, run: Run, workspaceId: string, names: seq<string>,
                        cards: seq<string>, emails: seq<string>, data: ResourceData, i: nat): (e: BoardsEnd)
    requires i <= |names|
    ensures Extends(e.run.log, run.log)
    ensures e.BoardsAborted? ==>
              var n := |e.run.log|;
              n > |run.log| && e.run.log[n - 1].call.CreateBoard? && e.run.log[n - 1].reply.Fail?
    decreases |names| - i
  {
    if i == |names| then BoardsDone(run, data)
    else
      var log := Issue(service, run.log, CreateBoard(workspaceId, names[i]));
      var last := log[|run.log|];
      assert last.call.CreateBoard?;
      match last.reply
      case Fail => BoardsAborted(Run(log, run.diags + [Error(CreateResourceError)]))
      case Ok(boardId) =>
        var run' := PopulateBoard(service, Run(log, run.diags), boardId, cards, emails);
        var e := CreateBoards(service, run', workspaceId, names, cards, emails, AssignSlot(data, i, boardId), i + 1);
        ExtendsTrans(e.run.log, run'.log, log);
        ExtendsTrans(e.run.log, log, run.log);
        e
  }

  /** The board loop keeps the log answered by the service and the diagnostics equal to its report. */
  lemma {:induction false} CreateBoardsRecord(service: Service, run: Run, workspaceId: string, names: seq<string>,
                                              cards: seq<string>, emails: seq<string>, data: ResourceData, i: nat)
    requires i <= |names|
    requires Answered(service, run.log) && run.diags == Report(run.log)
    ensures var e := CreateBoards(service, run, workspaceId, names, cards, emails, data, i);
            Answered(service, e.run.log) && e.run.diags == Report(e.run.log)
    decreases |names| - i
  {
    if i < |names| {
      var log := Issue(service, run.log, CreateBoard(workspaceId, names[i]));
      match log[|run.log|].reply
      case Fail =>
        IssueRecord(service, run.log, CreateBoard(workspaceId, names[i]));
      case Ok(boardId) =>
        IssueRecord(service, run.log, CreateBoard(workspaceId, names[i]));
        var run' := PopulateBoard(service, Run(log, run.diags), boardId, cards, emails);
        PopulateBoardRecord(service, Run(log, run.diags), boardId, cards, emails);
        CreateBoardsRecord(service, run', workspaceId, names, cards, emails, AssignSlot(data, i, boardId), i + 1);
    }
  }

  /** The board loop changes nothing in the data but the board-id slots. */
  lemma {:induction false} CreateBoardsData(service: Service, run: Run, workspaceId: string, names: seq<string>,
                                            cards: seq<string>, emails: seq<string>, data: ResourceData, i: nat)
    requires i <= |names|
    ensures var e := CreateBoards(service, run, workspaceId, names, cards, emails, data, i);
            e.BoardsDone? ==> SameExceptIds(data, e.data) && e.data.workspaceId == data.workspaceId
    decreases |names| - i
  {
    if i < |names| {
      var log := Issue(service, run.log, CreateBoard(workspaceId, names[i]));
      match log[|run.log|].reply
      case Fail =>
      case Ok(boardId) =>
        var run' := PopulateBoard(service, Run(log, run.diags), boardId, cards, emails);
        CreateBoardsData(service, run', workspaceId, names, cards, emails, AssignSlot(data, i, boardId), i + 1);
    }
  }

  /**
   What Create does once the board loop has ended: after an aborted loop it
   returns; after a completed one it invites the workspace members
   (best-effort), fills empty slots with the sentinel and saves.
   */
  function Finish(service: Service, workspaceId: string, members: seq<WorkspaceMember>, e: BoardsEnd): (r: Outcome)
    ensures Extends(r.log, e.run.log)
    ensures e.BoardsAborted? ==> r.log == e.run.log && r.end == Returned
    ensures e.BoardsDone? ==> r.end.Saved?
    ensures r.end.Saved? ==>
              && SameExceptIds(e.data, r.end.state)
              && r.end.state.workspaceId == e.data.workspaceId
              && forall j :: 0 <= j < 3 ==> Slots(r.end.state)[j] == FillNull(Slots(e.data)[j])
  {
    match e
    case BoardsAborted(run) => Outcome(run.log, run.diags, Returned)
    case BoardsDone(run, data) =>
      var run' := BestEffort(service, run, MemberCalls(workspaceId, members));
      Outcome(run'.log, run'.diags, Saved(FillNullSlots(data)))
  }

  /** Finishing keeps the log answered by the service and the diagnostics equal to its report. */
  lemma FinishRecord(service: Service, workspaceId: string, members: seq<WorkspaceMember>, e: BoardsEnd)
    requires Answered(service, e.run.log) && e.run.diags == Report(e.run.log)
    ensures var r := Finish(service, workspaceId, members, e);
            Answered(service, r.log) && r.diags == Report(r.log)
  {
    if e.BoardsDone? {
      BestEffortRecord(service, e.run, MemberCalls(workspaceId, members));
    }
  }

  /**
   Create (main_resource.go:144-293): create the workspace (fatal on failure),
   then every board in order with its lists and invitations, then invite the
   workspace members (best-effort), fill empty slots with the sentinel and save.
   */
  function Create(service: Service, plan: ResourceData): (r: Outcome)
    ensures 1 <= |r.log| && r.log[0].call == CreateWorkspace(plan.workspaceName)
    ensures service([], CreateWorkspace(plan.workspaceName)).Fail? ==>
              && r.log == [Step(CreateWorkspace(plan.workspaceName), Fail)]
              && r.diags == [Error(CreateResourceError)]
              && r.end == Returned
    ensures !r.end.Panicked?
    ensures r.end.Saved? ==>
              && SameExceptIds(plan, r.end.state)
              && r.log[0].reply == Ok(r.end.state.workspaceId)
              && forall j :: 0 <= j < 3 ==> Slots(r.end.state)[j] != ""
  {
    var log := Start(service, CreateWorkspace(plan.workspaceName));
    match log[0].reply
    case Fail => Outcome(log, [Error(CreateResourceError)], Returned)
    case Ok(workspaceId) =>
      var data := plan.(workspaceId := workspaceId);
      CreateBoardsData(service, Run(log, []), workspaceId, plan.boardNames, plan.cards, plan.memberEmails, data, 0);
      var e := CreateBoards(service, Run(log, []), workspaceId, plan.boardNames, plan.cards, plan.memberEmails, data, 0);
      var r := Finish(service, workspaceId, plan.workspaceMembers, e);
      ExtendsTrans(r.log, e.run.log, log);
      ExtendsHead(r.log, log);
      r
  }

  /**
   Every reply Create records is the service's answer to that call after the
   calls before it, and Create reports exactly one error per failed call,
   with that call's summary.
   */
  lemma CreateRecord(service: Service, plan: ResourceData)
    ensures var r := Create(service, plan);
            Answered(service, r.log) && r.diags == Report(r.log)
  {
    var log := Start(service, CreateWorkspace(plan.workspaceName));
    StartRecord(service, CreateWorkspace(plan.workspaceName));
    if log[0].reply.Ok? {
      var workspaceId := log[0].reply.id;
      var data := plan.(workspaceId := workspaceId);
      var run := Run(log, []);
      CreateBoardsRecord(service, run, workspaceId, plan.boardNames, plan.cards, plan.memberEmails, data, 0);
      var e := CreateBoards(service, run, workspaceId, plan.boardNames, plan.cards, plan.memberEmails, data, 0);
      FinishRecord(service, workspaceId, plan.workspaceMembers, e);
      assert Create(service, plan) == Finish(service, workspaceId, plan.workspaceMembers, e);
    }
  }

  /**
   The rename loop of Update from slot `i` on: skip the sentinel, otherwise
   look up the board name at the same index (a Go panic when the name list is
   shorter) and rename; the first failure ends the call without saving, and
   after the last slot the loop saves `state`.
   */
  function RenameFrom(service: Service, run: Run, slots: seq<string>, names: seq<string>,
                      state: ResourceData, i: nat): (r: Outcome)
    requires i <= |slots|
    ensures Extends(r.log, run.log)
    ensures r.end.Saved? ==> r.end.state == state
    decreases |slots| - i
  {
    if i == |slots| then Outcome(run.log, run.diags, Saved(state))
    else if slots[i] == Null then RenameFrom(service, run, slots, names, state, i + 1)
    else if i >= |names| then Outcome(run.log, run.diags, Panicked)
    else
      var log := Issue(service, run.log, RenameBoard(slots[i], names[i]));
      if log[|run.log|].reply.Fail? then Outcome(log, run.diags + [Error(UpdateBoardError)], Returned)
      else
        var r := RenameFrom(service, Run(log, run.diags), slots, names, state, i + 1);
        ExtendsTrans(r.log, log, run.log);
        r
  }

  /** The rename loop keeps the log answered by the service and the diagnostics equal to its report. */
  lemma {:induction false} RenameFromRecord(service: Service, run: Run, slots: seq<string>, names: seq<string>,
                                            state: ResourceData, i: nat)
    requires i <= |slots|
    requires Answered(service, run.log) && run.diags == Report(run.log)
    ensures var r := RenameFrom(service, run, slots, names, state, i);
            Answered(service, r.log) && r.diags == Report(r.log)
    decreases |slots| - i
  {
    if i == |slots| {
      assert RenameFrom(service, run, slots, names, state, i) == Outcome(run.log, run.diags, Saved(state));
    } else if slots[i] != Null && i >= |names| {
      assert RenameFrom(service, run, slots, names, state, i) == Outcome(run.log, run.diags, Panicked);
    } else if slots[i] == Null {
      RenameFromRecord(service, run, slots, names, state, i + 1);
    } else {
      var call := RenameBoard(slots[i], names[i]);
      var log := Issue(service, run.log, call);
      IssueRecord(service, run.log, call);
      if log[|run.log|].reply.Ok? {
        RenameFromRecord(service, Run(log, run.diags), slots, names, state, i + 1);
        assert RenameFrom(service, run, slots, names, state, i) == RenameFrom(service, Run(log, run.diags), slots, names, state, i + 1);
      } else {
        assert RenameFrom(service, run, slots, names, state, i) == Outcome(log, run.diags + [Error(UpdateBoardError)], Returned);
      }
    }
  }

  /**
   Update (main_resource.go:299-336): rename every board with a slot to the
   name at its index in the prior state's board names, then save the prior
   state unchanged.
   */
  function Update(service: Service, state: ResourceData): (r: Outcome)
    ensures r.end.Saved? ==> r.end.state == state
  {
    RenameFrom(service, Run([], []), Slots(state), state.boardNames, state, 0)
  }

  /** Every reply Update records is the service's answer, and it reports one error per failed call. */
  lemma UpdateRecord(service: Service, state: ResourceData)
    ensures var r := Update(service, state);
            Answered(service, r.log) && r.diags == Report(r.log)
  {
    RenameFromRecord(service, Run([], []), Slots(state), state.boardNames, state, 0);
  }

  /** The board loop of Delete from slot `i` on: skip the sentinel; the first failure ends the call. */
  function DeleteFrom(service: Service, run: Run, slots: seq<string>, i: nat): (r: Outcome)
    requires i <= |slots|
    ensures Extends(r.log, run.log)
    ensures r.end == Returned
    decreases |slots| - i
  {
    if i == |slots| then Outcome(run.log, run.diags, Returned)
    else if slots[i] == Null then DeleteFrom(service, run, slots, i + 1)
    else
      var log := Issue(service, run.log, DeleteBoard(slots[i]));
      if log[|run.log|].reply.Fail? then Outcome(log, run.diags + [Error(DeleteBoardError)], Returned)
      else
        var r := DeleteFrom(service, Run(log, run.diags), slots, i + 1);
        ExtendsTrans(r.log, log, run.log);
        r
  }

  /** The board loop of Delete keeps the log answered by the service and the diagnostics equal to its report. */
  lemma {:induction false} DeleteFromRecord(service: Service, run: Run, slots: seq<string>, i: nat)
    requires i <= |slots|
    requires Answered(service, run.log) && run.diags == Report(run.log)
    ensures var r := DeleteFrom(service, run, slots, i);
            Answered(service, r.log) && r.diags == Report(r.log)
    decreases |slots| - i
  {
    if i < |slots| && slots[i] == Null {
      DeleteFromRecord(service, run, slots, i + 1);
    } else if i < |slots| {
      var log := Issue(service, run.log, DeleteBoard(slots[i]));
      IssueRecord(service, run.log, DeleteBoard(slots[i]));
      if log[|run.log|].reply.Ok? {
        DeleteFromRecord(service, Run(log, run.diags), slots, i + 1);
      }
    }
  }

  /**
   Delete (main_resource.go:338-389): delete the workspace first (a failure
   ends the call), then every board with a slot. Delete never saves a state.
   */
  function Delete(service: Service, state: ResourceData): (r: Outcome)
    ensures 1 <= |r.log| && r.log[0].call == DeleteWorkspace(state.workspaceId)
    ensures r.end == Returned
  {
    var log := Start(service, DeleteWorkspace(state.workspaceId));
    if log[0].reply.Fail? then Outcome(log, [Error(DeleteWorkspaceError)], Returned)
    else
      var r := DeleteFrom(service, Run(log, []), Slots(state), 0);
      ExtendsHead(r.log, log);
      r
  }

  /** Every reply Delete records is the service's answer, and it reports one error per failed call. */
  lemma DeleteRecord(service: Service, state: ResourceData)
    ensures var r := Delete(service, state);
            Answered(service, r.log) && r.diags == Report(r.log)
  {
    var log := Start(service, DeleteWorkspace(state.workspaceId));
    StartRecord(service, DeleteWorkspace(state.workspaceId));
    if log[0].reply.Ok? {
      DeleteFromRecord(service, Run(log, []), Slots(state), 0);
    }
  }
}
