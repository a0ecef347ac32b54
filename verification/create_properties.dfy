/**
 What Create promises: the exact order of its calls, where a fatal failure
 stops it, that best-effort failures only add diagnostics, and which id ends
 up in which slot.
 */
module CreateProperties {
  import opened Remote
  import opened Session
  import opened Resource
  import opened Lifecycle

  /** The ids the service returned to successful board creations in `log`, in order. */
  function CreatedBoardIds(log: seq<Step>): seq<string>
    decreases |log|
  {
    if log == [] then []
    else
      var last := log[|log| - 1];
      CreatedBoardIds(log[..|log| - 1])
      + (if last.call.CreateBoard? && last.reply.Ok? then [last.reply.id] else [])
  }

  /** The calls made for one board that was created with id `boardId`. */
  function BoardCalls(workspaceId: string, name: string, boardId: string,
                      cards: seq<string>, emails: seq<string>): seq<Call>
  {
    [CreateBoard(workspaceId, name)] + ListCalls(boardId, cards) + InviteCalls(boardId, emails)
  }

  /** The calls made for the boards `names`, created with the ids `ids`, one after another. */
  function BoardsCalls(workspaceId: string, names: seq<string>, ids: seq<string>,
                       cards: seq<string>, emails: seq<string>): seq<Call>
    requires |names| == |ids|
    decreases |names|
  {
    if names == [] then []
    else
      var n := |names| - 1;
      BoardsCalls(workspaceId, names[..n], ids[..n], cards, emails)
      + BoardCalls(workspaceId, names[n], ids[n], cards, emails)
  }

  /** The slot `j` a completed board loop leaves, before empty slots are filled. */
  function ExpectedSlot(plan: ResourceData, ids: seq<string>, j: nat): string
    requires j < 3
  {
    if j < |ids| then ids[j] else Slots(plan)[j]
  }

  /** Appending best-effort steps neither creates a board nor adds a fatal failure. */
  lemma {:induction false} AppendBestEffort(log: seq<Step>, log': seq<Step>, calls: seq<Call>)
    requires Extends(log', log) && CallsOf(log') == CallsOf(log) + calls
    requires forall c :: c in calls ==> IsBestEffort(c)
    ensures CreatedBoardIds(log') == CreatedBoardIds(log)
    ensures NoFatalFailure(log) ==> NoFatalFailure(log')
    decreases |log'|
  {
    if |log'| > |log| {
      var n := |log'| - 1;
      var init := log'[..n];
      var m := |calls| - 1;
      assert |calls| == |log'| - |log|;
      assert log'[n].call == CallsOf(log')[n] == calls[m];
      assert calls[m] in calls;
      assert Extends(init, log) by { assert init[..|log|] == log'[..|log|]; }
      CallsOfPrefix(log', n);
      assert CallsOf(init) == CallsOf(log) + calls[..m];
      assert forall c :: c in calls[..m] ==> c in calls;
      AppendBestEffort(log, init, calls[..m]);
      assert CreatedBoardIds(log') == CreatedBoardIds(init);
    } else {
      assert log' == log'[..|log|] == log;
    }
  }

  /** Appending one step to a log without fatal failures: the result has none iff the step has none. */
  lemma NoFatalFailureSnoc(log: seq<Step>, s: Step)
    requires NoFatalFailure(log)
    ensures NoFatalFailure(log + [s]) <==> (IsBestEffort(s.call) || s.reply.Ok?)
  {
    assert (log + [s])[..|log|] == log;
  }

  /**
   What the board loop has done before board `i`: the log holds `head`
   followed by the calls for boards 0..i-1, created with the ids the log
   records, without a fatal failure, and the slots hold those ids.
   */
  predicate BoardsSoFar(plan: ResourceData, head: seq<Call>, log: seq<Step>, workspaceId: string,
                        names: seq<string>, cards: seq<string>, emails: seq<string>, data: ResourceData, i: nat)
  {
    && i <= |names|
    && |CreatedBoardIds(log)| == i
    && CallsOf(log) == head + BoardsCalls(workspaceId, names[..i], CreatedBoardIds(log), cards, emails)
    && NoFatalFailure(log)
    && forall j :: 0 <= j < 3 ==> Slots(data)[j] == ExpectedSlot(plan, CreatedBoardIds(log), j)
  }

  /** A completed board loop has made the calls for every board, in order, and filled the slots. */
  lemma {:induction false} CreateBoardsDone(service: Service, plan: ResourceData, head: seq<Call>, run: Run,
                                            workspaceId: string, names: seq<string>, cards: seq<string>,
                                            emails: seq<string>, data: ResourceData, i: nat)
    requires BoardsSoFar(plan, head, run.log, workspaceId, names, cards, emails, data, i)
    ensures var e := CreateBoards(service, run, workspaceId, names, cards, emails, data, i);
            e.BoardsDone? ==> BoardsSoFar(plan, head, e.run.log, workspaceId, names, cards, emails, e.data, |names|)
    decreases |names| - i
  {
    if i < |names| {
      var log := Issue(service, run.log, CreateBoard(workspaceId, names[i]));
      match log[|run.log|].reply
      case Fail =>
      case Ok(boardId) =>
        var run' := PopulateBoard(service, Run(log, run.diags), boardId, cards, emails);
        var data' := AssignSlot(data, i, boardId);
        BoardStep(plan, head, run.log, log, run'.log, workspaceId, names, cards, emails, data, i, boardId);
        CreateBoardsDone(service, plan, head, run', workspaceId, names, cards, emails, data', i + 1);
        assert CreateBoards(service, run, workspaceId, names, cards, emails, data, i)
            == CreateBoards(service, run', workspaceId, names, cards, emails, data', i + 1);
    }
  }

  /**
   An aborted board loop stopped at some board `k`: the log it ends with is
   the log of the loop's invariant at board `k` followed by the failed
   creation of board `k`.
   */
  lemma {:induction false} CreateBoardsAborted(service: Service, plan: ResourceData, head: seq<Call>, run: Run,
                                               workspaceId: string, names: seq<string>, cards: seq<string>,
                                               emails: seq<string>, data: ResourceData, i: nat)
      returns (log0: seq<Step>, data0: ResourceData, k: nat)
    requires BoardsSoFar(plan, head, run.log, workspaceId, names, cards, emails, data, i)
    ensures var e := CreateBoards(service, run, workspaceId, names, cards, emails, data, i);
            e.BoardsAborted? ==>
              && i <= k < |names|
              && BoardsSoFar(plan, head, log0, workspaceId, names, cards, emails, data0, k)
              && e.run.log == log0 + [Step(CreateBoard(workspaceId, names[k]), Fail)]
    decreases |names| - i
  {
    log0, data0, k := run.log, data, i;
    if i < |names| {
      var log := Issue(service, run.log, CreateBoard(workspaceId, names[i]));
      match log[|run.log|].reply
      case Fail =>
        assert log == run.log + [Step(CreateBoard(workspaceId, names[i]), Fail)];
      case Ok(boardId) =>
        assert log == run.log + [Step(CreateBoard(workspaceId, names[i]), Ok(boardId))];
        var run' := PopulateBoard(service, Run(log, run.diags), boardId, cards, emails);
        var data' := AssignSlot(data, i, boardId);
        BoardStep(plan, head, run.log, log, run'.log, workspaceId, names, cards, emails, data, i, boardId);
        log0, data0, k := CreateBoardsAborted(service, plan, head, run', workspaceId, names, cards, emails, data', i + 1);
        assert CreateBoards(service, run, workspaceId, names, cards, emails, data, i)
            == CreateBoards(service, run', workspaceId, names, cards, emails, data', i + 1);
    }
  }

  /** A failed board creation appends one fatal failure and creates no board. */
  lemma BoardFails(head: seq<Call>, log0: seq<Step>, log: seq<Step>, workspaceId: string, names: seq<string>,
                   ids: seq<string>, cards: seq<string>, emails: seq<string>, i: nat)
    requires i < |names| && |ids| == i && CreatedBoardIds(log0) == ids
    requires CallsOf(log0) == head + BoardsCalls(workspaceId, names[..i], ids, cards, emails)
    requires NoFatalFailure(log0)
    requires log == log0 + [Step(CreateBoard(workspaceId, names[i]), Fail)]
    ensures CreatedBoardIds(log) == ids
    ensures CallsOf(log) == head + BoardsCalls(workspaceId, names[..i], ids, cards, emails) + [CreateBoard(workspaceId, names[i])]
    ensures NoFatalFailure(log[..|log| - 1])
  {
    assert log[..|log| - 1] == log0;
    CallsOfAppend(log0, [log[|log| - 1]]);
    assert CallsOf([log[|log| - 1]]) == [CreateBoard(workspaceId, names[i])];
  }

  /** One created and populated board takes the loop's invariant from board `i` to board `i + 1`. */
  lemma BoardStep(plan: ResourceData, head: seq<Call>, log0: seq<Step>, log: seq<Step>, log': seq<Step>,
                  workspaceId: string, names: seq<string>, cards: seq<string>, emails: seq<string>,
                  data: ResourceData, i: nat, boardId: string)
    requires BoardsSoFar(plan, head, log0, workspaceId, names, cards, emails, data, i) && i < |names|
    requires log == log0 + [Step(CreateBoard(workspaceId, names[i]), Ok(boardId))]
    requires Extends(log', log)
    requires CallsOf(log') == CallsOf(log) + ListCalls(boardId, cards) + InviteCalls(boardId, emails)
    ensures BoardsSoFar(plan, head, log', workspaceId, names, cards, emails, AssignSlot(data, i, boardId), i + 1)
  {
    var ids0 := CreatedBoardIds(log0);
    BoardStepIds(log0, log, log', workspaceId, names[i], cards, emails, boardId);
    BoardStepCalls(head, log0, log, log', workspaceId, names, cards, emails, i, boardId);
    SlotStep(plan, ids0, data, i, boardId);
  }

  /** A created and populated board adds its id to the created ids and no fatal failure. */
  lemma BoardStepIds(log0: seq<Step>, log: seq<Step>, log': seq<Step>, workspaceId: string, name: string,
                     cards: seq<string>, emails: seq<string>, boardId: string)
    requires NoFatalFailure(log0)
    requires log == log0 + [Step(CreateBoard(workspaceId, name), Ok(boardId))]
    requires Extends(log', log)
    requires CallsOf(log') == CallsOf(log) + ListCalls(boardId, cards) + InviteCalls(boardId, emails)
    ensures CreatedBoardIds(log') == CreatedBoardIds(log0) + [boardId]
    ensures NoFatalFailure(log')
  {
    var calls := ListCalls(boardId, cards) + InviteCalls(boardId, emails);
    assert log[..|log| - 1] == log0;
    assert CreatedBoardIds(log) == CreatedBoardIds(log0) + [boardId];
    NoFatalFailureSnoc(log0, log[|log| - 1]);
    assert forall c :: c in calls ==> IsBestEffort(c);
    assert CallsOf(log') == CallsOf(log) + calls;
    AppendBestEffort(log, log', calls);
  }

  /** A created and populated board appends exactly that board's calls. */
  lemma BoardStepCalls(head: seq<Call>, log0: seq<Step>, log: seq<Step>, log': seq<Step>, workspaceId: string,
                       names: seq<string>, cards: seq<string>, emails: seq<string>, i: nat, boardId: string)
    requires i < |names| && |CreatedBoardIds(log0)| == i
    requires CallsOf(log0) == head + BoardsCalls(workspaceId, names[..i], CreatedBoardIds(log0), cards, emails)
    requires log == log0 + [Step(CreateBoard(workspaceId, names[i]), Ok(boardId))]
    requires CallsOf(log') == CallsOf(log) + ListCalls(boardId, cards) + InviteCalls(boardId, emails)
    ensures CallsOf(log') == head + BoardsCalls(workspaceId, names[..i + 1], CreatedBoardIds(log0) + [boardId], cards, emails)
  {
    var ids0 := CreatedBoardIds(log0);
    CallsOfAppend(log0, [log[|log| - 1]]);
    BoardsCallsSnoc(workspaceId, names, ids0, boardId, cards, emails, i);
    var before := BoardsCalls(workspaceId, names[..i], ids0, cards, emails);
    assert CallsOf(log) == head + before + [CreateBoard(workspaceId, names[i])];
    assert CallsOf(log') == head + (before + BoardCalls(workspaceId, names[i], boardId, cards, emails));
  }

  lemma BoardsCallsSnoc(workspaceId: string, names: seq<string>, ids: seq<string>, boardId: string,
                        cards: seq<string>, emails: seq<string>, i: nat)
    requires i < |names| && |ids| == i
    ensures BoardsCalls(workspaceId, names[..i + 1], ids + [boardId], cards, emails)
         == BoardsCalls(workspaceId, names[..i], ids, cards, emails)
            + BoardCalls(workspaceId, names[i], boardId, cards, emails)
  {
    var ids1 := ids + [boardId];
    assert names[..i + 1][..i] == names[..i] && ids1[..i] == ids && names[..i + 1][i] == names[i];
  }

  /** Recording board `i`'s id keeps every slot at its expected value. */
  lemma SlotStep(plan: ResourceData, ids: seq<string>, data: ResourceData, i: nat, boardId: string)
    requires |ids| == i
    requires forall j :: 0 <= j < 3 ==> Slots(data)[j] == ExpectedSlot(plan, ids, j)
    ensures forall j :: 0 <= j < 3 ==> Slots(AssignSlot(data, i, boardId))[j] == ExpectedSlot(plan, ids + [boardId], j)
  {
  }

  /** The board loop as Create starts it, right after the workspace was created with id `workspaceId`. */
  lemma BoardsStart(service: Service, plan: ResourceData, log: seq<Step>, workspaceId: string)
    requires log == Start(service, CreateWorkspace(plan.workspaceName)) && log[0].reply == Ok(workspaceId)
    ensures BoardsSoFar(plan, [CreateWorkspace(plan.workspaceName)], log, workspaceId, plan.boardNames,
                        plan.cards, plan.memberEmails, plan.(workspaceId := workspaceId), 0)
  {
    assert log == [Step(CreateWorkspace(plan.workspaceName), Ok(workspaceId))];
    assert log[..0] == [];
    assert CreatedBoardIds(log) == [];
  }

  /** The loop's invariant after the last board: every board's calls are in the log. */
  lemma BoardsSoFarAll(plan: ResourceData, head: seq<Call>, log: seq<Step>, workspaceId: string,
                       names: seq<string>, cards: seq<string>, emails: seq<string>, data: ResourceData)
    requires BoardsSoFar(plan, head, log, workspaceId, names, cards, emails, data, |names|)
    ensures var ids := CreatedBoardIds(log);
            && |ids| == |names|
            && CallsOf(log) == head + BoardsCalls(workspaceId, names, ids, cards, emails)
            && NoFatalFailure(log)
            && forall j :: 0 <= j < 3 ==> Slots(data)[j] == ExpectedSlot(plan, ids, j)
  {
    assert names[..|names|] == names;
  }

  /**
   The board loop as Create runs it, right after the workspace call
   succeeded with id `workspaceId`: when it completes, it has made the calls
   for every board in order without a fatal failure and filled the slots.
   */
  lemma CreateBoardsFromStart(service: Service, plan: ResourceData, log: seq<Step>, workspaceId: string)
    requires log == Start(service, CreateWorkspace(plan.workspaceName)) && log[0].reply == Ok(workspaceId)
    ensures var e := CreateBoards(service, Run(log, []), workspaceId, plan.boardNames, plan.cards, plan.memberEmails,
                                  plan.(workspaceId := workspaceId), 0);
            var ids := CreatedBoardIds(e.run.log);
            e.BoardsDone? ==>
              && |ids| == |plan.boardNames|
              && CallsOf(e.run.log) == [CreateWorkspace(plan.workspaceName)]
                                       + BoardsCalls(workspaceId, plan.boardNames, ids, plan.cards, plan.memberEmails)
              && NoFatalFailure(e.run.log)
              && e.data.workspaceId == workspaceId
              && forall j :: 0 <= j < 3 ==> Slots(e.data)[j] == ExpectedSlot(plan, ids, j)
  {
    var head := [CreateWorkspace(plan.workspaceName)];
    var data := plan.(workspaceId := workspaceId);
    var run := Run(log, []);
    var e := CreateBoards(service, run, workspaceId, plan.boardNames, plan.cards, plan.memberEmails, data, 0);
    if e.BoardsDone? {
      BoardsStart(service, plan, log, workspaceId);
      CreateBoardsDone(service, plan, head, run, workspaceId, plan.boardNames, plan.cards, plan.memberEmails, data, 0);
      BoardsSoFarAll(plan, head, e.run.log, workspaceId, plan.boardNames, plan.cards, plan.memberEmails, e.data);
      CreateBoardsData(service, run, workspaceId, plan.boardNames, plan.cards, plan.memberEmails, data, 0);
    }
  }

  /**
   The board loop as Create runs it, when it aborts: it has made the calls
   for the boards before the failed one, then the failed creation, which is
   the loop's only fatal failure.
   */
  lemma CreateBoardsAbortedFromStart(service: Service, plan: ResourceData, log: seq<Step>, workspaceId: string)
    requires log == Start(service, CreateWorkspace(plan.workspaceName)) && log[0].reply == Ok(workspaceId)
    ensures var e := CreateBoards(service, Run(log, []), workspaceId, plan.boardNames, plan.cards, plan.memberEmails,
                                  plan.(workspaceId := workspaceId), 0);
            var ids := CreatedBoardIds(e.run.log);
            var n := |e.run.log|;
            e.BoardsAborted? ==>
              && 1 < n
              && |ids| < |plan.boardNames|
              && CallsOf(e.run.log) == [CreateWorkspace(plan.workspaceName)]
                                       + BoardsCalls(workspaceId, plan.boardNames[..|ids|], ids, plan.cards, plan.memberEmails)
                                       + [CreateBoard(workspaceId, plan.boardNames[|ids|])]
  {
    var head := [CreateWorkspace(plan.workspaceName)];
    var data := plan.(workspaceId := workspaceId);
    var run := Run(log, []);
    var e := CreateBoards(service, run, workspaceId, plan.boardNames, plan.cards, plan.memberEmails, data, 0);
    BoardsStart(service, plan, log, workspaceId);
    var log0, data0, k := CreateBoardsAborted(service, plan, head, run, workspaceId, plan.boardNames, plan.cards, plan.memberEmails, data, 0);
    if e.BoardsAborted? {
      BoardFails(head, log0, e.run.log, workspaceId, plan.boardNames, CreatedBoardIds(log0), plan.cards, plan.memberEmails, k);
      assert |CallsOf(log0)| >= 1;
    }
  }

  /** An aborted board loop, as Create runs it, ends with its only fatal failure: a failed board creation. */
  lemma CreateBoardsAbortedLastFromStart(service: Service, plan: ResourceData, log: seq<Step>, workspaceId: string)
    requires log == Start(service, CreateWorkspace(plan.workspaceName)) && log[0].reply == Ok(workspaceId)
    ensures var e := CreateBoards(service, Run(log, []), workspaceId, plan.boardNames, plan.cards, plan.memberEmails,
                                  plan.(workspaceId := workspaceId), 0);
            var n := |e.run.log|;
            e.BoardsAborted? ==>
              && 1 < n
              && e.run.log[n - 1].call.CreateBoard? && e.run.log[n - 1].reply.Fail?
              && NoFatalFailure(e.run.log[..n - 1])
  {
    var head := [CreateWorkspace(plan.workspaceName)];
    var data := plan.(workspaceId := workspaceId);
    var run := Run(log, []);
    var e := CreateBoards(service, run, workspaceId, plan.boardNames, plan.cards, plan.memberEmails, data, 0);
    BoardsStart(service, plan, log, workspaceId);
    var log0, data0, k := CreateBoardsAborted(service, plan, head, run, workspaceId, plan.boardNames, plan.cards, plan.memberEmails, data, 0);
    if e.BoardsAborted? {
      assert e.run.log[..|log0|] == log0;
      assert |CallsOf(log0)| >= 1;
    }
  }

  /**
   Finishing a completed board loop appends exactly the workspace
   invitations, which neither create a board nor fail fatally.
   */
  lemma FinishDoneLog(service: Service, workspaceId: string, members: seq<WorkspaceMember>, e: BoardsEnd)
    requires e.BoardsDone?
    ensures var r := Finish(service, workspaceId, members, e);
            && r.end.Saved?
            && CreatedBoardIds(r.log) == CreatedBoardIds(e.run.log)
            && CallsOf(r.log) == CallsOf(e.run.log) + MemberCalls(workspaceId, members)
            && (NoFatalFailure(e.run.log) ==> NoFatalFailure(r.log))
  {
    var calls := MemberCalls(workspaceId, members);
    var run' := BestEffort(service, e.run, calls);
    assert forall c :: c in calls ==> IsBestEffort(c);
    AppendBestEffort(e.run.log, run'.log, calls);
  }

  /**
   When Create saves, it has made the workspace call, then for each board in
   order its creation, lists and invitations, then the workspace invitations.
   */
  lemma CreateCallOrder(service: Service, plan: ResourceData)
    ensures var r := Create(service, plan);
            var ids := CreatedBoardIds(r.log);
            r.end.Saved? ==>
              var workspaceId := r.end.state.workspaceId;
              && |ids| == |plan.boardNames|
              && CallsOf(r.log) == [CreateWorkspace(plan.workspaceName)]
                                   + BoardsCalls(workspaceId, plan.boardNames, ids, plan.cards, plan.memberEmails)
                                   + MemberCalls(workspaceId, plan.workspaceMembers)
  {
    var log := Start(service, CreateWorkspace(plan.workspaceName));
    if log[0].reply.Ok? {
      var workspaceId := log[0].reply.id;
      var e := CreateBoards(service, Run(log, []), workspaceId, plan.boardNames, plan.cards, plan.memberEmails,
                            plan.(workspaceId := workspaceId), 0);
      assert Create(service, plan) == Finish(service, workspaceId, plan.workspaceMembers, e);
      if e.BoardsDone? {
        CreateBoardsFromStart(service, plan, log, workspaceId);
        FinishDoneLog(service, workspaceId, plan.workspaceMembers, e);
      }
    }
  }

  /**
   When Create saves, slot j holds the id of board j, or the plan's value
   when there is no board j, with an empty value replaced by the sentinel.
   */
  lemma CreateSlots(service: Service, plan: ResourceData)
    ensures var r := Create(service, plan);
            var ids := CreatedBoardIds(r.log);
            r.end.Saved? ==>
              && |ids| == |plan.boardNames|
              && forall j :: 0 <= j < 3 ==> Slots(r.end.state)[j] == FillNull(ExpectedSlot(plan, ids, j))
  {
    var log := Start(service, CreateWorkspace(plan.workspaceName));
    if log[0].reply.Ok? {
      var workspaceId := log[0].reply.id;
      var e := CreateBoards(service, Run(log, []), workspaceId, plan.boardNames, plan.cards, plan.memberEmails,
                            plan.(workspaceId := workspaceId), 0);
      assert Create(service, plan) == Finish(service, workspaceId, plan.workspaceMembers, e);
      if e.BoardsDone? {
        CreateBoardsFromStart(service, plan, log, workspaceId);
        FinishDoneLog(service, workspaceId, plan.workspaceMembers, e);
      }
    }
  }

  /**
   When Create returns without saving, its last call is its one fatal
   failure: every fatal call before it succeeded.
   */
  lemma CreateFatalFailureLast(service: Service, plan: ResourceData)
    ensures var r := Create(service, plan);
            r.end.Returned? ==>
              && r.log[|r.log| - 1].reply.Fail?
              && !IsBestEffort(r.log[|r.log| - 1].call)
              && NoFatalFailure(r.log[..|r.log| - 1])
  {
    var log := Start(service, CreateWorkspace(plan.workspaceName));
    if log[0].reply.Fail? {
      assert Create(service, plan) == Outcome(log, [Error(CreateResourceError)], Returned);
      assert log[..0] == [];
    } else {
      var workspaceId := log[0].reply.id;
      var e := CreateBoards(service, Run(log, []), workspaceId, plan.boardNames, plan.cards, plan.memberEmails,
                            plan.(workspaceId := workspaceId), 0);
      assert Create(service, plan) == Finish(service, workspaceId, plan.workspaceMembers, e);
      CreateBoardsAbortedLastFromStart(service, plan, log, workspaceId);
    }
  }

  /**
   When Create fails past the workspace call, the failure is the creation of
   the first board that failed, made after the full calls for every board
   before it: no later board and no workspace invitation is attempted.
   */
  lemma CreateStopsAtFatalFailure(service: Service, plan: ResourceData)
    ensures var r := Create(service, plan);
            var ids := CreatedBoardIds(r.log);
            r.end.Returned? && |r.log| > 1 ==>
              var workspaceId := r.log[0].reply.id;
              && r.log[0].reply.Ok?
              && |ids| < |plan.boardNames|
              && CallsOf(r.log) == [CreateWorkspace(plan.workspaceName)]
                                   + BoardsCalls(workspaceId, plan.boardNames[..|ids|], ids, plan.cards, plan.memberEmails)
                                   + [CreateBoard(workspaceId, plan.boardNames[|ids|])]
  {
    var log := Start(service, CreateWorkspace(plan.workspaceName));
    if log[0].reply.Fail? {
      assert Create(service, plan) == Outcome(log, [Error(CreateResourceError)], Returned);
    } else {
      var workspaceId := log[0].reply.id;
      var e := CreateBoards(service, Run(log, []), workspaceId, plan.boardNames, plan.cards, plan.memberEmails,
                            plan.(workspaceId := workspaceId), 0);
      assert Create(service, plan) == Finish(service, workspaceId, plan.workspaceMembers, e);
      CreateBoardsAbortedFromStart(service, plan, log, workspaceId);
      ExtendsHead(e.run.log, log);
    }
  }

  /** Create saves exactly when none of its fatal calls failed; it never panics. */
  lemma CreateSavesIffNoFatalFailure(service: Service, plan: ResourceData)
    ensures var r := Create(service, plan);
            && (r.end.Saved? <==> NoFatalFailure(r.log))
            && (r.end.Returned? <==> !NoFatalFailure(r.log))
  {
    var r := Create(service, plan);
    var log := Start(service, CreateWorkspace(plan.workspaceName));
    if log[0].reply.Ok? {
      var workspaceId := log[0].reply.id;
      var e := CreateBoards(service, Run(log, []), workspaceId, plan.boardNames, plan.cards, plan.memberEmails,
                            plan.(workspaceId := workspaceId), 0);
      assert r == Finish(service, workspaceId, plan.workspaceMembers, e);
      if e.BoardsDone? {
        CreateBoardsFromStart(service, plan, log, workspaceId);
        FinishDoneLog(service, workspaceId, plan.workspaceMembers, e);
      }
    }
    CreateFatalFailureLast(service, plan);
    if r.end.Returned? {
      var k := |r.log| - 1;
      assert !IsBestEffort(r.log[k].call) && r.log[k].reply.Fail?;
    }
  }

  /** The failed steps of a log without fatal failure before its last, fatal, failed step. */
  lemma {:induction false} LastFatalFailureCount(log: seq<Step>)
    requires |log| > 0 && NoFatalFailure(log[..|log| - 1])
    requires log[|log| - 1].reply.Fail? && !IsBestEffort(log[|log| - 1].call)
    ensures FailureCount(log, false) == 1
  {
    NoFatalFailureCount(log[..|log| - 1]);
  }

  /**
   Create reports one error per failed best-effort call, plus one more
   exactly when it returns early on a fatal failure.
   */
  lemma CreateDiagnosticCount(service: Service, plan: ResourceData)
    ensures var r := Create(service, plan);
            && (r.end.Saved? ==> |r.diags| == FailureCount(r.log, true))
            && (r.end.Returned? ==> |r.diags| == FailureCount(r.log, true) + 1)
  {
    var r := Create(service, plan);
    CreateRecord(service, plan);
    ReportCountsFailures(r.log);
    if r.end.Saved? {
      CreateSavesIffNoFatalFailure(service, plan);
      NoFatalFailureCount(r.log);
    } else if r.end.Returned? {
      CreateFatalFailureLast(service, plan);
      LastFatalFailureCount(r.log);
    }
  }

  /**
   Starting from a plan whose slots are empty (the ids are unknown before
   creation), every slot Create saves other than the sentinel has a board
   name at its index: the condition Update's name lookup relies on.
   */
  lemma CreateSlotsInRange(service: Service, plan: ResourceData)
    requires plan.boardId1 == "" && plan.boardId2 == "" && plan.boardId3 == ""
    ensures var r := Create(service, plan);
            r.end.Saved? ==> SlotsInRange(r.end.state)
  {
    CreateSlots(service, plan);
    assert FillNull("") == Null;
  }

  /**
   Starting from a plan whose slots are empty, slot j of a state Create
   saved holds the id the service returned for board j when that board was
   created with a non-empty id, and the sentinel otherwise.
   */
  lemma CreateSlotsFromEmptyPlan(service: Service, plan: ResourceData)
    requires plan.boardId1 == "" && plan.boardId2 == "" && plan.boardId3 == ""
    ensures var r := Create(service, plan);
            var ids := CreatedBoardIds(r.log);
            r.end.Saved? ==>
              forall j :: 0 <= j < 3 ==>
                Slots(r.end.state)[j] == if j < |ids| && ids[j] != "" then ids[j] else Null
  {
    CreateSlots(service, plan);
  }

  /**
   The board loop under two services that answer fatal calls alike makes the
   same calls, ends the same way and records the same ids.
   */
  lemma {:induction false} CreateBoardsIgnoresBestEffort(s1: Service, s2: Service, run1: Run, run2: Run,
                                                         workspaceId: string, names: seq<string>, cards: seq<string>,
                                                         emails: seq<string>, data: ResourceData, i: nat)
    requires i <= |names| && SameFatalReplies(s1, s2)
    requires CallsOf(run1.log) == CallsOf(run2.log)
    ensures var e1 := CreateBoards(s1, run1, workspaceId, names, cards, emails, data, i);
            var e2 := CreateBoards(s2, run2, workspaceId, names, cards, emails, data, i);
            && CallsOf(e1.run.log) == CallsOf(e2.run.log)
            && e1.BoardsDone? == e2.BoardsDone?
            && (e1.BoardsDone? ==> e1.data == e2.data)
    decreases |names| - i
  {
    if i < |names| {
      var c := CreateBoard(workspaceId, names[i]);
      var log1 := Issue(s1, run1.log, c);
      var log2 := Issue(s2, run2.log, c);
      var reply := log1[|log1| - 1].reply;
      assert log2[|log2| - 1].reply == reply;
      CallsOfAppend(run1.log, [log1[|log1| - 1]]);
      CallsOfAppend(run2.log, [log2[|log2| - 1]]);
      assert CallsOf(log1) == CallsOf(log2);
      match reply
      case Fail =>
        assert CreateBoards(s1, run1, workspaceId, names, cards, emails, data, i).run.log == log1;
        assert CreateBoards(s2, run2, workspaceId, names, cards, emails, data, i).run.log == log2;
      case Ok(boardId) =>
        var run1' := PopulateBoard(s1, Run(log1, run1.diags), boardId, cards, emails);
        var run2' := PopulateBoard(s2, Run(log2, run2.diags), boardId, cards, emails);
        var data' := AssignSlot(data, i, boardId);
        CreateBoardsIgnoresBestEffort(s1, s2, run1', run2', workspaceId, names, cards, emails, data', i + 1);
        assert CreateBoards(s1, run1, workspaceId, names, cards, emails, data, i)
            == CreateBoards(s1, run1', workspaceId, names, cards, emails, data', i + 1);
        assert CreateBoards(s2, run2, workspaceId, names, cards, emails, data, i)
            == CreateBoards(s2, run2', workspaceId, names, cards, emails, data', i + 1);
    }
  }

  /**
   Best-effort replies do not steer Create: two services that answer the
   workspace and board creations alike lead to the same calls and the same
   ending, including the same saved state.
   */
  lemma CreateIgnoresBestEffortReplies(s1: Service, s2: Service, plan: ResourceData)
    requires SameFatalReplies(s1, s2)
    ensures CallsOf(Create(s1, plan).log) == CallsOf(Create(s2, plan).log)
    ensures Create(s1, plan).end == Create(s2, plan).end
  {
    var c := CreateWorkspace(plan.workspaceName);
    var log1 := Start(s1, c);
    var log2 := Start(s2, c);
    assert log1 == log2;
    if log1[0].reply.Ok? {
      var workspaceId := log1[0].reply.id;
      var data := plan.(workspaceId := workspaceId);
      CreateBoardsIgnoresBestEffort(s1, s2, Run(log1, []), Run(log2, []), workspaceId,
                                    plan.boardNames, plan.cards, plan.memberEmails, data, 0);
      var e1 := CreateBoards(s1, Run(log1, []), workspaceId, plan.boardNames, plan.cards, plan.memberEmails, data, 0);
      var e2 := CreateBoards(s2, Run(log2, []), workspaceId, plan.boardNames, plan.cards, plan.memberEmails, data, 0);
      assert Create(s1, plan) == Finish(s1, workspaceId, plan.workspaceMembers, e1);
      assert Create(s2, plan) == Finish(s2, workspaceId, plan.workspaceMembers, e2);
    }
  }
}
