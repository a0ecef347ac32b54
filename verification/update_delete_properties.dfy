/**
 What Update and Delete promise: which calls they make against a reference
 list, where the first failure stops them, when Update panics, and that a
 state saved by Create never makes Update panic.
 */
module UpdateDeleteProperties {
  import opened Remote
  import opened Session
  import opened Resource
  import opened Lifecycle
  import opened CreateProperties

  /** The steps `log'` added after `log`. */
  function Since(log': seq<Step>, log: seq<Step>): (added: seq<Step>)
    requires Extends(log', log)
    ensures log' == log + added
  {
    log'[|log|..]
  }

  /** Every slot from `i` on that is not the sentinel has a board name at its index. */
  predicate InRangeFrom(slots: seq<string>, names: seq<string>, i: nat) {
    forall j :: i <= j < |slots| && slots[j] != Null ==> j < |names|
  }

  /**
   The renames Update makes from slot `i` on when none fails: one per slot
   that is not the sentinel, in slot order, up to the first such slot with
   no board name at its index.
   */
  function RenamesFrom(slots: seq<string>, names: seq<string>, i: nat): seq<Call>
    requires i <= |slots|
    decreases |slots| - i
  {
    if i == |slots| then []
    else if slots[i] == Null then RenamesFrom(slots, names, i + 1)
    else if i >= |names| then []
    else [RenameBoard(slots[i], names[i])] + RenamesFrom(slots, names, i + 1)
  }

  /** The board deletions a fully successful Delete makes from slot `i` on: one per slot that is not the sentinel. */
  function DeletesFrom(slots: seq<string>, i: nat): seq<Call>
    requires i <= |slots|
    decreases |slots| - i
  {
    if i == |slots| then []
    else if slots[i] == Null then DeletesFrom(slots, i + 1)
    else [DeleteBoard(slots[i])] + DeletesFrom(slots, i + 1)
  }

  /** A log that extends `log0` by one step and then by `rest`. */
  lemma SinceCons(r: seq<Step>, log0: seq<Step>, log: seq<Step>, s: Step)
    requires log == log0 + [s] && Extends(r, log) && Extends(r, log0)
    ensures Since(r, log0) == [s] + Since(r, log)
    ensures CallsOf(Since(r, log0)) == [s.call] + CallsOf(Since(r, log))
    ensures AllOk(Since(r, log0)) <==> s.reply.Ok? && AllOk(Since(r, log))
  {
    var rest := Since(r, log);
    assert r == log0 + ([s] + rest);
    CallsOfAppend([s], rest);
    AllOkCons(s, rest);
  }

  /** The one-step tail after a log. */
  lemma SinceOne(log0: seq<Step>, s: Step)
    ensures Extends(log0 + [s], log0)
    ensures Since(log0 + [s], log0) == [s]
  {
    assert (log0 + [s])[..|log0|] == log0;
  }

  /** The whole log is what was added after the empty one. */
  lemma SinceEmpty(log: seq<Step>)
    ensures Extends(log, []) && Since(log, []) == log
  {
  }

  /**
   The rename loop from slot `i` makes a prefix of the reference renames,
   and all of them when it saves or panics.
   */
  lemma {:induction false} RenameFromCalls(service: Service, run: Run, slots: seq<string>, names: seq<string>,
                                           state: ResourceData, i: nat)
    requires i <= |slots|
    ensures var r := RenameFrom(service, run, slots, names, state, i);
            var added := Since(r.log, run.log);
            && CallsOf(added) <= RenamesFrom(slots, names, i)
            && (!r.end.Returned? ==> CallsOf(added) == RenamesFrom(slots, names, i))
    decreases |slots| - i
  {
    var r := RenameFrom(service, run, slots, names, state, i);
    if i == |slots| {
      assert Since(r.log, run.log) == [];
    } else if slots[i] == Null {
      RenameFromCalls(service, run, slots, names, state, i + 1);
    } else if i >= |names| {
      assert Since(r.log, run.log) == [];
    } else {
      var log := Issue(service, run.log, RenameBoard(slots[i], names[i]));
      var s := log[|log| - 1];
      assert log == run.log + [s];
      if s.reply.Fail? {
        SinceOne(run.log, s);
        assert Since(r.log, run.log) == [s];
      } else {
        assert r == RenameFrom(service, Run(log, run.diags), slots, names, state, i + 1);
        RenameFromCalls(service, Run(log, run.diags), slots, names, state, i + 1);
        SinceCons(r.log, run.log, log, s);
      }
    }
  }

  /**
   The rename loop from slot `i` saves the state unchanged exactly when every
   remaining slot is in range and every rename succeeds; it panics only on a
   slot out of range after successful renames; in both cases it adds no
   diagnostic.
   */
  lemma {:induction false} RenameFromEnd(service: Service, run: Run, slots: seq<string>, names: seq<string>,
                                         state: ResourceData, i: nat)
    requires i <= |slots|
    ensures var r := RenameFrom(service, run, slots, names, state, i);
            var added := Since(r.log, run.log);
            && (r.end.Saved? <==> InRangeFrom(slots, names, i) && AllOk(added))
            && (r.end.Saved? ==> r.end.state == state && r.diags == run.diags)
            && (r.end.Panicked? ==> !InRangeFrom(slots, names, i) && AllOk(added) && r.diags == run.diags)
    decreases |slots| - i
  {
    var r := RenameFrom(service, run, slots, names, state, i);
    if i == |slots| {
      assert Since(r.log, run.log) == [];
    } else if slots[i] == Null {
      RenameFromEnd(service, run, slots, names, state, i + 1);
    } else if i >= |names| {
      assert Since(r.log, run.log) == [];
    } else {
      var log := Issue(service, run.log, RenameBoard(slots[i], names[i]));
      var s := log[|log| - 1];
      assert log == run.log + [s];
      if s.reply.Fail? {
        SinceOne(run.log, s);
        assert Since(r.log, run.log) == [s];
      } else {
        assert r == RenameFrom(service, Run(log, run.diags), slots, names, state, i + 1);
        RenameFromEnd(service, Run(log, run.diags), slots, names, state, i + 1);
        SinceCons(r.log, run.log, log, s);
      }
    }
  }

  /** A rename loop that returns early does so on its last rename, the only one that failed, with one error. */
  lemma {:induction false} RenameFromFailure(service: Service, run: Run, slots: seq<string>, names: seq<string>,
                                             state: ResourceData, i: nat)
    requires i <= |slots|
    ensures var r := RenameFrom(service, run, slots, names, state, i);
            var added := Since(r.log, run.log);
            r.end.Returned? ==>
              && |added| > 0 && added[|added| - 1].reply.Fail? && AllOk(added[..|added| - 1])
              && r.diags == run.diags + [Error(UpdateBoardError)]
    decreases |slots| - i
  {
    var r := RenameFrom(service, run, slots, names, state, i);
    if i == |slots| {
    } else if slots[i] == Null {
      RenameFromFailure(service, run, slots, names, state, i + 1);
    } else if i >= |names| {
    } else {
      var log := Issue(service, run.log, RenameBoard(slots[i], names[i]));
      var s := log[|log| - 1];
      assert log == run.log + [s];
      if s.reply.Fail? {
        assert r == Outcome(log, run.diags + [Error(UpdateBoardError)], Returned);
        SinceOne(run.log, s);
        assert Since(r.log, run.log) == [s];
        assert [s][..0] == [];
      } else {
        assert r == RenameFrom(service, Run(log, run.diags), slots, names, state, i + 1);
        RenameFromFailure(service, Run(log, run.diags), slots, names, state, i + 1);
        SinceCons(r.log, run.log, log, s);
        var rest := Since(r.log, log);
        if |rest| > 0 {
          ConsInit(s, rest);
        }
      }
    }
  }

  /**
   Update (main_resource.go:299-336): its calls are a prefix of the
   renames, one per slot that is not the sentinel in slot order, up to the
   first such slot with no board name; it makes all of them when it saves
   or panics; it saves the prior state unchanged exactly when all slots are
   in range and every rename succeeds; a slot out of range makes it panic;
   otherwise the first failed rename ends it with one error.
   */
  lemma UpdateBehaviour(service: Service, state: ResourceData)
    ensures var r := Update(service, state);
            && CallsOf(r.log) <= RenamesFrom(Slots(state), state.boardNames, 0)
            && (!r.end.Returned? ==> CallsOf(r.log) == RenamesFrom(Slots(state), state.boardNames, 0))
            && (r.end.Saved? <==> SlotsInRange(state) && AllOk(r.log))
            && (r.end.Saved? ==> r.end.state == state && r.diags == [])
            && (r.end.Panicked? <==> !SlotsInRange(state) && AllOk(r.log))
            && (r.end.Returned? ==>
                  && |r.log| > 0 && r.log[|r.log| - 1].reply.Fail? && AllOk(r.log[..|r.log| - 1])
                  && r.diags == [Error(UpdateBoardError)])
  {
    var r := Update(service, state);
    RenameFromCalls(service, Run([], []), Slots(state), state.boardNames, state, 0);
    RenameFromEnd(service, Run([], []), Slots(state), state.boardNames, state, 0);
    RenameFromFailure(service, Run([], []), Slots(state), state.boardNames, state, 0);
    SinceEmpty(r.log);
    assert InRangeFrom(Slots(state), state.boardNames, 0) <==> SlotsInRange(state);
  }

  /**
   The board loop of Delete from slot `i` makes a prefix of the reference
   deletions, and all of them when every deletion succeeds.
   */
  lemma {:induction false} DeleteFromCalls(service: Service, run: Run, slots: seq<string>, i: nat)
    requires i <= |slots|
    ensures var r := DeleteFrom(service, run, slots, i);
            var added := Since(r.log, run.log);
            && CallsOf(added) <= DeletesFrom(slots, i)
            && (AllOk(added) ==> CallsOf(added) == DeletesFrom(slots, i))
    decreases |slots| - i
  {
    var r := DeleteFrom(service, run, slots, i);
    if i == |slots| {
      assert Since(r.log, run.log) == [];
    } else if slots[i] == Null {
      DeleteFromCalls(service, run, slots, i + 1);
    } else {
      var log := Issue(service, run.log, DeleteBoard(slots[i]));
      var s := log[|log| - 1];
      assert log == run.log + [s];
      if s.reply.Fail? {
        SinceOne(run.log, s);
        assert Since(r.log, run.log) == [s];
      } else {
        assert r == DeleteFrom(service, Run(log, run.diags), slots, i + 1);
        DeleteFromCalls(service, Run(log, run.diags), slots, i + 1);
        SinceCons(r.log, run.log, log, s);
      }
    }
  }

  /**
   The board loop of Delete from slot `i` adds no diagnostic when every
   deletion succeeds; otherwise its last deletion is the only one that
   failed, and it reported that one failure.
   */
  lemma {:induction false} DeleteFromFailure(service: Service, run: Run, slots: seq<string>, i: nat)
    requires i <= |slots|
    ensures var r := DeleteFrom(service, run, slots, i);
            var added := Since(r.log, run.log);
            && (AllOk(added) ==> r.diags == run.diags)
            && (!AllOk(added) ==>
                  && |added| > 0 && added[|added| - 1].reply.Fail? && AllOk(added[..|added| - 1])
                  && r.diags == run.diags + [Error(DeleteBoardError)])
    decreases |slots| - i
  {
    var r := DeleteFrom(service, run, slots, i);
    if i == |slots| {
      assert Since(r.log, run.log) == [];
    } else if slots[i] == Null {
      DeleteFromFailure(service, run, slots, i + 1);
    } else {
      var log := Issue(service, run.log, DeleteBoard(slots[i]));
      var s := log[|log| - 1];
      assert log == run.log + [s];
      if s.reply.Fail? {
        SinceOne(run.log, s);
        assert Since(r.log, run.log) == [s];
        assert [s][..0] == [];
      } else {
        assert r == DeleteFrom(service, Run(log, run.diags), slots, i + 1);
        DeleteFromFailure(service, Run(log, run.diags), slots, i + 1);
        SinceCons(r.log, run.log, log, s);
        var rest := Since(r.log, log);
        if |rest| > 0 {
          ConsInit(s, rest);
        }
      }
    }
  }

  /** A log that starts with a successful call keeps the prefix, completeness and first-failure facts of its rest. */
  lemma OkHead(s: Step, rest: seq<Step>, tail: seq<Call>)
    requires s.reply.Ok?
    requires CallsOf(rest) <= tail && (AllOk(rest) ==> CallsOf(rest) == tail)
    requires !AllOk(rest) ==> |rest| > 0 && rest[|rest| - 1].reply.Fail? && AllOk(rest[..|rest| - 1])
    ensures var log := [s] + rest;
            && CallsOf(log) <= [s.call] + tail
            && (AllOk(log) <==> AllOk(rest))
            && (AllOk(log) ==> CallsOf(log) == [s.call] + tail)
            && (!AllOk(log) ==> log[|log| - 1].reply.Fail? && AllOk(log[..|log| - 1]))
  {
    CallsOfAppend([s], rest);
    AllOkCons(s, rest);
    if |rest| > 0 {
      ConsInit(s, rest);
    }
  }

  /**
   Delete (main_resource.go:338-389): it deletes the workspace first and,
   when that fails, nothing else; its calls are a prefix of the workspace
   deletion followed by one board deletion per slot that is not the
   sentinel; it reports no error exactly when every call succeeded, and
   then it has made all of them; otherwise the first failure ended it with
   one error.
   */
  lemma DeleteBehaviour(service: Service, state: ResourceData)
    ensures var r := Delete(service, state);
            var all := [DeleteWorkspace(state.workspaceId)] + DeletesFrom(Slots(state), 0);
            && (r.log[0].reply.Fail? ==> |r.log| == 1 && r.diags == [Error(DeleteWorkspaceError)])
            && CallsOf(r.log) <= all
            && (r.diags == [] <==> AllOk(r.log))
            && (AllOk(r.log) ==> CallsOf(r.log) == all)
            && (!AllOk(r.log) ==>
                  && r.log[|r.log| - 1].reply.Fail? && AllOk(r.log[..|r.log| - 1])
                  && |r.diags| == 1)
  {
    var r := Delete(service, state);
    var log := Start(service, DeleteWorkspace(state.workspaceId));
    var s := log[0];
    assert log == [] + [s];
    if s.reply.Fail? {
      assert r.log == [s];
      assert !AllOk(r.log) && r.log[..0] == [];
    } else {
      assert r == DeleteFrom(service, Run(log, []), Slots(state), 0);
      DeleteFromCalls(service, Run(log, []), Slots(state), 0);
      DeleteFromFailure(service, Run(log, []), Slots(state), 0);
      var rest := Since(r.log, log);
      assert r.log == [s] + rest;
      OkHead(s, rest, DeletesFrom(Slots(state), 0));
    }
  }

  /**
   A state Create saved from a plan with empty slots never makes Update
   panic, whatever either call's service answers.
   */
  lemma UpdateAfterCreateNeverPanics(s1: Service, s2: Service, plan: ResourceData)
    requires plan.boardId1 == "" && plan.boardId2 == "" && plan.boardId3 == ""
    ensures var c := Create(s1, plan);
            c.end.Saved? ==> !Update(s2, c.end.state).end.Panicked?
  {
    var c := Create(s1, plan);
    CreateSlotsInRange(s1, plan);
    if c.end.Saved? {
      UpdateBehaviour(s2, c.end.state);
    }
  }
}
