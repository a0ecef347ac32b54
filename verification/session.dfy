/**
 The record of one lifecycle call: the calls issued so far with the service's
 replies, and the error diagnostics accumulated on the response. The source
 appends diagnostics to the response as it goes; here they are threaded
 through a `Run` and proved to be exactly one error per failed call.
 */
module Session {
  import opened Remote

  datatype Step = Step(call: Call, reply: Reply)

  /** An error diagnostic; the detail text (the Go error string) is not modelled. */
  datatype Diagnostic = Error(summary: string)

  datatype Run = Run(log: seq<Step>, diags: seq<Diagnostic>)

  /** The calls of a log, in the order they were issued. */
  function CallsOf(log: seq<Step>): seq<Call> {
    seq(|log|, k requires 0 <= k < |log| => log[k].call)
  }

  /** Every reply in `log` is what `service` answers to that call after the calls before it. */
  predicate Answered(service: Service, log: seq<Step>)
    decreases |log|
  {
    if log == [] then true
    else
      var init, last := log[..|log| - 1], log[|log| - 1];
      Answered(service, init) && last.reply == service(CallsOf(init), last.call)
  }

  /** Every step of `log` succeeded. */
  predicate AllOk(log: seq<Step>) {
    forall k :: 0 <= k < |log| ==> log[k].reply.Ok?
  }

  /** Every step of `log` whose failure would be fatal succeeded. */
  predicate NoFatalFailure(log: seq<Step>)
    decreases |log|
  {
    if log == [] then true
    else
      var last := log[|log| - 1];
      NoFatalFailure(log[..|log| - 1]) && (IsBestEffort(last.call) || last.reply.Ok?)
  }

  /** The diagnostics a log deserves: one error, with the call's summary, per failed step. */
  function Report(log: seq<Step>): seq<Diagnostic>
    decreases |log|
  {
    if log == [] then []
    else
      var last := log[|log| - 1];
      Report(log[..|log| - 1]) + (if last.reply.Fail? then [Error(Summary(last.call))] else [])
  }

  /** The number of failed steps in `log` whose call is best-effort (`bestEffort`) or fatal (`!bestEffort`). */
  function FailureCount(log: seq<Step>, bestEffort: bool): nat
    decreases |log|
  {
    if log == [] then 0
    else
      var last := log[|log| - 1];
      FailureCount(log[..|log| - 1], bestEffort)
      + (if last.reply.Fail? && IsBestEffort(last.call) == bestEffort then 1 else 0)
  }

  /** Issues `call` after the calls of `log` and records the service's reply. */
  function Issue(service: Service, log: seq<Step>, call: Call): (log': seq<Step>)
    ensures Extends(log', log) && |log'| == |log| + 1 && log'[..|log|] == log
    ensures log'[|log|] == Step(call, service(CallsOf(log), call))
  {
    var log' := log + [Step(call, service(CallsOf(log), call))];
    assert log'[..|log|] == log;
    log'
  }

  /** An issued call is answered by the service, and its failure, if any, is reported with the call's summary. */
  lemma IssueRecord(service: Service, log: seq<Step>, call: Call)
    ensures var log' := Issue(service, log, call);
            && (Answered(service, log) ==> Answered(service, log'))
            && Report(log') == Report(log) + if log'[|log|].reply.Fail? then [Error(Summary(call))] else []
  {
  }

  /** Issues `call` as the first call of a lifecycle method. */
  function Start(service: Service, call: Call): (log: seq<Step>)
    ensures |log| == 1 && log[0] == Step(call, service([], call))
  {
    [Step(call, service([], call))]
  }

  /** The first call is answered by the service, and its failure, if any, is reported. */
  lemma StartRecord(service: Service, call: Call)
    ensures var log := Start(service, call);
            && Answered(service, log)
            && Report(log) == if log[0].reply.Fail? then [Error(Summary(call))] else []
  {
    var log := Start(service, call);
    assert log[..0] == [] && CallsOf([]) == [];
  }

  /**
   Issues `calls` one after another. A failed call adds one error diagnostic
   and the next call is still issued: no reply changes which calls are made.
   */
  function BestEffort(service: Service, run: Run, calls: seq<Call>): (r: Run)
    ensures |r.log| == |run.log| + |calls| && Extends(r.log, run.log)
    ensures CallsOf(r.log) == CallsOf(run.log) + calls
    decreases |calls|
  {
    if calls == [] then run
    else
      var log := Issue(service, run.log, calls[0]);
      var diags := if log[|run.log|].reply.Fail? then run.diags + [Error(Summary(calls[0]))] else run.diags;
      var r := BestEffort(service, Run(log, diags), calls[1..]);
      ExtendsTrans(r.log, log, run.log);
      CallsOfAppend(run.log, [log[|run.log|]]);
      r
  }

  /** Best-effort calls keep the log answered by the service and the diagnostics equal to its report. */
  lemma {:induction false} BestEffortRecord(service: Service, run: Run, calls: seq<Call>)
    requires Answered(service, run.log) && run.diags == Report(run.log)
    ensures var r := BestEffort(service, run, calls);
            Answered(service, r.log) && r.diags == Report(r.log)
    decreases |calls|
  {
    if calls != [] {
      var log := Issue(service, run.log, calls[0]);
      var diags := if log[|run.log|].reply.Fail? then run.diags + [Error(Summary(calls[0]))] else run.diags;
      IssueRecord(service, run.log, calls[0]);
      BestEffortRecord(service, Run(log, diags), calls[1..]);
    }
  }

  /** `log'` starts with `log`. */
  predicate Extends(log': seq<Step>, log: seq<Step>) {
    |log| <= |log'| && log'[..|log|] == log
  }

  lemma ExtendsTrans(c: seq<Step>, b: seq<Step>, a: seq<Step>)
    requires Extends(c, b) && Extends(b, a)
    ensures Extends(c, a)
  {
    assert c[..|a|] == c[..|b|][..|a|];
  }

  lemma ExtendsHead(c: seq<Step>, a: seq<Step>)
    requires Extends(c, a) && |a| > 0
    ensures |c| > 0 && c[0] == a[0]
  {
    assert c[0] == c[..|a|][0];
  }

  lemma CallsOfAppend(a: seq<Step>, b: seq<Step>)
    ensures CallsOf(a + b) == CallsOf(a) + CallsOf(b)
  {
  }

  lemma CallsOfPrefix(log: seq<Step>, n: nat)
    requires n <= |log|
    ensures CallsOf(log[..n]) == CallsOf(log)[..n]
  {
  }

  /** A log with a first step succeeds throughout iff its first step and the rest do. */
  lemma AllOkCons(s: Step, rest: seq<Step>)
    ensures AllOk([s] + rest) <==> s.reply.Ok? && AllOk(rest)
  {
    var log := [s] + rest;
    assert log[0] == s;
    assert forall k :: 0 <= k < |rest| ==> rest[k] == log[k + 1];
    assert forall k :: 1 <= k < |log| ==> log[k] == rest[k - 1];
  }

  /** The last step and the steps before it of a log with a first step. */
  lemma ConsInit(s: Step, rest: seq<Step>)
    requires |rest| > 0
    ensures ([s] + rest)[|rest|] == rest[|rest| - 1]
    ensures AllOk(([s] + rest)[..|rest|]) <==> s.reply.Ok? && AllOk(rest[..|rest| - 1])
  {
    assert ([s] + rest)[..|rest|] == [s] + rest[..|rest| - 1];
    AllOkCons(s, rest[..|rest| - 1]);
  }

  /** The log reports one error per failed step: the best-effort ones plus the fatal ones. */
  lemma {:induction false} ReportCountsFailures(log: seq<Step>)
    ensures |Report(log)| == FailureCount(log, true) + FailureCount(log, false)
    decreases |log|
  {
    if log != [] {
      ReportCountsFailures(log[..|log| - 1]);
    }
  }

  /** A log without fatal failures has no fatal failures to count. */
  lemma {:induction false} NoFatalFailureCount(log: seq<Step>)
    requires NoFatalFailure(log)
    ensures FailureCount(log, false) == 0
    decreases |log|
  {
    if log != [] {
      var init := log[..|log| - 1];
      NoFatalFailureCount(init);
    }
  }
}
