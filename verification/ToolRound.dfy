/**
 One round of tool calls, pkg/aiusechat/usechat.go: every call gets its tool-use data, calls
 are processed in order until the connection fails, and then each is either answered or
 removed from the chat.

 What the tools, the user and the connection do is given per call by an `Env`.
 */
module ToolRound {
  import opened Basics
  import opened ToolApproval

  datatype Status = Pending | Error | Completed

  /** The part of the tool-use data the round reads and writes. */
  datatype Data = Data(status: Status, approval: Approval, errorMessage: string)

  datatype ToolResult = ToolResult(id: string, text: string, errorText: string)

  /** The tool's verifier: an error, or none, and the data as it left it. */
  datatype Verification = Verification(error: Option<string>, after: Data)

  /** The tool's callback: its text or error text, and the data as it left it; or why there
      is no callback to call. */
  datatype Callback =
    | Called(text: string, errorText: string, after: Data)
    | Unavailable(reason: string)

  /** `created` is what `CreateToolUseData` gives, `stopped` says whether the connection has an
      error when the call's turn comes, `wait` is what the wait for approval returns. */
  datatype Env = Env(
    created: Data, stopped: bool, verification: Option<Verification>, wait: Outcome,
    callback: Callback)

  class ToolUseData {
    var status: Status
    var approval: Approval
    var errorMessage: string

    constructor (d: Data)
      ensures Fields() == d
    {
      status, approval, errorMessage := d.status, d.approval, d.errorMessage;
    }

    function Fields(): Data
      reads this
    {
      Data(status, approval, errorMessage)
    }

    method Overwrite(d: Data)
      modifies this
      ensures Fields() == d
    {
      status, approval, errorMessage := d.status, d.approval, d.errorMessage;
    }
  }

  // ---------------------------------------------------------------- one call

  function ErrorResult(id: string, message: string): ToolResult {
    ToolResult(id, "", message)
  }

  function Failed(d: Data, message: string): Data {
    d.(status := Error, errorMessage := message)
  }

  /** A wait that failed, found no request or gave an empty decision counts as canceled. */
  function DecisionOf(wait: Outcome): Approval {
    if wait.Decided? && !wait.approval.NoApproval? then wait.approval else Canceled
  }

  function DeniedMessage(a: Approval): string {
    match a
    case UserDenied => "Tool use denied by user"
    case Timeout => "Tool approval timed out"
    case Canceled => "Tool approval canceled"
    case _ => "Tool use denied or timed out"
  }

  /** `reached` says whether the call got as far as its callback. */
  datatype Processed = Processed(data: Data, result: ToolResult, reached: bool)

  /** The tool itself; without a callback the result is an error. */
  function Resolve(id: string, d: Data, callback: Callback): Processed {
    var (text, errorText, after) :=
      match callback
      case Unavailable(reason) => ("", reason, d)
      case Called(t, e, a) => (if e == "" then t else "", e, a);
    Processed(if errorText != "" then Failed(after, errorText) else after.(status := Completed),
              ToolResult(id, text, errorText), callback.Called?)
  }

  function Gate(id: string, d: Data, env: Env): Processed {
    if d.approval != NeedsApproval then Resolve(id, d, env.callback)
    else
      var decision := DecisionOf(env.wait);
      var e := d.(approval := decision);
      if CountsAsApproved(decision) then Resolve(id, e, env.callback)
      else Processed(Failed(e, DeniedMessage(decision)), ErrorResult(id, DeniedMessage(decision)), false)
  }

  /** The data the approval gate looks at, if the call gets there. */
  function AtGate(env: Env): Option<Data> {
    if env.created.status == Error then None
    else match env.verification
      case None => Some(env.created)
      case Some(v) => if v.error.Some? then None else Some(v.after)
  }

  function Process(id: string, env: Env): Processed {
    var d := env.created;
    if d.status == Error then
      Processed(d, ErrorResult(id, if d.errorMessage == "" then "Unspecified Tool Error" else d.errorMessage), false)
    else match env.verification
      case Some(Verification(Some(error), after)) =>
        var message := "Input validation failed: " + error;
        Processed(Failed(after, message), ErrorResult(id, message), false)
      case Some(Verification(None, after)) => Gate(id, after, env)
      case None => Gate(id, d, env)
  }

  method ResolveToolCall(id: string, d: ToolUseData, callback: Callback) returns (result: ToolResult)
    modifies d
    ensures result == Resolve(id, old(d.Fields()), callback).result
    ensures d.Fields() == if callback.Called? then callback.after else old(d.Fields())
  {
    match callback {
      case Unavailable(reason) =>
        result := ErrorResult(id, reason);
      case Called(text, errorText, after) =>
        d.Overwrite(after);
        result := ToolResult(id, if errorText == "" then text else "", errorText);
    }
  }

  /** Writes the outcome into the shared tool-use data; a wait that got a decision takes the
      request out of the registry. */
  method ProcessToolCall(id: string, d: ToolUseData, env: Env, registry: ApprovalRegistry)
    returns (result: ToolResult, ghost reached: bool)
    requires d.Fields() == env.created
    modifies d, registry
    ensures registry.requests == old(registry.requests) || registry.requests == old(registry.requests) - {id}
    ensures Processed(d.Fields(), result, reached) == Process(id, env)
  {
    reached := false;
    if d.status == Error {
      var errorMsg := d.errorMessage;
      if errorMsg == "" {
        errorMsg := "Unspecified Tool Error";
      }
      result := ErrorResult(id, errorMsg);
      return;
    }
    if env.verification.Some? {
      var v := env.verification.value;
      d.Overwrite(v.after);
      if v.error.Some? {
        var errorMsg := "Input validation failed: " + v.error.value;
        d.status := Error;
        d.errorMessage := errorMsg;
        result := ErrorResult(id, errorMsg);
        return;
      }
    }
    if d.approval == NeedsApproval {
      var approval := if env.wait.Decided? then env.wait.approval else NoApproval;
      if env.wait.Decided? {
        registry.Delete(id);
      }
      if !env.wait.Decided? || approval == NoApproval {
        approval := Canceled;
      }
      d.approval := approval;
      if !CountsAsApproved(d.approval) {
        var errorMsg := "Tool use denied or timed out";
        if approval == UserDenied {
          errorMsg := "Tool use denied by user";
        } else if approval == Timeout {
          errorMsg := "Tool approval timed out";
        } else if approval == Canceled {
          errorMsg := "Tool approval canceled";
        }
        d.status := Error;
        d.errorMessage := errorMsg;
        result := ErrorResult(id, errorMsg);
        return;
      }
    }
    reached := env.callback.Called?;
    result := ResolveToolCall(id, d, env.callback);
    if result.errorText != "" {
      d.status := Error;
      d.errorMessage := result.errorText;
    } else {
      d.status := Completed;
    }
  }

  // ---------------------------------------------------------------- the round

  /** How many calls are processed: up to the first one that finds the connection broken. */
  function ProcessedCount(envs: seq<Env>): (n: nat)
    ensures n <= |envs|
  {
    if envs == [] || envs[0].stopped then 0 else 1 + ProcessedCount(envs[1..])
  }

  /** What processing every call would give; only the first `ProcessedCount` are processed. */
  function Outcomes(ids: seq<string>, envs: seq<Env>): seq<Processed>
    requires |ids| == |envs|
  {
    seq(|ids|, i requires 0 <= i < |ids| => Process(ids[i], envs[i]))
  }

  /** A call stays in the chat, and is answered, if it was processed and not canceled. */
  predicate Kept(ps: seq<Processed>, count: nat, i: nat)
    requires i < |ps|
  {
    i < count && ps[i].data.approval != Canceled
  }

  function Answers(ps: seq<Processed>, count: nat, n: nat): seq<ToolResult>
    requires n <= |ps|
  {
    if n == 0 then []
    else if Kept(ps, count, n - 1) then Answers(ps, count, n - 1) + [ps[n - 1].result]
    else Answers(ps, count, n - 1)
  }

  function Removals(ids: seq<string>, ps: seq<Processed>, count: nat, n: nat): seq<string>
    requires n <= |ps| == |ids|
  {
    if n == 0 then []
    else if Kept(ps, count, n - 1) then Removals(ids, ps, count, n - 1)
    else Removals(ids, ps, count, n - 1) + [ids[n - 1]]
  }

  function Answered(ids: seq<string>, envs: seq<Env>): seq<ToolResult>
    requires |ids| == |envs|
  {
    Answers(Outcomes(ids, envs), ProcessedCount(envs), |ids|)
  }

  function Removed(ids: seq<string>, envs: seq<Env>): seq<string>
    requires |ids| == |envs|
  {
    Removals(ids, Outcomes(ids, envs), ProcessedCount(envs), |ids|)
  }

  /** The registry holds no request but those in `owned` and new ones, and outside the ids
      of the round it is as it was. */
  twostate predicate OthersKept(registry: ApprovalRegistry, ids: seq<string>)
    reads registry
  {
    && (forall id <- registry.requests ::
          registry.requests[id] in old(registry.requests.Values) || fresh(registry.requests[id]))
    && (forall id | id !in ids :: id in registry.requests <==> id in old(registry.requests))
  }

  /** The ids of those of the first `n` calls that need approval. */
  function Asking(ids: seq<string>, envs: seq<Env>, n: nat): set<string>
    requires n <= |ids| == |envs|
  {
    set j | 0 <= j < n && envs[j].created.approval == NeedsApproval :: ids[j]
  }

  /** There is a fresh undecided request under every asking id, a different one for each, and
      under the other ids nothing has changed. */
  twostate predicate OneRequestEach(registry: ApprovalRegistry, asking: set<string>)
    reads registry, registry.requests.Values
  {
    && asking <= registry.requests.Keys
    && (forall id <- asking :: fresh(registry.requests[id]) && registry.requests[id].State() == FRESH)
    && (forall id <- asking, other <- registry.requests :: other != id ==>
          registry.requests[other] != registry.requests[id])
    && registry.requests - asking == old(registry.requests) - asking
  }

  lemma AskingAreIds(ids: seq<string>, envs: seq<Env>, n: nat)
    requires n <= |ids| == |envs|
    ensures forall id <- Asking(ids, envs, n) :: id in ids
  {}

  lemma RestLess<V>(before: map<string, V>, after: map<string, V>, asking: set<string>, id: string, v: V)
    requires after - asking == before - asking
    ensures after[id := v] - (asking + {id}) == before - (asking + {id})
  {
    RestSame(before, after, asking);
  }

  lemma RestSame<V>(before: map<string, V>, after: map<string, V>, asking: set<string>)
    requires after - asking == before - asking
    ensures forall id | id !in asking :: id in after <==> id in before
    ensures forall id | id !in asking && id in after :: after[id] == before[id]
  {
    forall id | id !in asking
      ensures id in after <==> id in before
      ensures id in after ==> after[id] == before[id]
    {
      assert id in after <==> id in after - asking;
      assert id in before <==> id in before - asking;
    }
  }

  method CreateToolUses(ids: seq<string>, envs: seq<Env>, registry: ApprovalRegistry)
    returns (uses: seq<ToolUseData>)
    requires |ids| == |envs|
    modifies registry
    ensures OthersKept(registry, ids) && OneRequestEach(registry, Asking(ids, envs, |ids|))
    ensures |uses| == |ids| && forall j | 0 <= j < |ids| :: fresh(uses[j]) && uses[j].Fields() == envs[j].created
    ensures forall j, k | 0 <= j < k < |ids| :: uses[j] != uses[k]
  {
    uses := [];
    for i := 0 to |ids|
      invariant OneRequestEach(registry, Asking(ids, envs, i))
      invariant |uses| == i && forall j | 0 <= j < i :: fresh(uses[j]) && uses[j].Fields() == envs[j].created
      invariant forall j, k | 0 <= j < k < i :: uses[j] != uses[k]
    {
      var use := new ToolUseData(envs[i].created);
      uses := uses + [use];
      ghost var asking := Asking(ids, envs, i);
      if use.approval == NeedsApproval {
        ghost var was := registry.requests;
        var req := registry.Register(ids[i]);
        RestLess(old(registry.requests), was, asking, ids[i], req);
        assert Asking(ids, envs, i + 1) == asking + {ids[i]};
      } else {
        assert Asking(ids, envs, i + 1) == asking;
      }
    }
    AskingAreIds(ids, envs, |ids|);
    RestSame(old(registry.requests), registry.requests, Asking(ids, envs, |ids|));
  }

  /** Position by position, what the processed calls left behind. */
  ghost predicate Finished(ps: seq<Processed>, uses: seq<ToolUseData>, results: seq<ToolResult>)
    reads set use <- uses
  {
    && |results| <= |ps| == |uses|
    && forall j | 0 <= j < |results| :: uses[j].Fields() == ps[j].data && results[j] == ps[j].result
  }

  method ProcessInOrder(ids: seq<string>, envs: seq<Env>, uses: seq<ToolUseData>, registry: ApprovalRegistry)
    returns (results: seq<ToolResult>)
    requires |ids| == |envs| == |uses|
    requires forall j | 0 <= j < |ids| :: uses[j].Fields() == envs[j].created
    requires forall j, k | 0 <= j < k < |ids| :: uses[j] != uses[k]
    modifies registry, set use <- uses
    ensures OthersKept(registry, ids)
    ensures |results| == ProcessedCount(envs) && Finished(Outcomes(ids, envs), uses, results)
  {
    results := [];
    var n := 0;
    while n < |ids|
      invariant OthersKept(registry, ids)
      invariant n <= |ids| && |results| == n
      invariant forall j | 0 <= j < n :: !envs[j].stopped
      invariant Finished(Outcomes(ids, envs), uses, results)
      invariant forall j | n <= j < |ids| :: uses[j].Fields() == envs[j].created
    {
      if envs[n].stopped {
        break;
      }
      ghost var before := results;
      var result, _ := ProcessToolCall(ids[n], uses[n], envs[n], registry);
      results := results + [result];
      assert Outcomes(ids, envs)[n] == Process(ids[n], envs[n]);
      assert forall j | 0 <= j < n :: results[j] == before[j];
      n := n + 1;
    }
    CountIs(envs, n);
  }

  lemma {:induction false} CountIs(envs: seq<Env>, n: nat)
    requires n <= |envs| && (forall j | 0 <= j < n :: !envs[j].stopped) && (n < |envs| ==> envs[n].stopped)
    ensures ProcessedCount(envs) == n
  {
    if n > 0 { CountIs(envs[1..], n - 1); }
  }

  method CleanUp(ids: seq<string>, uses: seq<ToolUseData>, results: seq<ToolResult>,
                 registry: ApprovalRegistry, ghost ps: seq<Processed>)
    returns (answers: seq<ToolResult>, removed: seq<string>)
    requires |ids| == |ps| && Finished(ps, uses, results)
    modifies registry, registry.requests.Values
    ensures OthersKept(registry, ids) && forall id <- ids :: id !in registry.requests
    ensures answers == Answers(ps, |results|, |ids|) && removed == Removals(ids, ps, |results|, |ids|)
  {
    answers, removed := [], [];
    for i := 0 to |ids|
      invariant OthersKept(registry, ids)
      invariant forall j | 0 <= j < i :: ids[j] !in registry.requests
      invariant Finished(ps, uses, results)
      invariant answers == Answers(ps, |results|, i) && removed == Removals(ids, ps, |results|, i)
    {
      registry.Unregister(ids[i]);
      var hasResult := i < |results|;
      var shouldRemove := !hasResult || uses[i].approval == Canceled;
      if shouldRemove {
        removed := removed + [ids[i]];
      } else if hasResult {
        answers := answers + [results[i]];
      }
    }
  }

  /** The round writes through the tool-use data objects it creates, and leaves the registry
      without the ids of the round. */
  method ProcessAllToolCalls(ids: seq<string>, envs: seq<Env>, registry: ApprovalRegistry)
    returns (answers: seq<ToolResult>, removed: seq<string>)
    requires |ids| == |envs|
    modifies registry, registry.requests.Values
    ensures answers == Answered(ids, envs) && removed == Removed(ids, envs)
    ensures registry.requests.Keys == old(registry.requests.Keys) - (set id <- ids)
  {
    var uses := CreateToolUses(ids, envs, registry);
    var results := ProcessInOrder(ids, envs, uses, registry);
    answers, removed := CleanUp(ids, uses, results, registry, Outcomes(ids, envs));
  }

  // ---------------------------------------------------------------- main results

  /** The call comes to the approval gate, and needs approval there. */
  predicate Gated(env: Env) {
    AtGate(env).Some? && AtGate(env).value.approval == NeedsApproval
  }

  const APPROVALS := {UserApproved, AutoApproved}

  /** Step `n` of the registry's run is the start of a wait for this id, and in the run this very
      wait returns this outcome. */
  predicate WaitsIn(steps: seq<Step>, n: nat, id: string, outcome: Outcome) {
    n < |steps| && steps[n] == StartWait(id) &&
    var k := |Run(steps[..n]).waits|;
    k < |Run(steps).waits| && Run(steps).waits[k].stage == Returned(outcome)
  }

  /** In every interleaving of the registry, a gated call reaches its callback exactly when it has
      one, its id was in the table when its wait began, its wait was not cut short, and the one
      decision of the request found there, which was registered under its id, is an approval. */
  lemma ApprovalGatesTheCallback(steps: seq<Step>, n: nat, id: string, env: Env)
    requires Gated(env) && WaitsIn(steps, n, id, env.wait)
    ensures var table, t := Run(steps[..n]).table, Run(steps);
      && (id in table ==> Owned(t, table[id], id))
      && (Process(id, env).reached <==>
            env.callback.Called? && id in table && env.wait.Decided? &&
            t.requests[table[id]].done && t.requests[table[id]].approval in APPROVALS)
  {
    var k := |Run(steps[..n]).waits|;
    WaitIsOnItsRequest(steps, n);
    WaitersGetTheDecision(steps, k);
    DecisionGates(id, env);
    assert Run(steps).waits[k].stage.outcome == env.wait;
  }

  lemma DecisionGates(id: string, env: Env)
    requires Gated(env)
    ensures Process(id, env).reached <==>
      env.callback.Called? && env.wait.Decided? && env.wait.approval in APPROVALS
  {}

  /** In the first `m` steps of the run, the wait that step `n` begins has returned. */
  predicate ReturnedBy(steps: seq<Step>, n: nat, m: nat) {
    n < m <= |steps| &&
    var k := |Run(steps[..n]).waits|;
    k < |Run(steps[..m]).waits| && Run(steps[..m]).waits[k].stage.Returned?
  }

  /** The connection has an error when the call's turn comes or its wait ends with the context. */
  predicate Broken(env: Env) {
    env.stopped || (Gated(env) && env.wait.ContextError?)
  }

  /** An error of the connection stays: the context it is read from is the one that waits end with. */
  predicate ErrorsStay(envs: seq<Env>) {
    forall i, j | 0 <= i < j < |envs| && Broken(envs[i]) :: envs[j].stopped
  }

  /** In the run that goes on with `more`, step `n` begins a wait on the request that stood under the id
      after `steps`, was undecided, and was then taken out; and the wait returns this outcome. */
  predicate WaitsOnWithdrawn(steps: seq<Step>, more: seq<Step>, n: nat, id: string, outcome: Outcome) {
    var s, all := Run(steps), steps + [Unregister(id)] + more;
    && id in s.table && s.table[id] < |s.requests| && !s.requests[s.table[id]].done
    && WaitsIn(all, n, id, outcome)
    && id in Run(all[..n]).table && Run(all[..n]).table[id] == s.table[id]
  }

  lemma WithdrawnWait(steps: seq<Step>, more: seq<Step>, n: nat, id: string, outcome: Outcome)
    requires WaitsOnWithdrawn(steps, more, n, id, outcome)
    ensures outcome in {ContextError, Decided(NoApproval)}
  {
    var all := steps + [Unregister(id)] + more;
    UnregisteredGivesNothing(steps, more, id);
    WaitIsOnItsRequest(all, n);
    var w := Run(all).waits[|Run(all[..n]).waits|];
    assert w.stage.Returned? && w.stage.outcome == outcome;
  }

  lemma NothingIsCanceled(id: string, env: Env)
    requires Gated(env) && env.wait in {ContextError, NotRegistered, Decided(NoApproval)}
    ensures var p := Process(id, env);
      !p.reached && p.data.approval == Canceled && p.result == ToolResult(id, "", "Tool approval canceled")
  {}

  /** A gated call whose request was taken out undecided never reaches its callback: it is denied as
      canceled, whenever its wait began and whatever comes later. */
  lemma WithdrawnNeverRuns(steps: seq<Step>, more: seq<Step>, n: nat, id: string, env: Env)
    requires WaitsOnWithdrawn(steps, more, n, id, env.wait) && Gated(env)
    ensures var p := Process(id, env);
      !p.reached && p.data.approval == Canceled && p.result == ToolResult(id, "", "Tool approval canceled")
  {
    WithdrawnWait(steps, more, n, id, env.wait);
    NothingIsCanceled(id, env);
  }

  /** A round in the registry's run: the steps that register the requests of its calls, all before
      the first wait, and the steps with which its gated calls begin to wait, one call after
      another. */
  datatype Schedule = Schedule(steps: seq<Step>, registered: seq<nat>, waited: seq<nat>)

  predicate Follows(s: Schedule, ids: seq<string>, envs: seq<Env>) {
    && |s.registered| == |s.waited| == |ids| == |envs|
    && (forall i | 0 <= i < |ids| && envs[i].created.approval == NeedsApproval ::
          s.registered[i] < |s.steps| && s.steps[s.registered[i]] == Register(ids[i]))
    && (forall i | 0 <= i < ProcessedCount(envs) && Gated(envs[i]) ::
          WaitsIn(s.steps, s.waited[i], ids[i], envs[i].wait))
    && (forall i, j | 0 <= i < |ids| && 0 <= j < ProcessedCount(envs) &&
          envs[i].created.approval == NeedsApproval && Gated(envs[j]) :: s.registered[i] < s.waited[j])
    && (forall i, j | 0 <= i < j < ProcessedCount(envs) && Gated(envs[i]) && Gated(envs[j]) ::
          ReturnedBy(s.steps, s.waited[i], s.waited[j]))
    && ErrorsStay(envs)
  }

  /** No step between the call's registration and its wait registers its id again. */
  predicate Undisturbed(s: Schedule, id: string, i: nat)
    requires i < |s.registered| && i < |s.waited| && s.waited[i] <= |s.steps|
  {
    forall m | s.registered[i] < m < s.waited[i] :: s.steps[m] != Register(id)
  }

  /** In a round, a gated call that was registered at the start reaches its callback only if the
      request that its own registration made is, in the end, decided with an approval; and it does
      so unless its wait was cut short, it had no callback, or someone took the request out of the
      registry before the wait. */
  lemma CallbackMeansRequestApproved(s: Schedule, ids: seq<string>, envs: seq<Env>, i: nat)
    requires Follows(s, ids, envs) && i < ProcessedCount(envs)
    requires envs[i].created.approval == NeedsApproval && Gated(envs[i]) && Undisturbed(s, ids[i], i)
    ensures var t, r := Run(s.steps), |Run(s.steps[..s.registered[i]]).requests|;
      Outcomes(ids, envs)[i].reached <==>
        envs[i].callback.Called? && envs[i].wait.Decided? &&
        ids[i] in Run(s.steps[..s.waited[i]]).table &&
        Owned(t, r, ids[i]) && t.requests[r].done && t.requests[r].approval in APPROVALS
  {
    var m, n, id := s.registered[i], s.waited[i], ids[i];
    var between := s.steps[m + 1..n];
    assert s.steps[..n] == s.steps[..m] + [Register(id)] + between;
    assert Register(id) !in between;
    TableHoldsLastRegistered(s.steps[..m], between, id);
    ApprovalGatesTheCallback(s.steps, n, id, envs[i]);
  }

  /** Such a round exists: one call, registered, waited for, approved by the user and run. */
  lemma ApprovedRound(id: string, after: Data)
    ensures var env := Env(Data(Pending, NeedsApproval, ""), false, None, Decided(UserApproved), Called("", "", after));
      var steps := [Register(id), StartWait(id), LookupForUpdate(id, UserApproved), ApplyUpdate(0), WakeUp(0), FinishWait(0)];
      var s := Schedule(steps, [0], [1]);
      Follows(s, [id], [env]) && Gated(env) && Undisturbed(s, id, 0) && Outcomes([id], [env])[0].reached
  {
    DecidedRun(id, UserApproved);
  }

  /** What the chat shows and what the model is told agree: a call ends in error exactly when its
      result is one, with no text and, unless it came with an empty message, the same message;
      otherwise its callback ran.  The reasons for a missing callback are never empty texts. */
  lemma ResultMatchesStatus(id: string, env: Env)
    requires env.callback.Unavailable? ==> env.callback.reason != ""
    ensures var p := Process(id, env);
      && p.result.id == id
      && (if p.result.errorText != "" then p.data.status == Error && p.result.text == ""
          else p.data.status == Completed && p.reached)
      && (p.result.errorText != "" && (env.created.status == Error ==> env.created.errorMessage != "") ==>
            p.data.errorMessage == p.result.errorText)
  {}

  /** A call that reaches its callback, gated or not, is answered with the callback's text, or without
      text and with its error. */
  lemma CallbackAnswers(id: string, env: Env)
    requires Process(id, env).reached
    ensures env.callback.Called? && env.callback.errorText == "" ==>
      Process(id, env).result == ToolResult(id, env.callback.text, "")
    ensures env.callback.Called? && env.callback.errorText != "" ==>
      Process(id, env).result == ToolResult(id, "", env.callback.errorText)
    ensures env.callback.Called?
  {}

  /** A call that comes to the gate and needs no approval there reaches its callback if there is one, and
      is answered with the reason if there is none. */
  lemma UngatedAnswers(id: string, env: Env)
    requires AtGate(env).Some? && !Gated(env)
    ensures Process(id, env).reached <==> env.callback.Called?
    ensures env.callback.Unavailable? ==> Process(id, env).result == ToolResult(id, "", env.callback.reason)
  {}

  /** A call comes to the gate exactly when it was created without an error and its verifier, if there is
      one, has none; if not, its result says why, and its callback is not reached. */
  lemma StoppedBeforeGate(id: string, env: Env)
    ensures AtGate(env).None? <==>
      env.created.status == Error ||
      (env.verification.Some? && env.verification.value.error.Some?)
    ensures AtGate(env).None? ==>
      var p := Process(id, env);
      !p.reached && p.result ==
        if env.created.status != Error then
          ToolResult(id, "", "Input validation failed: " + env.verification.value.error.value)
        else if env.created.errorMessage == "" then ToolResult(id, "", "Unspecified Tool Error")
        else ToolResult(id, "", env.created.errorMessage)
  {}

  /** What a gated call that is denied is told: by the user, by the time, or, when the wait was cut short,
      found no request or gave no decision, that it was canceled. */
  lemma DenialMessages(id: string, env: Env)
    requires Gated(env) && env.wait !in {Decided(UserApproved), Decided(AutoApproved)}
    ensures var p := Process(id, env);
      && !p.reached && p.data.status == Error && p.data.errorMessage == p.result.errorText
      && p.result == ToolResult(id, "",
           match env.wait
           case Decided(UserDenied) => "Tool use denied by user"
           case Decided(Timeout) => "Tool approval timed out"
           case Decided(Canceled) => "Tool approval canceled"
           case Decided(NoApproval) => "Tool approval canceled"
           case Decided(_) => "Tool use denied or timed out"
           case ContextError => "Tool approval canceled"
           case NotRegistered => "Tool approval canceled")
  {}

  /** Whether a call of the round stays in the chat. */
  predicate Stays(ids: seq<string>, envs: seq<Env>, i: nat)
    requires i < |ids| == |envs|
  {
    Kept(Outcomes(ids, envs), ProcessedCount(envs), i)
  }

  lemma {:induction false} CountIff(envs: seq<Env>, i: nat)
    requires i < |envs|
    ensures i < ProcessedCount(envs) <==> forall j | 0 <= j <= i :: !envs[j].stopped
  {
    if i > 0 && !envs[0].stopped {
      CountIff(envs[1..], i - 1);
      assert forall j | 0 < j <= i :: envs[j] == envs[1..][j - 1];
    }
  }

  /** The approval that is left in a call's data, in terms of what happens to the call. */
  function LastApproval(env: Env): Approval {
    if env.created.status == Error then env.created.approval
    else if AtGate(env).None? then env.verification.value.after.approval
    else
      var decision := if Gated(env) then DecisionOf(env.wait) else AtGate(env).value.approval;
      if env.callback.Called? && (!Gated(env) || CountsAsApproved(decision)) then env.callback.after.approval
      else decision
  }

  /** No call up to this one finds the connection broken, and nothing leaves this one canceled. */
  predicate WouldStay(envs: seq<Env>, i: nat)
    requires i < |envs|
  {
    (forall j | 0 <= j <= i :: !envs[j].stopped) && LastApproval(envs[i]) != Canceled
  }

  lemma StaysIff(ids: seq<string>, envs: seq<Env>, i: nat)
    requires i < |ids| == |envs|
    ensures Stays(ids, envs, i) <==> WouldStay(envs, i)
  {
    CountIff(envs, i);
  }

  /** Exactly when a call that needs approval at the gate stays: no call up to it found the
      connection broken, its wait gave a decision that is neither empty nor canceled, and its
      callback, if reached, did not leave it marked canceled. */
  lemma GatedCallStaysIff(ids: seq<string>, envs: seq<Env>, i: nat)
    requires i < |ids| == |envs|
    requires AtGate(envs[i]).Some? && AtGate(envs[i]).value.approval == NeedsApproval
    ensures var e := envs[i];
      Stays(ids, envs, i) <==>
        (forall j | 0 <= j <= i :: !envs[j].stopped) &&
        e.wait.Decided? && e.wait.approval !in {NoApproval, Canceled} &&
        (e.wait.approval in {UserApproved, AutoApproved} && e.callback.Called? ==>
           e.callback.after.approval != Canceled)
  {
    CountIff(envs, i);
  }

  function ResultIds(results: seq<ToolResult>): seq<string> {
    seq(|results|, i requires 0 <= i < |results| => results[i].id)
  }

  predicate OwnIds(ids: seq<string>, ps: seq<Processed>) {
    |ids| == |ps| && forall i | 0 <= i < |ids| :: ps[i].result.id == ids[i]
  }

  lemma OutcomesHaveOwnIds(ids: seq<string>, envs: seq<Env>)
    requires |ids| == |envs|
    ensures OwnIds(ids, Outcomes(ids, envs))
  {}

  lemma CountOneMore(answers: seq<ToolResult>, removals: seq<string>, ids: seq<string>, r: ToolResult)
    requires multiset(ResultIds(answers)) + multiset(removals) == multiset(ids)
    ensures multiset(ResultIds(answers + [r])) + multiset(removals) == multiset(ids + [r.id])
    ensures multiset(ResultIds(answers)) + multiset(removals + [r.id]) == multiset(ids + [r.id])
  {
    assert ResultIds(answers + [r]) == ResultIds(answers) + [r.id];
  }

  lemma {:induction false} RoundCounts(ids: seq<string>, ps: seq<Processed>, count: nat, n: nat)
    requires OwnIds(ids, ps) && n <= |ids|
    ensures multiset(ResultIds(Answers(ps, count, n))) + multiset(Removals(ids, ps, count, n)) == multiset(ids[..n])
  {
    if n > 0 {
      RoundCounts(ids, ps, count, n - 1);
      assert ids[..n] == ids[..n - 1] + [ids[n - 1]];
      var answers, removals := Answers(ps, count, n - 1), Removals(ids, ps, count, n - 1);
      assert ps[n - 1].result.id == ids[n - 1];
      CountOneMore(answers, removals, ids[..n - 1], ps[n - 1].result);
      if Kept(ps, count, n - 1) {
        assert Answers(ps, count, n) == answers + [ps[n - 1].result] && Removals(ids, ps, count, n) == removals;
      } else {
        assert Answers(ps, count, n) == answers && Removals(ids, ps, count, n) == removals + [ids[n - 1]];
      }
    }
  }

  /** Every call of the round is accounted for once: answered by a result with its own id, or
      removed from the chat. */
  lemma RoundIsComplete(ids: seq<string>, envs: seq<Env>)
    requires |ids| == |envs|
    ensures multiset(ResultIds(Answered(ids, envs))) + multiset(Removed(ids, envs)) == multiset(ids)
  {
    OutcomesHaveOwnIds(ids, envs);
    RoundCounts(ids, Outcomes(ids, envs), ProcessedCount(envs), |ids|);
    assert ids[..|ids|] == ids;
  }

  predicate AllDistinct(ids: seq<string>) {
    forall i, j | 0 <= i < j < |ids| :: ids[i] != ids[j]
  }

  /** How often an id is answered or removed. */
  function Accounted(ids: seq<string>, envs: seq<Env>, id: string): nat
    requires |ids| == |envs|
  {
    multiset(ResultIds(Answered(ids, envs)))[id] + multiset(Removed(ids, envs))[id]
  }

  /** Every id of the round is in exactly one of the two sets, once, exactly when the ids are
      distinct. */
  lemma AnsweredOrRemovedIff(ids: seq<string>, envs: seq<Env>)
    requires |ids| == |envs|
    ensures (forall id <- ids :: Accounted(ids, envs, id) == 1) <==> AllDistinct(ids)
  {
    RoundIsComplete(ids, envs);
    if AllDistinct(ids) {
      forall id <- ids ensures Accounted(ids, envs, id) == 1 { DistinctOnce(ids, id); }
    } else {
      var i, j :| 0 <= i < j < |ids| && ids[i] == ids[j];
      RepeatedTwice(ids, i, j);
      assert Accounted(ids, envs, ids[i]) != 1;
    }
  }

  lemma RepeatedTwice(ids: seq<string>, i: nat, j: nat)
    requires i < j < |ids| && ids[i] == ids[j]
    ensures multiset(ids)[ids[i]] >= 2
  {
    assert ids == ids[..j] + [ids[j]] + ids[j + 1..];
    assert ids[i] in ids[..j];
  }

  /** With distinct ids no call is both answered and removed, and none is answered twice. */
  lemma AnsweredOrRemoved(ids: seq<string>, envs: seq<Env>, id: string)
    requires |ids| == |envs| && id in ids && AllDistinct(ids)
    ensures Accounted(ids, envs, id) == 1
  {
    AnsweredOrRemovedIff(ids, envs);
  }

  lemma {:induction false} DistinctOnce(ids: seq<string>, id: string)
    requires AllDistinct(ids)
    ensures multiset(ids)[id] == if id in ids then 1 else 0
  {
    if ids != [] {
      var n := |ids| - 1;
      assert ids == ids[..n] + [ids[n]];
      DistinctOnce(ids[..n], id);
    }
  }

  lemma {:induction false} AnsweredFrom(ids: seq<string>, ps: seq<Processed>, count: nat, n: nat, id: string)
    requires OwnIds(ids, ps) && n <= |ids|
    ensures id in ResultIds(Answers(ps, count, n)) <==> exists i | 0 <= i < n :: ids[i] == id && Kept(ps, count, i)
    ensures id in Removals(ids, ps, count, n) <==> exists i | 0 <= i < n :: ids[i] == id && !Kept(ps, count, i)
  {
    if n > 0 {
      AnsweredFrom(ids, ps, count, n - 1, id);
      var before := Answers(ps, count, n - 1);
      assert ResultIds(before + [ps[n - 1].result]) == ResultIds(before) + [ids[n - 1]];
    }
  }

  predicate InBothSets(ids: seq<string>, envs: seq<Env>, id: string)
    requires |ids| == |envs|
  {
    id in ResultIds(Answered(ids, envs)) && id in Removed(ids, envs)
  }

  /** An id is both answered and removed exactly when one of its calls would stay and another would
      not, by what happens to each of them. */
  lemma InBothSetsIff(ids: seq<string>, envs: seq<Env>, id: string)
    requires |ids| == |envs|
    ensures InBothSets(ids, envs, id) <==>
      exists i, j | 0 <= i < |ids| && 0 <= j < |ids| :: ids[i] == id == ids[j] && WouldStay(envs, i) && !WouldStay(envs, j)
  {
    OutcomesHaveOwnIds(ids, envs);
    AnsweredFrom(ids, Outcomes(ids, envs), ProcessedCount(envs), |ids|, id);
    forall i | 0 <= i < |ids| ensures Kept(Outcomes(ids, envs), ProcessedCount(envs), i) <==> WouldStay(envs, i) {
      StaysIff(ids, envs, i);
    }
    if InBothSets(ids, envs, id) {
      var i :| 0 <= i < |ids| && ids[i] == id && Kept(Outcomes(ids, envs), ProcessedCount(envs), i);
      var j :| 0 <= j < |ids| && ids[j] == id && !Kept(Outcomes(ids, envs), ProcessedCount(envs), j);
      assert WouldStay(envs, i) && !WouldStay(envs, j);
    }
  }

  /** No step after the one with which the call begins to wait registers its id again. */
  predicate NotRegisteredAgain(s: Schedule, id: string, i: nat)
    requires i < |s.waited|
  {
    forall m | s.waited[i] < m < |s.steps| :: s.steps[m] != Register(id)
  }

  /** What a wait has returned at some point of a run it has returned at the end. */
  lemma ReturnedForGood(steps: seq<Step>, n: nat, m: nat, id: string, outcome: Outcome)
    requires WaitsIn(steps, n, id, outcome) && ReturnedBy(steps, n, m)
    ensures Run(steps[..m]).waits[|Run(steps[..n]).waits|].stage == Returned(outcome)
  {
    assert steps == steps[..m] + steps[m..];
    RunKeeps(steps[..m], steps[m..]);
  }

  /** The id is not in the table when it is waited for a second time. */
  lemma OutOfTable(steps: seq<Step>, n: nat, m: nat, id: string, outcome: Outcome)
    requires WaitsIn(steps, n, id, outcome) && ReturnedBy(steps, n, m) && outcome != ContextError
    requires forall l | n < l < m :: steps[l] != Register(id)
    ensures id !in Run(steps[..m]).table
  {
    var between := steps[n + 1..m];
    assert steps[..m] == steps[..n] + [StartWait(id)] + between;
    assert Register(id) !in between;
    ReturnedForGood(steps, n, m, id, outcome);
    ReturnedIdIsOut(steps[..n], between, id);
  }

  /** A gated call whose id has been waited for before finds no request: its wait gives nothing. */
  lemma LaterWaitFindsNothing(s: Schedule, ids: seq<string>, envs: seq<Env>, i: nat, j: nat)
    requires Follows(s, ids, envs) && i < j < ProcessedCount(envs) && ids[i] == ids[j]
    requires Gated(envs[i]) && Gated(envs[j]) && NotRegisteredAgain(s, ids[i], i)
    ensures envs[j].wait == NotRegistered
  {
    var n, m := s.waited[i], s.waited[j];
    CountIff(envs, j);
    assert !Broken(envs[i]) by { assert !envs[j].stopped; }
    OutOfTable(s.steps, n, m, ids[i], envs[i].wait);
    WaitIsOnItsRequest(s.steps, m);
    WaitersGetTheDecision(s.steps, |Run(s.steps[..m]).waits|);
  }

  /** Of the gated calls of a round under one id only the first can stay. */
  lemma OnlyFirstStays(s: Schedule, ids: seq<string>, envs: seq<Env>, i: nat, j: nat)
    requires Follows(s, ids, envs) && i < j < |ids| && ids[i] == ids[j]
    requires Gated(envs[i]) && Gated(envs[j]) && NotRegisteredAgain(s, ids[i], i)
    ensures !WouldStay(envs, j)
  {
    CountIff(envs, j);
    if j < ProcessedCount(envs) {
      LaterWaitFindsNothing(s, ids, envs, i, j);
    }
  }

  /** In every round, an id that several calls have, all of them gated, is both answered and removed
      exactly when the first of these calls would stay. */
  lemma RepeatedIdInBothIff(s: Schedule, ids: seq<string>, envs: seq<Env>, i: nat, j: nat)
    requires Follows(s, ids, envs) && i < j < |ids| && ids[i] == ids[j] && forall k | 0 <= k < i :: ids[k] != ids[i]
    requires (forall k | 0 <= k < |ids| && ids[k] == ids[i] :: Gated(envs[k])) && NotRegisteredAgain(s, ids[i], i)
    ensures InBothSets(ids, envs, ids[i]) <==> WouldStay(envs, i)
  {
    InBothSetsIff(ids, envs, ids[i]);
    forall k | 0 <= k < |ids| && ids[k] == ids[i] && k != i ensures !WouldStay(envs, k) {
      OnlyFirstStays(s, ids, envs, i, k);
    }
  }

  const ASKING := Data(Pending, NeedsApproval, "")

  lemma KeptThenGone(id: string, kept: Env, gone: Env)
    requires WouldStay([kept, gone], 0) && !WouldStay([kept, gone], 1) && !gone.stopped
    ensures Answered([id, id], [kept, gone]) == [Process(id, kept).result] && Removed([id, id], [kept, gone]) == [id]
  {
    var ids, envs := [id, id], [kept, gone];
    var ps := Outcomes(ids, envs);
    StaysIff(ids, envs, 0);
    StaysIff(ids, envs, 1);
    assert !kept.stopped by { assert !envs[0].stopped; }
    assert ProcessedCount([gone]) == 1 && envs[1..] == [gone] && [gone][1..] == [];
    assert ProcessedCount(envs) == 2 && Kept(ps, 2, 0) && !Kept(ps, 2, 1);
    OneMoreCall(ids, ps, 2, 0);
    OneMoreCall(ids, ps, 2, 1);
    assert [] + [ps[0].result] + [] == [ps[0].result] && [] + [] + [ids[1]] == [id];
  }

  lemma OneMoreCall(ids: seq<string>, ps: seq<Processed>, count: nat, n: nat)
    requires n < |ps| == |ids|
    ensures Answers(ps, count, n + 1) == Answers(ps, count, n) + if Kept(ps, count, n) then [ps[n].result] else []
    ensures Removals(ids, ps, count, n + 1) == Removals(ids, ps, count, n) + if Kept(ps, count, n) then [] else [ids[n]]
  {}

  /** The registry's run of a round with one id twice, in which the user approves once. */
  function TwiceSteps(id: string): seq<Step> {
    [Register(id), Register(id), StartWait(id), LookupForUpdate(id, UserApproved), ApplyUpdate(0),
     WakeUp(0), FinishWait(0), StartWait(id)]
  }

  lemma TwiceFollows(id: string, kept: Env, gone: Env)
    requires kept.created == ASKING == gone.created && kept.verification == None == gone.verification
    requires !kept.stopped && !gone.stopped && kept.wait == Decided(UserApproved) && gone.wait == NotRegistered
    ensures Follows(Schedule(TwiceSteps(id), [0, 1], [2, 7]), [id, id], [kept, gone])
  {
    var steps := TwiceSteps(id);
    DecidedOnce(id, UserApproved);
    assert WaitsIn(steps, 2, id, kept.wait) && WaitsIn(steps, 7, id, gone.wait);
    assert ReturnedBy(steps, 2, 7);
  }

  /** A round with one id twice, in which the user approves once: the first call is run and answered;
      the second finds no request any more and is removed, and so the id is in both sets. */
  lemma SameIdInBothSets(id: string, after: Data)
    requires after.approval == UserApproved
    ensures
      var kept := Env(ASKING, false, None, Decided(UserApproved), Called("t", "", after));
      var gone := Env(ASKING, false, None, NotRegistered, Called("t", "", after));
      var ids, envs := [id, id], [kept, gone];
      Follows(Schedule(TwiceSteps(id), [0, 1], [2, 7]), ids, envs) &&
      Answered(ids, envs) == [ToolResult(id, "t", "")] && Removed(ids, envs) == [id]
  {
    var kept := Env(ASKING, false, None, Decided(UserApproved), Called("t", "", after));
    var gone := Env(ASKING, false, None, NotRegistered, Called("t", "", after));
    TwiceFollows(id, kept, gone);
    KeptThenGone(id, kept, gone);
  }

  /** Results keep the order of the calls, and a kept call's result is its own. */
  lemma {:induction false} AnswersInOrder(ps: seq<Processed>, count: nat, i: nat, n: nat)
    requires i < n <= |ps| && Kept(ps, count, i)
    ensures var at := |Answers(ps, count, i)|;
      at < |Answers(ps, count, n)| && Answers(ps, count, n)[at] == ps[i].result
    ensures forall j | i < j < n :: |Answers(ps, count, i)| < |Answers(ps, count, j)|
    decreases n
  {
    if i < n - 1 {
      AnswersInOrder(ps, count, i, n - 1);
    }
  }

  /** The calls that stay are answered by their own results, in the order of the calls. */
  lemma ResultsKeepCallOrder(ids: seq<string>, envs: seq<Env>, i: nat, j: nat)
    returns (a: nat, b: nat)
    requires i < j < |ids| == |envs| && Stays(ids, envs, i) && Stays(ids, envs, j)
    ensures a < b < |Answered(ids, envs)|
    ensures Answered(ids, envs)[a] == Process(ids[i], envs[i]).result && Answered(ids, envs)[a].id == ids[i]
    ensures Answered(ids, envs)[b] == Process(ids[j], envs[j]).result && Answered(ids, envs)[b].id == ids[j]
  {
    var ps, count := Outcomes(ids, envs), ProcessedCount(envs);
    OutcomesHaveOwnIds(ids, envs);
    AnswersInOrder(ps, count, i, |ids|);
    AnswersInOrder(ps, count, j, |ids|);
    a, b := |Answers(ps, count, i)|, |Answers(ps, count, j)|;
  }
}
