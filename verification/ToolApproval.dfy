/**
 Tool approvals of pkg/aiusechat/toolapproval.go: requests whose first decision wins, the
 registry that finds them by tool-call id, and every interleaving of registrations,
 updates, waits and unregistrations.  Each step below runs under one lock.
 */
module ToolApproval {
  import opened Basics

  /** The approval strings; `NoApproval` is the empty one. */
  datatype Approval =
    | NoApproval | NeedsApproval | UserApproved | UserDenied | Timeout | AutoApproved | Canceled
    | OtherApproval(text: string)

  /** `IsApproved` of a tool use. */
  predicate CountsAsApproved(a: Approval) {
    a.NoApproval? || a.UserApproved? || a.AutoApproved?
  }

  // ---------------------------------------------------------------- one request

  /** `closes` counts the closings of the done channel: a second one would panic. */
  datatype Request = Request(approval: Approval, done: bool, closes: nat, unregistrations: nat)

  const FRESH := Request(NoApproval, false, 0, 0)

  function Decide(r: Request, a: Approval): Request {
    if r.done then r else Request(a, true, r.closes + 1, r.unregistrations + 1)
  }

  /** What an unregistration does to the request it takes out. */
  function Withdraw(r: Request): Request {
    Decide(r, NoApproval)
  }

  class ApprovalRequest {
    var approval: Approval
    var done: bool
    ghost var closes: nat
    ghost var unregistrations: nat

    constructor ()
      ensures State() == FRESH
    {
      approval, done, closes, unregistrations := NoApproval, false, 0, 0;
    }

    ghost function State(): Request
      reads this
    {
      Request(approval, done, closes, unregistrations)
    }

    method UpdateApproval(a: Approval)
      modifies this
      ensures State() == Decide(old(State()), a)
    {
      if done {
        return;
      }
      approval := a;
      done := true;
      unregistrations := unregistrations + 1;
      closes := closes + 1;
    }
  }

  class ApprovalRegistry {
    var requests: map<string, ApprovalRequest>

    constructor ()
      ensures requests == map[]
    {
      requests := map[];
    }

    method Register(id: string) returns (req: ApprovalRequest)
      modifies this
      ensures fresh(req) && req.State() == FRESH
      ensures requests == old(requests)[id := req]
    {
      req := new ApprovalRequest();
      requests := requests[id := req];
    }

    /** Takes the entry out and, still under the registry lock, ends its request. */
    method Unregister(id: string)
      modifies this, if id in requests then {requests[id]} else {}
      ensures requests == old(requests) - {id}
      ensures id in old(requests) ==>
        old(requests)[id].State() == Withdraw(old(requests[id].State()))
    {
      if id in requests {
        var req := requests[id];
        requests := requests - {id};
        req.UpdateApproval(NoApproval);
      } else {
        assert requests - {id} == requests;
      }
    }

    /** The last part of a wait. */
    method Delete(id: string)
      modifies this
      ensures requests == old(requests) - {id}
    {
      requests := requests - {id};
    }
  }

  // ---------------------------------------------------------------- every interleaving

  /** What a wait returns: a decision, the context's error, or, without a request, nothing. */
  datatype Outcome = Decided(approval: Approval) | ContextError | NotRegistered

  /** An update between its lookup and its locking of the request. */
  datatype Updater = Updater(req: nat, approval: Approval)

  /** A wait is blocked on the channel, holds the decision it read and is about to delete the id,
      or has returned. */
  datatype Stage = Blocked | Deleting(approval: Approval) | Returned(outcome: Outcome)

  /** A wait for an id, on the request it found under that id. */
  datatype Wait = Wait(id: string, req: Option<nat>, stage: Stage)

  /** `requests` are all the request objects ever made, `ids` the ids they were registered under,
      `table` maps ids to them, and `waits` are all the waits ever begun, in this order. */
  datatype System = System(
    requests: seq<Request>, ids: seq<string>, table: map<string, nat>,
    updaters: seq<Updater>, waits: seq<Wait>)

  datatype Step =
    | Register(id: string)
    | Unregister(id: string)
    | LookupForUpdate(id: string, approval: Approval)
    | ApplyUpdate(k: nat)
    | StartWait(id: string)
    | WakeUp(k: nat)
    | FinishWait(k: nat)
    | ContextDone(k: nat)

  const EMPTY := System([], [], map[], [], [])

  function Changed(requests: seq<Request>, r: nat, change: Request -> Request): seq<Request> {
    if r < |requests| then requests[r := change(requests[r])] else requests
  }

  function Without<T>(s: seq<T>, k: nat): seq<T>
    requires k < |s|
  {
    s[..k] + s[k + 1..]
  }

  /** The lookup at the start of a wait. */
  function NewWait(s: System, id: string): Wait {
    if id in s.table then Wait(id, Some(s.table[id]), Blocked) else Wait(id, None, Returned(NotRegistered))
  }

  /** The request of wait `k` is done. */
  predicate CanWake(s: System, k: nat) {
    k < |s.waits| && s.waits[k].stage.Blocked? && s.waits[k].req.Some? &&
    s.waits[k].req.value < |s.requests| && s.requests[s.waits[k].req.value].done
  }

  function Next(s: System, step: Step): System {
    match step
    case Register(id) =>
      s.(requests := s.requests + [FRESH], ids := s.ids + [id], table := s.table[id := |s.requests|])
    case Unregister(id) =>
      if id in s.table then
        s.(requests := Changed(s.requests, s.table[id], Withdraw), table := s.table - {id})
      else s
    case LookupForUpdate(id, a) =>
      if id in s.table then s.(updaters := s.updaters + [Updater(s.table[id], a)]) else s
    case ApplyUpdate(k) =>
      if k < |s.updaters| then
        s.(requests := Changed(s.requests, s.updaters[k].req, r => Decide(r, s.updaters[k].approval)),
           updaters := Without(s.updaters, k))
      else s
    case StartWait(id) => s.(waits := s.waits + [NewWait(s, id)])
    case WakeUp(k) =>
      if CanWake(s, k) then
        var w := s.waits[k];
        s.(waits := s.waits[k := w.(stage := Deleting(s.requests[w.req.value].approval))])
      else s
    case FinishWait(k) =>
      if k < |s.waits| && s.waits[k].stage.Deleting? then
        var w := s.waits[k];
        s.(waits := s.waits[k := w.(stage := Returned(Decided(w.stage.approval)))], table := s.table - {w.id})
      else s
    case ContextDone(k) =>
      if k < |s.waits| && s.waits[k].stage.Blocked? then
        s.(waits := s.waits[k := s.waits[k].(stage := Returned(ContextError))])
      else s
  }

  function Run(steps: seq<Step>): System {
    if steps == [] then EMPTY else Next(Run(steps[..|steps| - 1]), steps[|steps| - 1])
  }

  lemma RunMore(steps: seq<Step>, step: Step)
    ensures Run(steps + [step]) == Next(Run(steps), step)
  {
    assert (steps + [step])[..|steps|] == steps;
  }

  /** One more step at the end of a continuation. */
  lemma RunContinued(steps: seq<Step>, more: seq<Step>)
    requires more != []
    ensures Run(steps + more) == Next(Run(steps + more[..|more| - 1]), more[|more| - 1])
  {
    FrontAndLast(steps, more);
    RunMore(steps + more[..|more| - 1], more[|more| - 1]);
  }

  lemma FrontAndLast(steps: seq<Step>, more: seq<Step>)
    requires more != []
    ensures steps + more == steps + more[..|more| - 1] + [more[|more| - 1]]
  {}

  // ---------------------------------------------------------------- the invariant

  predicate RequestOk(r: Request) {
    r.closes == r.unregistrations == if r.done then 1 else 0
  }

  predicate Final(requests: seq<Request>, r: nat, a: Approval) {
    r < |requests| && requests[r].done && requests[r].approval == a
  }

  /** Request `r` exists and was registered under `id`. */
  predicate Owned(s: System, r: nat, id: string) {
    r < |s.requests| && r < |s.ids| && s.ids[r] == id
  }

  /** A wait is on a request of its own id, and what it read or returned is that request's
      decision. */
  predicate WaitOk(s: System, w: Wait) {
    && (w.req.Some? ==> Owned(s, w.req.value, w.id))
    && (w.req.None? <==> w.stage == Returned(NotRegistered))
    && (w.stage.Deleting? ==> Final(s.requests, w.req.value, w.stage.approval))
    && (w.stage.Returned? && w.stage.outcome.Decided? ==>
          Final(s.requests, w.req.value, w.stage.outcome.approval))
  }

  ghost predicate Inv(s: System) {
    && |s.ids| == |s.requests|
    && (forall r | 0 <= r < |s.requests| :: RequestOk(s.requests[r]))
    && (forall id <- s.table :: Owned(s, s.table[id], id))
    && (forall u <- s.updaters :: u.req < |s.requests|)
    && (forall k | 0 <= k < |s.waits| :: WaitOk(s, s.waits[k]))
  }

  /** Requests and waits are only added; a decided request, the request of a wait and what a wait
      returned never change. */
  ghost predicate Keeps(s: System, t: System) {
    && |s.requests| <= |t.requests| && |s.ids| <= |t.ids| && |s.waits| <= |t.waits|
    && (forall r | 0 <= r < |s.requests| && s.requests[r].done :: t.requests[r] == s.requests[r])
    && (forall r | 0 <= r < |s.ids| :: t.ids[r] == s.ids[r])
    && (forall k | 0 <= k < |s.waits| ::
          t.waits[k].id == s.waits[k].id && t.waits[k].req == s.waits[k].req &&
          (s.waits[k].stage.Returned? ==> t.waits[k] == s.waits[k]))
  }

  lemma StepKeeps(s: System, step: Step)
    ensures Keeps(s, Next(s, step))
  {}

  lemma {:induction false} RunKeeps(steps: seq<Step>, more: seq<Step>)
    ensures Keeps(Run(steps), Run(steps + more))
  {
    if more == [] {
      assert steps + more == steps;
    } else {
      var front := more[..|more| - 1];
      RunKeeps(steps, front);
      RunContinued(steps, more);
      StepKeeps(Run(steps + front), more[|more| - 1]);
    }
  }

  lemma WaitStaysOk(s: System, t: System, w: Wait)
    requires Keeps(s, t) && |t.ids| == |t.requests| && WaitOk(s, w)
    ensures WaitOk(t, w)
  {}

  lemma InvKept(s: System, step: Step)
    requires Inv(s)
    ensures Inv(Next(s, step))
  {
    StepKeeps(s, step);
    var t := Next(s, step);
    forall k | 0 <= k < |t.waits| ensures WaitOk(t, t.waits[k]) {
      if k < |s.waits| { WaitStaysOk(s, t, s.waits[k]); }
    }
  }

  lemma {:induction false} InvHolds(steps: seq<Step>)
    ensures Inv(Run(steps))
  {
    if steps != [] {
      InvHolds(steps[..|steps| - 1]);
      InvKept(Run(steps[..|steps| - 1]), steps[|steps| - 1]);
    }
  }

  // ---------------------------------------------------------------- main results

  /** The first decision recorded for a request is its decision in every continuation. */
  lemma {:induction false} FirstDecisionIsFinal(steps: seq<Step>, more: seq<Step>, r: nat)
    requires r < |Run(steps).requests| && Run(steps).requests[r].done
    ensures r < |Run(steps + more).requests| && Run(steps + more).requests[r] == Run(steps).requests[r]
  {
    RunKeeps(steps, more);
  }

  /** The done channel is closed once, exactly when the request is done: never twice. */
  lemma {:induction false} ClosedOnceWhenDone(steps: seq<Step>, r: nat)
    requires r < |Run(steps).requests|
    ensures var q := Run(steps).requests[r]; q.closes == (if q.done then 1 else 0) == q.unregistrations
  {
    InvHolds(steps);
  }

  /** Every wait that returned gave the context's error, or the one decision of the request it was
      on, or, exactly when it had found no request, nothing. */
  lemma {:induction false} WaitersGetTheDecision(steps: seq<Step>, k: nat)
    requires k < |Run(steps).waits| && Run(steps).waits[k].stage.Returned?
    ensures var s := Run(steps); var w := s.waits[k];
      match w.stage.outcome
      case ContextError => w.req.Some?
      case Decided(a) => w.req.Some? && Final(s.requests, w.req.value, a)
      case NotRegistered => w.req.None?
  {
    InvHolds(steps);
    assert WaitOk(Run(steps), Run(steps).waits[k]);
  }

  /** Hence two waits on one request that both got a decision got the same one. */
  lemma WaitersAgree(steps: seq<Step>, j: nat, k: nat)
    requires j < |Run(steps).waits| && k < |Run(steps).waits|
    requires var a, b := Run(steps).waits[j], Run(steps).waits[k];
      a.req == b.req && a.stage.Returned? && b.stage.Returned? &&
      a.stage.outcome.Decided? && b.stage.outcome.Decided?
    ensures Run(steps).waits[j].stage == Run(steps).waits[k].stage
  {
    WaitersGetTheDecision(steps, j);
    WaitersGetTheDecision(steps, k);
  }

  /** The wait that step `n` begins is, at the end of the run, on the request that stood in the
      table under its id at that step, and that request was registered under that id. */
  lemma WaitIsOnItsRequest(steps: seq<Step>, n: nat)
    requires n < |steps| && steps[n].StartWait?
    ensures var s, t := Run(steps[..n]), Run(steps); var k, id := |s.waits|, steps[n].id;
      && k < |t.waits| && t.waits[k].id == id
      && t.waits[k].req == (if id in s.table then Some(s.table[id]) else None)
      && (id in s.table ==> Owned(t, s.table[id], id))
  {
    var s, next := Run(steps[..n]), steps[..n + 1];
    RunMore(steps[..n], steps[n]);
    assert next == steps[..n] + [steps[n]];
    assert steps == next + steps[n + 1..];
    RunKeeps(next, steps[n + 1..]);
    InvHolds(steps);
    assert WaitOk(Run(steps), Run(steps).waits[|s.waits|]);
  }

  /** From a registration until the next one of the same id, the table holds the request it made or
      none under that id. */
  lemma {:induction false} TableHoldsLastRegistered(steps: seq<Step>, more: seq<Step>, id: string)
    requires Register(id) !in more
    ensures var r := |Run(steps).requests|; var t := Run(steps + [Register(id)] + more).table;
      id in t ==> t[id] == r
  {
    if more == [] {
      assert steps + [Register(id)] + more == steps + [Register(id)];
      RunMore(steps, Register(id));
    } else {
      var front := more[..|more| - 1];
      assert more[|more| - 1] in more;
      TableHoldsLastRegistered(steps, front, id);
      RunContinued(steps + [Register(id)], more);
    }
  }

  lemma RunOn(steps: seq<Step>, step: Step, all: seq<Step>)
    requires all == steps + [step]
    ensures Run(all) == Next(Run(steps), step)
  {
    RunMore(steps, step);
  }

  /** The plain case: a request is registered, waited for, decided, and its wait returns the
      decision. */
  lemma DecidedRun(id: string, a: Approval)
    ensures var steps := [Register(id), StartWait(id), LookupForUpdate(id, a), ApplyUpdate(0), WakeUp(0), FinishWait(0)];
      Run(steps[..1]).waits == [] && Run(steps).waits == [Wait(id, Some(0), Returned(Decided(a)))]
  {
    var steps := [Register(id), StartWait(id), LookupForUpdate(id, a), ApplyUpdate(0), WakeUp(0), FinishWait(0)];
    assert steps[..6] == steps;
    RunOn(steps[..0], steps[0], steps[..1]);
    RunOn(steps[..1], steps[1], steps[..2]);
    RunOn(steps[..2], steps[2], steps[..3]);
    RunOn(steps[..3], steps[3], steps[..4]);
    RunOn(steps[..4], steps[4], steps[..5]);
    RunOn(steps[..5], steps[5], steps[..6]);
    DecidedSteps(id, a);
  }

  lemma DecidedSteps(id: string, a: Approval)
    ensures var s1 := Next(EMPTY, Register(id)); var s2 := Next(s1, StartWait(id));
      var s3 := Next(s2, LookupForUpdate(id, a)); var s4 := Next(s3, ApplyUpdate(0));
      var s6 := Next(Next(s4, WakeUp(0)), FinishWait(0));
      s1.waits == [] && s6.waits == [Wait(id, Some(0), Returned(Decided(a)))]
  {}

  /** Two requests under one id, and one decision: the first wait returns it and takes the id out of
      the table, and the second wait finds no request. */
  lemma DecidedOnce(id: string, a: Approval)
    ensures var steps := [Register(id), Register(id), StartWait(id), LookupForUpdate(id, a), ApplyUpdate(0),
                          WakeUp(0), FinishWait(0), StartWait(id)];
      var first := Wait(id, Some(1), Returned(Decided(a)));
      && Run(steps[..2]).waits == [] && Run(steps[..7]).waits == [first]
      && Run(steps).waits == [first, Wait(id, None, Returned(NotRegistered))]
  {
    var steps := [Register(id), Register(id), StartWait(id), LookupForUpdate(id, a), ApplyUpdate(0),
                  WakeUp(0), FinishWait(0), StartWait(id)];
    assert steps[..8] == steps;
    RunOn(steps[..0], steps[0], steps[..1]);
    RunOn(steps[..1], steps[1], steps[..2]);
    RunOn(steps[..2], steps[2], steps[..3]);
    RunOn(steps[..3], steps[3], steps[..4]);
    RunOn(steps[..4], steps[4], steps[..5]);
    RunOn(steps[..5], steps[5], steps[..6]);
    RunOn(steps[..6], steps[6], steps[..7]);
    RunOn(steps[..7], steps[7], steps[..8]);
    DecidedOnceSteps(id, a);
  }

  lemma DecidedOnceSteps(id: string, a: Approval)
    ensures var s2 := Next(Next(EMPTY, Register(id)), Register(id)); var s3 := Next(s2, StartWait(id));
      var s5 := Next(Next(s3, LookupForUpdate(id, a)), ApplyUpdate(0));
      var s7 := Next(Next(s5, WakeUp(0)), FinishWait(0)); var s8 := Next(s7, StartWait(id));
      var first := Wait(id, Some(1), Returned(Decided(a)));
      s2.waits == [] && s7.waits == [first] && s8.waits == [first, Wait(id, None, Returned(NotRegistered))]
  {}

  /** An id that was taken out stays out until it is registered again, whatever updates and
      waits are still under way. */
  lemma {:induction false} UnregisteredStaysOut(steps: seq<Step>, more: seq<Step>, id: string)
    requires Register(id) !in more
    ensures id !in Run(steps + [Unregister(id)] + more).table
  {
    if more == [] {
      assert steps + [Unregister(id)] + more == steps + [Unregister(id)];
      RunMore(steps, Unregister(id));
    } else {
      assert more[|more| - 1] in more;
      UnregisteredStaysOut(steps, more[..|more| - 1], id);
      RunContinued(steps + [Unregister(id)], more);
    }
  }

  lemma StaysOutOnceReturned(s: System, step: Step, k: nat, id: string)
    requires step != Register(id) && k < |s.waits| && s.waits[k].id == id
    requires s.waits[k].stage.Returned? && s.waits[k].stage.outcome != ContextError ==> id !in s.table
    ensures var t := Next(s, step);
      && k < |t.waits| && t.waits[k].id == id
      && (t.waits[k].stage.Returned? && t.waits[k].stage.outcome != ContextError ==> id !in t.table)
  {}

  /** Once a wait for an id has returned, unless its context ended it, the id is out of the table
      until it is registered again. */
  lemma {:induction false} ReturnedIdIsOut(steps: seq<Step>, more: seq<Step>, id: string)
    requires Register(id) !in more
    ensures var k, t := |Run(steps).waits|, Run(steps + [StartWait(id)] + more);
      && k < |t.waits| && t.waits[k].id == id
      && (t.waits[k].stage.Returned? && t.waits[k].stage.outcome != ContextError ==> id !in t.table)
  {
    if more == [] {
      assert steps + [StartWait(id)] + more == steps + [StartWait(id)];
      RunMore(steps, StartWait(id));
    } else {
      var front := more[..|more| - 1];
      assert more[|more| - 1] in more;
      ReturnedIdIsOut(steps, front, id);
      RunContinued(steps + [StartWait(id)], more);
      StaysOutOnceReturned(Run(steps + [StartWait(id)] + front), more[|more| - 1], |Run(steps).waits|, id);
    }
  }

  /** The decision that a step brings to a request: an unregistration of its id the empty one, an
      update under way on it the update's own. */
  predicate Brings(s: System, step: Step, r: nat, a: Approval) {
    match step
    case Unregister(id) => id in s.table && s.table[id] == r && a == NoApproval
    case ApplyUpdate(k) => k < |s.updaters| && s.updaters[k] == Updater(r, a)
    case _ => false
  }

  /** A step decides a request exactly when it brings it a decision and the request has none, and then
      with that decision; nothing else about any request ever changes. */
  lemma StepDecides(s: System, step: Step, r: nat)
    requires r < |s.requests|
    ensures var before, after := s.requests[r], Next(s, step).requests[r];
      && (forall a | Brings(s, step, r, a) && !before.done ::
            after.done && after.approval == a && after.closes == before.closes + 1)
      && ((before.done || forall a :: !Brings(s, step, r, a)) ==> after == before)
  {
    match step
    case Unregister(id) => assert id in s.table && s.table[id] == r ==> Brings(s, step, r, NoApproval);
    case ApplyUpdate(k) =>
      assert k < |s.updaters| && s.updaters[k].req == r ==> Brings(s, step, r, s.updaters[k].approval);
    case _ =>
  }

  /** An update is applied to the request that stood under its id when it was looked up, and brings the
      approval it was called with. */
  lemma UpdateGoesToItsId(s: System, id: string, a: Approval)
    ensures var t := Next(s, LookupForUpdate(id, a));
      if id in s.table then t == s.(updaters := s.updaters + [Updater(s.table[id], a)]) else t == s
  {}

  /** A registration makes a new request, undecided, and puts it under the id. */
  lemma RegisterMakesOne(s: System, id: string)
    ensures var t, n := Next(s, Register(id)), |s.requests|;
      && |t.requests| == n + 1 && t.requests[..n] == s.requests && t.table == s.table[id := n]
      && !t.requests[n].done && t.requests[n].approval == NoApproval && t.requests[n].closes == 0
  {}

  /** An undecided request that is unregistered is decided as empty, for good: a wait on it, whenever
      it began, that returns without its context's error returns the empty decision. */
  lemma {:induction false} UnregisteredGivesNothing(steps: seq<Step>, more: seq<Step>, id: string)
    requires id in Run(steps).table
    requires var s := Run(steps); s.table[id] < |s.requests| && !s.requests[s.table[id]].done
    ensures var r := Run(steps).table[id]; var t := Run(steps + [Unregister(id)] + more);
      && Final(t.requests, r, NoApproval)
      && (forall k | 0 <= k < |t.waits| && t.waits[k].req == Some(r) && t.waits[k].stage.Returned? ::
            t.waits[k].stage.outcome in {ContextError, Decided(NoApproval)})
  {
    var s, r, out := Run(steps), Run(steps).table[id], steps + [Unregister(id)];
    RunMore(steps, Unregister(id));
    assert Brings(s, Unregister(id), r, NoApproval);
    StepDecides(s, Unregister(id), r);
    FirstDecisionIsFinal(out, more, r);
    var t := Run(out + more);
    forall k | 0 <= k < |t.waits| && t.waits[k].req == Some(r) && t.waits[k].stage.Returned?
      ensures t.waits[k].stage.outcome in {ContextError, Decided(NoApproval)}
    {
      WaitersGetTheDecision(out + more, k);
    }
  }

  /** After an unregistration every wait on that request that is still blocked, whenever it began,
      can wake up in every continuation, and then holds the request's one decision. */
  lemma {:induction false} UnregisterWakesWaiters(steps: seq<Step>, more: seq<Step>, id: string, k: nat)
    requires id in Run(steps).table
    requires var t := Run(steps + [Unregister(id)] + more);
      k < |t.waits| && t.waits[k].req == Some(Run(steps).table[id]) && t.waits[k].stage.Blocked?
    ensures var r := Run(steps).table[id]; var t := Run(steps + [Unregister(id)] + more);
      && r < |t.requests| && t.requests[r].done
      && Next(t, WakeUp(k)).waits[k].stage == Deleting(t.requests[r].approval)
  {
    InvHolds(steps);
    RunMore(steps, Unregister(id));
    FirstDecisionIsFinal(steps + [Unregister(id)], more, Run(steps).table[id]);
  }

  /** No table entry and no update under way leads to the request. */
  ghost predicate Forgotten(s: System, r: nat) {
    && r < |s.requests|
    && (forall id <- s.table :: s.table[id] != r)
    && (forall u <- s.updaters :: u.req != r)
  }

  lemma {:induction false} ForgottenStays(steps: seq<Step>, more: seq<Step>, r: nat)
    requires Forgotten(Run(steps), r)
    ensures Forgotten(Run(steps + more), r)
    ensures Run(steps + more).requests[r] == Run(steps).requests[r]
  {
    if more == [] {
      assert steps + more == steps;
    } else {
      ForgottenStays(steps, more[..|more| - 1], r);
      RunContinued(steps, more);
    }
  }

  lemma OverwriteForgets(s: System, id: string)
    requires Inv(s) && id in s.table && forall u <- s.updaters :: u.req != s.table[id]
    ensures Forgotten(Next(s, Register(id)), s.table[id])
  {
    forall other <- s.table | other != id ensures s.table[other] != s.table[id] {
      assert Owned(s, s.table[other], other) && Owned(s, s.table[id], id);
    }
  }

  /** A request whose id is registered a second time is out of reach of every later update and
      unregistration, unless an update was already under way: undecided, it stays undecided, and a
      wait on it that is blocked can end only with its context. */
  lemma {:induction false} OverwrittenIsForgotten(steps: seq<Step>, more: seq<Step>, id: string)
    requires id in Run(steps).table
    requires var s := Run(steps); var r := s.table[id];
      r < |s.requests| && !s.requests[r].done && forall u <- s.updaters :: u.req != r
    ensures var r := Run(steps).table[id]; var t := Run(steps + [Register(id)] + more);
      && r < |t.requests| && !t.requests[r].done
      && (forall k | 0 <= k < |t.waits| && t.waits[k].req == Some(r) ::
            !CanWake(t, k) && t.waits[k].stage in {Blocked, Returned(ContextError)})
  {
    var s, r, again := Run(steps), Run(steps).table[id], steps + [Register(id)];
    InvHolds(steps);
    RunMore(steps, Register(id));
    OverwriteForgets(s, id);
    ForgottenStays(again, more, r);
    InvHolds(again + more);
    var t := Run(again + more);
    forall k | 0 <= k < |t.waits| && t.waits[k].req == Some(r)
      ensures !CanWake(t, k) && t.waits[k].stage in {Blocked, Returned(ContextError)}
    {
      WaitOnUndecided(t, k);
    }
  }

  lemma WaitOnUndecided(s: System, k: nat)
    requires Inv(s) && k < |s.waits| && s.waits[k].req.Some?
    requires s.waits[k].req.value < |s.requests| && !s.requests[s.waits[k].req.value].done
    ensures !CanWake(s, k) && s.waits[k].stage in {Blocked, Returned(ContextError)}
  {
    assert WaitOk(s, s.waits[k]);
  }
}
