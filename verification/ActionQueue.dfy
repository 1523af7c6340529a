/**
 The two-slot action queue of a window, emain/emain-window.ts: slot 0 is in process, slot 1
 is the next one and is overwritten by later requests.  Between two awaits of the processor
 any number of requests may arrive.
 */
module ActionQueue {
  type Entry = nat

  /** How the processing of one entry ends.  `Finished`, `Skipped` (a `continue`) and `Threw` go
      on with the loop; `Returned` is an early `return`, `Destroyed` the `break`.  In every
      case the `finally` block shifts the queue. */
  datatype Ending = Finished | Skipped | Threw | Returned | Destroyed

  predicate LeavesLoop(e: Ending) {
    e.Returned? || e.Destroyed?
  }

  /** `processors` counts the calls of the processing loop that are under way, each waiting on the
      entry it found in slot 0.  `queued` are all entries ever given, `begun` those whose
      processing has begun. */
  datatype State = State(queue: seq<Entry>, processors: nat, queued: seq<Entry>, begun: seq<Entry>)

  datatype Step = Queue(entry: Entry) | End(ending: Ending)

  const EMPTY := State([], 0, [], [])

  class WindowQueue {
    var actionQueue: seq<Entry>
    var processors: nat
    ghost var queued: seq<Entry>
    ghost var begun: seq<Entry>

    constructor ()
      ensures View() == EMPTY
    {
      actionQueue, processors, queued, begun := [], 0, [], [];
    }

    ghost function View(): State
      reads this
    {
      State(actionQueue, processors, queued, begun)
    }

    /** The head of a processor's loop: up to its next await, or out of the loop. */
    method LoopHead()
      requires processors > 0
      modifies this`processors, this`begun
      ensures View() == Enter(old(View()))
    {
      if |actionQueue| > 0 {
        begun := begun + [actionQueue[0]];
      } else {
        processors := processors - 1;
      }
    }

    method QueueAction(entry: Entry)
      modifies this
      ensures View() == Next(old(View()), Queue(entry))
    {
      queued := queued + [entry];
      if |actionQueue| >= 2 {
        actionQueue := actionQueue[1 := entry];
        return;
      }
      var wasEmpty := |actionQueue| == 0;
      actionQueue := actionQueue + [entry];
      if wasEmpty {
        processors := processors + 1;
        LoopHead();
      }
    }

    /** The entry that some processor waits on ends, and this processor goes on or leaves. */
    method EndEntry(ending: Ending)
      modifies this
      ensures View() == Next(old(View()), End(ending))
    {
      if processors == 0 {
        return;
      }
      if |actionQueue| > 0 {
        actionQueue := actionQueue[1..];
      }
      if LeavesLoop(ending) {
        processors := processors - 1;
        return;
      }
      LoopHead();
    }
  }

  function Enter(s: State): State
    requires s.processors > 0
  {
    if s.queue == [] then s.(processors := s.processors - 1) else s.(begun := s.begun + [s.queue[0]])
  }

  function Next(s: State, step: Step): State {
    match step
    case Queue(entry) =>
      var t := s.(queued := s.queued + [entry]);
      if |s.queue| >= 2 then t.(queue := s.queue[1 := entry])
      else if s.queue == [] then Enter(t.(queue := [entry], processors := s.processors + 1))
      else t.(queue := s.queue + [entry])
    case End(ending) =>
      if s.processors == 0 then s
      else
        var t := s.(queue := if s.queue == [] then [] else s.queue[1..]);
        if LeavesLoop(ending) then t.(processors := s.processors - 1) else Enter(t)
  }

  function Run(s: State, steps: seq<Step>): State {
    if steps == [] then s else Next(Run(s, steps[..|steps| - 1]), steps[|steps| - 1])
  }

  /** The queue holds entries and no processor will ever look at it. */
  predicate Stuck(s: State) {
    s.processors == 0 && s.queue != []
  }

  ghost predicate Inv(s: State) {
    && |s.queue| <= 2 && s.processors <= 1
    && (s.queue == [] ==> s.processors == 0)
    && (s.queue != [] ==> s.queued != [] && s.begun != [])
    && (s.processors > 0 ==> s.begun[|s.begun| - 1] == s.queue[0])
    && (s.queued != [] && !Stuck(s) ==>
          s.begun != [] &&
          Last(s.queued) == if s.queue != [] then Last(s.queue) else Last(s.begun))
  }

  function Last(es: seq<Entry>): Entry
    requires es != []
  {
    es[|es| - 1]
  }

  lemma InvKept(s: State, step: Step)
    requires Inv(s)
    ensures Inv(Next(s, step))
  {}

  lemma {:induction false} InvHolds(steps: seq<Step>)
    ensures Inv(Run(EMPTY, steps))
  {
    if steps != [] {
      InvHolds(steps[..|steps| - 1]);
      InvKept(Run(EMPTY, steps[..|steps| - 1]), steps[|steps| - 1]);
    }
  }

  // ---------------------------------------------------------------- main results

  /** In every interleaving there are at most two entries and at most one processor; the entry in
      process is the one in slot 0, and a request never replaces it. */
  lemma {:induction false} InProcessIsSafe(steps: seq<Step>, entry: Entry)
    ensures var s := Run(EMPTY, steps); var t := Next(s, Queue(entry));
      && |s.queue| <= 2 && s.processors <= 1
      && (s.processors > 0 ==>
            s.queue != [] && s.begun != [] && Last(s.begun) == s.queue[0] &&
            t.processors == s.processors && t.begun == s.begun && t.queue == [s.queue[0], entry])
  {
    InvHolds(steps);
  }

  /** When the queue is empty a request is begun at once.  When the entry in process ends and the loop goes
      on, the entry that waits is begun next, and it is the only one left. */
  lemma BegunInTurn(steps: seq<Step>, entry: Entry, ending: Ending)
    ensures var s := Run(EMPTY, steps); var t := Next(s, Queue(entry));
      s.queue == [] ==> t == State([entry], 1, s.queued + [entry], s.begun + [entry])
    ensures var s := Run(EMPTY, steps); var t := Next(s, End(ending));
      s.processors > 0 && !LeavesLoop(ending) ==>
        t == if |s.queue| == 2 then State([s.queue[1]], 1, s.queued, s.begun + [s.queue[1]])
             else State([], 0, s.queued, s.begun)
  {
    InvHolds(steps);
  }

  /** The one way to get stuck: an early exit from the loop while a second entry waits. */
  lemma {:induction false} StuckIff(steps: seq<Step>, step: Step)
    requires !Stuck(Run(EMPTY, steps))
    ensures var s := Run(EMPTY, steps);
      Stuck(Next(s, step)) <==> s.processors > 0 && |s.queue| == 2 && step.End? && LeavesLoop(step.ending)
  {
    InvHolds(steps);
  }

  /** Once stuck, always stuck: later requests only replace each other and none is ever begun. */
  lemma {:induction false} StuckForever(s: State, steps: seq<Step>)
    requires Stuck(s)
    ensures Stuck(Run(s, steps)) && Run(s, steps).begun == s.begun
  {
    if steps != [] { StuckForever(s, steps[..|steps| - 1]); }
  }

  function EndsOf(endings: seq<Ending>): seq<Step> {
    seq(|endings|, i requires 0 <= i < |endings| => End(endings[i]))
  }

  /** From any point of a run that is not stuck, ending the entries at hand in any way that
      stays in the loop drains the queue, and the last entry ever queued is the last begun. */
  lemma Drains(steps: seq<Step>, endings: seq<Ending>)
    requires !Stuck(Run(EMPTY, steps)) && Run(EMPTY, steps).queued != []
    requires |endings| == |Run(EMPTY, steps).queue| && forall e <- endings :: !LeavesLoop(e)
    ensures var s := Run(EMPTY, steps); var t := Run(s, EndsOf(endings));
      t.queue == [] && t.processors == 0 && t.begun != [] && Last(t.begun) == Last(s.queued)
  {
    InvHolds(steps);
    var s := Run(EMPTY, steps);
    var ends := EndsOf(endings);
    if |endings| > 0 {
      assert endings[0] in endings && ends[..1] == [ends[0]] && ends[..1][..0] == [];
      assert Run(s, ends[..1]) == Next(s, ends[0]);
    }
    if |endings| == 2 {
      assert endings[1] in endings && ends[..2] == ends;
      assert Run(s, ends) == Next(Run(s, ends[..1]), ends[1]);
    } else {
      assert |endings| == 1 ==> ends[..1] == ends;
    }
  }

  predicate NoExits(steps: seq<Step>) {
    forall step <- steps :: step.End? ==> !LeavesLoop(step.ending)
  }

  lemma {:induction false} NeverStuck(steps: seq<Step>)
    requires NoExits(steps)
    ensures !Stuck(Run(EMPTY, steps))
  {
    if steps != [] {
      var front, last := steps[..|steps| - 1], steps[|steps| - 1];
      assert last in steps;
      NeverStuck(front);
      StuckIff(front, last);
    }
  }

  lemma {:induction false} QueuedStays(s: State, steps: seq<Step>, entry: Entry)
    requires Queue(entry) in steps
    ensures Run(s, steps).queued != []
  {
    var front, last := steps[..|steps| - 1], steps[|steps| - 1];
    assert steps == front + [last];
    if last != Queue(entry) { QueuedStays(s, front, entry); }
  }

  /** If no action takes an early exit, then in every interleaving, once the actions at hand have
      ended, the queue is empty and the last action ever queued is the last one that was begun. */
  lemma DrainsWithoutExits(steps: seq<Step>, entry: Entry, endings: seq<Ending>)
    requires NoExits(steps) && Queue(entry) in steps
    requires |endings| == |Run(EMPTY, steps).queue| && forall e <- endings :: !LeavesLoop(e)
    ensures var s := Run(EMPTY, steps); var t := Run(s, EndsOf(endings));
      t.queue == [] && t.processors == 0 && s.queued != [] && t.begun != [] && Last(t.begun) == Last(s.queued)
  {
    NeverStuck(steps);
    QueuedStays(EMPTY, steps, entry);
    Drains(steps, endings);
  }

  /** An early exit with a second entry waiting does happen: the second entry is then lost. */
  lemma EarlyReturnLosesTheNext(a: Entry, b: Entry)
    ensures var s := Run(EMPTY, [Queue(a), Queue(b), End(Returned)]);
      Stuck(s) && s.queue == [b] && s.begun == [a]
  {
    var steps := [Queue(a), Queue(b), End(Returned)];
    assert steps[..2] == [Queue(a), Queue(b)] && steps[..2][..1] == [Queue(a)] && [Queue(a)][..0] == [];
    assert Run(EMPTY, [Queue(a)]) == State([a], 1, [a], [a]) by { assert [] + [a] == [a]; }
    assert Run(EMPTY, steps[..2]) == State([a, b], 1, [a, b], [a]) by { assert [a] + [b] == [a, b]; }
  }
}
