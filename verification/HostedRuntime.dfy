/**
 The hosted-runtime consumer of pkg/commandjournal/hosted_runtime.go: the object with its
 locked methods, and every interleaving of events, disconnects and closes over it.

 The journal is an arbitrary oracle: each `Apply` answers `accepted` or not.  What the
 consumer hands to it is recorded in a log.
 */
module HostedRuntime {
  import opened Basics

  const MAX_UINT64: nat := 0xFFFF_FFFF_FFFF_FFFF

  type Uint64 = n: nat | n <= MAX_UINT64

  datatype Mode = UnknownMode | Structured | Interactive

  datatype Source = UnknownSource | Pty | HostStructured

  datatype Kind = Hello | RuntimeReady | CommandStarted | Output | CommandFinished | OtherKind

  datatype Event = Event(
    kind: Kind, hostID: string, runspaceID: string, commandID: string,
    hookSequence: Uint64, command: string, cwd: string, mode: string, data: string,
    success: Option<bool>, exitCode: Option<int>, interrupted: bool)

  /** What is handed to the journal. */
  datatype Item =
    | Started(number: Uint64, id: string, command: string, cwd: string,
              mode: Mode, source: Source, host: string, runspace: string)
    | OutputSegment(data: string, from: Source)
    | Finished(number: Uint64, id: string, success: Option<bool>, exitCode: Option<int>,
               interrupted: bool, mode: Mode, source: Source, host: string, runspace: string)
    | Aborted(id: string, runspace: string)

  datatype Entry = Entry(item: Item, accepted: bool)

  /** The fields of the consumer. */
  datatype State = State(
    blockID: string, hostID: string, runspaceID: string, ready: bool,
    activeID: string, activeMode: Mode, activeSource: Source,
    hookSequence: Uint64, closed: bool)

  function Initial(blockID: string): State {
    State(blockID, "", "", false, "", UnknownMode, UnknownSource, 0, false)
  }

  // ---------------------------------------------------------------- one event

  predicate ValidIdentity(s: State, e: Event) {
    s.ready && e.hostID != "" && e.runspaceID != "" && e.hostID == s.hostID && e.runspaceID == s.runspaceID
  }

  function HostedMode(mode: string): Option<(Mode, Source)> {
    if mode == "structured" then Some((Structured, HostStructured))
    else if mode == "interactive" then Some((Interactive, Pty))
    else None
  }

  /** The number an event gets, if it is not stale; 0 asks for the next one, which wraps. */
  function AcceptSequence(hookSequence: Uint64, number: Uint64): Option<Uint64> {
    if number == 0 then Some((hookSequence + 1) % (MAX_UINT64 + 1))
    else if number <= hookSequence then None
    else Some(number)
  }

  /** The event opens a command: it gets past every check before the numbering. */
  predicate Opens(s: State, e: Event) {
    e.kind.CommandStarted? && ValidIdentity(s, e) && s.activeID == "" && e.commandID != "" &&
    HostedMode(e.mode).Some?
  }

  predicate Ends(s: State, e: Event) {
    e.kind.CommandFinished? && ValidIdentity(s, e) && s.activeID != "" && e.commandID == s.activeID &&
    e.success.Some? && e.exitCode.Some?
  }

  predicate Live(s: State) {
    s.blockID != "" && !s.closed
  }

  /** The item an event makes the consumer hand to the journal. */
  function ItemFor(s: State, e: Event): Option<Item> {
    if !Live(s) then None
    else
      var number := AcceptSequence(s.hookSequence, e.hookSequence);
      if Opens(s, e) && number.Some? then
        var (mode, source) := HostedMode(e.mode).value;
        Some(Started(number.value, e.commandID, e.command, e.cwd, mode, source, e.hostID, e.runspaceID))
      else if Ends(s, e) && number.Some? then
        Some(Finished(number.value, e.commandID, e.success, e.exitCode, e.interrupted,
                      s.activeMode, s.activeSource, s.hostID, s.runspaceID))
      else if e.kind.Output? && ValidIdentity(s, e) && s.activeID != "" && e.commandID == s.activeID
              && s.activeMode.Structured? then
        Some(OutputSegment(e.data, HostStructured))
      else None
  }

  function After(s: State, e: Event, answer: bool): State {
    if !Live(s) then s
    else match e.kind
      case Hello =>
        if e.hostID == "" || (s.hostID != "" && s.hostID != e.hostID) then s
        else s.(hostID := e.hostID)
      case RuntimeReady =>
        if e.hostID == "" || e.runspaceID == "" || (s.hostID != "" && s.hostID != e.hostID) then s
        else if s.ready && s.runspaceID != e.runspaceID then s
        else s.(hostID := e.hostID, runspaceID := e.runspaceID, ready := true)
      case _ =>
        match ItemFor(s, e)
        case Some(Started(number, id, _, _, mode, source, _, _)) =>
          var t := s.(hookSequence := number);
          if answer then t.(activeID := id, activeMode := mode, activeSource := source) else t
        case Some(Finished(number, _, _, _, _, _, _, _, _)) =>
          var t := s.(hookSequence := number);
          if answer then t.(activeID := "", activeMode := UnknownMode, activeSource := UnknownSource) else t
        case _ => s
  }

  /** The abort a disconnect will hand to the journal once it has released the lock. */
  function AbortFor(s: State): Option<Item> {
    if Live(s) && s.activeID != "" && s.activeMode.Structured? then Some(Aborted(s.activeID, s.runspaceID))
    else None
  }

  function AfterDisconnect(s: State): State {
    if !Live(s) then s
    else s.(closed := true, activeID := "", activeMode := UnknownMode,
            activeSource := UnknownSource, ready := false)
  }

  function AfterClose(s: State): State {
    s.(closed := true, activeID := "")
  }

  function Recorded(item: Option<Item>, answer: bool): seq<Entry> {
    if item.Some? then [Entry(item.value, answer)] else []
  }

  // ---------------------------------------------------------------- the object

  class HostedRuntimeConsumer {
    const blockID: string
    var hostID: string
    var runspaceID: string
    var ready: bool
    var activeID: string
    var activeMode: Mode
    var activeSource: Source
    var hookSequence: Uint64
    var closed: bool
    /** Every call made to the journal, with its answer. */
    ghost var log: seq<Entry>

    constructor (blockID: string)
      ensures Fields() == Initial(blockID) && log == []
    {
      this.blockID := blockID;
      hostID, runspaceID, ready := "", "", false;
      activeID, activeMode, activeSource := "", UnknownMode, UnknownSource;
      hookSequence, closed := 0, false;
      log := [];
    }

    function Fields(): State
      reads this
    {
      State(blockID, hostID, runspaceID, ready, activeID, activeMode, activeSource, hookSequence, closed)
    }

    method AcceptHookSequence(number: Uint64) returns (r: Option<Uint64>)
      modifies this`hookSequence
      ensures r == AcceptSequence(old(hookSequence), number)
      ensures hookSequence == if r.Some? then r.value else old(hookSequence)
    {
      if number == 0 {
        hookSequence := if hookSequence == MAX_UINT64 then 0 else hookSequence + 1;
        return Some(hookSequence);
      }
      if number <= hookSequence {
        return None;
      }
      hookSequence := number;
      return Some(number);
    }

    /** `answer` is what the journal says if it is asked. */
    method ObserveEvent(e: Event, answer: bool)
      modifies this
      ensures Fields() == After(old(Fields()), e, answer)
      ensures log == old(log) + Recorded(ItemFor(old(Fields()), e), answer)
    {
      if blockID == "" || closed {
        return;
      }
      match e.kind
      case Hello =>
        if e.hostID == "" || (hostID != "" && hostID != e.hostID) {
          return;
        }
        hostID := e.hostID;
      case RuntimeReady =>
        if e.hostID == "" || e.runspaceID == "" || (hostID != "" && hostID != e.hostID) {
          return;
        }
        if ready && runspaceID != e.runspaceID {
          return;
        }
        hostID := e.hostID;
        runspaceID := e.runspaceID;
        ready := true;
      case CommandStarted =>
        if !ValidIdentity(Fields(), e) || activeID != "" || e.commandID == "" {
          return;
        }
        var mode := HostedMode(e.mode);
        if mode.None? {
          return;
        }
        var number := AcceptHookSequence(e.hookSequence);
        if number.None? {
          return;
        }
        log := log + [Entry(Started(number.value, e.commandID, e.command, e.cwd, mode.value.0, mode.value.1,
                                    e.hostID, e.runspaceID), answer)];
        if answer {
          activeID, activeMode, activeSource := e.commandID, mode.value.0, mode.value.1;
        }
      case Output =>
        if !ValidIdentity(Fields(), e) || activeID == "" || e.commandID != activeID || activeMode != Structured {
          return;
        }
        log := log + [Entry(OutputSegment(e.data, HostStructured), answer)];
      case CommandFinished =>
        if !ValidIdentity(Fields(), e) || activeID == "" || e.commandID != activeID
           || e.success.None? || e.exitCode.None? {
          return;
        }
        var number := AcceptHookSequence(e.hookSequence);
        if number.None? {
          return;
        }
        log := log + [Entry(Finished(number.value, e.commandID, e.success, e.exitCode, e.interrupted,
                                     activeMode, activeSource, hostID, runspaceID), answer)];
        if answer {
          activeID, activeMode, activeSource := "", UnknownMode, UnknownSource;
        }
      case OtherKind =>
    }

    /** The part of a disconnect that runs under the lock. */
    method Disconnect() returns (abort: Option<Item>)
      modifies this
      ensures Fields() == AfterDisconnect(old(Fields())) && log == old(log)
      ensures abort == AbortFor(old(Fields()))
    {
      if blockID == "" || closed {
        return None;
      }
      closed := true;
      var commandID, mode, runspace := activeID, activeMode, runspaceID;
      activeID, activeMode, activeSource := "", UnknownMode, UnknownSource;
      ready := false;
      if commandID == "" || mode != Structured {
        return None;
      }
      return Some(Aborted(commandID, runspace));
    }

    /** The part of a disconnect that runs after the lock is released. */
    method ApplyAbort(abort: Item, answer: bool)
      modifies this`log
      ensures log == old(log) + [Entry(abort, answer)]
    {
      log := log + [Entry(abort, answer)];
    }

    /** A disconnect that nothing comes between: its two parts, the abort last. */
    method ObserveDisconnect(answer: bool)
      modifies this
      ensures Fields() == AfterDisconnect(old(Fields()))
      ensures log == old(log) + Recorded(AbortFor(old(Fields())), answer)
    {
      var abort := Disconnect();
      if abort.Some? {
        ApplyAbort(abort.value, answer);
      }
    }

    method Close()
      modifies this
      ensures Fields() == AfterClose(old(Fields())) && log == old(log)
    {
      closed := true;
      activeID := "";
    }
  }

  // ---------------------------------------------------------------- every interleaving

  /** The consumer, the disconnects that have released the lock and not yet asked the
      journal, and the journal's log. */
  datatype System = System(consumer: State, pending: seq<Item>, log: seq<Entry>)

  datatype Step =
    | Observe(event: Event, answer: bool)
    | DisconnectUnderLock
    | AbortAfterUnlock(which: nat, answer: bool)
    | CloseConsumer

  function Next(s: System, step: Step): System {
    match step
    case Observe(e, answer) =>
      System(After(s.consumer, e, answer), s.pending,
             s.log + Recorded(ItemFor(s.consumer, e), answer))
    case DisconnectUnderLock =>
      var abort := AbortFor(s.consumer);
      System(AfterDisconnect(s.consumer),
             s.pending + (if abort.Some? then [abort.value] else []), s.log)
    case AbortAfterUnlock(k, answer) =>
      if k >= |s.pending| then s
      else System(s.consumer, s.pending[..k] + s.pending[k + 1..], s.log + [Entry(s.pending[k], answer)])
    case CloseConsumer =>
      System(AfterClose(s.consumer), s.pending, s.log)
  }

  function Run(blockID: string, steps: seq<Step>): System {
    if steps == [] then System(Initial(blockID), [], [])
    else Next(Run(blockID, steps[..|steps| - 1]), steps[|steps| - 1])
  }

  // ---------------------------------------------------------------- what a log may look like

  /** A reading of a log that knows nothing of the consumer: accepted starts and finishes
      alternate, output comes only inside a structured command, a finish repeats the mode, source
      and identity of its start, and an abort ends an open structured command and the log. */
  datatype Reading = Idle | Open(start: Item) | Over | Bad

  function Read(r: Reading, e: Entry): Reading {
    match (r, e.item)
    case (Idle, Started(_, id, _, _, mode, source, _, _)) =>
      if id == "" || (mode, source) !in {(Structured, HostStructured), (Interactive, Pty)} then Bad
      else if e.accepted then Open(e.item) else Idle
    case (Open(start), OutputSegment(_, from)) =>
      if start.Started? && start.mode.Structured? && from.HostStructured? then r else Bad
    case (Open(start), Finished(_, id, _, _, _, mode, source, host, runspace)) =>
      if !start.Started? || id != start.id || mode != start.mode || source != start.source
         || host != start.host || runspace != start.runspace then Bad
      else if e.accepted then Idle else r
    case (Open(start), Aborted(id, runspace)) =>
      if start.Started? && start.mode.Structured? && id == start.id && runspace == start.runspace
      then Over else Bad
    case _ => Bad
  }

  function ReadLog(log: seq<Entry>): Reading {
    if log == [] then Idle else Read(ReadLog(log[..|log| - 1]), log[|log| - 1])
  }

  predicate CarriesIdentity(item: Item, host: string, runspace: string) {
    match item
    case Started(_, _, _, _, _, _, h, r) => h == host && r == runspace
    case Finished(_, _, _, _, _, _, _, h, r) => h == host && r == runspace
    case Aborted(_, r) => r == runspace
    case OutputSegment(_, _) => true
  }

  ghost predicate Inv(s: System) {
    && var c := s.consumer;
    && (c.runspaceID != "" ==> c.hostID != "")
    && (c.ready ==> c.runspaceID != "")
    && (!c.closed ==> (c.ready <==> c.runspaceID != ""))
    && (c.closed ==> c.activeID == "")
    && (s.pending != [] ==> c.closed)
    && (forall e <- s.log :: c.runspaceID != "" && CarriesIdentity(e.item, c.hostID, c.runspaceID))
    && var r := ReadLog(s.log);
    && (!c.closed && c.activeID == "" ==> r == Idle)
    && (!c.closed && c.activeID != "" ==>
          r.Open? && r.start.Started? && r.start.id == c.activeID && r.start.mode == c.activeMode
          && r.start.source == c.activeSource && r.start.host == c.hostID && r.start.runspace == c.runspaceID)
    && (s.pending != [] ==>
          r.Open? && r.start.Started? && r.start.mode.Structured?
          && r.start.runspace == c.runspaceID != ""
          && s.pending == [Aborted(r.start.id, r.start.runspace)])
    && !r.Bad?
  }

  lemma ReadMore(log: seq<Entry>, e: Entry)
    ensures ReadLog(log + [e]) == Read(ReadLog(log), e)
  {
    assert (log + [e])[..|log|] == log;
  }

  /** What an event does, by the item it causes. */
  lemma EventEffect(s: State, e: Event, answer: bool)
    ensures var t, item := After(s, e, answer), ItemFor(s, e);
      && t.closed == s.closed && t.blockID == s.blockID
      && (item.Some? ==> Live(s) && ValidIdentity(s, e) && s.hostID == e.hostID && s.runspaceID == e.runspaceID)
      && (item.Some? && item.value.Started? ==>
            Opens(s, e) && t == s.(hookSequence := item.value.number,
              activeID := if answer then item.value.id else s.activeID,
              activeMode := if answer then item.value.mode else s.activeMode,
              activeSource := if answer then item.value.source else s.activeSource))
      && (item.Some? && item.value.Finished? ==>
            Ends(s, e) && t == s.(hookSequence := item.value.number,
              activeID := if answer then "" else s.activeID,
              activeMode := if answer then UnknownMode else s.activeMode,
              activeSource := if answer then UnknownSource else s.activeSource))
      && (item.Some? && item.value.OutputSegment? ==> t == s && s.activeID != "")
      && (item.Some? ==> !item.value.Aborted?)
      && (item.None? ==>
            t == s.(hostID := t.hostID, runspaceID := t.runspaceID, ready := t.ready) &&
            (t == s || (Live(s) && t.hostID != "" && (s.hostID != "" ==> t.hostID == s.hostID))) &&
            ((t.runspaceID == s.runspaceID && t.ready == s.ready) ||
             (Live(s) && t.runspaceID != "" && t.hostID != "" && t.ready && (s.ready ==> t.runspaceID == s.runspaceID))))
  {}

  lemma QuietEventKeepsInv(s: System, e: Event, answer: bool)
    requires Inv(s) && ItemFor(s.consumer, e).None?
    ensures Inv(Next(s, Observe(e, answer)))
  {
    EventEffect(s.consumer, e, answer);
    assert s.log + [] == s.log;
  }

  lemma StartKeepsInv(s: System, e: Event, answer: bool)
    requires Inv(s) && ItemFor(s.consumer, e).Some? && ItemFor(s.consumer, e).value.Started?
    ensures Inv(Next(s, Observe(e, answer)))
  {
    EventEffect(s.consumer, e, answer);
    ReadMore(s.log, Entry(ItemFor(s.consumer, e).value, answer));
  }

  lemma FinishKeepsInv(s: System, e: Event, answer: bool)
    requires Inv(s) && ItemFor(s.consumer, e).Some? && ItemFor(s.consumer, e).value.Finished?
    ensures Inv(Next(s, Observe(e, answer)))
  {
    EventEffect(s.consumer, e, answer);
    ReadMore(s.log, Entry(ItemFor(s.consumer, e).value, answer));
  }

  lemma OutputKeepsInv(s: System, e: Event, answer: bool)
    requires Inv(s) && ItemFor(s.consumer, e).Some? && ItemFor(s.consumer, e).value.OutputSegment?
    ensures Inv(Next(s, Observe(e, answer)))
  {
    EventEffect(s.consumer, e, answer);
    ReadMore(s.log, Entry(ItemFor(s.consumer, e).value, answer));
  }

  lemma AbortKeepsInv(s: System, k: nat, answer: bool)
    requires Inv(s)
    ensures Inv(Next(s, AbortAfterUnlock(k, answer)))
  {
    if k < |s.pending| {
      ReadMore(s.log, Entry(s.pending[k], answer));
    }
  }

  lemma InvKept(s: System, step: Step)
    requires Inv(s)
    ensures Inv(Next(s, step))
  {
    match step
    case Observe(e, answer) =>
      EventEffect(s.consumer, e, answer);
      var item := ItemFor(s.consumer, e);
      if item.None? { QuietEventKeepsInv(s, e, answer); }
      else if item.value.Started? { StartKeepsInv(s, e, answer); }
      else if item.value.Finished? { FinishKeepsInv(s, e, answer); }
      else { OutputKeepsInv(s, e, answer); }
    case AbortAfterUnlock(k, answer) => AbortKeepsInv(s, k, answer);
    case _ =>
  }

  lemma {:induction false} InvHolds(blockID: string, steps: seq<Step>)
    ensures Inv(Run(blockID, steps))
  {
    if steps != [] {
      InvHolds(blockID, steps[..|steps| - 1]);
      InvKept(Run(blockID, steps[..|steps| - 1]), steps[|steps| - 1]);
    }
  }

  // ---------------------------------------------------------------- main results

  /** In every run and for any answers, the log reads well. */
  lemma LogReadsWell(blockID: string, steps: seq<Step>)
    ensures !ReadLog(Run(blockID, steps).log).Bad?
  {
    InvHolds(blockID, steps);
  }

  lemma {:induction false} BadStays(log: seq<Entry>, n: nat)
    requires n <= |log| && ReadLog(log[..n]).Bad?
    ensures ReadLog(log).Bad?
  {
    if n == |log| {
      assert log[..n] == log;
    } else {
      assert log[..|log| - 1][..n] == log[..n];
      BadStays(log[..|log| - 1], n);
    }
  }

  lemma ReadAt(log: seq<Entry>, i: nat)
    requires i < |log|
    ensures ReadLog(log[..i + 1]) == Read(ReadLog(log[..i]), log[i])
  {
    assert log[..i + 1] == log[..i] + [log[i]];
    ReadMore(log[..i], log[i]);
  }

  /** An abort is the last entry of a log that reads well, and what it ends is the
      structured command open at that point. */
  lemma {:induction false} AbortEndsLog(log: seq<Entry>, i: nat)
    requires !ReadLog(log).Bad? && i < |log| && log[i].item.Aborted?
    ensures i == |log| - 1
    ensures var r := ReadLog(log[..i]);
            r.Open? && r.start.Started? && r.start.mode.Structured? && r.start.id == log[i].item.id
  {
    ReadAt(log, i);
    if ReadLog(log[..i + 1]).Bad? { BadStays(log, i + 1); }
    if i + 1 < |log| {
      ReadAt(log, i + 1);
      BadStays(log, i + 2);
    }
  }

  lemma RunMore(blockID: string, steps: seq<Step>, step: Step)
    ensures Run(blockID, steps + [step]) == Next(Run(blockID, steps), step)
  {
    assert (steps + [step])[..|steps|] == steps;
  }

  /** One more step at the end of a continuation. */
  lemma RunContinued(blockID: string, steps: seq<Step>, more: seq<Step>)
    requires more != []
    ensures var front := more[..|more| - 1];
      Run(blockID, steps + more) == Next(Run(blockID, steps + front), more[|more| - 1])
  {
    var front := more[..|more| - 1];
    assert steps + more == steps + front + [more[|more| - 1]];
    RunMore(blockID, steps + front, more[|more| - 1]);
  }

  lemma {:induction false} LogGrows(blockID: string, steps: seq<Step>, more: seq<Step>)
    ensures var before, after := Run(blockID, steps).log, Run(blockID, steps + more).log;
            |before| <= |after| && after[..|before|] == before
  {
    if more == [] {
      assert steps + more == steps;
    } else {
      assert (steps + more)[..|steps + more| - 1] == steps + more[..|more| - 1];
      LogGrows(blockID, steps, more[..|more| - 1]);
    }
  }

  /** Once an abort has been handed to the journal, nothing is, whatever happens next: in
      particular there is never a second abort. */
  lemma AbortIsTheLastOperation(blockID: string, steps: seq<Step>, more: seq<Step>, i: nat)
    requires i < |Run(blockID, steps).log| && Run(blockID, steps).log[i].item.Aborted?
    ensures Run(blockID, steps + more).log == Run(blockID, steps).log
  {
    var before, after := Run(blockID, steps).log, Run(blockID, steps + more).log;
    LogGrows(blockID, steps, more);
    LogReadsWell(blockID, steps + more);
    assert after[i] == after[..|before|][i];
    AbortEndsLog(after, i);
  }

  lemma ClosedStep(s: System, step: Step)
    requires s.consumer.closed && s.pending == []
    ensures var t := Next(s, step); t.consumer.closed && t.pending == [] && t.log == s.log
  {
    assert s.log + [] == s.log;
  }

  /** A `Close`, or a disconnect with no structured command open, ends the log at once. */
  lemma {:induction false} ClosedIsSilent(blockID: string, steps: seq<Step>, more: seq<Step>)
    requires Run(blockID, steps).consumer.closed && Run(blockID, steps).pending == []
    ensures Run(blockID, steps + more).consumer.closed && Run(blockID, steps + more).pending == []
    ensures Run(blockID, steps + more).log == Run(blockID, steps).log
  {
    if more == [] {
      assert steps + more == steps;
    } else {
      var front := more[..|more| - 1];
      ClosedIsSilent(blockID, steps, front);
      RunContinued(blockID, steps, more);
      ClosedStep(Run(blockID, steps + front), more[|more| - 1]);
    }
  }

  /** Accepted starts, accepted finishes and aborts, in order. */
  function Lifecycle(log: seq<Entry>): seq<Item> {
    if log == [] then []
    else
      var e := log[|log| - 1];
      Lifecycle(log[..|log| - 1]) +
      if e.item.Aborted? || (e.accepted && !e.item.OutputSegment?) then [e.item] else []
  }

  predicate Closes(start: Item, end: Item) {
    start.Started? &&
    match end
    case Finished(_, id, _, _, _, mode, source, host, runspace) =>
      id == start.id && mode == start.mode && source == start.source &&
      host == start.host && runspace == start.runspace
    case Aborted(id, runspace) =>
      id == start.id && runspace == start.runspace && start.mode.Structured?
    case _ => false
  }

  lemma {:induction false} ReadableAlternates(log: seq<Entry>)
    requires !ReadLog(log).Bad?
    ensures var l := Lifecycle(log);
      && (forall i | 0 <= i < |l| && i % 2 == 0 :: l[i].Started?)
      && (forall i | 0 <= i < |l| && i % 2 == 1 :: Closes(l[i - 1], l[i]))
      && (if ReadLog(log).Open? then |l| % 2 == 1 && l[|l| - 1] == ReadLog(log).start else |l| % 2 == 0)
  {
    if log != [] {
      ReadableAlternates(log[..|log| - 1]);
    }
  }

  /** Accepted operations alternate start, end, start, end, ...: at most one command is open
      at any time, and each end carries the mode, source and identity of its own start. */
  lemma CommandsAlternate(blockID: string, steps: seq<Step>, i: nat)
    requires i < |Lifecycle(Run(blockID, steps).log)|
    ensures var l := Lifecycle(Run(blockID, steps).log);
            if i % 2 == 0 then l[i].Started? else Closes(l[i - 1], l[i])
  {
    LogReadsWell(blockID, steps);
    ReadableAlternates(Run(blockID, steps).log);
  }

  predicate Bound(c: State) {
    c.runspaceID != "" && !c.closed ==> c.ready
  }

  predicate KeepsIdentity(c: State, d: State) {
    (c.hostID != "" ==> d.hostID == c.hostID) && (c.runspaceID != "" ==> d.runspaceID == c.runspaceID)
  }

  lemma IdentityStep(s: System, step: Step)
    requires Bound(s.consumer)
    ensures KeepsIdentity(s.consumer, Next(s, step).consumer)
  {
    if step.Observe? { EventEffect(s.consumer, step.event, step.answer); }
  }

  lemma RunBound(blockID: string, steps: seq<Step>)
    ensures Bound(Run(blockID, steps).consumer)
  {
    InvHolds(blockID, steps);
  }

  /** A host and a runspace, once bound, stay bound through every continuation. */
  lemma {:induction false} IdentityBoundOnce(blockID: string, steps: seq<Step>, more: seq<Step>)
    ensures KeepsIdentity(Run(blockID, steps).consumer, Run(blockID, steps + more).consumer)
  {
    if more == [] {
      assert steps + more == steps;
    } else {
      var front := more[..|more| - 1];
      IdentityBoundOnce(blockID, steps, front);
      RunContinued(blockID, steps, more);
      RunBound(blockID, steps + front);
      IdentityStep(Run(blockID, steps + front), more[|more| - 1]);
    }
  }

  /** Every operation ever handed to the journal carries the one host and runspace. */
  lemma EveryItemCarriesIdentity(blockID: string, steps: seq<Step>, i: nat)
    requires i < |Run(blockID, steps).log|
    ensures var s := Run(blockID, steps);
      s.consumer.runspaceID != "" && CarriesIdentity(s.log[i].item, s.consumer.hostID, s.consumer.runspaceID)
  {
    InvHolds(blockID, steps);
    assert Run(blockID, steps).log[i] in Run(blockID, steps).log;
  }

  /** An event of another host, or of another runspace once one is bound, does nothing. */
  lemma {:induction false} ForeignEventsFailClosed(blockID: string, steps: seq<Step>, e: Event, answer: bool)
    requires var c := Run(blockID, steps).consumer;
      (c.hostID != "" && e.hostID != c.hostID) ||
      (c.runspaceID != "" && e.runspaceID != c.runspaceID && !e.kind.Hello?)
    ensures var s := Run(blockID, steps); Next(s, Observe(e, answer)) == s
  {
    InvHolds(blockID, steps);
    var s := Run(blockID, steps);
    assert s.log + [] == s.log;
  }

  // ---------------------------------------------------------------- hook sequences

  function Numbers(log: seq<Entry>): seq<nat> {
    if log == [] then []
    else
      var item := log[|log| - 1].item;
      Numbers(log[..|log| - 1]) +
      if item.Started? || item.Finished? then [item.number] else []
  }

  predicate Increasing(ns: seq<nat>) {
    forall i, j | 0 <= i < j < |ns| :: ns[i] < ns[j]
  }

  /** The step asks for the next number when the counter has no next one. */
  predicate Wraps(s: System, step: Step) {
    step.Observe? && Live(s.consumer) &&
    (Opens(s.consumer, step.event) || Ends(s.consumer, step.event)) &&
    step.event.hookSequence == 0 && s.consumer.hookSequence == MAX_UINT64
  }

  predicate SomeStepWraps(blockID: string, steps: seq<Step>) {
    steps != [] &&
    (SomeStepWraps(blockID, steps[..|steps| - 1]) ||
     Wraps(Run(blockID, steps[..|steps| - 1]), steps[|steps| - 1]))
  }

  lemma NumbersMore(log: seq<Entry>, e: Entry)
    ensures Numbers(log + [e]) ==
            Numbers(log) + if e.item.Started? || e.item.Finished? then [e.item.number] else []
  {
    assert (log + [e])[..|log|] == log;
  }

  lemma EventNumbers(s: State, e: Event, answer: bool)
    ensures var item, t := ItemFor(s, e), After(s, e, answer);
      if item.Some? && (item.value.Started? || item.value.Finished?) then
        t.hookSequence == item.value.number &&
        (if Live(s) && (Opens(s, e) || Ends(s, e)) && e.hookSequence == 0 && s.hookSequence == MAX_UINT64
         then item.value.number == 0 else item.value.number > s.hookSequence)
      else
        t.hookSequence == s.hookSequence &&
        !(Live(s) && (Opens(s, e) || Ends(s, e)) && e.hookSequence == 0)
  {
    EventEffect(s, e, answer);
  }

  predicate OnlyAbortsPending(s: System) {
    forall item <- s.pending :: item.Aborted?
  }

  lemma RunOnlyAbortsPending(blockID: string, steps: seq<Step>)
    ensures OnlyAbortsPending(Run(blockID, steps))
  {
    InvHolds(blockID, steps);
  }

  lemma StepNumbers(s: System, step: Step)
    requires OnlyAbortsPending(s)
    ensures var t := Next(s, step); var ns, ms := Numbers(s.log), Numbers(t.log);
      (ms == ns && t.consumer.hookSequence == s.consumer.hookSequence && !Wraps(s, step)) ||
      (ms == ns + [t.consumer.hookSequence] &&
       if Wraps(s, step) then s.consumer.hookSequence == MAX_UINT64 && t.consumer.hookSequence == 0
       else t.consumer.hookSequence > s.consumer.hookSequence)
  {
    match step
    case Observe(e, answer) =>
      EventNumbers(s.consumer, e, answer);
      var item := ItemFor(s.consumer, e);
      if item.Some? {
        NumbersMore(s.log, Entry(item.value, answer));
      } else {
        assert s.log + [] == s.log;
      }
      assert Numbers(s.log) + [] == Numbers(s.log);
    case AbortAfterUnlock(k, answer) =>
      if k < |s.pending| {
        assert s.pending[k] in s.pending;
        NumbersMore(s.log, Entry(s.pending[k], answer));
        assert Numbers(s.log) + [] == Numbers(s.log);
      }
    case _ =>
  }

  lemma IncreasingMore(ns: seq<nat>, n: nat)
    ensures Increasing(ns + [n]) <==> Increasing(ns) && (ns != [] ==> ns[|ns| - 1] < n)
  {
    var ms := ns + [n];
    assert ms[..|ns|] == ns;
    if Increasing(ms) {
      forall i, j | 0 <= i < j < |ns| ensures ns[i] < ns[j] { assert ms[i] < ms[j]; }
      assert ns != [] ==> ms[|ns| - 1] < ms[|ns|];
    }
  }

  /** The counter holds the last number, and the numbers increase unless one wrapped. */
  predicate NumbersOk(s: System, wrapped: bool) {
    var ns := Numbers(s.log);
    && (Increasing(ns) <==> !wrapped)
    && s.consumer.hookSequence == if ns == [] then 0 else ns[|ns| - 1]
  }

  lemma NumbersKept(s: System, step: Step, wrapped: bool)
    requires OnlyAbortsPending(s) && NumbersOk(s, wrapped)
    ensures NumbersOk(Next(s, step), wrapped || Wraps(s, step))
  {
    StepNumbers(s, step);
    IncreasingMore(Numbers(s.log), Next(s, step).consumer.hookSequence);
  }

  /** The hook sequences handed to the journal, accepted or not, strictly increase exactly
      when the 64-bit counter never wraps. */
  lemma {:induction false} NumbersIncreaseUnlessWrapped(blockID: string, steps: seq<Step>)
    ensures NumbersOk(Run(blockID, steps), SomeStepWraps(blockID, steps))
    ensures Increasing(Numbers(Run(blockID, steps).log)) <==> !SomeStepWraps(blockID, steps)
  {
    if steps != [] {
      var front := steps[..|steps| - 1];
      NumbersIncreaseUnlessWrapped(blockID, front);
      RunOnlyAbortsPending(blockID, front);
      NumbersKept(Run(blockID, front), steps[|steps| - 1], SomeStepWraps(blockID, front));
    }
  }

  lemma RunOn(blockID: string, steps: seq<Step>, step: Step, all: seq<Step>)
    requires all == steps + [step]
    ensures Run(blockID, all) == Next(Run(blockID, steps), step)
  {
    RunMore(blockID, steps, step);
  }

  lemma NumbersOfTwo(a: Entry, b: Entry)
    requires a.item.Started? && a.item.number == MAX_UINT64 && b.item.Finished? && b.item.number == 0
    ensures Numbers([a, b]) == [MAX_UINT64, 0]
  {
    NumbersMore([], a);
    NumbersMore([a], b);
    assert [] + [a] == [a] && [a] + [b] == [a, b];
  }

  const READY := Event(RuntimeReady, "h", "r", "", 0, "", "", "", "", None, None, false)
  const START := Event(CommandStarted, "h", "r", "c", MAX_UINT64, "", "", "structured", "", None, None, false)
  const FINISH := Event(CommandFinished, "h", "r", "c", 0, "", "", "", "", Some(true), Some(0), false)
  const BOUND := State("block", "h", "r", true, "", UnknownMode, UnknownSource, 0, false)
  const OPEN := State("block", "h", "r", true, "c", Structured, HostStructured, MAX_UINT64, false)
  const STARTED := Started(MAX_UINT64, "c", "", "", Structured, HostStructured, "h", "r")
  const FINISHED := Finished(0, "c", Some(true), Some(0), false, Structured, HostStructured, "h", "r")

  lemma StartAtTheTop()
    ensures After(Initial("block"), READY, true) == BOUND && ItemFor(Initial("block"), READY) == None
    ensures ItemFor(BOUND, START) == Some(STARTED)
  {}

  lemma OpenAtTheTop()
    ensures After(BOUND, START, true) == OPEN
  {
    StartAtTheTop();
  }

  lemma FinishAtTheTop()
    ensures ItemFor(OPEN, FINISH) == Some(FINISHED)
  {}

  /** A command numbered 2^64-1 by the host, finished without a number, wraps the counter:
      the journal is handed 2^64-1 and then 0. */
  lemma WrappingRun()
    ensures Numbers(Run("block", [Observe(READY, true), Observe(START, true), Observe(FINISH, true)]).log)
            == [MAX_UINT64, 0]
  {
    StartAtTheTop();
    OpenAtTheTop();
    FinishAtTheTop();
    WrappingSteps(Observe(READY, true), Observe(START, true), Observe(FINISH, true),
                  BOUND, OPEN, Entry(STARTED, true), Entry(FINISHED, true));
  }

  lemma WrappingSteps(ready: Step, start: Step, finish: Step, bound: State, open: State, a: Entry, b: Entry)
    requires Next(Run("block", []), ready) == System(bound, [], [])
    requires Next(System(bound, [], []), start) == System(open, [], [a])
    requires Next(System(open, [], [a]), finish).log == [a, b]
    requires a.item.Started? && a.item.number == MAX_UINT64 && b.item.Finished? && b.item.number == 0
    ensures Numbers(Run("block", [ready, start, finish]).log) == [MAX_UINT64, 0]
  {
    RunOn("block", [], ready, [ready]);
    RunOn("block", [ready], start, [ready, start]);
    RunOn("block", [ready, start], finish, [ready, start, finish]);
    NumbersOfTwo(a, b);
  }
}
