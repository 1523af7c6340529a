/**
 What one event does to the consumer of HostedRuntime.dfy, and whose event each journal operation
 comes from, field by field.
 */
module HostedEntries {
  import opened Basics
  import opened HostedRuntime

  /** The two modes a host may name, with the source each one implies. */
  predicate NamesMode(text: string, mode: Mode, source: Source) {
    (text == "structured" && mode == Structured && source == HostStructured) ||
    (text == "interactive" && mode == Interactive && source == Pty)
  }

  /** The item carries this event's own fields. */
  predicate Carries(item: Item, e: Event) {
    match item
    case Started(number, id, command, cwd, mode, source, host, runspace) =>
      e.kind == CommandStarted && id == e.commandID && command == e.command && cwd == e.cwd &&
      host == e.hostID && runspace == e.runspaceID && NamesMode(e.mode, mode, source) &&
      (e.hookSequence == 0 || number == e.hookSequence)
    case OutputSegment(data, from) =>
      e.kind == Output && data == e.data && from == HostStructured
    case Finished(number, id, success, exitCode, interrupted, _, _, host, runspace) =>
      e.kind == CommandFinished && id == e.commandID && success == e.success && success != None &&
      exitCode == e.exitCode && exitCode != None && interrupted == e.interrupted &&
      host == e.hostID && runspace == e.runspaceID && (e.hookSequence == 0 || number == e.hookSequence)
    case Aborted(_, _) => false
  }

  /** The event comes from the host and the runspace that a live, ready consumer is bound to. */
  predicate FromOurs(c: State, e: Event) {
    c.blockID != "" && !c.closed && c.ready && e.hostID != "" && e.runspaceID != "" &&
    e.hostID == c.hostID && e.runspaceID == c.runspaceID
  }

  predicate NotStale(c: State, e: Event) {
    e.hookSequence == 0 || e.hookSequence > c.hookSequence
  }

  /** Exactly when an event is handed on to the journal. */
  predicate HandedOn(c: State, e: Event) {
    FromOurs(c, e) &&
    match e.kind
    case CommandStarted =>
      c.activeID == "" && e.commandID != "" && e.mode in {"structured", "interactive"} && NotStale(c, e)
    case Output => c.activeID != "" && e.commandID == c.activeID && c.activeMode == Structured
    case CommandFinished =>
      c.activeID != "" && e.commandID == c.activeID && e.success != None && e.exitCode != None && NotStale(c, e)
    case _ => false
  }

  /** An event adds one entry, with the journal's answer, exactly when it is handed on; the entry carries
      the event's own fields, and a finish the mode and source of the open command. */
  lemma EventAddsItsEntry(s: System, e: Event, answer: bool)
    ensures var t, c := Next(s, Observe(e, answer)), s.consumer;
      if !HandedOn(c, e) then t.log == s.log
      else
        |t.log| == |s.log| + 1 && t.log[..|s.log|] == s.log &&
        var entry := t.log[|s.log|];
        entry.accepted == answer && Carries(entry.item, e) &&
        (entry.item.Finished? ==> entry.item.mode == c.activeMode && entry.item.source == c.activeSource)
  {
    assert s.log + [] == s.log;
  }

  /** The number an entry gets: the event's own, or for 0 the one after the last. */
  lemma EventNumber(s: System, e: Event, answer: bool)
    requires HandedOn(s.consumer, e) && e.kind != Output
    ensures var t := Next(s, Observe(e, answer));
      && |t.log| == |s.log| + 1 && (t.log[|s.log|].item.Started? || t.log[|s.log|].item.Finished?)
      && t.consumer.hookSequence == t.log[|s.log|].item.number
      && t.log[|s.log|].item.number ==
         if e.hookSequence != 0 then e.hookSequence
         else if s.consumer.hookSequence == 0xFFFF_FFFF_FFFF_FFFF then 0
         else s.consumer.hookSequence + 1
  {}

  /** What an event may bind: a host that is not bound yet, by its hello; a host and a runspace
      together, by its ready, unless another one is bound. */
  predicate BindsHost(c: State, e: Event) {
    c.blockID != "" && !c.closed && e.hostID != "" && (c.hostID == "" || c.hostID == e.hostID) &&
    (e.kind == Hello || BindsRunspace(c, e))
  }

  predicate BindsRunspace(c: State, e: Event) {
    c.blockID != "" && !c.closed && e.kind == RuntimeReady && e.hostID != "" && e.runspaceID != "" &&
    (c.hostID == "" || c.hostID == e.hostID) && (c.ready ==> c.runspaceID == e.runspaceID)
  }

  /** What an event does to the fields besides the number. */
  lemma EventChangesFields(s: System, e: Event, answer: bool)
    ensures var c, d := s.consumer, Next(s, Observe(e, answer)).consumer;
      && d.blockID == c.blockID && d.closed == c.closed
      && d.hostID == (if BindsHost(c, e) then e.hostID else c.hostID)
      && d.runspaceID == (if BindsRunspace(c, e) then e.runspaceID else c.runspaceID)
      && d.ready == (c.ready || BindsRunspace(c, e))
      && d.activeID == (if !HandedOn(c, e) || !answer then c.activeID
                        else if e.kind == CommandStarted then e.commandID
                        else if e.kind == CommandFinished then "" else c.activeID)
      && (HandedOn(c, e) && answer && e.kind == CommandStarted ==> NamesMode(e.mode, d.activeMode, d.activeSource))
      && (HandedOn(c, e) || d.hookSequence == c.hookSequence)
      && ((HandedOn(c, e) && answer && e.kind != Output) ||
          (d.activeMode == c.activeMode && d.activeSource == c.activeSource))
  {}

  /** In every run each journal operation carries the fields of one event that was observed, or is
      an abort. */
  lemma {:induction false} EveryEntryHasItsEvent(blockID: string, steps: seq<Step>, i: nat)
    requires i < |Run(blockID, steps).log|
    ensures var item := Run(blockID, steps).log[i].item;
      item.Aborted? ||
      exists n | 0 <= n < |steps| :: steps[n].Observe? && Carries(item, steps[n].event) &&
        Run(blockID, steps).log[i].accepted == steps[n].answer
  {
    var front, last := steps[..|steps| - 1], steps[|steps| - 1];
    var s := Run(blockID, front);
    if i < |s.log| {
      EveryEntryHasItsEvent(blockID, front, i);
      LastStepKeeps(s, last, i);
      if !s.log[i].item.Aborted? {
        var n :| 0 <= n < |front| && front[n].Observe? && Carries(s.log[i].item, front[n].event) &&
          s.log[i].accepted == front[n].answer;
        assert steps[n] == front[n];
      }
    } else {
      RunOnlyAbortsPending(blockID, front);
      NewEntry(s, last, i);
    }
  }

  lemma LastStepKeeps(s: System, step: Step, i: nat)
    requires i < |s.log|
    ensures i < |Next(s, step).log| && Next(s, step).log[i] == s.log[i]
  {}

  lemma NewEntry(s: System, step: Step, i: nat)
    requires OnlyAbortsPending(s) && |s.log| <= i < |Next(s, step).log|
    ensures var entry := Next(s, step).log[i];
      entry.item.Aborted? ||
      (step.Observe? && Carries(entry.item, step.event) && entry.accepted == step.answer)
  {
    match step
    case Observe(e, answer) => EventAddsItsEntry(s, e, answer);
    case AbortAfterUnlock(k, answer) => assert k < |s.pending| ==> s.pending[k] in s.pending;
    case _ =>
  }

  // ---------------------------------------------------------------- disconnects

  /** A disconnect of a live consumer owes the journal an abort exactly when a structured command is
      open, and the abort names that command and its runspace. */
  lemma DisconnectOwes(s: System)
    ensures var c, t := s.consumer, Next(s, DisconnectUnderLock);
      && t.log == s.log
      && (if c.blockID != "" && !c.closed && c.activeID != "" && c.activeMode == Structured
          then t.pending == s.pending + [Aborted(c.activeID, c.runspaceID)] else t.pending == s.pending)
      && (c.blockID != "" ==> t.consumer.closed)
      && (c.blockID != "" && !c.closed ==> t.consumer.activeID == "" && !t.consumer.ready)
      && t.consumer.hostID == c.hostID && t.consumer.runspaceID == c.runspaceID
  {}
}
