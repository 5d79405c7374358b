/** The one-slot mailbox between a script and Fluxbox, as values: the root window's
    command slot and result property, what Fluxbox is executing, and the clock.
    Fluxbox's own steps may happen at any time; only one script writes the slot. */
module Mailbox {
  import opened Options

  const TEST := "ClientPatternTest "

  predicate IsTest(command: string) {
    TEST <= command
  }

  /** A command Fluxbox has read, by its position among all commands it has read. */
  datatype Execution = Execution(order: nat, command: string, answered: bool)

  /** The result property, with the position of the command that produced it. */
  datatype Answer = Answer(order: nat, text: string)

  datatype World = World(slot: Option<string>, running: Option<Execution>, answer: Option<Answer>,
                         sent: seq<string>, consumed: seq<string>, clock: real)

  /** Fluxbox reads and deletes the slot; writes a test's result; ends a command; time passes. */
  datatype Event = Read | Reply(text: string) | Finish | Pass(seconds: real)

  function Step(w: World, e: Event): World {
    match e
    case Read =>
      if w.slot.Some? && w.running.None? then
        w.(slot := None,
           running := Some(Execution(|w.consumed|, w.slot.value, false)),
           consumed := w.consumed + [w.slot.value])
      else w
    case Reply(text) =>
      if w.running.Some? && IsTest(w.running.value.command) && !w.running.value.answered then
        w.(answer := Some(Answer(w.running.value.order, text)),
           running := Some(w.running.value.(answered := true)))
      else w
    case Finish =>
      if w.running.Some? && (IsTest(w.running.value.command) ==> w.running.value.answered)
      then w.(running := None) else w
    case Pass(seconds) =>
      if seconds > 0.0 then w.(clock := w.clock + seconds) else w
  }

  function Run(w: World, events: seq<Event>): World
    decreases |events|
  {
    if events == [] then w else Run(Step(w, events[0]), events[1..])
  }

  /** `w'` is reached from `w` by steps of Fluxbox and the clock alone. */
  ghost predicate Later(w: World, w': World) {
    exists events :: Run(w, events) == w'
  }

  lemma {:induction false} RunConcat(w: World, a: seq<Event>, b: seq<Event>)
    ensures Run(w, a + b) == Run(Run(w, a), b)
    decreases |a|
  {
    if a == [] {
      assert a + b == b;
    } else {
      assert (a + b)[1..] == a[1..] + b;
      RunConcat(Step(w, a[0]), a[1..], b);
    }
  }

  lemma RunIsLater(w: World, events: seq<Event>)
    ensures Later(w, Run(w, events))
  {
  }

  lemma LaterSelf(w: World)
    ensures Later(w, w)
  {
    assert Run(w, []) == w;
  }

  lemma LaterTrans(w0: World, w1: World, w2: World)
    requires Later(w0, w1) && Later(w1, w2)
    ensures Later(w0, w2)
  {
    var a :| Run(w0, a) == w1;
    var b :| Run(w1, b) == w2;
    RunConcat(w0, a, b);
  }

  /** The worlds `seen` come one after another between `w` and `w'`. */
  ghost predicate InTurn(w: World, seen: seq<World>, w': World) {
    if seen == [] then Later(w, w')
    else
      var last := seen[|seen| - 1];
      InTurn(w, seen[..|seen| - 1], last) && Later(last, w')
  }

  lemma {:induction false} InTurnLater(w: World, seen: seq<World>, w': World, w'': World)
    requires InTurn(w, seen, w') && Later(w', w'')
    ensures InTurn(w, seen, w'')
  {
    LaterTrans(if seen == [] then w else seen[|seen| - 1], w', w'');
  }

  lemma {:induction false} InTurnIsLater(w: World, seen: seq<World>, w': World)
    requires InTurn(w, seen, w')
    ensures Later(w, w')
  {
    if seen != [] {
      var last := seen[|seen| - 1];
      InTurnIsLater(w, seen[..|seen| - 1], last);
      LaterTrans(w, last, w');
    }
  }

  lemma SeenInTurn(w: World, seen: seq<World>, w': World)
    requires InTurn(w, seen, w')
    ensures InTurn(w, seen + [w'], w')
  {
    assert (seen + [w'])[..|seen|] == seen;
    LaterSelf(w');
  }

  // ---------------------------------------------------------- the script's steps

  /** fluxbox-remote stores its command whether or not the slot is empty. */
  function Write(w: World, command: string): World {
    w.(slot := Some(command), sent := w.sent + [command])
  }

  function RemoveResult(w: World): World {
    w.(answer := None)
  }

  // ------------------------------------------------------------------ invariant

  function Slot(w: World): seq<string> {
    if w.slot.Some? then [w.slot.value] else []
  }

  /** Everything sent has been read, in order and once, except what is still in the slot. */
  predicate Conserved(w: World) {
    w.sent == w.consumed + Slot(w)
  }

  predicate Valid(w: World) {
    && Conserved(w)
    && (w.running.Some? ==>
          && w.running.value.order + 1 == |w.consumed|
          && w.running.value.command == w.consumed[w.running.value.order])
    && (w.answer.Some? ==>
          && w.answer.value.order < |w.consumed|
          && IsTest(w.consumed[w.answer.value.order])
          && (w.running.Some? && w.running.value.order == w.answer.value.order ==> w.running.value.answered))
  }

  /** What Fluxbox's steps can do to the slot and the log. */
  predicate Reads(w: World, w': World) {
    || (w'.slot == w.slot && w'.consumed == w.consumed)
    || (w.slot.Some? && w'.slot.None? && w'.consumed == w.consumed + [w.slot.value])
  }

  lemma StepKeeps(w: World, e: Event)
    requires Valid(w)
    ensures var w' := Step(w, e);
      && Valid(w') && w'.sent == w.sent && w'.clock >= w.clock && Reads(w, w')
  {
  }

  lemma {:induction false} RunKeeps(w: World, events: seq<Event>)
    requires Valid(w)
    ensures var w' := Run(w, events);
      && Valid(w') && w'.sent == w.sent && w'.clock >= w.clock && Reads(w, w')
    decreases |events|
  {
    if events != [] {
      StepKeeps(w, events[0]);
      RunKeeps(Step(w, events[0]), events[1..]);
    }
  }

  /** However Fluxbox's steps fall, no command is lost, repeated or reordered. */
  lemma LaterKeeps(w: World, w': World)
    requires Valid(w) && Later(w, w')
    ensures Valid(w') && w'.sent == w.sent && w'.clock >= w.clock && Reads(w, w')
  {
    var events :| Run(w, events) == w';
    RunKeeps(w, events);
  }

  /** A write keeps the account of every command exactly when the slot is empty: one that
      finds a command there destroys it. This is why a second sender is excluded. */
  lemma WriteConservesIff(w: World, command: string)
    requires Conserved(w)
    ensures Conserved(Write(w, command)) <==> w.slot.None?
    ensures w.slot.None? && Valid(w) ==> Valid(Write(w, command))
  {
  }

  // ------------------------------------------------------------- whole runs

  /** Single steps of the one sending script and of everything around it. */
  datatype Act = Env(event: Event) | Poll | Put(command: string) | Forget

  /** `free`: the last poll saw an empty slot and nothing was written since. */
  datatype Session = Session(world: World, free: bool)

  function Do(s: Session, a: Act): Session {
    match a
    case Env(event) => s.(world := Step(s.world, event))
    case Poll => s.(free := s.world.slot.None?)
    case Put(command) => Session(Write(s.world, command), false)
    case Forget => s.(world := RemoveResult(s.world))
  }

  function DoAll(s: Session, acts: seq<Act>): Session
    decreases |acts|
  {
    if acts == [] then s else DoAll(Do(s, acts[0]), acts[1..])
  }

  /** The script writes only after a poll that saw the slot empty. */
  predicate Polite(s: Session, acts: seq<Act>)
    decreases |acts|
  {
    acts == [] || ((acts[0].Put? ==> s.free) && Polite(Do(s, acts[0]), acts[1..]))
  }

  function Puts(acts: seq<Act>): seq<string> {
    if acts == [] then []
    else Own(acts[0]) + Puts(acts[1..])
  }

  function Own(a: Act): seq<string> {
    if a.Put? then [a.command] else []
  }

  /** Over every run, whatever happens between any two steps of the script: each command it
      wrote was read once and in order, or is the one still in the slot; reading only grows. */
  lemma {:induction false} EveryRunConserves(s: Session, acts: seq<Act>)
    requires Valid(s.world) && (s.free ==> s.world.slot.None?) && Polite(s, acts)
    ensures var s' := DoAll(s, acts);
      && Valid(s'.world) && (s'.free ==> s'.world.slot.None?)
      && s'.world.sent == s.world.sent + Puts(acts)
      && s.world.consumed <= s'.world.consumed <= s.world.sent + Puts(acts)
    decreases |acts|
  {
    if acts == [] {
      assert s.world.sent + Puts(acts) == s.world.sent;
    } else {
      DoKeeps(s, acts[0]);
      EveryRunConserves(Do(s, acts[0]), acts[1..]);
      assert s.world.sent + (Own(acts[0]) + Puts(acts[1..])) == (s.world.sent + Own(acts[0])) + Puts(acts[1..]);
    }
  }

  lemma DoKeeps(s: Session, a: Act)
    requires Valid(s.world) && (s.free ==> s.world.slot.None?) && (a.Put? ==> s.free)
    ensures var s' := Do(s, a);
      && Valid(s'.world) && (s'.free ==> s'.world.slot.None?)
      && s'.world.sent == s.world.sent + Own(a)
      && s.world.consumed <= s'.world.consumed
  {
    match a {
      case Env(event) => StepKeeps(s.world, event);
      case Put(command) => WriteConservesIff(s.world, command);
      case _ =>
    }
    assert a.Put? || s.world.sent + Own(a) == s.world.sent;
  }

  function WriteAll(w: World, commands: seq<string>): World
    decreases |commands|
  {
    if commands == [] then w else WriteAll(Write(w, commands[0]), commands[1..])
  }

  /** Bare sends to a stalled Fluxbox: it will ever read only the last of the series. */
  lemma {:induction false} BareSendsKeepOnlyTheLast(w: World, commands: seq<string>, events: seq<Event>)
    requires Valid(w) && commands != []
    ensures Run(WriteAll(w, commands), events).consumed <= w.consumed + [commands[|commands| - 1]]
    decreases |commands|
  {
    var stalled := Write(w, commands[0]);
    var same := stalled.(sent := w.consumed + [commands[0]]);
    if |commands| == 1 {
      assert WriteAll(stalled, commands[1..]) == stalled;
      SentIsOnlyALog(stalled, same.sent, events);
      RunKeeps(same, events);
    } else {
      BareSendsKeepOnlyTheLast(same, commands[1..], events);
      SentIsOnlyALogOfWrites(stalled, same.sent, commands[1..]);
      SentIsOnlyALog(WriteAll(stalled, commands[1..]), WriteAll(same, commands[1..]).sent, events);
    }
  }

  lemma {:induction false} SentIsOnlyALog(w: World, sent: seq<string>, events: seq<Event>)
    ensures Run(w.(sent := sent), events) == Run(w, events).(sent := sent)
    decreases |events|
  {
    if events != [] {
      SentIsOnlyALog(Step(w, events[0]), sent, events[1..]);
    }
  }

  lemma {:induction false} SentIsOnlyALogOfWrites(w: World, sent: seq<string>, commands: seq<string>)
    ensures WriteAll(w.(sent := sent), commands)
         == WriteAll(w, commands).(sent := WriteAll(w.(sent := sent), commands).sent)
    decreases |commands|
  {
    if commands != [] {
      SentIsOnlyALogOfWrites(Write(w, commands[0]), sent + [commands[0]], commands[1..]);
    }
  }

  // ----------------------------------------------------------- result freshness

  /** No test is waiting to be read or still has its result to write. */
  predicate NoTestPending(w: World) {
    && (w.slot.Some? ==> !IsTest(w.slot.value))
    && (w.running.Some? && IsTest(w.running.value.command) ==> w.running.value.answered)
  }

  /** Any result present now or written later comes from the command read at position `k`. */
  predicate OnlyFrom(w: World, k: nat) {
    && (w.answer.Some? ==> w.answer.value.order == k)
    && (w.slot.Some? && IsTest(w.slot.value) ==> |w.consumed| == k)
    && (w.running.Some? && IsTest(w.running.value.command) && !w.running.value.answered
        ==> w.running.value.order == k)
  }

  lemma {:induction false} RunKeepsOrigin(w: World, k: nat, events: seq<Event>)
    requires OnlyFrom(w, k)
    ensures OnlyFrom(Run(w, events), k)
    decreases |events|
  {
    if events != [] {
      RunKeepsOrigin(Step(w, events[0]), k, events[1..]);
    }
  }

  lemma {:induction false} RunKeepsQuiet(w: World, events: seq<Event>)
    requires NoTestPending(w)
    ensures NoTestPending(Run(w, events)) && Run(w, events).answer == w.answer
    decreases |events|
  {
    if events != [] {
      RunKeepsQuiet(Step(w, events[0]), events[1..]);
    }
  }

  lemma LaterKeepsQuiet(w: World, w': World)
    requires NoTestPending(w) && Later(w, w')
    ensures NoTestPending(w')
  {
    var events :| Run(w, events) == w';
    RunKeepsQuiet(w, events);
  }

  /** The worlds seen by one pattern test: when the old result is removed, when the slot
      is found empty, when the test is written, when it is found read, and when a result
      is found. Fluxbox may do anything in between. */
  datatype Fetch = Fetch(removed: World, empty: World, written: World, read: World, result: World)

  ghost predicate IsFetch(w: World, pattern: string, f: Fetch, w': World)
  {
    && Later(w, f.removed)
    && Later(RemoveResult(f.removed), f.empty) && f.empty.slot.None?
    && Later(f.empty, f.written)
    && Later(Write(f.written, TEST + pattern), f.read) && f.read.slot.None?
    && Later(f.read, f.result) && f.result.answer.Some?
    && w' == f.result
  }

  /** The result found was produced by the next command read after everything sent before. */
  predicate IsOwnAnswer(w: World, f: Fetch) {
    f.result.answer.Some? && f.result.answer.value.order == |w.sent|
  }

  /** A test sends exactly its own command, after everything sent before it was read. */
  lemma FetchConserves(w: World, pattern: string, f: Fetch, w': World)
    requires Valid(w) && IsFetch(w, pattern, f, w')
    ensures Valid(w') && w'.slot.None?
    ensures f.written.consumed == w.sent
    ensures w'.sent == w.sent + [TEST + pattern] && w'.consumed == w'.sent
    ensures w'.consumed[|w.sent|] == TEST + pattern
    ensures Valid(f.written) && f.written.slot.None?
  {
    LaterKeeps(w, f.removed);
    LaterKeeps(RemoveResult(f.removed), f.empty);
    LaterKeeps(f.empty, f.written);
    WriteConservesIff(f.written, TEST + pattern);
    LaterKeeps(Write(f.written, TEST + pattern), f.read);
    LaterKeeps(f.read, f.result);
  }

  /** With no earlier test pending the result found is always the test's own, and no test
      is pending afterwards either, so the next one starts from the same state. */
  lemma FetchIsFresh(w: World, pattern: string, f: Fetch, w': World)
    requires Valid(w) && NoTestPending(w) && IsFetch(w, pattern, f, w')
    ensures IsOwnAnswer(w, f) && NoTestPending(w')
  {
    var k := |f.written.consumed|;
    var events :| Run(w, events) == f.removed;
    RunKeepsQuiet(w, events);
    events :| Run(RemoveResult(f.removed), events) == f.empty;
    RunKeepsQuiet(RemoveResult(f.removed), events);
    events :| Run(f.empty, events) == f.written;
    RunKeepsQuiet(f.empty, events);
    FetchConserves(w, pattern, f, w');
    var asked := Write(f.written, TEST + pattern);
    events :| Run(asked, events) == f.read;
    RunKeepsOrigin(asked, k, events);
    events :| Run(f.read, events) == f.result;
    RunKeepsOrigin(f.read, k, events);
    assert |w'.consumed| == k + 1;
  }

  /** With a test unread or unanswered at the start, some interleaving hands back its stale
      result as the answer to the new pattern. */
  lemma PendingTestGoesStale(w: World, pattern: string) returns (f: Fetch)
    requires Valid(w) && !NoTestPending(w)
    ensures IsFetch(w, pattern, f, f.result) && !IsOwnAnswer(w, f)
  {
    var cleared := RemoveResult(w);
    var busy := [Reply(""), Finish, Read, Reply(""), Finish];
    var empty := Run(cleared, busy);
    DrainAnswers(cleared, w);
    var asked := Write(empty, TEST + pattern);
    var read := Run(asked, [Read]);
    assert Run(asked, [Read]) == Run(Step(asked, Read), []);
    f := Fetch(w, empty, empty, read, read);
    LaterSelf(w);
    LaterSelf(empty);
    LaterSelf(read);
    assert Later(cleared, empty);
    assert Later(asked, read);
  }

  lemma DrainAnswers(cleared: World, w: World)
    requires Valid(w) && !NoTestPending(w) && cleared == RemoveResult(w)
    ensures var end := Run(cleared, [Reply(""), Finish, Read, Reply(""), Finish]);
      && end.slot.None? && end.running.None? && end.answer.Some?
      && end.answer.value.order < |end.consumed|
  {
  }

  /** The result of a pattern test is certain to be its own exactly when no earlier test
      was pending at the start. */
  lemma FreshIffNoTestPending(w: World, pattern: string)
    requires Valid(w)
    ensures NoTestPending(w) <==> forall f, w' :: IsFetch(w, pattern, f, w') ==> IsOwnAnswer(w, f)
  {
    if NoTestPending(w) {
      forall f, w' | IsFetch(w, pattern, f, w')
        ensures IsOwnAnswer(w, f)
      {
        FetchIsFresh(w, pattern, f, w');
      }
    } else {
      var f := PendingTestGoesStale(w, pattern);
      assert IsFetch(w, pattern, f, f.result);
    }
  }

  // ----------------------------------------------------------------- timeouts

  /** A pattern test that was written but given up: at the last look, `f.result`, it was
      still unread or had no result. */
  ghost predicate IsTimedOut(w: World, pattern: string, f: Fetch, w': World)
  {
    && Later(w, f.removed)
    && Later(RemoveResult(f.removed), f.empty) && f.empty.slot.None?
    && Later(f.empty, f.written)
    && Later(Write(f.written, TEST + pattern), f.result)
    && (f.result.slot.Some? || f.result.answer.None?)
    && Later(f.result, w')
  }

  /** From any mailbox without a pending test Fluxbox can empty the slot and become idle. */
  lemma DrainQuiet(w: World) returns (w': World)
    requires Valid(w) && NoTestPending(w)
    ensures Later(w, w') && Valid(w') && w'.slot.None? && w'.running.None? && w'.answer == w.answer
    ensures w'.clock == w.clock
  {
    var events := [Finish, Read];
    var w1 := Step(w, Finish);
    var w2 := Step(w1, Read);
    assert events[1..] == [Read] && [Read][1..] == [];
    assert Run(w1, [Read]) == Run(w2, []) == w2;
    assert Run(w, events) == w2;
    RunIsLater(w, events);
    RunKeeps(w, events);
    RunKeepsQuiet(w, events);
    w' := Step(w2, Finish);
    assert Run(w2, [Finish]) == Run(w', []);
    RunIsLater(w2, [Finish]);
    LaterTrans(w, w2, w');
    StepKeeps(w2, Finish);
  }

  /** A timeout breaks the condition for a fresh result: from any mailbox without a pending
      test, a stalled Fluxbox leaves the test unread, and one that reads it and then stalls
      leaves it unanswered, however long the script waits. */
  lemma TimeoutLeavesTestPending(w: World, pattern: string, timeout: real, read: bool)
    returns (f: Fetch, w': World)
    requires Valid(w) && NoTestPending(w) && timeout > 0.0
    ensures IsTimedOut(w, pattern, f, w') && Valid(w') && !NoTestPending(w')
    ensures w'.clock >= w.clock + timeout && (f.result.slot.None? <==> read)
  {
    LaterSelf(w);
    var cleared := RemoveResult(w);
    var empty := DrainQuiet(cleared);
    LaterSelf(empty);
    var asked := Write(empty, TEST + pattern);
    WriteConservesIff(empty, TEST + pattern);
    var stalled := if read then Step(asked, Read) else asked;
    w' := Step(stalled, Pass(timeout));
    var events := if read then [Read, Pass(timeout)] else [Pass(timeout)];
    assert Run(stalled, [Pass(timeout)]) == Run(w', []) == w';
    assert read ==> events[1..] == [Pass(timeout)];
    assert Run(asked, events) == w';
    RunIsLater(asked, events);
    RunKeeps(asked, events);
    LaterSelf(w');
    f := Fetch(w, empty, empty, w', w');
  }

  /** After such a timeout the next test can hand back the abandoned one's result. */
  lemma TimeoutThenStale(w: World, pattern: string, next: string, timeout: real, read: bool)
    requires Valid(w) && NoTestPending(w) && timeout > 0.0
    ensures exists f: Fetch, w': World, g: Fetch :: IsTimedOut(w, pattern, f, w') && (f.result.slot.None? <==> read)
                               && IsFetch(w', next, g, g.result) && !IsOwnAnswer(w', g)
  {
    var f, w' := TimeoutLeavesTestPending(w, pattern, timeout, read);
    var g := PendingTestGoesStale(w', next);
    assert IsTimedOut(w, pattern, f, w') && IsFetch(w', next, g, g.result);
  }
}
