/** Delivery of commands to Fluxbox by polling the mailbox before and after each write.
    Every method lets Fluxbox and the clock take any steps before each of its own. */
module FluxboxRemote {
  import opened Options
  import opened Mailbox
  import opened WindowList

  const POLL_SECONDS := 0.005
  const TIMEOUT_SECONDS := 5.0

  datatype Delivery = Delivered | EarlierUnread | NotRead

  datatype Matching = Answered(reading: Reading) | NotDelivered(delivery: Delivery) | NoResult

  /** The worlds in which a delivered command found the slot empty, was written, and was
      found read. */
  datatype SendPath = SendPath(empty: World, written: World, read: World)

  ghost predicate IsWritten(w: World, command: string, p: SendPath, w': World)
  {
    && Later(w, p.empty) && p.empty.slot.None?
    && Later(p.empty, p.written)
    && Later(Write(p.written, command), p.read)
    && Later(p.read, w')
  }

  /** A send that ended with its command read at the last poll. */
  ghost predicate IsSend(w: World, command: string, p: SendPath, w': World)
  {
    IsWritten(w, command, p, w') && p.read.slot.None? && w' == p.read
  }

  /** A send that failed: an earlier command was there from the start, or its own one was
      written but not read. */
  ghost predicate IsUnread(w: World, command: string, delivery: Delivery, p: SendPath, w': World)
  {
    match delivery
    case Delivered => false
    case EarlierUnread => w.slot.Some? && Later(w, w')
    case NotRead => IsWritten(w, command, p, w') && p.read.slot.Some?
  }

  lemma WrittenKeeps(w: World, command: string, p: SendPath, w': World)
    requires Valid(w) && IsWritten(w, command, p, w')
    ensures Valid(w') && w'.sent == w.sent + [command] && w.sent <= w'.consumed && w.consumed <= w'.consumed
    ensures p.read.slot.None? ==> w'.consumed == w'.sent && w'.slot.None?
    ensures w.clock <= p.written.clock <= w'.clock
  {
    LaterKeeps(w, p.empty);
    LaterKeeps(p.empty, p.written);
    WriteConservesIff(p.written, command);
    LaterKeeps(Write(p.written, command), p.read);
    LaterKeeps(p.read, w');
  }

  lemma WrittenKeepsQuiet(w: World, command: string, p: SendPath, w': World)
    requires NoTestPending(w) && !IsTest(command) && IsWritten(w, command, p, w')
    ensures NoTestPending(w')
  {
    LaterKeepsQuiet(w, p.empty);
    LaterKeepsQuiet(p.empty, p.written);
    LaterKeepsQuiet(Write(p.written, command), p.read);
    LaterKeepsQuiet(p.read, w');
  }

  function Ceiling(x: real): int {
    -((-x).Floor)
  }

  /** A poll, and one more for every poll interval that starts before the timeout. */
  function MaxPolls(timeout: real): nat {
    if timeout <= 0.0 then 1 else Ceiling(timeout / POLL_SECONDS) + 1
  }

  /** The bound is exact: all polls but the last two begin before the timeout even if nothing
      else takes time, and with the last one it has passed. */
  lemma PollsFillTheTimeout(timeout: real)
    requires timeout > 0.0
    ensures MaxPolls(timeout) >= 2
    ensures (MaxPolls(timeout) - 2) as real * POLL_SECONDS < timeout <= (MaxPolls(timeout) - 1) as real * POLL_SECONDS
  {
  }

  /** The commands that reached the mailbox. */
  function Written(commands: seq<string>, outcomes: seq<Delivery>): seq<string>
    requires |commands| == |outcomes|
  {
    if commands == [] then []
    else
      var last := |commands| - 1;
      Written(commands[..last], outcomes[..last])
      + (if outcomes[last].EarlierUnread? then [] else [commands[last]])
  }

  /** The commands a caller reports as unread. */
  function Unread(commands: seq<string>, outcomes: seq<Delivery>): seq<string>
    requires |commands| == |outcomes|
  {
    if commands == [] then []
    else
      var last := |commands| - 1;
      Unread(commands[..last], outcomes[..last])
      + (if outcomes[last].Delivered? then [] else [commands[last]])
  }

  /** A command is reported exactly when a send of it did not end with it read. */
  lemma {:induction false} UnreadIff(commands: seq<string>, outcomes: seq<Delivery>, command: string)
    requires |commands| == |outcomes|
    ensures command in Unread(commands, outcomes)
       <==> exists i :: 0 <= i < |commands| && commands[i] == command && (outcomes[i].EarlierUnread? || outcomes[i].NotRead?)
    decreases |commands|
  {
    if commands != [] {
      var last := |commands| - 1;
      UnreadIff(commands[..last], outcomes[..last], command);
      assert forall i :: 0 <= i < last ==> commands[..last][i] == commands[i] && outcomes[..last][i] == outcomes[i];
    }
  }

  /** And as often as that happened. */
  lemma {:induction false} EachAccounted(commands: seq<string>, outcomes: seq<Delivery>)
    requires |commands| == |outcomes|
    ensures |Unread(commands, outcomes)| == multiset(outcomes)[EarlierUnread] + multiset(outcomes)[NotRead]
    ensures |Written(commands, outcomes)| == multiset(outcomes)[Delivered] + multiset(outcomes)[NotRead]
    decreases |commands|
  {
    if commands != [] {
      var last := |commands| - 1;
      EachAccounted(commands[..last], outcomes[..last]);
      assert outcomes == outcomes[..last] + [outcomes[last]];
    }
  }

  /** Everything sent up to the i-th command has been read. */
  ghost predicate ReadUpTo(consumed: seq<string>, before: seq<string>, commands: seq<string>, outcomes: seq<Delivery>, i: nat)
    requires |commands| == |outcomes| && i < |commands|
  {
    before + Written(commands[..i + 1], outcomes[..i + 1]) <= consumed
  }

  /** A delivered command leaves nothing unread among those sent up to it. */
  ghost predicate DeliveredAreRead(consumed: seq<string>, before: seq<string>, commands: seq<string>, outcomes: seq<Delivery>)
    requires |commands| == |outcomes|
  {
    forall i :: 0 <= i < |commands| && outcomes[i].Delivered? ==> ReadUpTo(consumed, before, commands, outcomes, i)
  }

  lemma OneMoreOutcome(commands: seq<string>, outcomes: seq<Delivery>, command: string, r: Delivery)
    requires |commands| == |outcomes|
    ensures Written(commands + [command], outcomes + [r])
         == Written(commands, outcomes) + (if r.EarlierUnread? then [] else [command])
    ensures Unread(commands + [command], outcomes + [r])
         == Unread(commands, outcomes) + (if r.Delivered? then [] else [command])
  {
  }

  lemma StillReadUpTo(consumed: seq<string>, consumed': seq<string>, before: seq<string>,
                      commands: seq<string>, outcomes: seq<Delivery>, command: string, r: Delivery, i: nat)
    requires |commands| == |outcomes| && i < |commands| && ReadUpTo(consumed, before, commands, outcomes, i)
    requires consumed <= consumed'
    ensures ReadUpTo(consumed', before, commands + [command], outcomes + [r], i)
  {
    assert (commands + [command])[..i + 1] == commands[..i + 1];
    assert (outcomes + [r])[..i + 1] == outcomes[..i + 1];
  }

  lemma OneMoreDelivery(consumed: seq<string>, consumed': seq<string>, before: seq<string>,
                        commands: seq<string>, outcomes: seq<Delivery>, command: string, r: Delivery)
    requires |commands| == |outcomes| && DeliveredAreRead(consumed, before, commands, outcomes)
    requires consumed <= consumed'
    requires r.Delivered? ==> consumed' == before + Written(commands, outcomes) + [command]
    ensures DeliveredAreRead(consumed', before, commands + [command], outcomes + [r])
  {
    var (cs, os) := (commands + [command], outcomes + [r]);
    var n := |commands|;
    forall i | 0 <= i < |cs| && os[i].Delivered?
      ensures ReadUpTo(consumed', before, cs, os, i)
    {
      if i < n {
        assert os[i] == outcomes[i];
        StillReadUpTo(consumed, consumed', before, commands, outcomes, command, r, i);
      } else {
        assert cs[..i + 1] == cs && os[..i + 1] == os;
        OneMoreOutcome(commands, outcomes, command, r);
        assert before + Written(commands, outcomes) + [command] == before + (Written(commands, outcomes) + [command]);
      }
    }
  }

  /** The account of a series: what was reported, what was sent, what was read. */
  ghost predicate IsAccount(before: seq<string>, commands: seq<string>, outcomes: seq<Delivery>, unread: seq<string>, w: World)
  {
    && Valid(w) && |outcomes| == |commands|
    && unread == Unread(commands, outcomes)
    && w.sent == before + Written(commands, outcomes)
    && DeliveredAreRead(w.consumed, before, commands, outcomes)
  }

  lemma OneMoreAccounted(before: seq<string>, commands: seq<string>, outcomes: seq<Delivery>, unread: seq<string>,
                         w: World, command: string, r: Delivery, w': World)
    requires IsAccount(before, commands, outcomes, unread, w)
    requires Valid(w') && w.consumed <= w'.consumed
    requires w'.sent == w.sent + (if r.EarlierUnread? then [] else [command])
    requires r.Delivered? ==> w'.consumed == w'.sent
    ensures IsAccount(before, commands + [command], outcomes + [r], if r.Delivered? then unread else unread + [command], w')
  {
    OneMoreOutcome(commands, outcomes, command, r);
    OneMoreDelivery(w.consumed, w'.consumed, before, commands, outcomes, command, r);
  }

  /** What a wait records: its polls, in turn, all but the last finding a command. It ends
      early with an empty slot, or with a full one once the timeout has passed. */
  ghost predicate IsWait(w: World, polls: seq<World>, timeout: real, consumed: bool, w': World)
  {
    && 1 <= |polls| <= MaxPolls(timeout)
    && InTurn(w, polls, w')
    && (forall i :: 0 <= i < |polls| - 1 ==> polls[i].slot.Some?)
    && consumed == polls[|polls| - 1].slot.None?
    && (if consumed then w' == polls[|polls| - 1] else w'.clock >= w.clock + timeout)
  }

  /** What waiting for a result records: its looks, all but the last finding none. */
  ghost predicate IsSearch(w: World, looks: seq<World>, timeout: real, found: bool, w': World)
  {
    && 1 <= |looks| <= MaxPolls(timeout)
    && InTurn(w, looks, w')
    && (forall i :: 0 <= i < |looks| - 1 ==> looks[i].answer.None?)
    && found == looks[|looks| - 1].answer.Some?
    && (if found then w' == looks[|looks| - 1] else w'.clock >= w.clock + timeout)
  }

  /** Polling goes on: the worlds seen so far lie between `w` and `w'`, and one poll interval
      has passed for each of them. */
  ghost predicate IsPolling(w: World, seen: seq<World>, w': World, start: real, timeout: real)
  {
    && InTurn(w, seen, w') && w.clock <= start
    && |seen| < MaxPolls(timeout)
    && w'.clock >= start + |seen| as real * POLL_SECONDS
  }

  lemma PollingLater(w: World, seen: seq<World>, w': World, w'': World, start: real, timeout: real)
    requires IsPolling(w, seen, w', start, timeout) && Later(w', w'') && w''.clock >= w'.clock
    ensures IsPolling(w, seen, w'', start, timeout)
  {
    InTurnLater(w, seen, w', w'');
  }

  /** One more poll, begun before the timeout, and the pause after it. */
  lemma PollingGoesOn(w: World, seen: seq<World>, poll: World, now: World, next: World, start: real, timeout: real)
    requires IsPolling(w, seen, poll, start, timeout) && Later(poll, now) && now.clock >= poll.clock
    requires now.clock < start + timeout
    requires Later(now, next) && next.clock >= now.clock + POLL_SECONDS
    ensures IsPolling(w, seen + [poll], next, start, timeout)
  {
    LaterTrans(poll, now, next);
    SeenInTurn(w, seen, poll);
    InTurnLater(w, seen + [poll], poll, next);
    assert |seen| as real * POLL_SECONDS < timeout;
  }

  lemma Appended(log: seq<World>, seen: seq<World>, next: World)
    ensures log + seen + [next] == log + (seen + [next])
  {
  }

  lemma WaitEnds(w: World, seen: seq<World>, poll: World, w': World, start: real, timeout: real)
    requires IsPolling(w, seen, poll, start, timeout) && forall p :: p in seen ==> p.slot.Some?
    requires Later(poll, w')
    requires if poll.slot.None? then w' == poll else w'.clock >= start + timeout
    ensures IsWait(w, seen + [poll], timeout, poll.slot.None?, w')
  {
    SeenInTurn(w, seen, poll);
    InTurnLater(w, seen + [poll], poll, w');
  }

  lemma SearchEnds(w: World, seen: seq<World>, look: World, w': World, start: real, timeout: real)
    requires IsPolling(w, seen, look, start, timeout) && forall p :: p in seen ==> p.answer.None?
    requires Later(look, w')
    requires if look.answer.Some? then w' == look else w'.clock >= start + timeout
    ensures IsSearch(w, seen + [look], timeout, look.answer.Some?, w')
  {
    SeenInTurn(w, seen, look);
    InTurnLater(w, seen + [look], look, w');
  }

  lemma LastSeen(w: World, seen: seq<World>, w': World)
    requires seen != [] && InTurn(w, seen, w')
    ensures Later(w, seen[|seen| - 1]) && Later(seen[|seen| - 1], w')
  {
    InTurnIsLater(w, seen[..|seen| - 1], seen[|seen| - 1]);
  }

  lemma WaitIsLater(w: World, polls: seq<World>, timeout: real, consumed: bool, w': World)
    requires Valid(w) && IsWait(w, polls, timeout, consumed, w')
    ensures w.slot.None? ==> consumed
    ensures Later(w, w') && Valid(w') && w'.sent == w.sent && Reads(w, w')
    ensures NoTestPending(w) ==> NoTestPending(w')
  {
    LastSeen(w, polls, w');
    LaterKeeps(w, polls[|polls| - 1]);
    LaterTrans(w, polls[|polls| - 1], w');
    LaterKeeps(w, w');
    if NoTestPending(w) {
      LaterKeepsQuiet(w, w');
    }
  }

  /** The second wait of a send, which starts with its own command in the slot. */
  lemma WaitAfterWrite(w: World, command: string, p: SendPath, polls: seq<World>, timeout: real,
                       consumed: bool, w': World)
    requires Valid(w) && Later(w, p.empty) && p.empty.slot.None? && Later(p.empty, p.written)
    requires IsWait(Write(p.written, command), polls, timeout, consumed, w') && p.read == polls[|polls| - 1]
    ensures IsWritten(w, command, p, w') && (p.read.slot.None? <==> consumed)
    ensures w'.sent == w.sent + [command] && w.sent <= w'.consumed && w.consumed <= w'.consumed
    ensures consumed ==> IsSend(w, command, p, w') && w'.consumed == w'.sent
    ensures !consumed ==> w'.clock >= w.clock + timeout
    ensures NoTestPending(w) && !IsTest(command) ==> NoTestPending(w')
  {
    LastSeen(Write(p.written, command), polls, w');
    WrittenKeeps(w, command, p, w');
    if NoTestPending(w) && !IsTest(command) {
      WrittenKeepsQuiet(w, command, p, w');
    }
  }

  /** The end of a pattern test whose command was read: a result of its own, or a timeout. */
  lemma FetchEnds(w: World, pattern: string, f: Fetch, looks: seq<World>, timeout: real, found: bool, w': World)
    requires Valid(w) && Later(w, f.removed)
    requires IsSend(RemoveResult(f.removed), TEST + pattern, SendPath(f.empty, f.written, f.read), f.read)
    requires IsSearch(f.read, looks, timeout, found, w') && f.result == looks[|looks| - 1]
    ensures f.result.answer.Some? <==> found
    ensures found ==> IsFetch(w, pattern, f, w')
    ensures found && NoTestPending(w) ==> IsOwnAnswer(w, f) && NoTestPending(w')
    ensures !found ==> IsTimedOut(w, pattern, f, w') && w'.clock >= w.clock + timeout
  {
    LastSeen(f.read, looks, w');
    LaterKeeps(w, f.removed);
    if !found {
      WrittenKeeps(RemoveResult(f.removed), TEST + pattern, SendPath(f.empty, f.written, f.read), f.read);
      LaterTrans(Write(f.written, TEST + pattern), f.read, f.result);
    } else if NoTestPending(w) {
      FetchIsFresh(w, pattern, f, w');
    }
  }

  /** How asking for a pattern's windows can end. */
  ghost predicate IsMatching(w: World, pattern: string, kind: string, timeout: real, r: Matching, f: Fetch, w': World)
  {
    && (match r
        case Answered(reading) =>
          && IsFetch(w, pattern, f, w')
          && reading == ReadIds(Xprop(RESULT_PROPERTY, kind, Some(w'.answer.value.text)))
        case NotDelivered(EarlierUnread) => w'.sent == w.sent
        case NotDelivered(NotRead) => IsTimedOut(w, pattern, f, w') && f.result.slot.Some?
        case NotDelivered(Delivered) => false
        case NoResult => IsTimedOut(w, pattern, f, w') && f.result.answer.None?)
    && (!r.Answered? ==> w'.clock >= w.clock + timeout)
  }

  function ShownResult(w: World): Option<string> {
    if w.answer.Some? then Some(w.answer.value.text) else None
  }

  class Display {
    var world: World
    const kind: string
    /** The worlds at each poll of the slot, and at each look at the result. */
    ghost var polls: seq<World>
    ghost var looks: seq<World>

    constructor (w: World, kind: string)
      requires Valid(w)
      ensures world == w && this.kind == kind && polls == [] && looks == []
    {
      world := w;
      this.kind := kind;
      polls, looks := [], [];
    }

    /** Fluxbox and the clock take any number of steps. */
    method Interleave()
      requires Valid(world)
      modifies `world
      ensures Later(old(world), world) && Valid(world) && world.clock >= old(world.clock)
    {
      var events: seq<Event> := *;
      RunKeeps(world, events);
      RunIsLater(world, events);
      world := Run(world, events);
    }

    method Monotonic() returns (now: real)
      requires Valid(world)
      modifies `world
      ensures Later(old(world), world) && Valid(world)
      ensures now == world.clock >= old(world.clock)
    {
      Interleave();
      now := world.clock;
    }

    method Sleep(seconds: real)
      requires Valid(world)
      modifies `world
      ensures Later(old(world), world) && Valid(world)
      ensures world.clock >= old(world.clock) + seconds
    {
      Interleave();
      ghost var before := world;
      LaterKeeps(old(world), before);
      world := Step(world, Pass(seconds));
      assert Run(before, [Pass(seconds)]) == Run(world, []);
      LaterTrans(old(world), before, world);
      LaterKeeps(before, world);
    }

    method CommandPending() returns (pending: bool)
      requires Valid(world)
      modifies `world, `polls
      ensures Later(old(world), world) && Valid(world) && world.clock >= old(world.clock)
      ensures polls == old(polls) + [world]
      ensures pending <==> world.slot.Some?
    {
      Interleave();
      polls := polls + [world];
      var output := Xprop(ACTION_PROPERTY, kind, world.slot);
      TypedPrefixMeansPresent(ACTION_PROPERTY, kind, world.slot);
      pending := ACTION_PROPERTY + "(" <= output;
    }

    /** One look at the result property, as xprop prints it. */
    method LookAtResult() returns (output: string)
      requires Valid(world)
      modifies `world, `looks
      ensures Later(old(world), world) && Valid(world) && world.clock >= old(world.clock)
      ensures looks == old(looks) + [world]
      ensures output == Xprop(RESULT_PROPERTY, kind, ShownResult(world))
      ensures RESULT_PROPERTY + "(" <= output <==> world.answer.Some?
    {
      Interleave();
      looks := looks + [world];
      output := Xprop(RESULT_PROPERTY, kind, ShownResult(world));
      TypedPrefixMeansPresent(RESULT_PROPERTY, kind, ShownResult(world));
    }

    method WaitUntilConsumed(timeout: real) returns (consumed: bool, ghost seen: seq<World>)
      requires Valid(world)
      modifies `world, `polls
      ensures Valid(world) && polls == old(polls) + seen
      ensures IsWait(old(world), seen, timeout, consumed, world)
    {
      ghost var w0, log := world, polls;
      ghost var earlier: seq<World> := [];
      var start := Monotonic();
      var deadline := start + timeout;
      ghost var poll := world;
      var pending := CommandPending();
      PollingLater(w0, earlier, poll, world, start, timeout);
      seen := [world];
      while pending
        invariant Valid(world) && polls == log + seen && seen == earlier + [world]
        invariant IsPolling(w0, earlier, world, start, timeout)
        invariant forall p :: p in earlier ==> p.slot.Some?
        invariant pending <==> world.slot.Some?
        decreases MaxPolls(timeout) - |earlier|
      {
        poll := world;
        var now := Monotonic();
        if now >= deadline {
          WaitEnds(w0, earlier, poll, world, start, timeout);
          return false, seen;
        }
        ghost var paused := world;
        pending := PollAfter(POLL_SECONDS);
        PollingGoesOn(w0, earlier, poll, paused, world, start, timeout);
        Appended(log, seen, world);
        earlier := seen;
        seen := seen + [world];
      }
      LaterSelf(world);
      WaitEnds(w0, earlier, world, world, start, timeout);
      return true, seen;
    }

    /** Sleeps, then polls. */
    method PollAfter(seconds: real) returns (pending: bool)
      requires Valid(world)
      modifies `world, `polls
      ensures Later(old(world), world) && Valid(world)
      ensures world.clock >= old(world.clock) + seconds
      ensures polls == old(polls) + [world]
      ensures pending <==> world.slot.Some?
    {
      Sleep(seconds);
      ghost var slept := world;
      pending := CommandPending();
      LaterTrans(old(world), slept, world);
    }

    /** Delivered: the command has been read, after everything sent before. EarlierUnread:
        it was never written. NotRead: it was written once, after everything before was read. */
    method Send(command: string, timeout: real) returns (r: Delivery, ghost path: SendPath)
      requires Valid(world)
      modifies `world, `polls
      ensures Valid(world) && old(world.consumed) <= world.consumed
      ensures old(polls) < polls && |polls| <= |old(polls)| + 2 * MaxPolls(timeout)
      ensures r.EarlierUnread? ==> world.sent == old(world.sent)
      ensures !r.EarlierUnread? ==>
        && IsWritten(old(world), command, path, world) && path.read == polls[|polls| - 1]
        && world.sent == old(world.sent) + [command] && old(world.sent) <= world.consumed
      ensures !r.Delivered? ==>
        && IsUnread(old(world), command, r, path, world)
        && polls[|polls| - 1].slot.Some? && world.clock >= old(world.clock) + timeout
      ensures r.Delivered? ==> world.consumed == world.sent && IsSend(old(world), command, path, world)
      ensures NoTestPending(old(world)) && (r.EarlierUnread? || !IsTest(command)) ==> NoTestPending(world)
    {
      path := SendPath(world, world, world);
      ghost var before := world;
      var consumed;
      ghost var first, second;
      consumed, first := WaitUntilConsumed(timeout);
      WaitIsLater(before, first, timeout, consumed, world);
      if !consumed {
        return EarlierUnread, path;
      }
      ghost var empty := world;
      Interleave();
      ghost var written := world;
      WriteKeepsValid(empty, written, command);
      world := Write(world, command);
      consumed, second := WaitUntilConsumed(timeout);
      path := SendPath(empty, written, second[|second| - 1]);
      WaitAfterWrite(before, command, path, second, timeout, consumed, world);
      r := if consumed then Delivered else NotRead;
    }

    /** Sends a series, carrying on after failures, and reports the commands not known to
        be read. Over the whole run every command that reached the mailbox is consumed in
        order and once, and a delivered command leaves none before it unread. */
    method SendSeries(commands: seq<string>) returns (unread: seq<string>, ghost outcomes: seq<Delivery>)
      requires Valid(world)
      modifies `world, `polls
      ensures |outcomes| == |commands| && IsAccount(old(world.sent), commands, outcomes, unread, world)
    {
      unread, outcomes := [], [];
      ghost var before := world.sent;
      assert before + [] == before;
      for i := 0 to |commands|
        invariant |outcomes| == i && IsAccount(before, commands[..i], outcomes, unread, world)
      {
        ghost var earlier, reported := world, unread;
        var r;
        ghost var path;
        r, path := Send(commands[i], TIMEOUT_SECONDS);
        if !r.Delivered? {
          unread := unread + [commands[i]];
        }
        OneMoreAccounted(before, commands[..i], outcomes, reported, earlier, commands[i], r, world);
        assert commands[..i + 1] == commands[..i] + [commands[i]];
        outcomes := outcomes + [r];
      }
      assert commands[..|commands|] == commands;
    }

    /** Looks at the result property until it is there. */
    method AwaitResult(timeout: real) returns (found: bool, output: string, ghost seen: seq<World>)
      requires Valid(world)
      modifies `world, `looks
      ensures Valid(world) && looks == old(looks) + seen
      ensures IsSearch(old(world), seen, timeout, found, world)
      ensures found ==> output == Xprop(RESULT_PROPERTY, kind, Some(world.answer.value.text))
    {
      ghost var w0, log := world, looks;
      seen := [];
      var start := Monotonic();
      var deadline := start + timeout;
      while true
        invariant Valid(world) && looks == log + seen
        invariant IsPolling(w0, seen, world, start, timeout)
        invariant forall p :: p in seen ==> p.answer.None?
        decreases MaxPolls(timeout) - |seen|
      {
        ghost var before := world;
        output := LookAtResult();
        ghost var look := world;
        Appended(log, seen, look);
        PollingLater(w0, seen, before, look, start, timeout);
        if RESULT_PROPERTY + "(" <= output {
          LaterSelf(look);
          SearchEnds(w0, seen, look, look, start, timeout);
          return true, output, seen + [look];
        }
        var now := Monotonic();
        if now >= deadline {
          SearchEnds(w0, seen, look, world, start, timeout);
          return false, output, seen + [look];
        }
        ghost var paused := world;
        Sleep(POLL_SECONDS);
        PollingGoesOn(w0, seen, look, paused, world, start, timeout);
        seen := seen + [look];
      }
    }

    /** Asks Fluxbox which windows match a pattern. A normal return hands back what the last
        look at the result showed; with no test pending before, that result is this test's
        own and no test is pending after. A test that was never written changes nothing; one
        that was given up after writing may stay pending. */
    method MatchingWindows(pattern: string, timeout: real) returns (r: Matching, ghost f: Fetch)
      requires Valid(world)
      modifies this
      ensures Valid(world) && old(looks) <= looks && |looks| <= |old(looks)| + MaxPolls(timeout)
      ensures IsMatching(old(world), pattern, kind, timeout, r, f, world)
      ensures r.Answered? || r.NoResult? ==> old(looks) < looks && f.result == looks[|looks| - 1]
      ensures r.NotDelivered? ==> looks == old(looks) && polls != [] && polls[|polls| - 1].slot.Some?
      ensures r == NotDelivered(NotRead) ==> f.result == polls[|polls| - 1]
      ensures r.Answered? && NoTestPending(old(world)) ==> IsOwnAnswer(old(world), f)
      ensures (r.Answered? || r == NotDelivered(EarlierUnread)) && NoTestPending(old(world)) ==> NoTestPending(world)
    {
      ghost var start := world;
      f := Fetch(world, world, world, world, world);
      Interleave();
      ghost var removed := world;
      LaterKeeps(start, removed);
      world := RemoveResult(world);
      var delivery;
      ghost var path;
      delivery, path := Send(TEST + pattern, timeout);
      f := Fetch(removed, path.empty, path.written, path.read, path.read);
      if !delivery.Delivered? {
        if NoTestPending(start) {
          LaterKeepsQuiet(start, removed);
        }
        return NotDelivered(delivery), f;
      }
      var found, output;
      ghost var seen;
      found, output, seen := AwaitResult(timeout);
      f := f.(result := seen[|seen| - 1]);
      FetchEnds(start, pattern, f, seen, timeout, found, world);
      r := if found then Answered(ReadIds(output)) else NoResult;
    }
  }

  lemma WriteKeepsValid(empty: World, written: World, command: string)
    requires Valid(empty) && empty.slot.None? && Later(empty, written)
    ensures Valid(Write(written, command))
  {
    LaterKeeps(empty, written);
    WriteConservesIff(written, command);
  }
}
