/** Applying one layout rule: ask which windows it matches, send it, then check it by
    sending it again. The windows themselves are outside: at every snapshot they are arbitrary. */
module WindowPlacement {
  import opened Options
  import opened MacroCommands
  import opened RuleSummary
  import opened Placement
  import PlacementLaws
  import opened Mailbox
  import opened WindowList
  import opened FluxboxRemote
  import opened RuleVerdicts

  const ATTEMPTS: nat := 3
  const SETTLE_POLL_SECONDS := 0.03
  const SETTLE_TIMEOUT_SECONDS := 1.0

  /** One snapshot, then one more for each poll that starts before the settle timeout. */
  const MAX_SNAPSHOTS: nat := 35

  /** The bound is exact in the same way as that of the polls. */
  lemma SnapshotsFillTheTimeout()
    ensures (MAX_SNAPSHOTS - 2) as real * SETTLE_POLL_SECONDS < SETTLE_TIMEOUT_SECONDS
         <= (MAX_SNAPSHOTS - 1) as real * SETTLE_POLL_SECONDS
  {
  }

  datatype Applied =
    | Done(outcome: RuleOutcome)
    | NotMatched(matching: Matching)
    | NoSuchHead
    | RuleUnread(delivery: Delivery)

  /** Both snapshots list the same of the given windows, in the same places. */
  method Agree(windows: seq<nat>, previous: Snapshot, current: Snapshot) returns (same: bool)
    ensures same <==> SameOn(windows, previous, current)
  {
    for i := 0 to |windows|
      invariant forall k :: 0 <= k < i ==> SameOn([windows[k]], previous, current)
    {
      var w := windows[i];
      if (w in previous) != (w in current) || (w in previous && !previous[w].SamePlacement(current[w])) {
        return false;
      }
    }
    forall w | w in windows
      ensures SameOn([w], previous, current)
    {
      var k :| 0 <= k < |windows| && windows[k] == w;
    }
    assert forall w :: w in windows ==> w in [w];
    return true;
  }

  // ----------------------------------------------------------- settled snapshots

  function Worlds(sights: seq<Sight>): seq<World> {
    if sights == [] then [] else Worlds(sights[..|sights| - 1]) + [sights[|sights| - 1].world]
  }

  /** The last two snapshots show the listed windows in the same places. */
  predicate LastTwoAgree(windows: seq<nat>, sights: seq<Sight>)
    requires |sights| >= 2
  {
    SameOn(windows, sights[|sights| - 2].States(), sights[|sights| - 1].States())
  }

  /** No snapshot agrees with the one before it. */
  predicate NoneAgree(windows: seq<nat>, sights: seq<Sight>) {
    |sights| < 2 || (NoneAgree(windows, sights[..|sights| - 1]) && !LastTwoAgree(windows, sights))
  }

  /** The snapshots taken while the windows settle: in turn, no two neighbours agreeing
      before the last, which agrees with the one before it unless the timeout has passed. */
  ghost predicate IsSettling(w: World, windows: seq<nat>, sights: seq<Sight>, w': World)
  {
    && 2 <= |sights| <= MAX_SNAPSHOTS
    && InTurn(w, Worlds(sights), w')
    && NoneAgree(windows, sights[..|sights| - 1])
    && (LastTwoAgree(windows, sights) || w'.clock >= w.clock + SETTLE_TIMEOUT_SECONDS)
  }

  /** Snapshots none of which agreed with the one before, one poll interval apart. */
  ghost predicate IsUnsettled(w: World, windows: seq<nat>, sights: seq<Sight>, w': World, start: real)
  {
    && 1 <= |sights| < MAX_SNAPSHOTS
    && InTurn(w, Worlds(sights), w')
    && NoneAgree(windows, sights)
    && w.clock <= start && w'.clock >= start + (|sights| - 1) as real * SETTLE_POLL_SECONDS
  }

  lemma NextSight(w: World, sights: seq<Sight>, w': World, sight: Sight)
    requires InTurn(w, Worlds(sights), w') && Later(w', sight.world)
    ensures InTurn(w, Worlds(sights + [sight]), sight.world)
  {
    assert (sights + [sight])[..|sights|] == sights;
    InTurnLater(w, Worlds(sights), w', sight.world);
    SeenInTurn(w, Worlds(sights), sight.world);
  }

  lemma StillUnsettled(w: World, windows: seq<nat>, sights: seq<Sight>, w1: World, sight: Sight, now: World, start: real)
    requires IsUnsettled(w, windows, sights, w1, start)
    requires Later(w1, sight.world) && sight.world.clock >= w1.clock + SETTLE_POLL_SECONDS
    requires Later(sight.world, now) && now.clock >= sight.world.clock
    requires !SameOn(windows, sights[|sights| - 1].States(), sight.States())
    requires now.clock < start + SETTLE_TIMEOUT_SECONDS
    ensures IsUnsettled(w, windows, sights + [sight], now, start)
  {
    NextSight(w, sights, w1, sight);
    InTurnLater(w, Worlds(sights + [sight]), sight.world, now);
    assert (sights + [sight])[..|sights|] == sights;
  }

  lemma Settled(w: World, windows: seq<nat>, sights: seq<Sight>, w1: World, sight: Sight, w': World, start: real)
    requires IsUnsettled(w, windows, sights, w1, start)
    requires Later(w1, sight.world) && Later(sight.world, w')
    requires SameOn(windows, sights[|sights| - 1].States(), sight.States())
          || w'.clock >= start + SETTLE_TIMEOUT_SECONDS
    ensures IsSettling(w, windows, sights + [sight], w')
  {
    NextSight(w, sights, w1, sight);
    InTurnLater(w, Worlds(sights + [sight]), sight.world, w');
    assert (sights + [sight])[..|sights|] == sights;
  }

  /** While windows settle nothing is sent, up to the last snapshot and after it. */
  lemma SettlingSendsNothing(w: World, windows: seq<nat>, sights: seq<Sight>, w': World)
    requires Valid(w) && IsSettling(w, windows, sights, w')
    ensures var last := sights[|sights| - 1].world;
      && Valid(last) && last.sent == w.sent && w.consumed <= last.consumed
      && Valid(w') && w'.sent == w.sent && w.consumed <= w'.consumed
      && (NoTestPending(w) ==> NoTestPending(w'))
  {
    LastSeen(w, Worlds(sights), w');
    var last := sights[|sights| - 1].world;
    LaterKeeps(w, last);
    LaterTrans(w, last, w');
    LaterKeeps(w, w');
    if NoTestPending(w) {
      LaterKeepsQuiet(w, w');
    }
  }

  /** Windows whose titles alone changed between two snapshots have settled. */
  lemma RetitledSettles(windows: seq<nat>, sights: seq<Sight>)
    requires |sights| >= 2
    requires OnlyTitlesDiffer(sights[|sights| - 2].States(), sights[|sights| - 1].States())
    ensures LastTwoAgree(windows, sights)
  {
    RetitledIsUnmoved(windows, sights[|sights| - 2].States(), sights[|sights| - 1].States());
  }

  // ------------------------------------------------------ bringing windows back

  /** The listed windows whose centre is on no head. */
  function Strays(windows: seq<nat>, states: Snapshot, heads: seq<Head>): seq<nat> {
    if windows == [] then []
    else
      var last := |windows| - 1;
      Strays(windows[..last], states, heads)
      + (if windows[last] in states && HeadOf(states[windows[last]], heads).None? then [windows[last]] else [])
  }

  lemma {:induction false} StraysIff(windows: seq<nat>, states: Snapshot, heads: seq<Head>, w: nat)
    ensures w in Strays(windows, states, heads)
       <==> && w in windows && w in states
            && forall i :: 0 <= i < |heads| ==> !Covers(heads[i], CentreX(states[w]), CentreY(states[w]))
  {
    if windows != [] {
      var last := |windows| - 1;
      StraysIff(windows[..last], states, heads, w);
      assert w in windows <==> w in windows[..last] || w == windows[last];
      if w in states {
        NoHeadIffUncovered(states[w], heads);
      }
    }
  }

  /** In their given order. */
  lemma {:induction false} StraysConcat(a: seq<nat>, b: seq<nat>, states: Snapshot, heads: seq<Head>)
    ensures Strays(a + b, states, heads) == Strays(a, states, heads) + Strays(b, states, heads)
    decreases |b|
  {
    if b == [] {
      assert a + b == a;
    } else {
      assert (a + b)[..|a + b| - 1] == a + b[..|b| - 1];
      StraysConcat(a, b[..|b| - 1], states, heads);
    }
  }

  /** One window moved by wmctrl, and how many commands had been sent by then. */
  datatype Move = Move(window: nat, x: int, y: int, sent: nat)

  function MovesTo(corner: Head, windows: seq<nat>, sent: nat): seq<Move> {
    if windows == [] then []
    else
      var last := |windows| - 1;
      MovesTo(corner, windows[..last], sent) + [Move(windows[last], corner.x, corner.y, sent)]
  }

  lemma NextStray(windows: seq<nat>, i: nat, states: Snapshot, heads: seq<Head>, corner: Head, sent: nat, log: seq<Move>)
    requires i < |windows|
    ensures var (w, made) := (windows[i], MovesTo(corner, Strays(windows[..i], states, heads), sent));
      var (move, more) := (Move(w, corner.x, corner.y, sent), MovesTo(corner, Strays(windows[..i + 1], states, heads), sent));
      if w in states && HeadOf(states[w], heads).None?
      then more == made + [move] && log + more == log + made + [move]
      else more == made
  {
    var (strays, w) := (Strays(windows[..i], states, heads), windows[i]);
    assert windows[..i + 1][..i] == windows[..i];
    if w in states && HeadOf(states[w], heads).None? {
      assert Strays(windows[..i + 1], states, heads) == strays + [w];
      assert (strays + [w])[..|strays|] == strays;
    } else {
      assert Strays(windows[..i + 1], states, heads) == strays + [] == strays;
    }
  }

  /** What the moves do to the windows. */
  function AfterMoves(desk: Desk, moves: seq<Move>): Desk {
    if moves == [] then desk
    else
      var (m, before) := (moves[|moves| - 1], AfterMoves(desk, moves[..|moves| - 1]));
      if m.window in before then before[m.window := before[m.window].(x := m.x, y := m.y)] else before
  }

  lemma {:induction false} AfterMovesTo(desk: Desk, corner: Head, windows: seq<nat>, sent: nat, w: nat)
    requires w in desk
    ensures var moved := AfterMoves(desk, MovesTo(corner, windows, sent));
      && moved.Keys == desk.Keys
      && moved[w] == if w in windows then desk[w].(x := corner.x, y := corner.y) else desk[w]
    decreases |windows|
  {
    if windows != [] {
      var last := |windows| - 1;
      AfterMovesTo(desk, corner, windows[..last], sent, w);
      assert w in windows <==> w in windows[..last] || w == windows[last];
      var moves := MovesTo(corner, windows, sent);
      assert moves[..|moves| - 1] == MovesTo(corner, windows[..last], sent);
    }
  }

  /** On Fluxbox's windows, moving the strays to the corner of the promised head gives the
      state rules are certified from. */
  lemma StraysAreBrought(promised: Expectation, windows: seq<nat>, fx: Fluxbox, desk: Desk, sent: nat)
    requires promised.head.Some? && PlacementLaws.ValidPromise(promised, fx)
    ensures var corner := fx.heads[promised.head.value - 1];
      AfterMoves(desk, MovesTo(corner, Strays(windows, ViewAll(desk), fx.heads), sent))
      == BroughtDesk(promised, windows, fx, desk)
  {
    var corner := fx.heads[promised.head.value - 1];
    var strays := Strays(windows, ViewAll(desk), fx.heads);
    var moved := AfterMoves(desk, MovesTo(corner, strays, sent));
    var brought := BroughtDesk(promised, windows, fx, desk);
    forall w | w in desk
      ensures moved.Keys == desk.Keys && moved[w] == brought[w]
    {
      AfterMovesTo(desk, corner, strays, sent, w);
      StraysIff(windows, ViewAll(desk), fx.heads, w);
      NoHeadIffUncovered(View(desk[w]), fx.heads);
    }
    if desk == map[] {
      MovesOnNothing(MovesTo(corner, strays, sent));
    }
    assert moved.Keys == brought.Keys;
  }

  lemma {:induction false} MovesOnNothing(moves: seq<Move>)
    ensures AfterMoves(map[], moves) == map[]
  {
    if moves != [] {
      MovesOnNothing(moves[..|moves| - 1]);
    }
  }

  // ------------------------------------------------------------- what is judged

  method CollectProblems(windows: seq<nat>, states: Snapshot, expected: Expectation, heads: seq<Head>)
    returns (found: seq<Problem>)
    ensures found == AllComplaints(windows, states, expected, heads)
  {
    found := [];
    for i := 0 to |windows|
      invariant found == AllComplaints(windows[..i], states, expected, heads)
    {
      var more := Problems(windows[i], Lookup(states, windows[i]), expected, heads);
      found := found + more;
      assert windows[..i + 1][..i] == windows[..i];
    }
    assert windows[..|windows|] == windows;
  }

  method CollectMoves(windows: seq<nat>, before: Snapshot, after: Snapshot) returns (found: seq<Problem>)
    ensures found == Moves(windows, before, after)
  {
    found := [];
    for i := 0 to |windows|
      invariant found == Moves(windows[..i], before, after)
    {
      var w := windows[i];
      if w in before && w in after && !before[w].SamePlacement(after[w]) {
        found := found + [Moved(w, after[w].title, before[w], after[w])];
      }
      assert windows[..i + 1][..i] == windows[..i];
    }
    assert windows[..|windows|] == windows;
  }

  /** The findings so far are all non-empty; `problems` are the last ones and `first` the first. */
  predicate StillFailing(findings: seq<seq<Problem>>, problems: seq<Problem>, first: seq<Problem>)
  {
    && (forall k :: 0 <= k < |findings| ==> findings[k] != [])
    && (if findings == [] then first == []
        else problems == findings[|findings| - 1] && first == findings[0])
  }

  /** The verdict as it is reached, from what the attempts found. */
  predicate IsReached(outcome: RuleOutcome, matcher: string, windows: nat, findings: seq<seq<Problem>>)
  {
    && 1 <= |findings| <= ATTEMPTS
    && (forall k :: 0 <= k < |findings| - 1 ==> findings[k] != [])
    && outcome == RuleOutcome(matcher, windows,
                              if findings[|findings| - 1] == [] then |findings| - 1 else ATTEMPTS,
                              findings[|findings| - 1], findings[0])
    && (outcome.problems != [] ==> |findings| == ATTEMPTS)
  }

  lemma OneMoreFinding(findings: seq<seq<Problem>>, problems: seq<Problem>, first: seq<Problem>, found: seq<Problem>,
                       matcher: string, windows: nat)
    requires StillFailing(findings, problems, first) && |findings| < ATTEMPTS
    ensures var all := findings + [found];
      if found == [] then IsReached(RuleOutcome(matcher, windows, |findings|, [], first), matcher, windows, all)
      else StillFailing(all, found, if findings == [] then found else first)
  {
  }

  // ---------------------------------------------------- the course of a rule

  /** One attempt as it happened: the snapshots while settling, the send, the snapshots while
      settling again, and what is judged of them. */
  datatype Trial = Trial(began: World, first: seq<Sight>, asked: World, path: SendPath,
                         second: seq<Sight>, ended: World, attempt: Attempt)

  ghost predicate IsTrial(windows: seq<nat>, command: string, t: Trial)
  {
    && IsSettling(t.began, windows, t.first, t.asked)
    && IsSend(t.asked, command, t.path, t.path.read)
    && IsSettling(t.path.read, windows, t.second, t.ended)
    && t.attempt == Attempt(t.first[|t.first| - 1], t.second[|t.second| - 1])
  }

  function TrialOf(began: World, first: seq<Sight>, asked: World, path: SendPath, second: seq<Sight>, ended: World): Trial
    requires first != [] && second != []
  {
    Trial(began, first, asked, path, second, ended, Attempt(first[|first| - 1], second[|second| - 1]))
  }

  lemma TrialFinds(windows: seq<nat>, expected: Expectation, heads: seq<Head>, command: string,
                   began: World, first: seq<Sight>, asked: World, path: SendPath, second: seq<Sight>, ended: World,
                   complaints: seq<Problem>, moves: seq<Problem>)
    requires IsSettling(began, windows, first, asked) && IsSend(asked, command, path, path.read)
    requires IsSettling(path.read, windows, second, ended)
    requires complaints == AllComplaints(windows, first[|first| - 1].States(), expected, heads)
    requires moves == Moves(windows, first[|first| - 1].States(), second[|second| - 1].States())
    ensures var t := TrialOf(began, first, asked, path, second, ended);
      IsTrial(windows, command, t) && complaints + moves == Found(windows, expected, heads, t.attempt)
  {
  }

  /** Each attempt begins where the one before it ended. */
  ghost predicate AreTrials(w: World, windows: seq<nat>, command: string, trials: seq<Trial>, w': World)
  {
    if trials == [] then w == w'
    else
      var last := trials[|trials| - 1];
      && AreTrials(w, windows, command, trials[..|trials| - 1], last.began)
      && IsTrial(windows, command, last) && last.ended == w'
  }

  function AttemptsOf(trials: seq<Trial>): seq<Attempt> {
    if trials == [] then [] else AttemptsOf(trials[..|trials| - 1]) + [trials[|trials| - 1].attempt]
  }

  function SightsOf(trials: seq<Trial>): seq<Sight> {
    if trials == [] then []
    else
      var last := trials[|trials| - 1];
      SightsOf(trials[..|trials| - 1]) + last.first + last.second
  }

  lemma MoreSights(log: seq<Sight>, trials: seq<Trial>, t: Trial)
    ensures log + SightsOf(trials + [t]) == log + SightsOf(trials) + t.first + t.second
  {
    assert (trials + [t])[..|trials|] == trials;
  }

  /** Attempt `k` begins where the one before it ended, or at `w`, and finds `findings[k]`. */
  ghost predicate IsTrialAt(w: World, windows: seq<nat>, expected: Expectation, heads: seq<Head>, command: string,
                            trials: seq<Trial>, findings: seq<seq<Problem>>, k: nat)
    requires k < |trials| == |findings|
  {
    && IsTrial(windows, command, trials[k])
    && trials[k].began == (if k == 0 then w else trials[k - 1].ended)
    && findings[k] == Found(windows, expected, heads, trials[k].attempt)
  }

  /** A series of attempts and what each of them found. */
  ghost predicate IsTrying(w: World, windows: seq<nat>, expected: Expectation, heads: seq<Head>, command: string,
                           trials: seq<Trial>, findings: seq<seq<Problem>>, w': World)
  {
    && |findings| == |trials|
    && w' == (if trials == [] then w else trials[|trials| - 1].ended)
    && forall k :: 0 <= k < |trials| ==> IsTrialAt(w, windows, expected, heads, command, trials, findings, k)
  }

  lemma TryingGoesOn(w: World, windows: seq<nat>, expected: Expectation, heads: seq<Head>, command: string,
                     trials: seq<Trial>, findings: seq<seq<Problem>>, t: Trial, found: seq<Problem>)
    requires IsTrying(w, windows, expected, heads, command, trials, findings, t.began)
    requires IsTrial(windows, command, t) && found == Found(windows, expected, heads, t.attempt)
    ensures IsTrying(w, windows, expected, heads, command, trials + [t], findings + [found], t.ended)
  {
    forall k | 0 <= k <= |trials|
      ensures IsTrialAt(w, windows, expected, heads, command, trials + [t], findings + [found], k)
    {
      TrialStays(w, windows, expected, heads, command, trials, findings, t, found, k);
    }
  }

  lemma TrialStays(w: World, windows: seq<nat>, expected: Expectation, heads: seq<Head>, command: string,
                   trials: seq<Trial>, findings: seq<seq<Problem>>, t: Trial, found: seq<Problem>, k: nat)
    requires |findings| == |trials| && k <= |trials|
    requires k < |trials| ==> IsTrialAt(w, windows, expected, heads, command, trials, findings, k)
    requires IsTrial(windows, command, t) && found == Found(windows, expected, heads, t.attempt)
    requires t.began == (if trials == [] then w else trials[|trials| - 1].ended)
    ensures IsTrialAt(w, windows, expected, heads, command, trials + [t], findings + [found], k)
  {
    if k < |trials| {
      assert (trials + [t])[k] == trials[k] && (findings + [found])[k] == findings[k];
      assert k > 0 ==> (trials + [t])[k - 1] == trials[k - 1];
    }
  }

  lemma {:induction false} TryingIsTrials(w: World, windows: seq<nat>, expected: Expectation, heads: seq<Head>,
                                          command: string, trials: seq<Trial>, findings: seq<seq<Problem>>, w': World)
    requires IsTrying(w, windows, expected, heads, command, trials, findings, w')
    ensures AreTrials(w, windows, command, trials, w')
    decreases |trials|
  {
    if trials != [] {
      var last := |trials| - 1;
      var (before, found) := (trials[..last], findings[..last]);
      forall k | 0 <= k < last
        ensures IsTrialAt(w, windows, expected, heads, command, before, found, k)
      {
        assert IsTrialAt(w, windows, expected, heads, command, trials, findings, k);
        EarlierTrial(w, windows, expected, heads, command, trials, findings, k);
      }
      assert IsTrialAt(w, windows, expected, heads, command, trials, findings, last);
      assert last > 0 ==> before[last - 1] == trials[last - 1];
      TryingIsTrials(w, windows, expected, heads, command, before, found, trials[last].began);
    }
  }

  lemma EarlierTrial(w: World, windows: seq<nat>, expected: Expectation, heads: seq<Head>, command: string,
                     trials: seq<Trial>, findings: seq<seq<Problem>>, k: nat)
    requires k < |trials| - 1 && |findings| == |trials|
    requires IsTrialAt(w, windows, expected, heads, command, trials, findings, k)
    ensures IsTrialAt(w, windows, expected, heads, command, trials[..|trials| - 1], findings[..|trials| - 1], k)
  {
  }

  lemma {:induction false} AttemptsAt(trials: seq<Trial>)
    ensures |AttemptsOf(trials)| == |trials|
    ensures forall k :: 0 <= k < |trials| ==> AttemptsOf(trials)[k] == trials[k].attempt
  {
    if trials != [] {
      AttemptsAt(trials[..|trials| - 1]);
    }
  }

  lemma ReachedIsVerdict(w: World, outcome: RuleOutcome, matcher: string, windows: seq<nat>, expected: Expectation,
                         heads: seq<Head>, command: string, trials: seq<Trial>, findings: seq<seq<Problem>>, w': World)
    requires IsTrying(w, windows, expected, heads, command, trials, findings, w')
    requires IsReached(outcome, matcher, |windows|, findings)
    ensures outcome.matcher == matcher && trials != []
    ensures AreTrials(w, windows, command, trials, w')
    ensures IsVerdict(outcome, windows, expected, heads, AttemptsOf(trials), ATTEMPTS)
  {
    AttemptsAt(trials);
    TryingIsTrials(w, windows, expected, heads, command, trials, findings, w');
    forall k | 0 <= k < |trials|
      ensures findings[k] == Found(windows, expected, heads, AttemptsOf(trials)[k])
    {
      assert IsTrialAt(w, windows, expected, heads, command, trials, findings, k);
    }
  }

  /** An attempt that ended with its send unread, after its first settling. */
  ghost predicate IsCutShort(windows: seq<nat>, command: string, delivery: Delivery, t: Trial, w': World)
  {
    IsSettling(t.began, windows, t.first, t.asked) && IsUnread(t.asked, command, delivery, t.path, w')
  }

  predicate AllFailed(findings: seq<seq<Problem>>) {
    |findings| < ATTEMPTS && forall k :: 0 <= k < |findings| ==> findings[k] != []
  }

  /** Attempts that all found something, and then one that was cut short. */
  ghost predicate IsBrokenOff(w: World, windows: seq<nat>, expected: Expectation, heads: seq<Head>, command: string,
                              delivery: Delivery, trials: seq<Trial>, findings: seq<seq<Problem>>, t: Trial, w': World)
  {
    && IsTrying(w, windows, expected, heads, command, trials, findings, t.began) && AllFailed(findings)
    && IsCutShort(windows, command, delivery, t, w')
  }

  /** A rule from the moment its windows are known: the snapshot and the moves that bring
      strays back, the first send, the attempts, and one that may have been cut short. */
  datatype Course = Course(bring: seq<Sight>, moves: seq<Move>, started: World, path: SendPath,
                           trials: seq<Trial>, broken: Option<Trial>)

  /** The snapshots of the attempts, the last of which may have been cut short. */
  function AllSights(trials: seq<Trial>, broken: Option<Trial>): seq<Sight> {
    SightsOf(trials) + (if broken.Some? then broken.value.first else [])
  }

  lemma NothingMore(log: seq<Sight>, c: Course)
    requires c.trials == [] && c.broken.None?
    ensures log + AllSights(c.trials, c.broken) == log
  {
  }

  lemma SightsInAll(log: seq<Sight>, trials: seq<Trial>, broken: Option<Trial>)
    ensures log + AllSights(trials, broken)
         == if broken.Some? then log + SightsOf(trials) + broken.value.first else log + SightsOf(trials)
  {
  }

  /** Only rules for a head that is not beyond the last one look for strays. */
  predicate LooksForStrays(windows: seq<nat>, expected: Expectation, heads: seq<Head>) {
    windows != [] && expected.head.Some? && expected.head.value <= |heads|
  }

  /** Head 0 means the last head, as a negative index does; there is none without heads. */
  function CornerOf(head: nat, heads: seq<Head>): (corner: Option<Head>)
    requires head <= |heads|
    ensures corner == if heads == [] then None else Some(heads[(head - 1) % |heads|])
  {
    if head > 0 then Some(heads[head - 1]) else if heads == [] then None else Some(heads[|heads| - 1])
  }

  ghost predicate IsBringing(w: World, windows: seq<nat>, head: nat, heads: seq<Head>,
                             sight: Sight, moves: seq<Move>, w': World)
    requires head <= |heads|
  {
    && Later(w, sight.world) && Later(sight.world, w')
    && moves == (if CornerOf(head, heads).None? then []
                 else MovesTo(CornerOf(head, heads).value, Strays(windows, sight.States(), heads), |w.sent|))
  }

  ghost predicate IsStart(w: World, windows: seq<nat>, expected: Expectation, heads: seq<Head>,
                          bring: seq<Sight>, moves: seq<Move>, started: World)
  {
    if LooksForStrays(windows, expected, heads)
    then |bring| == 1 && IsBringing(w, windows, expected.head.value, heads, bring[0], moves, started)
    else bring == [] && moves == [] && started == w
  }

  ghost predicate IsStarted(w: World, windows: seq<nat>, expected: Expectation, heads: seq<Head>, command: string,
                            c: Course, w': World)
  {
    && IsStart(w, windows, expected, heads, c.bring, c.moves, c.started)
    && IsSend(c.started, command, c.path, c.path.read) && w' == c.path.read
  }

  ghost predicate IsCourse(w: World, windows: seq<nat>, expected: Expectation, heads: seq<Head>, command: string,
                           c: Course, w': World)
  {
    && IsStarted(w, windows, expected, heads, command, c, c.path.read)
    && AreTrials(c.path.read, windows, command, c.trials, w')
    && (windows == [] <==> c.trials == []) && c.broken.None?
  }

  /** A rule that ended with one of its sends unread: the first one, or one of an attempt. */
  ghost predicate IsHalted(w: World, windows: seq<nat>, expected: Expectation, heads: seq<Head>, command: string,
                           delivery: Delivery, c: Course, findings: seq<seq<Problem>>, w': World)
  {
    match c.broken
    case None =>
      && IsStart(w, windows, expected, heads, c.bring, c.moves, c.started)
      && IsUnread(c.started, command, delivery, c.path, w') && c.trials == [] && findings == []
    case Some(t) =>
      && IsStarted(w, windows, expected, heads, command, c, c.path.read) && windows != []
      && IsBrokenOff(c.path.read, windows, expected, heads, command, delivery, c.trials, findings, t, w')
  }

  /** A log followed by the same command `n` times. */
  function Followed(log: seq<string>, command: string, n: nat): seq<string> {
    if n == 0 then log else Followed(log, command, n - 1) + [command]
  }

  /** The first send of a rule, then one for each attempt. */
  lemma {:induction false} OnceAndAgain(log: seq<string>, command: string, n: nat)
    ensures Followed(log + [command], command, n) == Followed(log, command, n + 1)
  {
    if n > 0 {
      OnceAndAgain(log, command, n - 1);
    }
  }

  /** Without windows the rule is only sent; with windows its outcome is the verdict on the
      attempts. */
  ghost predicate IsPlacing(w: World, matcher: string, windows: seq<nat>, expected: Expectation, heads: seq<Head>,
                            command: string, outcome: RuleOutcome, c: Course, w': World)
  {
    && IsCourse(w, windows, expected, heads, command, c, w')
    && (if windows == [] then outcome == RuleOutcome(matcher, 0, 0, [], [])
        else outcome.matcher == matcher && IsVerdict(outcome, windows, expected, heads, AttemptsOf(c.trials), ATTEMPTS))
  }

  /** How a rule can end, from the moment its windows are known. */
  ghost predicate IsEnding(w: World, matcher: string, windows: seq<nat>, expected: Expectation, heads: seq<Head>,
                           command: string, r: Applied, c: Course, findings: seq<seq<Problem>>, w': World)
  {
    match r
    case Done(outcome) => IsPlacing(w, matcher, windows, expected, heads, command, outcome, c, w')
    case NotMatched(_) => false
    case NoSuchHead =>
      && windows != [] && heads == [] && expected.head == Some(0)
      && IsStart(w, windows, expected, heads, c.bring, c.moves, w') && c.trials == [] && c.broken.None?
    case RuleUnread(delivery) => IsHalted(w, windows, expected, heads, command, delivery, c, findings, w')
  }

  /** The windows are those of the pattern test's result, and with no test pending before that
      result is its own. */
  ghost predicate IsAsked(w: World, matcher: string, kind: string, windows: seq<nat>, f: Fetch)
  {
    && IsMatching(w, matcher, kind, TIMEOUT_SECONDS, Answered(Ids(windows)), f, f.result)
    && (NoTestPending(w) ==> IsOwnAnswer(w, f))
  }

  /** The pattern test failed, or its result is not a list of ids. */
  ghost predicate IsUnmatched(w: World, matcher: string, kind: string, matching: Matching, f: Fetch, w': World)
  {
    && IsMatching(w, matcher, kind, TIMEOUT_SECONDS, matching, f, w')
    && (matching.Answered? ==> !matching.reading.Ids?)
  }

  /** How the attempts can end: with an outcome, or with `t` cut short. */
  ghost predicate IsCertifying(w: World, matcher: string, windows: seq<nat>, expected: Expectation, heads: seq<Head>,
                               command: string, delivery: Delivery, outcome: RuleOutcome, trials: seq<Trial>,
                               findings: seq<seq<Problem>>, t: Trial, w': World)
  {
    if delivery.Delivered? then
      && IsTrying(w, windows, expected, heads, command, trials, findings, w')
      && IsReached(outcome, matcher, |windows|, findings)
    else
      IsBrokenOff(w, windows, expected, heads, command, delivery, trials, findings, t, w')
  }

  function EndOf(delivery: Delivery, outcome: RuleOutcome): Applied {
    if delivery.Delivered? then Done(outcome) else RuleUnread(delivery)
  }

  function WithTrials(c: Course, delivery: Delivery, trials: seq<Trial>, t: Trial): Course {
    c.(trials := trials, broken := if delivery.Delivered? then None else Some(t))
  }

  lemma CertifyingIsEnding(w: World, matcher: string, windows: seq<nat>, expected: Expectation, heads: seq<Head>,
                           command: string, delivery: Delivery, outcome: RuleOutcome, c: Course, trials: seq<Trial>,
                           findings: seq<seq<Problem>>, t: Trial, w': World)
    requires windows != [] && IsStarted(w, windows, expected, heads, command, c, c.path.read)
    requires IsCertifying(c.path.read, matcher, windows, expected, heads, command, delivery, outcome, trials, findings, t, w')
    ensures IsEnding(w, matcher, windows, expected, heads, command, EndOf(delivery, outcome),
                     WithTrials(c, delivery, trials, t), findings, w')
  {
    if delivery.Delivered? {
      ReachedIsVerdict(c.path.read, outcome, matcher, windows, expected, heads, command, trials, findings, w');
    }
  }

  lemma SentIsEnding(w: World, matcher: string, windows: seq<nat>, expected: Expectation, heads: seq<Head>,
                     command: string, c: Course)
    requires windows == [] && IsStarted(w, windows, expected, heads, command, c, c.path.read)
    requires c.trials == [] && c.broken.None?
    ensures IsEnding(w, matcher, windows, expected, heads, command, Done(RuleOutcome(matcher, 0, 0, [], [])), c,
                     [], c.path.read)
  {
  }

  lemma NoHeadEnding(w: World, matcher: string, windows: seq<nat>, expected: Expectation, heads: seq<Head>,
                     command: string, c: Course)
    requires windows != [] && heads == [] && expected.head == Some(0) && c.trials == [] && c.broken.None?
    requires IsStart(w, windows, expected, heads, c.bring, c.moves, c.started)
    ensures IsEnding(w, matcher, windows, expected, heads, command, NoSuchHead, c, [], c.started)
  {
  }

  lemma FirstUnread(w: World, matcher: string, windows: seq<nat>, expected: Expectation, heads: seq<Head>,
                    command: string, delivery: Delivery, c: Course, w': World)
    requires IsStart(w, windows, expected, heads, c.bring, c.moves, c.started) && c.trials == [] && c.broken.None?
    requires IsUnread(c.started, command, delivery, c.path, w')
    ensures IsEnding(w, matcher, windows, expected, heads, command, RuleUnread(delivery), c, [], w')
  {
  }

  /** What one attempt sees of the rule's sends: its first snapshot all of those before, all
      read, and its second one more. */
  ghost predicate SeesSends(a: Attempt, before: seq<string>, command: string)
  {
    && Valid(a.before.world) && Valid(a.after.world)
    && a.before.world.sent == a.before.world.consumed == before
    && a.after.world.sent == a.after.world.consumed == before + [command]
  }

  lemma TrialSends(windows: seq<nat>, command: string, t: Trial)
    requires Valid(t.began) && t.began.consumed == t.began.sent && IsTrial(windows, command, t)
    ensures SeesSends(t.attempt, t.began.sent, command)
    ensures Valid(t.ended) && t.ended.sent == t.ended.consumed == t.began.sent + [command]
    ensures NoTestPending(t.began) && !IsTest(command) ==> NoTestPending(t.ended)
  {
    SettlingSendsNothing(t.began, windows, t.first, t.asked);
    WrittenKeeps(t.asked, command, t.path, t.path.read);
    if NoTestPending(t.began) && !IsTest(command) {
      WrittenKeepsQuiet(t.asked, command, t.path, t.path.read);
    }
    SettlingSendsNothing(t.path.read, windows, t.second, t.ended);
  }

  lemma {:induction false} TrialsSend(w: World, windows: seq<nat>, command: string, trials: seq<Trial>, w': World)
    requires Valid(w) && w.consumed == w.sent && AreTrials(w, windows, command, trials, w')
    ensures |AttemptsOf(trials)| == |trials|
    ensures AllSee(AttemptsOf(trials), w.sent, command)
    ensures Valid(w') && w'.sent == w'.consumed == Followed(w.sent, command, |trials|)
    ensures NoTestPending(w) && !IsTest(command) ==> NoTestPending(w')
    decreases |trials|
  {
    if trials != [] {
      var front, last := trials[..|trials| - 1], trials[|trials| - 1];
      TrialsSend(w, windows, command, front, last.began);
      TrialSends(windows, command, last);
      OneMoreSees(AttemptsOf(front), last.attempt, w.sent, command);
    }
  }

  ghost predicate AllSee(attempts: seq<Attempt>, before: seq<string>, command: string) {
    forall k :: 0 <= k < |attempts| ==> SeesSends(attempts[k], Followed(before, command, k), command)
  }

  lemma OneMoreSees(attempts: seq<Attempt>, a: Attempt, before: seq<string>, command: string)
    requires AllSee(attempts, before, command) && SeesSends(a, Followed(before, command, |attempts|), command)
    ensures AllSee(attempts + [a], before, command)
  {
  }

  /** Over the whole course of a rule nothing but the rule is sent, once and then once for
      each attempt, and all of it is read. The snapshots of attempt `k`, counted from 0, show
      the windows after the first `k + 1` sends and after one more. */
  lemma CourseSends(w: World, windows: seq<nat>, expected: Expectation, heads: seq<Head>, command: string,
                    c: Course, w': World)
    requires Valid(w) && IsCourse(w, windows, expected, heads, command, c, w')
    ensures |AttemptsOf(c.trials)| == |c.trials|
    ensures forall k :: 0 <= k < |c.trials| ==>
      SeesSends(AttemptsOf(c.trials)[k], Followed(w.sent, command, k + 1), command)
    ensures Valid(w') && w'.sent == w'.consumed == Followed(w.sent, command, |c.trials| + 1)
    ensures NoTestPending(w) && !IsTest(command) ==> NoTestPending(w')
  {
    StartKeeps(w, windows, expected, heads, c.bring, c.moves, c.started);
    WrittenKeeps(c.started, command, c.path, c.path.read);
    if NoTestPending(w) && !IsTest(command) {
      WrittenKeepsQuiet(c.started, command, c.path, c.path.read);
    }
    TrialsSend(c.path.read, windows, command, c.trials, w');
    forall k | 0 <= k <= |c.trials|
      ensures Followed(w.sent + [command], command, k) == Followed(w.sent, command, k + 1)
    {
      OnceAndAgain(w.sent, command, k);
    }
  }

  lemma StartKeeps(w: World, windows: seq<nat>, expected: Expectation, heads: seq<Head>,
                   bring: seq<Sight>, moves: seq<Move>, started: World)
    requires Valid(w) && IsStart(w, windows, expected, heads, bring, moves, started)
    ensures Valid(started) && started.sent == w.sent && (w.slot.None? ==> started.slot.None?)
    ensures NoTestPending(w) ==> NoTestPending(started)
  {
    if LooksForStrays(windows, expected, heads) {
      LaterTrans(w, bring[0].world, started);
    } else {
      LaterSelf(w);
    }
    LaterKeeps(w, started);
    if NoTestPending(w) {
      LaterKeepsQuiet(w, started);
    }
  }

  /** How many commands reached the mailbox and were read when a send stayed unread: an earlier
      command can be in the way of the first send only; the sends before the failing one were
      all read; the failing one was written at most once, and by nothing else. */
  lemma HaltedSends(w: World, windows: seq<nat>, expected: Expectation, heads: seq<Head>, command: string,
                    delivery: Delivery, c: Course, findings: seq<seq<Problem>>, w': World)
    requires Valid(w) && IsHalted(w, windows, expected, heads, command, delivery, c, findings, w')
    ensures var before := if c.broken.None? then 0 else |c.trials| + 1;
      && Valid(w') && before <= ATTEMPTS && !delivery.Delivered?
      && (delivery.EarlierUnread? ==> w.slot.Some? && before == 0 && w'.sent == w.sent)
      && (delivery.NotRead? ==>
            && w'.sent == Followed(w.sent, command, before + 1)
            && Followed(w.sent, command, before) <= w'.consumed)
      && (NoTestPending(w) && !IsTest(command) ==> NoTestPending(w'))
  {
    StartKeeps(w, windows, expected, heads, c.bring, c.moves, c.started);
    if c.broken.None? {
      UnreadKeeps(c.started, command, delivery, c.path, w');
    } else {
      var t := c.broken.value;
      WrittenKeeps(c.started, command, c.path, c.path.read);
      if NoTestPending(w) && !IsTest(command) {
        WrittenKeepsQuiet(c.started, command, c.path, c.path.read);
      }
      BrokenSends(c.path.read, windows, expected, heads, command, delivery, c.trials, findings, t, w');
      OnceAndAgain(w.sent, command, |c.trials|);
      OnceAndAgain(w.sent, command, |c.trials| + 1);
    }
  }

  lemma BrokenSends(w: World, windows: seq<nat>, expected: Expectation, heads: seq<Head>, command: string,
                    delivery: Delivery, trials: seq<Trial>, findings: seq<seq<Problem>>, t: Trial, w': World)
    requires Valid(w) && w.consumed == w.sent
    requires IsBrokenOff(w, windows, expected, heads, command, delivery, trials, findings, t, w')
    ensures Valid(w') && |trials| < ATTEMPTS && delivery.NotRead?
    ensures w'.sent == Followed(w.sent, command, |trials| + 1) && Followed(w.sent, command, |trials|) <= w'.consumed
    ensures NoTestPending(w) && !IsTest(command) ==> NoTestPending(w')
  {
    TryingIsTrials(w, windows, expected, heads, command, trials, findings, t.began);
    TrialsSend(w, windows, command, trials, t.began);
    SettlingSendsNothing(t.began, windows, t.first, t.asked);
    EmptySlotStays(t.began, windows, t.first, t.asked);
    UnreadKeeps(t.asked, command, delivery, t.path, w');
  }

  lemma UnreadKeeps(w: World, command: string, delivery: Delivery, p: SendPath, w': World)
    requires Valid(w) && IsUnread(w, command, delivery, p, w')
    ensures Valid(w') && w.consumed <= w'.consumed
    ensures delivery.EarlierUnread? ==> w.slot.Some? && w'.sent == w.sent
    ensures delivery.NotRead? ==> w'.sent == w.sent + [command] && w.sent <= w'.consumed
    ensures NoTestPending(w) && !IsTest(command) ==> NoTestPending(w')
  {
    var quiet := NoTestPending(w) && !IsTest(command);
    if delivery.EarlierUnread? {
      LaterKeeps(w, w');
      if quiet {
        LaterKeepsQuiet(w, w');
      }
    } else {
      WrittenKeeps(w, command, p, w');
      if quiet {
        WrittenKeepsQuiet(w, command, p, w');
      }
    }
  }

  /** However a rule ends, it leaves no test pending that was not pending before. */
  lemma EndingKeepsQuiet(w: World, matcher: string, windows: seq<nat>, expected: Expectation, heads: seq<Head>,
                         command: string, r: Applied, c: Course, findings: seq<seq<Problem>>, w': World)
    requires Valid(w) && IsEnding(w, matcher, windows, expected, heads, command, r, c, findings, w')
    ensures NoTestPending(w) && !IsTest(command) ==> NoTestPending(w')
  {
    match r {
      case Done(_) => CourseSends(w, windows, expected, heads, command, c, w');
      case NoSuchHead => StartKeeps(w, windows, expected, heads, c.bring, c.moves, w');
      case RuleUnread(delivery) => HaltedSends(w, windows, expected, heads, command, delivery, c, findings, w');
      case NotMatched(_) => assert false;
    }
  }

  /** After a pattern test of its own was read, a rule finds no earlier command in its way, and
      however it ends it leaves no test pending that was not pending before. */
  lemma AfterOwnTest(w: World, matcher: string, kind: string, f: Fetch, windows: seq<nat>, expected: Expectation,
                     heads: seq<Head>, command: string, r: Applied, c: Course, findings: seq<seq<Problem>>, w': World)
    requires Valid(w) && IsAsked(w, matcher, kind, windows, f)
    requires IsEnding(f.result, matcher, windows, expected, heads, command, r, c, findings, w')
    ensures r.RuleUnread? ==> r.delivery.NotRead?
    ensures NoTestPending(w) && !IsTest(command) ==> NoTestPending(w')
  {
    FetchConserves(w, matcher, f, f.result);
    if NoTestPending(w) {
      FetchIsFresh(w, matcher, f, f.result);
    }
    EndingKeepsQuiet(f.result, matcher, windows, expected, heads, command, r, c, findings, w');
    if r.RuleUnread? {
      HaltedSends(f.result, windows, expected, heads, command, r.delivery, c, findings, w');
    }
  }

  lemma EmptySlotStays(w: World, windows: seq<nat>, sights: seq<Sight>, w': World)
    requires Valid(w) && w.consumed == w.sent && IsSettling(w, windows, sights, w')
    ensures w'.slot.None? && w'.consumed == w'.sent
  {
    InTurnIsLater(w, Worlds(sights), w');
    LaterKeeps(w, w');
  }

  /** A clean outcome of a course certifies its rule, if Fluxbox was idle at the last
      attempt's two snapshots and nothing else moved the windows in between. */
  lemma CleanCourseCertifies(w: World, windows: seq<nat>, expected: Expectation, heads: seq<Head>, command: string,
                             c: Course, w': World, outcome: RuleOutcome, effect: (string, Desk) -> Desk)
    requires Valid(w) && IsCourse(w, windows, expected, heads, command, c, w')
    requires IsVerdict(outcome, windows, expected, heads, AttemptsOf(c.trials), ATTEMPTS) && outcome.problems == []
    requires var a := AttemptsOf(c.trials)[|AttemptsOf(c.trials)| - 1]; Undisturbed(windows, effect, a.before, a.after)
    ensures var a := AttemptsOf(c.trials)[|AttemptsOf(c.trials)| - 1];
      var (before, after) := (a.before.States(), a.after.States());
      var repeated := ViewAll(effect(command, a.before.desk));
      forall w :: w in windows && w in before && w in after ==>
        && Meets(before[w], expected, heads) && Meets(after[w], expected, heads)
        && w in repeated && repeated[w].SamePlacement(before[w])
  {
    CourseSends(w, windows, expected, heads, command, c, w');
    var attempts := AttemptsOf(c.trials);
    assert SeesSends(attempts[|attempts| - 1], Followed(w.sent, command, |attempts|), command);
    CleanOutcomeCertifies(outcome, windows, expected, heads, attempts, ATTEMPTS, effect, command);
  }

  // ------------------------------------------- what a course shows of the rule

  /** With Fluxbox idle, the snapshot shows what the commands read since `w` made of the
      windows, each of them performed or lost, and nothing else. Titles may have changed. */
  predicate Shows(windows: seq<nat>, w: World, rule: Desk -> Desk, start: Desk, effective: seq<bool>, s: Sight) {
    var n := |s.world.consumed| - |w.sent|;
    && Idle(s.world) && 0 <= n <= |effective|
    && SameOn(windows, s.States(), ViewAll(DeskAfter(rule, start, effective, n)))
  }

  /** Fluxbox was idle at all judged snapshots, and nothing but the rule moved the windows. */
  predicate AllShow(windows: seq<nat>, w: World, rule: Desk -> Desk, start: Desk, effective: seq<bool>, attempts: seq<Attempt>) {
    forall k :: 0 <= k < |attempts| ==> AttemptShows(windows, w, rule, start, effective, attempts[k])
  }

  predicate AttemptShows(windows: seq<nat>, w: World, rule: Desk -> Desk, start: Desk, effective: seq<bool>, a: Attempt) {
    Shows(windows, w, rule, start, effective, a.before) && Shows(windows, w, rule, start, effective, a.after)
  }

  lemma {:induction false} FollowedBy(log: seq<string>, command: string, n: nat)
    ensures |Followed(log, command, n)| == |log| + n
  {
    if n > 0 {
      FollowedBy(log, command, n - 1);
    }
  }

  /** Then the snapshots are those of the sends they follow, by the account of the mailbox. */
  lemma CourseObserves(w: World, windows: seq<nat>, expected: Expectation, heads: seq<Head>, command: string,
                       c: Course, w': World, rule: Desk -> Desk, start: Desk, effective: seq<bool>)
    requires Valid(w) && IsCourse(w, windows, expected, heads, command, c, w')
    requires |c.trials| + 1 <= |effective| && AllShow(windows, w, rule, start, effective, AttemptsOf(c.trials))
    ensures |AttemptsOf(c.trials)| == |c.trials|
    ensures Observes(windows, AttemptsOf(c.trials), rule, start, effective)
  {
    CourseSends(w, windows, expected, heads, command, c, w');
    var attempts := AttemptsOf(c.trials);
    forall k | 0 <= k < |attempts|
      ensures SameOn(windows, attempts[k].before.States(), ViewAll(DeskAfter(rule, start, effective, k + 1)))
      ensures SameOn(windows, attempts[k].after.States(), ViewAll(DeskAfter(rule, start, effective, k + 2)))
    {
      assert SeesSends(attempts[k], Followed(w.sent, command, k + 1), command);
      AttemptObserved(windows, w, command, rule, start, effective, attempts[k], k);
    }
  }

  lemma AttemptObserved(windows: seq<nat>, w: World, command: string, rule: Desk -> Desk, start: Desk,
                        effective: seq<bool>, a: Attempt, k: nat)
    requires SeesSends(a, Followed(w.sent, command, k + 1), command) && k + 2 <= |effective|
    requires AttemptShows(windows, w, rule, start, effective, a)
    ensures SameOn(windows, a.before.States(), ViewAll(DeskAfter(rule, start, effective, k + 1)))
    ensures SameOn(windows, a.after.States(), ViewAll(DeskAfter(rule, start, effective, k + 2)))
  {
    FollowedBy(w.sent, command, k + 1);
  }

  /** The moves of a course bring the windows to where the rule is certified from. */
  lemma CourseStart(w: World, promised: Expectation, windows: seq<nat>, fx: Fluxbox, desk: Desk,
                    bring: seq<Sight>, moves: seq<Move>, started: World)
    requires IsStart(w, windows, promised, fx.heads, bring, moves, started)
    requires PlacementLaws.ValidPromise(promised, fx) && (bring != [] ==> desk == bring[0].desk)
    ensures AfterMoves(desk, moves) == BroughtDesk(promised, windows, fx, desk)
  {
    if LooksForStrays(windows, promised, fx.heads) {
      StraysAreBrought(promised, windows, fx, desk, |w.sent|);
    } else {
      NothingBrought(promised, windows, fx, desk);
    }
  }

  lemma NothingBrought(promised: Expectation, windows: seq<nat>, fx: Fluxbox, desk: Desk)
    requires PlacementLaws.ValidPromise(promised, fx) && (promised.head.None? || windows == [])
    ensures BroughtDesk(promised, windows, fx, desk) == desk
  {
  }

  /** The course of a rule of placing commands whose windows have room on its heads: its
      repairs are the sends lost before the first that took effect, and a clean outcome is
      right, whatever sends were lost. */
  lemma FlatCourse(w: World, matcher: string, commands: seq<string>, windows: seq<nat>, fx: Fluxbox, command: string,
                   outcome: RuleOutcome, c: Course, w': World, desk: Desk, effective: seq<bool>)
    requires Valid(w) && windows != []
    requires IsPlacing(w, matcher, windows, Summary(AllParts(commands)), fx.heads, command, outcome, c, w')
    requires IsFlatRule(commands, fx) && CanPlace(commands, windows, fx, desk) && (c.bring != [] ==> desk == c.bring[0].desk)
    requires ATTEMPTS + 1 <= |effective|
    requires AllShow(windows, w, RuleOn(Combine(commands), windows, fx), AfterMoves(desk, c.moves), effective, AttemptsOf(c.trials))
    ensures var (rule, start) := (RuleOn(Combine(commands), windows, fx), AfterMoves(desk, c.moves));
      && (!AllMeet(windows, ViewAll(start), Summary(AllParts(commands)), fx.heads) ==>
            var lost := FirstEffective(effective);
            && (outcome.problems == [] <==> lost < ATTEMPTS)
            && outcome.repairs == (if lost < ATTEMPTS then lost else ATTEMPTS))
      && (outcome.problems == [] ==>
            && AttemptsOf(c.trials) != []
            && SameOn(windows, AttemptsOf(c.trials)[|AttemptsOf(c.trials)| - 1].after.States(), ViewAll(rule(start))))
  {
    var (promised, rule, attempts) := (Summary(AllParts(commands)), RuleOn(Combine(commands), windows, fx), AttemptsOf(c.trials));
    AttemptsAt(c.trials);
    CourseObserves(w, windows, promised, fx.heads, command, c, w', rule, AfterMoves(desk, c.moves), effective);
    CourseStart(w, promised, windows, fx, desk, c.bring, c.moves, c.started);
    if !AllMeet(windows, ViewAll(BroughtDesk(promised, windows, fx, desk)), promised, fx.heads) {
      FlatRuleRepairCount(outcome, commands, windows, fx, desk, attempts, ATTEMPTS, effective);
    }
    if outcome.problems == [] {
      FlatCleanIsRight(outcome, commands, windows, fx, desk, attempts, ATTEMPTS, effective);
    }
  }

  /** The course of a rule of placing commands for one head, on any heads and from any state:
      after a clean outcome the windows are as promised and the rule would move none. */
  lemma OneHeadCourse(w: World, matcher: string, commands: seq<string>, windows: seq<nat>, fx: Fluxbox, command: string,
                      outcome: RuleOutcome, c: Course, w': World, start: Desk, effective: seq<bool>)
    requires Valid(w) && windows != []
    requires IsPlacing(w, matcher, windows, Summary(AllParts(commands)), fx.heads, command, outcome, c, w')
    requires IsFlatRule(commands, fx) && PlacementLaws.OneHead(AllParts(commands))
    requires ATTEMPTS + 1 <= |effective|
    requires AllShow(windows, w, RuleOn(Combine(commands), windows, fx), start, effective, AttemptsOf(c.trials))
    requires outcome.problems == []
    ensures |AttemptsOf(c.trials)| == |c.trials| > 0
    ensures var (rule, shown) := (RuleOn(Combine(commands), windows, fx), AttemptsOf(c.trials)[|c.trials| - 1].after.States());
      && AllMeet(windows, shown, Summary(AllParts(commands)), fx.heads)
      && SameOn(windows, shown, ViewAll(rule(DeskAfter(rule, start, effective, |c.trials| + 1))))
  {
    AttemptsAt(c.trials);
    CourseObserves(w, windows, Summary(AllParts(commands)), fx.heads, command, c, w',
                   RuleOn(Combine(commands), windows, fx), start, effective);
    OneHeadCleanIsRight(outcome, commands, windows, fx, start, AttemptsOf(c.trials), ATTEMPTS, effective);
  }

  // ----------------------------------------------------------------- methods

  /** The desktop as the script sees it through Fluxbox and wmctrl. */
  class Desktop {
    const display: Display
    /** Every snapshot taken and every window moved, in order. */
    ghost var seen: seq<Sight>
    ghost var moves: seq<Move>

    constructor (display: Display)
      ensures this.display == display && seen == [] && moves == []
    {
      this.display := display;
      seen, moves := [], [];
    }

    method WindowStates() returns (states: Snapshot, ghost sight: Sight)
      requires Valid(display.world)
      modifies `seen, display`world
      ensures Later(old(display.world), display.world) && Valid(display.world)
      ensures display.world.clock >= old(display.world.clock)
      ensures sight.world == display.world && states == sight.States() && seen == old(seen) + [sight]
    {
      display.Interleave();
      var desk: Desk := *;
      sight := Sight(desk, display.world);
      seen := seen + [sight];
      states := ViewAll(desk);
    }

    /** Sleeps, then takes a snapshot. */
    method StatesAfter(seconds: real) returns (states: Snapshot, ghost sight: Sight)
      requires Valid(display.world)
      modifies `seen, display`world
      ensures Later(old(display.world), display.world) && Valid(display.world)
      ensures display.world.clock >= old(display.world.clock) + seconds
      ensures sight.world == display.world && states == sight.States() && seen == old(seen) + [sight]
    {
      display.Sleep(seconds);
      ghost var slept := display.world;
      states, sight := WindowStates();
      LaterTrans(old(display.world), slept, display.world);
    }

    method MoveWindow(window: nat, x: int, y: int)
      requires Valid(display.world)
      modifies `moves, display`world
      ensures Later(old(display.world), display.world) && Valid(display.world)
      ensures moves == old(moves) + [Move(window, x, y, |old(display.world.sent)|)]
    {
      ghost var before := display.world;
      display.Interleave();
      LaterKeeps(before, display.world);
      moves := moves + [Move(window, x, y, |display.world.sent|)];
    }

    /** Takes snapshots until two in a row agree or the timeout has passed, and returns the
        last one taken. */
    method SettledStates(windows: seq<nat>) returns (current: Snapshot, ghost sights: seq<Sight>)
      requires Valid(display.world)
      modifies `seen, display`world
      ensures Valid(display.world) && seen == old(seen) + sights
      ensures IsSettling(old(display.world), windows, sights, display.world)
      ensures current == sights[|sights| - 1].States()
    {
      ghost var w0, log := display.world, seen;
      var start := display.Monotonic();
      var deadline := start + SETTLE_TIMEOUT_SECONDS;
      ghost var w1 := display.world;
      var previous;
      ghost var sight;
      previous, sight := WindowStates();
      NextSight(w0, [], w1, sight);
      sights := [sight];
      while true
        invariant Valid(display.world) && seen == log + sights
        invariant IsUnsettled(w0, windows, sights, display.world, start)
        invariant previous == sights[|sights| - 1].States()
        decreases MAX_SNAPSHOTS - |sights|
      {
        w1 := display.world;
        current, sight := StatesAfter(SETTLE_POLL_SECONDS);
        var settled := Agree(windows, previous, current);
        ghost var earlier := sights;
        sights := earlier + [sight];
        Regrouped(log, earlier, [sight]);
        if settled {
          LaterSelf(display.world);
          Settled(w0, windows, earlier, w1, sight, display.world, start);
          return;
        }
        var now := display.Monotonic();
        if now >= deadline {
          Settled(w0, windows, earlier, w1, sight, display.world, start);
          return;
        }
        StillUnsettled(w0, windows, earlier, w1, sight, display.world, start);
        previous := current;
      }
    }

    /** Moves every stray, and no other window, to the head's corner; fails, having moved
        nothing, when there is no head. */
    method BringOntoHead(windows: seq<nat>, head: nat, heads: seq<Head>)
      returns (done: bool, ghost sight: Sight, ghost made: seq<Move>)
      requires Valid(display.world) && head <= |heads|
      modifies `seen, `moves, display`world
      ensures Valid(display.world) && seen == old(seen) + [sight] && moves == old(moves) + made
      ensures IsBringing(old(display.world), windows, head, heads, sight, made, display.world)
      ensures done <==> head > 0 || heads != []
    {
      ghost var w0, log := display.world, moves;
      var states;
      states, sight := WindowStates();
      LaterSelf(display.world);
      made := [];
      if head == 0 && heads == [] {
        return false, sight, made;
      }
      var corner := if head > 0 then heads[head - 1] else heads[|heads| - 1];
      LaterKeeps(w0, display.world);
      made := MoveStrays(windows, states, heads, corner);
      return true, sight, made;
    }

    method MoveStrays(windows: seq<nat>, states: Snapshot, heads: seq<Head>, corner: Head) returns (ghost made: seq<Move>)
      requires Valid(display.world)
      modifies `moves, display`world
      ensures Later(old(display.world), display.world) && Valid(display.world) && moves == old(moves) + made
      ensures made == MovesTo(corner, Strays(windows, states, heads), |old(display.world.sent)|)
    {
      ghost var w0, log := display.world, moves;
      LaterSelf(w0);
      made := [];
      for i := 0 to |windows|
        invariant Later(w0, display.world) && Valid(display.world) && moves == log + made
        invariant made == MovesTo(corner, Strays(windows[..i], states, heads), |w0.sent|)
      {
        ghost var w1 := display.world;
        LaterKeeps(w0, w1);
        NextStray(windows, i, states, heads, corner, |w0.sent|, log);
        if windows[i] in states && HeadOf(states[windows[i]], heads).None? {
          MoveWindow(windows[i], corner.x, corner.y);
          made := made + [Move(windows[i], corner.x, corner.y, |w0.sent|)];
          LaterTrans(w0, w1, display.world);
        }
      }
      assert windows[..|windows|] == windows;
    }

    /** One attempt: settle, judge, repeat the rule, settle, look for movement. */
    method Try(windows: seq<nat>, mapCommand: string, expected: Expectation, heads: seq<Head>)
      returns (delivery: Delivery, found: seq<Problem>, ghost t: Trial)
      requires Valid(display.world)
      modifies `seen, display`world, display`polls
      ensures Valid(display.world)
      ensures delivery.Delivered? ==>
        && IsTrial(windows, mapCommand, t) && t.began == old(display.world) && t.ended == display.world
        && seen == old(seen) + t.first + t.second
        && found == Found(windows, expected, heads, t.attempt)
      ensures !delivery.Delivered? ==>
        && IsCutShort(windows, mapCommand, delivery, t, display.world) && t.began == old(display.world)
        && seen == old(seen) + t.first
      ensures !delivery.Delivered? ==> display.polls != [] && display.polls[|display.polls| - 1].slot.Some?
    {
      ghost var w0 := display.world;
      var before, after;
      ghost var first, asked, path, second;
      before, found, delivery, first, asked, path := JudgeAndRepeat(windows, mapCommand, expected, heads);
      t := TrialOf(w0, first, asked, path, first, asked);
      if !delivery.Delivered? {
        return;
      }
      after, second := SettledStates(windows);
      var moves := CollectMoves(windows, before, after);
      TrialFinds(windows, expected, heads, mapCommand, w0, first, asked, path, second, display.world, found, moves);
      t := TrialOf(w0, first, asked, path, second, display.world);
      found := found + moves;
    }

    /** The first half of an attempt: settle, judge, and repeat the rule. */
    method JudgeAndRepeat(windows: seq<nat>, mapCommand: string, expected: Expectation, heads: seq<Head>)
      returns (before: Snapshot, complaints: seq<Problem>, delivery: Delivery,
               ghost first: seq<Sight>, ghost asked: World, ghost path: SendPath)
      requires Valid(display.world)
      modifies `seen, display`world, display`polls
      ensures Valid(display.world) && seen == old(seen) + first
      ensures IsSettling(old(display.world), windows, first, asked) && before == first[|first| - 1].States()
      ensures complaints == AllComplaints(windows, before, expected, heads)
      ensures delivery.Delivered? ==> IsSend(asked, mapCommand, path, path.read) && display.world == path.read
      ensures !delivery.Delivered? ==> IsUnread(asked, mapCommand, delivery, path, display.world)
      ensures !delivery.Delivered? ==> display.polls != [] && display.polls[|display.polls| - 1].slot.Some?
    {
      ghost var w0 := display.world;
      before, first := SettledStates(windows);
      asked := display.world;
      SettlingSendsNothing(w0, windows, first, asked);
      complaints := CollectProblems(windows, before, expected, heads);
      delivery, path := display.Send(mapCommand, TIMEOUT_SECONDS);
    }

    /** Attempts until one is clean, at most ATTEMPTS of them. */
    method Certify(matcher: string, windows: seq<nat>, mapCommand: string, expected: Expectation, heads: seq<Head>)
      returns (delivery: Delivery, outcome: RuleOutcome,
               ghost trials: seq<Trial>, ghost findings: seq<seq<Problem>>, ghost t: Trial)
      requires Valid(display.world)
      modifies `seen, display`world, display`polls
      ensures Valid(display.world)
      ensures IsCertifying(old(display.world), matcher, windows, expected, heads, mapCommand, delivery, outcome, trials,
                           findings, t, display.world)
      ensures delivery.Delivered? ==> seen == old(seen) + SightsOf(trials)
      ensures !delivery.Delivered? ==> seen == old(seen) + SightsOf(trials) + t.first
      ensures !delivery.Delivered? ==> display.polls != [] && display.polls[|display.polls| - 1].slot.Some?
    {
      var first: seq<Problem>, problems: seq<Problem> := [], [];
      trials, findings := [], [];
      ghost var w0, log := display.world, seen;
      t := Trial(w0, [], w0, SendPath(w0, w0, w0), [], w0, Attempt(Sight(map[], w0), Sight(map[], w0)));
      outcome := RuleOutcome(matcher, |windows|, 0, [], []);
      for attempt := 0 to ATTEMPTS
        invariant Valid(display.world) && |findings| == attempt && seen == log + SightsOf(trials)
        invariant IsTrying(w0, windows, expected, heads, mapCommand, trials, findings, display.world)
        invariant StillFailing(findings, problems, first)
      {
        ghost var earlier := problems;
        delivery, problems, t := Try(windows, mapCommand, expected, heads);
        if !delivery.Delivered? {
          return;
        }
        OneMoreFinding(findings, earlier, first, problems, matcher, |windows|);
        TryingGoesOn(w0, windows, expected, heads, mapCommand, trials, findings, t, problems);
        MoreSights(log, trials, t);
        trials, findings := trials + [t], findings + [problems];
        if problems == [] {
          outcome := RuleOutcome(matcher, |windows|, attempt, [], first);
          return;
        }
        if attempt == 0 {
          first := problems;
        }
      }
      delivery := Delivered;
      outcome := RuleOutcome(matcher, |windows|, ATTEMPTS, problems, first);
    }

    /** Brings strays back, sends the rule, and certifies it when it has windows. */
    method PlaceWindows(matcher: string, windows: seq<nat>, mapCommand: string, expected: Expectation, heads: seq<Head>)
      returns (r: Applied, ghost c: Course, ghost findings: seq<seq<Problem>>)
      requires Valid(display.world)
      modifies `seen, `moves, display`world, display`polls
      ensures Valid(display.world)
      ensures IsEnding(old(display.world), matcher, windows, expected, heads, mapCommand, r, c, findings, display.world)
      ensures seen == old(seen) + c.bring + AllSights(c.trials, c.broken) && moves == old(moves) + c.moves
      ensures r.RuleUnread? ==> display.polls != [] && display.polls[|display.polls| - 1].slot.Some?
      ensures !r.NotMatched? && (r.NoSuchHead? <==> windows != [] && heads == [] && expected.head == Some(0))
    {
      ghost var w0 := display.world;
      var ended;
      ended, c := StartRule(matcher, windows, mapCommand, expected, heads);
      if ended.None? {
        r, c, findings := JudgeRule(matcher, windows, mapCommand, expected, heads, w0, c);
      } else {
        r, findings := ended.value, [];
        NothingMore(seen, c);
      }
    }

    method JudgeRule(matcher: string, windows: seq<nat>, mapCommand: string, expected: Expectation, heads: seq<Head>,
                     ghost w: World, ghost c0: Course)
      returns (r: Applied, ghost c: Course, ghost findings: seq<seq<Problem>>)
      requires Valid(display.world) && windows != []
      requires IsStarted(w, windows, expected, heads, mapCommand, c0, display.world)
      modifies `seen, display`world, display`polls
      ensures Valid(display.world)
      ensures IsEnding(w, matcher, windows, expected, heads, mapCommand, r, c, findings, display.world)
      ensures seen == old(seen) + AllSights(c.trials, c.broken) && c.bring == c0.bring && c.moves == c0.moves
      ensures r.RuleUnread? ==> display.polls != [] && display.polls[|display.polls| - 1].slot.Some?
      ensures !r.NoSuchHead? && !r.NotMatched?
    {
      ghost var log := seen;
      var delivery, outcome;
      ghost var trials, t;
      delivery, outcome, trials, findings, t := Certify(matcher, windows, mapCommand, expected, heads);
      CertifyingIsEnding(w, matcher, windows, expected, heads, mapCommand, delivery, outcome, c0, trials, findings, t,
                         display.world);
      c := WithTrials(c0, delivery, trials, t);
      SightsInAll(log, c.trials, c.broken);
      r := EndOf(delivery, outcome);
    }

    /** Brings strays back and sends the rule for the first time; without windows that is all. */
    method StartRule(matcher: string, windows: seq<nat>, mapCommand: string, expected: Expectation, heads: seq<Head>)
      returns (ended: Option<Applied>, ghost c: Course)
      requires Valid(display.world)
      modifies `seen, `moves, display`world, display`polls
      ensures Valid(display.world) && c.trials == [] && c.broken.None?
      ensures seen == old(seen) + c.bring && moves == old(moves) + c.moves
      ensures ended == Some(NoSuchHead) <==> windows != [] && heads == [] && expected.head == Some(0)
      ensures ended.None? ==> windows != [] && IsStarted(old(display.world), windows, expected, heads, mapCommand, c, display.world)
      ensures ended.Some? ==>
        && !ended.value.NotMatched?
        && IsEnding(old(display.world), matcher, windows, expected, heads, mapCommand, ended.value, c, [], display.world)
      ensures ended.Some? && ended.value.RuleUnread? ==> display.polls != [] && display.polls[|display.polls| - 1].slot.Some?
    {
      ghost var w0 := display.world;
      var done;
      ghost var bring, made;
      done, bring, made := BringStrays(windows, expected, heads);
      ghost var started := display.world;
      c := Course(bring, made, started, SendPath(w0, w0, w0), [], None);
      if !done {
        NoHeadEnding(w0, matcher, windows, expected, heads, mapCommand, c);
        return Some(NoSuchHead), c;
      }
      var delivery;
      ghost var path;
      delivery, path := display.Send(mapCommand, TIMEOUT_SECONDS);
      c := Course(bring, made, started, path, [], None);
      if !delivery.Delivered? {
        FirstUnread(w0, matcher, windows, expected, heads, mapCommand, delivery, c, display.world);
        return Some(RuleUnread(delivery)), c;
      }
      if windows != [] {
        return None, c;
      }
      SentIsEnding(w0, matcher, windows, expected, heads, mapCommand, c);
      return Some(Done(RuleOutcome(matcher, 0, 0, [], []))), c;
    }

    /** Only a rule for a head that is not beyond the last one brings strays back. */
    method BringStrays(windows: seq<nat>, expected: Expectation, heads: seq<Head>)
      returns (done: bool, ghost bring: seq<Sight>, ghost made: seq<Move>)
      requires Valid(display.world)
      modifies `seen, `moves, display`world
      ensures IsStart(old(display.world), windows, expected, heads, bring, made, display.world)
      ensures Valid(display.world) && seen == old(seen) + bring && moves == old(moves) + made
      ensures !done <==> windows != [] && heads == [] && expected.head == Some(0)
      ensures !done ==> made == []
    {
      done, bring, made := true, [], [];
      if windows != [] && expected.head.Some? && expected.head.value <= |heads| {
        ghost var sight;
        done, sight, made := BringOntoHead(windows, expected.head.value, heads);
        bring := [sight];
      }
    }

    /** Applies a rule and judges it. The windows are those of the pattern test's result, its
        own one when no other test was pending; from that result on the display, the snapshots
        and the moves are those of one course of the rule, and the outcome is the verdict its
        attempts deserve. When the rule stays unread, everything recorded is such a course up to
        the failing send, which was written. No test is left pending unless the pattern test
        itself timed out. */
    method ApplyRule(matcher: string, mapCommand: string, commands: seq<string>, heads: seq<Head>)
      returns (r: Applied, ghost windows: seq<nat>, ghost f: Fetch, ghost c: Course, ghost findings: seq<seq<Problem>>)
      requires Valid(display.world)
      modifies `seen, `moves, display
      ensures Valid(display.world)
      ensures r.NotMatched? ==>
        && IsUnmatched(old(display.world), matcher, display.kind, r.matching, f, display.world)
        && seen == old(seen) && moves == old(moves)
      ensures !r.NotMatched? ==>
        && IsAsked(old(display.world), matcher, display.kind, windows, f)
        && display.looks != [] && f.result == display.looks[|display.looks| - 1]
      ensures !r.NotMatched? ==>
        && IsEnding(f.result, matcher, windows, Summary(AllParts(commands)), heads, mapCommand, r, c, findings, display.world)
        && (r.RuleUnread? ==> r.delivery.NotRead?)
        && seen == old(seen) + c.bring + AllSights(c.trials, c.broken) && moves == old(moves) + c.moves
      ensures r.RuleUnread? ==> display.polls != [] && display.polls[|display.polls| - 1].slot.Some?
      ensures NoTestPending(old(display.world)) && !IsTest(mapCommand)
              && !(r.NotMatched? && (r.matching.NoResult? || r.matching == NotDelivered(NotRead)))
              ==> NoTestPending(display.world)
    {
      ghost var start := display.world;
      var matching, listed;
      matching, listed, f := Ask(matcher);
      ghost var w := display.world;
      if listed.None? {
        windows, c, findings := [], Course([], [], w, SendPath(w, w, w), [], None), [];
        return NotMatched(matching), windows, f, c, findings;
      }
      windows := listed.value;
      var expected := Expect(commands);
      r, c, findings := PlaceWindows(matcher, listed.value, mapCommand, expected, heads);
      AfterOwnTest(start, matcher, display.kind, f, windows, expected, heads, mapCommand, r, c, findings, display.world);
    }

    /** Ask before applying: the rule may move windows out of its own pattern. */
    method Ask(matcher: string) returns (matching: Matching, listed: Option<seq<nat>>, ghost f: Fetch)
      requires Valid(display.world)
      modifies display
      ensures Valid(display.world)
      ensures listed.None? ==> IsUnmatched(old(display.world), matcher, display.kind, matching, f, display.world)
      ensures listed.Some? ==>
        && IsAsked(old(display.world), matcher, display.kind, listed.value, f) && display.world == f.result
        && display.looks != [] && f.result == display.looks[|display.looks| - 1]
      ensures NoTestPending(old(display.world)) && !(matching.NoResult? || matching == NotDelivered(NotRead))
              ==> NoTestPending(display.world)
    {
      matching, f := display.MatchingWindows(matcher, TIMEOUT_SECONDS);
      listed := if matching.Answered? && matching.reading.Ids? then Some(matching.reading.ids) else None;
    }
  }
}
