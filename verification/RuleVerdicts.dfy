/** What the outcome of applying a layout rule means: the judgement of each attempt, the
    verdict over all attempts, and when that verdict can be trusted. */
module RuleVerdicts {
  import opened Options
  import opened MacroCommands
  import opened RuleSummary
  import opened Placement
  import opened PlacementLaws
  import opened Mailbox

  type Snapshot = map<nat, WindowState>

  /** The windows as Fluxbox holds them. */
  type Desk = map<nat, Window>

  function ViewAll(desk: Desk): Snapshot {
    map w | w in desk :: View(desk[w])
  }

  /** The windows at the moment of one snapshot, and the mailbox. */
  datatype Sight = Sight(desk: Desk, world: World) {

    /** What the snapshot shows. */
    function States(): Snapshot { ViewAll(desk) }
  }

  /** The snapshots before and after the rule is repeated. */
  datatype Attempt = Attempt(before: Sight, after: Sight)

  datatype RuleOutcome = RuleOutcome(matcher: string, windows: nat, repairs: nat,
                                     problems: seq<Problem>, repaired: seq<Problem>)

  // ------------------------------------------------------------ one attempt

  function Lookup(states: Snapshot, window: nat): Option<WindowState> {
    if window in states then Some(states[window]) else None
  }

  function AllComplaints(windows: seq<nat>, states: Snapshot, expected: Expectation, heads: seq<Head>): seq<Problem> {
    if windows == [] then []
    else
      var last := |windows| - 1;
      AllComplaints(windows[..last], states, expected, heads)
      + Complaints(windows[last], Lookup(states, windows[last]), expected, heads)
  }

  function Moves(windows: seq<nat>, before: Snapshot, after: Snapshot): seq<Problem> {
    if windows == [] then []
    else
      var last := |windows| - 1;
      var w := windows[last];
      Moves(windows[..last], before, after)
      + (if w in before && w in after && !before[w].SamePlacement(after[w])
         then [Moved(w, after[w].title, before[w], after[w])] else [])
  }

  /** Everything one attempt finds wrong. */
  function Found(windows: seq<nat>, expected: Expectation, heads: seq<Head>, a: Attempt): seq<Problem> {
    AllComplaints(windows, a.before.States(), expected, heads) + Moves(windows, a.before.States(), a.after.States())
  }

  predicate AllMeet(windows: seq<nat>, states: Snapshot, expected: Expectation, heads: seq<Head>) {
    forall w :: w in windows && w in states ==> Meets(states[w], expected, heads)
  }

  predicate Unmoved(windows: seq<nat>, before: Snapshot, after: Snapshot) {
    forall w :: w in windows && w in before && w in after ==> before[w].SamePlacement(after[w])
  }

  lemma {:induction false} NoComplaintsIff(windows: seq<nat>, states: Snapshot, expected: Expectation, heads: seq<Head>)
    ensures AllComplaints(windows, states, expected, heads) == [] <==> AllMeet(windows, states, expected, heads)
  {
    if windows != [] {
      var init, last := windows[..|windows| - 1], windows[|windows| - 1];
      NoComplaintsIff(init, states, expected, heads);
      assert forall w :: w in windows <==> w in init || w == last;
    }
  }

  lemma {:induction false} NoMovesIff(windows: seq<nat>, before: Snapshot, after: Snapshot)
    ensures Moves(windows, before, after) == [] <==> Unmoved(windows, before, after)
  {
    if windows != [] {
      var init, last := windows[..|windows| - 1], windows[|windows| - 1];
      NoMovesIff(init, before, after);
      assert forall w :: w in windows <==> w in init || w == last;
    }
  }

  /** An attempt is clean exactly when every listed window was where the rule promised and
      repeating the rule moved none of them. */
  lemma CleanIff(windows: seq<nat>, expected: Expectation, heads: seq<Head>, a: Attempt)
    ensures Found(windows, expected, heads, a) == []
       <==> AllMeet(windows, a.before.States(), expected, heads) && Unmoved(windows, a.before.States(), a.after.States())
  {
    NoComplaintsIff(windows, a.before.States(), expected, heads);
    NoMovesIff(windows, a.before.States(), a.after.States());
  }

  // -------------------------------------------------- what is found, exactly

  /** The same desktop, position and size. */
  predicate SameFields(a: WindowState, b: WindowState) {
    a.desktop == b.desktop && a.x == b.x && a.y == b.y && a.width == b.width && a.height == b.height
  }

  lemma {:induction false} ComplaintListedIff(windows: seq<nat>, states: Snapshot, expected: Expectation, heads: seq<Head>, p: Problem)
    ensures p in AllComplaints(windows, states, expected, heads)
       <==> exists w :: w in windows && w in states && IsComplaint(p, w, states[w], expected, heads)
  {
    if windows != [] {
      var front, last := windows[..|windows| - 1], windows[|windows| - 1];
      ComplaintListedIff(front, states, expected, heads, p);
      ComplaintsIff(last, Lookup(states, last), expected, heads);
      assert forall w :: w in windows <==> w in front || w == last;
    }
  }

  lemma {:induction false} MoveListedIff(windows: seq<nat>, before: Snapshot, after: Snapshot, p: Problem)
    ensures p in Moves(windows, before, after)
       <==> exists w :: w in windows && w in before && w in after
                        && !SameFields(before[w], after[w]) && p == Moved(w, after[w].title, before[w], after[w])
  {
    if windows != [] {
      var front, last := windows[..|windows| - 1], windows[|windows| - 1];
      MoveListedIff(front, before, after, p);
      if last in before && last in after {
        SamePlacementIff(before[last], after[last]);
      }
      assert forall w :: w in windows <==> w in front || w == last;
    }
  }

  /** An attempt finds exactly what is wrong with the listed windows where it first saw them,
      and those that were elsewhere, or of another size, the second time. */
  lemma FoundIff(windows: seq<nat>, expected: Expectation, heads: seq<Head>, a: Attempt, p: Problem)
    ensures var (before, after) := (a.before.States(), a.after.States());
      p in Found(windows, expected, heads, a)
      <==> exists w :: w in windows && w in before
                       && (|| IsComplaint(p, w, before[w], expected, heads)
                           || (w in after && !SameFields(before[w], after[w])
                               && p == Moved(w, after[w].title, before[w], after[w])))
  {
    ComplaintListedIff(windows, a.before.States(), expected, heads, p);
    MoveListedIff(windows, a.before.States(), a.after.States(), p);
  }

  /** Complaints and moves are each listed window by window. */
  lemma ListedInOrder(a: seq<nat>, b: seq<nat>, before: Snapshot, after: Snapshot,
                      expected: Expectation, heads: seq<Head>)
    ensures AllComplaints(a + b, before, expected, heads)
         == AllComplaints(a, before, expected, heads) + AllComplaints(b, before, expected, heads)
    ensures Moves(a + b, before, after) == Moves(a, before, after) + Moves(b, before, after)
  {
    ComplaintsInOrder(a, b, before, expected, heads);
    MovesInOrder(a, b, before, after);
  }

  lemma Regrouped<T>(a: seq<T>, b: seq<T>, c: seq<T>)
    ensures (a + b) + c == a + (b + c)
  {
  }

  lemma {:induction false} ComplaintsInOrder(a: seq<nat>, b: seq<nat>, states: Snapshot, expected: Expectation, heads: seq<Head>)
    ensures AllComplaints(a + b, states, expected, heads)
         == AllComplaints(a, states, expected, heads) + AllComplaints(b, states, expected, heads)
    decreases |b|
  {
    if b == [] {
      assert a + b == a;
    } else {
      var front, last := b[..|b| - 1], b[|b| - 1];
      assert (a + b)[..|a + b| - 1] == a + front && (a + b)[|a + b| - 1] == last;
      ComplaintsInOrder(a, front, states, expected, heads);
      Regrouped(AllComplaints(a, states, expected, heads), AllComplaints(front, states, expected, heads),
                Complaints(last, Lookup(states, last), expected, heads));
    }
  }

  lemma {:induction false} MovesInOrder(a: seq<nat>, b: seq<nat>, before: Snapshot, after: Snapshot)
    ensures Moves(a + b, before, after) == Moves(a, before, after) + Moves(b, before, after)
    decreases |b|
  {
    if b == [] {
      assert a + b == a;
    } else {
      var front, last := b[..|b| - 1], b[|b| - 1];
      assert (a + b)[..|a + b| - 1] == a + front && (a + b)[|a + b| - 1] == last;
      MovesInOrder(a, front, before, after);
    }
  }

  /** All complaints come before all moves. */
  lemma ComplaintsFirst(windows: seq<nat>, expected: Expectation, heads: seq<Head>, a: Attempt) returns (n: nat)
    ensures var found := Found(windows, expected, heads, a);
      && n <= |found|
      && (forall i :: 0 <= i < n ==> !found[i].Moved?) && (forall i :: n <= i < |found| ==> found[i].Moved?)
  {
    var complaints := AllComplaints(windows, a.before.States(), expected, heads);
    var moves := Moves(windows, a.before.States(), a.after.States());
    n := |complaints|;
    forall i | 0 <= i < n
      ensures !complaints[i].Moved?
    {
      ComplaintListedIff(windows, a.before.States(), expected, heads, complaints[i]);
    }
    forall i | 0 <= i < |moves|
      ensures moves[i].Moved?
    {
      MoveListedIff(windows, a.before.States(), a.after.States(), moves[i]);
    }
  }

  /** Two snapshots of the same windows in the same places, whatever their titles say. */
  predicate OnlyTitlesDiffer(a: Snapshot, b: Snapshot) {
    a.Keys == b.Keys && forall w :: w in a ==> SameFields(a[w], b[w])
  }

  /** Snapshots that differ in titles alone show settled windows, and no moved one. */
  lemma RetitledIsUnmoved(windows: seq<nat>, before: Snapshot, after: Snapshot)
    requires OnlyTitlesDiffer(before, after)
    ensures SameOn(windows, before, after) && Moves(windows, before, after) == []
  {
    forall w | w in windows
      ensures w in before <==> w in after
      ensures w in before ==> before[w].SamePlacement(after[w])
    {
      if w in before {
        assert w in after.Keys && SameFields(before[w], after[w]);
        SamePlacementIff(before[w], after[w]);
      }
    }
    NoMovesIff(windows, before, after);
  }

  /** An attempt finds something, or not, whatever titles its windows had. */
  lemma FoundIgnoresTitles(windows: seq<nat>, expected: Expectation, heads: seq<Head>, a: Attempt, b: Attempt)
    requires OnlyTitlesDiffer(a.before.States(), b.before.States())
    requires OnlyTitlesDiffer(a.after.States(), b.after.States())
    ensures Found(windows, expected, heads, a) == [] <==> Found(windows, expected, heads, b) == []
  {
    RetitledIsUnmoved(windows, a.before.States(), b.before.States());
    RetitledIsUnmoved(windows, a.after.States(), b.after.States());
    CleanIff(windows, expected, heads, a);
    CleanIff(windows, expected, heads, b);
    MeetIsSameOn(windows, a.before.States(), b.before.States(), expected, heads);
    UnmovedIsSameOn(windows, a.before.States(), a.after.States(), b.before.States(), b.after.States());
  }

  // ------------------------------------------------------------ the verdict

  /** The outcome of a loop that stops at the first clean attempt, or after `limit` of them. */
  predicate IsVerdict(outcome: RuleOutcome, windows: seq<nat>, expected: Expectation, heads: seq<Head>,
                      attempts: seq<Attempt>, limit: nat)
  {
    && 1 <= |attempts| <= limit
    && (forall k :: 0 <= k < |attempts| - 1 ==> Found(windows, expected, heads, attempts[k]) != [])
    && outcome.windows == |windows|
    && outcome.problems == Found(windows, expected, heads, attempts[|attempts| - 1])
    && outcome.repaired == Found(windows, expected, heads, attempts[0])
    && (if outcome.problems == [] then outcome.repairs == |attempts| - 1
        else |attempts| == limit && outcome.repairs == limit)
  }

  /** A repair is reported with a diagnosis, and only then. */
  lemma RepairsAreDiagnosed(outcome: RuleOutcome, windows: seq<nat>, expected: Expectation, heads: seq<Head>,
                            attempts: seq<Attempt>, limit: nat)
    requires IsVerdict(outcome, windows, expected, heads, attempts, limit)
    ensures outcome.repairs > 0 <==> outcome.repaired != []
  {
    if outcome.problems == [] && |attempts| > 1 {
      assert Found(windows, expected, heads, attempts[0]) != [];
    }
  }

  // ---------------------------------------------------------- certification

  predicate Idle(w: World) {
    w.slot.None? && w.running.None?
  }

  /** The same windows, each with the same placement; titles may differ. */
  predicate SameOn(windows: seq<nat>, a: Snapshot, b: Snapshot) {
    forall w :: w in windows ==> (w in a <==> w in b) && (w in a ==> a[w].SamePlacement(b[w]))
  }

  /** What a series of commands does to the windows. */
  function Performed(effect: (string, Desk) -> Desk, desk: Desk, commands: seq<string>): Desk
    decreases |commands|
  {
    if commands == [] then desk else Performed(effect, effect(commands[0], desk), commands[1..])
  }

  /** Both snapshots were taken with Fluxbox idle, and only the commands it read in between
      changed the windows. */
  predicate Undisturbed(windows: seq<nat>, effect: (string, Desk) -> Desk, a: Sight, b: Sight) {
    && Idle(a.world) && Idle(b.world)
    && a.world.consumed <= b.world.consumed
    && SameOn(windows, b.States(), ViewAll(Performed(effect, a.desk, b.world.consumed[|a.world.consumed|..])))
  }

  /** Between its two snapshots an attempt sends the rule, and nothing else. */
  predicate RepeatsRule(a: Attempt, command: string) {
    && Valid(a.before.world) && Valid(a.after.world)
    && a.after.world.sent == a.before.world.sent + [command]
  }

  /** A clean outcome certifies the rule: every window seen in both final snapshots meets
      the promise before and after the repeat, and the rule changes nothing about it. */
  lemma CleanOutcomeCertifies(outcome: RuleOutcome, windows: seq<nat>, expected: Expectation, heads: seq<Head>,
                              attempts: seq<Attempt>, limit: nat,
                              effect: (string, Desk) -> Desk, command: string)
    requires IsVerdict(outcome, windows, expected, heads, attempts, limit) && outcome.problems == []
    requires var a := attempts[|attempts| - 1];
      RepeatsRule(a, command) && Undisturbed(windows, effect, a.before, a.after)
    ensures var a := attempts[|attempts| - 1];
      var (before, after) := (a.before.States(), a.after.States());
      var repeated := ViewAll(effect(command, a.before.desk));
      forall w :: w in windows && w in before && w in after ==>
        && Meets(before[w], expected, heads) && Meets(after[w], expected, heads)
        && w in repeated && repeated[w].SamePlacement(before[w])
  {
    var a := attempts[|attempts| - 1];
    CleanIff(windows, expected, heads, a);
    assert a.before.world.consumed == a.before.world.sent && a.after.world.consumed == a.after.world.sent;
    assert a.after.world.consumed[|a.before.world.consumed|..] == [command];
    OneCommandPerformed(effect, a.before.desk, command);
    forall w | w in windows && w in a.before.States() && w in a.after.States()
      ensures Meets(a.after.States()[w], expected, heads)
    {
      VerdictIgnoresTitle(w, a.before.States()[w], a.after.States()[w], expected, heads);
    }
  }

  lemma OneCommandPerformed(effect: (string, Desk) -> Desk, desk: Desk, command: string)
    ensures Performed(effect, desk, [command]) == effect(command, desk)
  {
  }

  // -------------------------------------------------- sends that take no effect

  /** The windows after `n` sends of a rule, of which only some take effect. */
  function DeskAfter(rule: Desk -> Desk, start: Desk, effective: seq<bool>, n: nat): Desk
    requires n <= |effective|
  {
    if n == 0 then start
    else
      var desk := DeskAfter(rule, start, effective, n - 1);
      if effective[n - 1] then rule(desk) else desk
  }

  /** The snapshots show the windows settled after each send; the first send comes before
      all attempts and each attempt adds one. Titles may have changed. */
  predicate Observes(windows: seq<nat>, attempts: seq<Attempt>, rule: Desk -> Desk, start: Desk, effective: seq<bool>)
    requires |attempts| + 1 <= |effective|
  {
    forall k :: 0 <= k < |attempts| ==>
      && SameOn(windows, attempts[k].before.States(), ViewAll(DeskAfter(rule, start, effective, k + 1)))
      && SameOn(windows, attempts[k].after.States(), ViewAll(DeskAfter(rule, start, effective, k + 2)))
  }

  /** Position of the first send that takes effect, or the number of sends. */
  function FirstEffective(effective: seq<bool>): nat {
    if effective == [] || effective[0] then 0 else 1 + FirstEffective(effective[1..])
  }

  lemma {:induction false} FirstEffectiveIsFirst(effective: seq<bool>)
    ensures var f := FirstEffective(effective);
      && f <= |effective|
      && (forall i :: 0 <= i < f ==> !effective[i])
      && (f < |effective| ==> effective[f])
  {
    if effective != [] && !effective[0] {
      FirstEffectiveIsFirst(effective[1..]);
      assert forall i :: 0 < i < |effective| ==> effective[i] == effective[1..][i - 1];
    }
  }

  lemma {:induction false} DeskIsStartOrPlaced(rule: Desk -> Desk, start: Desk, effective: seq<bool>, n: nat)
    requires n <= |effective|
    requires rule(rule(start)) == rule(start)
    ensures DeskAfter(rule, start, effective, n)
         == if FirstEffective(effective) < n then rule(start) else start
  {
    FirstEffectiveIsFirst(effective);
    if n > 0 {
      DeskIsStartOrPlaced(rule, start, effective, n - 1);
    }
  }

  /** The rule changes nothing when repeated, and once in effect it meets its promise. */
  predicate Works(windows: seq<nat>, rule: Desk -> Desk, start: Desk, expected: Expectation, heads: seq<Head>) {
    && rule(rule(start)) == rule(start)
    && rule(start).Keys == start.Keys
    && AllMeet(windows, ViewAll(rule(start)), expected, heads)
  }

  lemma MeetIsSameOn(windows: seq<nat>, a: Snapshot, b: Snapshot, expected: Expectation, heads: seq<Head>)
    requires SameOn(windows, a, b)
    ensures AllMeet(windows, a, expected, heads) <==> AllMeet(windows, b, expected, heads)
  {
  }

  /** What an attempt finds depends only on whether some send up to its first snapshot, and
      up to its second, has taken effect. */
  lemma AttemptJudged(windows: seq<nat>, expected: Expectation, heads: seq<Head>, attempts: seq<Attempt>,
                      rule: Desk -> Desk, start: Desk, effective: seq<bool>, k: nat)
    requires |attempts| + 1 <= |effective| && Observes(windows, attempts, rule, start, effective) && k < |attempts|
    requires Works(windows, rule, start, expected, heads)
    ensures var f := FirstEffective(effective);
      var clean := Found(windows, expected, heads, attempts[k]) == [];
      && (f <= k ==> clean)
      && (f == k + 1 ==> (clean <==> AllMeet(windows, ViewAll(start), expected, heads)
                                     && SameOn(windows, ViewAll(start), ViewAll(rule(start)))))
      && (f > k + 1 ==> (clean <==> AllMeet(windows, ViewAll(start), expected, heads)))
  {
    DeskIsStartOrPlaced(rule, start, effective, k + 1);
    DeskIsStartOrPlaced(rule, start, effective, k + 2);
    var a := attempts[k];
    CleanIff(windows, expected, heads, a);
    MeetIsSameOn(windows, a.before.States(), ViewAll(DeskAfter(rule, start, effective, k + 1)), expected, heads);
  }

  /** The exact meaning of the repair count, for any number of attempts: when the windows
      break the promise at the start, the count is the number of sends that took no effect
      before the first that did, and the outcome is clean exactly when that send came before
      the last attempt. Sends after the first effective one may be lost as well. */
  lemma {:induction false} RepairCountIsLostSends(outcome: RuleOutcome, windows: seq<nat>, expected: Expectation, heads: seq<Head>,
                               attempts: seq<Attempt>, limit: nat,
                               rule: Desk -> Desk, start: Desk, effective: seq<bool>)
    requires IsVerdict(outcome, windows, expected, heads, attempts, limit)
    requires limit + 1 <= |effective| && Observes(windows, attempts, rule, start, effective)
    requires Works(windows, rule, start, expected, heads)
    requires !AllMeet(windows, ViewAll(start), expected, heads)
    ensures outcome.problems == [] <==> FirstEffective(effective) < limit
    ensures outcome.repairs == if FirstEffective(effective) < limit then FirstEffective(effective) else limit
  {
    var f := FirstEffective(effective);
    var last := |attempts| - 1;
    AttemptJudged(windows, expected, heads, attempts, rule, start, effective, last);
    if f < last {
      AttemptJudged(windows, expected, heads, attempts, rule, start, effective, f);
    }
  }

  /** For every rule, whatever it does when repeated: a clean outcome is given to windows that
      the rule would visibly move from where the last attempt first saw them exactly when they
      met the promise there and that attempt's send was lost. */
  lemma CleanButMovableIff(outcome: RuleOutcome, windows: seq<nat>, expected: Expectation, heads: seq<Head>,
                           attempts: seq<Attempt>, limit: nat,
                           rule: Desk -> Desk, start: Desk, effective: seq<bool>)
    requires IsVerdict(outcome, windows, expected, heads, attempts, limit)
    requires limit + 1 <= |effective| && Observes(windows, attempts, rule, start, effective)
    ensures var n := |attempts|;
      var desk := DeskAfter(rule, start, effective, n);
      var movable := !Unmoved(windows, ViewAll(desk), ViewAll(rule(desk)));
      outcome.problems == [] && movable
      <==> AllMeet(windows, ViewAll(desk), expected, heads) && movable && !effective[n]
  {
    var last := |attempts| - 1;
    CleanIff(windows, expected, heads, attempts[last]);
    var desk := DeskAfter(rule, start, effective, last + 1);
    var end := DeskAfter(rule, start, effective, last + 2);
    MeetIsSameOn(windows, attempts[last].before.States(), ViewAll(desk), expected, heads);
    UnmovedIsSameOn(windows, attempts[last].before.States(), attempts[last].after.States(), ViewAll(desk), ViewAll(end));
    SameOnItself(windows, ViewAll(desk));
  }

  lemma UnmovedIsSameOn(windows: seq<nat>, a: Snapshot, b: Snapshot, a': Snapshot, b': Snapshot)
    requires SameOn(windows, a, a') && SameOn(windows, b, b')
    ensures Unmoved(windows, a, b) <==> Unmoved(windows, a', b')
  {
  }

  lemma SameOnItself(windows: seq<nat>, a: Snapshot)
    ensures Unmoved(windows, a, a)
  {
  }

  /** A clean outcome can be wrong. For a rule that works, it leaves the windows other than the
      rule would exactly when the windows met the promise already, the rule would still change them, and
      neither of the first two sends took effect. */
  lemma {:induction false} FalselyCleanIff(outcome: RuleOutcome, windows: seq<nat>, expected: Expectation, heads: seq<Head>,
                        attempts: seq<Attempt>, limit: nat,
                        rule: Desk -> Desk, start: Desk, effective: seq<bool>)
    requires IsVerdict(outcome, windows, expected, heads, attempts, limit)
    requires limit + 1 <= |effective| && Observes(windows, attempts, rule, start, effective)
    requires Works(windows, rule, start, expected, heads)
    ensures (outcome.problems == []
             && !SameOn(windows, attempts[|attempts| - 1].after.States(), ViewAll(rule(start))))
       <==> && AllMeet(windows, ViewAll(start), expected, heads)
            && !SameOn(windows, ViewAll(start), ViewAll(rule(start)))
            && !effective[0] && !effective[1]
  {
    FirstEffectiveIsFirst(effective);
    var f, last := FirstEffective(effective), |attempts| - 1;
    var met := AllMeet(windows, ViewAll(start), expected, heads);
    var unmoved := SameOn(windows, ViewAll(start), ViewAll(rule(start)));
    FoundByAttempt(outcome, windows, expected, heads, attempts, limit, rule, start, effective);
    LastSightIs(windows, attempts, rule, start, effective);
    if f <= last + 1 {
      assert SameOn(windows, attempts[last].after.States(), ViewAll(rule(start)));
    } else if outcome.problems == [] {
      assert met && last == 0;
    }
  }

  /** What the verdict's first and last attempts say, in terms of the first effective send. */
  lemma FoundByAttempt(outcome: RuleOutcome, windows: seq<nat>, expected: Expectation, heads: seq<Head>,
                       attempts: seq<Attempt>, limit: nat,
                       rule: Desk -> Desk, start: Desk, effective: seq<bool>)
    requires IsVerdict(outcome, windows, expected, heads, attempts, limit)
    requires limit + 1 <= |effective| && Observes(windows, attempts, rule, start, effective)
    requires Works(windows, rule, start, expected, heads)
    ensures var (f, last) := (FirstEffective(effective), |attempts| - 1);
      var met := AllMeet(windows, ViewAll(start), expected, heads);
      && (f > last + 1 ==> (outcome.problems == [] <==> met))
      && (f > 1 && met ==> last == 0)
  {
    var last := |attempts| - 1;
    AttemptJudged(windows, expected, heads, attempts, rule, start, effective, 0);
    AttemptJudged(windows, expected, heads, attempts, rule, start, effective, last);
  }

  /** The last snapshot shows the rule's effect exactly when some send up to it had one. */
  lemma LastSightIs(windows: seq<nat>, attempts: seq<Attempt>, rule: Desk -> Desk, start: Desk, effective: seq<bool>)
    requires 0 < |attempts| < |effective| && Observes(windows, attempts, rule, start, effective)
    requires rule(rule(start)) == rule(start)
    ensures var (after, last) := (attempts[|attempts| - 1].after.States(), |attempts| - 1);
      if FirstEffective(effective) <= last + 1 then SameOn(windows, after, ViewAll(rule(start)))
      else && SameOn(windows, after, ViewAll(start))
           && (SameOn(windows, after, ViewAll(rule(start))) <==> SameOn(windows, ViewAll(start), ViewAll(rule(start))))
  {
    var last := |attempts| - 1;
    DeskIsStartOrPlaced(rule, start, effective, last + 2);
    var after := attempts[last].after.States();
    var desk := DeskAfter(rule, start, effective, last + 2);
    assert SameOn(windows, after, ViewAll(desk));
  }

  /** The sends of a run in which every one of them is lost. */
  function AllLost(n: nat): (effective: seq<bool>)
    ensures |effective| == n
    ensures forall i :: 0 <= i < n ==> !effective[i]
  {
    if n == 0 then [] else AllLost(n - 1) + [false]
  }

  lemma {:induction false} LostSendsLeaveTheDesk(rule: Desk -> Desk, start: Desk, effective: seq<bool>, n: nat)
    requires n <= |effective| && forall i :: 0 <= i < |effective| ==> !effective[i]
    ensures DeskAfter(rule, start, effective, n) == start
  {
    if n > 0 {
      LostSendsLeaveTheDesk(rule, start, effective, n - 1);
    }
  }

  /** Whenever the promise leaves room for that, it happens: with every send lost, a rule that
      was never performed is reported clean and unrepaired. */
  lemma LostRuleIsReportedClean(matcher: string, windows: seq<nat>, expected: Expectation, heads: seq<Head>,
                                rule: Desk -> Desk, start: Desk, w: World, limit: nat)
    returns (outcome: RuleOutcome, attempts: seq<Attempt>, effective: seq<bool>)
    requires limit >= 1 && Works(windows, rule, start, expected, heads)
    requires AllMeet(windows, ViewAll(start), expected, heads)
    requires !SameOn(windows, ViewAll(start), ViewAll(rule(start)))
    ensures |effective| == limit + 1 && |attempts| <= limit
    ensures IsVerdict(outcome, windows, expected, heads, attempts, limit)
    ensures Observes(windows, attempts, rule, start, effective)
    ensures outcome.problems == [] && outcome.repairs == 0
    ensures !SameOn(windows, attempts[|attempts| - 1].after.States(), ViewAll(rule(start)))
  {
    var only := Attempt(Sight(start, w), Sight(start, w));
    attempts, effective := [only], AllLost(limit + 1);
    outcome := RuleOutcome(matcher, |windows|, 0, [], []);
    CleanIff(windows, expected, heads, only);
    LostSendsLeaveTheDesk(rule, start, effective, 1);
    LostSendsLeaveTheDesk(rule, start, effective, 2);
  }

  // ------------------------------------------------ the two levels joined

  /** Fluxbox performing a rule, sent as one command, on the windows it matches. */
  function RuleOn(command: string, windows: seq<nat>, fx: Fluxbox): Desk -> Desk {
    (desk: Desk) => map w | w in desk :: if w in windows then Execute(command, desk[w], fx) else desk[w]
  }

  /** The windows once strays have been brought to the corner of the promised head. */
  function BroughtDesk(promised: Expectation, windows: seq<nat>, fx: Fluxbox, desk: Desk): Desk
    requires ValidPromise(promised, fx)
  {
    map w | w in desk :: if w in windows then StartOf(desk[w], promised, fx) else desk[w]
  }

  /** A rule of head, workspace and stuck commands and of bare toggles that cancel out, with
      no macro inside a macro, whose heads and workspaces exist. */
  predicate IsFlatRule(commands: seq<string>, fx: Fluxbox) {
    var parts := AllParts(commands);
    AllBalanced(commands) && ValidParts(parts, fx) && OnlyPlaces(parts) && !Flips(parts)
  }

  /** Heads do not overlap, and where the windows start they have room on the heads named. */
  ghost predicate CanPlace(commands: seq<string>, windows: seq<nat>, fx: Fluxbox, desk: Desk) {
    && ValidPromise(Summary(AllParts(commands)), fx) && Disjoint(fx.heads)
    && forall w :: w in windows && w in desk ==> CanStart(desk[w], AllParts(commands), fx)
  }

  /** What the combined macro does to one window of such a rule. */
  lemma FlatRuleOnOne(commands: seq<string>, w: Window, fx: Fluxbox)
    requires IsFlatRule(commands, fx)
    requires Disjoint(fx.heads) && CanStart(w, AllParts(commands), fx)
    ensures var promised := Summary(AllParts(commands));
      && var start := StartOf(w, promised, fx);
      && var v := Execute(Combine(commands), start, fx);
      && v == Placed(start, promised, fx.heads)
      && Meets(View(v), promised, fx.heads)
      && Execute(Combine(commands), v, fx) == v
  {
    var parts := AllParts(commands);
    PlacedRuleIsCertified(parts, w, fx);
    var start := StartOf(w, Summary(parts), fx);
    CombinedRuleIsPerformedAsRead(commands, start, fx);
    CombinedRuleIsPerformedAsRead(commands, PerformAll(parts, start, fx), fx);
  }

  /** Every flat rule, as sent, works from wherever its windows are: the verdicts above
      apply to it. */
  lemma FlatRuleWorks(commands: seq<string>, windows: seq<nat>, fx: Fluxbox, desk: Desk)
    requires IsFlatRule(commands, fx) && CanPlace(commands, windows, fx, desk)
    ensures var promised := Summary(AllParts(commands));
      Works(windows, RuleOn(Combine(commands), windows, fx), BroughtDesk(promised, windows, fx, desk), promised, fx.heads)
  {
    var promised := Summary(AllParts(commands));
    var start := BroughtDesk(promised, windows, fx, desk);
    var rule := RuleOn(Combine(commands), windows, fx);
    var placed := rule(start);
    forall w | w in windows && w in desk
      ensures Meets(View(placed[w]), promised, fx.heads)
      ensures Execute(Combine(commands), placed[w], fx) == placed[w]
    {
      FlatRuleOnOne(commands, desk[w], fx);
    }
    assert rule(placed) == placed;
  }

  /** The verdict on such a rule, end to end: with its windows out of place at the start, the
      reported repairs are the sends that were lost before the first that took effect. */
  lemma FlatRuleRepairCount(outcome: RuleOutcome, commands: seq<string>, windows: seq<nat>, fx: Fluxbox, desk: Desk,
                            attempts: seq<Attempt>, limit: nat, effective: seq<bool>)
    requires IsFlatRule(commands, fx) && CanPlace(commands, windows, fx, desk)
    requires IsVerdict(outcome, windows, Summary(AllParts(commands)), fx.heads, attempts, limit) && limit + 1 <= |effective|
    requires var start := BroughtDesk(Summary(AllParts(commands)), windows, fx, desk);
      && Observes(windows, attempts, RuleOn(Combine(commands), windows, fx), start, effective)
      && !AllMeet(windows, ViewAll(start), Summary(AllParts(commands)), fx.heads)
    ensures outcome.problems == [] <==> FirstEffective(effective) < limit
    ensures outcome.repairs == if FirstEffective(effective) < limit then FirstEffective(effective) else limit
  {
    FlatRuleWorks(commands, windows, fx, desk);
    RepairCountIsLostSends(outcome, windows, Summary(AllParts(commands)), fx.heads, attempts, limit,
                           RuleOn(Combine(commands), windows, fx),
                           BroughtDesk(Summary(AllParts(commands)), windows, fx, desk), effective);
  }

  /** Windows of such a rule that show what is promised are where the rule would put them. */
  lemma MetIsUnmoved(commands: seq<string>, windows: seq<nat>, fx: Fluxbox, desk: Desk)
    requires IsFlatRule(commands, fx) && CanPlace(commands, windows, fx, desk)
    requires var start := BroughtDesk(Summary(AllParts(commands)), windows, fx, desk);
      AllMeet(windows, ViewAll(start), Summary(AllParts(commands)), fx.heads)
    ensures var start := BroughtDesk(Summary(AllParts(commands)), windows, fx, desk);
      SameOn(windows, ViewAll(start), ViewAll(RuleOn(Combine(commands), windows, fx)(start)))
  {
    var promised := Summary(AllParts(commands));
    var start := BroughtDesk(promised, windows, fx, desk);
    forall w | w in windows && w in desk
      ensures View(start[w]).SamePlacement(View(Execute(Combine(commands), start[w], fx)))
    {
      FlatRuleOnOne(commands, desk[w], fx);
      assert w in ViewAll(start);
      MetIsPlaced(start[w], promised, fx.heads);
    }
  }

  /** For flat rules a clean outcome is right, whatever sends were lost: the last snapshot
      shows every window where the rule puts it. */
  lemma FlatCleanIsRight(outcome: RuleOutcome, commands: seq<string>, windows: seq<nat>, fx: Fluxbox, desk: Desk,
                         attempts: seq<Attempt>, limit: nat, effective: seq<bool>)
    requires IsFlatRule(commands, fx) && CanPlace(commands, windows, fx, desk)
    requires IsVerdict(outcome, windows, Summary(AllParts(commands)), fx.heads, attempts, limit) && limit + 1 <= |effective|
    requires Observes(windows, attempts, RuleOn(Combine(commands), windows, fx),
                      BroughtDesk(Summary(AllParts(commands)), windows, fx, desk), effective)
    requires outcome.problems == []
    ensures var rule := RuleOn(Combine(commands), windows, fx);
      var start := BroughtDesk(Summary(AllParts(commands)), windows, fx, desk);
      SameOn(windows, attempts[|attempts| - 1].after.States(), ViewAll(rule(start)))
  {
    var promised := Summary(AllParts(commands));
    var start := BroughtDesk(promised, windows, fx, desk);
    FlatRuleWorks(commands, windows, fx, desk);
    if AllMeet(windows, ViewAll(start), promised, fx.heads) {
      MetIsUnmoved(commands, windows, fx, desk);
    }
    FalselyCleanIff(outcome, windows, promised, fx.heads, attempts, limit,
                    RuleOn(Combine(commands), windows, fx), start, effective);
  }

  /** On any heads and from any state, if all SetHead commands of such a rule name one head, a
      clean outcome is right, whatever sends were lost: the last snapshot shows every window as
      promised, and the rule would move none of them. */
  lemma OneHeadCleanIsRight(outcome: RuleOutcome, commands: seq<string>, windows: seq<nat>, fx: Fluxbox, start: Desk,
                            attempts: seq<Attempt>, limit: nat, effective: seq<bool>)
    requires IsFlatRule(commands, fx) && OneHead(AllParts(commands))
    requires IsVerdict(outcome, windows, Summary(AllParts(commands)), fx.heads, attempts, limit) && limit + 1 <= |effective|
    requires Observes(windows, attempts, RuleOn(Combine(commands), windows, fx), start, effective)
    requires outcome.problems == []
    ensures var rule := RuleOn(Combine(commands), windows, fx);
      var (shown, desk) := (attempts[|attempts| - 1].after.States(), DeskAfter(rule, start, effective, |attempts| + 1));
      && AllMeet(windows, shown, Summary(AllParts(commands)), fx.heads)
      && SameOn(windows, shown, ViewAll(desk)) && SameOn(windows, shown, ViewAll(rule(desk)))
  {
    var (rule, promised) := (RuleOn(Combine(commands), windows, fx), Summary(AllParts(commands)));
    var last := |attempts| - 1;
    var desk := DeskAfter(rule, start, effective, last + 1);
    var end := DeskAfter(rule, start, effective, last + 2);
    CleanIff(windows, promised, fx.heads, attempts[last]);
    MeetIsSameOn(windows, attempts[last].before.States(), ViewAll(desk), promised, fx.heads);
    OneHeadStays(commands, windows, fx, desk);
    SameOnMeets(windows, ViewAll(desk), ViewAll(end), promised, fx.heads);
    OneHeadStays(commands, windows, fx, end);
    MeetIsSameOn(windows, attempts[last].after.States(), ViewAll(end), promised, fx.heads);
  }

  lemma OneHeadStays(commands: seq<string>, windows: seq<nat>, fx: Fluxbox, desk: Desk)
    requires IsFlatRule(commands, fx) && OneHead(AllParts(commands))
    requires AllMeet(windows, ViewAll(desk), Summary(AllParts(commands)), fx.heads)
    ensures SameOn(windows, ViewAll(desk), ViewAll(RuleOn(Combine(commands), windows, fx)(desk)))
  {
    forall w | w in windows && w in desk
      ensures View(Execute(Combine(commands), desk[w], fx)).SamePlacement(View(desk[w]))
    {
      assert w in ViewAll(desk);
      CombinedRuleIsPerformedAsRead(commands, desk[w], fx);
      MetStaysIff(AllParts(commands), desk[w], fx);
    }
  }

  lemma SameOnMeets(windows: seq<nat>, a: Snapshot, b: Snapshot, expected: Expectation, heads: seq<Head>)
    requires AllMeet(windows, a, expected, heads) && (SameOn(windows, a, b) || a == b)
    ensures AllMeet(windows, b, expected, heads)
  {
  }

  // -------------------------------------- runs that are reported clean wrongly

  /** A Fluxbox in which the commands that are not placing ones put a window at `column`. */
  function MovingFluxbox(column: int): Fluxbox {
    Fluxbox([], 1, (x, y) => 1, (c, v: Window) => v.(x := column))
  }

  predicate IsOther(command: string) {
    !IsMacro(command) && command != TOGGLE && NamedBy(command) == Expectation(None, None, None)
  }

  lemma MoveOfOne(command: string, column: int, v: Window)
    requires IsOther(command)
    ensures Execute(command, v, MovingFluxbox(column)) == v.(x := column)
  {
    var fx := MovingFluxbox(column);
    assert Flatten(command) == [command];
    assert PerformAll([command], v, fx) == Perform(command, PerformAll([command][..0], v, fx), fx);
  }

  lemma MoveWorks(command: string, column: int, start: Window)
    requires IsOther(command) && start.x != column
    ensures var (rule, desk) := (RuleOn(command, [0], MovingFluxbox(column)), map[0 := start]);
      && Works([0], rule, desk, NamedBy(command), [])
      && AllMeet([0], ViewAll(desk), NamedBy(command), [])
      && !SameOn([0], ViewAll(desk), ViewAll(rule(desk)))
  {
    var (rule, desk, moved) := (RuleOn(command, [0], MovingFluxbox(column)), map[0 := start], map[0 := start.(x := column)]);
    MoveOfOne(command, column, start);
    MoveOfOne(command, column, start.(x := column));
    assert rule(desk) == moved && rule(moved) == moved;
    assert 0 in [0] && 0 in desk;
  }

  /** Not so with any other command: a rule that only moves its window works and promises
      nothing, so with every send lost it is reported clean though the window never moved. */
  lemma LostMoveIsReportedClean(command: string, column: int, start: Window, w: World, limit: nat)
    returns (outcome: RuleOutcome, attempts: seq<Attempt>, effective: seq<bool>)
    requires limit >= 1 && IsOther(command) && start.x != column
    ensures |effective| == limit + 1 && |attempts| <= limit
    ensures var (rule, desk) := (RuleOn(command, [0], MovingFluxbox(column)), map[0 := start]);
      && Works([0], rule, desk, NamedBy(command), [])
      && IsVerdict(outcome, [0], NamedBy(command), [], attempts, limit)
      && Observes([0], attempts, rule, desk, effective)
      && outcome.problems == [] && outcome.repairs == 0
      && !SameOn([0], attempts[|attempts| - 1].after.States(), ViewAll(rule(desk)))
  {
    MoveWorks(command, column, start);
    outcome, attempts, effective := LostRuleIsReportedClean(
      "", [0], NamedBy(command), [], RuleOn(command, [0], MovingFluxbox(column)), map[0 := start], w, limit);
  }
  /** A Fluxbox in which the commands that are not placing ones shift a window by `step`. */
  function ShiftingFluxbox(step: int): Fluxbox {
    Fluxbox([], 1, (x, y) => 1, (c, v: Window) => v.(x := v.x + step))
  }

  lemma ShiftOfOne(command: string, step: int, v: Window)
    requires IsOther(command)
    ensures RuleOn(command, [0], ShiftingFluxbox(step))(map[0 := v]) == map[0 := v.(x := v.x + step)]
  {
    var fx := ShiftingFluxbox(step);
    assert Flatten(command) == [command];
    assert PerformAll([command], v, fx) == Perform(command, PerformAll([command][..0], v, fx), fx);
    assert Execute(command, v, fx) == v.(x := v.x + step);
  }

  /** Nor does an effective first send help a rule that keeps moving its windows: after two
      sends that took effect one lost send is enough for a clean outcome, with one repair. */
  lemma LostRepeatIsReportedClean(matcher: string, windows: seq<nat>, expected: Expectation, heads: seq<Head>,
                                  rule: Desk -> Desk, start: Desk, w: World, limit: nat)
    returns (outcome: RuleOutcome, attempts: seq<Attempt>, effective: seq<bool>)
    requires limit >= 2 && AllMeet(windows, ViewAll(rule(rule(start))), expected, heads)
    requires !Unmoved(windows, ViewAll(rule(start)), ViewAll(rule(rule(start))))
    ensures |effective| == limit + 1 && effective[0] && effective[1] && |attempts| == 2
    ensures IsVerdict(outcome, windows, expected, heads, attempts, limit)
    ensures Observes(windows, attempts, rule, start, effective)
    ensures outcome.problems == [] && outcome.repairs == 1
    ensures attempts[1].after.desk == rule(rule(start))
  {
    var (once, twice) := (rule(start), rule(rule(start)));
    effective := [true, true] + AllLost(limit - 1);
    attempts := [Attempt(Sight(once, w), Sight(twice, w)), Attempt(Sight(twice, w), Sight(twice, w))];
    TwoThenLost(rule, start, effective);
    TwoShown(windows, attempts, rule, start, effective);
    CleanIff(windows, expected, heads, attempts[0]);
    CleanIff(windows, expected, heads, attempts[1]);
    outcome := RuleOutcome(matcher, |windows|, 1, [], Found(windows, expected, heads, attempts[0]));
  }

  lemma TwoShown(windows: seq<nat>, attempts: seq<Attempt>, rule: Desk -> Desk, start: Desk, effective: seq<bool>)
    requires |effective| >= 3 && |attempts| == 2
    requires attempts[0].before.desk == DeskAfter(rule, start, effective, 1)
    requires attempts[0].after.desk == attempts[1].before.desk == DeskAfter(rule, start, effective, 2)
    requires attempts[1].after.desk == DeskAfter(rule, start, effective, 3)
    ensures Observes(windows, attempts, rule, start, effective)
  {
  }

  lemma TwoThenLost(rule: Desk -> Desk, start: Desk, effective: seq<bool>)
    requires |effective| >= 3 && effective[0] && effective[1] && !effective[2]
    ensures DeskAfter(rule, start, effective, 1) == rule(start)
    ensures DeskAfter(rule, start, effective, 2) == DeskAfter(rule, start, effective, 3) == rule(rule(start))
  {
    assert DeskAfter(rule, start, effective, 1) == rule(DeskAfter(rule, start, effective, 0));
  }

  lemma ShiftDesks(command: string, step: int, v: Window)
    requires IsOther(command) && step != 0
    ensures var (rule, start) := (RuleOn(command, [0], ShiftingFluxbox(step)), map[0 := v]);
      && AllMeet([0], ViewAll(rule(rule(start))), NamedBy(command), [])
      && !Unmoved([0], ViewAll(rule(start)), ViewAll(rule(rule(start))))
      && !Unmoved([0], ViewAll(rule(rule(start))), ViewAll(rule(rule(rule(start)))))
  {
    ShiftOfOne(command, step, v);
    ShiftOfOne(command, step, v.(x := v.x + step));
    ShiftOfOne(command, step, v.(x := v.x + step + step));
    ShiftSteps(RuleOn(command, [0], ShiftingFluxbox(step)), v, v.(x := v.x + step), v.(x := v.x + step + step), step);
  }

  lemma ShiftSteps(rule: Desk -> Desk, v: Window, once: Window, twice: Window, step: int)
    requires step != 0 && twice == once.(x := once.x + step)
    requires rule(map[0 := v]) == map[0 := once] && rule(map[0 := once]) == map[0 := twice]
    requires rule(map[0 := twice]) == map[0 := twice.(x := twice.x + step)]
    ensures var start := map[0 := v];
      && AllMeet([0], ViewAll(rule(rule(start))), Expectation(None, None, None), [])
      && !Unmoved([0], ViewAll(rule(start)), ViewAll(rule(rule(start))))
      && !Unmoved([0], ViewAll(rule(rule(start))), ViewAll(rule(rule(rule(start)))))
  {
    ShiftShows(once, step);
    ShiftShows(twice, step);
  }

  lemma ShiftShows(v: Window, step: int)
    requires step != 0
    ensures AllMeet([0], ViewAll(map[0 := v]), Expectation(None, None, None), [])
    ensures !Unmoved([0], ViewAll(map[0 := v]), ViewAll(map[0 := v.(x := v.x + step)]))
  {
    assert 0 in [0];
  }

  /** So it is for every rule that shifts its window: it settles nowhere. */
  lemma ShiftIsReportedClean(command: string, step: int, v: Window, w: World, limit: nat)
    returns (outcome: RuleOutcome, attempts: seq<Attempt>, effective: seq<bool>)
    requires limit >= 2 && IsOther(command) && step != 0
    ensures |effective| == limit + 1 && effective[0] && effective[1] && |attempts| == 2
    ensures var (rule, start) := (RuleOn(command, [0], ShiftingFluxbox(step)), map[0 := v]);
      && IsVerdict(outcome, [0], NamedBy(command), [], attempts, limit)
      && Observes([0], attempts, rule, start, effective)
      && outcome.problems == [] && outcome.repairs == 1
      && !Unmoved([0], attempts[1].after.States(), ViewAll(rule(attempts[1].after.desk)))
  {
    ShiftDesks(command, step, v);
    outcome, attempts, effective := LostRepeatIsReportedClean(
      "", [0], NamedBy(command), [], RuleOn(command, [0], ShiftingFluxbox(step)), map[0 := v], w, limit);
  }

  lemma {:induction false} NoBraceBalances(text: string)
    requires '{' !in text && '}' !in text
    ensures Balanced(text)
    decreases |text|
  {
    if text != "" {
      NoBraceBalances(text[1..]);
    }
  }

  lemma NarrowThenWideIsFlat(w: Window, fx: Fluxbox)
    requires fx.heads == NARROW_AND_WIDE
    ensures IsFlatRule(NARROW_THEN_WIDE, fx) && AllParts(NARROW_THEN_WIDE) == NARROW_THEN_WIDE
    ensures Execute(Combine(NARROW_THEN_WIDE), w, fx) == PerformAll(NARROW_THEN_WIDE, w, fx)
  {
    NarrowThenWide(fx);
    NoBraceBalances(NARROW_THEN_WIDE[0]);
    NoBraceBalances(NARROW_THEN_WIDE[1]);
    PlainParts(NARROW_THEN_WIDE);
    CombinedRuleIsPerformedAsRead(NARROW_THEN_WIDE, w, fx);
  }

  /** Nor so for a rule that names heads its window does not fit: where its promise already
      holds it works, yet with every send lost it is reported clean though it would move. */
  lemma UnfitRuleIsReportedClean(fx: Fluxbox, v: Window, w: World, limit: nat)
    returns (outcome: RuleOutcome, attempts: seq<Attempt>, effective: seq<bool>)
    requires fx.heads == NARROW_AND_WIDE && limit >= 1
    requires 200 <= CentreX(View(v)) < 300 && 0 <= CentreY(View(v)) < 100
    ensures IsFlatRule(NARROW_THEN_WIDE, fx)
    ensures |effective| == limit + 1 && |attempts| <= limit
    ensures var (rule, start) := (RuleOn(Combine(NARROW_THEN_WIDE), [0], fx), map[0 := v]);
      && Works([0], rule, start, Summary(NARROW_THEN_WIDE), fx.heads)
      && IsVerdict(outcome, [0], Summary(NARROW_THEN_WIDE), fx.heads, attempts, limit)
      && Observes([0], attempts, rule, start, effective)
      && outcome.problems == [] && outcome.repairs == 0
      && !SameOn([0], attempts[|attempts| - 1].after.States(), ViewAll(rule(start)))
  {
    UnfitWorks(fx, v);
    outcome, attempts, effective := LostRuleIsReportedClean(
      "", [0], Summary(NARROW_THEN_WIDE), fx.heads, RuleOn(Combine(NARROW_THEN_WIDE), [0], fx), map[0 := v], w, limit);
  }

  lemma UnfitWorks(fx: Fluxbox, v: Window)
    requires fx.heads == NARROW_AND_WIDE
    requires 200 <= CentreX(View(v)) < 300 && 0 <= CentreY(View(v)) < 100
    ensures IsFlatRule(NARROW_THEN_WIDE, fx)
    ensures var (rule, start) := (RuleOn(Combine(NARROW_THEN_WIDE), [0], fx), map[0 := v]);
      && Works([0], rule, start, Summary(NARROW_THEN_WIDE), fx.heads)
      && AllMeet([0], ViewAll(start), Summary(NARROW_THEN_WIDE), fx.heads)
      && !SameOn([0], ViewAll(start), ViewAll(rule(start)))
  {
    var u := v.(x := v.x - 100);
    NarrowThenWideIsFlat(v, fx);
    NarrowThenWideIsFlat(u, fx);
    UnfitRuleDrifts(v, fx);
    UnfitRuleDrifts(u, fx);
    RuleOfOne(Combine(NARROW_THEN_WIDE), v, u, fx);
    RuleOfOne(Combine(NARROW_THEN_WIDE), u, u, fx);
    assert 0 in [0];
  }

  lemma RuleOfOne(command: string, v: Window, u: Window, fx: Fluxbox)
    requires Execute(command, v, fx) == u
    ensures RuleOn(command, [0], fx)(map[0 := v]) == map[0 := u]
  {
  }
}
