/** Performing a rule means what the rule's summary says: the summary is sound for what
    Fluxbox does, and a rule that took effect changes nothing when repeated. */
module PlacementLaws {
  import opened Options
  import opened MacroCommands
  import opened RuleSummary
  import opened Placement

  /** Heads and workspaces exist, and there is no macro inside a macro. */
  predicate ValidParts(parts: seq<string>, fx: Fluxbox)
  {
    forall p :: p in parts ==>
      && !IsMacro(p)
      && (HeadNamed(p).Some? ==> IsHead(HeadNamed(p).value, fx.heads))
      && (WorkspaceNamed(p).Some? ==> 1 <= WorkspaceNamed(p).value <= fx.workspaces)
  }

  /** Every part sets the head, the workspace or the stuck state, or toggles the latter. */
  predicate OnlyPlaces(parts: seq<string>) {
    forall p :: p in parts ==>
      HeadNamed(p).Some? || WorkspaceNamed(p).Some? || StuckNamed(p).Some? || p == TOGGLE
  }

  /** The promised head and workspace exist. */
  predicate ValidPromise(promised: Expectation, fx: Fluxbox) {
    && (promised.head.Some? ==> IsHead(promised.head.value, fx.heads))
    && (promised.workspace.Some? ==> 1 <= promised.workspace.value <= fx.workspaces)
  }

  // ------------------------------------------------------------- bare toggles

  function Flip(w: Window, flip: bool): Window {
    w.(stuck := w.stuck != flip)
  }

  /** An odd number of bare toggles comes after the last guarded stick or unstick, or after
      the start when there is none. */
  predicate Flips(parts: seq<string>) {
    if parts == [] then false
    else
      var before, last := parts[..|parts| - 1], parts[|parts| - 1];
      if StuckNamed(last).Some? then false
      else if last == TOGGLE then !Flips(before)
      else Flips(before)
  }

  function Toggles(parts: seq<string>): nat {
    if parts == [] then 0
    else Toggles(parts[..|parts| - 1]) + (if parts[|parts| - 1] == TOGGLE then 1 else 0)
  }

  predicate Unguarded(parts: seq<string>) {
    forall p :: p in parts ==> StuckNamed(p).None?
  }

  lemma ToggleNamesNothing()
    ensures NamedBy(TOGGLE) == Expectation(None, None, None)
  {
    assert TOGGLE[2] == 'i' && "SetHead "[2] == 't' && "SendToWorkspace "[2] == 'n';
    assert TOGGLE[0] == 'S' && STICK[0] == 'I' && UNSTICK[0] == 'I';
  }

  /** What counts are the toggles after the last guarded command, or all without one. */
  lemma {:induction false} FlipsCountsToggles(before: seq<string>, after: seq<string>)
    requires Unguarded(after)
    requires before == [] || StuckNamed(before[|before| - 1]).Some?
    ensures Flips(before + after) <==> Toggles(after) % 2 == 1
    decreases |after|
  {
    if after == [] {
      assert before + after == before;
    } else {
      var front, last := after[..|after| - 1], after[|after| - 1];
      assert (before + after)[..|before + after| - 1] == before + front;
      assert forall p :: p in front ==> p in after;
      assert last in after;
      FlipsCountsToggles(before, front);
    }
  }

  // ----------------------------------------- a rule is its moves and its fields

  /** The heads a rule names, in order. */
  function HeadsNamed(parts: seq<string>): seq<nat> {
    if parts == [] then []
    else
      var last := HeadNamed(parts[|parts| - 1]);
      HeadsNamed(parts[..|parts| - 1]) + (if last.Some? then [last.value] else [])
  }

  /** Only the rule's SetHead commands. */
  function MoveAll(w: Window, named: seq<nat>, fx: Fluxbox): Window {
    if named == [] then w
    else OntoHead(MoveAll(w, named[..|named| - 1], fx), named[|named| - 1], fx)
  }

  /** Only the promised workspace and stuck state. */
  function WithFields(w: Window, promised: Expectation): Window {
    w.(workspace := if promised.workspace.Some? && promised.workspace.value > 0
                    then promised.workspace.value - 1 else w.workspace,
       stuck := if promised.stuck.Some? then promised.stuck.value else w.stuck)
  }

  lemma MoveIgnoresFields(w: Window, workspace: nat, stuck: bool, n: nat, fx: Fluxbox)
    ensures var v := w.(workspace := workspace, stuck := stuck);
      && HeadOf(View(v), fx.heads) == HeadOf(View(w), fx.heads)
      && NearestHead(v, fx) == NearestHead(w, fx)
      && OntoHead(v, n, fx) == OntoHead(w, n, fx).(workspace := workspace, stuck := stuck)
  {
    var v := w.(workspace := workspace, stuck := stuck);
    assert CentreX(View(v)) == CentreX(View(w)) && CentreY(View(v)) == CentreY(View(w));
  }

  lemma {:induction false} MovesIgnoreFields(w: Window, workspace: nat, stuck: bool, named: seq<nat>, fx: Fluxbox)
    ensures MoveAll(w.(workspace := workspace, stuck := stuck), named, fx)
         == MoveAll(w, named, fx).(workspace := workspace, stuck := stuck)
    decreases |named|
  {
    if named != [] {
      var last := |named| - 1;
      MovesIgnoreFields(w, workspace, stuck, named[..last], fx);
      MoveIgnoresFields(MoveAll(w, named[..last], fx), workspace, stuck, named[last], fx);
    }
  }

  /** On every window and any heads, a rule of placing commands does what its SetHead commands
      alone do to the position, sets the promised workspace and stuck state, and flips the
      latter when an odd number of toggles was left over. */
  lemma {:induction false} RuleFactors(parts: seq<string>, w: Window, fx: Fluxbox)
    requires ValidParts(parts, fx) && OnlyPlaces(parts)
    ensures PerformAll(parts, w, fx)
         == Flip(WithFields(MoveAll(w, HeadsNamed(parts), fx), Summary(parts)), Flips(parts))
    decreases |parts|
  {
    if parts != [] {
      var before, last := parts[..|parts| - 1], parts[|parts| - 1];
      assert forall p :: p in before ==> p in parts;
      assert last in parts && before + [last] == parts;
      SummaryOfOneMore(before, last);
      RuleFactors(before, w, fx);
      PerformOneMore(last, MoveAll(w, HeadsNamed(before), fx), Summary(before), Flips(before), fx);
      MoveOneMore(w, before, last, fx);
    }
  }

  lemma MoveOneMore(w: Window, before: seq<string>, last: string, fx: Fluxbox)
    ensures MoveAll(w, HeadsNamed(before + [last]), fx)
         == if HeadNamed(last).Some? then OntoHead(MoveAll(w, HeadsNamed(before), fx), HeadNamed(last).value, fx)
            else MoveAll(w, HeadsNamed(before), fx)
  {
    assert (before + [last])[..|before|] == before;
    var named := HeadsNamed(before);
    if HeadNamed(last).Some? {
      assert (named + [HeadNamed(last).value])[..|named|] == named;
    } else {
      assert named + [] == named;
    }
  }

  lemma PerformOneMore(command: string, w: Window, promised: Expectation, flip: bool, fx: Fluxbox)
    requires ValidParts([command], fx) && OnlyPlaces([command])
    ensures Perform(command, Flip(WithFields(w, promised), flip), fx)
         == Flip(WithFields(if HeadNamed(command).Some? then OntoHead(w, HeadNamed(command).value, fx) else w,
                            promised.OverriddenBy(NamedBy(command))),
                 if StuckNamed(command).Some? then false else flip != (command == TOGGLE))
  {
    assert command in [command];
    ToggleNamesNothing();
    CommandsSetOneThing(command);
    GuardedToggleSticks(command, Flip(WithFields(w, promised), flip));
    if HeadNamed(command).Some? {
      var v := Flip(WithFields(w, promised), flip);
      MoveIgnoresFields(w, v.workspace, v.stuck, HeadNamed(command).value, fx);
    }
  }

  /** The promised head is the last one named, and all heads named exist. */
  lemma {:induction false} LastHeadIsPromised(parts: seq<string>, fx: Fluxbox)
    requires ValidParts(parts, fx)
    ensures ValidPromise(Summary(parts), fx)
    ensures var named := HeadsNamed(parts);
      && Summary(parts).head == (if named == [] then None else Some(named[|named| - 1]))
      && forall n :: n in named ==> IsHead(n, fx.heads)
    decreases |parts|
  {
    if parts != [] {
      var before, last := parts[..|parts| - 1], parts[|parts| - 1];
      assert forall p :: p in before ==> p in parts;
      assert last in parts && before + [last] == parts;
      SummaryOfOneMore(before, last);
      LastHeadIsPromised(before, fx);
    }
  }

  /** A rule changes nothing when repeated if and only if its SetHead commands alone change
      nothing when repeated, and it has a guarded stick or unstick or no odd number of
      toggles left over. Otherwise the repeat shows. */
  lemma RuleSettlesIff(parts: seq<string>, w: Window, fx: Fluxbox)
    requires ValidParts(parts, fx) && OnlyPlaces(parts)
    ensures var v := PerformAll(parts, w, fx);
      var again := PerformAll(parts, v, fx);
      var moved := MoveAll(w, HeadsNamed(parts), fx);
      && (again == v <==> MoveAll(moved, HeadsNamed(parts), fx) == moved && (Summary(parts).stuck.Some? || !Flips(parts)))
      && (again == v <==> View(again).SamePlacement(View(v)))
  {
    var (named, promised) := (HeadsNamed(parts), Summary(parts));
    var moved := MoveAll(w, named, fx);
    var v := Flip(WithFields(moved, promised), Flips(parts));
    RuleFactors(parts, w, fx);
    RuleFactors(parts, v, fx);
    MovesIgnoreFields(moved, v.workspace, v.stuck, named, fx);
    MovesOnlyShift(moved, named, fx);
  }

  lemma {:induction false} MovesOnlyShift(w: Window, named: seq<nat>, fx: Fluxbox)
    ensures var v := MoveAll(w, named, fx); v == w.(x := v.x, y := v.y)
    decreases |named|
  {
    if named != [] {
      MovesOnlyShift(w, named[..|named| - 1], fx);
    }
  }

  /** The rule checker finds nothing to complain about after the rule if and only if its
      SetHead commands alone end on the promised head, and no odd number of toggles was left
      over when a stuck state is promised. */
  lemma RuleMeetsIff(parts: seq<string>, w: Window, fx: Fluxbox)
    requires ValidParts(parts, fx) && OnlyPlaces(parts)
    ensures var (promised, moved) := (Summary(parts), MoveAll(w, HeadsNamed(parts), fx));
      Meets(View(PerformAll(parts, w, fx)), promised, fx.heads)
      <==> && (promised.head.Some? ==> HeadOf(View(moved), fx.heads) == promised.head)
           && (promised.stuck.Some? ==> !Flips(parts))
  {
    RuleFactors(parts, w, fx);
    LastHeadIsPromised(parts, fx);
    var moved := MoveAll(w, HeadsNamed(parts), fx);
    var v := PerformAll(parts, w, fx);
    MoveIgnoresFields(moved, v.workspace, v.stuck, 0, fx);
  }

  // ------------------------------------------------------------- rules for one head

  /** The heads have the same corner, so moving between them moves nothing. */
  predicate SameCorner(m: nat, n: nat, heads: seq<Head>)
    requires IsHead(n, heads)
  {
    IsHead(m, heads) ==> heads[m - 1].x == heads[n - 1].x && heads[m - 1].y == heads[n - 1].y
  }

  /** A rule with one SetHead, on a window that is on head `c`: it meets its promise if and
      only if the window's offset fits the named head and no lower-numbered head covers the new
      centre; it settles if and only if the head nearest to where it puts the window has the
      named head's corner. A guarded stick and toggles add their own conditions. */
  lemma OneHeadRuleIff(parts: seq<string>, n: nat, w: Window, c: nat, fx: Fluxbox)
    requires ValidParts(parts, fx) && OnlyPlaces(parts) && HeadsNamed(parts) == [n]
    requires HeadOf(View(w), fx.heads) == Some(c)
    ensures IsHead(n, fx.heads) && IsHead(c, fx.heads)
    ensures var moved := Shifted(w, fx.heads[c - 1], fx.heads[n - 1]);
      var v := PerformAll(parts, w, fx);
      && (Meets(View(v), Summary(parts), fx.heads)
          <==> && FitsOn(w, c, n, fx.heads)
               && (forall i :: 0 <= i < n - 1 ==> !Covers(fx.heads[i], CentreX(View(moved)), CentreY(View(moved))))
               && (Summary(parts).stuck.Some? ==> !Flips(parts)))
      && (PerformAll(parts, v, fx) == v
          <==> SameCorner(NearestHead(moved, fx), n, fx.heads) && (Summary(parts).stuck.Some? || !Flips(parts)))
  {
    LastHeadIsPromised(parts, fx);
    assert n in HeadsNamed(parts);
    OneMoveIff(w, c, n, fx);
    RuleMeetsIff(parts, w, fx);
    RuleSettlesIff(parts, w, fx);
  }

  lemma OneMoveIff(w: Window, c: nat, n: nat, fx: Fluxbox)
    requires HeadOf(View(w), fx.heads) == Some(c) && IsHead(n, fx.heads)
    ensures IsHead(c, fx.heads)
    ensures var moved := Shifted(w, fx.heads[c - 1], fx.heads[n - 1]);
      && MoveAll(w, [n], fx) == moved
      && (HeadOf(View(moved), fx.heads) == Some(n)
          <==> && FitsOn(w, c, n, fx.heads)
               && forall i :: 0 <= i < n - 1 ==> !Covers(fx.heads[i], CentreX(View(moved)), CentreY(View(moved))))
      && (MoveAll(moved, [n], fx) == moved <==> SameCorner(NearestHead(moved, fx), n, fx.heads))
  {
    HeadOfIsLowest(View(w), fx.heads, c);
    SetHeadLandsIff(w, c, n, fx);
    var moved := OntoHead(w, n, fx);
    OneMove(w, n, fx);
    OneMove(moved, n, fx);
  }

  lemma OneMove(w: Window, n: nat, fx: Fluxbox)
    ensures MoveAll(w, [n], fx) == OntoHead(w, n, fx)
  {
    assert [n][..0] == [];
  }

  /** All SetHead commands name the same head. */
  predicate OneHead(parts: seq<string>) {
    forall n :: n in HeadsNamed(parts) ==> n == HeadsNamed(parts)[0]
  }

  /** On any heads, such a rule leaves a window that shows what is promised where it is, if
      and only if no odd number of toggles is left over. */
  lemma MetStaysIff(parts: seq<string>, w: Window, fx: Fluxbox)
    requires ValidParts(parts, fx) && OnlyPlaces(parts) && OneHead(parts)
    requires Meets(View(w), Summary(parts), fx.heads)
    ensures View(PerformAll(parts, w, fx)).SamePlacement(View(w)) <==> !Flips(parts)
  {
    RuleFactors(parts, w, fx);
    LastHeadIsPromised(parts, fx);
    var named := HeadsNamed(parts);
    if named != [] {
      assert named[|named| - 1] in named;
      assert forall n :: n in named ==> n == named[|named| - 1];
      StaysOnHead(w, named, named[|named| - 1], fx);
    }
  }

  lemma {:induction false} StaysOnHead(w: Window, named: seq<nat>, n: nat, fx: Fluxbox)
    requires HeadOf(View(w), fx.heads) == Some(n) && forall m :: m in named ==> m == n
    ensures MoveAll(w, named, fx) == w
    decreases |named|
  {
    if named != [] {
      var front := named[..|named| - 1];
      assert forall m :: m in front ==> m in named;
      StaysOnHead(w, front, n, fx);
      assert named[|named| - 1] in named;
    }
  }

  // --------------------------------------------------- rules for several heads

  /** The window is on a head, at an offset that fits every head named. */
  predicate RoomyFor(w: Window, named: seq<nat>, heads: seq<Head>) {
    match HeadOf(View(w), heads)
    case None => false
    case Some(c) => IsHead(c, heads) && forall n :: n in named ==> IsHead(n, heads) && FitsOn(w, c, n, heads)
  }

  lemma RoomyMove(w: Window, n: nat, named: seq<nat>, fx: Fluxbox)
    requires Disjoint(fx.heads) && RoomyFor(w, named, fx.heads) && n in named
    ensures var v := OntoHead(w, n, fx);
      && v == BetweenHeads(w, HeadOf(View(w), fx.heads), n, fx.heads)
      && HeadOf(View(v), fx.heads) == Some(n) && RoomyFor(v, named, fx.heads)
  {
    var c := HeadOf(View(w), fx.heads).value;
    var v := OntoHead(w, n, fx);
    var cx, cy := CentreX(View(v)), CentreY(View(v));
    assert cx - fx.heads[n - 1].x == CentreX(View(w)) - fx.heads[c - 1].x;
    assert cy - fx.heads[n - 1].y == CentreY(View(w)) - fx.heads[c - 1].y;
    assert Covers(fx.heads[n - 1], cx, cy);
    SetHeadLandsIff(w, c, n, fx);
  }

  lemma {:induction false} RoomyMoves(w: Window, some: seq<nat>, named: seq<nat>, fx: Fluxbox)
    requires Disjoint(fx.heads) && RoomyFor(w, named, fx.heads) && forall n :: n in some ==> n in named
    ensures var v := MoveAll(w, some, fx);
      && RoomyFor(v, named, fx.heads)
      && (if some == [] then v == w
          else && v == BetweenHeads(w, HeadOf(View(w), fx.heads), some[|some| - 1], fx.heads)
               && HeadOf(View(v), fx.heads) == Some(some[|some| - 1]))
    decreases |some|
  {
    if some != [] {
      var front, last := some[..|some| - 1], some[|some| - 1];
      assert last in some && forall n :: n in front ==> n in some;
      RoomyMoves(w, front, named, fx);
      RoomyMove(MoveAll(w, front, fx), last, named, fx);
    }
  }

  /** Sets each promised field once, the head by one move from the window's own head. */
  function Placed(w: Window, promised: Expectation, heads: seq<Head>): Window {
    WithFields(if promised.head.Some? then BetweenHeads(w, HeadOf(View(w), heads), promised.head.value, heads) else w,
               promised)
  }

  function BetweenHeads(w: Window, from: Option<nat>, to: nat, heads: seq<Head>): Window {
    if from.Some? && IsHead(from.value, heads) && IsHead(to, heads)
    then Shifted(w, heads[from.value - 1], heads[to - 1])
    else w
  }

  /** Head, workspace and stuck commands and bare toggles, performed one by one in any order
      and number, do exactly what setting each promised field once does, with the stuck state
      flipped when an odd number of toggles was left over. */
  lemma RuleIsItsSummary(parts: seq<string>, w: Window, fx: Fluxbox)
    requires ValidParts(parts, fx) && OnlyPlaces(parts)
    requires Disjoint(fx.heads)
    requires HeadsNamed(parts) != [] ==> RoomyFor(w, HeadsNamed(parts), fx.heads)
    ensures ValidPromise(Summary(parts), fx)
    ensures PerformAll(parts, w, fx) == Flip(Placed(w, Summary(parts), fx.heads), Flips(parts))
  {
    RuleFactors(parts, w, fx);
    LastHeadIsPromised(parts, fx);
    if HeadsNamed(parts) != [] {
      RoomyMoves(w, HeadsNamed(parts), HeadsNamed(parts), fx);
    }
  }

  /** Such a rule meets its promise and settles, unless toggles are left over. */
  lemma RoomyRuleIsCertified(parts: seq<string>, w: Window, fx: Fluxbox)
    requires ValidParts(parts, fx) && OnlyPlaces(parts) && !Flips(parts)
    requires Disjoint(fx.heads)
    requires HeadsNamed(parts) != [] ==> RoomyFor(w, HeadsNamed(parts), fx.heads)
    ensures var v := PerformAll(parts, w, fx);
      Meets(View(v), Summary(parts), fx.heads) && PerformAll(parts, v, fx) == v
  {
    LastHeadIsPromised(parts, fx);
    RuleMeetsIff(parts, w, fx);
    RuleSettlesIff(parts, w, fx);
    RoomyMovesSettle(w, HeadsNamed(parts), fx);
  }

  lemma RoomyMovesSettle(w: Window, named: seq<nat>, fx: Fluxbox)
    requires Disjoint(fx.heads) && (named != [] ==> RoomyFor(w, named, fx.heads))
    ensures var v := MoveAll(w, named, fx);
      && (named != [] ==> HeadOf(View(v), fx.heads) == Some(named[|named| - 1]))
      && MoveAll(v, named, fx) == v
  {
    if named != [] {
      RoomyMoves(w, named, named, fx);
      RoomyMoves(MoveAll(w, named, fx), named, named, fx);
    }
  }

  // ------------------------------------------------- soundness of the summary

  /** All other commands may move and resize a window, but on its own head and at an offset
      that still fits the heads named, and leave its workspace and stuck state alone. */
  ghost predicate OthersStayOnHead(named: seq<nat>, fx: Fluxbox)
  {
    forall command, w ::
      var v := fx.other(command, w);
      && v.workspace == w.workspace && v.stuck == w.stuck
      && (RoomyFor(w, named, fx.heads) ==>
            RoomyFor(v, named, fx.heads) && HeadOf(View(v), fx.heads) == HeadOf(View(w), fx.heads))
  }

  /** What the parts read so far guarantee about a window that started as `w`. */
  ghost predicate Keeps(v: Window, w: Window, promised: Expectation, flip: bool, named: seq<nat>, fx: Fluxbox)
  {
    && (RoomyFor(w, named, fx.heads) ==>
          && RoomyFor(v, named, fx.heads)
          && HeadOf(View(v), fx.heads) == HeadOf(View(w), fx.heads).OverriddenBy(promised.head))
    && v.stuck == ((if promised.stuck.Some? then promised.stuck.value else w.stuck) != flip)
    && v.workspace == (if promised.workspace.Some? && promised.workspace.value > 0
                       then promised.workspace.value - 1 else w.workspace)
  }

  lemma PerformKeeps(command: string, v: Window, w: Window, promised: Expectation, flip: bool, named: seq<nat>, fx: Fluxbox)
    requires ValidParts([command], fx) && Disjoint(fx.heads) && OthersStayOnHead(named, fx)
    requires HeadNamed(command).Some? ==> HeadNamed(command).value in named
    requires Keeps(v, w, promised, flip, named, fx)
    ensures Keeps(Perform(command, v, fx), w, promised.OverriddenBy(NamedBy(command)),
                  if StuckNamed(command).Some? then false else flip != (command == TOGGLE), named, fx)
  {
    CommandsSetOneThing(command);
    ToggleNamesNothing();
    GuardedToggleSticks(command, v);
    assert command in [command];
    if HeadNamed(command).Some? {
      HeadKeeps(HeadNamed(command).value, v, w, promised, flip, named, fx);
    } else if WorkspaceNamed(command).Some? || StuckNamed(command).Some? || command == TOGGLE {
      var u := Perform(command, v, fx);
      FieldKeepsRoom(v, u.workspace, u.stuck, named, fx);
    } else {
      assert Perform(command, v, fx) == fx.other(command, v);
    }
  }

  lemma HeadKeeps(n: nat, v: Window, w: Window, promised: Expectation, flip: bool, named: seq<nat>, fx: Fluxbox)
    requires n in named && Disjoint(fx.heads) && Keeps(v, w, promised, flip, named, fx)
    ensures Keeps(OntoHead(v, n, fx), w, promised.OverriddenBy(Expectation(Some(n), None, None)), flip, named, fx)
  {
    if RoomyFor(w, named, fx.heads) {
      RoomyMove(v, n, named, fx);
    }
  }

  lemma FieldKeepsRoom(w: Window, workspace: nat, stuck: bool, named: seq<nat>, fx: Fluxbox)
    ensures var v := w.(workspace := workspace, stuck := stuck);
      && HeadOf(View(v), fx.heads) == HeadOf(View(w), fx.heads)
      && (RoomyFor(w, named, fx.heads) ==> RoomyFor(v, named, fx.heads))
  {
    MoveIgnoresFields(w, workspace, stuck, 0, fx);
  }

  lemma {:induction false} PerformAllKeeps(parts: seq<string>, w: Window, named: seq<nat>, fx: Fluxbox)
    requires ValidParts(parts, fx) && Disjoint(fx.heads) && OthersStayOnHead(named, fx)
    requires forall n :: n in HeadsNamed(parts) ==> n in named
    ensures Keeps(PerformAll(parts, w, fx), w, Summary(parts), Flips(parts), named, fx)
    decreases |parts|
  {
    if parts != [] {
      var before, last := parts[..|parts| - 1], parts[|parts| - 1];
      assert forall p :: p in before ==> p in parts;
      assert last in parts && before + [last] == parts;
      assert HeadNamed(last).Some? ==> HeadsNamed(parts)[|HeadsNamed(parts)| - 1] == HeadNamed(last).value;
      SummaryOfOneMore(before, last);
      PerformAllKeeps(before, w, named, fx);
      PerformKeeps(last, PerformAll(before, w, fx), w, Summary(before), Flips(before), named, fx);
    }
  }

  /** Whatever else a valid rule does on the window's head, the rule checker finds nothing to
      complain about after it if and only if the rule promises no stuck state or an even
      number of bare toggles follows its last guarded stick or unstick. */
  lemma RuleMeetsItsSummaryIff(parts: seq<string>, w: Window, fx: Fluxbox)
    requires ValidParts(parts, fx) && Disjoint(fx.heads) && OthersStayOnHead(HeadsNamed(parts), fx)
    requires HeadsNamed(parts) != [] ==> RoomyFor(w, HeadsNamed(parts), fx.heads)
    ensures Meets(View(PerformAll(parts, w, fx)), Summary(parts), fx.heads)
       <==> Summary(parts).stuck.None? || !Flips(parts)
  {
    LastHeadIsPromised(parts, fx);
    PerformAllKeeps(parts, w, HeadsNamed(parts), fx);
  }

  // --------------------------------------------------- bringing windows back

  /** A window off every head goes to the corner of the rule's head; others stay. */
  function Brought(w: Window, corner: Head, heads: seq<Head>): Window {
    if HeadOf(View(w), heads).None? then w.(x := corner.x, y := corner.y) else w
  }

  /** From the corner of any head named the window's centre is on that head. */
  predicate SmallEnough(w: Window, named: seq<nat>, heads: seq<Head>) {
    forall n :: n in named && IsHead(n, heads) ==> Fits(w.width / 2, w.height / 2, heads[n - 1])
  }

  /** Enough for a window to be brought back to the corner of head `n` with room on every
      head named: it is on a head, with room already, or it is small enough for them. */
  lemma BroughtIsRoomy(w: Window, n: nat, named: seq<nat>, heads: seq<Head>)
    requires Disjoint(heads) && n in named && forall m :: m in named ==> IsHead(m, heads)
    requires if HeadOf(View(w), heads).None? then SmallEnough(w, named, heads) else RoomyFor(w, named, heads)
    ensures RoomyFor(Brought(w, heads[n - 1], heads), named, heads)
  {
    var v := Brought(w, heads[n - 1], heads);
    if HeadOf(View(w), heads).None? {
      assert Covers(heads[n - 1], CentreX(View(v)), CentreY(View(v)));
      HeadOfIsLowest(View(v), heads, n);
    }
  }

  /** On heads of equal size every window on a head has room on all of them. */
  lemma EqualSizeIsRoomy(w: Window, named: seq<nat>, heads: seq<Head>)
    requires EqualSize(heads) && HeadOf(View(w), heads).Some? && forall m :: m in named ==> IsHead(m, heads)
    ensures RoomyFor(w, named, heads)
  {
    HeadOfIsLowest(View(w), heads, HeadOf(View(w), heads).value);
  }

  /** Where a window is when a rule of this promise is first sent. */
  function StartOf(w: Window, promised: Expectation, fx: Fluxbox): Window
    requires ValidPromise(promised, fx)
  {
    if promised.head.Some? then Brought(w, fx.heads[promised.head.value - 1], fx.heads) else w
  }

  /** Where the window starts it is on a head, at an offset that fits the heads named. */
  predicate CanStart(w: Window, parts: seq<string>, fx: Fluxbox) {
    && ValidPromise(Summary(parts), fx)
    && (HeadsNamed(parts) != [] ==> RoomyFor(StartOf(w, Summary(parts), fx), HeadsNamed(parts), fx.heads))
  }

  /** What is enough for that: a window on a head has room already, as it always has on heads
      of equal size, and a window on none is small enough for the heads named. */
  lemma CanStartWithRoom(parts: seq<string>, w: Window, fx: Fluxbox)
    requires ValidParts(parts, fx) && Disjoint(fx.heads)
    requires HeadsNamed(parts) != [] ==>
      if HeadOf(View(w), fx.heads).None? then SmallEnough(w, HeadsNamed(parts), fx.heads)
      else EqualSize(fx.heads) || RoomyFor(w, HeadsNamed(parts), fx.heads)
    ensures CanStart(w, parts, fx)
  {
    LastHeadIsPromised(parts, fx);
    var named := HeadsNamed(parts);
    if named != [] {
      if HeadOf(View(w), fx.heads).Some? && EqualSize(fx.heads) {
        EqualSizeIsRoomy(w, named, fx.heads);
      }
      var n := named[|named| - 1];
      assert n in named;
      BroughtIsRoomy(w, n, named, fx.heads);
      assert StartOf(w, Summary(parts), fx) == Brought(w, fx.heads[n - 1], fx.heads);
    }
  }

  /** On disjoint heads of any sizes, for a window wherever it is: bringing it onto the rule's
      head and performing the rule leaves nothing to complain about, and performing the rule
      again changes nothing, provided no odd number of bare toggles is left over. */
  lemma PlacedRuleIsCertified(parts: seq<string>, w: Window, fx: Fluxbox)
    requires ValidParts(parts, fx) && OnlyPlaces(parts) && !Flips(parts)
    requires Disjoint(fx.heads) && CanStart(w, parts, fx)
    ensures
      var promised := Summary(parts);
      var start := StartOf(w, promised, fx);
      var v := PerformAll(parts, start, fx);
      && (promised.head.Some? ==> HeadsNamed(parts) != [])
      && v == Placed(start, promised, fx.heads)
      && Meets(View(v), promised, fx.heads)
      && PerformAll(parts, v, fx) == v
  {
    LastHeadIsPromised(parts, fx);
    var start := StartOf(w, Summary(parts), fx);
    RuleIsItsSummary(parts, start, fx);
    RoomyRuleIsCertified(parts, start, fx);
  }

  /** A window that shows what the rule promises is not visibly moved by setting it again. */
  lemma MetIsPlaced(w: Window, promised: Expectation, heads: seq<Head>)
    requires Meets(View(w), promised, heads)
    ensures View(Placed(w, promised, heads)).SamePlacement(View(w))
  {
  }

  // ------------------------------------------- a rule that does not settle

  const NARROW_AND_WIDE := [Head(0, 0, 100, 100), Head(100, 0, 300, 100)]
  const NARROW_THEN_WIDE := ["SetHead 1", "SetHead 2"]

  lemma SetHeadSetsAHead(n: nat)
    ensures var command := "SetHead " + DecimalText(n);
      && !IsMacro(command) && command != TOGGLE
      && NamedBy(command) == Expectation(Some(n), None, None)
  {
    var command := "SetHead " + DecimalText(n);
    SetHeadReadsBack(n);
    CommandsSetOneThing(command);
    assert command[0] == 'S' && MACRO[0] == 'M' && STICK[0] == 'I' && UNSTICK[0] == 'I';
    assert command[2] == 't' && TOGGLE[2] == 'i';
  }

  lemma NarrowThenWide(fx: Fluxbox)
    requires fx.heads == NARROW_AND_WIDE
    ensures ValidParts(NARROW_THEN_WIDE, fx) && OnlyPlaces(NARROW_THEN_WIDE) && !Flips(NARROW_THEN_WIDE)
    ensures HeadsNamed(NARROW_THEN_WIDE) == [1, 2] && Summary(NARROW_THEN_WIDE) == Expectation(Some(2), None, None)
    ensures Disjoint(fx.heads)
  {
    SetHeadSetsAHead(1);
    SetHeadSetsAHead(2);
    var (one, two) := ("SetHead 1", "SetHead 2");
    assert DecimalText(1) == "1" && DecimalText(2) == "2";
    assert NARROW_THEN_WIDE[..1] == [one] && NARROW_THEN_WIDE == [one] + [two];
    HeadsNamedOfOne(one);
    SummaryOfOneMore([], one);
    SummaryOfOneMore([one], two);
    assert [] + [one] == [one];
  }

  lemma HeadsNamedOfOne(command: string)
    ensures HeadsNamed([command]) == if HeadNamed(command).Some? then [HeadNamed(command).value] else []
    ensures Flips([command]) <==> StuckNamed(command).None? && command == TOGGLE
  {
    assert [command][..0] == [];
  }

  lemma UnfitMoves(w: Window, fx: Fluxbox)
    requires fx.heads == NARROW_AND_WIDE
    requires 100 <= CentreX(View(w)) < 400 && 0 <= CentreY(View(w)) < 100
    ensures HeadOf(View(w), fx.heads) == Some(2)
    ensures MoveAll(w, [1, 2], fx) == if CentreX(View(w)) < 200 then w else w.(x := w.x - 100)
  {
    var first := OntoHead(w, 1, fx);
    assert [1, 2][..1] == [1];
    OneMove(w, 1, fx);
    assert HeadOf(View(w), fx.heads) == Some(2);
    assert CentreX(View(first)) == CentreX(View(w)) - 100 && CentreY(View(first)) == CentreY(View(w));
    assert HeadOf(View(first), fx.heads) == Some(if CentreX(View(w)) < 200 then 1 else 2);
  }

  /** Without room on the heads named the promise can hold while the rule keeps moving the
      window: naming the narrow head and then the wide one moves a window that is further right
      on the wide head than the narrow one is wide by a step to the left. */
  lemma UnfitRuleDrifts(w: Window, fx: Fluxbox)
    requires fx.heads == NARROW_AND_WIDE
    requires 100 <= CentreX(View(w)) < 400 && 0 <= CentreY(View(w)) < 100
    ensures Meets(View(w), Summary(NARROW_THEN_WIDE), fx.heads)
    ensures PerformAll(NARROW_THEN_WIDE, w, fx) == if CentreX(View(w)) < 200 then w else w.(x := w.x - 100)
  {
    NarrowThenWide(fx);
    RuleFactors(NARROW_THEN_WIDE, w, fx);
    UnfitMoves(w, fx);
  }
}
