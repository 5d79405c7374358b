/** Window geometry checks, and a small model of how Fluxbox performs a layout rule. */
module Placement {
  import opened Options
  import opened MacroCommands
  import opened RuleSummary

  datatype Head = Head(x: int, y: int, width: int, height: int)

  /** What wmctrl reports about a window; desktop -1 means stuck to all workspaces. */
  datatype WindowState = WindowState(desktop: int, x: int, y: int, width: int, height: int, title: string) {

    /** The equality used to compare snapshots: everything but the title. */
    predicate SamePlacement(other: WindowState) {
      this.(title := other.title) == other
    }
  }

  /** Two snapshots of a window compare equal exactly when its desktop, position and size
      agree; a changed title is no move. */
  lemma SamePlacementIff(a: WindowState, b: WindowState)
    ensures a.SamePlacement(b)
       <==> a.desktop == b.desktop && a.x == b.x && a.y == b.y && a.width == b.width && a.height == b.height
  {
  }

  // ------------------------------------------------------------ head lookup

  function CentreX(state: WindowState): int { state.x + state.width / 2 }

  function CentreY(state: WindowState): int { state.y + state.height / 2 }

  /** The centre is as far from the left edge as from the right one, and from the top as from
      the bottom, or one pixel nearer to the left or the top. */
  lemma CentreIsMiddle(state: WindowState)
    ensures 0 <= (state.x + state.width - CentreX(state)) - (CentreX(state) - state.x) <= 1
    ensures 0 <= (state.y + state.height - CentreY(state)) - (CentreY(state) - state.y) <= 1
  {
  }

  predicate Covers(head: Head, cx: int, cy: int) {
    head.x <= cx < head.x + head.width && head.y <= cy < head.y + head.height
  }

  /** A head covers its own pixels and no others: one of a single pixel just its corner, and
      one cut in two, by columns or by rows, what either of the halves covers, never both. */
  lemma CoversItsPixels(head: Head, n: int, cx: int, cy: int)
    requires 0 <= n
    ensures Covers(Head(head.x, head.y, 1, 1), cx, cy) <==> cx == head.x && cy == head.y
    ensures n <= head.width ==>
      var (left, right) := (head.(width := n), head.(x := head.x + n, width := head.width - n));
      && (Covers(head, cx, cy) <==> Covers(left, cx, cy) || Covers(right, cx, cy))
      && !(Covers(left, cx, cy) && Covers(right, cx, cy))
    ensures n <= head.height ==>
      var (top, bottom) := (head.(height := n), head.(y := head.y + n, height := head.height - n));
      && (Covers(head, cx, cy) <==> Covers(top, cx, cy) || Covers(bottom, cx, cy))
      && !(Covers(top, cx, cy) && Covers(bottom, cx, cy))
  {
  }

  /** 1-based number of the first head, from position `i` on, that covers the point. */
  function FirstCovering(heads: seq<Head>, i: nat, cx: int, cy: int): Option<nat>
    requires i <= |heads|
    decreases |heads| - i
  {
    if i == |heads| then None
    else if Covers(heads[i], cx, cy) then Some(i + 1)
    else FirstCovering(heads, i + 1, cx, cy)
  }

  function HeadOf(state: WindowState, heads: seq<Head>): Option<nat> {
    FirstCovering(heads, 0, CentreX(state), CentreY(state))
  }

  ghost predicate IsLowestCovering(heads: seq<Head>, n: int, cx: int, cy: int)
  {
    && 1 <= n <= |heads|
    && Covers(heads[n - 1], cx, cy)
    && forall i :: 0 <= i < n - 1 ==> !Covers(heads[i], cx, cy)
  }

  lemma {:induction false} FirstCoveringIsLowest(heads: seq<Head>, i: nat, cx: int, cy: int)
    requires i <= |heads|
    requires forall j :: 0 <= j < i ==> !Covers(heads[j], cx, cy)
    ensures forall n: nat :: FirstCovering(heads, i, cx, cy) == Some(n) <==> IsLowestCovering(heads, n, cx, cy)
    decreases |heads| - i
  {
    if i < |heads| && !Covers(heads[i], cx, cy) {
      FirstCoveringIsLowest(heads, i + 1, cx, cy);
    }
  }

  /** A window is on head `n` exactly when `n` is the lowest-numbered head covering its centre. */
  lemma HeadOfIsLowest(state: WindowState, heads: seq<Head>, n: nat)
    ensures HeadOf(state, heads) == Some(n) <==> IsLowestCovering(heads, n, CentreX(state), CentreY(state))
  {
    FirstCoveringIsLowest(heads, 0, CentreX(state), CentreY(state));
  }

  lemma {:induction false} NoHeadIffUncovered(state: WindowState, heads: seq<Head>)
    ensures HeadOf(state, heads).None?
       <==> forall i :: 0 <= i < |heads| ==> !Covers(heads[i], CentreX(state), CentreY(state))
  {
    var cx, cy := CentreX(state), CentreY(state);
    FirstCoveringIsLowest(heads, 0, cx, cy);
    if i :| 0 <= i < |heads| && Covers(heads[i], cx, cy) {
      SomeLowest(heads, i, cx, cy);
    }
    if HeadOf(state, heads).Some? {
      assert IsLowestCovering(heads, HeadOf(state, heads).value, cx, cy);
    }
  }

  lemma {:induction false} SomeLowest(heads: seq<Head>, i: nat, cx: int, cy: int)
    requires i < |heads| && Covers(heads[i], cx, cy)
    ensures exists n: nat :: IsLowestCovering(heads, n, cx, cy)
  {
    if j :| 0 <= j < i && Covers(heads[j], cx, cy) {
      SomeLowest(heads, j, cx, cy);
    } else {
      assert IsLowestCovering(heads, i + 1, cx, cy);
    }
  }

  // --------------------------------------------------------------- problems

  datatype Problem =
    | WrongHead(window: nat, title: string, found: Option<nat>, head: nat)
    | WrongStuck(window: nat, title: string, sticky: bool, stuck: bool)
    | WrongWorkspace(window: nat, title: string, desktop: int, workspace: nat)
    | Moved(window: nat, title: string, before: WindowState, after: WindowState)

  /** The window is where the rule promised to put it. A stuck window is on every workspace. */
  predicate Meets(state: WindowState, expected: Expectation, heads: seq<Head>)
  {
    && (expected.head.Some? ==> HeadOf(state, heads) == expected.head)
    && (expected.stuck.Some? ==> (state.desktop == -1) == expected.stuck.value)
    && (expected.workspace.Some? && state.desktop != -1 ==> state.desktop == expected.workspace.value - 1)
  }

  function Complaints(window: nat, state: Option<WindowState>, expected: Expectation, heads: seq<Head>): (found: seq<Problem>)
    ensures found == [] <==> (state.Some? ==> Meets(state.value, expected, heads))
  {
    if state.None? then []
    else
      var s := state.value;
      (if expected.head.Some? && HeadOf(s, heads) != expected.head
       then [WrongHead(window, s.title, HeadOf(s, heads), expected.head.value)] else [])
      + (if expected.stuck.Some? && (s.desktop == -1) != expected.stuck.value
         then [WrongStuck(window, s.title, s.desktop == -1, expected.stuck.value)] else [])
      + (if expected.workspace.Some? && s.desktop != -1 && s.desktop != expected.workspace.value - 1
         then [WrongWorkspace(window, s.title, s.desktop, expected.workspace.value)] else [])
  }

  /** What a problem says is true of the window, and against the promise. */
  predicate IsComplaint(p: Problem, window: nat, s: WindowState, expected: Expectation, heads: seq<Head>) {
    match p
    case WrongHead(w, title, found, head) =>
      && w == window && title == s.title && expected.head == Some(head)
      && found == HeadOf(s, heads) && found != Some(head)
    case WrongStuck(w, title, sticky, stuck) =>
      && w == window && title == s.title && expected.stuck == Some(stuck)
      && (sticky <==> s.desktop == -1) && sticky != stuck
    case WrongWorkspace(w, title, desktop, workspace) =>
      && w == window && title == s.title && expected.workspace == Some(workspace)
      && desktop == s.desktop && desktop != -1 && desktop + 1 != workspace
    case Moved(_, _, _, _) => false
  }

  /** The order in which the checks are made. */
  function Rank(p: Problem): nat {
    match p
    case WrongHead(_, _, _, _) => 0
    case WrongStuck(_, _, _, _) => 1
    case WrongWorkspace(_, _, _, _) => 2
    case Moved(_, _, _, _) => 3
  }

  /** An open window gets exactly the complaints that are true of it, each once, in the order
      of the checks; a closed one gets none. */
  lemma ComplaintsIff(window: nat, state: Option<WindowState>, expected: Expectation, heads: seq<Head>)
    ensures var found := Complaints(window, state, expected, heads);
      && (forall p :: p in found <==> state.Some? && IsComplaint(p, window, state.value, expected, heads))
      && (forall i, j :: 0 <= i < j < |found| ==> Rank(found[i]) < Rank(found[j]))
  {
  }

  method Problems(window: nat, state: Option<WindowState>, expected: Expectation, heads: seq<Head>)
    returns (found: seq<Problem>)
    ensures found == Complaints(window, state, expected, heads)
  {
    if state.None? {
      return [];
    }
    var s := state.value;
    found := [];
    if expected.head.Some? && HeadOf(s, heads) != expected.head {
      found := found + [WrongHead(window, s.title, HeadOf(s, heads), expected.head.value)];
    }
    var sticky := s.desktop == -1;
    if expected.stuck.Some? && sticky != expected.stuck.value {
      found := found + [WrongStuck(window, s.title, sticky, expected.stuck.value)];
    }
    if expected.workspace.Some? && !sticky && s.desktop != expected.workspace.value - 1 {
      found := found + [WrongWorkspace(window, s.title, s.desktop, expected.workspace.value)];
    }
  }

  /** Two snapshots that compare equal get the same verdict, whatever their titles. */
  lemma VerdictIgnoresTitle(window: nat, a: WindowState, b: WindowState, expected: Expectation, heads: seq<Head>)
    requires a.SamePlacement(b)
    ensures Complaints(window, Some(a), expected, heads) == [] <==> Complaints(window, Some(b), expected, heads) == []
  {
  }

  // ------------------------------------------------------ Fluxbox's windows

  /** A window as Fluxbox holds it: a stuck window remembers its own workspace. */
  datatype Window = Window(workspace: nat, stuck: bool, x: int, y: int, width: int, height: int, title: string)

  function View(w: Window): WindowState {
    WindowState(if w.stuck then -1 else w.workspace, w.x, w.y, w.width, w.height, w.title)
  }

  /** The heads and workspaces, and the two parts of Fluxbox that stay open: which head
      it takes as nearest to a centre that is on none, and all other commands. */
  datatype Fluxbox = Fluxbox(heads: seq<Head>, workspaces: nat,
                             nearest: (int, int) -> nat, other: (string, Window) -> Window)

  function NearestHead(w: Window, fx: Fluxbox): nat {
    match HeadOf(View(w), fx.heads)
    case Some(n) => n
    case None => fx.nearest(CentreX(View(w)), CentreY(View(w)))
  }

  predicate IsHead(n: nat, heads: seq<Head>) {
    1 <= n <= |heads|
  }

  /** SetHead keeps the window's offset from its nearest head. */
  function OntoHead(w: Window, n: nat, fx: Fluxbox): Window {
    var c := NearestHead(w, fx);
    if IsHead(n, fx.heads) && IsHead(c, fx.heads) then Shifted(w, fx.heads[c - 1], fx.heads[n - 1]) else w
  }

  function Shifted(w: Window, from: Head, to: Head): Window {
    w.(x := w.x - from.x + to.x, y := w.y - from.y + to.y)
  }

  const TOGGLE := "Stick"

  function Toggled(w: Window): Window {
    w.(stuck := !w.stuck)
  }

  /** Which windows a guarded toggle is for: those not stuck, or those stuck. */
  function GuardOf(command: string): Option<bool> {
    if command == "If {Matches (Stuck=no)} {" + TOGGLE + "}" then Some(false)
    else if command == "If {Matches (Stuck=yes)} {" + TOGGLE + "}" then Some(true)
    else None
  }

  /** A guarded toggle sets the stuck state, to what the rule checker reads from it. */
  lemma GuardedToggleSticks(command: string, w: Window)
    ensures GuardOf(command).Some? <==> StuckNamed(command).Some?
    ensures GuardOf(command).Some? ==>
      (if w.stuck == GuardOf(command).value then Toggled(w) else w) == w.(stuck := StuckNamed(command).value)
  {
    assert "If {Matches (Stuck=no)} {" + TOGGLE + "}" == "If {Matches (Stuck=no)} {Stick}";
    assert "If {Matches (Stuck=yes)} {" + TOGGLE + "}" == "If {Matches (Stuck=yes)} {Stick}";
    assert STICK[19] == 'n' && UNSTICK[19] == 'y';
  }

  /** One command that is not a macro. */
  function Perform(command: string, w: Window, fx: Fluxbox): Window {
    if HeadNamed(command).Some? then OntoHead(w, HeadNamed(command).value, fx)
    else if WorkspaceNamed(command).Some? then
      var n := WorkspaceNamed(command).value;
      if 1 <= n <= fx.workspaces then w.(workspace := n - 1) else w
    else if GuardOf(command).Some? then (if w.stuck == GuardOf(command).value then Toggled(w) else w)
    else if command == TOGGLE then Toggled(w)
    else fx.other(command, w)
  }

  function PerformAll(parts: seq<string>, w: Window, fx: Fluxbox): Window {
    if parts == [] then w
    else Perform(parts[|parts| - 1], PerformAll(parts[..|parts| - 1], w, fx), fx)
  }

  // -------------------------------------------------------- nested macros

  lemma {:induction false} PartsAreShorter(text: string, depth: int, part: string)
    ensures forall p :: p in Scan(text, depth, part) ==> |p| <= |part| + |text|
    ensures depth <= 0 ==> forall p :: p in Scan(text, depth, part) ==> |p| < |text|
    decreases |text|
  {
    if text != "" {
      var c := text[0];
      if c == '{' {
        PartsAreShorter(text[1..], depth + 1, if depth == 0 then "" else part + "{");
        if depth < 0 {
          PartIsForgotten(text[1..], depth + 1, part + "{", "");
          PartsAreShorter(text[1..], depth + 1, "");
        }
      } else if c == '}' {
        PartsAreShorter(text[1..], depth - 1, part + "}");
      } else {
        PartsAreShorter(text[1..], depth, part + [c]);
      }
    }
  }

  /** The plain commands Fluxbox ends up performing for one command, macros opened all the way. */
  function Flatten(command: string): seq<string>
    decreases |command|, 1, 0
  {
    if !IsMacro(command) then [command]
    else
      PartsAreShorter(command, 0, "");
      FlattenAll(TopLevel(command), |command|)
  }

  function FlattenAll(commands: seq<string>, bound: nat): seq<string>
    requires forall c :: c in commands ==> |c| < bound
    decreases bound, 0, |commands|
  {
    if commands == [] then [] else Flatten(commands[0]) + FlattenAll(commands[1..], bound)
  }

  /** Fluxbox performing one command of a rule on one window. */
  function Execute(command: string, w: Window, fx: Fluxbox): Window {
    PerformAll(Flatten(command), w, fx)
  }

  predicate NoMacro(parts: seq<string>) {
    forall p :: p in parts ==> !IsMacro(p)
  }

  lemma {:induction false} FlattenHasNoMacro(command: string)
    ensures NoMacro(Flatten(command))
    decreases |command|, 1, 0
  {
    if IsMacro(command) {
      PartsAreShorter(command, 0, "");
      FlattenAllHasNoMacro(TopLevel(command), |command|);
    }
  }

  lemma {:induction false} FlattenAllHasNoMacro(commands: seq<string>, bound: nat)
    requires forall c :: c in commands ==> |c| < bound
    ensures NoMacro(FlattenAll(commands, bound))
    decreases bound, 0, |commands|
  {
    if commands != [] {
      FlattenHasNoMacro(commands[0]);
      FlattenAllHasNoMacro(commands[1..], bound);
    }
  }

  /** Fluxbox performs exactly the parts the rule checker reads if and only if there is no
      macro inside the macro. */
  lemma {:induction false} PerformedAsReadIff(command: string)
    ensures Flatten(command) == TopLevel(command) <==> NoMacro(TopLevel(command))
  {
    FlattenHasNoMacro(command);
    if IsMacro(command) && NoMacro(TopLevel(command)) {
      PartsAreShorter(command, 0, "");
      PlainCommandsStay(TopLevel(command), |command|);
    }
  }

  lemma {:induction false} PlainCommandsStay(parts: seq<string>, bound: nat)
    requires NoMacro(parts) && forall c :: c in parts ==> |c| < bound
    ensures FlattenAll(parts, bound) == parts
  {
    if parts != [] {
      PlainCommandsStay(parts[1..], bound);
      assert parts == [parts[0]] + parts[1..];
    }
  }

  /** The rule as sent, one combined macro, performs the parts of its commands in order. */
  lemma CombinedRuleIsPerformedAsRead(commands: seq<string>, w: Window, fx: Fluxbox)
    requires AllBalanced(commands) && NoMacro(AllParts(commands))
    ensures Execute(Combine(commands), w, fx) == PerformAll(AllParts(commands), w, fx)
  {
    CombineKeepsEveryCommand(commands);
    PerformedAsReadIff(Combine(commands));
  }

  lemma MacroNamesNothing(command: string)
    requires IsMacro(command)
    ensures NamedBy(command) == Expectation(None, None, None)
  {
    assert command[0] == 'M' && "SetHead "[0] == 'S' && "SendToWorkspace "[0] == 'S';
    assert STICK[0] == 'I' && UNSTICK[0] == 'I';
  }

  /** The parts that are not macros themselves. */
  function Plain(parts: seq<string>): seq<string> {
    if parts == [] then []
    else
      var last := |parts| - 1;
      Plain(parts[..last]) + (if IsMacro(parts[last]) then [] else [parts[last]])
  }

  lemma {:induction false} MacrosPromiseNothing(parts: seq<string>)
    ensures Summary(parts) == Summary(Plain(parts))
    decreases |parts|
  {
    if parts != [] {
      var front, last := parts[..|parts| - 1], parts[|parts| - 1];
      assert parts == front + [last];
      MacrosPromiseNothing(front);
      SummaryOfOneMore(front, last);
      SummaryOfOneMore(Plain(front), last);
      if IsMacro(last) {
        MacroNamesNothing(last);
        assert Plain(parts) == Plain(front) + [] == Plain(front);
      }
    }
  }

  lemma {:induction false} ContentsArePerformed(parts: seq<string>, bound: nat, part: string, c: string)
    requires forall p :: p in parts ==> |p| < bound
    requires part in parts && c in Flatten(part)
    ensures c in FlattenAll(parts, bound)
    decreases |parts|
  {
    if part != parts[0] {
      ContentsArePerformed(parts[1..], bound, part, c);
    }
  }

  /** Everything inside a macro within the macro is performed, at any depth and among any
      other commands, but the rule's promise is that of the plain parts alone. */
  lemma NestedMacroIsNotPromised(command: string)
    ensures Summary(TopLevel(command)) == Summary(Plain(TopLevel(command)))
    ensures forall part, c :: part in TopLevel(command) && c in Flatten(part) ==> c in Flatten(command)
  {
    MacrosPromiseNothing(TopLevel(command));
    forall part, c | part in TopLevel(command) && c in Flatten(part)
      ensures c in Flatten(command)
    {
      if IsMacro(command) {
        PartsAreShorter(command, 0, "");
        ContentsArePerformed(TopLevel(command), |command|, part, c);
      }
    }
  }

  // ------------------------------------------- one move, and when it lands

  predicate Fits(dx: int, dy: int, head: Head) {
    0 <= dx < head.width && 0 <= dy < head.height
  }

  /** The window's offset from head `c` fits head `n`. */
  predicate FitsOn(w: Window, c: nat, n: nat, heads: seq<Head>)
    requires IsHead(c, heads) && IsHead(n, heads)
  {
    Fits(CentreX(View(w)) - heads[c - 1].x, CentreY(View(w)) - heads[c - 1].y, heads[n - 1])
  }

  /** SetHead from a window's own head lands on the wanted head exactly when the window's
      offset fits that head and no lower-numbered head covers the new centre. */
  lemma SetHeadLandsIff(w: Window, c: nat, n: nat, fx: Fluxbox)
    requires HeadOf(View(w), fx.heads) == Some(c) && IsHead(n, fx.heads)
    ensures IsHead(c, fx.heads)
    ensures var v := View(OntoHead(w, n, fx));
      HeadOf(v, fx.heads) == Some(n)
      <==> && FitsOn(w, c, n, fx.heads)
           && forall i :: 0 <= i < n - 1 ==> !Covers(fx.heads[i], CentreX(v), CentreY(v))
  {
    HeadOfIsLowest(View(w), fx.heads, c);
    HeadOfIsLowest(View(OntoHead(w, n, fx)), fx.heads, n);
  }

  predicate EqualSize(heads: seq<Head>) {
    forall i, j :: 0 <= i < |heads| && 0 <= j < |heads| ==>
      heads[i].width == heads[j].width && heads[i].height == heads[j].height
  }

  ghost predicate Disjoint(heads: seq<Head>) {
    forall i, j, cx, cy :: 0 <= i < j < |heads| && Covers(heads[i], cx, cy) ==> !Covers(heads[j], cx, cy)
  }

  /** On equal-size heads SetHead never brings a window that is on no head onto the wanted
      one, whichever head Fluxbox takes as its nearest: moving it first is necessary. */
  lemma StrandedWindowStaysOff(w: Window, n: nat, fx: Fluxbox)
    requires EqualSize(fx.heads) && IsHead(n, fx.heads)
    requires HeadOf(View(w), fx.heads).None?
    ensures HeadOf(View(OntoHead(w, n, fx)), fx.heads) != Some(n)
  {
    NoHeadIffUncovered(View(w), fx.heads);
    var c := NearestHead(w, fx);
    var v := OntoHead(w, n, fx);
    HeadOfIsLowest(View(v), fx.heads, n);
    if IsHead(c, fx.heads) {
      assert !Covers(fx.heads[c - 1], CentreX(View(w)), CentreY(View(w)));
    } else {
      assert !Covers(fx.heads[n - 1], CentreX(View(w)), CentreY(View(w)));
    }
  }
}
