/** What a layout rule's own commands promise about a window: the head, workspace and
    stuck state named by the last command that sets each of them. */
module RuleSummary {
  import opened Options
  import opened MacroCommands

  const STICK := "If {Matches (Stuck=no)} {Stick}"
  const UNSTICK := "If {Matches (Stuck=yes)} {Stick}"

  datatype Expectation = Expectation(head: Option<nat>, workspace: Option<nat>, stuck: Option<bool>) {

    /** Field by field, what `later` promises, else what this one promises. */
    function OverriddenBy(later: Expectation): Expectation {
      Expectation(head.OverriddenBy(later.head),
                  workspace.OverriddenBy(later.workspace),
                  stuck.OverriddenBy(later.stuck))
    }
  }

  // ------------------------------------------------------- single commands

  predicate AllDigits(text: string) {
    forall i :: 0 <= i < |text| ==> '0' <= text[i] <= '9'
  }

  function DecimalValue(digits: string): nat
    requires AllDigits(digits)
  {
    if digits == "" then 0
    else 10 * DecimalValue(digits[..|digits| - 1]) + (digits[|digits| - 1] - '0') as nat
  }

  /** The number in `word` followed by one or more digits and nothing else. */
  function NumberAfter(word: string, command: string): Option<nat> {
    if word <= command && |command| > |word| && AllDigits(command[|word|..])
    then Some(DecimalValue(command[|word|..]))
    else None
  }

  function HeadNamed(command: string): Option<nat> {
    NumberAfter("SetHead ", command)
  }

  function WorkspaceNamed(command: string): Option<nat> {
    NumberAfter("SendToWorkspace ", command)
  }

  function StuckNamed(command: string): Option<bool> {
    if command == STICK then Some(true)
    else if command == UNSTICK then Some(false)
    else None
  }

  function DecimalText(n: nat): string {
    var low := "0123456789"[n % 10];
    if n < 10 then [low] else DecimalText(n / 10) + [low]
  }

  lemma {:induction false} DecimalRoundTrip(n: nat)
    ensures var text := DecimalText(n); text != "" && AllDigits(text) && DecimalValue(text) == n
  {
    var low := "0123456789"[n % 10];
    assert low - '0' == (n % 10) as char;
    if n < 10 {
      assert [low][..0] == "";
    } else {
      DecimalRoundTrip(n / 10);
      var high, text := DecimalText(n / 10), DecimalText(n);
      assert text[..|text| - 1] == high;
    }
  }

  /** The SetHead command written for a screen is read back as that screen's head. */
  lemma SetHeadReadsBack(n: nat)
    ensures HeadNamed("SetHead " + DecimalText(n)) == Some(n)
  {
    DecimalRoundTrip(n);
    var command := "SetHead " + DecimalText(n);
    assert command[|"SetHead "|..] == DecimalText(n);
  }

  lemma WorkspaceReadsBack(n: nat)
    ensures WorkspaceNamed("SendToWorkspace " + DecimalText(n)) == Some(n)
  {
    DecimalRoundTrip(n);
    var command := "SendToWorkspace " + DecimalText(n);
    assert command[|"SendToWorkspace "|..] == DecimalText(n);
  }

  /** Leading zeros do not matter. */
  lemma {:induction false} LeadingZero(digits: string)
    requires AllDigits(digits)
    ensures AllDigits("0" + digits) && DecimalValue("0" + digits) == DecimalValue(digits)
    decreases |digits|
  {
    var text := "0" + digits;
    if digits == "" {
      assert text == "0" && text[..0] == "";
    } else {
      assert text[..|text| - 1] == "0" + digits[..|digits| - 1];
      LeadingZero(digits[..|digits| - 1]);
    }
  }

  /** A command names a number exactly when it is the word and then one or more digits. */
  lemma NumberAfterIff(word: string, command: string)
    ensures NumberAfter(word, command).Some? <==> exists digits :: IsWordAnd(word, digits, command)
    ensures forall digits :: IsWordAnd(word, digits, command) ==>
      AllDigits(digits) && NumberAfter(word, command) == Some(DecimalValue(digits))
  {
    DigitsIff(command[if word <= command then |word| else 0..]);
    if NumberAfter(word, command).Some? {
      assert IsWordAnd(word, command[|word|..], command);
    }
    forall digits | IsWordAnd(word, digits, command)
      ensures AllDigits(digits) && NumberAfter(word, command) == Some(DecimalValue(digits))
    {
      assert command[|word|..] == digits;
    }
  }

  predicate IsWordAnd(word: string, digits: string, command: string) {
    command == word + digits && digits != "" && forall i :: 0 <= i < |digits| ==> digits[i] in "0123456789"
  }

  lemma DigitsIff(text: string)
    ensures AllDigits(text) <==> forall i :: 0 <= i < |text| ==> text[i] in "0123456789"
  {
    forall i | 0 <= i < |text|
      ensures '0' <= text[i] <= '9' <==> text[i] in "0123456789"
    {
      if '0' <= text[i] <= '9' {
        assert text[i] == "0123456789"[(text[i] - '0') as nat];
      }
    }
  }

  lemma CommandsSetOneThing(command: string)
    ensures HeadNamed(command).Some? ==> WorkspaceNamed(command).None? && StuckNamed(command).None?
    ensures WorkspaceNamed(command).Some? ==> StuckNamed(command).None?
  {
    assert HeadNamed(command).Some? ==> command[2] == 't' && command[0] == 'S';
    assert WorkspaceNamed(command).Some? ==> command[2] == 'n' && command[0] == 'S';
    assert STICK[0] == 'I' && UNSTICK[0] == 'I';
  }

  // ------------------------------------------------------------- the summary

  /** The value read from the last part that names one. */
  function LastNamed<T>(parts: seq<string>, read: string -> Option<T>): Option<T> {
    if parts == [] then None
    else LastNamed(parts[..|parts| - 1], read).OverriddenBy(read(parts[|parts| - 1]))
  }

  /** The promise of a sequence of top-level commands. */
  function Summary(parts: seq<string>): Expectation {
    Expectation(LastNamed(parts, HeadNamed), LastNamed(parts, WorkspaceNamed), LastNamed(parts, StuckNamed))
  }

  /** What one command on its own promises. */
  function NamedBy(command: string): Expectation {
    Expectation(HeadNamed(command), WorkspaceNamed(command), StuckNamed(command))
  }

  lemma SummaryOfOneMore(parts: seq<string>, command: string)
    ensures Summary(parts + [command]) == Summary(parts).OverriddenBy(NamedBy(command))
  {
  }

  /** Reads one command into the three fields gathered so far. */
  method ReadCommand(gathered: Expectation, command: string) returns (promised: Expectation)
    ensures promised == gathered.OverriddenBy(NamedBy(command))
  {
    CommandsSetOneThing(command);
    var head, workspace, stuck := gathered.head, gathered.workspace, gathered.stuck;
    if HeadNamed(command).Some? {
      head := HeadNamed(command);
    } else if WorkspaceNamed(command).Some? {
      workspace := WorkspaceNamed(command);
    } else if command == STICK {
      stuck := Some(true);
    } else if command == UNSTICK {
      stuck := Some(false);
    }
    return Expectation(head, workspace, stuck);
  }

  method Expect(commands: seq<string>) returns (promised: Expectation)
    ensures promised == Summary(AllParts(commands))
  {
    promised := Expectation(None, None, None);
    ghost var read: seq<string> := [];
    for i := 0 to |commands|
      invariant read == AllParts(commands[..i])
      invariant promised == Summary(read)
    {
      var parts := TopLevelCommands(commands[i]);
      ghost var before := read;
      for j := 0 to |parts|
        invariant read == before + parts[..j]
        invariant promised == Summary(read)
      {
        SummaryOfOneMore(read, parts[j]);
        promised := ReadCommand(promised, parts[j]);
        assert parts[..j + 1] == parts[..j] + [parts[j]];
        read := read + [parts[j]];
      }
      assert parts[..|parts|] == parts;
      OneMoreCommand(commands, i);
    }
    assert commands[..|commands|] == commands;
  }

  lemma OneMoreCommand(commands: seq<string>, i: nat)
    requires i < |commands|
    ensures AllParts(commands[..i + 1]) == AllParts(commands[..i]) + TopLevel(commands[i])
  {
    assert commands[..i + 1] == commands[..i] + [commands[i]];
    AllPartsConcat(commands[..i], [commands[i]]);
    OneCommand(commands[i]);
  }

  lemma OneCommand(command: string)
    ensures AllParts([command]) == TopLevel(command)
  {
  }

  // --------------------------------------------------------------- its laws

  /** A field holds `value` exactly when some part names it and no later part names that field. */
  lemma {:induction false} LastNamedWins<T>(parts: seq<string>, read: string -> Option<T>)
    ensures LastNamed(parts, read).None? <==> forall i :: 0 <= i < |parts| ==> read(parts[i]).None?
    ensures forall i :: 0 <= i < |parts| && read(parts[i]).Some?
                        && (forall j :: i < j < |parts| ==> read(parts[j]).None?)
                        ==> LastNamed(parts, read) == read(parts[i])
  {
    if parts != [] {
      var before, last := parts[..|parts| - 1], parts[|parts| - 1];
      LastNamedWins(before, read);
      forall i | 0 <= i < |parts| && read(parts[i]).Some?
                 && (forall j :: i < j < |parts| ==> read(parts[j]).None?)
        ensures LastNamed(parts, read) == read(parts[i])
      {
        if i < |before| {
          assert before[i] == parts[i];
          assert forall j :: i < j < |before| ==> before[j] == parts[j];
        }
      }
      assert forall i :: 0 <= i < |before| ==> before[i] == parts[i];
    }
  }

  lemma {:induction false} LastNamedConcat<T>(a: seq<string>, b: seq<string>, read: string -> Option<T>)
    ensures LastNamed(a + b, read) == LastNamed(a, read).OverriddenBy(LastNamed(b, read))
    decreases |b|
  {
    if b == [] {
      assert a + b == a;
    } else {
      assert (a + b)[..|a + b| - 1] == a + b[..|b| - 1];
      LastNamedConcat(a, b[..|b| - 1], read);
    }
  }

  lemma {:induction false} AllPartsConcat(a: seq<string>, b: seq<string>)
    ensures AllParts(a + b) == AllParts(a) + AllParts(b)
    decreases |a|
  {
    if a == [] {
      assert a + b == b;
    } else {
      assert (a + b)[1..] == a[1..] + b;
      AllPartsConcat(a[1..], b);
    }
  }

  /** The promise of two rules run one after the other is the first one's, overridden
      field by field by the second one's; macros may sit anywhere in either. */
  lemma SummaryIsHomomorphic(a: seq<string>, b: seq<string>)
    ensures Summary(AllParts(a + b)) == Summary(AllParts(a)).OverriddenBy(Summary(AllParts(b)))
  {
    AllPartsConcat(a, b);
    LastNamedConcat(AllParts(a), AllParts(b), HeadNamed);
    LastNamedConcat(AllParts(a), AllParts(b), WorkspaceNamed);
    LastNamedConcat(AllParts(a), AllParts(b), StuckNamed);
  }

  /** The promise read from a rule's separate commands is the promise of the one macro
      that is sent to Fluxbox for that rule. */
  lemma PromiseOfCombinedRule(commands: seq<string>)
    requires AllBalanced(commands)
    ensures Summary(AllParts([Combine(commands)])) == Summary(AllParts(commands))
  {
    CombineKeepsEveryCommand(commands);
    OneCommand(Combine(commands));
  }
}
