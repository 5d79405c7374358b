/** Fluxbox `MacroCmd` texts: the single-pass brace splitter, what it returns on
    every string, and the printing of several commands as one macro. */
module MacroCommands {

  const MACRO := "MacroCmd "

  predicate IsMacro(command: string) {
    MACRO <= command
  }

  // ---------------------------------------------------------------- balance

  /** True iff `text`, read at nesting depth `depth`, never closes a brace that is
      not open and ends with every brace closed. */
  predicate Closes(text: string, depth: nat)
  {
    if text == "" then depth == 0
    else if text[0] == '{' then Closes(text[1..], depth + 1)
    else if text[0] == '}' then depth > 0 && Closes(text[1..], depth - 1)
    else Closes(text[1..], depth)
  }

  predicate Balanced(text: string) {
    Closes(text, 0)
  }

  /** Opening minus closing braces before position `n`. */
  function Depth(text: string, n: nat): int
    requires n <= |text|
  {
    if n == 0 then 0
    else Depth(text, n - 1) + (if text[n - 1] == '{' then 1 else if text[n - 1] == '}' then -1 else 0)
  }

  /** A top-level group: a `{` met at depth 0 and the first `}` that returns to depth 0. */
  ghost predicate IsGroup(text: string, open: int, close: int)
  {
    && 0 <= open < close < |text|
    && text[open] == '{' && Depth(text, open) == 0
    && text[close] == '}' && Depth(text, close + 1) == 0
    && forall k :: open < k <= close ==> Depth(text, k) >= 1
  }

  // --------------------------------------------------------------- splitter

  /** The parts still to come when `text` is left to read, at depth `depth`, with
      `part` the text since the last recorded start. */
  function Scan(text: string, depth: int, part: string): seq<string>
  {
    if text == "" then []
    else if text[0] == '{' then
      Scan(text[1..], depth + 1, if depth == 0 then "" else part + "{")
    else if text[0] == '}' then
      (if depth == 1 then [part] else []) + Scan(text[1..], depth - 1, part + "}")
    else Scan(text[1..], depth, part + [text[0]])
  }

  function TopLevel(command: string): seq<string> {
    if IsMacro(command) then Scan(command, 0, "") else [command]
  }

  function NextStartAt(text: string, i: nat, depth: int, start: nat): nat
    requires i < |text|
  {
    if text[i] == '{' && depth == 0 then i + 1 else start
  }

  function DepthAfter(c: char, depth: int): int {
    if c == '{' then depth + 1 else if c == '}' then depth - 1 else depth
  }

  lemma SliceStep(text: string, i: nat, start: nat)
    requires start <= i < |text|
    ensures text[i..][0] == text[i] && text[i..][1..] == text[i + 1..]
    ensures text[start..i] + [text[i]] == text[start..i + 1]
    ensures text[i + 1..i + 1] == ""
  {
  }

  /** One character of the scan, at any depth. */
  lemma ScanStep(text: string, i: nat, depth: int, start: nat)
    requires start <= i < |text|
    ensures Scan(text[i..], depth, text[start..i])
         == (if text[i] == '}' && depth == 1 then [text[start..i]] else [])
            + Scan(text[i + 1..], DepthAfter(text[i], depth), text[NextStartAt(text, i, depth, start)..i + 1])
  {
    SliceStep(text, i, start);
    var rest := Scan(text[i + 1..], DepthAfter(text[i], depth), text[NextStartAt(text, i, depth, start)..i + 1]);
    assert [] + rest == rest;
  }

  method TopLevelCommands(command: string) returns (parts: seq<string>)
    ensures parts == TopLevel(command)
  {
    if !IsMacro(command) {
      return [command];
    }
    var depth, start := 0, 0;
    parts := [];
    for index := 0 to |command|
      invariant 0 <= start <= index
      invariant parts + Scan(command[index..], depth, command[start..index]) == Scan(command, 0, "")
    {
      ScanStep(command, index, depth, start);
      ghost var closed := if command[index] == '}' && depth == 1 then [command[start..index]] else [];
      ghost var rest := Scan(command[index + 1..], DepthAfter(command[index], depth),
                             command[NextStartAt(command, index, depth, start)..index + 1]);
      assert parts + (closed + rest) == (parts + closed) + rest;
      assert parts + [] == parts;
      if command[index] == '{' {
        if depth == 0 {
          start := index + 1;
        }
        depth := depth + 1;
      } else if command[index] == '}' {
        depth := depth - 1;
        if depth == 0 {
          parts := parts + [command[start..index]];
        }
      }
    }
    assert command[|command|..] == "";
  }

  /** Only a command that starts with the word MacroCmd and a blank is taken apart. */
  lemma PlainCommandIsWhole(command: string)
    requires |command| < 9 || command[..9] != "MacroCmd "
    ensures TopLevel(command) == [command]
  {
  }

  // ------------------------------------------------- exactly the top groups

  /** `spans` lists all the top-level groups of `text` from left to right, and
      `parts` holds the balanced text inside each of them. */
  ghost predicate IsGrouping(text: string, parts: seq<string>, spans: seq<(int, int)>)
  {
    && |parts| == |spans|
    && (forall k :: 0 <= k < |spans| ==>
          && IsGroup(text, spans[k].0, spans[k].1)
          && parts[k] == text[spans[k].0 + 1..spans[k].1]
          && Balanced(parts[k]))
    && (forall k, l :: 0 <= k < l < |spans| ==> spans[k].1 < spans[l].0)
    && (forall open, close :: IsGroup(text, open, close) ==> (open, close) in spans)
  }

  /** For every macro text, unbalanced ones included, the splitter returns exactly the
      texts of the top-level groups, in source order; each is balanced. */
  lemma {:induction false} PartsAreTheTopLevelGroups(command: string)
    requires IsMacro(command)
    ensures exists spans :: IsGrouping(command, TopLevel(command), spans)
  {
    var spans := ScanGroups(command, 0, 0);
    assert command[0..] == command;
    assert IsGrouping(command, TopLevel(command), spans);
  }

  /** Position `i` is outside every group, or inside the group that opened just before `start`. */
  ghost predicate Inside(text: string, i: nat, start: nat)
  {
    && start <= i <= |text|
    && (Depth(text, i) >= 1 ==>
          && start > 0 && text[start - 1] == '{' && Depth(text, start - 1) == 0
          && forall k :: start <= k <= i ==> Depth(text, k) >= 1)
  }

  /** `spans` and `parts` are right for the groups that close at `i` or later. */
  ghost predicate GroupsFrom(text: string, i: nat, start: nat, parts: seq<string>, spans: seq<(int, int)>)
  {
    SpansFrom(text, i, start, parts, spans) && Ascending(spans) && AllListed(text, i, spans)
  }

  ghost predicate SpansFrom(text: string, i: nat, start: nat, parts: seq<string>, spans: seq<(int, int)>)
  {
    |parts| == |spans| && forall k :: 0 <= k < |spans| ==> SpanFrom(text, i, start, parts[k], spans[k])
  }

  predicate Ascending(spans: seq<(int, int)>) {
    forall k, l :: 0 <= k < l < |spans| ==> spans[k].1 < spans[l].0
  }

  ghost predicate AllListed(text: string, i: nat, spans: seq<(int, int)>) {
    forall open, close :: IsGroup(text, open, close) && close >= i ==> (open, close) in spans
  }

  ghost predicate SpanFrom(text: string, i: nat, start: nat, part: string, span: (int, int))
  {
    && IsGroup(text, span.0, span.1)
    && span.1 >= i
    && (span.0 < i ==> span.0 == start - 1)
    && part == text[span.0 + 1..span.1]
    && Balanced(part)
  }

  lemma {:induction false} ScanGroups(text: string, i: nat, start: nat) returns (spans: seq<(int, int)>)
    requires Inside(text, i, start)
    ensures GroupsFrom(text, i, start, Scan(text[i..], Depth(text, i), text[start..i]), spans)
    decreases |text| - i
  {
    if i == |text| {
      return [];
    }
    ScanStep(text, i, Depth(text, i), start);
    var start' := NextStart(text, i, start);
    assert Depth(text, i + 1) == DepthAfter(text[i], Depth(text, i));
    var parts := Scan(text[i + 1..], Depth(text, i + 1), text[start'..i + 1]);
    var later := ScanGroups(text, i + 1, start');
    if text[i] == '}' && Depth(text, i) == 1 {
      spans := [(start - 1, i)] + later;
      CloseGroup(text, i, start, parts, later);
    } else {
      spans := later;
      KeepGroups(text, i, start, parts, spans);
    }
  }

  function NextStart(text: string, i: nat, start: nat): nat
    requires i < |text|
  {
    NextStartAt(text, i, Depth(text, i), start)
  }

  /** A character that closes no group leaves the groups still to come as they are. */
  lemma KeepGroups(text: string, i: nat, start: nat, parts: seq<string>, spans: seq<(int, int)>)
    requires Inside(text, i, start) && i < |text|
    requires GroupsFrom(text, i + 1, NextStart(text, i, start), parts, spans)
    requires !(text[i] == '}' && Depth(text, i) == 1)
    ensures GroupsFrom(text, i, start, parts, spans)
  {
    forall k | 0 <= k < |spans|
      ensures SpanFrom(text, i, start, parts[k], spans[k])
    {
      assert SpanFrom(text, i + 1, NextStart(text, i, start), parts[k], spans[k]);
    }
    assert text[i] == '}' ==> Depth(text, i + 1) == Depth(text, i) - 1;
    assert forall open, close :: IsGroup(text, open, close) && close >= i ==> close >= i + 1;
  }

  /** A `}` at depth 1 closes the group that opened just before `start`. */
  lemma CloseGroup(text: string, i: nat, start: nat, parts: seq<string>, later: seq<(int, int)>)
    requires Inside(text, i, start) && i < |text|
    requires GroupsFrom(text, i + 1, start, parts, later)
    requires text[i] == '}' && Depth(text, i) == 1
    ensures GroupsFrom(text, i, start, [text[start..i]] + parts, [(start - 1, i)] + later)
  {
    ClosedSpan(text, i, start);
    LaterSpans(text, i, start, parts, later);
    SpansInFront(text, i, start, parts, later);
    GroupsAreListed(text, i, start, later);
  }

  predicate AllAfter(i: nat, spans: seq<(int, int)>) {
    forall k :: 0 <= k < |spans| ==> spans[k].0 > i
  }

  lemma LaterSpans(text: string, i: nat, start: nat, parts: seq<string>, later: seq<(int, int)>)
    requires start <= i < |text| && text[i] == '}' && Depth(text, i) == 1
    requires SpansFrom(text, i + 1, start, parts, later)
    ensures SpansFrom(text, i, start, parts, later) && AllAfter(i, later)
  {
    forall k | 0 <= k < |later|
      ensures SpanFrom(text, i, start, parts[k], later[k]) && later[k].0 > i
    {
      LaterSpan(text, i, start, parts[k], later[k]);
    }
  }

  lemma GroupsAreListed(text: string, i: nat, start: nat, later: seq<(int, int)>)
    requires IsGroup(text, start - 1, i) && AllListed(text, i + 1, later)
    ensures AllListed(text, i, [(start - 1, i)] + later)
  {
    forall open, close | IsGroup(text, open, close) && close >= i
      ensures (open, close) in [(start - 1, i)] + later
    {
      GroupIsListed(text, i, start, later, open, close);
    }
  }

  lemma SpansInFront(text: string, i: nat, start: nat, parts: seq<string>, later: seq<(int, int)>)
    requires start <= i < |text|
    requires SpanFrom(text, i, start, text[start..i], (start - 1, i))
    requires SpansFrom(text, i, start, parts, later) && AllAfter(i, later) && Ascending(later)
    ensures SpansFrom(text, i, start, [text[start..i]] + parts, [(start - 1, i)] + later)
    ensures Ascending([(start - 1, i)] + later)
  {
  }

  lemma GroupIsListed(text: string, i: nat, start: nat, later: seq<(int, int)>, open: int, close: int)
    requires IsGroup(text, start - 1, i) && IsGroup(text, open, close) && close >= i
    requires close >= i + 1 ==> (open, close) in later
    ensures (open, close) in [(start - 1, i)] + later
  {
  }

  lemma ClosedSpan(text: string, i: nat, start: nat)
    requires Inside(text, i, start) && i < |text|
    requires text[i] == '}' && Depth(text, i) == 1
    ensures SpanFrom(text, i, start, text[start..i], (start - 1, i))
  {
    assert Depth(text, i + 1) == 0;
    OpensAtOne(text, start);
    BetweenIsBalanced(text, start, i);
  }

  lemma LaterSpan(text: string, i: nat, start: nat, part: string, span: (int, int))
    requires start <= i < |text| && text[i] == '}' && Depth(text, i) == 1
    requires SpanFrom(text, i + 1, start, part, span)
    ensures SpanFrom(text, i, start, part, span) && span.0 > i
  {
    assert Depth(text, i + 1) == 0;
  }

  lemma OpensAtOne(text: string, start: nat)
    requires 0 < start <= |text| && text[start - 1] == '{' && Depth(text, start - 1) == 0
    ensures Depth(text, start) == 1
  {
  }

  /** A slice that starts and ends at depth 1 and never leaves it downwards is balanced. */
  lemma {:induction false} BetweenIsBalanced(text: string, from: nat, to: nat)
    requires from <= to <= |text|
    requires Depth(text, to) == 1
    requires forall k :: from <= k <= to ==> Depth(text, k) >= 1
    ensures Closes(text[from..to], Depth(text, from) - 1)
    decreases |text| - from
  {
    if from < to {
      var slice := text[from..to];
      assert slice[0] == text[from] && slice[1..] == text[from + 1..to];
      assert Depth(text, from + 1) >= 1;
      BetweenIsBalanced(text, from + 1, to);
    }
  }

  // ----------------------------------------------------------- printing back

  function Brace(command: string): string {
    "{" + command + "}"
  }

  /** The texts one command contributes to a combined macro: the body of a macro, or
      the command in braces. */
  function Contribution(command: string): string {
    if IsMacro(command) then command[|MACRO|..] else Brace(command)
  }

  function JoinContributions(commands: seq<string>): string {
    if commands == [] then ""
    else if |commands| == 1 then Contribution(commands[0])
    else Contribution(commands[0]) + " " + JoinContributions(commands[1..])
  }

  /** bin/desktop-layout's flat macro for one rule. */
  function Combine(commands: seq<string>): string {
    if |commands| == 1 then commands[0] else MACRO + JoinContributions(commands)
  }

  /** Top-level parts of every command of a rule, in order. */
  function AllParts(commands: seq<string>): seq<string> {
    if commands == [] then [] else TopLevel(commands[0]) + AllParts(commands[1..])
  }

  predicate AllBalanced(commands: seq<string>) {
    forall c :: c in commands ==> Balanced(c)
  }

  /** Combining commands into one macro changes nothing about the commands Fluxbox is
      asked to perform, for any number of plain and macro commands, nested to any depth. */
  lemma {:induction false} CombineKeepsEveryCommand(commands: seq<string>)
    requires AllBalanced(commands)
    ensures TopLevel(Combine(commands)) == AllParts(commands)
  {
    if |commands| == 1 {
      assert AllParts(commands[1..]) == [];
      assert TopLevel(commands[0]) + [] == TopLevel(commands[0]);
    } else {
      var joined := JoinContributions(commands);
      SkipMacroWord(joined);
      JoinedParts(commands);
    }
  }

  /** Printing any list of balanced plain commands as one macro and splitting it again
      gives back exactly that list. */
  lemma {:induction false} MacroRoundTrip(commands: seq<string>)
    requires AllBalanced(commands)
    requires forall c :: c in commands ==> !IsMacro(c)
    ensures TopLevel(MACRO + JoinContributions(commands)) == commands
  {
    SkipMacroWord(JoinContributions(commands));
    JoinedParts(commands);
    PlainParts(commands);
  }

  lemma {:induction false} PlainParts(commands: seq<string>)
    requires forall c :: c in commands ==> !IsMacro(c)
    ensures AllParts(commands) == commands
  {
    if commands != [] {
      assert forall c :: c in commands[1..] ==> c in commands;
      PlainParts(commands[1..]);
      assert TopLevel(commands[0]) == [commands[0]];
      assert [commands[0]] + commands[1..] == commands;
    }
  }

  /** The word in front of a macro holds no brace, so it adds no part. */
  lemma SkipMacroWord(body: string)
    ensures TopLevel(MACRO + body) == Scan(body, 0, "")
  {
    assert MACRO == "MacroCmd ";
    PlainPrefix(MACRO, body, "");
    assert "" + MACRO == MACRO;
    PartIsForgotten(body, 0, MACRO, "");
  }

  lemma {:induction false} PlainPrefix(word: string, rest: string, part: string)
    requires '{' !in word && '}' !in word
    ensures Scan(word + rest, 0, part) == Scan(rest, 0, part + word)
    decreases |word|
  {
    if word == "" {
      assert word + rest == rest && part + word == part;
    } else {
      assert (word + rest)[1..] == word[1..] + rest;
      assert part + [word[0]] + word[1..] == part + word;
      PlainPrefix(word[1..], rest, part + [word[0]]);
    }
  }

  /** Outside every group the text gathered so far is irrelevant. */
  lemma {:induction false} PartIsForgotten(text: string, depth: int, part1: string, part2: string)
    requires depth <= 0
    ensures Scan(text, depth, part1) == Scan(text, depth, part2)
    decreases |text|
  {
    if text == "" {
    } else if text[0] == '{' {
      if depth < 0 {
        PartIsForgotten(text[1..], depth + 1, part1 + "{", part2 + "{");
      }
    } else if text[0] == '}' {
      PartIsForgotten(text[1..], depth - 1, part1 + "}", part2 + "}");
    } else {
      PartIsForgotten(text[1..], depth, part1 + [text[0]], part2 + [text[0]]);
    }
  }

  /** Text that closes everything it is given can be split off in front. */
  lemma {:induction false} ScanConcat(first: string, depth: nat, part: string, rest: string)
    requires Closes(first, depth)
    ensures Scan(first + rest, depth, part) == Scan(first, depth, part) + Scan(rest, 0, "")
    decreases |first|
  {
    if first == "" {
      assert first + rest == rest;
      PartIsForgotten(rest, 0, part, "");
    } else {
      assert (first + rest)[1..] == first[1..] + rest;
      if first[0] == '{' {
        ScanConcat(first[1..], depth + 1, if depth == 0 then "" else part + "{", rest);
      } else if first[0] == '}' {
        ScanConcat(first[1..], depth - 1, part + "}", rest);
      } else {
        ScanConcat(first[1..], depth, part + [first[0]], rest);
      }
    }
  }

  /** Inside a group, balanced text is only gathered. */
  lemma {:induction false} ScanGathers(text: string, extra: nat, part: string, rest: string)
    requires Closes(text, extra)
    ensures Scan(text + rest, 1 + extra, part) == Scan(rest, 1, part + text)
    decreases |text|
  {
    if text == "" {
      assert text + rest == rest && part + text == part;
    } else {
      var c := text[0];
      assert (text + rest)[1..] == text[1..] + rest;
      assert part + [c] + text[1..] == part + text;
      ScanGathers(text[1..], if c == '{' then extra + 1 else if c == '}' then extra - 1 else extra,
                  part + [c], rest);
    }
  }

  lemma BracedPart(command: string)
    requires Balanced(command)
    ensures Balanced(Brace(command))
    ensures Scan(Brace(command), 0, "") == [command]
  {
    var text := Brace(command);
    assert text[1..] == command + "}";
    assert "" + command == command;
    ScanGathers(command, 0, "", "}");
    assert Scan("}", 1, command) == [command] + Scan("", 0, command + "}");
    ClosesConcat(command, 0, 1, "}");
    assert Closes("}", 1) by { assert "}"[1..] == ""; }
  }

  lemma {:induction false} ClosesConcat(first: string, depth: nat, base: nat, rest: string)
    requires Closes(first, depth)
    ensures Closes(first + rest, base + depth) == Closes(rest, base)
    decreases |first|
  {
    if first == "" {
      assert first + rest == rest;
    } else {
      assert (first + rest)[1..] == first[1..] + rest;
      ClosesConcat(first[1..],
                   if first[0] == '{' then depth + 1 else if first[0] == '}' then depth - 1 else depth,
                   base, rest);
    }
  }

  lemma {:induction false} ContributionParts(command: string)
    requires Balanced(command)
    ensures Balanced(Contribution(command))
    ensures Scan(Contribution(command), 0, "") == TopLevel(command)
  {
    if IsMacro(command) {
      var body := command[|MACRO|..];
      assert command == MACRO + body;
      SkipMacroWord(body);
      PlainCloses(MACRO, body);
    } else {
      BracedPart(command);
    }
  }

  lemma {:induction false} PlainCloses(word: string, rest: string)
    requires '{' !in word && '}' !in word
    ensures Closes(word + rest, 0) == Closes(rest, 0)
    decreases |word|
  {
    if word == "" {
      assert word + rest == rest;
    } else {
      assert (word + rest)[1..] == word[1..] + rest;
      PlainCloses(word[1..], rest);
    }
  }

  lemma {:induction false} JoinedParts(commands: seq<string>)
    requires AllBalanced(commands)
    ensures Scan(JoinContributions(commands), 0, "") == AllParts(commands)
  {
    if commands == [] {
    } else {
      ContributionParts(commands[0]);
      var head := Contribution(commands[0]);
      if |commands| == 1 {
        assert AllParts(commands[1..]) == [];
        assert TopLevel(commands[0]) + [] == TopLevel(commands[0]);
      } else {
        var tail := JoinContributions(commands[1..]);
        JoinedParts(commands[1..]);
        assert head + " " + tail == head + (" " + tail);
        ScanConcat(head, 0, "", " " + tail);
        PlainPrefix(" ", tail, "");
        assert "" + " " == " ";
        PartIsForgotten(tail, 0, " ", "");
      }
    }
  }

  lemma {:induction false} PlainCommandIsAPart(commands: seq<string>, c: string)
    requires c in commands && !IsMacro(c)
    ensures c in AllParts(commands)
  {
    if c != commands[0] {
      assert c in commands[1..];
      PlainCommandIsAPart(commands[1..], c);
    } else {
      assert c in TopLevel(c);
    }
  }

  lemma PartsAreBalanced(command: string)
    requires IsMacro(command)
    ensures AllBalanced(TopLevel(command))
  {
    PartsAreTheTopLevelGroups(command);
    var spans :| IsGrouping(command, TopLevel(command), spans);
  }

  /** Of two or more commands whose macros are balanced, the combined macro keeps every
      command if and only if the plain ones are balanced too. */
  lemma {:induction false} CombineKeepsIff(commands: seq<string>)
    requires |commands| != 1
    requires forall c :: c in commands && IsMacro(c) ==> Balanced(c)
    ensures TopLevel(Combine(commands)) == AllParts(commands) <==> AllBalanced(commands)
  {
    if AllBalanced(commands) {
      CombineKeepsEveryCommand(commands);
    }
    if TopLevel(Combine(commands)) == AllParts(commands) {
      PartsAreBalanced(Combine(commands));
      forall c | c in commands
        ensures Balanced(c)
      {
        if !IsMacro(c) {
          PlainCommandIsAPart(commands, c);
        }
      }
    }
  }

  /** Printing a list of plain commands as one macro and splitting it gives back that list
      if and only if every command is balanced. */
  lemma {:induction false} RoundTripIff(commands: seq<string>)
    requires forall c :: c in commands ==> !IsMacro(c)
    ensures TopLevel(MACRO + JoinContributions(commands)) == commands <==> AllBalanced(commands)
  {
    if AllBalanced(commands) {
      MacroRoundTrip(commands);
    }
    if TopLevel(MACRO + JoinContributions(commands)) == commands {
      PartsAreBalanced(MACRO + JoinContributions(commands));
    }
  }
}
