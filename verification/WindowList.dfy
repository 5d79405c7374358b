/** How xprop prints a property, and how window ids are read back out of that text.
    A newline or tab in the value is printed as two characters, a backslash and a letter. */
module WindowList {
  import opened Options

  const ACTION_PROPERTY := "_FLUXBOX_ACTION"
  const RESULT_PROPERTY := "_FLUXBOX_ACTION_RESULT"

  const NEWLINE := "\\n"
  const TAB := "\\t"

  // ---------------------------------------------------------------- printing

  /** `kind` is the property's type name; `shown` its value with escapes. */
  function Xprop(property: string, kind: string, shown: Option<string>): string {
    match shown
    case None => property + ":  not found.\n"
    case Some(text) => property + "(" + kind + ") = \"" + text + "\"\n"
  }

  /** The typed prefix tells a present property from an absent one, whatever its value says. */
  lemma TypedPrefixMeansPresent(property: string, kind: string, shown: Option<string>)
    ensures property + "(" <= Xprop(property, kind, shown) <==> shown.Some?
  {
    var output := Xprop(property, kind, shown);
    if shown.None? {
      assert output[|property|] == ':' && (property + "(")[|property|] == '(';
    } else {
      assert output[..|property| + 1] == property + "(";
    }
  }

  // ----------------------------------------------------------- string helpers

  function AfterFirst(text: string, c: char): Option<string> {
    if text == "" then None
    else if text[0] == c then Some(text[1..])
    else AfterFirst(text[1..], c)
  }

  predicate IsSpace(c: char) {
    c == ' ' || '\t' <= c <= '\r' || '\U{1c}' <= c <= '\U{1f}'
  }

  predicate IsQuote(c: char) {
    c == '"'
  }

  function StripLeft(text: string, drop: char -> bool): string {
    if text != "" && drop(text[0]) then StripLeft(text[1..], drop) else text
  }

  function StripRight(text: string, drop: char -> bool): string {
    if text != "" && drop(text[|text| - 1]) then StripRight(text[..|text| - 1], drop) else text
  }

  function Strip(text: string, drop: char -> bool): string {
    StripRight(StripLeft(text, drop), drop)
  }

  /** The pieces of `text` between occurrences of a two-character separator. */
  function Split(text: string, sep: string): (pieces: seq<string>)
    requires |sep| == 2
    ensures pieces != []
    decreases |text|
  {
    if text == "" then [""]
    else if sep <= text then [""] + Split(text[2..], sep)
    else Prepend([text[0]], Split(text[1..], sep))
  }

  /** Text put in front of the first piece. */
  function Prepend(text: string, pieces: seq<string>): (r: seq<string>)
    requires pieces != []
    ensures r != []
  {
    [text + pieces[0]] + pieces[1..]
  }

  lemma PrependTwice(a: string, b: string, pieces: seq<string>)
    requires pieces != []
    ensures Prepend(a, Prepend(b, pieces)) == Prepend(a + b, pieces)
    ensures Prepend("", pieces) == pieces
  {
    assert a + (b + pieces[0]) == a + b + pieces[0];
    assert "" + pieces[0] == pieces[0];
  }

  lemma PrependConcat(text: string, x: seq<string>, y: seq<string>)
    requires x != []
    ensures Prepend(text, x) + y == Prepend(text, x + y)
  {
  }

  predicate Contains(text: string, part: string) {
    part <= text || (text != "" && Contains(text[1..], part))
  }

  // -------------------------------------------------------------- hex numbers

  function HexDigit(c: char): Option<nat> {
    if '0' <= c <= '9' then Some((c - '0') as nat)
    else if 'a' <= c <= 'f' then Some(10 + (c - 'a') as nat)
    else if 'A' <= c <= 'F' then Some(10 + (c - 'A') as nat)
    else None
  }

  function HexValue(digits: string): Option<nat> {
    if digits == "" then None
    else if |digits| == 1 then HexDigit(digits[0])
    else
      var high, low := HexValue(digits[..|digits| - 1]), HexDigit(digits[|digits| - 1]);
      if high.Some? && low.Some? then Some(16 * high.value + low.value) else None
  }

  function HexText(n: nat): string {
    var low := "0123456789abcdef"[n % 16];
    if n < 16 then [low] else HexText(n / 16) + [low]
  }

  lemma HexLowDigit(n: nat)
    ensures HexDigit("0123456789abcdef"[n % 16]) == Some(n % 16)
  {
  }

  lemma {:induction false} HexRoundTrip(n: nat)
    ensures HexValue(HexText(n)) == Some(n)
    ensures '\\' !in HexText(n)
  {
    HexLowDigit(n);
    if n >= 16 {
      HexRoundTrip(n / 16);
      var text := HexText(n);
      assert text[..|text| - 1] == HexText(n / 16);
    }
  }

  function UpperCase(text: string): string {
    if text == "" then ""
    else
      var last := text[|text| - 1];
      UpperCase(text[..|text| - 1]) + [if 'a' <= last <= 'z' then last - 'a' + 'A' else last]
  }

  /** Capital hexadecimal digits read the same. */
  lemma {:induction false} HexIgnoresCase(text: string)
    requires HexValue(text).Some?
    ensures HexValue(UpperCase(text)) == HexValue(text)
  {
    var front, upper := text[..|text| - 1], UpperCase(text);
    assert upper[..|upper| - 1] == UpperCase(front);
    UpperCaseLength(text);
    if |text| > 1 {
      HexIgnoresCase(front);
    }
  }

  lemma {:induction false} UpperCaseLength(text: string)
    ensures |UpperCase(text)| == |text|
  {
    if text != "" {
      UpperCaseLength(text[..|text| - 1]);
    }
  }

  // ------------------------------------------------------------------ reading

  datatype Reading = Ids(ids: seq<nat>) | InvalidPattern | InvalidText

  /** Ids of the lines that start with 0x, unless one of them is not a number. */
  function IdsOf(lines: seq<string>): Option<seq<nat>> {
    if lines == [] then Some([])
    else
      var rest := IdsOf(lines[1..]);
      if !("0x" <= lines[0]) then rest
      else
        FirstPieceOfHexLine(lines[0]);
        var id := HexValue(Split(lines[0], TAB)[0][2..]);
        if id.Some? && rest.Some? then Some([id.value] + rest.value) else None
  }

  lemma {:induction false} FirstPieceOfHexLine(line: string)
    requires "0x" <= line
    ensures "0x" <= Split(line, TAB)[0]
  {
  }

  function ReadIds(output: string): Reading {
    var after := AfterFirst(output, '=');
    if after.None? then InvalidText
    else
      var result := Strip(Strip(after.value, IsSpace), IsQuote);
      if "-1" <= result then InvalidPattern
      else
        var ids := IdsOf(Split(result, NEWLINE));
        if ids.Some? then Ids(ids.value) else InvalidText
  }

  /** A line that is listed as a window but whose id is no hexadecimal number. */
  predicate IsBadLine(line: string) {
    "0x" <= line && (FirstPieceOfHexLine(line); HexValue(Split(line, TAB)[0][2..]).None?)
  }

  lemma {:induction false} BadLineIff(lines: seq<string>)
    ensures IdsOf(lines).None? <==> exists i :: 0 <= i < |lines| && IsBadLine(lines[i])
    decreases |lines|
  {
    if lines != [] {
      BadLineIff(lines[1..]);
      assert forall i :: 0 <= i < |lines[1..]| ==> lines[1..][i] == lines[i + 1];
      if i :| 0 <= i < |lines| && IsBadLine(lines[i]) {
        assert i > 0 ==> IsBadLine(lines[1..][i - 1]);
      }
      if i :| 0 <= i < |lines[1..]| && IsBadLine(lines[1..][i]) {
        assert IsBadLine(lines[i + 1]);
      }
    }
  }

  lemma ReadingOf(kind: string, text: string)
    requires '=' !in kind
    ensures var reading := ReadIds(Xprop(RESULT_PROPERTY, kind, Some(text)));
      var answer := Strip(text, IsQuote);
      && (reading.InvalidPattern? <==> "-1" <= answer)
      && (reading.InvalidText? <==> !("-1" <= answer) && IdsOf(Split(answer, NEWLINE)).None?)
  {
    ResultText(kind, text);
  }

  /** What becomes of every answer, whatever it says: a pattern is reported as invalid exactly
      when the answer starts with -1; otherwise the answer cannot be read exactly when one of
      its lines starts with 0x and its first piece is no hexadecimal number. */
  lemma ReadingIff(kind: string, text: string)
    requires '=' !in kind
    ensures var reading := ReadIds(Xprop(RESULT_PROPERTY, kind, Some(text)));
      var answer := Strip(text, IsQuote);
      var lines := Split(answer, NEWLINE);
      && (reading.InvalidPattern? <==> |answer| >= 2 && answer[0] == '-' && answer[1] == '1')
      && (reading.InvalidText? <==> !reading.InvalidPattern? && exists i :: 0 <= i < |lines| && IsBadLine(lines[i]))
  {
    var answer := Strip(text, IsQuote);
    ReadingOf(kind, text);
    BadLineIff(Split(answer, NEWLINE));
    assert "-1" <= answer <==> |answer| >= 2 && answer[0] == '-' && answer[1] == '1';
  }

  // --------------------------------------------------------------- round trip

  datatype Listed = Listed(id: nat, title: string)

  /** Fluxbox's answer as xprop shows it; titles are already escaped. */
  function Line(entry: Listed): string {
    "0x" + HexText(entry.id) + TAB + entry.title
  }

  function Shown(entries: seq<Listed>): string {
    if entries == [] then "" else Line(entries[0]) + NEWLINE + Shown(entries[1..])
  }

  function IdsIn(entries: seq<Listed>): seq<nat> {
    seq(|entries|, i requires 0 <= i < |entries| => entries[i].id)
  }

  /** The title cannot be taken for the start of another line. */
  predicate Harmless(title: string) {
    !Contains(title, NEWLINE + "0x")
  }

  /** Parsing Fluxbox's answer gives back exactly the listed ids, in order, if and only if
      no title contains an escaped newline followed by 0x. Quotes and equals signs do no harm. */
  lemma IdsReadBackIff(kind: string, entries: seq<Listed>)
    requires '=' !in kind
    ensures ReadIds(Xprop(RESULT_PROPERTY, kind, Some(Shown(entries)))) == Ids(IdsIn(entries))
       <==> AllHarmless(entries)
  {
    var text := Shown(entries);
    ShownEnds(entries);
    ResultText(kind, text);
    NothingToStrip(text);
    assert !("-1" <= text) by {
      assert "-1"[0] == '-';
    }
    ShownIds(entries);
  }

  lemma ShownEnds(entries: seq<Listed>)
    ensures var text := Shown(entries);
      text == "" || (text[0] == '0' && text[|text| - 1] == 'n')
    decreases |entries|
  {
  }

  /** Taking the value out of xprop's line undoes its quotes, and strips any of its own. */
  lemma ResultText(kind: string, text: string)
    requires '=' !in kind
    ensures var after := AfterFirst(Xprop(RESULT_PROPERTY, kind, Some(text)), '=');
      after.Some? && Strip(Strip(after.value, IsSpace), IsQuote) == Strip(text, IsQuote)
  {
    var front := RESULT_PROPERTY + "(" + kind + ") ";
    var value := " \"" + text + "\"\n";
    assert Xprop(RESULT_PROPERTY, kind, Some(text)) == front + "=" + value;
    AfterFirstSkips(front, value);
    var quoted := "\"" + text + "\"";
    assert value == " " + quoted + "\n";
    StripEnds(quoted);
    assert quoted[1..] == text + "\"";
    StripLastQuote(text);
  }

  lemma {:induction false} StripLastQuote(text: string)
    ensures Strip(text + "\"", IsQuote) == Strip(text, IsQuote)
  {
    var quoted := text + "\"";
    if text == "" {
      assert StripLeft(quoted, IsQuote) == StripLeft(quoted[1..], IsQuote) == "";
    } else if text[0] == '"' {
      assert quoted[1..] == text[1..] + "\"";
      StripLastQuote(text[1..]);
    } else {
      assert quoted[..|text|] == text;
      assert StripRight(quoted, IsQuote) == StripRight(text, IsQuote);
    }
  }

  lemma NothingToStrip(text: string)
    requires text == "" || (text[0] != '"' && text[|text| - 1] != '"')
    ensures Strip(text, IsQuote) == text
  {
  }

  lemma {:induction false} AfterFirstSkips(front: string, rest: string)
    requires '=' !in front
    ensures AfterFirst(front + "=" + rest, '=') == Some(rest)
    decreases |front|
  {
    var text := front + "=" + rest;
    if front == "" {
      assert text == "=" + rest;
      assert text[1..] == rest;
    } else {
      assert text[1..] == front[1..] + "=" + rest;
      AfterFirstSkips(front[1..], rest);
    }
  }

  lemma StripEnds(quoted: string)
    requires |quoted| >= 2 && quoted[0] == '"' && quoted[|quoted| - 1] == '"'
    ensures Strip(" " + quoted + "\n", IsSpace) == quoted
  {
    var text := " " + quoted + "\n";
    assert text[1..] == quoted + "\n";
    var left := quoted + "\n";
    assert StripLeft(text, IsSpace) == StripLeft(left, IsSpace) == left;
    assert left[|left| - 1] == '\n' && left[..|left| - 1] == quoted;
    assert StripRight(left, IsSpace) == StripRight(quoted, IsSpace) == quoted;
  }

  lemma {:induction false} SplitConcat(a: string, b: string, sep: string)
    requires |sep| == 2 && sep[0] != sep[1]
    ensures Split(a + sep + b, sep) == Split(a, sep) + Split(b, sep)
    decreases |a|
  {
    var text := a + sep + b;
    if a == "" {
      assert text == sep + b && text[2..] == b;
    } else if sep <= a {
      assert text[2..] == a[2..] + sep + b && sep <= text;
      SplitConcat(a[2..], b, sep);
      assert [""] + (Split(a[2..], sep) + Split(b, sep)) == [""] + Split(a[2..], sep) + Split(b, sep);
    } else {
      assert text[1..] == a[1..] + sep + b && text[0] == a[0];
      NoSeparatorAhead(a, b, sep);
      SplitConcat(a[1..], b, sep);
      PrependConcat([a[0]], Split(a[1..], sep), Split(b, sep));
    }
  }

  lemma NoSeparatorAhead(a: string, b: string, sep: string)
    requires |sep| == 2 && sep[0] != sep[1] && a != "" && !(sep <= a)
    ensures !(sep <= a + sep + b)
  {
  }

  /** A backslash here is always followed, here, by something other than the separator's letter. */
  predicate NeverSplits(front: string, sep: string)
    requires |sep| == 2
  {
    forall i :: 0 <= i < |front| && front[i] == sep[0] ==> i + 1 < |front| && front[i + 1] != sep[1]
  }

  lemma {:induction false} SplitAfter(front: string, text: string, sep: string)
    requires |sep| == 2 && NeverSplits(front, sep)
    ensures Split(front + text, sep) == Prepend(front, Split(text, sep))
    decreases |front|
  {
    var pieces := Split(text, sep);
    if front == "" {
      assert front + text == text;
      PrependTwice("", "", pieces);
    } else {
      var whole := front + text;
      assert whole[0] == front[0];
      assert |front| > 1 ==> whole[1] == front[1];
      assert !(sep <= whole);
      assert whole[1..] == front[1..] + text;
      forall i | 0 <= i < |front[1..]| && front[1..][i] == sep[0]
        ensures i + 1 < |front[1..]| && front[1..][i + 1] != sep[1]
      {
        assert front[i + 1] == sep[0];
      }
      SplitAfter(front[1..], text, sep);
      PrependTwice([front[0]], front[1..], pieces);
      assert [front[0]] + front[1..] == front;
    }
  }

  ghost predicate HasHexLine(lines: seq<string>) {
    exists i :: 0 <= i < |lines| && "0x" <= lines[i]
  }

  lemma {:induction false} IdsOfConcat(a: seq<string>, b: seq<string>)
    ensures IdsOf(a + b).Some? <==> IdsOf(a).Some? && IdsOf(b).Some?
    ensures IdsOf(a).Some? && IdsOf(b).Some? ==> IdsOf(a + b).value == IdsOf(a).value + IdsOf(b).value
    decreases |a|
  {
    if a == [] {
      assert a + b == b;
    } else {
      assert (a + b)[1..] == a[1..] + b;
      IdsOfConcat(a[1..], b);
      if "0x" <= a[0] {
        FirstPieceOfHexLine(a[0]);
      }
    }
  }

  lemma {:induction false} IdsComeFromHexLines(lines: seq<string>)
    ensures !HasHexLine(lines) ==> IdsOf(lines) == Some([])
    ensures HasHexLine(lines) ==> IdsOf(lines) != Some([])
    decreases |lines|
  {
    if lines != [] {
      IdsComeFromHexLines(lines[1..]);
      assert forall i :: 0 <= i < |lines[1..]| ==> lines[1..][i] == lines[i + 1];
      if HasHexLine(lines[1..]) {
        var i :| 0 <= i < |lines[1..]| && "0x" <= lines[1..][i];
        assert "0x" <= lines[i + 1];
      }
    }
  }

  lemma {:induction false} FirstPieceStart(text: string)
    ensures "0x" <= Split(text, NEWLINE)[0] <==> "0x" <= text
  {
  }

  /** A title adds lines that look like ids exactly when it holds an escaped newline and 0x. */
  lemma {:induction false} ExtraHexLinesIff(title: string)
    ensures HasHexLine(Split(title, NEWLINE)[1..]) <==> Contains(title, NEWLINE + "0x")
    decreases |title|
  {
    var mark := NEWLINE + "0x";
    assert mark[0] == '\\' && mark[1] == 'n' && mark[2] == '0' && mark[3] == 'x';
    if title == "" {
    } else if NEWLINE <= title {
      var text := title[2..];
      var pieces := Split(text, NEWLINE);
      assert Split(title, NEWLINE)[1..] == pieces;
      FirstPieceStart(text);
      ExtraHexLinesIff(text);
      assert title == NEWLINE + text;
      assert mark <= title <==> "0x" <= text;
      assert title[1..][1..] == text;
      assert !(mark <= title[1..]);
      assert Contains(title, mark) <==> "0x" <= text || Contains(text, mark);
      assert HasHexLine(pieces) <==> "0x" <= pieces[0] || HasHexLine(pieces[1..]) by {
        assert forall i :: 0 <= i < |pieces[1..]| ==> pieces[1..][i] == pieces[i + 1];
        if HasHexLine(pieces[1..]) {
          var i :| 0 <= i < |pieces[1..]| && "0x" <= pieces[1..][i];
          assert "0x" <= pieces[i + 1];
        }
        if HasHexLine(pieces) {
          var i :| 0 <= i < |pieces| && "0x" <= pieces[i];
          assert i > 0 ==> "0x" <= pieces[1..][i - 1];
        }
      }
    } else {
      var rest := Split(title[1..], NEWLINE);
      assert Split(title, NEWLINE)[1..] == rest[1..];
      assert mark[..2] == NEWLINE;
      assert mark <= title ==> NEWLINE <= title;
      ExtraHexLinesIff(title[1..]);
    }
  }

  /** One line gives its own id, and nothing else exactly when its title is harmless. */
  lemma LineIds(entry: Listed)
    ensures var ids := IdsOf(Split(Line(entry), NEWLINE));
      && (Harmless(entry.title) ==> ids == Some([entry.id]))
      && (!Harmless(entry.title) ==> ids.None? || |ids.value| > 1)
  {
    HexRoundTrip(entry.id);
    var number := "0x" + HexText(entry.id);
    var front := number + TAB;
    assert NEWLINE[0] == '\\' && NEWLINE[1] == 'n' && TAB[0] == '\\' && TAB[1] == 't';
    assert Line(entry) == front + entry.title;
    var pieces := Split(entry.title, NEWLINE);
    SplitAfter(front, entry.title, NEWLINE);
    var first := front + pieces[0];
    assert first == number + TAB + pieces[0];
    SplitConcat(number, pieces[0], TAB);
    SplitAfter(number, "", TAB);
    assert number + "" == number;
    assert Split(first, TAB)[0] == number && number[2..] == HexText(entry.id);
    var lines := [first] + pieces[1..];
    assert "0x" <= first && lines[1..] == pieces[1..];
    IdsComeFromHexLines(pieces[1..]);
    ExtraHexLinesIff(entry.title);
    assert [entry.id] + [] == [entry.id];
  }

  predicate AllHarmless(entries: seq<Listed>) {
    forall i :: 0 <= i < |entries| ==> Harmless(entries[i].title)
  }

  /** The ids of all the entries when every title is harmless, else too many or none. */
  predicate ReadAs(ids: Option<seq<nat>>, entries: seq<Listed>) {
    if AllHarmless(entries) then ids == Some(IdsIn(entries)) else ids.None? || |ids.value| > |entries|
  }

  lemma ReadAsConcat(a: Option<seq<nat>>, b: Option<seq<nat>>, both: Option<seq<nat>>, first: Listed, rest: seq<Listed>)
    requires ReadAs(a, [first]) && ReadAs(b, rest)
    requires both.Some? <==> a.Some? && b.Some?
    requires both.Some? ==> both.value == a.value + b.value
    ensures ReadAs(both, [first] + rest)
  {
    var entries := [first] + rest;
    var one := [first];
    assert AllHarmless(one) <==> Harmless(one[0].title);
    assert AllHarmless(entries) <==> AllHarmless(one) && AllHarmless(rest) by {
      assert entries[0] == first;
      assert forall i :: 0 < i < |entries| ==> entries[i] == rest[i - 1];
      assert forall i :: 0 <= i < |rest| ==> rest[i] == entries[i + 1];
    }
    if AllHarmless(entries) {
      assert IdsIn(entries) == IdsIn(one) + IdsIn(rest);
    } else {
      assert a.Some? ==> |a.value| >= 1;
      assert b.Some? ==> |b.value| >= |rest|;
    }
  }

  lemma {:induction false} ShownIds(entries: seq<Listed>)
    ensures ReadAs(IdsOf(Split(Shown(entries), NEWLINE)), entries)
    decreases |entries|
  {
    if entries == [] {
      var lines := [""];
      assert lines[1..] == [] && Split("", NEWLINE) == lines && IdsIn(entries) == [];
    } else {
      var first, rest := entries[0], entries[1..];
      var a, b := Split(Line(first), NEWLINE), Split(Shown(rest), NEWLINE);
      assert Split(Shown(entries), NEWLINE) == a + b by {
        SplitConcat(Line(first), Shown(rest), NEWLINE);
      }
      IdsOfConcat(a, b);
      assert ReadAs(IdsOf(a), [first]) by {
        LineIds(first);
        assert IdsIn([first]) == [first.id];
        assert AllHarmless([first]) <==> Harmless([first][0].title);
      }
      ShownIds(rest);
      ReadAsConcat(IdsOf(a), IdsOf(b), IdsOf(a + b), first, rest);
      assert entries == [first] + rest;
    }
  }
}
