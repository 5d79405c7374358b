/** Parsing hwinfo's monitor report: one pass over its lines, against splitting them into
    blocks and folding each block. */
module Hwinfo {
  import opened Options

  /** What one indented line sets, once its key is known and its value has parsed. */
  datatype Attribute =
    | Model(model: string)
    | Vendor(code: string, vendor: Option<string>)
    | Serial(serial: string)
    | Size(width: nat, height: nat)
    | Year(year: int)
    | Week(week: int)
    | Resolution(resolution: string)
    | HardwareClass(class_: string)
    | UniqueId(id: string)

  /** Raises: a year or week that is not a number. */
  datatype Reading = Sets(attribute: Attribute) | Nothing | Raises

  datatype Monitor = Monitor(model: Option<string>, vendorCode: Option<string>, vendor: Option<string>,
                             serial: Option<string>, size: Option<(nat, nat)>, year: Option<int>, week: Option<int>,
                             resolutions: seq<string>, hardwareClass: Option<string>, uniqueId: Option<string>)

  const EMPTY := Monitor(None, None, None, None, None, None, None, [], None, None)

  function Set(m: Monitor, a: Attribute): Monitor {
    match a
    case Model(v) => m.(model := Some(v))
    case Vendor(code, name) => m.(vendorCode := Some(code), vendor := m.vendor.OverriddenBy(name))
    case Serial(v) => m.(serial := Some(v))
    case Size(w, h) => m.(size := Some((w, h)))
    case Year(v) => m.(year := Some(v))
    case Week(v) => m.(week := Some(v))
    case Resolution(v) => m.(resolutions := m.resolutions + [v])
    case HardwareClass(v) => m.(hardwareClass := Some(v))
    case UniqueId(v) => m.(uniqueId := Some(v))
  }

  // ------------------------------------------------------------------ headers

  function DigitsBefore(line: string): nat {
    if line != "" && '0' <= line[0] <= '9' then 1 + DigitsBefore(line[1..]) else 0
  }

  /** Digits, a colon and a blank at the start of the line. */
  predicate IsHeader(line: string) {
    var n := DigitsBefore(line);
    n > 0 && n + 2 <= |line| && line[n] == ':' && line[n + 1] == ' '
  }

  /** The line starts with `n` digits, a colon and a blank. */
  predicate IsNumbered(line: string, n: int) {
    && 0 < n && n + 2 <= |line|
    && (forall i :: 0 <= i < n ==> '0' <= line[i] <= '9')
    && line[n] == ':' && line[n + 1] == ' '
  }

  lemma {:induction false} DigitsAreCounted(line: string)
    ensures var n := DigitsBefore(line);
      && n <= |line| && (forall i :: 0 <= i < n ==> '0' <= line[i] <= '9')
      && (n < |line| ==> !('0' <= line[n] <= '9'))
  {
    if line != "" && '0' <= line[0] <= '9' {
      DigitsAreCounted(line[1..]);
      assert forall i :: 1 <= i < |line| ==> line[i] == line[1..][i - 1];
    }
  }

  lemma HeaderIff(line: string)
    ensures IsHeader(line) <==> exists n :: IsNumbered(line, n)
  {
    DigitsAreCounted(line);
    if IsHeader(line) {
      assert IsNumbered(line, DigitsBefore(line));
    }
    if n :| IsNumbered(line, n) {
      assert n == DigitsBefore(line);
    }
  }

  // ------------------------------------------------------------ specification

  /** The lines before the next header. */
  function Body(lines: seq<string>): seq<string> {
    if lines == [] || IsHeader(lines[0]) then [] else [lines[0]] + Body(lines[1..])
  }

  /** One block for each header; lines before the first header belong to none. */
  function Blocks(lines: seq<string>): seq<seq<string>> {
    if lines == [] then []
    else (if IsHeader(lines[0]) then [Body(lines[1..])] else []) + Blocks(lines[1..])
  }

  function Headers(lines: seq<string>): nat {
    if lines == [] then 0 else (if IsHeader(lines[0]) then 1 else 0) + Headers(lines[1..])
  }

  lemma {:induction false} BodyEnds(lines: seq<string>)
    ensures var n := |Body(lines)|;
      && n <= |lines| && Body(lines) == lines[..n]
      && (forall m :: 0 <= m < n ==> !IsHeader(lines[m]))
      && (n < |lines| ==> IsHeader(lines[n]))
  {
    if lines != [] && !IsHeader(lines[0]) {
      BodyEnds(lines[1..]);
      assert forall m :: 1 <= m < |lines| ==> lines[m] == lines[1..][m - 1];
    }
  }

  lemma FirstBlock(lines: seq<string>) returns (j: nat)
    requires lines != [] && IsHeader(lines[0])
    ensures 0 < j <= |lines| && (forall m :: 0 < m < j ==> !IsHeader(lines[m])) && (j < |lines| ==> IsHeader(lines[j]))
    ensures Blocks(lines) != [] && Blocks(lines)[0] == lines[1..j]
  {
    var rest := lines[1..];
    BodyEnds(rest);
    j := 1 + |Body(rest)|;
    assert forall m :: 0 < m < |lines| ==> lines[m] == rest[m - 1];
  }

  /** There is one block for each header, in order: the lines behind it up to the next one. */
  lemma {:induction false} BlockOfHeader(lines: seq<string>, i: nat) returns (j: nat)
    requires i < |lines| && IsHeader(lines[i])
    ensures i < j <= |lines| && (forall m :: i < m < j ==> !IsHeader(lines[m])) && (j < |lines| ==> IsHeader(lines[j]))
    ensures |Blocks(lines)| == Headers(lines)
    ensures Headers(lines[..i]) < |Blocks(lines)| && Blocks(lines)[Headers(lines[..i])] == lines[i + 1..j]
    decreases |lines|
  {
    var rest := lines[1..];
    BlockCount(lines);
    if i == 0 {
      j := FirstBlock(lines);
    } else {
      assert rest[i - 1] == lines[i];
      j := BlockOfHeader(rest, i - 1);
      j := j + 1;
      assert forall m :: 0 < m < |lines| ==> lines[m] == rest[m - 1];
      assert lines[..i][1..] == rest[..i - 1] && lines[..i][0] == lines[0];
      assert rest[i..j - 1] == lines[i + 1..j];
    }
  }

  lemma {:induction false} BlockCount(lines: seq<string>)
    ensures |Blocks(lines)| == Headers(lines)
  {
    if lines != [] {
      BlockCount(lines[1..]);
    }
  }

  /** A block's lines applied to a monitor in order; None when one raises. */
  function Fold(m: Monitor, block: seq<string>, read: string -> Reading): Option<Monitor>
    decreases |block|
  {
    if block == [] then Some(m)
    else match read(block[0])
         case Raises => None
         case Nothing => Fold(m, block[1..], read)
         case Sets(a) => Fold(Set(m, a), block[1..], read)
  }

  /** A monitor with no key set is dropped. */
  function Kept(m: Monitor): seq<Monitor> {
    if m == EMPTY then [] else [m]
  }

  function Joined(first: Option<Monitor>, rest: Option<seq<Monitor>>): Option<seq<Monitor>> {
    if first.Some? && rest.Some? then Some(Kept(first.value) + rest.value) else None
  }

  function Gather(blocks: seq<seq<string>>, read: string -> Reading): Option<seq<Monitor>> {
    if blocks == [] then Some([]) else Joined(Fold(EMPTY, blocks[0], read), Gather(blocks[1..], read))
  }

  /** A block raises exactly when one of its lines does. */
  lemma {:induction false} FoldRaisesIff(m: Monitor, block: seq<string>, read: string -> Reading)
    ensures Fold(m, block, read).None? <==> exists i :: 0 <= i < |block| && read(block[i]).Raises?
    decreases |block|
  {
    if block != [] {
      var rest := block[1..];
      var reading := read(block[0]);
      FoldRaisesIff(if reading.Sets? then Set(m, reading.attribute) else m, rest, read);
      assert forall i :: 0 <= i < |rest| ==> rest[i] == block[i + 1];
      if i :| 0 <= i < |block| && read(block[i]).Raises? {
        assert i > 0 ==> read(rest[i - 1]).Raises?;
      }
      if i :| 0 <= i < |rest| && read(rest[i]).Raises? {
        assert read(block[i + 1]).Raises?;
      }
    }
  }

  /** The report raises exactly when a block does. Otherwise its monitors are those of the
      blocks that set some key: an empty one is never listed and no other is left out. */
  lemma {:induction false} GatheredIff(blocks: seq<seq<string>>, read: string -> Reading)
    ensures Gather(blocks, read).None? <==> exists k :: 0 <= k < |blocks| && Fold(EMPTY, blocks[k], read).None?
    ensures Gather(blocks, read).Some? ==>
      forall m :: m in Gather(blocks, read).value
             <==> m != EMPTY && exists k :: 0 <= k < |blocks| && Fold(EMPTY, blocks[k], read) == Some(m)
    decreases |blocks|
  {
    if blocks != [] {
      var rest := blocks[1..];
      GatheredIff(rest, read);
      assert forall k :: 0 <= k < |rest| ==> rest[k] == blocks[k + 1];
      var first := Fold(EMPTY, blocks[0], read);
      assert (exists k :: 0 <= k < |blocks| && Fold(EMPTY, blocks[k], read).None?)
        <==> first.None? || exists k :: 0 <= k < |rest| && Fold(EMPTY, rest[k], read).None? by {
        if k :| 0 <= k < |rest| && Fold(EMPTY, rest[k], read).None? {
          assert Fold(EMPTY, blocks[k + 1], read).None?;
        }
      }
      if Gather(blocks, read).Some? {
        forall m
          ensures m in Gather(blocks, read).value
             <==> m != EMPTY && exists k :: 0 <= k < |blocks| && Fold(EMPTY, blocks[k], read) == Some(m)
        {
          if k :| 0 <= k < |rest| && Fold(EMPTY, rest[k], read) == Some(m) {
            assert Fold(EMPTY, blocks[k + 1], read) == Some(m);
          }
        }
      }
    }
  }

  /** The monitors of the earlier blocks come first. */
  lemma {:induction false} GatherConcat(a: seq<seq<string>>, b: seq<seq<string>>, read: string -> Reading)
    requires Gather(a, read).Some? && Gather(b, read).Some?
    ensures Gather(a + b, read) == Some(Gather(a, read).value + Gather(b, read).value)
    decreases |a|
  {
    if a == [] {
      assert a + b == b;
      assert [] + Gather(b, read).value == Gather(b, read).value;
    } else {
      assert (a + b)[1..] == a[1..] + b;
      GatherConcat(a[1..], b, read);
      JoinedMore(Fold(EMPTY, a[0], read), Gather(a[1..], read), Gather(b, read).value);
    }
  }

  lemma JoinedMore(first: Option<Monitor>, some: Option<seq<Monitor>>, more: seq<Monitor>)
    requires Joined(first, some).Some?
    ensures Joined(first, Some(some.value + more)) == Some(Joined(first, some).value + more)
  {
    var kept := Kept(first.value);
    assert kept + (some.value + more) == kept + some.value + more;
  }

  // ----------------------------------------------------------------- the loop

  /** What is still to come, given the monitor being read. */
  function Pending(current: Option<Monitor>, lines: seq<string>, read: string -> Reading): Option<seq<Monitor>> {
    var rest := Gather(Blocks(lines), read);
    if current.None? then rest else Joined(Fold(current.value, Body(lines), read), rest)
  }

  function Prefixed(done: seq<Monitor>, rest: Option<seq<Monitor>>): Option<seq<Monitor>> {
    if rest.Some? then Some(done + rest.value) else None
  }

  lemma PrefixedNothing(rest: Option<seq<Monitor>>)
    ensures Prefixed([], rest) == rest
  {
    if rest.Some? {
      assert [] + rest.value == rest.value;
    }
  }

  lemma PendingAtEnd(current: Option<Monitor>, read: string -> Reading)
    ensures Pending(current, [], read) == Some(if current.Some? then Kept(current.value) else [])
  {
    if current.Some? {
      assert Kept(current.value) + [] == Kept(current.value);
    }
  }

  lemma PendingStep(current: Option<Monitor>, line: string, lines: seq<string>, read: string -> Reading)
    ensures var all := Pending(current, [line] + lines, read);
      if IsHeader(line) then
        all == Prefixed(if current.Some? then Kept(current.value) else [], Pending(Some(EMPTY), lines, read))
      else if current.None? then all == Pending(None, lines, read)
      else match read(line)
           case Raises => all == None
           case Nothing => all == Pending(current, lines, read)
           case Sets(a) => all == Pending(Some(Set(current.value, a)), lines, read)
  {
    var text := [line] + lines;
    assert text[1..] == lines;
    if IsHeader(line) {
      var block := Body(lines);
      assert Blocks(text) == [block] + Blocks(lines);
      assert Blocks(text)[1..] == Blocks(lines);
      assert Gather(Blocks(text), read) == Pending(Some(EMPTY), lines, read);
      assert Body(text) == [];
      PrefixedNothing(Pending(Some(EMPTY), lines, read));
    } else {
      assert Blocks(text) == [] + Blocks(lines) == Blocks(lines);
      assert Body(text) == [line] + Body(lines);
      assert Body(text)[1..] == Body(lines);
    }
  }

  lemma PrefixedTwice(a: seq<Monitor>, b: seq<Monitor>, rest: Option<seq<Monitor>>)
    ensures Prefixed(a, Prefixed(b, rest)) == Prefixed(a + b, rest)
    ensures Prefixed(a, Prefixed([], rest)) == Prefixed(a, rest)
  {
    if rest.Some? {
      assert a + (b + rest.value) == a + b + rest.value;
      assert [] + rest.value == rest.value;
    }
  }

  /** A header keeps the monitor read so far, unless it is empty, and starts a new one. */
  lemma HeaderStep(monitors: seq<Monitor>, current: Option<Monitor>, line: string, lines: seq<string>, read: string -> Reading)
    requires IsHeader(line)
    ensures Prefixed(monitors, Pending(current, [line] + lines, read))
         == Prefixed(monitors + (if current.Some? then Kept(current.value) else []), Pending(Some(EMPTY), lines, read))
  {
    PendingStep(current, line, lines, read);
    PrefixedTwice(monitors, if current.Some? then Kept(current.value) else [], Pending(Some(EMPTY), lines, read));
  }

  /** The single pass gives exactly the folded blocks, empty ones dropped, and raises exactly
      when a line of some block does. */
  method ParseMonitors(lines: seq<string>, read: string -> Reading) returns (r: Option<seq<Monitor>>)
    ensures r == Gather(Blocks(lines), read)
  {
    var monitors: seq<Monitor> := [];
    var current: Option<Monitor> := None;
    assert lines[0..] == lines;
    PrefixedNothing(Gather(Blocks(lines), read));
    for i := 0 to |lines|
      invariant Gather(Blocks(lines), read) == Prefixed(monitors, Pending(current, lines[i..], read))
    {
      var line := lines[i];
      ghost var rest := lines[i + 1..];
      assert lines[i..] == [line] + rest;
      if IsHeader(line) {
        HeaderStep(monitors, current, line, rest, read);
        assert monitors + [] == monitors;
        if current.Some? && current.value != EMPTY {
          monitors := monitors + [current.value];
        }
        current := Some(EMPTY);
        continue;
      }
      PendingStep(current, line, rest, read);
      if current.None? {
        continue;
      }
      match read(line) {
        case Raises => return None;
        case Nothing =>
        case Sets(a) => current := Some(Set(current.value, a));
      }
    }
    assert lines[|lines|..] == [];
    PendingAtEnd(current, read);
    assert monitors + [] == monitors;
    if current.Some? && current.value != EMPTY {
      monitors := monitors + [current.value];
    }
    return Some(monitors);
  }

  // ------------------------------------------------------ what a block folds to

  /** The last value picked out of a block's attributes. */
  function LastOf<T>(block: seq<string>, read: string -> Reading, pick: Attribute -> Option<T>): Option<T>
    decreases |block|
  {
    if block == [] then None
    else
      var own := if read(block[0]).Sets? then pick(read(block[0]).attribute) else None;
      own.OverriddenBy(LastOf(block[1..], read, pick))
  }

  function ResolutionsOf(block: seq<string>, read: string -> Reading): seq<string>
    decreases |block|
  {
    if block == [] then []
    else
      var reading := read(block[0]);
      (if reading.Sets? && reading.attribute.Resolution? then [reading.attribute.resolution] else [])
      + ResolutionsOf(block[1..], read)
  }

  function PickModel(a: Attribute): Option<string> { if a.Model? then Some(a.model) else None }
  function PickCode(a: Attribute): Option<string> { if a.Vendor? then Some(a.code) else None }
  function PickVendor(a: Attribute): Option<string> { if a.Vendor? then a.vendor else None }
  function PickSerial(a: Attribute): Option<string> { if a.Serial? then Some(a.serial) else None }
  function PickSize(a: Attribute): Option<(nat, nat)> { if a.Size? then Some((a.width, a.height)) else None }
  function PickYear(a: Attribute): Option<int> { if a.Year? then Some(a.year) else None }
  function PickWeek(a: Attribute): Option<int> { if a.Week? then Some(a.week) else None }
  function PickClass(a: Attribute): Option<string> { if a.HardwareClass? then Some(a.class_) else None }
  function PickId(a: Attribute): Option<string> { if a.UniqueId? then Some(a.id) else None }

  /** One monitor's fields overridden by those another one has; resolutions are added. */
  function Over(m: Monitor, later: Monitor): Monitor {
    Monitor(m.model.OverriddenBy(later.model), m.vendorCode.OverriddenBy(later.vendorCode),
            m.vendor.OverriddenBy(later.vendor), m.serial.OverriddenBy(later.serial),
            m.size.OverriddenBy(later.size), m.year.OverriddenBy(later.year), m.week.OverriddenBy(later.week),
            m.resolutions + later.resolutions, m.hardwareClass.OverriddenBy(later.hardwareClass),
            m.uniqueId.OverriddenBy(later.uniqueId))
  }

  /** The last value a block gives each scalar key, and its resolutions in order. */
  function Totals(block: seq<string>, read: string -> Reading): Monitor {
    Monitor(LastOf(block, read, PickModel), LastOf(block, read, PickCode), LastOf(block, read, PickVendor),
            LastOf(block, read, PickSerial), LastOf(block, read, PickSize), LastOf(block, read, PickYear),
            LastOf(block, read, PickWeek), ResolutionsOf(block, read), LastOf(block, read, PickClass),
            LastOf(block, read, PickId))
  }

  function Own(reading: Reading): Monitor {
    match reading
    case Sets(a) => Monitor(PickModel(a), PickCode(a), PickVendor(a), PickSerial(a), PickSize(a), PickYear(a),
                            PickWeek(a), if a.Resolution? then [a.resolution] else [], PickClass(a), PickId(a))
    case _ => EMPTY
  }

  lemma OverIsAssociative(a: Monitor, b: Monitor, c: Monitor)
    ensures Over(Over(a, b), c) == Over(a, Over(b, c))
  {
  }

  lemma SetIsOver(m: Monitor, a: Attribute)
    ensures Set(m, a) == Over(m, Own(Sets(a)))
  {
  }

  lemma OverNothing(m: Monitor)
    ensures Over(m, EMPTY) == m
  {
  }

  lemma TotalsStep(block: seq<string>, read: string -> Reading)
    requires block != []
    ensures Totals(block, read) == Over(Own(read(block[0])), Totals(block[1..], read))
  {
  }

  /** A block's monitor holds the last value of every scalar key and all resolutions in order. */
  lemma {:induction false} FoldKeepsLast(m: Monitor, block: seq<string>, read: string -> Reading)
    requires Fold(m, block, read).Some?
    ensures Fold(m, block, read).value == Over(m, Totals(block, read))
    decreases |block|
  {
    if block == [] {
      OverNothing(m);
    } else {
      var reading := read(block[0]);
      TotalsStep(block, read);
      OverIsAssociative(m, Own(reading), Totals(block[1..], read));
      OverNothing(m);
      if reading.Sets? {
        SetIsOver(m, reading.attribute);
      }
      FoldKeepsLast(if reading.Sets? then Set(m, reading.attribute) else m, block[1..], read);
    }
  }
}
