/** The screen list built from xrandr, ordered and numbered from left to right, and the
    lookup of the screen at an x coordinate. */
module Screens {
  import opened Options
  import opened Sorting

  datatype RawScreen = RawScreen(name: string, primary: bool, width: nat, height: nat,
                                 xOffset: nat, yOffset: nat, xMm: nat, yMm: nat)

  /** Every value that starts with a digit is converted to a number, names as well. */
  datatype Label = Text(text: string) | Number(value: int)

  datatype Screen = Screen(raw: RawScreen, title: Label, num: nat, right: nat)

  datatype Built = Ordered(items: seq<Screen>) | NoScreens | NotANumber(name: string)

  /** `toInt` is Python's int, None when it raises. */
  function LabelOf(name: string, toInt: string -> Option<int>): Option<Label> {
    if name != "" && '0' <= name[0] <= '9' then
      (match toInt(name)
       case Some(value) => Some(Number(value))
       case None => None)
    else Some(Text(name))
  }

  /** A name is kept as text exactly when it does not start with a digit; otherwise it is the
      number it reads as, or there is none. */
  lemma LabelIff(name: string, toInt: string -> Option<int>)
    ensures var digit := exists d: nat :: d < 10 && 0 < |name| && name[0] == "0123456789"[d];
      && (LabelOf(name, toInt) == Some(Text(name)) <==> !digit)
      && (forall v :: LabelOf(name, toInt) == Some(Number(v)) <==> digit && toInt(name) == Some(v))
      && (LabelOf(name, toInt).None? <==> digit && toInt(name).None?)
  {
    if name != "" && '0' <= name[0] <= '9' {
      var d := (name[0] - '0') as nat;
      assert name[0] == "0123456789"[d];
    }
  }

  predicate ByOffset(a: RawScreen, b: RawScreen) {
    a.xOffset <= b.xOffset
  }

  function Raws(screens: seq<Screen>): seq<RawScreen> {
    seq(|screens|, i requires 0 <= i < |screens| => screens[i].raw)
  }

  /** The same screens, ordered by offset with ties in their given order, numbered from 0,
      each with its name and its right edge. */
  ghost predicate IsNumbering(raws: seq<RawScreen>, toInt: string -> Option<int>, screens: seq<Screen>)
  {
    && multiset(Raws(screens)) == multiset(raws)
    && (forall i, j :: 0 <= i < j < |screens| ==> screens[i].raw.xOffset <= screens[j].raw.xOffset)
    && (forall k :: Ranked(Raws(screens), k, ByOffset) == Ranked(raws, k, ByOffset))
    && (forall i :: 0 <= i < |screens| ==>
          && screens[i].num == i && screens[i].right == screens[i].raw.xOffset + screens[i].raw.width
          && LabelOf(screens[i].raw.name, toInt) == Some(screens[i].title))
  }

  /** Fails exactly without any screen, or when a screen's name starts with a digit and is
      not a number. */
  method BuildScreens(raws: seq<RawScreen>, toInt: string -> Option<int>) returns (r: Built)
    ensures r.NoScreens? <==> raws == []
    ensures r.NotANumber? <==> exists s :: s in raws && LabelOf(s.name, toInt).None?
    ensures r.NotANumber? ==> LabelOf(r.name, toInt).None?
    ensures r.Ordered? ==> IsNumbering(raws, toInt, r.items)
  {
    if raws == [] {
      return NoScreens;
    }
    var sorted := Sort(raws, ByOffset);
    SortIsStable(raws, ByOffset);
    assert forall s :: s in sorted <==> s in raws by {
      assert forall s :: s in sorted <==> s in multiset(sorted);
      assert forall s :: s in raws <==> s in multiset(raws);
    }
    var screens: seq<Screen> := [];
    for i := 0 to |sorted|
      invariant |screens| == i
      invariant forall k :: 0 <= k < i ==>
        && screens[k].raw == sorted[k] && screens[k].num == k
        && screens[k].right == sorted[k].xOffset + sorted[k].width
        && LabelOf(sorted[k].name, toInt) == Some(screens[k].title)
    {
      var title := LabelOf(sorted[i].name, toInt);
      if title.None? {
        assert sorted[i] in raws;
        return NotANumber(sorted[i].name);
      }
      screens := screens + [Screen(sorted[i], title.value, i, sorted[i].xOffset + sorted[i].width)];
    }
    assert Raws(screens) == sorted;
    assert forall i, j :: 0 <= i < j < |screens| ==> ByOffset(sorted[i], sorted[j]);
    return Ordered(screens);
  }

  /** The numbering is determined by the screens: no other order or numbering qualifies. */
  lemma NumberingIsUnique(raws: seq<RawScreen>, toInt: string -> Option<int>, a: seq<Screen>, b: seq<Screen>)
    requires IsNumbering(raws, toInt, a) && IsNumbering(raws, toInt, b)
    ensures a == b
  {
    StableSortIsUnique(Raws(a), Raws(b), ByOffset);
    assert |a| == |Raws(a)| == |b|;
    forall i | 0 <= i < |a|
      ensures a[i] == b[i]
    {
      assert Raws(a)[i] == Raws(b)[i];
    }
  }

  // ------------------------------------------------------------------- lookup

  /** Both edges belong to the screen. */
  predicate Spans(s: Screen, x: int) {
    s.raw.xOffset <= x <= s.right
  }

  ghost predicate IsLowestSpanning(screens: seq<Screen>, x: int, i: int) {
    0 <= i < |screens| && Spans(screens[i], x) && forall j :: 0 <= j < i ==> !Spans(screens[j], x)
  }

  /** The first screen spanning x; it fails exactly when there is none. */
  method GetScreen(screens: seq<Screen>, x: int) returns (r: Option<Screen>, ghost at: int)
    ensures r.None? <==> forall i :: 0 <= i < |screens| ==> !Spans(screens[i], x)
    ensures r.Some? ==> IsLowestSpanning(screens, x, at) && r.value == screens[at]
  {
    at := -1;
    for i := 0 to |screens|
      invariant forall j :: 0 <= j < i ==> !Spans(screens[j], x)
    {
      if x >= screens[i].raw.xOffset && x <= screens[i].right {
        at := i;
        return Some(screens[i]), at;
      }
    }
    return None, at;
  }

  function RightBefore(screens: seq<Screen>, i: int): nat
    requires 0 < i < |screens|
  {
    screens[i - 1].right
  }

  /** Screens side by side from 0, without gaps or overlaps. */
  predicate Tiled(screens: seq<Screen>) {
    && |screens| > 0 && screens[0].raw.xOffset == 0
    && (forall i :: 0 <= i < |screens| ==>
          screens[i].raw.width > 0 && screens[i].right == screens[i].raw.xOffset + screens[i].raw.width)
    && (forall i :: 0 < i < |screens| ==> screens[i].raw.xOffset == RightBefore(screens, i))
  }

  function Total(screens: seq<Screen>): nat
    requires |screens| > 0
  {
    screens[|screens| - 1].right
  }

  /** The usual half-open reading: each left edge belongs to its own screen only. */
  predicate Owns(s: Screen, x: int) {
    s.raw.xOffset <= x < s.right
  }

  lemma {:induction false} EdgesIncrease(screens: seq<Screen>, i: nat, j: nat)
    requires Tiled(screens) && i < j < |screens|
    ensures screens[i].right <= screens[j].raw.xOffset
    decreases j
  {
    if i + 1 < j {
      EdgesIncrease(screens, i, j - 1);
    }
  }

  lemma {:induction false} SomeScreenSpans(screens: seq<Screen>, x: int, n: nat)
    requires Tiled(screens) && n < |screens| && 0 <= x <= screens[n].right
    ensures exists i :: IsLowestSpanning(screens, x, i)
  {
    if n == 0 {
      assert IsLowestSpanning(screens, x, 0);
    } else if x <= screens[n - 1].right {
      SomeScreenSpans(screens, x, n - 1);
    } else {
      forall j | 0 <= j < n
        ensures !Spans(screens[j], x)
      {
        if j < n - 1 {
          EdgesIncrease(screens, j, n - 1);
        }
      }
      assert IsLowestSpanning(screens, x, n);
    }
  }

  /** On tiled screens the lookup succeeds exactly from 0 to the total width. It gives the
      screen that owns x, except that a shared edge gives the screen on its left and the far
      right edge gives the last screen. */
  lemma TiledLookup(screens: seq<Screen>, x: int)
    requires Tiled(screens)
    ensures (exists i :: IsLowestSpanning(screens, x, i)) <==> 0 <= x <= Total(screens)
    ensures forall i, k :: IsLowestSpanning(screens, x, i) && 0 <= k < |screens| && Owns(screens[k], x) ==>
              i == if x == screens[k].raw.xOffset && k > 0 then k - 1 else k
    ensures forall i :: IsLowestSpanning(screens, x, i) && x == Total(screens) ==> i == |screens| - 1
  {
    var last := |screens| - 1;
    if 0 <= x <= Total(screens) {
      SomeScreenSpans(screens, x, last);
    }
    forall i | IsLowestSpanning(screens, x, i)
      ensures 0 <= x <= Total(screens)
      ensures x == Total(screens) ==> i == last
    {
      if i < last {
        EdgesIncrease(screens, i, last);
      }
    }
    forall i, k | IsLowestSpanning(screens, x, i) && 0 <= k < |screens| && Owns(screens[k], x)
      ensures i == if x == screens[k].raw.xOffset && k > 0 then k - 1 else k
    {
      SpanningOwner(screens, x, i, k);
    }
  }

  lemma SpanningOwner(screens: seq<Screen>, x: int, i: nat, k: nat)
    requires Tiled(screens) && IsLowestSpanning(screens, x, i) && k < |screens| && Owns(screens[k], x)
    ensures i == if x == screens[k].raw.xOffset && k > 0 then k - 1 else k
  {
    assert Spans(screens[k], x);
    assert i <= k;
    if i < k {
      EdgesIncrease(screens, i, k);
      if i < k - 1 {
        EdgesIncrease(screens, i, k - 1);
      }
    } else if k > 0 && x == screens[k].raw.xOffset {
      assert x == RightBefore(screens, k) && Spans(screens[k - 1], x);
    }
  }
}
