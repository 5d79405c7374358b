/** Capturing a layout file and everything it includes, through a stack of pending paths
    over an include graph that may be cyclic. */
module LayoutFiles {
  import opened Options
  import opened Sorting

  /** The files as the loader can see them: the root is opened under its own name, all
      others by logical path. `includes` fails on malformed directives. */
  datatype Source<!Bytes> = Source(root: string, rootFile: Option<Bytes>,
                                  read: string -> Option<Bytes>,
                                  includes: (string, Bytes) -> Option<seq<string>>)

  datatype Captured<Bytes> = Files(items: seq<(string, Bytes)>) | Failed(path: string)

  /** What is read under a logical path. */
  function Content<Bytes>(src: Source<Bytes>, path: string): Option<Bytes> {
    if path == src.root then src.rootFile else src.read(path)
  }

  function Included<Bytes>(src: Source<Bytes>, path: string): Option<seq<string>> {
    var content := Content(src, path);
    if content.Some? then src.includes(path, content.value) else None
  }

  /** Readable, with well-formed include directives. */
  predicate Loads<Bytes>(src: Source<Bytes>, path: string) {
    Included(src, path).Some?
  }

  predicate Includes<Bytes>(src: Source<Bytes>, path: string, next: string) {
    Loads(src, path) && next in Included(src, path).value
  }

  /** `chain` follows includes from the root to `path`. */
  ghost predicate IsChain<Bytes>(src: Source<Bytes>, chain: seq<string>, path: string)
  {
    && |chain| > 0 && chain[0] == src.root && chain[|chain| - 1] == path
    && forall i :: 0 <= i < |chain| - 1 ==> Includes(src, chain[i], chain[i + 1])
  }

  ghost predicate Reachable<Bytes(!new)>(src: Source<Bytes>, path: string) {
    exists chain :: IsChain(src, chain, path)
  }

  lemma RootIsReachable<Bytes(!new)>(src: Source<Bytes>)
    ensures Reachable(src, src.root)
  {
    assert IsChain(src, [src.root], src.root);
  }

  lemma IncludedIsReachable<Bytes(!new)>(src: Source<Bytes>, path: string, next: string)
    requires Reachable(src, path) && Includes(src, path, next)
    ensures Reachable(src, next)
  {
    var chain :| IsChain(src, chain, path);
    var longer := chain + [next];
    forall i | 0 <= i < |longer| - 1
      ensures Includes(src, longer[i], longer[i + 1])
    {
      if i < |chain| - 1 {
        assert Includes(src, chain[i], chain[i + 1]);
      }
    }
    assert IsChain(src, longer, next);
  }

  /** A set with the root that loads and is closed under includes holds every reachable path. */
  lemma {:induction false} ClosedHoldsChain<Bytes(!new)>(src: Source<Bytes>, paths: set<string>, chain: seq<string>, path: string)
    requires src.root in paths
    requires forall p, q :: p in paths && Includes(src, p, q) ==> q in paths
    requires IsChain(src, chain, path)
    ensures path in paths
    decreases |chain|
  {
    if |chain| > 1 {
      var front := chain[..|chain| - 1];
      assert Includes(src, chain[|chain| - 2], chain[|chain| - 2 + 1]);
      assert IsChain(src, front, chain[|chain| - 2]);
      ClosedHoldsChain(src, paths, front, chain[|chain| - 2]);
    }
  }

  // --------------------------------------------------------------- the result

  predicate PathLe<Bytes>(a: (string, Bytes), b: (string, Bytes)) {
    StringLe(a.0, b.0)
  }

  lemma PathLeIsTotal<Bytes(!new)>()
    ensures TotalPreorder<(string, Bytes)>(PathLe)
  {
    forall a: (string, Bytes), b: (string, Bytes)
      ensures PathLe(a, b) || PathLe(b, a)
    {
      StringLeTotal(a.0, b.0);
    }
    forall a: (string, Bytes), b: (string, Bytes), c: (string, Bytes) | PathLe(a, b) && PathLe(b, c)
      ensures PathLe(a, c)
    {
      StringLeTrans(a.0, b.0, c.0);
    }
  }

  /** Strictly ordered by path. */
  predicate InOrder<Bytes>(items: seq<(string, Bytes)>) {
    forall i, j :: 0 <= i < j < |items| ==> StringLe(items[i].0, items[j].0) && items[i].0 != items[j].0
  }

  /** Exactly the reachable files with their contents, strictly ordered by path. */
  ghost predicate IsCapture<Bytes(!new)>(src: Source<Bytes>, items: seq<(string, Bytes)>)
  {
    && InOrder(items)
    && forall path, content :: (path, content) in items <==> Reachable(src, path) && Content(src, path) == Some(content)
  }

  /** The reachable files determine the result, whatever order they were visited in. */
  lemma {:induction false} CaptureIsUnique<Bytes(!new)>(src: Source<Bytes>, a: seq<(string, Bytes)>, b: seq<(string, Bytes)>)
    requires IsCapture(src, a) && IsCapture(src, b)
    ensures a == b
  {
    assert forall x :: x in a <==> x in b by {
      forall x: (string, Bytes)
        ensures x in a <==> x in b
      {
        var (path, content) := x;
        assert x == (path, content);
      }
    }
    OrderedItemsAreUnique(a, b);
  }

  lemma {:induction false} OrderedItemsAreUnique<Bytes(!new)>(a: seq<(string, Bytes)>, b: seq<(string, Bytes)>)
    requires InOrder(a) && InOrder(b) && forall x :: x in a <==> x in b
    ensures a == b
    decreases |a|
  {
    if a == [] {
      assert forall i :: 0 <= i < |b| ==> b[i] in b;
    } else {
      assert a[0] in b && b[0] in a;
      var i :| 0 <= i < |b| && b[i] == a[0];
      var j :| 0 <= j < |a| && a[j] == b[0];
      StringLeTotal(a[0].0, b[0].0);
      assert a[0] == b[0];
      forall x
        ensures x in a[1..] <==> x in b[1..]
      {
        assert x in a <==> x == a[0] || x in a[1..];
        assert x in b <==> x == b[0] || x in b[1..];
      }
      OrderedItemsAreUnique(a[1..], b[1..]);
      assert a == [a[0]] + a[1..] && b == [b[0]] + b[1..];
    }
  }

  // --------------------------------------------------------------- the loader

  predicate Distinct(paths: seq<string>) {
    forall i, j :: 0 <= i < j < |paths| ==> paths[i] != paths[j]
  }

  /** Captured items in the order they were captured. */
  function Items<Bytes>(src: Source<Bytes>, order: seq<string>): seq<(string, Bytes)>
    requires forall p :: p in order ==> Content(src, p).Some?
  {
    seq(|order|, i requires 0 <= i < |order| => (order[i], Content(src, order[i]).value))
  }

  lemma SortedItemsAreInOrder<Bytes(!new)>(src: Source<Bytes>, order: seq<string>, items: seq<(string, Bytes)>)
    requires Distinct(order) && forall p :: p in order ==> Content(src, p).Some?
    requires items == Sort(Items(src, order), PathLe)
    ensures InOrder(items)
    ensures forall path, content :: (path, content) in items <==> path in order && Content(src, path) == Some(content)
  {
    var raw := Items(src, order);
    PathLeIsTotal<Bytes>();
    SortIsStable(raw, PathLe);
    forall path, content
      ensures (path, content) in items <==> path in order && Content(src, path) == Some(content)
    {
      assert (path, content) in items <==> (path, content) in multiset(items);
      assert (path, content) in raw <==> (path, content) in multiset(raw);
      if path in order && Content(src, path) == Some(content) {
        var i :| 0 <= i < |order| && order[i] == path;
        assert raw[i] == (path, content);
      }
    }
    forall i, j | 0 <= i < j < |items|
      ensures items[i].0 != items[j].0
    {
      NoTwoWithOnePath(src, order, items, i, j);
    }
  }

  lemma NoTwoWithOnePath<Bytes(!new)>(src: Source<Bytes>, order: seq<string>, items: seq<(string, Bytes)>, i: int, j: int)
    requires Distinct(order) && forall p :: p in order ==> Content(src, p).Some?
    requires multiset(items) == multiset(Items(src, order)) && 0 <= i < j < |items|
    ensures items[i].0 != items[j].0
  {
    var raw := Items(src, order);
    assert raw[..|raw|] == raw;
    OnceEach(raw, order, |raw|);
    if items[i].0 == items[j].0 {
      assert items[i] in multiset(raw) && items[j] in multiset(raw);
      assert items[i] in raw && items[j] in raw;
      TwiceMeansTwo(items, i, j);
    }
  }

  lemma TwiceMeansTwo<T>(s: seq<T>, i: int, j: int)
    requires 0 <= i < j < |s| && s[i] == s[j]
    ensures multiset(s)[s[i]] >= 2
  {
    assert s == s[..i] + [s[i]] + s[i + 1..j] + [s[j]] + s[j + 1..];
  }

  lemma {:induction false} OnceEach<Bytes>(raw: seq<(string, Bytes)>, order: seq<string>, n: nat)
    requires |raw| == |order| && Distinct(order) && n <= |raw|
    requires forall k :: 0 <= k < |raw| ==> raw[k].0 == order[k]
    ensures forall x :: multiset(raw[..n])[x] <= 1
  {
    if n > 0 {
      OnceEach(raw, order, n - 1);
      assert raw[..n] == raw[..n - 1] + [raw[n - 1]];
      assert forall k :: 0 <= k < n - 1 ==> raw[k] != raw[n - 1];
      assert raw[n - 1] !in raw[..n - 1];
    }
  }

  /** Between two pops: what is captured is right, what is pending is reachable, and every
      include of a captured file is captured or pending. */
  ghost predicate Exploring<Bytes(!new)>(src: Source<Bytes>, names: set<string>, captured: map<string, Bytes>,
                                         order: seq<string>, pending: seq<string>)
  {
    && Distinct(order) && (forall p :: p in order <==> p in captured)
    && captured.Keys <= names + {src.root}
    && (forall p :: p in captured ==> Reachable(src, p) && Loads(src, p) && Content(src, p) == Some(captured[p]))
    && (forall p :: p in pending ==> Reachable(src, p))
    && (forall p, q :: p in captured && Includes(src, p, q) ==> q in captured || q in pending)
    && (if order == [] then pending == [src.root] else src.root in captured)
  }

  lemma SkipCaptured<Bytes(!new)>(src: Source<Bytes>, names: set<string>, captured: map<string, Bytes>,
                                  order: seq<string>, pending: seq<string>, top: string)
    requires Exploring(src, names, captured, order, pending + [top]) && top in captured
    ensures Exploring(src, names, captured, order, pending)
  {
  }

  lemma CaptureNext<Bytes(!new)>(src: Source<Bytes>, names: set<string>, captured: map<string, Bytes>,
                                 order: seq<string>, pending: seq<string>, top: string, content: Bytes, found: seq<string>)
    requires forall path :: src.read(path).Some? ==> path in names
    requires Exploring(src, names, captured, order, pending + [top]) && top !in captured
    requires Content(src, top) == Some(content) && Included(src, top) == Some(found)
    ensures Exploring(src, names, captured[top := content], order + [top], pending + found)
  {
    assert top in pending + [top];
    assert forall p :: p in pending ==> p in pending + [top];
    assert forall p :: p in pending + [top] ==> p in pending || p == top;
    assert forall p :: p in pending + found <==> p in pending || p in found;
    assert forall p :: p in order + [top] <==> p in order || p == top;
    forall q | q in found
      ensures Reachable(src, q)
    {
      assert Includes(src, top, q);
      IncludedIsReachable(src, top, q);
    }
    assert order == [] ==> top == src.root by {
      assert order == [] ==> (pending + [top])[|pending|] == [src.root][|pending|];
    }
  }

  lemma AllReachableCaptured<Bytes(!new)>(src: Source<Bytes>, names: set<string>, captured: map<string, Bytes>, order: seq<string>)
    requires Exploring(src, names, captured, order, [])
    ensures forall path :: Reachable(src, path) <==> path in captured
  {
    forall path | Reachable(src, path)
      ensures path in captured
    {
      var chain :| IsChain(src, chain, path);
      ClosedHoldsChain(src, captured.Keys, chain, path);
    }
  }

  /** Where files are opened and read, with the paths read so far. */
  class Reader<Bytes(!new)> {
    const src: Source<Bytes>
    ghost var log: seq<string>

    constructor (src: Source<Bytes>)
      ensures this.src == src && log == []
    {
      this.src := src;
      log := [];
    }

    method ReadRoot() returns (content: Option<Bytes>)
      modifies this
      ensures content == src.rootFile && log == old(log) + [src.root]
    {
      log := log + [src.root];
      content := src.rootFile;
    }

    method Read(path: string) returns (content: Option<Bytes>)
      modifies this
      ensures content == src.read(path) && log == old(log) + [path]
    {
      log := log + [path];
      content := src.read(path);
    }
  }

  /** The paths `more` were read after `before`, each once and all reachable. */
  ghost predicate ReadOnce<Bytes(!new)>(src: Source<Bytes>, before: seq<string>, log: seq<string>, more: seq<string>)
  {
    log == before + more && Distinct(more) && forall path :: path in more ==> Reachable(src, path)
  }

  /** Terminates on every include graph over finitely many files. It succeeds exactly when
      every file reachable from the root loads; it then has read each of them once, and
      returns them with their contents in strict path order. When it fails it has read no
      file twice and none that is not reachable. */
  method ReadLayoutFiles<Bytes(!new)>(reader: Reader<Bytes>, ghost names: set<string>)
    returns (r: Captured<Bytes>, ghost paths: seq<string>)
    requires forall path :: reader.src.read(path).Some? ==> path in names
    modifies reader
    ensures r.Files? <==> forall path :: Reachable(reader.src, path) ==> Loads(reader.src, path)
    ensures r.Files? ==> IsCapture(reader.src, r.items)
    ensures r.Failed? ==> Reachable(reader.src, r.path) && !Loads(reader.src, r.path)
    ensures ReadOnce(reader.src, old(reader.log), reader.log, paths)
    ensures r.Files? ==> forall path :: path in paths <==> Reachable(reader.src, path)
  {
    var src := reader.src;
    ghost var log := reader.log;
    var captured: map<string, Bytes>, order: seq<string> := map[], [];
    var pending := [src.root];
    RootIsReachable(src);
    while pending != []
      invariant Exploring(src, names, captured, order, pending) && reader.log == log + order
      decreases (names + {src.root}) - captured.Keys, |pending|
    {
      var logical := pending[|pending| - 1];
      ghost var below := pending[..|pending| - 1];
      assert pending == below + [logical];
      pending := pending[..|pending| - 1];
      if logical in captured {
        SkipCaptured(src, names, captured, order, pending, logical);
        continue;
      }
      assert logical in below + [logical];
      assert order == [] ==> logical == src.root by {
        assert order == [] ==> (below + [logical])[|below|] == [src.root][|below|];
      }
      var content;
      if order == [] {
        content := reader.ReadRoot();
      } else {
        content := reader.Read(logical);
      }
      paths := order + [logical];
      assert reader.log == log + paths;
      if content.None? {
        return Failed(logical), paths;
      }
      var found := src.includes(logical, content.value);
      if found.None? {
        return Failed(logical), paths;
      }
      CaptureNext(src, names, captured, order, pending, logical, content.value, found.value);
      captured := captured[logical := content.value];
      order := order + [logical];
      pending := pending + found.value;
    }
    AllReachableCaptured(src, names, captured, order);
    var sorted := Sort(Items(src, order), PathLe);
    SortedItemsAreInOrder(src, order, sorted);
    return Files(sorted), order;
  }
}
