/** The layered file caches of display data: some hold the output of a probing tool, others
    are built from another cache. */
module DisplayCache {
  import opened Options

  datatype Cache = Xrandr | XrandrJson | Xdpyinfo | InxiJson | InxiMonitors | HwinfoMonitors

  const REGISTERED: seq<Cache> := [Xrandr, XrandrJson, Xdpyinfo, InxiJson, InxiMonitors, HwinfoMonitors]

  /** The cache a derived cache is built from. */
  function Base(c: Cache): Option<Cache> {
    match c
    case XrandrJson => Some(Xrandr)
    case InxiMonitors => Some(InxiJson)
    case _ => None
  }

  /** A cache file: its bytes, when the data in it was probed, and when it was built. */
  datatype Entry = Entry(data: string, probed: nat, built: nat)

  /** Everything outside the caches, which may fail: the tools' output at a moment, the
      builders of derived data (which may record the time), and MD5 (RFC 1321). */
  datatype Tools = Tools(probe: (Cache, nat) -> Option<string>,
                         build: (Cache, string, nat) -> Option<string>,
                         hash: string -> string)

  /** The files, their .md5 files, the order of the file writes since the last clearing, and
      a clock that every build advances. */
  datatype Store = Store(files: map<Cache, Entry>, sums: map<Cache, string>,
                         writes: seq<Cache>, clock: nat)

  // ---------------------------------------------------------------- operations

  function Written(s: Store, tools: Tools, c: Cache, e: Entry): Store {
    s.(files := s.files[c := e], sums := s.sums[c := tools.hash(e.data)], writes := s.writes + [c])
  }

  function Get(s: Store, tools: Tools, c: Cache, useCache: bool): (Store, Option<Entry>)
    decreases Base(c).Some?, 1
  {
    if useCache && c in s.files then (s, Some(s.files[c]))
    else
      var (s1, built) := Build(s, tools, c, useCache);
      if built.None? then (s1, None) else (Written(s1, tools, c, built.value), built)
  }

  /** Bypassing a derived cache also bypasses the one it is built from. */
  function Build(s: Store, tools: Tools, c: Cache, useCache: bool): (Store, Option<Entry>)
    decreases Base(c).Some?, 0
  {
    match Base(c)
    case None =>
      var now := s.clock + 1;
      var output := tools.probe(c, now);
      (s.(clock := now), if output.Some? then Some(Entry(output.value, now, now)) else None)
    case Some(base) =>
      var (s1, below) := Get(s, tools, base, useCache);
      if below.None? then (s1, None)
      else
        var now := s1.clock + 1;
        var data := tools.build(c, below.value.data, now);
        (s1.(clock := now), if data.Some? then Some(Entry(data.value, below.value.probed, now)) else None)
  }

  function Clear(s: Store): Store {
    Store(map[], map[], [], s.clock)
  }

  // ------------------------------------------------------------------- methods

  class DisplayCaches {
    const tools: Tools
    var files: map<Cache, Entry>
    var sums: map<Cache, string>
    var clock: nat
    ghost var writes: seq<Cache>

    ghost function State(): Store
      reads this
    {
      Store(files, sums, writes, clock)
    }

    constructor (tools: Tools)
      ensures State() == Store(map[], map[], [], 0) && this.tools == tools
    {
      this.tools := tools;
      files, sums, clock, writes := map[], map[], 0, [];
    }

    method Builder(c: Cache, useCache: bool) returns (built: Option<Entry>)
      modifies this
      ensures (State(), built) == Build(old(State()), tools, c, useCache)
      decreases Base(c).Some?, 0
    {
      if Base(c).None? {
        clock := clock + 1;
        var output := tools.probe(c, clock);
        if output.None? {
          return None;
        }
        return Some(Entry(output.value, clock, clock));
      }
      var below := Read(Base(c).value, useCache);
      if below.None? {
        return None;
      }
      clock := clock + 1;
      var data := tools.build(c, below.value.data, clock);
      if data.None? {
        return None;
      }
      return Some(Entry(data.value, below.value.probed, clock));
    }

    method Read(c: Cache, useCache: bool) returns (r: Option<Entry>)
      modifies this
      ensures (State(), r) == Get(old(State()), tools, c, useCache)
      decreases Base(c).Some?, 1
    {
      if !useCache || c !in files {
        var built := Builder(c, useCache);
        if built.None? {
          return None;
        }
        files := files[c := built.value];
        sums := sums[c := tools.hash(built.value.data)];
        writes := writes + [c];
      }
      return Some(files[c]);
    }

    /** Removes the files of every registered cache. */
    method ClearAll()
      modifies this
      ensures State() == Clear(old(State()))
    {
      for i := 0 to |REGISTERED|
        invariant clock == old(clock)
        invariant forall k :: 0 <= k < i ==> REGISTERED[k] !in files && REGISTERED[k] !in sums
      {
        var c := REGISTERED[i];
        if c in files {
          files := files - {c};
        }
        if c in sums {
          sums := sums - {c};
        }
      }
      AllRegistered();
      forall c: Cache
        ensures c !in files && c !in sums
      {
        assert c in REGISTERED;
        var k :| 0 <= k < |REGISTERED| && REGISTERED[k] == c;
      }
      assert files == map[] && sums == map[];
      writes := [];
    }
  }

  lemma AllRegistered()
    ensures forall c: Cache :: c in REGISTERED
  {
    var r := REGISTERED;
    assert r[0] == Xrandr && r[1] == XrandrJson && r[2] == Xdpyinfo;
    assert r[3] == InxiJson && r[4] == InxiMonitors && r[5] == HwinfoMonitors;
    forall c: Cache
      ensures c in r
    {
      match c {
        case Xrandr =>
        case XrandrJson =>
        case Xdpyinfo =>
        case InxiJson =>
        case InxiMonitors =>
        case HwinfoMonitors =>
      }
    }
  }

  // ---------------------------------------------------------------- whole runs

  datatype Op = Reading(cache: Cache, useCache: bool) | Clearing

  function Do(s: Store, tools: Tools, op: Op): Store {
    match op
    case Reading(c, useCache) => Get(s, tools, c, useCache).0
    case Clearing => Clear(s)
  }

  function DoAll(s: Store, tools: Tools, ops: seq<Op>): Store
    decreases |ops|
  {
    if ops == [] then s else DoAll(Do(s, tools, ops[0]), tools, ops[1..])
  }

  const NEW := Store(map[], map[], [], 0)

  // ----------------------------------------------------------------- freshness

  /** Nothing in the caches was probed at `t` or before. */
  predicate AllSince(s: Store, t: nat) {
    t <= s.clock && forall c :: c in s.files ==> s.files[c].probed > t
  }

  lemma ProbedGetSince(s: Store, tools: Tools, c: Cache, useCache: bool, t: nat)
    requires AllSince(s, t) && Base(c).None?
    ensures var (s', e) := Get(s, tools, c, useCache);
      AllSince(s', t) && s'.clock >= s.clock && (e.Some? ==> e.value.probed > t)
  {
  }

  lemma OnlyTwoLayers(d: Cache)
    ensures Base(d).Some? ==> Base(Base(d).value).None?
  {
  }

  lemma GetSince(s: Store, tools: Tools, c: Cache, useCache: bool, t: nat)
    requires AllSince(s, t)
    ensures var (s', e) := Get(s, tools, c, useCache);
      AllSince(s', t) && s'.clock >= s.clock && (e.Some? ==> e.value.probed > t)
  {
    if Base(c).None? {
      ProbedGetSince(s, tools, c, useCache, t);
    } else if !(useCache && c in s.files) {
      OnlyTwoLayers(c);
      ProbedGetSince(s, tools, Base(c).value, useCache, t);
      DerivedBuildSince(s, tools, c, useCache, t);
    }
  }

  lemma DerivedBuildSince(s: Store, tools: Tools, c: Cache, useCache: bool, t: nat)
    requires Base(c).Some?
    requires var below := Get(s, tools, Base(c).value, useCache);
      AllSince(below.0, t) && below.0.clock >= s.clock && (below.1.Some? ==> below.1.value.probed > t)
    ensures var built := Build(s, tools, c, useCache);
      AllSince(built.0, t) && built.0.clock >= s.clock && (built.1.Some? ==> built.1.value.probed > t)
  {
  }

  lemma {:induction false} RunSince(s: Store, tools: Tools, ops: seq<Op>, t: nat)
    requires AllSince(s, t)
    ensures AllSince(DoAll(s, tools, ops), t)
    decreases |ops|
  {
    if ops != [] {
      if ops[0].Reading? {
        GetSince(s, tools, ops[0].cache, ops[0].useCache, t);
      }
      RunSince(Do(s, tools, ops[0]), tools, ops[1..], t);
    }
  }

  /** Whatever was in the caches and however they are used afterwards, no read returns data
      probed before the last clearing. */
  lemma NoStaleReadAfterClear(s: Store, tools: Tools, ops: seq<Op>, c: Cache, useCache: bool)
    ensures var (_, e) := Get(DoAll(Clear(s), tools, ops), tools, c, useCache);
      e.Some? ==> e.value.probed > s.clock
  {
    RunSince(Clear(s), tools, ops, s.clock);
    GetSince(DoAll(Clear(s), tools, ops), tools, c, useCache, s.clock);
  }

  /** A read that bypasses the cache returns data probed during that read: the tool's output
      of a moment within it or, for a derived cache, what was built from such an output. */
  lemma UncachedReadProbes(s: Store, tools: Tools, c: Cache)
    ensures var (s', r) := Get(s, tools, c, false);
      r.Some? ==>
        var e := r.value;
        && s.clock < e.probed <= s'.clock && c in s'.files && s'.files[c] == e
        && (match Base(c)
            case None => tools.probe(c, e.probed) == Some(e.data)
            case Some(base) =>
              && tools.probe(base, e.probed).Some?
              && tools.build(c, tools.probe(base, e.probed).value, e.built) == Some(e.data))
  {
    OnlyTwoLayers(c);
  }

  // ------------------------------------------------------ layers in agreement

  /** Which of two caches was written last. */
  function LastWritten(writes: seq<Cache>, a: Cache, b: Cache): Option<Cache> {
    if writes == [] then None
    else
      var last := writes[|writes| - 1];
      if last == a || last == b then Some(last) else LastWritten(writes[..|writes| - 1], a, b)
  }

  /** A probed file holds its tool's output of that moment; a derived file holds what was
      built from its base's output of that moment, is never newer than its base file, and
      is as new exactly when it was written after it. */
  ghost predicate EntryOk(s: Store, tools: Tools, c: Cache)
    requires c in s.files
  {
    var e := s.files[c];
    && e.probed <= s.clock
    && c in s.writes
    && match Base(c)
       case None => tools.probe(c, e.probed) == Some(e.data)
       case Some(base) =>
         && base in s.files && e.probed <= s.files[base].probed
         && tools.probe(base, e.probed).Some?
         && tools.build(c, tools.probe(base, e.probed).value, e.built) == Some(e.data)
         && (e.probed == s.files[base].probed <==> LastWritten(s.writes, c, base) == Some(c))
  }

  ghost predicate Consistent(s: Store, tools: Tools) {
    && (forall c {:trigger EntryOk(s, tools, c)} :: c in s.files ==> EntryOk(s, tools, c))
    && s.sums.Keys == s.files.Keys
    && (forall c :: c in s.files ==> s.sums[c] == tools.hash(s.files[c].data))
  }

  /** Writing one cache leaves the others as good as they were, those built from it too. */
  lemma OtherEntryStays(s: Store, tools: Tools, c: Cache, e: Entry, d: Cache)
    requires d in s.files && d != c && EntryOk(s, tools, d)
    requires Base(d) == Some(c) ==> e.probed > s.clock
    ensures EntryOk(Written(s.(clock := s.clock + 1), tools, c, e), tools, d)
  {
  }

  lemma WriteProbed(s: Store, tools: Tools, c: Cache, e: Entry)
    requires Consistent(s, tools) && Base(c).None?
    requires e.probed == s.clock + 1 && tools.probe(c, e.probed) == Some(e.data)
    ensures Consistent(Written(s.(clock := s.clock + 1), tools, c, e), tools)
  {
    var s' := Written(s.(clock := s.clock + 1), tools, c, e);
    forall d | d in s'.files
      ensures EntryOk(s', tools, d)
    {
      if d != c {
        OtherEntryStays(s, tools, c, e, d);
      }
    }
  }

  lemma DerivedEntryOk(s: Store, tools: Tools, c: Cache, e: Entry)
    requires Base(c).Some? && Base(c).value in s.files && EntryOk(s, tools, Base(c).value)
    requires var below := s.files[Base(c).value];
      && e.probed == below.probed && tools.build(c, below.data, e.built) == Some(e.data)
    ensures EntryOk(Written(s.(clock := s.clock + 1), tools, c, e), tools, c)
  {
  }

  lemma WriteDerived(s: Store, tools: Tools, c: Cache, e: Entry)
    requires Consistent(s, tools) && Base(c).Some? && Base(c).value in s.files
    requires var below := s.files[Base(c).value];
      && e.probed == below.probed && tools.build(c, below.data, e.built) == Some(e.data)
    ensures Consistent(Written(s.(clock := s.clock + 1), tools, c, e), tools)
  {
    var s' := Written(s.(clock := s.clock + 1), tools, c, e);
    assert EntryOk(s', tools, c) by {
      assert EntryOk(s, tools, Base(c).value);
      DerivedEntryOk(s, tools, c, e);
    }
    forall d | d in s'.files
      ensures EntryOk(s', tools, d)
    {
      if d != c {
        OnlyTwoLayers(d);
        assert EntryOk(s, tools, d);
        OtherEntryStays(s, tools, c, e, d);
      }
    }
    assert s'.sums.Keys == s'.files.Keys;
  }

  lemma TickKeeps(s: Store, tools: Tools)
    requires Consistent(s, tools)
    ensures Consistent(s.(clock := s.clock + 1), tools)
  {
    var s' := s.(clock := s.clock + 1);
    forall c | c in s'.files
      ensures EntryOk(s', tools, c)
    {
      assert EntryOk(s, tools, c);
    }
  }

  lemma ProbedGetKeeps(s: Store, tools: Tools, c: Cache, useCache: bool)
    requires Consistent(s, tools) && Base(c).None?
    ensures var (s', e) := Get(s, tools, c, useCache);
      Consistent(s', tools) && (e.Some? ==> c in s'.files && s'.files[c] == e.value)
  {
    if !(useCache && c in s.files) {
      TickKeeps(s, tools);
      var built := Build(s, tools, c, useCache).1;
      if built.Some? {
        WriteProbed(s, tools, c, built.value);
      }
    }
  }

  lemma GetKeeps(s: Store, tools: Tools, c: Cache, useCache: bool)
    requires Consistent(s, tools)
    ensures var (s', e) := Get(s, tools, c, useCache);
      Consistent(s', tools) && (e.Some? ==> c in s'.files && s'.files[c] == e.value)
  {
    if Base(c).None? {
      ProbedGetKeeps(s, tools, c, useCache);
    } else if !(useCache && c in s.files) {
      var base := Base(c).value;
      assert Base(base).None?;
      ProbedGetKeeps(s, tools, base, useCache);
      var s1 := Get(s, tools, base, useCache).0;
      TickKeeps(s1, tools);
      var built := Build(s, tools, c, useCache).1;
      if built.Some? {
        WriteDerived(s1, tools, c, built.value);
      }
    }
  }

  lemma {:induction false} RunKeeps(s: Store, tools: Tools, ops: seq<Op>)
    requires Consistent(s, tools)
    ensures Consistent(DoAll(s, tools, ops), tools)
    decreases |ops|
  {
    if ops != [] {
      if ops[0].Reading? {
        GetKeeps(s, tools, ops[0].cache, ops[0].useCache);
      }
      RunKeeps(Do(s, tools, ops[0]), tools, ops[1..]);
    }
  }

  /** After any run of reads and clearings, with any of the tools failing at any time: a
      derived file is never newer than its base file; it is what its builder makes of the
      base file exactly as long as the base file was not written again after it, and older
      otherwise; and every .md5 file matches its cache file. */
  lemma LayersAgreeOverEveryRun(tools: Tools, ops: seq<Op>, c: Cache)
    requires c in DoAll(NEW, tools, ops).files
    ensures var s := DoAll(NEW, tools, ops);
      && c in s.sums && s.sums[c] == tools.hash(s.files[c].data)
      && (Base(c).Some? ==>
            var base := Base(c).value;
            && base in s.files
            && (if LastWritten(s.writes, c, base) == Some(c)
                then && s.files[c].probed == s.files[base].probed
                     && tools.build(c, s.files[base].data, s.files[c].built) == Some(s.files[c].data)
                else s.files[c].probed < s.files[base].probed))
  {
    RunKeeps(NEW, tools, ops);
    var s := DoAll(NEW, tools, ops);
    assert EntryOk(s, tools, c);
    if Base(c).Some? {
      assert EntryOk(s, tools, Base(c).value);
    }
  }

  /** A derived cache falls behind its base exactly by a direct uncached read of the base
      that succeeds, or by an uncached read of its own that refreshes the base and then fails
      to build. */
  lemma FallsBehindIff(s: Store, tools: Tools, c: Cache, op: Op)
    requires Consistent(s, tools) && Base(c).Some? && c in s.files && Base(c).value in s.files
    requires s.files[c].probed == s.files[Base(c).value].probed
    ensures var s' := Do(s, tools, op);
      var base := Base(c).value;
      c in s'.files && base in s'.files && s'.files[c].probed != s'.files[base].probed
      <==>
        && op.Reading? && !op.useCache
        && Get(s, tools, base, false).1.Some?
        && (op.cache == base || (op.cache == c && Get(s, tools, c, false).1.None?))
  {
    var base := Base(c).value;
    OnlyTwoLayers(c);
    assert EntryOk(s, tools, c);
    assert EntryOk(s, tools, base);
    if op.Reading? && op.cache != c && op.cache != base {
      GetTouchesItsOwn(s, tools, op.cache, op.useCache, c);
      GetTouchesItsOwn(s, tools, op.cache, op.useCache, base);
    }
  }

  lemma ProbedGetTouchesItsOwn(s: Store, tools: Tools, c: Cache, useCache: bool, d: Cache)
    requires Base(c).None? && d != c
    ensures var s' := Get(s, tools, c, useCache).0;
      (d in s'.files <==> d in s.files) && (d in s.files ==> s'.files[d] == s.files[d])
  {
  }

  lemma GetTouchesItsOwn(s: Store, tools: Tools, c: Cache, useCache: bool, d: Cache)
    requires d != c && Base(c) != Some(d)
    ensures var s' := Get(s, tools, c, useCache).0;
      (d in s'.files <==> d in s.files) && (d in s.files ==> s'.files[d] == s.files[d])
  {
    if Base(c).None? {
      ProbedGetTouchesItsOwn(s, tools, c, useCache, d);
    } else if !(useCache && c in s.files) {
      OnlyTwoLayers(c);
      ProbedGetTouchesItsOwn(s, tools, Base(c).value, useCache, d);
      var s1 := Get(s, tools, Base(c).value, useCache).0;
      assert Build(s, tools, c, useCache).0.files == s1.files;
    }
  }

  // ------------------------------------------------------- using the cache

  /** An operation that leaves the file of `c` alone while it is there: no clearing, and no
      uncached read of `c` or of a cache built from it. */
  predicate Spares(op: Op, c: Cache) {
    op.Reading? && (op.useCache || (op.cache != c && Base(op.cache) != Some(c)))
  }

  lemma CachedGetKeeps(s: Store, tools: Tools, d: Cache, c: Cache)
    requires c in s.files
    ensures var s' := Get(s, tools, d, true).0; c in s'.files && s'.files[c] == s.files[c]
  {
    if Base(d) != Some(c) && d != c {
      GetTouchesItsOwn(s, tools, d, true, c);
    }
  }

  /** Once a file is there, cached reads return it as it is and write nothing, after any run of
      operations that spare it, whatever the tools do meanwhile. */
  lemma {:induction false} CachedReadHits(s: Store, tools: Tools, ops: seq<Op>, c: Cache)
    requires c in s.files && forall op :: op in ops ==> Spares(op, c)
    ensures var s' := DoAll(s, tools, ops); Get(s', tools, c, true) == (s', Some(s.files[c]))
    decreases |ops|
  {
    if ops != [] {
      var op := ops[0];
      assert op in ops;
      if op.useCache {
        CachedGetKeeps(s, tools, op.cache, c);
      } else {
        GetTouchesItsOwn(s, tools, op.cache, false, c);
      }
      CachedReadHits(Do(s, tools, op), tools, ops[1..], c);
    }
  }

  /** A cached read of a missing file asks the tool or, for a derived cache whose base file is
      there, builds from that file without probing. */
  lemma CachedReadFills(s: Store, tools: Tools, c: Cache)
    requires c !in s.files
    ensures var (s', r) := Get(s, tools, c, true);
      var now := s.clock + 1;
      && (Base(c).None? ==>
            r == if tools.probe(c, now).Some? then Some(Entry(tools.probe(c, now).value, now, now)) else None)
      && (Base(c).Some? && Base(c).value in s.files ==>
            var below := s.files[Base(c).value];
            var data := tools.build(c, below.data, now);
            && r == (if data.Some? then Some(Entry(data.value, below.probed, now)) else None)
            && Base(c).value in s'.files && s'.files[Base(c).value] == below)
  {
    if Base(c).Some? {
      OnlyTwoLayers(c);
    }
  }

  /** A read that fails leaves the cache's own file as it was. */
  lemma FailedReadKeeps(s: Store, tools: Tools, c: Cache, useCache: bool)
    requires Get(s, tools, c, useCache).1.None?
    ensures var s' := Get(s, tools, c, useCache).0;
      (c in s'.files <==> c in s.files) && (c in s.files ==> s'.files[c] == s.files[c])
  {
    if Base(c).Some? {
      OnlyTwoLayers(c);
      ProbedGetTouchesItsOwn(s, tools, Base(c).value, useCache, c);
    }
  }

  /** The screen list is built from xrandr's output and the inxi monitors from inxi's; all
      other caches hold what their own tool said. */
  lemma ReadsItsTool(s: Store, tools: Tools, c: Cache)
    ensures var r := Get(s, tools, c, false).1;
      r.Some? ==>
        var e := r.value;
        match c
        case XrandrJson =>
          && tools.probe(Xrandr, e.probed).Some?
          && tools.build(XrandrJson, tools.probe(Xrandr, e.probed).value, e.built) == Some(e.data)
        case InxiMonitors =>
          && tools.probe(InxiJson, e.probed).Some?
          && tools.build(InxiMonitors, tools.probe(InxiJson, e.probed).value, e.built) == Some(e.data)
        case _ => tools.probe(c, e.probed) == Some(e.data)
  {
    UncachedReadProbes(s, tools, c);
  }
}
