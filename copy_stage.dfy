/**
  The stateful part of the copy stage: the output file tree, the module-level
  watch map (source -> destination), the registered watchers, and the three
  operations that change them: running a pattern, handling a watch event and
  the whole copy task.
 */
module CopyStage {
  import opened Wrappers
  import opened Paths
  import opened CopyResolve

  type Content = string

  /** The change kinds the watcher reports. */
  datatype ChangeType = Add | Change | Unlink

  /** What the matcher returned for a pattern's query: its entries, or the error it rejected with. */
  datatype GlobOutcome = Matched(entries: seq<Entry>) | GlobError(message: string)

  /** The file system's answers for one pattern: the stat of its `absoluteFrom` and the glob result. */
  datatype Probe = Probe(stat: Stat, glob: GlobOutcome)

  datatype CopyConfig = CopyConfig(patterns: Option<seq<CopyPattern>>, concurrency: Option<int>)

  datatype BuildConfig = BuildConfig(copy: CopyConfig, outDir: Path, sourceDir: Path)

  datatype TaskOptions = TaskOptions(appDirectory: Path, watch: bool)

  // ---------------------------------------------------------------------------
  // mappings of one pattern

  /** The mappings of the matched entries that are regular files, in match order. */
  function Mappings(r: Resolved, to: string, outDir: Path, entries: seq<Entry>): (ms: seq<Mapping>)
    ensures |ms| <= |entries|
  {
    if entries == [] then []
    else
      var init := entries[..|entries| - 1];
      var e := entries[|entries| - 1];
      Mappings(r, to, outDir, init) + (if e.isFile then [MapEntry(r, to, outDir, e)] else [])
  }

  /**
    Exactly the regular files among the matches are copied: every mapping
    comes from a matched regular file, and every matched regular file has one.
   */
  lemma {:induction false} MappingsOfFiles(r: Resolved, to: string, outDir: Path, entries: seq<Entry>)
    ensures forall m :: m in Mappings(r, to, outDir, entries) ==>
      exists e :: e in entries && e.isFile && m == MapEntry(r, to, outDir, e)
    ensures forall e :: e in entries && e.isFile ==> MapEntry(r, to, outDir, e) in Mappings(r, to, outDir, entries)
  {
    if entries != [] {
      var init := entries[..|entries| - 1];
      assert entries == init + [entries[|entries| - 1]];
      MappingsOfFiles(r, to, outDir, init);
    }
  }

  /** An entry that is not a regular file adds no mapping. */
  lemma NonFilesIgnored(r: Resolved, to: string, outDir: Path, entries: seq<Entry>, e: Entry)
    requires !e.isFile
    ensures Mappings(r, to, outDir, entries + [e]) == Mappings(r, to, outDir, entries)
  {
    assert (entries + [e])[..|entries|] == entries;
  }

  /** The mappings a pattern produces: none when its glob failed. */
  function PatternMappings(pattern: CopyPattern, opts: RunOptions, probe: Probe): (ms: seq<Mapping>)
    ensures probe.glob.GlobError? ==> ms == []
    ensures probe.glob.Matched? ==> |ms| <= |probe.glob.entries|
  {
    match probe.glob
    case GlobError(_) => []
    case Matched(entries) => Mappings(ResolvePattern(pattern, opts, probe.stat), pattern.to, opts.outDir, entries)
  }

  // ---------------------------------------------------------------------------
  // copying onto the file tree

  /** `fs.copy(src, dst)`: the destination takes the source's content; a missing source changes nothing. */
  function CopyOne(files: map<Path, Content>, m: Mapping): (r: map<Path, Content>)
    ensures m.src in files ==> r.Keys == files.Keys + {m.dst} && r[m.dst] == files[m.src]
    ensures forall p :: p != m.dst ==> (p in r <==> p in files) && (p in r ==> r[p] == files[p])
    ensures m.src !in files ==> r == files
  {
    if m.src in files then files[m.dst := files[m.src]] else files
  }

  /** The mappings applied in order. */
  function CopyAll(files: map<Path, Content>, ms: seq<Mapping>): (r: map<Path, Content>)
    ensures files.Keys <= r.Keys
  {
    if ms == [] then files else CopyOne(CopyAll(files, ms[..|ms| - 1]), ms[|ms| - 1])
  }

  /** The watch map after recording the mappings in order (a later mapping of a source wins). */
  function RecordAll(watchMap: map<Path, Path>, ms: seq<Mapping>): (r: map<Path, Path>)
    ensures watchMap.Keys <= r.Keys
  {
    if ms == [] then watchMap else RecordAll(watchMap, ms[..|ms| - 1])[ms[|ms| - 1].src := ms[|ms| - 1].dst]
  }

  /** Two trees agree at `p`: both lack it, or both hold the same content there. */
  predicate AgreeAt(a: map<Path, Content>, b: map<Path, Content>, p: Path)
  {
    (p in a <==> p in b) && (p in a ==> a[p] == b[p])
  }

  /** No mapping writes onto a path that some mapping reads from. */
  predicate Disjoint(ms: seq<Mapping>)
  {
    forall i, j :: 0 <= i < |ms| && 0 <= j < |ms| ==> ms[i].dst != ms[j].src
  }

  predicate IsDestination(ms: seq<Mapping>, p: Path)
  {
    exists i :: 0 <= i < |ms| && ms[i].dst == p
  }

  /** The content the last mapping onto `p` whose source exists would write there. */
  function LastWrite(files: map<Path, Content>, ms: seq<Mapping>, p: Path): Option<Content>
  {
    if ms == [] then None
    else
      var m := ms[|ms| - 1];
      if m.dst == p && m.src in files then Some(files[m.src]) else LastWrite(files, ms[..|ms| - 1], p)
  }

  /** A path that no mapping writes to is left as it was. */
  lemma {:induction false} CopyAllFrame(files: map<Path, Content>, ms: seq<Mapping>, p: Path)
    requires !IsDestination(ms, p)
    ensures AgreeAt(CopyAll(files, ms), files, p)
  {
    if ms != [] {
      var init := ms[..|ms| - 1];
      assert forall i :: 0 <= i < |init| ==> init[i] == ms[i];
      CopyAllFrame(files, init, p);
    }
  }

  /**
    Last writer wins: when no mapping writes onto a source, every path holds
    what the last mapping onto it with an existing source copied, and is
    otherwise unchanged.
   */
  lemma {:induction false} CopyAllLastWriter(files: map<Path, Content>, ms: seq<Mapping>, p: Path)
    requires Disjoint(ms)
    ensures LastWrite(files, ms, p).Some? ==> p in CopyAll(files, ms) && CopyAll(files, ms)[p] == LastWrite(files, ms, p).value
    ensures LastWrite(files, ms, p).None? ==> AgreeAt(CopyAll(files, ms), files, p)
  {
    if ms != [] {
      var init := ms[..|ms| - 1];
      var m := ms[|ms| - 1];
      assert Disjoint(init) by {
        forall i, j | 0 <= i < |init| && 0 <= j < |init| ensures init[i].dst != init[j].src {
          assert init[i] == ms[i] && init[j] == ms[j];
        }
      }
      CopyAllLastWriter(files, init, p);
      CopyAllLastWriter(files, init, m.src);
      assert forall i :: 0 <= i < |init| ==> init[i] == ms[i];
      LastWriteIsDestination(files, init, m.src);
    }
  }

  /** A path with a last write is the destination of some mapping. */
  lemma {:induction false} LastWriteIsDestination(files: map<Path, Content>, ms: seq<Mapping>, p: Path)
    ensures LastWrite(files, ms, p).Some? ==> IsDestination(ms, p)
  {
    if ms != [] {
      var init := ms[..|ms| - 1];
      LastWriteIsDestination(files, init, p);
      if LastWrite(files, init, p).Some? && IsDestination(init, p) {
        var i :| 0 <= i < |init| && init[i].dst == p;
        assert ms[i].dst == p;
      }
    }
  }

  /** LastWrite reads the tree only at the sources. */
  lemma {:induction false} LastWriteSources(a: map<Path, Content>, b: map<Path, Content>, ms: seq<Mapping>, p: Path)
    requires forall i :: 0 <= i < |ms| ==> AgreeAt(a, b, ms[i].src)
    ensures LastWrite(a, ms, p) == LastWrite(b, ms, p)
  {
    if ms != [] {
      var init := ms[..|ms| - 1];
      assert forall i :: 0 <= i < |init| ==> init[i] == ms[i];
      LastWriteSources(a, b, init, p);
      assert AgreeAt(a, b, ms[|ms| - 1].src);
    }
  }

  /** Copying the same mappings twice gives the same tree as copying them once. */
  lemma CopyAllIdempotent(files: map<Path, Content>, ms: seq<Mapping>)
    requires Disjoint(ms)
    ensures CopyAll(CopyAll(files, ms), ms) == CopyAll(files, ms)
  {
    var once := CopyAll(files, ms);
    var twice := CopyAll(once, ms);
    forall i | 0 <= i < |ms| ensures AgreeAt(once, files, ms[i].src) {
      assert !IsDestination(ms, ms[i].src);
      CopyAllFrame(files, ms, ms[i].src);
    }
    forall p ensures AgreeAt(twice, once, p) {
      LastWriteSources(once, files, ms, p);
      CopyAllLastWriter(files, ms, p);
      CopyAllLastWriter(once, ms, p);
    }
    assert twice.Keys == once.Keys by {
      forall p ensures p in twice <==> p in once {
        assert AgreeAt(twice, once, p);
      }
    }
    forall p | p in twice ensures twice[p] == once[p] {
      assert AgreeAt(twice, once, p);
    }
  }

  lemma {:induction false} CopyAllAppend(files: map<Path, Content>, a: seq<Mapping>, b: seq<Mapping>)
    ensures CopyAll(files, a + b) == CopyAll(CopyAll(files, a), b)
    decreases |b|
  {
    if b == [] {
      assert a + b == a;
    } else {
      assert (a + b)[..|a + b| - 1] == a + b[..|b| - 1];
      CopyAllAppend(files, a, b[..|b| - 1]);
    }
  }

  lemma {:induction false} RecordAllAppend(watchMap: map<Path, Path>, a: seq<Mapping>, b: seq<Mapping>)
    ensures RecordAll(watchMap, a + b) == RecordAll(RecordAll(watchMap, a), b)
    decreases |b|
  {
    if b == [] {
      assert a + b == a;
    } else {
      assert (a + b)[..|a + b| - 1] == a + b[..|b| - 1];
      RecordAllAppend(watchMap, a, b[..|b| - 1]);
    }
  }

  /** Recording adds exactly the mapped sources as keys and never drops one. */
  lemma {:induction false} RecordAllKeys(watchMap: map<Path, Path>, ms: seq<Mapping>)
    ensures RecordAll(watchMap, ms).Keys == watchMap.Keys + set i | 0 <= i < |ms| :: ms[i].src
  {
    if ms != [] {
      var init := ms[..|ms| - 1];
      RecordAllKeys(watchMap, init);
      var s1 := set i | 0 <= i < |init| :: init[i].src;
      var s2 := set i | 0 <= i < |ms| :: ms[i].src;
      assert s2 == s1 + {ms[|ms| - 1].src} by {
        forall x | x in s2 ensures x in s1 + {ms[|ms| - 1].src} {
          var i :| 0 <= i < |ms| && ms[i].src == x;
          if i < |init| { assert init[i].src == x; }
        }
        forall x | x in s1 ensures x in s2 {
          var i :| 0 <= i < |init| && init[i].src == x;
          assert ms[i].src == x;
        }
      }
    }
  }

  /** After recording, a source maps to the destination of its last mapping. */
  lemma {:induction false} RecordAllLookup(watchMap: map<Path, Path>, ms: seq<Mapping>, k: nat)
    requires k < |ms|
    requires forall j :: k < j < |ms| ==> ms[j].src != ms[k].src
    ensures ms[k].src in RecordAll(watchMap, ms) && RecordAll(watchMap, ms)[ms[k].src] == ms[k].dst
  {
    if k < |ms| - 1 {
      var init := ms[..|ms| - 1];
      assert init[k] == ms[k];
      RecordAllLookup(watchMap, init, k);
    }
  }

  // ---------------------------------------------------------------------------
  // watch events

  /**
    The watch handler on the tree: an untracked path changes nothing, `unlink`
    removes the mapped destination, any other change copies the source onto it.
   */
  function Dispatch(files: map<Path, Content>, watchMap: map<Path, Path>, changed: Path, change: ChangeType): (r: map<Path, Content>)
    ensures changed !in watchMap ==> r == files
    ensures changed in watchMap ==> forall p :: p != watchMap[changed] ==> AgreeAt(r, files, p)
    ensures changed in watchMap && change == Unlink ==> watchMap[changed] !in r
    ensures changed in watchMap && change != Unlink && changed in files ==>
      watchMap[changed] in r && r[watchMap[changed]] == files[changed]
    ensures changed in watchMap && change != Unlink && changed !in files ==> r == files
  {
    if changed !in watchMap then files
    else if change == Unlink then files - {watchMap[changed]}
    else CopyOne(files, Mapping(changed, watchMap[changed]))
  }

  /**
    Watch round trip: after a run copied and recorded the mappings, editing a
    source and reporting the change brings its new content to the destination,
    and reporting its removal deletes the destination.
   */
  lemma WatchRoundTrip(files: map<Path, Content>, watchMap: map<Path, Path>, ms: seq<Mapping>, k: nat, c: Content)
    requires k < |ms|
    requires forall j :: k < j < |ms| ==> ms[j].src != ms[k].src
    ensures
      var tree := CopyAll(files, ms);
      var wm := RecordAll(watchMap, ms);
      && ms[k].dst in Dispatch(tree[ms[k].src := c], wm, ms[k].src, Change)
      && Dispatch(tree[ms[k].src := c], wm, ms[k].src, Change)[ms[k].dst] == c
      && ms[k].dst !in Dispatch(tree, wm, ms[k].src, Unlink)
  {
    RecordAllLookup(watchMap, ms, k);
  }

  // ---------------------------------------------------------------------------
  // the copy task

  /** The pool's ceiling: the configured value, or 100 when it is unset or 0. */
  function Concurrency(configured: Option<int>): (n: int)
    ensures n != 0
    ensures configured.Some? && configured.value != 0 ==> n == configured.value
    ensures configured.None? || configured.value == 0 ==> n == 100
  {
    if configured.Some? && configured.value != 0 then configured.value else 100
  }

  /** A task has work only when `patterns` is present and non-empty. */
  predicate HasPatterns(copy: CopyConfig)
  {
    copy.patterns.Some? && |copy.patterns.value| > 0
  }

  function TaskRunOptions(build: BuildConfig, options: TaskOptions): RunOptions
  {
    RunOptions(options.appDirectory, build.outDir, build.sourceDir, options.watch)
  }

  /** The mappings of all patterns, pattern by pattern, in order. */
  function TaskMappings(patterns: seq<CopyPattern>, opts: RunOptions, probes: seq<Probe>): (ms: seq<Mapping>)
    requires |probes| == |patterns|
    ensures (forall i :: 0 <= i < |probes| ==> probes[i].glob.GlobError?) ==> ms == []
  {
    if patterns == [] then []
    else
      var n := |patterns| - 1;
      TaskMappings(patterns[..n], opts, probes[..n]) + PatternMappings(patterns[n], opts, probes[n])
  }

  /** The first glob failure among the patterns, in order. */
  function FirstError(probes: seq<Probe>): (r: Option<string>)
    ensures r.None? <==> forall i :: 0 <= i < |probes| ==> probes[i].glob.Matched?
    ensures r.Some? ==> exists i :: 0 <= i < |probes| && probes[i].glob == GlobError(r.value)
  {
    if probes == [] then None
    else if probes[0].glob.GlobError? then Some(probes[0].glob.message)
    else
      var r := FirstError(probes[1..]);
      assert forall i :: 1 <= i < |probes| ==> probes[i] == probes[1..][i - 1];
      r
  }

  /** What the task logs: "copy error: " and the first failure's message, or nothing. */
  function TaskLog(probes: seq<Probe>): Option<string>
  {
    match FirstError(probes)
    case None => None
    case Some(msg) => Some("copy error: " + msg)
  }

  /**
    The task logs nothing exactly when every glob succeeded; otherwise it logs
    "copy error: " followed by the message of one of the failures.
   */
  lemma TaskLogReports(probes: seq<Probe>)
    ensures TaskLog(probes).None? <==> forall i :: 0 <= i < |probes| ==> probes[i].glob.Matched?
    ensures TaskLog(probes).Some? ==>
      var r := TaskLog(probes).value;
      && |r| >= 12 && r[..12] == "copy error: "
      && exists i :: 0 <= i < |probes| && probes[i].glob == GlobError(r[12..])
  {
  }

  /** Running the same task twice over unchanged sources leaves the tree as one run does. */
  lemma TaskIdempotent(files: map<Path, Content>, patterns: seq<CopyPattern>, opts: RunOptions, probes: seq<Probe>)
    requires |probes| == |patterns|
    requires Disjoint(TaskMappings(patterns, opts, probes))
    ensures
      var ms := TaskMappings(patterns, opts, probes);
      CopyAll(CopyAll(files, ms), ms) == CopyAll(files, ms)
  {
    CopyAllIdempotent(files, TaskMappings(patterns, opts, probes));
  }

  /** The source's module-level state: the output tree, the watch map and the registered watchers. */
  class Stage {
    var files: map<Path, Content>
    var watchMap: map<Path, Path>
    var watchers: seq<set<Path>>

    /** Every watcher watches paths the watch map tracks (the map only ever grows). */
    ghost predicate Valid()
      reads this
    {
      forall i :: 0 <= i < |watchers| ==> watchers[i] <= watchMap.Keys
    }

    /** A path some registered watcher watches is tracked, so an event on it is never ignored. */
    lemma WatchedPathHandled(i: nat, changed: Path, change: ChangeType)
      requires Valid() && i < |watchers| && changed in watchers[i]
      ensures changed in watchMap
      ensures change == Unlink ==> watchMap[changed] !in Dispatch(files, watchMap, changed, change)
      ensures change != Unlink && changed in files ==>
        Dispatch(files, watchMap, changed, change)[watchMap[changed]] == files[changed]
    {
    }

    constructor (initial: map<Path, Content>)
      ensures Valid()
      ensures files == initial && watchMap == map[] && watchers == []
    {
      files := initial;
      watchMap := map[];
      watchers := [];
    }

    /** The per-entry loop of `runPatterns`: copy every matched regular file, recording it when watching. */
    method RunEntries(r: Resolved, to: string, outDir: Path, watch: bool, entries: seq<Entry>)
      requires Valid()
      modifies this
      ensures Valid()
      ensures files == CopyAll(old(files), Mappings(r, to, outDir, entries))
      ensures watchMap == if watch then RecordAll(old(watchMap), Mappings(r, to, outDir, entries)) else old(watchMap)
      ensures watchers == old(watchers)
    {
      var i := 0;
      while i < |entries|
        invariant 0 <= i <= |entries|
        invariant files == CopyAll(old(files), Mappings(r, to, outDir, entries[..i]))
        invariant watchMap == if watch then RecordAll(old(watchMap), Mappings(r, to, outDir, entries[..i])) else old(watchMap)
        invariant watchers == old(watchers)
        invariant old(watchMap).Keys <= watchMap.Keys
      {
        var e := entries[i];
        MappingsSnoc(r, to, outDir, entries, i);
        if e.isFile {
          var m := MapEntry(r, to, outDir, e);
          Snoc(old(files), old(watchMap), Mappings(r, to, outDir, entries[..i]), m);
          if watch {
            watchMap := watchMap[m.src := m.dst];
          }
          files := CopyOne(files, m);
          assert files == CopyAll(old(files), Mappings(r, to, outDir, entries[..i + 1]));
        } else {
          assert Mappings(r, to, outDir, entries[..i + 1]) == Mappings(r, to, outDir, entries[..i]);
        }
        i := i + 1;
      }
      assert entries[..i] == entries;
    }

    /**
      `runPatterns` for one pattern: resolve it, then copy its matches. A
      rejected glob ends the run with its message before anything is copied.
     */
    method RunPattern(pattern: CopyPattern, opts: RunOptions, probe: Probe) returns (err: Option<string>)
      requires Valid()
      modifies this
      ensures Valid()
      ensures err == if probe.glob.GlobError? then Some(probe.glob.message) else None
      ensures files == CopyAll(old(files), PatternMappings(pattern, opts, probe))
      ensures watchMap == if opts.watch then RecordAll(old(watchMap), PatternMappings(pattern, opts, probe)) else old(watchMap)
      ensures watchers == old(watchers)
    {
      var r := ResolvePattern(pattern, opts, probe.stat);
      match probe.glob
      case GlobError(msg) =>
        err := Some(msg);
      case Matched(entries) =>
        RunEntries(r, pattern.to, opts.outDir, opts.watch, entries);
        err := None;
    }

    /** `watchCopyFiles`: register one watcher over the paths the watch map holds now. */
    method WatchCopyFiles()
      requires Valid()
      modifies this
      ensures Valid()
      ensures watchers == old(watchers) + [watchMap.Keys]
      ensures files == old(files) && watchMap == old(watchMap)
    {
      watchers := watchers + [watchMap.Keys];
    }

    /** The watch callback for one event; the watch map itself is never changed. */
    method OnEvent(changed: Path, change: ChangeType)
      requires Valid()
      modifies this
      ensures Valid()
      ensures files == Dispatch(old(files), watchMap, changed, change)
      ensures watchMap == old(watchMap) && watchers == old(watchers)
    {
      if changed !in watchMap {
        return;
      }
      var result := watchMap[changed];
      if change == Unlink {
        files := files - {result};
        return;
      }
      if changed in files {
        files := files[result := files[changed]];
      }
    }

    /**
      `copyTask`: nothing happens without patterns; otherwise every pattern is
      run in order, the first failure is logged instead of thrown, and a
      watcher is registered afterwards when watching.
     */
    method CopyTask(build: BuildConfig, options: TaskOptions, probes: seq<Probe>) returns (logged: Option<string>)
      requires Valid()
      requires build.copy.patterns.Some? ==> |probes| == |build.copy.patterns.value|
      modifies this
      ensures Valid()
      ensures !HasPatterns(build.copy) ==>
        logged.None? && files == old(files) && watchMap == old(watchMap) && watchers == old(watchers)
      ensures HasPatterns(build.copy) ==>
        var ms := TaskMappings(build.copy.patterns.value, TaskRunOptions(build, options), probes);
        && logged == TaskLog(probes)
        && files == CopyAll(old(files), ms)
        && watchMap == (if options.watch then RecordAll(old(watchMap), ms) else old(watchMap))
        && watchers == old(watchers) + (if options.watch then [watchMap.Keys] else [])
    {
      if build.copy.patterns.None? || |build.copy.patterns.value| == 0 {
        return None;
      }
      var patterns := build.copy.patterns.value;
      var opts := TaskRunOptions(build, options);
      var failure: Option<string> := None;
      var i := 0;
      while i < |patterns|
        invariant 0 <= i <= |patterns|
        invariant Valid()
        invariant failure == FirstError(probes[..i])
        invariant files == CopyAll(old(files), TaskMappings(patterns[..i], opts, probes[..i]))
        invariant watchMap == if options.watch then RecordAll(old(watchMap), TaskMappings(patterns[..i], opts, probes[..i])) else old(watchMap)
        invariant watchers == old(watchers)
      {
        ghost var done := TaskMappings(patterns[..i], opts, probes[..i]);
        ghost var next := PatternMappings(patterns[i], opts, probes[i]);
        var err := RunPattern(patterns[i], opts, probes[i]);
        if failure.None? && err.Some? {
          failure := err;
        }
        TaskMappingsSnoc(patterns, opts, probes, i);
        CopyAllAppend(old(files), done, next);
        RecordAllAppend(old(watchMap), done, next);
        FirstErrorSnoc(probes, i);
        i := i + 1;
      }
      assert patterns[..i] == patterns && probes[..i] == probes;
      logged := match failure case None => None case Some(msg) => Some("copy error: " + msg);
      if options.watch {
        WatchCopyFiles();
      }
    }
  }

  /** The first failure of a longer run is the earlier one, if there was one. */
  lemma {:induction false} FirstErrorSnoc(probes: seq<Probe>, i: nat)
    requires i < |probes|
    ensures FirstError(probes[..i + 1]) == if FirstError(probes[..i]).Some? then FirstError(probes[..i])
      else if probes[i].glob.GlobError? then Some(probes[i].glob.message) else None
  {
    if i > 0 {
      assert probes[..i + 1][1..] == probes[1..][..i];
      assert probes[..i][1..] == probes[1..][..i - 1];
      FirstErrorSnoc(probes[1..], i - 1);
    }
  }

  lemma MappingsSnoc(r: Resolved, to: string, outDir: Path, entries: seq<Entry>, i: nat)
    requires i < |entries|
    ensures Mappings(r, to, outDir, entries[..i + 1]) ==
      Mappings(r, to, outDir, entries[..i]) + (if entries[i].isFile then [MapEntry(r, to, outDir, entries[i])] else [])
  {
    assert entries[..i + 1][..i] == entries[..i];
  }

  /** Copying or recording one more mapping is one more step of the fold. */
  lemma Snoc(f: map<Path, Content>, w: map<Path, Path>, ms: seq<Mapping>, m: Mapping)
    ensures CopyAll(f, ms + [m]) == CopyOne(CopyAll(f, ms), m)
    ensures RecordAll(w, ms + [m]) == RecordAll(w, ms)[m.src := m.dst]
  {
    assert (ms + [m])[..|ms|] == ms;
  }

  lemma TaskMappingsSnoc(patterns: seq<CopyPattern>, opts: RunOptions, probes: seq<Probe>, i: nat)
    requires |probes| == |patterns| && i < |patterns|
    ensures TaskMappings(patterns[..i + 1], opts, probes[..i + 1]) ==
      TaskMappings(patterns[..i], opts, probes[..i]) + PatternMappings(patterns[i], opts, probes[i])
  {
    assert patterns[..i + 1][..i] == patterns[..i];
    assert probes[..i + 1][..i] == probes[..i];
  }
}
