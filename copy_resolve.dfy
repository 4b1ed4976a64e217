/**
  The pure decisions of the copy stage's `runPatterns`: resolving a copy
  pattern's context and source, classifying the source from a stat result,
  building the glob query and matcher options, and mapping each matched file
  to its destination.
 */
module CopyResolve {
  import opened Wrappers
  import opened Paths

  /** The glob options a pattern may carry; only the two the copy stage reads are modelled. */
  datatype GlobOptions = GlobOptions(dot: Option<bool>, followSymbolicLinks: Option<bool>)

  /**
    One entry of `copy.patterns`; an absent field is `None`, except `to`: the
    code reads an unset `to` as "", and so does the model.
   */
  datatype CopyPattern = CopyPattern(
    from: string,
    to: string,
    context: Option<string>,
    globOptions: Option<GlobOptions>)

  /** The per-run options handed to `runPatterns`; the directories are normalised paths. */
  datatype RunOptions = RunOptions(appDirectory: Path, outDir: Path, defaultContext: Path, watch: bool)

  /** What `fs.stat(absoluteFrom)` reported; `StatFailed` is a rejected stat. */
  datatype Stat = Directory | RegularFile | OtherEntry | StatFailed

  datatype FromType = Dir | File | Glob

  /**
    The glob handed to the matcher. The escaped parts (`fastGlob.escapePath`)
    are kept as paths, so distinct literal paths always give distinct queries;
    raw glob text is kept as the string the pattern supplied.
   */
  datatype GlobQuery =
    | AllUnder(dir: Path)                      // escape(dir) + "/**/*"
    | Exactly(file: Path)                      // escape(file)
    | Expression(glob: string)                 // an absolute `from`, as written
    | ExpressionUnder(dir: Path, glob: string) // escape(dir) joined with a relative `from`

  /** The options object the matcher receives. */
  datatype MatcherOptions = MatcherOptions(dot: Option<bool>, followSymbolicLinks: bool, cwd: Path)

  datatype Resolved = Resolved(fromType: FromType, context: Path, query: GlobQuery, options: MatcherOptions)

  /** One match: its path and whether its directory entry is a regular file. */
  datatype Entry = Entry(path: Path, isFile: bool)

  /** A matched source file and the destination it is copied to. */
  datatype Mapping = Mapping(src: Path, dst: Path)

  // ---------------------------------------------------------------------------
  // context and absoluteFrom

  /**
    The pattern's context: an absolute string is taken as it is, a relative one
    is joined onto the application directory, an absent one is the default.
   */
  function ResolveContext(context: Option<string>, appDirectory: Path, defaultContext: Path): (r: Path)
    ensures context.None? ==> r == defaultContext
    ensures context.Some? && IsAbsoluteString(context.value) ==> r == Normalize(context.value)
    ensures context.Some? && !IsAbsoluteString(context.value) ==>
      r.absolute == appDirectory.absolute && Under(appDirectory, r)
      && r.segs[|appDirectory.segs|..] == Normalize(context.value).segs
  {
    match context
    case None => defaultContext
    case Some(c) => if IsAbsoluteString(c) then Normalize(c) else Join(appDirectory, Normalize(c))
  }

  /** `absoluteFrom`: the normalised `from` if absolute, else `from` resolved against the context. */
  function AbsoluteFrom(from: string, context: Path): (r: Path)
    ensures IsAbsoluteString(from) ==> r == Normalize(from)
    ensures !IsAbsoluteString(from) ==>
      r.absolute == context.absolute && Under(context, r) && r.segs[|context.segs|..] == Normalize(from).segs
  {
    Resolve(context, Normalize(from))
  }

  // ---------------------------------------------------------------------------
  // classification, query and matcher options

  /** A directory gives `dir`, a regular file `file`; anything else, and a failed stat, gives `glob`. */
  function Classify(stat: Stat): (t: FromType)
    ensures t == Dir <==> stat == Directory
    ensures t == File <==> stat == RegularFile
    ensures t == Glob <==> (stat == OtherEntry || stat == StatFailed)
  {
    match stat
    case Directory => Dir
    case RegularFile => File
    case _ => Glob
  }

  function FollowLinks(user: Option<GlobOptions>): bool
  {
    if user.Some? && user.value.followSymbolicLinks.Some? then user.value.followSymbolicLinks.value else true
  }

  /**
    The matcher options as the code computes them: `dot` is defaulted on the
    destructured `globOptions`, which is a fresh `{}` when the pattern has no
    `globOptions`, so in that case the matcher sees no `dot` at all.
   */
  function MatcherOptionsAsWritten(user: Option<GlobOptions>, t: FromType, cwd: Path): (o: MatcherOptions)
    ensures user.None? ==> o.dot.None?
    ensures o.cwd == cwd && o.followSymbolicLinks == FollowLinks(user)
  {
    match user
    case None => MatcherOptions(None, true, cwd)
    case Some(g) =>
      var dot := if t != Glob && g.dot.None? then Some(true) else g.dot;
      MatcherOptions(dot, FollowLinks(user), cwd)
  }

  /** The pattern's own `dot` setting, if any. */
  function UserDot(user: Option<GlobOptions>): Option<bool>
  {
    if user.Some? then user.value.dot else None
  }

  /**
    The matcher options as intended: `dot` defaults to true for `dir` and
    `file` sources whenever the pattern does not set it, an explicit value is
    kept, and a `glob` source leaves it as the pattern has it.
   */
  function MatcherOptionsFor(user: Option<GlobOptions>, t: FromType, cwd: Path): (o: MatcherOptions)
    ensures t != Glob && UserDot(user).None? ==> o.dot == Some(true)
    ensures UserDot(user).Some? ==> o.dot == UserDot(user)
    ensures t == Glob ==> o.dot == UserDot(user)
    ensures o.followSymbolicLinks == (user.None? || user.value.followSymbolicLinks != Some(false))
    ensures o.cwd == cwd
  {
    var dot := if t != Glob && UserDot(user).None? then Some(true) else UserDot(user);
    MatcherOptions(dot, FollowLinks(user), cwd)
  }

  /** For a `dir` or `file` source with no `globOptions`, the code as written loses the dot default. */
  lemma DotDefaultLostWithoutGlobOptions(t: FromType, cwd: Path)
    requires t != Glob
    ensures MatcherOptionsAsWritten(None, t, cwd).dot == None
    ensures MatcherOptionsFor(None, t, cwd).dot == Some(true)
  {
  }

  /** Whenever the pattern does carry `globOptions`, the code as written and the intended options agree. */
  lemma AsWrittenAgreesWithGlobOptions(g: GlobOptions, t: FromType, cwd: Path)
    ensures MatcherOptionsAsWritten(Some(g), t, cwd) == MatcherOptionsFor(Some(g), t, cwd)
  {
  }

  /**
    `runPatterns` up to the glob call: the working context, the source kind,
    the query and the matcher options for one pattern, given what stat reported
    for its `absoluteFrom`.
   */
  function ResolvePattern(pattern: CopyPattern, opts: RunOptions, stat: Stat): (r: Resolved)
    ensures r.fromType == Classify(stat)
    ensures r.options == MatcherOptionsFor(pattern.globOptions, r.fromType, r.context)
    ensures
      var ctx := ResolveContext(pattern.context, opts.appDirectory, opts.defaultContext);
      var abs := AbsoluteFrom(pattern.from, ctx);
      && (stat == Directory ==> r.context == abs && r.query == AllUnder(abs))
      && (stat == RegularFile ==> r.context == Dirname(abs) && r.query == Exactly(abs))
      && (r.fromType == Glob ==> r.context == ctx)
      && (r.fromType == Glob && IsAbsoluteString(pattern.from) ==> r.query == Expression(pattern.from))
      && (r.fromType == Glob && !IsAbsoluteString(pattern.from) ==> r.query == ExpressionUnder(ctx, pattern.from))
  {
    var ctx := ResolveContext(pattern.context, opts.appDirectory, opts.defaultContext);
    var abs := AbsoluteFrom(pattern.from, ctx);
    var t := Classify(stat);
    var (context, query) :=
      match t
      case Dir => (abs, AllUnder(abs))
      case File => (Dirname(abs), Exactly(abs))
      case Glob =>
        (ctx, if IsAbsoluteString(pattern.from) then Expression(pattern.from) else ExpressionUnder(ctx, pattern.from));
    Resolved(t, context, query, MatcherOptionsFor(pattern.globOptions, t, context))
  }

  /** For a `file` source the resolved context is the directory holding it, one level up. */
  lemma FileContextHoldsSource(pattern: CopyPattern, opts: RunOptions)
    requires |AbsoluteFrom(pattern.from, ResolveContext(pattern.context, opts.appDirectory, opts.defaultContext)).segs| > 0
    ensures
      var abs := AbsoluteFrom(pattern.from, ResolveContext(pattern.context, opts.appDirectory, opts.defaultContext));
      var r := ResolvePattern(pattern, opts, RegularFile);
      Under(r.context, abs) && |abs.segs| == |r.context.segs| + 1 && r.context.absolute == abs.absolute
  {
  }

  // ---------------------------------------------------------------------------
  // destination mapping

  /**
    `to` is dir-style when its normalised form has no extension or ends with
    the separator; `normalize` keeps a trailing separator, so the raw text tells.
   */
  predicate DirStyle(to: string)
  {
    Extname(Normalize(to)) == "" || EndsWithSep(to)
  }

  /**
    Dir-style in the system's terms: `to` ends with the separator, or it names
    no segment at all, or its last segment carries no extension (no dot after
    its first character, or it is "..").
   */
  lemma DirStyleMeaning(to: string)
    ensures var p := Normalize(to);
      DirStyle(to) <==>
        (EndsWithSep(to) || |p.segs| == 0 ||
         '.' !in p.segs[|p.segs| - 1][1..] || p.segs[|p.segs| - 1] == "..")
  {
  }

  /** An unset (empty) `to` normalises to "." and is therefore dir-style. */
  lemma UnsetToIsDirStyle()
    ensures Normalize("") == Path(false, [])
    ensures DirStyle("")
  {
    assert Split("") == [""];
    assert Keep([""]) == [];
  }

  /**
    The destination of one matched file, given the normalised `to` and its
    style: a dir-style `to` keeps the file's path relative to the context
    under `to`, a file-style `to` is the destination itself; a relative result
    is placed under `outDir`.
   */
  function Destination(context: Path, target: Path, dirStyle: bool, outDir: Path, src: Path): (dst: Path)
    ensures outDir.absolute ==> dst.absolute
    ensures !dirStyle ==> dst == Resolve(outDir, target)
    ensures dirStyle ==> dst == Resolve(outDir, Join(target, Relative(context, src)))
  {
    var filename := if dirStyle then Join(target, Relative(context, src)) else target;
    if filename.absolute then filename else Join(outDir, filename)
  }

  /** The mapping of one matched entry: its path resolved against the context, and its destination. */
  function MapEntry(r: Resolved, to: string, outDir: Path, e: Entry): (m: Mapping)
    ensures m.src == Resolve(r.context, e.path)
    ensures m.dst == Destination(r.context, Normalize(to), DirStyle(to), outDir, m.src)
  {
    var src := Resolve(r.context, e.path);
    Mapping(src, Destination(r.context, Normalize(to), DirStyle(to), outDir, src))
  }

  /** A file-style `to` sends every match to the same destination. */
  lemma FileStyleCollapses(context: Path, target: Path, outDir: Path, a: Path, b: Path)
    ensures Destination(context, target, false, outDir, a) == Destination(context, target, false, outDir, b)
  {
  }

  /** Resolving `t/<rest>` against `outDir` keeps `rest` recoverable. */
  lemma ResolveJoinCancel(outDir: Path, t: Path, ra: seq<string>, rb: seq<string>)
    requires Resolve(outDir, Join(t, Path(false, ra))) == Resolve(outDir, Join(t, Path(false, rb)))
    ensures ra == rb
  {
    var fa, fb := Join(t, Path(false, ra)), Join(t, Path(false, rb));
    if !fa.absolute {
      assert fa.segs == Resolve(outDir, fa).segs[|outDir.segs|..];
      assert fb.segs == Resolve(outDir, fb).segs[|outDir.segs|..];
    }
    assert ra == fa.segs[|t.segs|..] && rb == fb.segs[|t.segs|..];
  }

  /** A dir-style `to` never maps two different files under the context to the same destination. */
  lemma DirStyleInjective(context: Path, target: Path, outDir: Path, a: Path, b: Path)
    requires Under(context, a) && Under(context, b) && a.absolute == b.absolute
    requires Destination(context, target, true, outDir, a) == Destination(context, target, true, outDir, b)
    ensures a == b
  {
    var ra, rb := a.segs[|context.segs|..], b.segs[|context.segs|..];
    assert Relative(context, a) == Path(false, ra) && Relative(context, b) == Path(false, rb);
    ResolveJoinCancel(outDir, target, ra, rb);
    UnderSegments(context, a);
    UnderSegments(context, b);
  }

  /**
    Copying a directory with no `to` mirrors it: a regular file found under the
    directory lands under `outDir` at the same relative path.
   */
  lemma DirPatternMirrorsTree(pattern: CopyPattern, opts: RunOptions, e: Entry, rest: seq<string>)
    requires pattern.to == ""
    requires
      var r := ResolvePattern(pattern, opts, Directory);
      Resolve(r.context, e.path).segs == r.context.segs + rest
    ensures
      var r := ResolvePattern(pattern, opts, Directory);
      MapEntry(r, pattern.to, opts.outDir, e).dst == Path(opts.outDir.absolute, opts.outDir.segs + rest)
  {
    var r := ResolvePattern(pattern, opts, Directory);
    var src := Resolve(r.context, e.path);
    UnsetToIsDirStyle();
    assert Under(r.context, src);
    assert src.segs[|r.context.segs|..] == rest;
  }

  /**
    Copying a single file: with a dir-style `to` it keeps its own name under
    `to`, with a file-style `to` it is written to `to` exactly; either is placed
    under `outDir` when relative.
   */
  lemma FilePatternDestination(pattern: CopyPattern, opts: RunOptions, e: Entry)
    requires
      var abs := AbsoluteFrom(pattern.from, ResolveContext(pattern.context, opts.appDirectory, opts.defaultContext));
      |abs.segs| > 0 && Resolve(ResolvePattern(pattern, opts, RegularFile).context, e.path) == abs
    ensures
      var abs := AbsoluteFrom(pattern.from, ResolveContext(pattern.context, opts.appDirectory, opts.defaultContext));
      var m := MapEntry(ResolvePattern(pattern, opts, RegularFile), pattern.to, opts.outDir, e);
      var t := Normalize(pattern.to);
      && m.src == abs
      && (DirStyle(pattern.to) ==> m.dst == Resolve(opts.outDir, Path(t.absolute, t.segs + [abs.segs[|abs.segs| - 1]])))
      && (!DirStyle(pattern.to) ==> m.dst == Resolve(opts.outDir, t))
  {
    var abs := AbsoluteFrom(pattern.from, ResolveContext(pattern.context, opts.appDirectory, opts.defaultContext));
    RelativeToDirname(abs);
  }
}
