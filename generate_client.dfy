/**
  The BFF client stub generator (`generateClient`): it fixes the module the
  generated code imports `createRequest` from, then writes one
  `export … = createRequest(…)` line per handler of the API module.
  `require.resolve` is a partial map from request to resolved file path, and
  the API router's handler list is an optional input.
 */
module ClientGen {
  import opened Wrappers

  const DefaultRequestCreator: string := "@modern-js/create-request"

  /** One handler the API router found: its export name, HTTP method and route path. */
  datatype HandlerInfo = HandlerInfo(name: string, httpMethod: string, routePath: string)

  /** The options `generateClient` reads; an absent option is `None`. */
  datatype ClientOptions = ClientOptions(
    resourcePath: string,
    port: int,
    requestCreator: Option<string>,
    fetcher: Option<string>,
    target: Option<string>,
    httpMethodDecider: Option<string>)

  /**
    What the returned promise settles to: `Ok` with the code, `Err` with a
    message, or a rejection (resolving the default request creator threw).
   */
  datatype GenClientResult = Ok(code: string) | Err(error: string) | Rejected

  /** JavaScript truthiness of an optional string: present and not empty. */
  predicate Truthy(o: Option<string>)
  {
    o.Some? && o.value != ""
  }

  // ---------------------------------------------------------------------------
  // characters and strings

  function UpperChar(c: char): char
  {
    if 'a' <= c <= 'z' then (c as int - 32) as char else c
  }

  function LowerChar(c: char): char
  {
    if 'A' <= c <= 'Z' then (c as int + 32) as char else c
  }

  /** `toUpperCase` on ASCII letters. */
  function Upper(s: string): (r: string)
    ensures |r| == |s| && forall i :: 0 <= i < |s| ==> r[i] == UpperChar(s[i])
    ensures forall i :: 0 <= i < |r| ==> !('a' <= r[i] <= 'z')
  {
    seq(|s|, i requires 0 <= i < |s| => UpperChar(s[i]))
  }

  /** `toLowerCase` on ASCII letters. */
  function Lower(s: string): (r: string)
    ensures |r| == |s|
    ensures forall i :: 0 <= i < |r| ==> !('A' <= r[i] <= 'Z')
  {
    seq(|s|, i requires 0 <= i < |s| => LowerChar(s[i]))
  }

  /** Lowering an already lowered string changes nothing. */
  lemma LowerIdempotent(s: string)
    ensures Lower(Lower(s)) == Lower(s)
  {
    var l := Lower(s);
    assert forall i :: 0 <= i < |l| ==> LowerChar(l[i]) == l[i];
  }

  /** A name lowers to "default" exactly when each of its seven letters is that letter in either case. */
  lemma LowerIsDefault(s: string)
    ensures Lower(s) == "default" <==>
      |s| == 7 && forall i :: 0 <= i < 7 ==> s[i] == "default"[i] || s[i] == "DEFAULT"[i]
  {
    if |s| == 7 && forall i :: 0 <= i < 7 ==> s[i] == "default"[i] || s[i] == "DEFAULT"[i] {
      forall i | 0 <= i < 7 ensures Lower(s)[i] == "default"[i] {
        assert Lower(s)[i] == LowerChar(s[i]);
      }
    }
    if Lower(s) == "default" {
      forall i | 0 <= i < 7 ensures s[i] == "default"[i] || s[i] == "DEFAULT"[i] {
        assert LowerChar(s[i]) == "default"[i];
      }
    }
  }

  /** `s.replace(/\\/g, '/')`. */
  function ReplaceBackslashes(s: string): (r: string)
    ensures |r| == |s|
    ensures forall i :: 0 <= i < |s| ==> r[i] == if s[i] == '\\' then '/' else s[i]
    ensures '\\' !in r
  {
    if s == [] then [] else [if s[0] == '\\' then '/' else s[0]] + ReplaceBackslashes(s[1..])
  }

  /** Replacing backslashes distributes over concatenation. */
  lemma {:induction false} ReplaceBackslashesConcat(a: string, b: string)
    ensures ReplaceBackslashes(a + b) == ReplaceBackslashes(a) + ReplaceBackslashes(b)
  {
    if a != [] {
      assert (a + b)[1..] == a[1..] + b;
      ReplaceBackslashesConcat(a[1..], b);
    }
  }

  function DigitChar(d: nat): char
    requires d < 10
  {
    "0123456789"[d]
  }

  /** The decimal digits of `n`, most significant first, with no leading zero. */
  function NatToString(n: nat): (r: string)
    ensures |r| > 0 && forall i :: 0 <= i < |r| ==> '0' <= r[i] <= '9'
    ensures r[0] == '0' ==> n == 0
  {
    if n < 10 then [DigitChar(n)] else NatToString(n / 10) + [DigitChar(n % 10)]
  }

  /** The number a string of decimal digits denotes, read left to right. */
  function DigitsValue(s: string): nat
    requires forall i :: 0 <= i < |s| ==> '0' <= s[i] <= '9'
  {
    if s == [] then 0 else 10 * DigitsValue(s[..|s| - 1]) + (s[|s| - 1] as int - '0' as int)
  }

  /** The digits of `n` denote `n`. */
  lemma {:induction false} NatToStringValue(n: nat)
    ensures DigitsValue(NatToString(n)) == n
  {
    var r := NatToString(n);
    if n >= 10 {
      NatToStringValue(n / 10);
      assert r[..|r| - 1] == NatToString(n / 10);
    }
  }

  /** `String(port)` for an integer port: a minus sign exactly for a negative port, then digits. */
  function IntToString(n: int): (r: string)
    ensures |r| > 0 && (r[0] == '-' <==> n < 0)
    ensures forall i :: 0 < i < |r| ==> '0' <= r[i] <= '9'
    ensures n < 0 ==> |r| > 1
  {
    if n < 0 then "-" + NatToString(-n) else NatToString(n)
  }

  /** The text of `String(port)` reads back as the port. */
  lemma IntToStringValue(n: int)
    ensures
      var r := IntToString(n);
      if n < 0 then DigitsValue(r[1..]) == -n else DigitsValue(r) == n
  {
    if n < 0 {
      NatToStringValue(-n);
      assert IntToString(n)[1..] == NatToString(-n);
    } else {
      NatToStringValue(n);
    }
  }

  // ---------------------------------------------------------------------------
  // path.posix.dirname

  /** Index just past the last character that is not a trailing separator, never below 1. */
  function SkipTrailingSeps(s: string, k: nat): (j: nat)
    requires 1 <= k <= |s|
    ensures 1 <= j <= k
    ensures j > 1 ==> s[j - 1] != '/'
    ensures forall i :: j <= i < k ==> s[i] == '/'
  {
    if k > 1 && s[k - 1] == '/' then SkipTrailingSeps(s, k - 1) else k
  }

  /** The largest index in [1, hi) holding a separator, or 0 when there is none. */
  function LastSepBefore(s: string, hi: nat): (e: nat)
    requires hi <= |s|
    ensures e < hi || e == 0
    ensures e > 0 ==> s[e] == '/' && forall i :: e < i < hi ==> s[i] != '/'
    ensures e == 0 ==> forall i :: 1 <= i < hi ==> s[i] != '/'
  {
    if hi <= 1 then 0 else if s[hi - 1] == '/' then hi - 1 else LastSepBefore(s, hi - 1)
  }

  /** Node's `path.posix.dirname`. */
  function PosixDirname(s: string): (r: string)
    ensures |r| > 0
    ensures r == "." || (|r| <= |s| && r == s[..|r|])
    ensures r[0] == '/' <==> |s| > 0 && s[0] == '/'
  {
    if |s| == 0 then "."
    else
      var j := SkipTrailingSeps(s, |s|);
      var e := LastSepBefore(s, j);
      if e == 0 then (if s[0] == '/' then "/" else ".")
      else if s[0] == '/' && e == 1 then "//"
      else s[..e]
  }

  /** The dirname of `dir/name` is `dir`, for a file name and a directory without a trailing separator. */
  lemma DirnameOfChild(dir: string, name: string)
    requires |dir| > 0 && dir[|dir| - 1] != '/'
    requires |name| > 0 && '/' !in name
    ensures PosixDirname(dir + "/" + name) == dir
  {
    var s := dir + "/" + name;
    assert s[|s| - 1] == name[|name| - 1];
    var e := LastSepBefore(s, |s|);
    assert s[|dir|] == '/';
    assert forall i :: |dir| < i < |s| ==> s[i] == name[i - |dir| - 1];
    assert e == |dir|;
    assert s[..e] == dir;
  }

  // ---------------------------------------------------------------------------
  // the request creator

  /** "/" and the target when a target is set, else nothing. */
  function TargetSuffix(target: Option<string>): (r: string)
    ensures r == "" <==> !Truthy(target)
    ensures r != "" ==> r[0] == '/' && r[1..] == target.value
  {
    if Truthy(target) then "/" + target.value else ""
  }

  /**
    The module the generated code imports `createRequest` from. Without a
    configured creator it is the resolution of the default package (with the
    target as a sub-path); resolution failing then rejects the call. A
    configured creator resolves to its directory when it can be resolved and
    is taken as written otherwise, and the target is appended. Backslashes
    become forward slashes in every case.
   */
  function RequestCreator(opts: ClientOptions, resolve: map<string, string>): (r: Option<string>)
    ensures r.Some? ==> '\\' !in r.value
    ensures !Truthy(opts.requestCreator) ==>
      var request := DefaultRequestCreator + TargetSuffix(opts.target);
      r == if request in resolve then Some(ReplaceBackslashes(resolve[request])) else None
    ensures Truthy(opts.requestCreator) ==>
      var rc := opts.requestCreator.value;
      var base := if rc in resolve then PosixDirname(resolve[rc]) else rc;
      r == Some(ReplaceBackslashes(base) + ReplaceBackslashes(TargetSuffix(opts.target)))
  {
    if !Truthy(opts.requestCreator) then
      var request := DefaultRequestCreator + TargetSuffix(opts.target);
      if request in resolve then Some(ReplaceBackslashes(resolve[request])) else None
    else
      var rc := opts.requestCreator.value;
      var resolvedPath := if rc in resolve then PosixDirname(resolve[rc]) else rc;
      ReplaceBackslashesConcat(resolvedPath, TargetSuffix(opts.target));
      Some(ReplaceBackslashes(resolvedPath + TargetSuffix(opts.target)))
  }

  /** A configured creator that resolves to a file is replaced by that file's directory. */
  lemma ConfiguredCreatorUsesDirectory(opts: ClientOptions, resolve: map<string, string>, dir: string, file: string)
    requires Truthy(opts.requestCreator)
    requires opts.requestCreator.value in resolve && resolve[opts.requestCreator.value] == dir + "/" + file
    requires |dir| > 0 && dir[|dir| - 1] != '/' && |file| > 0 && '/' !in file
    ensures RequestCreator(opts, resolve) == Some(ReplaceBackslashes(dir) + ReplaceBackslashes(TargetSuffix(opts.target)))
  {
    DirnameOfChild(dir, file);
  }

  // ---------------------------------------------------------------------------
  // one export line per handler

  /** The name of the export: `default` for a handler named default in any case, else `var <name> =`. */
  function ExportStatement(name: string): (r: string)
    ensures r == "default" <==> Lower(name) == "default"
    ensures r != "default" ==> |r| == |name| + 6 && r[4..|r| - 2] == name
    ensures r != "default" ==> r[..4] == "var " && r[|r| - 2..] == " ="
  {
    if Lower(name) == "default" then "default"
    else
      var r := "var " + name + " =";
      assert r[0] == 'v' && r[4..|r| - 2] == name && r[..4] == "var " && r[|r| - 2..] == " =";
      r
  }

  /** `process.env.PORT || <port>` for the server target, the bare port otherwise. */
  function PortExpression(target: Option<string>, port: int): (r: string)
    ensures var d := IntToString(port); |r| >= |d| && r[|r| - |d|..] == d
    ensures |r| == |IntToString(port)| + (if target == Some("server") then |"process.env.PORT || "| else 0)
  {
    (if target == Some("server") then "process.env.PORT || " else "") + IntToString(port)
  }

  /** The configured HTTP method decider, or `functionName`. */
  function Decider(decider: Option<string>): (r: string)
    ensures r != ""
    ensures Truthy(decider) ==> r == decider.value
    ensures !Truthy(decider) ==> r == "functionName"
  {
    if Truthy(decider) then decider.value else "functionName"
  }

  function FetchArgument(fetcher: Option<string>): (r: string)
    ensures r == "" <==> !Truthy(fetcher)
  {
    if Truthy(fetcher) then ", fetch" else ""
  }

  const LineEnd: string := ");\n      "

  /** The pieces of the template literal for one handler, constant text and interpolations in order. */
  function LineParts(h: HandlerInfo, opts: ClientOptions): (ps: seq<string>)
    ensures |ps| == 13
  {
    [ "export ", ExportStatement(h.name), " createRequest('", h.routePath, "', '", Upper(h.httpMethod), "', ",
      PortExpression(opts.target, opts.port), ", '", Decider(opts.httpMethodDecider), "' ",
      FetchArgument(opts.fetcher), LineEnd ]
  }

  /** The text appended to `handlersCode` for one handler: an `export` statement ending the line. */
  function HandlerLine(h: HandlerInfo, opts: ClientOptions): string
  {
    Concat(LineParts(h, opts))
  }

  /** Each handler line is one `export` statement, closed by the request-creator call. */
  lemma HandlerLineShape(h: HandlerInfo, opts: ClientOptions)
    ensures var line := HandlerLine(h, opts);
      |line| >= 7 && line[..7] == "export " &&
      |line| >= |LineEnd| && line[|line| - |LineEnd|..] == LineEnd
  {
    var ps := LineParts(h, opts);
    ConcatFront3(ps);
    ConcatBack2(ps);
  }

  /** The line of each handler, in handler order. */
  function LineTexts(hs: seq<HandlerInfo>, opts: ClientOptions): (ls: seq<string>)
    ensures |ls| == |hs| && forall i :: 0 <= i < |hs| ==> ls[i] == HandlerLine(hs[i], opts)
  {
    seq(|hs|, i requires 0 <= i < |hs| => HandlerLine(hs[i], opts))
  }

  /** The strings one after the other. */
  function Concat(ls: seq<string>): string
  {
    if ls == [] then "" else Concat(ls[..|ls| - 1]) + ls[|ls| - 1]
  }

  /** The handler lines, in handler order. */
  function Lines(hs: seq<HandlerInfo>, opts: ClientOptions): string
  {
    Concat(LineTexts(hs, opts))
  }

  lemma {:induction false} ConcatAppend(a: seq<string>, b: seq<string>)
    ensures Concat(a + b) == Concat(a) + Concat(b)
    decreases |b|
  {
    if b == [] {
      assert a + b == a;
    } else {
      var ab := a + b;
      assert ab[..|ab| - 1] == a + b[..|b| - 1] && ab[|ab| - 1] == b[|b| - 1];
      ConcatAppend(a, b[..|b| - 1]);
    }
  }

  /** The import header: `createRequest` from the creator, and `fetch` from the fetcher when one is set. */
  function ImportCode(requestCreator: string, fetcher: Option<string>): (r: string)
    ensures
      var head := "import { createRequest } from '" + requestCreator + "';\n";
      && |r| >= |head| && r[..|head|] == head
      && (Truthy(fetcher) <==> |r| > |head|)
      && (Truthy(fetcher) ==> r[|head|..] == "import { fetch } from '" + fetcher.value + "';\n")
  {
    "import { createRequest } from '" + requestCreator + "';\n"
      + (if Truthy(fetcher) then "import { fetch } from '" + fetcher.value + "';\n" else "")
  }

  /** The lines of a concatenation are the concatenated lines. */
  lemma LinesAppend(a: seq<HandlerInfo>, b: seq<HandlerInfo>, opts: ClientOptions)
    ensures Lines(a + b, opts) == Lines(a, opts) + Lines(b, opts)
  {
    assert LineTexts(a + b, opts) == LineTexts(a, opts) + LineTexts(b, opts);
    ConcatAppend(LineTexts(a, opts), LineTexts(b, opts));
  }

  /** Every handler contributes exactly its own line, at its own place in input order. */
  lemma LinesAt(hs: seq<HandlerInfo>, i: nat, opts: ClientOptions)
    requires i < |hs|
    ensures Lines(hs, opts) == Lines(hs[..i], opts) + HandlerLine(hs[i], opts) + Lines(hs[i + 1..], opts)
  {
    assert hs == hs[..i] + [hs[i]] + hs[i + 1..];
    LinesAppend(hs[..i] + [hs[i]], hs[i + 1..], opts);
    LinesAppend(hs[..i], [hs[i]], opts);
    assert LineTexts([hs[i]], opts) == [HandlerLine(hs[i], opts)];
    ConcatSingle(HandlerLine(hs[i], opts));
  }

  lemma ConcatSingle(x: string)
    ensures Concat([x]) == x
  {
    assert [x][..0] == [];
  }

  lemma ConcatCons(x: string, ls: seq<string>)
    ensures Concat([x] + ls) == x + Concat(ls)
  {
    ConcatAppend([x], ls);
    ConcatSingle(x);
  }

  /** The first three strings, then the rest. */
  lemma ConcatFront3(ps: seq<string>)
    requires |ps| >= 3
    ensures Concat(ps) == ps[0] + ps[1] + ps[2] + Concat(ps[3..])
  {
    var front := ps[..3];
    assert ps == front + ps[3..];
    ConcatAppend(front, ps[3..]);
    assert front[..2][..1] == [ps[0]] && front[..2] == front[..3 - 1];
    ConcatSingle(ps[0]);
    assert Concat(front) == ps[0] + ps[1] + ps[2];
  }

  /** Everything but the last two strings, then those two. */
  lemma ConcatBack2(ps: seq<string>)
    requires |ps| >= 2
    ensures Concat(ps) == Concat(ps[..|ps| - 2]) + ps[|ps| - 2] + ps[|ps| - 1]
  {
    var n := |ps|;
    assert ps[..n - 1][..n - 2] == ps[..n - 2];
  }

  /** A non-empty last string ends the concatenation. */
  lemma ConcatLast(ls: seq<string>)
    requires |ls| > 0 && |ls[|ls| - 1]| > 0
    ensures |Concat(ls)| > 0 && Concat(ls)[|Concat(ls)| - 1] == ls[|ls| - 1][|ls[|ls| - 1]| - 1]
  {
  }

  /** The head of an export line names `default` exactly for a handler named default. */
  lemma ExportHead(name: string, rest: string)
    ensures
      var line := "export " + ExportStatement(name) + " createRequest('" + rest;
      var head := "export default createRequest('";
      (|line| >= |head| && line[..|head|] == head) <==> Lower(name) == "default"
  {
    var line := "export " + ExportStatement(name) + " createRequest('" + rest;
    if Lower(name) != "default" {
      assert line[7] == 'v';
    } else {
      assert line == "export default createRequest('" + rest;
    }
  }

  /** A handler's line is a default export exactly when its name is `default` in some case. */
  lemma DefaultExportIff(h: HandlerInfo, opts: ClientOptions)
    ensures
      var line := HandlerLine(h, opts);
      var head := "export default createRequest('";
      (|line| >= |head| && line[..|head|] == head) <==> Lower(h.name) == "default"
  {
    var ps := LineParts(h, opts);
    ConcatFront3(ps);
    ExportHead(h.name, Concat(ps[3..]));
  }

  /** The port expression reads `process.env.PORT` exactly for the server target. */
  lemma ServerPortIff(target: Option<string>, port: int)
    ensures
      var e := PortExpression(target, port);
      var env := "process.env.PORT || ";
      (|e| >= |env| && e[..|env|] == env) <==> target == Some("server")
  {
    var e := PortExpression(target, port);
    if target != Some("server") {
      assert e[0] == IntToString(port)[0];
    }
  }

  /** A handler's line passes `fetch` exactly when a fetcher is set. */
  lemma FetchArgumentIff(h: HandlerInfo, opts: ClientOptions)
    ensures
      var line := HandlerLine(h, opts);
      var tail := ", fetch" + LineEnd;
      (|line| >= |tail| && line[|line| - |tail|..] == tail) <==> Truthy(opts.fetcher)
  {
    var ps := LineParts(h, opts);
    var tail := ", fetch" + LineEnd;
    var front := Concat(ps[..11]);
    ConcatBack2(ps);
    var line := front + FetchArgument(opts.fetcher) + LineEnd;
    assert HandlerLine(h, opts) == line;
    if !Truthy(opts.fetcher) {
      ConcatLast(ps[..11]);
      assert front[|front| - 1] == ' ';
      assert line[|line| - 10] == ' ';
      assert tail[|tail| - 10] == 'h';
    } else {
      assert line == front + tail;
    }
  }

  /** The `for … of` loop building `handlersCode`. */
  method HandlersCode(hs: seq<HandlerInfo>, opts: ClientOptions) returns (code: string)
    ensures code == Lines(hs, opts)
  {
    code := "";
    var i := 0;
    while i < |hs|
      invariant 0 <= i <= |hs|
      invariant code == Lines(hs[..i], opts)
    {
      assert LineTexts(hs[..i + 1], opts) == LineTexts(hs[..i], opts) + [HandlerLine(hs[i], opts)];
      code := code + HandlerLine(hs[i], opts);
      i := i + 1;
    }
    assert hs[..i] == hs;
  }

  /**
    `generateClient`: settle the request creator first, then report a missing
    handler list as an error, else emit the import header, a blank line and
    one line per handler.
   */
  method GenerateClient(opts: ClientOptions, resolve: map<string, string>, handlers: Option<seq<HandlerInfo>>)
    returns (result: GenClientResult)
    ensures RequestCreator(opts, resolve).None? <==> result.Rejected?
    ensures RequestCreator(opts, resolve).Some? && handlers.None? ==>
      result == Err("generate client error: Cannot require module " + opts.resourcePath)
    ensures RequestCreator(opts, resolve).Some? && handlers.Some? ==>
      result == Ok(ImportCode(RequestCreator(opts, resolve).value, opts.fetcher) + "\n" + Lines(handlers.value, opts))
  {
    var requestCreator := RequestCreator(opts, resolve);
    if requestCreator.None? {
      return Rejected;
    }
    if handlers.None? {
      return Err("generate client error: Cannot require module " + opts.resourcePath);
    }
    var handlersCode := HandlersCode(handlers.value, opts);
    var importCode := ImportCode(requestCreator.value, opts.fetcher);
    result := Ok(importCode + "\n" + handlersCode);
  }
}
