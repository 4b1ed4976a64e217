/**
  A POSIX path model: a normalised path is an absolute flag and a sequence of
  segments, none of which is empty or ".". `..` segments are kept as ordinary
  segments (Node's collapsing of `..` is not modelled).
 */
module Paths {

  datatype Path = Path(absolute: bool, segs: seq<string>)

  const Sep: char := '/'

  predicate ValidSegment(x: string)
  {
    x != "" && x != "." && Sep !in x
  }

  /** A path as `normalize` produces it. */
  predicate Valid(p: Path)
  {
    forall i :: 0 <= i < |p.segs| ==> ValidSegment(p.segs[i])
  }

  /** `path.isAbsolute` on a POSIX string. */
  predicate IsAbsoluteString(s: string)
  {
    |s| > 0 && s[0] == Sep
  }

  /** True when the string's last character is the separator (`s.slice(-1) === path.sep`). */
  predicate EndsWithSep(s: string)
  {
    |s| > 0 && s[|s| - 1] == Sep
  }

  // ---------------------------------------------------------------------------
  // normalize: string -> Path, and its inverse on valid paths

  /** The pieces of `s` between separators: "a//b" gives ["a", "", "b"]. */
  function Split(s: string): (r: seq<string>)
    ensures |r| >= 1
    ensures forall i :: 0 <= i < |r| ==> Sep !in r[i]
  {
    if |s| == 0 then [""]
    else
      var rest := Split(s[1..]);
      if s[0] == Sep then [""] + rest else [[s[0]] + rest[0]] + rest[1..]
  }

  /** Drops the empty and "." pieces. */
  function Keep(pieces: seq<string>): (r: seq<string>)
    requires forall i :: 0 <= i < |pieces| ==> Sep !in pieces[i]
    ensures forall i :: 0 <= i < |r| ==> ValidSegment(r[i])
  {
    if pieces == [] then []
    else (if pieces[0] == "" || pieces[0] == "." then [] else [pieces[0]]) + Keep(pieces[1..])
  }

  /** `path.normalize`, with redundant separators and "." segments removed. */
  function Normalize(s: string): (p: Path)
    ensures Valid(p)
    ensures p.absolute <==> IsAbsoluteString(s)
  {
    Path(IsAbsoluteString(s), Keep(Split(s)))
  }

  function JoinPieces(ps: seq<string>): string
    requires |ps| >= 1
  {
    if |ps| == 1 then ps[0] else ps[0] + [Sep] + JoinPieces(ps[1..])
  }

  /** The string form of a normalised path; the empty relative path is ".". */
  function Render(p: Path): string
  {
    if |p.segs| == 0 then (if p.absolute then [Sep] else ".")
    else (if p.absolute then [Sep] else "") + JoinPieces(p.segs)
  }

  lemma {:induction false} SplitPrefix(x: string, s: string)
    requires Sep !in x
    ensures Split(x + s) == [x + Split(s)[0]] + Split(s)[1..]
    decreases |x|
  {
    if x == [] {
      assert x + s == s;
      assert x + Split(s)[0] == Split(s)[0];
    } else {
      assert (x + s)[1..] == x[1..] + s;
      SplitPrefix(x[1..], s);
      assert [x[0]] + (x[1..] + Split(s)[0]) == x + Split(s)[0];
    }
  }

  lemma {:induction false} SplitJoin(ps: seq<string>)
    requires |ps| >= 1
    requires forall i :: 0 <= i < |ps| ==> Sep !in ps[i]
    ensures Split(JoinPieces(ps)) == ps
    decreases |ps|
  {
    if |ps| == 1 {
      SplitPrefix(ps[0], "");
      assert ps[0] + "" == ps[0];
    } else {
      var tail := JoinPieces(ps[1..]);
      SplitJoin(ps[1..]);
      assert JoinPieces(ps) == ps[0] + ([Sep] + tail);
      SplitPrefix(ps[0], [Sep] + tail);
      assert ([Sep] + tail)[1..] == tail;
      assert Split([Sep] + tail) == [""] + ps[1..];
      assert ps[0] + "" == ps[0];
    }
  }

  lemma {:induction false} KeepValid(ps: seq<string>)
    requires forall i :: 0 <= i < |ps| ==> Sep !in ps[i]
    requires forall i :: 0 <= i < |ps| ==> ValidSegment(ps[i])
    ensures Keep(ps) == ps
  {
    if ps != [] {
      KeepValid(ps[1..]);
    }
  }

  lemma JoinPiecesHead(ps: seq<string>)
    requires |ps| >= 1 && |ps[0]| > 0
    ensures |JoinPieces(ps)| > 0 && JoinPieces(ps)[0] == ps[0][0]
  {
  }

  /** Normalising the rendering of a normalised path gives the path back. */
  lemma {:induction false} NormalizeRender(p: Path)
    requires Valid(p)
    ensures Normalize(Render(p)) == p
  {
    if |p.segs| == 0 {
      assert Split("") == [""];
      if p.absolute {
        assert [Sep][1..] == "";
        assert Split([Sep]) == ["", ""];
        assert Keep(["", ""]) == [];
      } else {
        assert "."[1..] == "";
        assert ['.'] + "" == ".";
        assert Split(".") == ["."];
        assert Keep(["."]) == [];
      }
    } else {
      var body := JoinPieces(p.segs);
      SplitJoin(p.segs);
      KeepValid(p.segs);
      JoinPiecesHead(p.segs);
      if p.absolute {
        assert Render(p) == [Sep] + body;
        assert ([Sep] + body)[1..] == body;
        assert Split(Render(p)) == [""] + p.segs;
      } else {
        assert Render(p) == body;
        assert Render(p)[0] == p.segs[0][0];
      }
    }
  }

  /** `normalize` is idempotent. */
  lemma NormalizeIdempotent(s: string)
    ensures Normalize(Render(Normalize(s))) == Normalize(s)
  {
    NormalizeRender(Normalize(s));
  }

  /** Gluing the pieces back together with separators gives the original string. */
  lemma {:induction false} SplitJoinPieces(s: string)
    ensures JoinPieces(Split(s)) == s
    decreases |s|
  {
    if |s| > 0 {
      var rest := Split(s[1..]);
      SplitJoinPieces(s[1..]);
      if s[0] == Sep {
        assert JoinPieces(Split(s)) == "" + [Sep] + JoinPieces(rest);
        assert s == [s[0]] + s[1..];
      } else {
        JoinPiecesExtendHead([s[0]], rest);
        assert s == [s[0]] + s[1..];
      }
    }
  }

  lemma {:induction false} JoinPiecesExtendHead(x: string, ps: seq<string>)
    requires |ps| >= 1
    ensures JoinPieces([x + ps[0]] + ps[1..]) == x + JoinPieces(ps)
  {
    var qs := [x + ps[0]] + ps[1..];
    if |ps| > 1 {
      assert qs[1..] == ps[1..];
      assert JoinPieces(qs) == (x + ps[0]) + [Sep] + JoinPieces(ps[1..]);
      assert JoinPieces(ps) == ps[0] + [Sep] + JoinPieces(ps[1..]);
    }
  }

  /** A separator between two strings splits exactly there. */
  lemma {:induction false} SplitSep(a: string, b: string)
    ensures Split(a + [Sep] + b) == Split(a) + Split(b)
    decreases |a|
  {
    if a == [] {
      assert a + [Sep] + b == [Sep] + b;
      assert ([Sep] + b)[1..] == b;
    } else {
      assert (a + [Sep] + b)[1..] == a[1..] + [Sep] + b;
      SplitSep(a[1..], b);
    }
  }

  lemma {:induction false} KeepAppend(x: seq<string>, y: seq<string>)
    requires forall i :: 0 <= i < |x| ==> Sep !in x[i]
    requires forall i :: 0 <= i < |y| ==> Sep !in y[i]
    ensures Keep(x + y) == Keep(x) + Keep(y)
  {
    if x == [] {
      assert x + y == y;
    } else {
      assert (x + y)[1..] == x[1..] + y;
      KeepAppend(x[1..], y);
    }
  }

  /**
    Normalising two strings joined by a separator concatenates their segments;
    only the first string decides absoluteness.
   */
  lemma NormalizeSep(a: string, b: string)
    ensures Normalize(a + "/" + b).segs == Normalize(a).segs + Normalize(b).segs
    ensures Normalize(a + "/" + b).absolute <==> a == "" || IsAbsoluteString(a)
  {
    SplitSep(a, b);
    KeepAppend(Split(a), Split(b));
    if a != [] {
      assert (a + "/" + b)[0] == a[0];
    }
  }

  /** Repeated separators and "." segments disappear. */
  lemma NormalizeExample()
    ensures Normalize("a//./b").segs == ["a", "b"]
  {
    var s := "a" + [Sep] + ("" + [Sep] + ("." + [Sep] + "b"));
    assert s == "a//./b" by {
      assert |s| == 6 && s[0] == 'a' && s[1] == '/' && s[2] == '/' && s[3] == '.' && s[4] == '/' && s[5] == 'b';
    }
    assert Split(s) == ["a", "", ".", "b"] by {
      SplitOne('a');
      SplitOne('b');
      SplitOne('.');
      assert Split("") == [""];
      SplitSep(".", "b");
      SplitSep("", "." + [Sep] + "b");
      SplitSep("a", "" + [Sep] + ("." + [Sep] + "b"));
    }
    assert Keep(["a", "", ".", "b"]) == ["a", "b"] by {
      var ps: seq<string> := ["a", "", ".", "b"];
      assert ps[1..] == ["", ".", "b"] && ps[2..] == [".", "b"] && ps[3..] == ["b"] && ps[4..] == [];
    }
  }

  lemma SplitOne(c: char)
    requires c != Sep
    ensures Split([c]) == [[c]]
  {
    assert [c][1..] == "";
    assert [c] + "" == [c];
  }

  // ---------------------------------------------------------------------------
  // join, resolve, relative, dirname

  /** `path.join(a, b)`: the segments are concatenated; only `a` decides absoluteness. */
  function Join(a: Path, b: Path): (r: Path)
    ensures r.absolute == a.absolute && |r.segs| == |a.segs| + |b.segs|
    ensures r.segs[..|a.segs|] == a.segs && r.segs[|a.segs|..] == b.segs
    ensures Valid(a) && Valid(b) ==> Valid(r)
  {
    Path(a.absolute, a.segs + b.segs)
  }

  /** `path.resolve(base, p)` for a resolved base: an absolute `p` wins, otherwise it is joined onto `base`. */
  function Resolve(base: Path, p: Path): (r: Path)
    ensures p.absolute ==> r == p
    ensures !p.absolute ==> r.absolute == base.absolute && r.segs == base.segs + p.segs
  {
    if p.absolute then p else Join(base, p)
  }

  /** Length of the longest common prefix of two segment sequences. */
  function CommonPrefix(a: seq<string>, b: seq<string>): (k: nat)
    ensures k <= |a| && k <= |b|
    ensures a[..k] == b[..k]
    ensures k < |a| && k < |b| ==> a[k] != b[k]
  {
    if a == [] || b == [] || a[0] != b[0] then 0
    else
      var k := 1 + CommonPrefix(a[1..], b[1..]);
      assert a[..k] == [a[0]] + a[1..][..k - 1];
      assert b[..k] == [b[0]] + b[1..][..k - 1];
      k
  }

  function Ups(n: nat): (r: seq<string>)
    ensures |r| == n && forall i :: 0 <= i < n ==> r[i] == ".."
  {
    if n == 0 then [] else [".."] + Ups(n - 1)
  }

  /**
    `path.relative(from, to)` for two resolved paths: leave `from` up to the
    common prefix with ".." segments, then descend into the rest of `to`.
   */
  function Relative(from: Path, to: Path): (r: Path)
    ensures !r.absolute
    ensures Under(from, to) ==> r == Path(false, to.segs[|from.segs|..])
    ensures !Under(from, to) ==> |r.segs| > 0 && r.segs[0] == ".."
  {
    var k := CommonPrefix(from.segs, to.segs);
    Path(false, Ups(|from.segs| - k) + to.segs[k..])
  }

  /** `path.dirname`: drop the last segment; the root and "." are their own dirname. */
  function Dirname(p: Path): (r: Path)
    ensures r.absolute == p.absolute
    ensures |p.segs| > 0 ==> p.segs == r.segs + [p.segs[|p.segs| - 1]]
    ensures |p.segs| == 0 ==> r == p
  {
    if |p.segs| == 0 then p else Path(p.absolute, p.segs[..|p.segs| - 1])
  }

  /** A path lies under a directory when the directory's segments are a prefix of its own. */
  predicate Under(dir: Path, p: Path)
  {
    |dir.segs| <= |p.segs| && p.segs[..|dir.segs|] == dir.segs
  }

  /** A path under `dir` is `dir`'s segments followed by the rest of its own. */
  lemma UnderSegments(dir: Path, p: Path)
    requires Under(dir, p)
    ensures p.segs == dir.segs + p.segs[|dir.segs|..]
  {
  }

  /** Joining a directory with a path made relative to it restores the path. */
  lemma JoinRelative(dir: Path, p: Path)
    requires Under(dir, p) && dir.absolute == p.absolute
    ensures Join(dir, Relative(dir, p)) == p
  {
    assert dir.segs + p.segs[|dir.segs|..] == p.segs;
  }

  /** Relative to its own directory, a path is its last segment. */
  lemma RelativeToDirname(p: Path)
    requires |p.segs| > 0
    ensures Relative(Dirname(p), p) == Path(false, [p.segs[|p.segs| - 1]])
  {
    assert Under(Dirname(p), p);
  }

  // ---------------------------------------------------------------------------
  // extname

  /** Index of the last '.' in `s`. */
  function LastDot(s: string): (r: nat)
    ensures r <= |s|
    ensures r < |s| ==> s[r] == '.' && forall j :: r < j < |s| ==> s[j] != '.'
    ensures r == |s| ==> '.' !in s
  {
    if |s| == 0 then 0
    else if s[|s| - 1] == '.' then |s| - 1
    else
      var r := LastDot(s[..|s| - 1]);
      if r == |s| - 1 then |s| else r
  }

  /**
    `path.extname` of one segment: from the last '.' to the end, except that a
    dot that starts the name ('.bashrc') and the name ".." give no extension.
   */
  function Extension(seg: string): (e: string)
    ensures e != "" ==> e[0] == '.' && |e| < |seg| && seg[|seg| - |e|..] == e && '.' !in e[1..]
    ensures e == "" <==> (|seg| == 0 || '.' !in seg[1..] || seg == "..")
  {
    var i := LastDot(seg);
    if i == |seg| || i == 0 || seg == ".." then
      assert i < |seg| && i == 0 ==> forall j :: 0 < j < |seg| ==> seg[j] != '.';
      ""
    else
      assert seg[1..][i - 1] == '.';
      assert forall j :: 0 <= j < |seg[i..]| - 1 ==> seg[i..][1..][j] == seg[i + 1 + j];
      seg[i..]
  }

  /** `path.extname` of a normalised path: the extension of its last segment. */
  function Extname(p: Path): (e: string)
    ensures |p.segs| == 0 ==> e == ""
    ensures e != "" ==> |p.segs| > 0 && var last := p.segs[|p.segs| - 1];
      e[0] == '.' && |e| < |last| && last[|last| - |e|..] == e && '.' !in e[1..]
    ensures |p.segs| > 0 ==> var last := p.segs[|p.segs| - 1];
      (e == "" <==> (|last| == 0 || '.' !in last[1..] || last == ".."))
  {
    if |p.segs| == 0 then "" else Extension(p.segs[|p.segs| - 1])
  }
}
