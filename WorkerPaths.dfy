/**
 * The path helpers of the preview worker (src/vite/worker.ts): `dir`,
 * `pathJoin` and the COMPILE_REQUEST key rewrite.
 */
module WorkerPaths {
  import opened Strings

  /**
   * `dir(p)`: an absolute directory path. Slash runs are collapsed and a
   * trailing slash is added when missing; no other character is touched.
   */
  function Dir(p: string): (r: string)
    ensures StartsWith(r, "/") && EndsWith(r, "/") && NoDoubleSlash(r)
    ensures Slashless(r) == Slashless(p)
  {
    assert ("/" + p)[1..] == p;
    var s := CollapseSlashes("/" + p);
    if EndsWith(s, "/") then s
    else
      NoDoubleSlashAppend(s, "/");
      SlashlessAppend(s, "/");
      s + "/"
  }

  lemma DirIdempotent(p: string)
    ensures Dir(Dir(p)) == Dir(p)
  {
    var d := Dir(p);
    var s := "/" + d;
    assert d[..1] == "/";
    assert s[0] == '/' && s[1] == '/' && s[1..] == d;
    assert CollapseSlashes(s) == CollapseSlashes(d) == d;
  }

  /** One `pathJoin` argument after `replace(/^\/+|\/+$/g, '')`. */
  function StripSegment(s: string): (r: string)
    ensures r == [] || (r[0] != '/' && r[|r| - 1] != '/')
    ensures Slashless(r) == Slashless(s)
  {
    var l := StripLeading(s);
    var r := TrimTrailing(l);
    SlashlessAppend(Slashes(|s| - |l|), l);
    SlashlessOfSlashes(|s| - |l|);
    SlashlessAppend(r, Slashes(|l| - |r|));
    SlashlessOfSlashes(|l| - |r|);
    assert r != [] ==> r[0] == l[0];
    r
  }

  /** The argument list after `.map(strip).filter(Boolean)`: stripped, empty
      segments dropped. */
  function Segments(segs: seq<string>): (r: seq<string>)
    ensures forall k :: 0 <= k < |r| ==> r[k] != [] && r[k][0] != '/' && r[k][|r[k]| - 1] != '/'
    ensures Contents(r) == Contents(segs)
  {
    if segs == [] then []
    else
      var head := StripSegment(segs[0]);
      if head == [] then Segments(segs[1..]) else [head] + Segments(segs[1..])
  }

  /** The non-slash content of a list of segments, concatenated. */
  function Contents(segs: seq<string>): string {
    if segs == [] then [] else Slashless(segs[0]) + Contents(segs[1..])
  }

  /** `segs.join('/')`. */
  function JoinSlash(segs: seq<string>): string {
    if |segs| == 0 then ""
    else if |segs| == 1 then segs[0]
    else segs[0] + "/" + JoinSlash(segs[1..])
  }

  lemma {:induction false} JoinSlashShape(segs: seq<string>)
    requires forall k :: 0 <= k < |segs| ==> segs[k] != [] && segs[k][|segs[k]| - 1] != '/'
    ensures segs != [] ==> JoinSlash(segs) != [] && JoinSlash(segs)[|JoinSlash(segs)| - 1] != '/'
    ensures Slashless(JoinSlash(segs)) == Contents(segs)
  {
    if |segs| == 1 {
      assert Contents(segs) == Slashless(segs[0]) + Contents([]);
    } else if |segs| > 1 {
      var rest := JoinSlash(segs[1..]);
      JoinSlashShape(segs[1..]);
      assert JoinSlash(segs) == segs[0] + "/" + rest;
      SlashlessAppend(segs[0] + "/", rest);
      SlashlessAppend(segs[0], "/");
      assert Slashless("/") == [];
      assert Contents(segs) == Slashless(segs[0]) + Contents(segs[1..]);
    }
  }

  /**
   * `pathJoin(...segs)`: an absolute path with no double slash and no
   * trailing slash unless it is the root, whose non-slash content is that of
   * the arguments in order.
   */
  function PathJoin(segs: seq<string>): (r: string)
    ensures StartsWith(r, "/") && NoDoubleSlash(r)
    ensures r == "/" || !EndsWith(r, "/")
    ensures Slashless(r) == Contents(segs)
  {
    var joined := JoinSlash(Segments(segs));
    JoinSlashShape(Segments(segs));
    assert ("/" + joined)[1..] == joined;
    var r := CollapseSlashes("/" + joined);
    assert joined == [] ==> r == "/";
    r
  }

  lemma PaddedShape(n: nat, c: string, m: nat)
    ensures "/" + (Slashes(n) + c + Slashes(m)) == [] + Slashes(n + 1) + (c + Slashes(m))
    ensures [] + "/" + (c + Slashes(m)) == ("/" + c) + Slashes(m) + []
    ensures ("/" + c) + "/" + [] == "/" + c + "/"
  {
    assert Slashes(n + 1) == "/" + Slashes(n);
  }

  lemma CollapsePadded(n: nat, c: string, m: nat)
    requires m >= 1
    ensures CollapseSlashes("/" + (Slashes(n) + c + Slashes(m))) == CollapseSlashes("/" + c + "/")
  {
    PaddedShape(n, c, m);
    CollapseRun([], n + 1, c + Slashes(m));
    CollapseRun("/" + c, m, []);
  }

  lemma DirOfPadded(n: nat, c: string, m: nat)
    requires m >= 1
    ensures Dir(Slashes(n) + c + Slashes(m)) == CollapseSlashes("/" + c + "/")
  {
    CollapsePadded(n, c, m);
    var d := CollapseSlashes("/" + c + "/");
    assert d[|d| - 1] == '/';
  }

  lemma SegmentsOfPair(a: string, b: string)
    requires b != [] && StripSegment(b) == b
    ensures Segments([a, b]) == (if StripSegment(a) == [] then [b] else [StripSegment(a), b])
  {
    assert [a, b][1..] == [b];
    assert [b][1..] == [];
  }

  lemma JoinPair(c: string, b: string)
    ensures JoinSlash([c, b]) == c + "/" + b
    ensures JoinSlash([b]) == b
  {
    assert [c, b][1..] == [b];
  }

  lemma Regroup(c: string, b: string)
    ensures "/" + (c + "/" + b) == ("/" + c + "/") + b
  {
  }

  /** `pathJoin(a, b)` for a slash-free `b`, by whether `a` has any content
      between its edge slashes. */
  lemma PathJoinPair(a: string, b: string)
    requires b != [] && SlashFree(b)
    ensures PathJoin([a, b])
            == if StripSegment(a) == [] then "/" + b
               else CollapseSlashes("/" + StripSegment(a) + "/") + b
  {
    StripSlashFree(b);
    SlashFreeClean(b);
    SegmentsOfPair(a, b);
    var c := StripSegment(a);
    JoinPair(c, b);
    if c != [] {
      Regroup(c, b);
      CollapseAppend("/" + c + "/", b);
    }
  }

  lemma TrailingRun(url: string, n: nat, c: string, m: nat)
    requires url == Slashes(n) + c + Slashes(m)
    requires EndsWith(url, "/") && c != [] && c[|c| - 1] != '/'
    ensures m >= 1
  {
    assert url[|url| - 1] == '/';
    assert url[|url| - 1] == (c + Slashes(m))[|c| + m - 1];
  }

  /**
   * Joining a slash-free file name onto a directory path gives that
   * directory, in the shape `dir` produces, followed by the name.
   */
  lemma PathJoinFile(url: string, f: string)
    requires EndsWith(url, "/") && Slashless(url) != []
    requires f != [] && SlashFree(f)
    ensures PathJoin([url, f]) == Dir(url) + f
  {
    var l := StripLeading(url);
    var c := TrimTrailing(l);
    var n, m := |url| - |l|, |l| - |c|;
    assert url == Slashes(n) + c + Slashes(m);
    assert c == StripSegment(url);
    assert c != [];
    TrailingRun(url, n, c, m);
    DirOfPadded(n, c, m);
    PathJoinPair(url, f);
  }

  lemma IndexFileName()
    ensures SlashFree("index.html")
  {
  }

  /** The other fixed names the preview host joins onto its directories. */
  lemma SegmentNames()
    ensures SlashFree("vite") && SlashFree("preview") && SlashFree("app.js")
  {
  }

  /** `dir` leaves a path already in directory shape as it is. */
  lemma DirOfDir(x: string)
    requires IsDir(x)
    ensures Dir(x) == x
  {
    var s := "/" + x;
    assert x[..1] == "/";
    assert s[0] == '/' && s[1] == '/' && s[1..] == x;
    assert CollapseSlashes(s) == CollapseSlashes(x) == x;
  }

  /** The COMPILE_REQUEST rewrite of a directory URL. */
  lemma PathJoinIndex(url: string)
    requires EndsWith(url, "/") && Slashless(url) != []
    ensures PathJoin([url, "index.html"]) == Dir(url) + "index.html"
  {
    IndexFileName();
    PathJoinFile(url, "index.html");
  }

  /** The shape `dir` produces: absolute, one trailing slash, no double slash. */
  predicate IsDir(x: string) {
    StartsWith(x, "/") && EndsWith(x, "/") && NoDoubleSlash(x)
  }

  lemma StripSlashFree(seg: string)
    requires seg != [] && SlashFree(seg)
    ensures StripSegment(seg) == seg
  {
    assert StripLeading(seg) == seg;
    assert TrimTrailing(seg) == seg;
  }

  /** `dir` of a clean path without a trailing slash only appends one. */
  lemma DirOfClean(p: string)
    requires StartsWith(p, "/") && NoDoubleSlash(p) && !EndsWith(p, "/")
    ensures Dir(p) == p + "/"
  {
    var s := "/" + p;
    assert s[0] == '/' && s[1] == '/' && s[1..] == p;
    assert CollapseSlashes(s) == CollapseSlashes(p) == p;
  }

  /** A directory other than the root has content between its edge
      slashes. */
  lemma DirInner(x: string)
    requires IsDir(x) && x != "/"
    ensures |x| >= 3 && x[0] == '/' && x[1] != '/' && x[|x| - 2] != '/' && x[|x| - 1] == '/'
  {
    assert x[0] == '/' by {
      assert x[..1] == "/";
    }
    assert |x| >= 2;
    assert x[1] != '/';
    assert x[|x| - 1] == '/';
    assert |x| >= 3;
    NoDoubleSlashTail(x);
  }

  /** The segment of a directory other than the root. */
  lemma StripDir(x: string)
    requires IsDir(x) && x != "/"
    ensures x == "/" + StripSegment(x) + "/"
  {
    DirInner(x);
    var t := x[1..];
    assert t != [] && t[0] != '/';
    assert StripLeading(x) == StripLeading(t) == t;
    assert t[..|t| - 1] == x[1..|x| - 1];
    assert TrimTrailing(t) == TrimTrailing(x[1..|x| - 1]) == x[1..|x| - 1];
    assert x == "/" + x[1..|x| - 1] + "/";
  }

  lemma {:induction false} NoDoubleSlashTail(x: string)
    requires NoDoubleSlash(x) && |x| >= 2 && x[|x| - 1] == '/'
    ensures x[|x| - 2] != '/'
    decreases |x|
  {
    if |x| > 2 {
      assert x[1..][|x| - 2] == x[|x| - 1];
      NoDoubleSlashTail(x[1..]);
    }
  }

  /** `pathJoin(x, seg)` for a directory `x` and a slash-free segment. */
  lemma PathJoinOntoDir(x: string, seg: string)
    requires IsDir(x) && seg != [] && SlashFree(seg)
    ensures PathJoin([x, seg]) == x + seg
  {
    PathJoinPair(x, seg);
    if x == "/" {
      assert StripLeading(x) == [];
    } else {
      StripDir(x);
    }
  }

  /** `dir(pathJoin(x, seg))` for a directory `x` and a slash-free segment:
      the segment as a subdirectory of `x`. */
  lemma SubDir(x: string, seg: string)
    requires IsDir(x) && seg != [] && SlashFree(seg)
    ensures Dir(PathJoin([x, seg])) == x + seg + "/"
    ensures IsDir(x + seg + "/")
  {
    PathJoinOntoDir(x, seg);
    var p := x + seg;
    assert p[|p| - 1] == seg[|seg| - 1];
    assert p[..1] == x[..1];
    DirOfClean(p);
  }
}
