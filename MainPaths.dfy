/**
 * The path helpers of the host page (src/main.ts): `normalizeBase` and
 * `join`, which build the base URL, the `vite/` prefix and the preview URL.
 */
module MainPaths {
  import opened Strings

  /**
   * `normalizeBase(b)`: a trailing slash is added when missing, then slash
   * runs are collapsed. The first character and all non-slash content are
   * kept.
   */
  function NormalizeBase(b: string): (r: string)
    ensures EndsWith(r, "/") && NoDoubleSlash(r)
    ensures Slashless(r) == Slashless(b)
    ensures b != [] ==> r[0] == b[0]
  {
    var t := if EndsWith(b, "/") then b else b + "/";
    SlashlessAppend(b, "/");
    assert b != [] ==> t[0] == b[0];
    CollapseSlashes(t)
  }

  lemma NormalizeBaseIdempotent(b: string)
    ensures NormalizeBase(NormalizeBase(b)) == NormalizeBase(b)
  {
  }

  /** `a.replace(/\/+$/, "/")`: a trailing run of slashes becomes one slash. */
  function CollapseTrailing(a: string): (r: string)
    ensures EndsWith(r, "/") == EndsWith(a, "/")
    ensures Slashless(r) == Slashless(a)
  {
    if EndsWith(a, "/") then
      var t := TrimTrailing(a);
      SlashlessAppend(t, Slashes(|a| - |t|));
      SlashlessOfSlashes(|a| - |t|);
      SlashlessAppend(t, "/");
      t + "/"
    else a
  }

  /**
   * `join(a, b)`: a directory path whose non-slash content is that of `a`
   * followed by that of `b`.
   */
  function Join(a: string, b: string): (r: string)
    ensures EndsWith(r, "/") && NoDoubleSlash(r)
    ensures Slashless(r) == Slashless(a) + Slashless(b)
  {
    var l := StripLeading(b);
    SlashlessAppend(Slashes(|b| - |l|), l);
    SlashlessOfSlashes(|b| - |l|);
    SlashlessAppend(CollapseTrailing(a), l);
    NormalizeBase(CollapseTrailing(a) + l)
  }

  /**
   * Joining onto a path that ends with a slash is normalising the plain
   * concatenation: the trailing collapse of `a` and the leading strip of `b`
   * only anticipate what `normalizeBase` does anyway.
   */
  lemma JoinOnDirectory(a: string, b: string)
    requires EndsWith(a, "/")
    ensures Join(a, b) == NormalizeBase(a + b)
  {
    JoinAsRun(a, b);
    var k := SeamRun(a, b);
    NormalizeRun(TrimTrailing(a), k, StripLeading(b));
  }

  /** The slashes around the seam of `a + b` form one run, of length `k`. */
  lemma SeamRun(a: string, b: string) returns (k: nat)
    requires EndsWith(a, "/")
    ensures k >= 1 && a + b == TrimTrailing(a) + Slashes(k) + StripLeading(b)
  {
    var t, u := TrimTrailing(a), StripLeading(b);
    var p, q := |a| - |t|, |b| - |u|;
    TrimTrailingShortens(a);
    SlashesAdd(p, q);
    k := p + q;
    assert a + b == t + (Slashes(p) + Slashes(q)) + u;
  }

  /** The two edits `join` makes before normalising, on a directory `a`. */
  lemma JoinAsRun(a: string, b: string)
    requires EndsWith(a, "/")
    ensures Join(a, b) == NormalizeBase(TrimTrailing(a) + "/" + StripLeading(b))
  {
    TrimTrailingShortens(a);
    assert CollapseTrailing(a) == TrimTrailing(a) + "/";
  }

  /** A run of slashes inside a base normalises like a single slash. */
  lemma NormalizeRun(t: string, k: nat, u: string)
    requires k >= 1
    ensures NormalizeBase(t + Slashes(k) + u) == NormalizeBase(t + "/" + u)
  {
    if u == [] {
      NormalizeTrailingRun(t, k);
    } else {
      SameEnd(t, Slashes(k), "/", u);
      if EndsWith(u, "/") {
        CollapseRun(t, k, u);
      } else {
        NormalizeInnerRun(t, k, u);
      }
    }
  }

  lemma NormalizeTrailingRun(t: string, k: nat)
    requires k >= 1
    ensures NormalizeBase(t + Slashes(k) + []) == NormalizeBase(t + "/" + [])
  {
    assert EndsWith(t + Slashes(k) + [], "/");
    assert EndsWith(t + "/" + [], "/");
    CollapseRun(t, k, []);
  }

  lemma NormalizeInnerRun(t: string, k: nat, u: string)
    requires k >= 1 && u != [] && !EndsWith(u, "/")
    ensures NormalizeBase(t + Slashes(k) + u) == NormalizeBase(t + "/" + u)
  {
    SameEnd(t, Slashes(k), "/", u);
    assert t + Slashes(k) + u + "/" == t + Slashes(k) + (u + "/");
    assert t + "/" + u + "/" == t + "/" + (u + "/");
    CollapseRun(t, k, u + "/");
  }

  lemma SameEnd(t: string, x: string, y: string, u: string)
    requires u != []
    ensures EndsWith(t + x + u, "/") == EndsWith(u, "/") == EndsWith(t + y + u, "/")
  {
    assert (t + x + u)[|t + x + u| - 1] == u[|u| - 1];
    assert (t + y + u)[|t + y + u| - 1] == u[|u| - 1];
  }

  /** Joining a clean relative directory onto a clean directory is plain
      concatenation. */
  lemma JoinCleanDirectories(a: string, b: string)
    requires EndsWith(a, "/") && NoDoubleSlash(a)
    requires b != [] && b[0] != '/' && EndsWith(b, "/") && NoDoubleSlash(b)
    ensures Join(a, b) == a + b
  {
    JoinOnDirectory(a, b);
    NoDoubleSlashAppend(a, b);
    EndsWithConcat(a, b, "/");
    NormalizeClean(a + b);
  }

  /** `normalizeBase` leaves a clean directory path as it is. */
  lemma NormalizeClean(w: string)
    requires EndsWith(w, "/") && NoDoubleSlash(w)
    ensures NormalizeBase(w) == w
  {
  }

  /** Onto a path without a trailing slash, `join` inserts no separator. */
  lemma JoinWithoutTrailingSlash(a: string, b: string)
    requires !EndsWith(a, "/")
    ensures Join(a, b) == NormalizeBase(a + StripLeading(b))
  {
    assert CollapseTrailing(a) == a;
  }

  /** So a base without its trailing slash is glued to what follows with no
      separator: `join("/repo", "vite/")` is `/repovite/`. */
  lemma JoinGluesWithoutSeparator(a: string, b: string)
    requires a != [] && a[|a| - 1] != '/' && NoDoubleSlash(a)
    requires b != [] && b[0] != '/' && EndsWith(b, "/") && NoDoubleSlash(b)
    ensures Join(a, b) == a + b
  {
    assert !EndsWith(a, "/");
    JoinWithoutTrailingSlash(a, b);
    assert StripLeading(b) == b;
    NoDoubleSlashAppend(a, b);
    EndsWithConcat(a, b, "/");
    NormalizeClean(a + b);
  }

  /** Joining `seg/` onto a clean directory adds that subdirectory. */
  lemma JoinSubdir(p: string, seg: string)
    requires EndsWith(p, "/") && NoDoubleSlash(p)
    requires seg != [] && SlashFree(seg)
    ensures Join(p, seg + "/") == p + (seg + "/")
  {
    CleanSubdir(seg);
    JoinCleanDirectories(p, seg + "/");
  }

  /** `seg/` is a clean relative directory. */
  lemma CleanSubdir(seg: string)
    requires seg != [] && SlashFree(seg)
    ensures var d := seg + "/"; d != [] && d[0] != '/' && EndsWith(d, "/") && NoDoubleSlash(d)
  {
    var d := seg + "/";
    SlashFreeClean(seg);
    NoDoubleSlashAppend(seg, "/");
    assert d[0] == seg[0] && d[|d| - 1] == '/';
  }

  /** Joining a file name onto a clean directory still ends with a slash:
      `join` always yields a directory path. */
  lemma JoinFile(p: string, f: string)
    requires EndsWith(p, "/") && NoDoubleSlash(p)
    requires f != [] && SlashFree(f)
    ensures Join(p, f) == (p + f) + "/"
  {
    var t := p + f;
    JoinOnDirectory(p, f);
    assert t[|t| - 1] == f[|f| - 1];
    assert !EndsWith(t, "/");
    SlashFreeClean(f);
    NoDoubleSlashAppend(p, f);
    NoDoubleSlashAppend(t, "/");
    assert NormalizeBase(t) == CollapseSlashes(t + "/");
  }
}
