/**
 * String operations behind the slash-normalising regular expressions of the
 * preview host (`/\/+/g`, `/^\/+/`, `/\/+$/`) and the `startsWith`/`endsWith`
 * tests of the HMR engine, stated on `seq<char>`.
 */
module Strings {

  predicate StartsWith(s: string, prefix: string) {
    |prefix| <= |s| && s[..|prefix|] == prefix
  }

  predicate EndsWith(s: string, suffix: string) {
    |suffix| <= |s| && s[|s| - |suffix|..] == suffix
  }

  /** A run of `n` slashes. */
  function Slashes(n: nat): (r: string)
    ensures |r| == n
    ensures forall k :: 0 <= k < n ==> r[k] == '/'
  {
    if n == 0 then "" else "/" + Slashes(n - 1)
  }

  /** No two adjacent slashes: what `replace(/\/+/g, '/')` guarantees. */
  predicate NoDoubleSlash(s: string) {
    |s| <= 1 || (!(s[0] == '/' && s[1] == '/') && NoDoubleSlash(s[1..]))
  }

  /** The characters of `s` other than `/`, in order: the content that slash
      normalisation must keep. */
  function Slashless(s: string): string {
    if s == [] then []
    else (if s[0] == '/' then [] else [s[0]]) + Slashless(s[1..])
  }

  lemma {:induction false} SlashlessAppend(x: string, y: string)
    ensures Slashless(x + y) == Slashless(x) + Slashless(y)
  {
    if x != [] {
      assert (x + y)[1..] == x[1..] + y;
      SlashlessAppend(x[1..], y);
    } else {
      assert x + y == y;
    }
  }

  lemma {:induction false} SlashlessOfSlashes(n: nat)
    ensures Slashless(Slashes(n)) == []
  {
    if n > 0 {
      assert Slashes(n)[1..] == Slashes(n - 1);
      SlashlessOfSlashes(n - 1);
    }
  }

  /**
   * `s.replace(/\/+/g, '/')`: every maximal run of slashes becomes one slash.
   * The result has no double slash, keeps all other characters in order,
   * keeps the first and the last character, and leaves a string that already
   * has no double slash as it is.
   */
  function CollapseSlashes(s: string): (r: string)
    ensures |r| <= |s|
    ensures NoDoubleSlash(r)
    ensures Slashless(r) == Slashless(s)
    ensures |s| > 0 ==> |r| > 0 && r[0] == s[0] && r[|r| - 1] == s[|s| - 1]
    ensures NoDoubleSlash(s) ==> r == s
  {
    if |s| <= 1 then s
    else if s[0] == '/' && s[1] == '/' then CollapseSlashes(s[1..])
    else [s[0]] + CollapseSlashes(s[1..])
  }

  lemma CollapseIdempotent(s: string)
    ensures CollapseSlashes(CollapseSlashes(s)) == CollapseSlashes(s)
  {
  }

  /** Collapsing distributes over a concatenation whose seam is not a double
      slash, when the right part is already collapsed. */
  lemma {:induction false} CollapseAppend(x: string, y: string)
    requires NoDoubleSlash(y)
    requires !(|x| > 0 && |y| > 0 && x[|x| - 1] == '/' && y[0] == '/')
    ensures CollapseSlashes(x + y) == CollapseSlashes(x) + y
  {
    var s := x + y;
    if |x| == 0 {
      assert s == y;
    } else if |y| == 0 {
      assert s == x;
    } else if |x| == 1 {
      assert s[1..] == y;
      assert !(s[0] == '/' && s[1] == '/');
      assert CollapseSlashes(s) == [s[0]] + CollapseSlashes(y);
    } else {
      assert s[0] == x[0] && s[1] == x[1];
      assert s[1..] == x[1..] + y;
      CollapseAppend(x[1..], y);
      if x[0] == '/' && x[1] == '/' {
        assert CollapseSlashes(s) == CollapseSlashes(x[1..] + y);
      } else {
        calc {
          CollapseSlashes(s);
          [x[0]] + CollapseSlashes(x[1..] + y);
          [x[0]] + (CollapseSlashes(x[1..]) + y);
          ([x[0]] + CollapseSlashes(x[1..])) + y;
        }
      }
    }
  }

  /** A run of slashes of any positive length collapses like a single slash. */
  lemma {:induction false} CollapseRun(x: string, k: nat, y: string)
    requires k >= 1
    ensures CollapseSlashes(x + Slashes(k) + y) == CollapseSlashes(x + "/" + y)
    decreases |x|, k
  {
    var s1, s2 := x + Slashes(k) + y, x + "/" + y;
    if |x| == 0 {
      if k > 1 {
        assert s1[0] == '/' && s1[1] == '/';
        assert s1[1..] == x + Slashes(k - 1) + y;
        CollapseRun(x, k - 1, y);
      } else {
        assert Slashes(1) == "/";
      }
    } else {
      assert s1[0] == s2[0] && s1[1] == s2[1];
      assert s1[1..] == x[1..] + Slashes(k) + y;
      assert s2[1..] == x[1..] + "/" + y;
      CollapseRun(x[1..], k, y);
      if s1[0] == '/' && s1[1] == '/' {
        assert CollapseSlashes(s1) == CollapseSlashes(s1[1..]);
        assert CollapseSlashes(s2) == CollapseSlashes(s2[1..]);
      } else {
        assert CollapseSlashes(s1) == [s1[0]] + CollapseSlashes(s1[1..]);
        assert CollapseSlashes(s2) == [s2[0]] + CollapseSlashes(s2[1..]);
      }
    }
  }

  /** `s.replace(/^\/+/, '')`: drops the leading run of slashes. */
  function StripLeading(s: string): (r: string)
    ensures |r| <= |s|
    ensures s == Slashes(|s| - |r|) + r
    ensures r == [] || r[0] != '/'
  {
    if |s| > 0 && s[0] == '/' then StripLeading(s[1..]) else s
  }

  /** `s.replace(/\/+$/, '')`: drops the trailing run of slashes. */
  function TrimTrailing(s: string): (r: string)
    ensures |r| <= |s|
    ensures s == r + Slashes(|s| - |r|)
    ensures r == [] || r[|r| - 1] != '/'
  {
    if |s| > 0 && s[|s| - 1] == '/' then TrimTrailing(s[..|s| - 1]) else s
  }

  lemma {:induction false} NoDoubleSlashAppend(x: string, y: string)
    requires NoDoubleSlash(x) && NoDoubleSlash(y)
    requires !(|x| > 0 && |y| > 0 && x[|x| - 1] == '/' && y[0] == '/')
    ensures NoDoubleSlash(x + y)
  {
    if |x| == 0 {
      assert x + y == y;
    } else if |y| == 0 {
      assert x + y == x;
    } else {
      assert (x + y)[1..] == x[1..] + y;
      NoDoubleSlashAppend(x[1..], y);
    }
  }

  /** Whether `stem + ext` ends with `suf` is decided by `ext` alone, up to
      the part of `suf` that is longer than `ext`. */
  lemma EndsWithConcat(stem: string, ext: string, suf: string)
    ensures EndsWith(stem + ext, suf) ==>
              EndsWith(ext, suf) || (|suf| > |ext| && ext == suf[|suf| - |ext|..])
    ensures EndsWith(ext, suf) ==> EndsWith(stem + ext, suf)
  {
    var s := stem + ext;
    if |suf| <= |ext| {
      assert s[|s| - |suf|..] == ext[|ext| - |suf|..];
    } else if EndsWith(s, suf) {
      assert s[|s| - |ext|..] == ext;
      assert suf[|suf| - |ext|..] == s[|s| - |ext|..];
    }
  }

  lemma {:induction false} SlashesAdd(p: nat, q: nat)
    ensures Slashes(p) + Slashes(q) == Slashes(p + q)
  {
    if p > 0 {
      SlashesAdd(p - 1, q);
      assert Slashes(p) + Slashes(q) == "/" + (Slashes(p - 1) + Slashes(q));
    }
  }

  lemma TrimTrailingShortens(s: string)
    requires EndsWith(s, "/")
    ensures |TrimTrailing(s)| < |s|
  {
    assert s[|s| - 1] == '/';
  }

  /** `s || '/'`: an empty (falsy) string falls back to the root. */
  function OrSlash(s: string): (r: string)
    ensures r != []
    ensures s == [] ==> r == "/"
    ensures s != [] ==> r == s
  {
    if s == [] then "/" else s
  }

  /** A path segment with no slash in it, such as `vite` or `preview`. */
  predicate SlashFree(seg: string) {
    forall k :: 0 <= k < |seg| ==> seg[k] != '/'
  }

  lemma {:induction false} SlashFreeClean(seg: string)
    requires SlashFree(seg)
    ensures NoDoubleSlash(seg) && NoDoubleSlash("/" + seg)
    decreases |seg|
  {
    if |seg| > 0 {
      SlashFreeClean(seg[1..]);
      assert ("/" + seg)[1..] == seg;
    }
  }

  lemma StartsWithConcat(q: string, f: string)
    ensures StartsWith(q + f, q)
  {
    assert (q + f)[..|q|] == q;
  }

  /** A suffix appended after a slash ends the result together with it. */
  lemma EndsWithAfterSlash(q: string, d: string)
    requires EndsWith(q, "/")
    ensures EndsWith(q + d, "/" + d)
  {
    var s := q + d;
    assert s[|s| - |d| - 1..] == q[|q| - 1..] + d;
  }

  lemma {:induction false} SlashlessOfSlashFree(seg: string)
    requires SlashFree(seg)
    ensures Slashless(seg) == seg
  {
    if seg != [] {
      SlashlessOfSlashFree(seg[1..]);
    }
  }

  /** A name without slashes, appended to anything, leaves no trailing
      slash. */
  lemma NoTrailingSlashAfter(q: string, f: string)
    requires f != [] && SlashFree(f)
    ensures !EndsWith(q + f, "/")
  {
    var s := q + f;
    assert s[|s| - 1] == f[|f| - 1];
  }
}
