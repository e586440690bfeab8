/**
 * The string and path operations of Rust's standard library that the
 * naming code relies on: `starts_with`, `strip_prefix`, `replace`,
 * `rsplit_once` and `PathBuf::push` (Unix semantics).
 */
module Text {
  import opened Wrappers

  /** `s.starts_with(prefix)` */
  predicate StartsWith(s: string, prefix: string) {
    |prefix| <= |s| && s[..|prefix|] == prefix
  }

  /** `s.ends_with(suffix)` */
  predicate EndsWith(s: string, suffix: string) {
    |suffix| <= |s| && s[|s| - |suffix|..] == suffix
  }

  /** `pat` occurs somewhere in `s` (`s.contains(pat)`). */
  predicate Contains(s: string, pat: string)
    decreases |s|
  {
    StartsWith(s, pat) || (s != [] && Contains(s[1..], pat))
  }

  /** A one-character pattern occurs exactly when the character does. */
  lemma {:induction false} ContainsChar(s: string, c: char)
    ensures Contains(s, [c]) <==> c in s
    decreases |s|
  {
    if s != [] {
      ContainsChar(s[1..], c);
      assert s == [s[0]] + s[1..];
    }
  }

  /**
   * `s.replace(pat, rep)`: scanning left to right, every occurrence of
   * `pat` that does not overlap an earlier replaced one becomes `rep`.
   */
  function Replace(s: string, pat: string, rep: string): (r: string)
    requires pat != []
    ensures !Contains(s, pat) ==> r == s
    ensures forall c :: c in r ==> c in s || c in rep
    decreases |s|
  {
    if StartsWith(s, pat) then rep + Replace(s[|pat|..], pat, rep)
    else if s == [] then []
    else [s[0]] + Replace(s[1..], pat, rep)
  }

  /**
   * The first occurrence of `pat` is the one replaced: when no occurrence
   * starts inside `a`, the `pat` right after `a` becomes `rep` and the
   * scan goes on in `b`.
   */
  lemma {:induction false} ReplaceFirstMatch(a: string, pat: string, b: string, rep: string)
    requires pat != [] && !Contains(a + pat[..|pat| - 1], pat)
    ensures Replace(a + pat + b, pat, rep) == a + rep + Replace(b, pat, rep)
    decreases |a|
  {
    if a == [] {
      assert a + pat + b == pat + b;
      ReplaceAtFront(pat, b, rep);
    } else {
      ReplacePastFront(a, pat, b, rep);
      ReplaceFirstMatch(a[1..], pat, b, rep);
      ConsTail(a, rep, Replace(b, pat, rep));
    }
  }

  /** Consing the head of `a` back on its tail gives `a`. */
  lemma ConsTail(a: string, u: string, v: string)
    requires a != []
    ensures [a[0]] + (a[1..] + u + v) == a + u + v
  {
    assert a == [a[0]] + a[1..];
  }

  /**
   * The step of `ReplaceFirstMatch`: the first character of `a` starts no
   * match, so it is copied, and the rest of `a` still starts none.
   */
  lemma ReplacePastFront(a: string, pat: string, b: string, rep: string)
    requires pat != [] && a != [] && !Contains(a + pat[..|pat| - 1], pat)
    ensures Replace(a + pat + b, pat, rep) == [a[0]] + Replace(a[1..] + pat + b, pat, rep)
    ensures !Contains(a[1..] + pat[..|pat| - 1], pat)
  {
    var x := a + pat[..|pat| - 1];
    var s := a + pat + b;
    assert x[1..] == a[1..] + pat[..|pat| - 1];
    assert s[..|pat|] == x[..|pat|];
    assert s[1..] == a[1..] + pat + b;
  }

  /** A string that starts with `pat` has that `pat` replaced first. */
  lemma ReplaceAtFront(pat: string, b: string, rep: string)
    requires pat != []
    ensures Replace(pat + b, pat, rep) == rep + Replace(b, pat, rep)
  {
    var s := pat + b;
    assert s[..|pat|] == pat && s[|pat|..] == b;
  }

  /** Replacing a character by text free of it leaves no occurrence of it. */
  lemma {:induction false} ReplaceCharRemovesAll(s: string, c: char, rep: string)
    requires c !in rep
    ensures c !in Replace(s, [c], rep)
    decreases |s|
  {
    if StartsWith(s, [c]) {
      ReplaceCharRemovesAll(s[1..], c, rep);
    } else if s != [] {
      assert s[..1] == [s[0]];
      ReplaceCharRemovesAll(s[1..], c, rep);
    }
  }

  /**
   * `replace("..", "_")` leaves no `..` behind: a `.` copied through is
   * never followed by another `.`, and `_` never starts a pair.
   */
  lemma {:induction false} ReplaceClearsDoubleDot(s: string)
    ensures !Contains(Replace(s, "..", "_"), "..")
    decreases |s|
  {
    var r := Replace(s, "..", "_");
    if StartsWith(s, "..") {
      var t := Replace(s[2..], "..", "_");
      ReplaceClearsDoubleDot(s[2..]);
      assert r == "_" + t && r[1..] == t && r[0] == '_';
      assert !StartsWith(r, "..") by { if |r| >= 2 { assert r[..2][0] == '_'; } }
    } else if s != [] {
      var t := Replace(s[1..], "..", "_");
      ReplaceClearsDoubleDot(s[1..]);
      assert r == [s[0]] + t && r[1..] == t;
      if s[0] == '.' && t != [] {
        // s[1] exists and is not '.', else s would start with ".."
        assert |s| >= 2 by { assert s[1..] != []; }
        assert s[..2] == [s[0], s[1]];
        var u := s[1..];
        if StartsWith(u, "..") { assert u[0] == s[1]; }
        else { assert u == [u[0]] + u[1..]; }
        assert t[0] == '_' || t[0] == s[1];
      }
    }
  }

  /**
   * `s.rsplit('/').last()`: the longest suffix of `s` free of `sep`, so all
   * of `s` when `sep` does not occur.
   */
  function LastSegment(s: string, sep: char): (seg: string)
    ensures sep !in seg && EndsWith(s, seg)
    ensures |seg| < |s| ==> s[|s| - |seg| - 1] == sep
    decreases |s|
  {
    if s == [] || s[|s| - 1] == sep then []
    else LastSegment(s[..|s| - 1], sep) + [s[|s| - 1]]
  }

  /** `s.rsplit_once(sep)`: the text before and after the last `sep`. */
  function RSplitOnce(s: string, sep: char): (r: Option<(string, string)>)
    ensures r.None? <==> sep !in s
    ensures r.Some? ==> s == r.value.0 + [sep] + r.value.1 && r.value.1 == LastSegment(s, sep)
    decreases |s|
  {
    if s == [] then None
    else if s[|s| - 1] == sep then Some((s[..|s| - 1], []))
    else match RSplitOnce(s[..|s| - 1], sep)
      case None => None
      case Some((head, tail)) => Some((head, tail + [s[|s| - 1]]))
  }

  /** Whatever follows a separator and holds none is the last segment. */
  lemma {:induction false} LastSegmentAfterSeparator(dir: string, name: string, sep: char)
    requires dir == [] || dir[|dir| - 1] == sep
    requires sep !in name
    ensures LastSegment(dir + name, sep) == name
    decreases |name|
  {
    if name != [] {
      var n := |name| - 1;
      assert (dir + name)[..|dir + name| - 1] == dir + name[..n];
      LastSegmentAfterSeparator(dir, name[..n], sep);
      assert name == name[..n] + [name[n]];
    }
  }

  /**
   * `PathBuf::push` on Unix: an absolute `name` replaces `base`; otherwise a
   * `/` is inserted unless `base` is empty or already ends with one.
   */
  function PathPush(base: string, name: string): (p: string)
    ensures EndsWith(p, name)
    ensures !StartsWith(name, "/") ==> StartsWith(p, base)
    ensures StartsWith(name, "/") ==> p == name
    ensures !StartsWith(name, "/") ==> p == base + name || p == base + "/" + name
  {
    if StartsWith(name, "/") then name
    else if base != [] && base[|base| - 1] != '/' then base + "/" + name
    else base + name
  }

  /** A pushed name free of `/` is the last segment of the resulting path. */
  lemma PathPushLastSegment(base: string, name: string)
    requires '/' !in name
    ensures LastSegment(PathPush(base, name), '/') == name
  {
    if base != [] && base[|base| - 1] != '/' {
      LastSegmentAfterSeparator(base + "/", name, '/');
      assert (base + "/") + name == base + "/" + name;
    } else {
      LastSegmentAfterSeparator(base, name, '/');
    }
  }
}
