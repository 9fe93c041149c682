/** The part of POSIX `fnmatch.fnmatch` that the snapshot pattern uses: a
    pattern made of literal characters and `*`, matched against the whole
    name. `*` matches any run of characters, '/' included; on POSIX the case
    normalisation fnmatch applies first is the identity. */
module FnMatch {
  import Settings

  /** Patterns this model interprets: no `?` and no `[...]` class. */
  predicate Supported(pattern: string)
  {
    '?' !in pattern && '[' !in pattern
  }

  /** A pattern with no wildcard at all, which matches only itself. */
  predicate Literal(w: string)
  {
    '*' !in w && Supported(w)
  }

  /** `pattern` matches all of `name`. */
  predicate Matches(pattern: string, name: string)
    decreases |pattern| + |name|
  {
    if pattern == [] then name == []
    else if pattern[0] == '*' then
      Matches(pattern[1..], name) || (name != [] && Matches(pattern, name[1..]))
    else
      name != [] && name[0] == pattern[0] && Matches(pattern[1..], name[1..])
  }

  /** `fnmatch.fnmatch(name, pattern)` for the supported patterns. */
  predicate FnMatch(name: string, pattern: string)
    requires Supported(pattern)
  {
    Matches(pattern, name)
  }

  /** `w` occurs in `s` starting at index `i`. */
  predicate OccursAt(s: string, w: string, i: int)
  {
    0 <= i && i + |w| <= |s| && s[i..i + |w|] == w
  }

  const SnapshotDir: string := "/snapshots/snap_"
  const PyExt: string := ".py"

  /** A snapshot path: it ends with ".py" and contains "/snapshots/snap_"
      before that ending. */
  predicate IsSnapshotPath(s: string)
  {
    && |s| >= |PyExt|
    && s[|s| - |PyExt|..] == PyExt
    && exists i | 0 <= i <= |s| :: OccursAt(s, SnapshotDir, i) && i + |SnapshotDir| <= |s| - |PyExt|
  }

  /** A literal pattern prefix consumes exactly itself from the name. */
  lemma {:induction false} LiteralPrefix(w: string, t: string, s: string)
    requires Literal(w)
    ensures Matches(w + t, s) <==> |w| <= |s| && s[..|w|] == w && Matches(t, s[|w|..])
    decreases |w|
  {
    if w != [] {
      assert (w + t)[0] == w[0];
      assert (w + t)[1..] == w[1..] + t;
      if s != [] {
        LiteralPrefix(w[1..], t, s[1..]);
        if |w| <= |s| {
          assert s[1..][|w| - 1..] == s[|w|..];
          assert s[..|w|] == [s[0]] + s[1..][..|w| - 1];
          assert w == [w[0]] + w[1..];
        }
      }
    } else {
      assert w + t == t;
    }
  }

  /** A leading `*` may swallow any prefix of the name. */
  lemma {:induction false} StarPrefix(t: string, s: string)
    ensures Matches("*" + t, s) <==> exists k :: 0 <= k <= |s| && Matches(t, s[k..])
    decreases |s|
  {
    var p := "*" + t;
    assert p[0] == '*' && p[1..] == t;
    if s == [] {
      assert s[0..] == s;
    } else {
      StarPrefix(t, s[1..]);
      if Matches(p, s) {
        if Matches(t, s) {
          assert s[0..] == s;
        } else {
          var k :| 0 <= k <= |s[1..]| && Matches(t, s[1..][k..]);
          assert s[1..][k..] == s[k + 1..];
        }
      }
      if exists k :: 0 <= k <= |s| && Matches(t, s[k..]) {
        var k :| 0 <= k <= |s| && Matches(t, s[k..]);
        if k == 0 {
          assert s[0..] == s;
        } else {
          assert s[1..][k - 1..] == s[k..];
        }
      }
    }
  }

  /** After a leading `*`, a pattern `a*b` with literal `a` and `b` matches a
      name exactly when the name starts with `a` and ends, past it, with `b`. */
  lemma {:induction false} LiteralStarLiteral(a: string, b: string, u: string)
    requires Literal(a) && Literal(b)
    ensures Matches(a + ("*" + b), u) <==>
      |a| + |b| <= |u| && u[..|a|] == a && u[|u| - |b|..] == b
  {
    LiteralPrefix(a, "*" + b, u);
    if |a| <= |u| {
      var v := u[|a|..];
      StarPrefix(b, v);
      assert b + "" == b;
      if exists m :: 0 <= m <= |v| && Matches(b, v[m..]) {
        var m :| 0 <= m <= |v| && Matches(b, v[m..]);
        LiteralPrefix(b, "", v[m..]);
        assert v[m..] == u[|u| - |b|..];
      }
      if |a| + |b| <= |u| && u[|u| - |b|..] == b {
        var m := |v| - |b|;
        assert v[m..] == u[|u| - |b|..];
        LiteralPrefix(b, "", v[m..]);
      }
    }
  }

  /** `*a*b` with literal `a` and `b` matches a name exactly when it ends with
      `b` and contains `a` somewhere before that ending. */
  lemma {:induction false} StarLiteralStarLiteral(a: string, b: string, s: string)
    requires Literal(a) && Literal(b)
    ensures Matches("*" + (a + ("*" + b)), s) <==>
      && |b| <= |s| && s[|s| - |b|..] == b
      && exists i | 0 <= i <= |s| :: OccursAt(s, a, i) && i + |a| <= |s| - |b|
  {
    var mid := a + ("*" + b);
    StarPrefix(mid, s);
    if Matches("*" + mid, s) {
      var k :| 0 <= k <= |s| && Matches(mid, s[k..]);
      LiteralStarLiteral(a, b, s[k..]);
      assert s[k..][..|a|] == s[k..k + |a|];
      assert OccursAt(s, a, k);
    }
    if && |b| <= |s| && s[|s| - |b|..] == b
       && exists i | 0 <= i <= |s| :: OccursAt(s, a, i) && i + |a| <= |s| - |b|
    {
      var i :| 0 <= i <= |s| && OccursAt(s, a, i) && i + |a| <= |s| - |b|;
      LiteralStarLiteral(a, b, s[i..]);
      assert s[i..][..|a|] == s[i..i + |a|];
      assert Matches(mid, s[i..]);
    }
  }

  /** The snapshot glob is `*`, the directory part, `*`, the extension, and
      it uses no wildcard this model leaves out. */
  lemma SnapshotGlobParts()
    ensures Settings.SnapshotGlob == "*" + (SnapshotDir + ("*" + PyExt))
    ensures Supported(Settings.SnapshotGlob)
    ensures Literal(SnapshotDir) && Literal(PyExt)
  {
  }

  /** The filter's exclusion glob matches exactly the snapshot paths. */
  lemma SnapshotGlobMeaning(s: string)
    ensures Supported(Settings.SnapshotGlob)
    ensures FnMatch(s, Settings.SnapshotGlob) <==> IsSnapshotPath(s)
  {
    SnapshotGlobParts();
    StarLiteralStarLiteral(SnapshotDir, PyExt, s);
  }
}
