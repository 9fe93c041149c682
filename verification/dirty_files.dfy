/** The filtering half of `get_dirty_filenames`: of the names git reports as
    added, copied or modified, keep the Python sources that are not generated
    snapshot modules. The git invocation itself is outside the model; its
    whitespace-split output is the input here. */
module DirtyFiles {
  import Settings
  import PurePath
  import FnMatch

  /** The per-name test of the filter. */
  predicate Keep(name: string)
  {
    && PurePath.PathSuffix(name) == ".py"
    && (FnMatch.SnapshotGlobParts(); !FnMatch.FnMatch(name, Settings.SnapshotGlob))
  }

  /** `r` is `s` with some elements removed, the rest in their original order. */
  ghost predicate IsSubsequence(r: seq<string>, s: seq<string>)
    decreases |s|
  {
    if r == [] then true
    else if s == [] then false
    else (r[0] == s[0] && IsSubsequence(r[1..], s[1..])) || IsSubsequence(r, s[1..])
  }

  /** The names for which `keep` holds, in their original order. */
  function FilterBy(names: seq<string>, keep: string -> bool): (r: seq<string>)
    ensures IsSubsequence(r, names)
    ensures forall x :: multiset(r)[x] == if keep(x) then multiset(names)[x] else 0
    ensures forall x :: x in r <==> x in names && keep(x)
  {
    if names == [] then []
    else
      var rest := FilterBy(names[1..], keep);
      assert names == [names[0]] + names[1..];
      assert multiset(names) == multiset{names[0]} + multiset(names[1..]);
      if keep(names[0]) then
        var r := [names[0]] + rest;
        assert r[1..] == rest;
        r
      else rest
  }

  /** The names git reported, narrowed to those the linters should see. */
  function DirtyFilter(names: seq<string>): (r: seq<string>)
    ensures IsSubsequence(r, names)
    ensures forall x :: multiset(r)[x] == if Keep(x) then multiset(names)[x] else 0
    ensures forall x :: x in r <==> x in names && Keep(x)
  {
    FilterBy(names, Keep)
  }

  /** The kept names described without pathlib or fnmatch: a name is kept
      exactly when its final component is longer than ".py" and ends with it,
      and the whole name is not a snapshot path. */
  lemma KeepMeaning(name: string)
    ensures Keep(name) <==>
      var base := PurePath.Name(name);
      && |base| > 3 && base[|base| - 3..] == ".py"
      && !FnMatch.IsSnapshotPath(name)
  {
    PurePath.SuffixIsPy(PurePath.Name(name));
    FnMatch.SnapshotGlobMeaning(name);
  }

  /** Filtering twice is filtering once. */
  lemma {:induction false} FilterByIdempotent(names: seq<string>, keep: string -> bool)
    ensures FilterBy(FilterBy(names, keep), keep) == FilterBy(names, keep)
  {
    if names != [] {
      FilterByIdempotent(names[1..], keep);
      var rest := FilterBy(names[1..], keep);
      if keep(names[0]) {
        assert ([names[0]] + rest)[1..] == rest;
      }
    }
  }

  /** Filtering distributes over concatenation, so a name's fate does not
      depend on its neighbours. */
  lemma {:induction false} FilterByAppend(a: seq<string>, b: seq<string>, keep: string -> bool)
    ensures FilterBy(a + b, keep) == FilterBy(a, keep) + FilterBy(b, keep)
  {
    if a == [] {
      assert a + b == b;
    } else {
      assert (a + b)[1..] == a[1..] + b;
      FilterByAppend(a[1..], b, keep);
    }
  }

  lemma DirtyFilterIdempotent(names: seq<string>)
    ensures DirtyFilter(DirtyFilter(names)) == DirtyFilter(names)
  {
    FilterByIdempotent(names, Keep);
  }

  lemma DirtyFilterAppend(a: seq<string>, b: seq<string>)
    ensures DirtyFilter(a + b) == DirtyFilter(a) + DirtyFilter(b)
  {
    FilterByAppend(a, b, Keep);
  }
}
