/** The two attributes of a POSIX `pathlib.Path` that the dirty-file filter
    reads: `name`, the final component, and `suffix`, its extension. */
module PurePath {

  /** Index of the last occurrence of `c` in `s`, or -1 when `c` does not occur. */
  function LastIndexOf(s: string, c: char): (i: int)
    ensures -1 <= i < |s|
    ensures i >= 0 ==> s[i] == c
    ensures forall k :: i < k < |s| ==> s[k] != c
    decreases |s|
  {
    if s == [] then -1
    else if s[|s| - 1] == c then |s| - 1
    else LastIndexOf(s[..|s| - 1], c)
  }

  /** A component pathlib keeps when it parses a path: it drops empty
      components (from repeated or trailing slashes) and "." components. */
  predicate Significant(part: string)
  {
    part != "" && part != "."
  }

  /** `Path(s).name`: the last significant component of `s`, or "" when there
      is none (as for "", "/" and "."). */
  function Name(s: string): (r: string)
    ensures '/' !in r
    ensures r == "" || Significant(r)
    ensures |r| <= |s|
    decreases |s|
  {
    var i := LastIndexOf(s, '/');
    var last := s[i + 1..];
    if Significant(last) then last
    else if i < 0 then ""
    else Name(s[..i])
  }

  /** `PurePath.suffix` applied to a name: the text from the last '.', provided
      that dot is neither the first nor the last character; otherwise "". */
  function Suffix(name: string): (r: string)
    ensures r == "" || (2 <= |r| < |name| && r == name[|name| - |r|..])
    ensures r != "" ==> r[0] == '.' && '.' !in r[1..]
    ensures r != "" <==> exists i | 0 < i < |name| - 1 :: name[i] == '.' && '.' !in name[i + 1..]
  {
    var i := LastIndexOf(name, '.');
    if 0 < i < |name| - 1 then name[i..] else ""
  }

  /** `Path(s).suffix`. */
  function PathSuffix(s: string): string
  {
    Suffix(Name(s))
  }

  /** A plain component is its own name, and so is the last component of a
      longer path: `Path("src/app.py").name == "app.py"`. */
  lemma NameOfComponent(dir: string, base: string)
    requires Significant(base) && '/' !in base
    ensures Name(base) == base
    ensures Name(dir + "/" + base) == base
  {
    LastIndexAbsent(base, '/');
    var s := dir + "/" + base;
    LastIndexAfter(dir + "/", base, '/');
    assert s[|dir| + 1..] == base;
  }

  /** Trailing slashes do not change the name: `Path("pkg/").name == "pkg"`. */
  lemma NameIgnoresTrailingSlash(s: string)
    ensures Name(s + "/") == Name(s)
  {
    var t := s + "/";
    assert LastIndexOf(t, '/') == |s|;
    assert t[..|s|] == s;
  }

  /** "." components do not count: `Path("a/.").name == "a"`, and a path made
      of nothing significant has no name, as for "" and ".". */
  lemma NameIgnoresDot(s: string)
    ensures Name(s + "/.") == Name(s)
    ensures Name(".") == "" && Name("") == ""
  {
    var t := s + "/.";
    assert LastIndexOf(t, '/') == |s|;
    assert t[|s| + 1..] == ".";
    assert t[..|s|] == s;
    assert LastIndexOf(".", '/') == -1;
  }

  lemma LastIndexAbsent(s: string, c: char)
    requires c !in s
    ensures LastIndexOf(s, c) == -1
  {
  }

  lemma {:induction false} LastIndexAfter(prefix: string, rest: string, c: char)
    requires |prefix| > 0 && prefix[|prefix| - 1] == c && c !in rest
    ensures LastIndexOf(prefix + rest, c) == |prefix| - 1
  {
    var s := prefix + rest;
    var i := LastIndexOf(s, c);
    assert s[|prefix| - 1] == c;
  }

  /** The filter's test `Path(s).suffix == ".py"` holds exactly when the name
      is longer than ".py" and ends with it; a bare ".py" has no suffix. */
  lemma {:induction false} SuffixIsPy(name: string)
    ensures Suffix(name) == ".py" <==> |name| > 3 && name[|name| - 3..] == ".py"
  {
    if |name| > 3 && name[|name| - 3..] == ".py" {
      var n := |name|;
      assert name[n - 3] == '.' && name[n - 2] == 'p' && name[n - 1] == 'y';
      var i := LastIndexOf(name, '.');
      assert i == n - 3;
    }
  }
}
