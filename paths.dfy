/**
 * The string operations the device manager applies to paths:
 * `str.rsplit(c, 1)[1]`, `str.split('/')[-1]` and `os.path.join`
 * on POSIX names.
 */
module Paths {
  import opened Wrappers

  /** Position of the last `c` in `s`, or None when `s` holds no `c`. */
  function LastIndex(s: string, c: char): (r: Option<nat>)
    ensures r.None? <==> c !in s
    ensures r.Some? ==> r.value < |s|
  {
    if |s| == 0 then None
    else if s[|s| - 1] == c then Some(|s| - 1)
    else
      assert s == s[..|s| - 1] + [s[|s| - 1]];
      LastIndex(s[..|s| - 1], c)
  }

  /** The position found holds `c`, and no `c` follows it. */
  lemma {:induction false} LastIndexIsLast(s: string, c: char)
    ensures var r := LastIndex(s, c);
      r.Some? ==> r.value < |s| && s[r.value] == c && c !in s[r.value + 1..]
  {
    if |s| > 0 && s[|s| - 1] != c {
      var init := s[..|s| - 1];
      LastIndexIsLast(init, c);
      var r := LastIndex(init, c);
      if r.Some? {
        assert s[r.value + 1..] == init[r.value + 1..] + [s[|s| - 1]];
      }
    }
  }

  /**
   * `s.rsplit(c, 1)[1]`: the text after the last `c`. None stands for the
   * IndexError Python raises when `s` holds no `c`.
   */
  function AfterLast(s: string, c: char): (r: Option<string>)
    ensures r.None? <==> c !in s
  {
    match LastIndex(s, c)
    case None => None
    case Some(i) => Some(s[i + 1..])
  }

  /** What `AfterLast` returns is the whole tail after a `c`, and holds no `c`. */
  lemma AfterLastIsTail(s: string, c: char)
    ensures var r := AfterLast(s, c);
      r.Some? ==> c !in r.value && |r.value| < |s| && s == s[..|s| - |r.value| - 1] + [c] + r.value
  {
    LastIndexIsLast(s, c);
    var i := LastIndex(s, c);
    if i.Some? {
      assert s == s[..i.value] + [c] + s[i.value + 1..];
    }
  }

  /** `s.split('/')[-1]`: the last component of a path, the whole string when it has no '/'. */
  function BaseName(path: string): (r: string)
    ensures '/' !in path ==> r == path
    ensures '/' in path ==> |r| < |path| && path == path[..|path| - |r| - 1] + "/" + r
  {
    AfterLastIsTail(path, '/');
    match AfterLast(path, '/')
    case None => path
    case Some(t) => t
  }

  /** A base name holds no '/'. */
  lemma BaseNameHasNoSlash(path: string)
    ensures '/' !in BaseName(path)
  {
    AfterLastIsTail(path, '/');
  }

  /**
   * `os.path.join(dir, name)` for a `dir` without a trailing '/' and a
   * relative `name`; on a `dir` ending in '/' the separator is still added.
   */
  function Join(dir: string, name: string): (r: string)
    ensures |r| == |dir| + 1 + |name| && r[|dir|] == '/'
  {
    dir + "/" + name
  }

  /** Whatever precedes it, the text after a final `c` is what `AfterLast` returns. */
  lemma AfterLastOfJoin(p: string, c: char, t: string)
    requires c !in t
    ensures AfterLast(p + [c] + t, c) == Some(t)
  {
    var s := p + [c] + t;
    assert s[|p|] == c;
    LastIndexIsLast(s, c);
  }

  /** The last component of `Join(dir, name)` is `name`, when `name` has no '/'. */
  lemma BaseNameOfJoin(dir: string, name: string)
    requires '/' !in name
    ensures BaseName(Join(dir, name)) == name
  {
    assert Join(dir, name) == dir + ['/'] + name;
    AfterLastOfJoin(dir, '/', name);
  }
}
