/**
 * `utils::filesystem::path_combine(dir, name)`: `name` appended to `dir`
 * after one '/' separator, or `name` alone when `dir` is empty.
 */
module Paths {

  function PathCombine(dir: string, name: string): (p: string)
    ensures |p| >= |dir| + |name|
  {
    if dir == "" then name else dir + "/" + name
  }

  /** The part of `p` that follows `dir` and its separator (the inverse of PathCombine). */
  function LastComponent(dir: string, p: string): string
    requires |p| >= |dir| + (if dir == "" then 0 else 1)
  {
    if dir == "" then p else p[|dir| + 1..]
  }

  lemma PathCombineRoundTrip(dir: string, name: string)
    ensures |PathCombine(dir, name)| >= |dir| + (if dir == "" then 0 else 1)
    ensures LastComponent(dir, PathCombine(dir, name)) == name
  {
    if dir != "" {
      assert (dir + "/" + name)[|dir| + 1..] == name;
    }
  }

  /** For a fixed directory, different names give different paths. */
  lemma PathCombineInjective(dir: string, a: string, b: string)
    requires a != b
    ensures PathCombine(dir, a) != PathCombine(dir, b)
  {
    PathCombineRoundTrip(dir, a);
    PathCombineRoundTrip(dir, b);
  }
}
