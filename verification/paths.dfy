/**
 * Paths as plain strings. `path.join` of a directory and one entry name is
 * modelled as concatenation with a `/` separator; an empty directory
 * contributes nothing, as `path.join("", name)` yields `name`.
 */
module Paths {

  const Separator: char := '/'

  predicate EndsWith(s: string, suffix: string) {
    |suffix| <= |s| && s[|s| - |suffix|..] == suffix
  }

  function Join(dir: string, name: string): (p: string)
    ensures EndsWith(p, name)
    ensures dir != "" ==> |p| == |dir| + 1 + |name| && p[..|dir|] == dir && p[|dir|] == Separator
  {
    if dir == "" then name else dir + [Separator] + name
  }

  /**
   * A suffix without a separator in it, such as ".html", ends the joined
   * path exactly when it ends the entry name: the separator cannot take
   * part in the match.
   */
  lemma JoinKeepsSuffix(dir: string, name: string, suffix: string)
    requires forall k :: 0 <= k < |suffix| ==> suffix[k] != Separator
    ensures EndsWith(Join(dir, name), suffix) <==> EndsWith(name, suffix)
  {
  }
}
