/** Shared value types. */
module Prelude {

  datatype Option<+T> = None | Some(value: T) {
    function GetOr(default: T): T {
      if Some? then value else default
    }
  }

  datatype Result<+T, +E> = Ok(value: T) | Err(error: E)

  ghost predicate NoDuplicates<T>(s: seq<T>) {
    forall i, j :: 0 <= i < j < |s| ==> s[i] != s[j]
  }

  type Byte = b: int | 0 <= b < 256

  predicate HasPrefix(s: string, prefix: string) {
    |prefix| <= |s| && s[..|prefix|] == prefix
  }

  predicate HasSuffix(s: string, suffix: string) {
    |suffix| <= |s| && s[|s| - |suffix|..] == suffix
  }

  lemma PrefixChars(s: string, p: string)
    ensures HasPrefix(s, p) ==> |p| <= |s| && forall i :: 0 <= i < |p| ==> s[i] == p[i]
  {
    if HasPrefix(s, p) { assert forall i :: 0 <= i < |p| ==> s[i] == s[..|p|][i]; }
  }

  /** path.Base: trailing slashes stripped, then everything after the last slash. */
  function BaseName(p: string): string {
    if p == "" then "."
    else if p[|p| - 1] == '/' then (if |p| == 1 then "/" else BaseName(p[..|p| - 1]))
    else AfterLastSlash(p)
  }

  function AfterLastSlash(p: string): string {
    if p == "" || p[|p| - 1] == '/' then "" else AfterLastSlash(p[..|p| - 1]) + [p[|p| - 1]]
  }

  lemma {:induction false} AfterLastSlashOf(dir: string, file: string)
    requires dir == "" || dir[|dir| - 1] == '/'
    requires '/' !in file
    ensures AfterLastSlash(dir + file) == file
    decreases |file|
  {
    if file == "" {
      assert dir + file == dir;
    } else {
      var f, c := file[..|file| - 1], file[|file| - 1];
      assert file == f + [c];
      assert (dir + file)[..|dir + file| - 1] == dir + f;
      AfterLastSlashOf(dir, f);
    }
  }
}
