/** The part of Python's `os.path` the ingestion and query sides use to name files. */
module OsPath {

  /** `os.path.join(a, b)` on POSIX for two components: an absolute `b` replaces `a`;
      otherwise a `/` is inserted unless `a` is empty or already ends in one. */
  function Join(a: string, b: string): (r: string)
    ensures |b| <= |r| && r[|r| - |b|..] == b
    ensures (|b| == 0 || b[0] != '/') ==> |a| <= |r| && r[..|a|] == a
  {
    if |b| > 0 && b[0] == '/' then b
    else if a == "" || a[|a| - 1] == '/' then a + b
    else a + "/" + b
  }
}
