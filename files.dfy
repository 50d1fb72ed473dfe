/**
 * The little of the file system the two file writers touch: a map from path to
 * content, the `<name>.tmp` path they write first, and `rename`.
 */
module Files {
  import opened Format

  type Fs<T> = map<string, T>

  /**
   * `snprintf(buf, size, "%s.tmp", file_name)`: the temporary path, cut to the
   * buffer when the name is long.
   */
  function TmpName(fileName: string, size: nat): (r: string)
    requires size > 0
    ensures |fileName| + 4 < size ==> r == fileName + ".tmp" && r != fileName
    ensures |r| < size
  {
    Truncate(fileName + ".tmp", size)
  }

  /**
   * `rename(from, to)`: the content of `from` now lives at `to` and `from` is
   * gone; renaming a missing path changes nothing (the call fails) and renaming
   * a path onto itself changes nothing.
   */
  function Rename<T>(fs: Fs<T>, from: string, to: string): (r: Fs<T>)
    ensures from in fs && from != to ==> to in r && r[to] == fs[from] && from !in r
    ensures from in fs && from != to ==>
      forall p :: p != from && p != to ==> (p in r <==> p in fs) && (p in fs ==> r[p] == fs[p])
    ensures from !in fs || from == to ==> r == fs
  {
    if from !in fs || from == to then fs else (fs - {from})[to := fs[from]]
  }

  /**
   * Content of a file opened with `O_CREAT | O_WRONLY` (no `O_TRUNC`) after
   * `written` has been written from offset 0: what was there before survives
   * past the end of the new bytes.
   */
  function Overwrite(before: string, written: string): (r: string)
    ensures |written| <= |r| && r[..|written|] == written
    ensures |r| == if |before| > |written| then |before| else |written|
    ensures |before| > |written| ==> r[|written|..] == before[|written|..]
  {
    if |before| > |written| then written + before[|written|..] else written
  }
}
