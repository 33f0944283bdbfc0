/** The local name of a downloaded file. */
module Download {
  import opened Wrappers
  import opened Text
  import opened Hosts

  /**
   * The base name of the remote path; placed inside `downloadTo` when that is an existing
   * local directory, replaced by `downloadTo` itself otherwise.
   */
  function LocalName(downloadFile: string, downloadTo: Option<string>, local: FileSystem): (r: string)
    ensures downloadTo.None? ==> r == FileName(downloadFile)
    ensures downloadTo.Some? && downloadTo.value in local && local[downloadTo.value].isDir
            ==> r == ChildPath(downloadTo.value, FileName(downloadFile))
    ensures downloadTo.Some? && !(downloadTo.value in local && local[downloadTo.value].isDir)
            ==> r == downloadTo.value
  {
    var name := FileName(downloadFile);
    if downloadTo.None? then name
    else if downloadTo.value in local && local[downloadTo.value].isDir then ChildPath(downloadTo.value, name)
    else downloadTo.value
  }

  lemma {:induction false} LastSegmentAfterSlash(a: string, n: string)
    requires '/' !in n
    ensures LastSegment(a + "/" + n) == n
    decreases |n|
  {
    if n == [] {
      assert (a + "/" + n)[|a + "/" + n| - 1] == '/';
    } else {
      var w := a + "/" + n;
      assert w[..|w| - 1] == a + "/" + n[..|n| - 1];
      assert w[|w| - 1] == n[|n| - 1];
      LastSegmentAfterSlash(a, n[..|n| - 1]);
      assert n[..|n| - 1] + [n[|n| - 1]] == n;
    }
  }

  /** A file downloaded into a directory keeps the remote base name. */
  lemma DownloadKeepsName(downloadFile: string, dir: string, local: FileSystem)
    requires dir in local && local[dir].isDir
    requires FileName(downloadFile) != ""
    ensures var r := LocalName(downloadFile, Some(dir), local);
      FileName(r) == FileName(downloadFile)
      && r == TrimTrailingSlashes(dir) + "/" + FileName(downloadFile)
  {
    var name := FileName(downloadFile);
    var r := ChildPath(dir, name);
    assert r[|r| - 1] == name[|name| - 1];
    assert name[|name| - 1] != '/';
    assert TrimTrailingSlashes(r) == r;
    LastSegmentAfterSlash(TrimTrailingSlashes(dir), name);
  }
}
