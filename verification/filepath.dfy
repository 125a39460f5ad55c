/**
 * FilePath (Gamma/Sources/FilePath.hpp): the path to a file on disk, stored
 * with every backslash turned into '/', and split into folder and file name at
 * the last '/'.
 */
module FilePaths {
  import opened Wrappers
  import opened Strings

  /**
   * The text a FilePath holds: it never contains a backslash, and like every
   * std::string it is shorter than npos.
   */
  type PathText = s: seq<char> | '\\' !in s && |s| < NPOS

  datatype FilePath = FilePath(path: PathText) {

    /** fullPath(): the stored path. */
    function FullPath(): (r: seq<char>)
      ensures '\\' !in r && |r| == |path|
    {
      path
    }

    /**
     * `find_last_of("/") + 1` in size_t arithmetic: one past the last '/', or
     * npos + 1, which wraps around to 0 when there is no '/'.
     */
    function FileNameStart(): (start: nat)
      ensures start <= |path|
      ensures '/' !in path[start..]
      ensures start > 0 ==> path[start - 1] == '/'
      ensures start == 0 <==> '/' !in path
    {
      var last := FindLastOf(path, '/');
      var start := (SizeT(last) + 1) % SIZE_MODULUS;
      assert last.None? ==> start == 0;
      assert last.Some? ==> start == last.value + 1;
      start
    }

    /** fileName(): the text after the last '/', or the whole path when it has none. */
    function FileName(): (name: seq<char>)
      ensures '/' !in name
      ensures |name| <= |path| && path[|path| - |name|..] == name
      ensures |name| < |path| ==> path[|path| - |name| - 1] == '/'
      ensures '/' !in path ==> name == path
    {
      var start := FileNameStart();
      var r := Substring(path, start, NPOS).value;
      assert r == path[start..];
      r
    }

    /** folderPath(): the path up to and including the last '/', or empty when it has none. */
    function FolderPath(): (folder: seq<char>)
      ensures |folder| <= |path| && path[..|folder|] == folder
      ensures folder == [] || folder[|folder| - 1] == '/'
      ensures '/' !in path[|folder|..]
      ensures folder == [] <==> '/' !in path
    {
      var start := FileNameStart();
      var r := Substring(path, 0, start).value;
      assert r == path[..start];
      r
    }
  }

  /** The constructor FilePath(const char*): the text converted with asUnixPath. */
  function FromText(s: seq<char>): (fp: FilePath)
    requires |s| < NPOS
    ensures |fp.path| == |s|
    ensures forall i :: 0 <= i < |s| ==> fp.path[i] == if s[i] == '\\' then '/' else s[i]
    ensures '\\' !in s ==> fp.FullPath() == s
  {
    UnixPathCharwise(s);
    FilePath(UnixPath(s))
  }

  /** The folder followed by the file name is the full path. */
  lemma {:induction false} FolderThenFileName(fp: FilePath)
    ensures fp.FolderPath() + fp.FileName() == fp.FullPath()
  {
    var start := fp.FileNameStart();
    assert fp.FolderPath() == fp.path[..start];
    assert fp.FileName() == fp.path[start..];
    assert fp.path == fp.path[..start] + fp.path[start..];
  }
}
