/** Path and channel-name helpers of the extension (src/util.ts). */
module Util {
  import opened Options
  import opened Text

  const FILE_SCHEME: string := "file://"
  const OUTPUT_SCHEME: string := "output:///"

  /**
   * `getWorkspaceFolderPath`: the workspace folder's uri without a leading
   * `file://`, or the editor's working directory when there is no folder.
   */
  function WorkspaceFolderPath(folder: Option<string>, cwd: string): (path: string)
    ensures folder.None? ==> path == cwd
    ensures folder.Some? && StartsWith(folder.value, FILE_SCHEME) ==>
              FILE_SCHEME + path == folder.value && |path| == |folder.value| - 7
    ensures folder.Some? && !StartsWith(folder.value, FILE_SCHEME) ==> path == folder.value
  {
    match folder
    case None => cwd
    case Some(uri) =>
      if StartsWith(uri, FILE_SCHEME) then
        assert uri == FILE_SCHEME + uri[7..];
        uri[7..]
      else uri
  }

  /** `outputChannelName`: the uri of the document behind an output channel. */
  function OutputChannelName(name: string): (uri: string)
    ensures StartsWith(uri, OUTPUT_SCHEME) && |uri| == |OUTPUT_SCHEME| + |name|
    ensures uri[|OUTPUT_SCHEME|..] == name
  {
    OUTPUT_SCHEME + name
  }

  /** Distinct channel names give distinct document uris. */
  lemma OutputChannelNameInjective(a: string, b: string)
    requires OutputChannelName(a) == OutputChannelName(b)
    ensures a == b
  {
    assert a == OutputChannelName(a)[10..];
  }

  /** With a folder `file:///a`, the working directory is `/a`. */
  lemma FolderPathOfFileUri(rest: string, cwd: string)
    ensures WorkspaceFolderPath(Some("file:///" + rest), cwd) == "/" + rest
  {
    var uri := "file:///" + rest;
    assert StartsWith(uri, FILE_SCHEME) by {
      assert uri[..7] == FILE_SCHEME;
    }
    assert uri[7..] == "/" + rest;
  }
}
