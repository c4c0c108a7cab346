/** The file layer behind the router. What it does on disk (joining the
    public directory, probing existence, opening a read stream, taking the
    extension) is a parameter: a total function from the requested path to
    either an opened stream with its extension or a failure message. */
module FileLayer {

  /** An opened file: an identifier for its read stream and its extension
      (".html", ".css", "" when the name has none). */
  datatype FileInfo = FileInfo(stream: nat, fileType: string)

  /** A settled getFileStream promise: resolved with a file, or rejected with
      an error whose message is kept. */
  datatype FileResult = Opened(info: FileInfo) | Failed(message: string)

  /** The controller the router holds: it forwards every path to the file
      layer unchanged and hands back what the file layer gives. The paths it
      was asked for are recorded so that callers can see which files were
      requested. */
  class Controller {
    const files: string -> FileResult
    var requested: seq<string>

    constructor (files: string -> FileResult)
      ensures this.files == files && requested == []
    {
      this.files := files;
      requested := [];
    }

    method GetFileStream(path: string) returns (r: FileResult)
      modifies this
      ensures r == files(path)
      ensures requested == old(requested) + [path]
    {
      requested := requested + [path];
      r := files(path);
    }
  }
}
