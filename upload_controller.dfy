/** The replies to a finished upload (backend/src/controllers/uploadController.ts). */
module UploadController {
  import opened Common
  import opened Upload

  /** The reply entry for one stored file. */
  datatype FileReply = FileReply(filename: string, originalName: string, mimetype: string, size: nat, url: string)

  const UploadsPath: string := "/uploads/"

  function Url(filename: string): (u: string)
    ensures |u| == |UploadsPath| + |filename| && u[..|UploadsPath|] == UploadsPath && u[|UploadsPath|..] == filename
  {
    UploadsPath + filename
  }

  /** The url names the stored file: distinct files have distinct urls. */
  lemma UrlInjective(a: string, b: string)
    requires Url(a) == Url(b)
    ensures a == b
  {
    assert a == Url(a)[|UploadsPath|..];
  }

  function Reply(f: StoredFile): (r: FileReply)
    ensures r.filename == f.filename && r.originalName == f.originalname && r.mimetype == f.mimetype && r.size == f.size
    ensures r.url == Url(f.filename)
  {
    FileReply(f.filename, f.originalname, f.mimetype, f.size, Url(f.filename))
  }

  /** `uploadFile`. */
  function UploadFile(file: Option<StoredFile>): (r: Response<FileReply>)
    ensures file.None? <==> r == Err(400, "No file uploaded")
    ensures file.Some? ==> r.Ok? && r.status == 201 && r.value == Reply(file.value)
  {
    if file.None? then Err(400, "No file uploaded") else Ok(201, Reply(file.value))
  }

  /** `req.files`: absent, something other than an array, or an array. */
  datatype Files = NoFiles | NotAnArray | FileList(items: seq<StoredFile>)

  /** `uploadMultipleFiles`: one reply per file, in the order received. */
  function UploadMultipleFiles(files: Files): (r: Response<seq<FileReply>>)
    ensures (files.NoFiles? || files.NotAnArray? || files == FileList([])) <==> r == Err(400, "No files uploaded")
    ensures r.Ok? ==>
      files.FileList? && r.status == 201 && |r.value| == |files.items| &&
      forall i :: 0 <= i < |files.items| ==> r.value[i] == Reply(files.items[i])
  {
    if !files.FileList? || files.items == [] then Err(400, "No files uploaded")
    else Ok(201, seq(|files.items|, i requires 0 <= i < |files.items| => Reply(files.items[i])))
  }
}
