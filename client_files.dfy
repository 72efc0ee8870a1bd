/** Files picked in the browser's file inputs (the avatar on the profile
    page and the cover image of the trip form). */
module ClientFiles {
  import opened Records

  /** A picked file: its name, its `type` and its bytes; `size` is the byte count. */
  datatype ClientFile = ClientFile(name: string, mimeType: string, contents: seq<byte>)

  /** The 5 MB (`5 * 1024 * 1024` bytes) limit both pages apply. */
  const MaxImageBytes := 5 * 1024 * 1024

  /** The part a multipart body carries for the file, as the server's parser reads it. */
  function UploadOf(f: ClientFile): Upload {
    Upload(f.contents, f.mimeType, f.name)
  }
}
