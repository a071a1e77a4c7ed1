/** Which stripper makes the copy without metadata of an image. */
module Sanitizer {
  import opened Wrappers
  import opened Bytes
  import opened FileType
  import Jpeg
  import Png

  /** None when the stripper refuses the image; PDFs have no copy and are never sanitized. */
  function Sanitized(fileType: FileType, content: Buffer): Option<Buffer> {
    match fileType
    case PDF => None
    case JPEG => var r := Jpeg.Strip(content); if r.Success? then Some(r.value) else None
    case PNG => var r := Png.Strip(content); if r.Success? then Some(r.value) else None
  }
}
