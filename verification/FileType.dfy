/** The accepted file types, detected from the content's first bytes. */
module FileType {
  import opened Wrappers
  import opened Bytes

  datatype FileType = PDF | JPEG | PNG

  const PNG_SIGNATURE: Buffer := [0x89, 0x50, 0x4e, 0x47, 0x0d, 0x0a, 0x1a, 0x0a]

  function Signature(t: FileType): Buffer {
    match t
    case PDF => [0x25, 0x50, 0x44, 0x46, 0x2d]
    case JPEG => [0xff, 0xd8, 0xff]
    case PNG => PNG_SIGNATURE
  }

  /** The first signature of the table that the content starts with. */
  function DetectFileType(content: Buffer): Option<FileType> {
    if Signature(PDF) <= content then Some(PDF)
    else if Signature(JPEG) <= content then Some(JPEG)
    else if Signature(PNG) <= content then Some(PNG)
    else None
  }

  /** No signature is a prefix of another: the order of the table does not matter. */
  lemma DetectsBySignature(content: Buffer, t: FileType)
    ensures DetectFileType(content) == Some(t) <==> Signature(t) <= content
  {
    assert Signature(PDF)[0] == 0x25 && Signature(JPEG)[0] == 0xff && Signature(PNG)[0] == 0x89;
    if Signature(t) <= content {
      assert content[0] == Signature(t)[0];
    }
  }
}
