/** Browser media values treated as opaque data: recorded chunks, blobs and named files. */
module Media {

  /** One `dataavailable` payload of a `MediaRecorder`. */
  datatype Chunk = Chunk(bytes: seq<bv8>)

  /** `new Blob(parts)`: the parts in the order given. */
  datatype Blob = Blob(parts: seq<Chunk>)

  /** `new File([content], name, { type })`. */
  datatype NamedFile = NamedFile(content: Blob, name: string, mimeType: string)

  /** A `MediaRecorder` held by a recorder component, known by the file name its `onstop` handler
      captured when the component created it. */
  datatype Recorder = Recorder(fileName: string)

  const AudioWav := "audio/wav"
  const ImageJpeg := "image/jpeg"

  /** `new File([file], name, { type: file.type })`: same bytes and type, new name. */
  function Renamed(f: NamedFile, name: string): (r: NamedFile)
    ensures r.name == name && r.content == f.content && r.mimeType == f.mimeType
  {
    f.(name := name)
  }
}
