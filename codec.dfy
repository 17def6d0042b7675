/**
 * The compression formats of src/encoder_decoder.ts. Only their tags matter
 * here: a compressed segment file's name ends in `.` and the tag. The zlib
 * encoders and decoders themselves are not part of this model.
 */
module Codec {

  datatype CompressionFormat = Gzip | Brotli | Deflate

  function Tag(f: CompressionFormat): (t: string)
    ensures |t| > 0
  {
    match f
    case Gzip => "gzip"
    case Brotli => "br"
    case Deflate => "deflate"
  }

  /** Distinct formats have distinct tags, so a suffix names its format. */
  lemma TagInjective(f: CompressionFormat, g: CompressionFormat)
    ensures Tag(f) == Tag(g) ==> f == g
  {
  }
}
