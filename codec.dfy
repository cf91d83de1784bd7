/** The foreign encodings the core relies on, kept abstract: the JSON
    codec of metadata records and the gzip compression of stored files.
    Only the round trips are assumed of them. */
module Codec {
  import opened Common

  /** The bytes of a file that should hold a JSON document: either the
      encoding of a value, or bytes that do not decode (a corrupt or
      truncated record). */
  datatype Blob<T> = Encoded(value: T) | Raw(bytes: seq<byte>)

  /** `json.Marshal`. */
  function Encode<T>(v: T): (b: Blob<T>)
    ensures b.Encoded?
  {
    Encoded(v)
  }

  const DecodeError: Error := Other("invalid JSON input")

  /** `json.Unmarshal` into a fresh value. */
  function Decode<T>(b: Blob<T>): (r: Result<T>)
    ensures r.Ok? <==> b.Encoded?
    ensures r.Err? ==> r.error == DecodeError
  {
    match b
    case Encoded(v) => Ok(v)
    case Raw(_) => Err(DecodeError)
  }

  lemma DecodeEncode<T>(v: T)
    ensures Decode(Encode(v)) == Ok(v)
  {
  }

  /** The two bytes every gzip member starts with (section 2.3.1 of RFC 1952). */
  const GzipMagic: seq<byte> := [0x1f, 0x8b]

  /** A `gzip.Writer` over the given bytes; the deflate body is abstract. */
  function Compress(data: seq<byte>): (z: seq<byte>)
    ensures |z| == |data| + 2 && z[..2] == GzipMagic
  {
    GzipMagic + data
  }

  /** A `gzip.Reader`: the original bytes, or nothing for a stream that is
      not gzip. */
  function Decompress(z: seq<byte>): (r: Option<seq<byte>>)
    ensures r.Some? <==> |z| >= 2 && z[..2] == GzipMagic
  {
    if |z| >= 2 && z[..2] == GzipMagic then Some(z[2..]) else None
  }

  /** Decompressing what was compressed gives the original bytes back. */
  lemma DecompressCompress(data: seq<byte>)
    ensures Decompress(Compress(data)) == Some(data)
  {
    assert Compress(data)[2..] == data;
  }
}
