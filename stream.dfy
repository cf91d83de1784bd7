/** A network connection read from front to back: the bytes it delivers,
    then how it ends. `ReadFull` and `Copy` are Go's `io.ReadFull` and
    `io.Copy` over such a connection. */
module Stream {
  import opened Common

  /** How a connection ends once its bytes are consumed: a clean EOF, or a
      read error. */
  datatype End = Eof | Fail(msg: string)

  datatype Source = Source(data: seq<byte>, end: End)

  /** Why `io.ReadFull` failed: EOF before any byte (`io.EOF`), EOF after
      some bytes (`io.ErrUnexpectedEOF`), or the reader's own error. */
  datatype ReadFailure = AtEof | ShortRead | ReaderError(msg: string)

  function FailureError(f: ReadFailure): (e: Error)
    ensures e.Other?
  {
    match f
    case AtEof => Other("EOF")
    case ShortRead => Other("unexpected EOF")
    case ReaderError(m) => Other(m)
  }

  datatype ReadOutcome =
    | Read(bytes: seq<byte>, rest: Source)
    | Failed(why: ReadFailure, rest: Source)

  /** `io.ReadFull` into a buffer of n bytes. */
  function ReadFull(s: Source, n: nat): (r: ReadOutcome)
    ensures r.Read? <==> n <= |s.data|
    ensures r.Read? ==> r.bytes == s.data[..n] && r.rest == Source(s.data[n..], s.end)
    ensures r.Failed? ==> r.rest == Source([], s.end)
    ensures r.Failed? && r.why == AtEof ==> s.data == [] && s.end == Eof
    ensures r.Failed? && r.why == ShortRead ==> s.data != [] && s.end == Eof
    ensures r.Failed? && r.why.ReaderError? ==> s.end == Fail(r.why.msg)
  {
    if n <= |s.data| then Read(s.data[..n], Source(s.data[n..], s.end))
    else
      match s.end
      case Eof => Failed(if s.data == [] then AtEof else ShortRead, Source([], s.end))
      case Fail(m) => Failed(ReaderError(m), Source([], s.end))
  }

  /** `io.Copy` from the connection: every remaining byte, then nil at EOF
      or the read error. */
  function Copy(s: Source): (r: (seq<byte>, Option<Error>))
    ensures r.0 == s.data
    ensures r.1.None? <==> s.end == Eof
  {
    (s.data, if s.end.Fail? then Some(Other(s.end.msg)) else None)
  }

  /** A source of the given bytes that ends cleanly. */
  function FromBytes(b: seq<byte>): Source {
    Source(b, Eof)
  }

  /** Reading a prefix and then the rest delivers the whole stream in order. */
  lemma {:induction false} ReadThenRest(s: Source, n: nat)
    requires n <= |s.data|
    ensures ReadFull(s, n).bytes + ReadFull(s, n).rest.data == s.data
  {
    assert s.data[..n] + s.data[n..] == s.data;
  }
}
