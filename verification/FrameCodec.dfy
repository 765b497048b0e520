/** The frame layout of communication/communication.go. */
module FrameCodec {
  import opened Bytes
  import opened Crc32

  /** The kinds of frame; any other byte is a kind the receiver does not know. */
  const MESSAGE: byte := 0
  const SIGNATURE: byte := 1
  const GET_PEERS_REPLY: byte := 2
  const MESSAGE_CONFIRM_REQUEST: byte := 3
  const CONFIRM_REPLY: byte := 4

  datatype Frame = Frame(kind: byte, msgId: uint64, data: Bytes)

  /** Bytes of a frame beside its data and its length field: kind, message id, checksum. */
  const OVERHEAD: nat := 13

  /** The length field, which the program truncates to 32 bits. */
  function LengthField(f: Frame): (n: uint32) {
    (|f.data| + OVERHEAD) % TWO_32
  }

  /** What the checksum covers: the message id and the data, not the kind. */
  function Covered(f: Frame): (s: Bytes)
    ensures |s| == 8 + |f.data|
  {
    PutLe(f.msgId, 8) + f.data
  }

  /** What follows the length field. */
  function Body(kind: byte, covered: Bytes, checksum: Register): (s: Bytes)
    ensures |s| == 1 + |covered| + 4
  {
    [kind] + covered + PutWord(checksum)
  }

  function Encoded(f: Frame): (s: Bytes)
    ensures |s| == 4 + |f.data| + OVERHEAD
  {
    PutLe(LengthField(f), 4) + Body(f.kind, Covered(f), Checksum(Covered(f)))
  }

  /** The outcome of reading one frame. `SliceFault` is Go's panic for a slice out of range. */
  datatype ReadResult =
    | Read(frame: Frame)
    | EndOfInput
    | UnexpectedEnd
    | IntegrityError
    | SliceFault

  /** The part of a body that is checked: all but the kind and the four checksum bytes. */
  function BodyResult(body: Bytes): ReadResult
    requires |body| >= 4
  {
    var n := |body|;
    if n < 5 then SliceFault
    else if GetWord(body[n - 4..]) != Checksum(body[1..n - 4]) then IntegrityError
    else if n < OVERHEAD then SliceFault
    else IdBound(body[1..9]); Read(Frame(body[0], GetLe(body[1..9]), body[9..n - 4]))
  }

  lemma IdBound(s: Bytes)
    requires |s| == 8
    ensures GetLe(s) < TWO_64
  {
    GetLeBound(s);
    SpanValues();
  }

  /** What one read makes of the bytes `s` still in the reader, and what it leaves. */
  function ReadFrame(s: Bytes): (ReadResult, Bytes) {
    if |s| < 4 then (if s == [] then EndOfInput else UnexpectedEnd, [])
    else
      var n, rest := GetLe(s[..4]), s[4..];
      if n < 4 then (IntegrityError, rest)
      else if |rest| < n then (if rest == [] then EndOfInput else UnexpectedEnd, [])
      else (BodyResult(rest[..n]), rest[n..])
  }

  // ----- the in-place encoder and the reader -----

  /** Copies `s` into `buf` at `offset`. */
  method Copy(buf: array<byte>, offset: nat, s: Bytes)
    requires offset + |s| <= buf.Length
    modifies buf
    ensures buf[..offset] == old(buf[..offset])
    ensures buf[offset..offset + |s|] == s
    ensures buf[offset + |s|..] == old(buf[offset + |s|..])
  {
    var i := 0;
    while i < |s|
      invariant 0 <= i <= |s|
      invariant forall k :: 0 <= k < buf.Length && !(offset <= k < offset + i) ==> buf[k] == old(buf[k])
      invariant forall k :: 0 <= k < i ==> buf[offset + k] == s[k]
    {
      buf[offset + i] := s[i];
      i := i + 1;
    }
  }

  /** Writing `s` at `offset` extends what was written before it. */
  lemma Extends(written: Bytes, done: Bytes, s: Bytes, offset: nat)
    requires offset + |s| <= |written|
    requires written[..offset] == done && written[offset..offset + |s|] == s
    ensures written[..offset + |s|] == done + s
  {
    assert written[..offset + |s|] == written[..offset] + written[offset..offset + |s|];
  }

  lemma Tail(written: Bytes, offset: nat, a: Bytes, b: Bytes)
    requires offset <= |written| && written[..offset] == a + b
    ensures offset == |a| + |b| && written[offset - |b|..offset] == b
  {
    assert written[offset - |b|..offset] == written[..offset][|a|..];
  }

  method Encode(f: Frame) returns (buf: array<byte>)
    ensures fresh(buf)
    ensures buf[..] == Encoded(f)
  {
    hide Checksum, PutWord;
    var kindLen, msgIdLen := 1, 8;
    var msgLength := kindLen + msgIdLen + |f.data| + 4;
    buf := new byte[4 + msgLength];
    var offset := 0;
    ghost var done: Bytes := [];
    var word := PutLe(msgLength % TWO_32, 4);
    Copy(buf, offset, word);
    Extends(buf[..], done, word, offset);
    done, offset := done + word, offset + 4;
    buf[offset] := f.kind;
    Extends(buf[..], done, [f.kind], offset);
    done, offset := done + [f.kind], offset + kindLen;
    word := PutLe(f.msgId, 8);
    Copy(buf, offset, word);
    Extends(buf[..], done, word, offset);
    done, offset := done + word, offset + msgIdLen;
    Copy(buf, offset, f.data);
    Extends(buf[..], done, f.data, offset);
    done, offset := done + f.data, offset + |f.data|;
    assert done == PutLe(LengthField(f), 4) + [f.kind] + Covered(f);
    Tail(buf[..], offset, PutLe(LengthField(f), 4) + [f.kind], Covered(f));
    assert buf[..][offset - |Covered(f)|..offset] == buf[offset - |f.data| - msgIdLen..offset];
    var checksum := Checksum(buf[offset - |f.data| - msgIdLen..offset]);
    Copy(buf, offset, PutWord(checksum));
    Extends(buf[..], done, PutWord(checksum), offset);
    assert buf[..] == buf[..][..offset + 4];
    EncodedLayout(f);
  }

  lemma EncodedLayout(f: Frame)
    ensures Encoded(f) == PutLe(LengthField(f), 4) + [f.kind] + PutLe(f.msgId, 8) + f.data
                          + PutWord(Checksum(Covered(f)))
  {
  }

  /** A buffered reader over one stream: the bytes not yet consumed. */
  class Reader {
    var input: Bytes

    constructor (input: Bytes)
      ensures this.input == input
    {
      this.input := input;
    }

    /** Fills `buf`, or consumes everything there is and fails. */
    method ReadFull(buf: array<byte>) returns (err: ReadError)
      modifies this, buf
      ensures err == ReadErrorFor(|old(input)|, buf.Length)
      ensures err == NoError ==> buf[..] == old(input)[..buf.Length] && input == old(input)[buf.Length..]
      ensures err != NoError ==> input == []
    {
      var i := 0;
      while i < buf.Length && input != []
        invariant 0 <= i <= buf.Length && i <= |old(input)|
        invariant input == old(input)[i..]
        invariant buf[..i] == old(input)[..i]
      {
        buf[i] := input[0];
        input := input[1..];
        i := i + 1;
      }
      err := if i == buf.Length then NoError else if i == 0 then Eof else UnexpectedEof;
      assert i == buf.Length ==> buf[..i] == buf[..];
    }
  }

  datatype ReadError = NoError | Eof | UnexpectedEof

  function ReadErrorFor(available: nat, wanted: nat): ReadError {
    if wanted <= available then NoError else if available == 0 then Eof else UnexpectedEof
  }

  function ResultFor(err: ReadError): ReadResult
    requires err != NoError
  {
    if err == Eof then EndOfInput else UnexpectedEnd
  }

  method ReadFromReader(reader: Reader) returns (r: ReadResult)
    modifies reader
    ensures (r, reader.input) == ReadFrame(old(reader.input))
  {
    var msg := new byte[4];
    var err := reader.ReadFull(msg);
    if err != NoError {
      return ResultFor(err);
    }
    var bytesLeft := GetLe(msg[..]);
    if bytesLeft < 4 {
      return IntegrityError;
    }
    var result := new byte[bytesLeft];
    err := reader.ReadFull(result);
    if err != NoError {
      return ResultFor(err);
    }
    var kindLen, msgIdLen, n := 1, 8, result.Length;
    var checkSum := GetWord(result[n - 4..]);
    if kindLen > n - 4 {
      return SliceFault;
    }
    if checkSum != Checksum(result[kindLen..n - 4]) {
      return IntegrityError;
    }
    if kindLen + msgIdLen > n - 4 {
      return SliceFault;
    }
    IdBound(result[kindLen..kindLen + msgIdLen]);
    r := Read(Frame(result[0], GetLe(result[kindLen..kindLen + msgIdLen]), result[kindLen + msgIdLen..n - 4]));
    assert result[..][n - 4..] == result[n - 4..];
    assert result[..][1..n - 4] == result[1..n - 4];
    assert result[..][1..9] == result[1..9];
    assert result[..][9..n - 4] == result[9..n - 4];
  }
}
