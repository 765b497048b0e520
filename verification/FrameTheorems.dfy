/** What the frame layout guarantees, for every frame and every input. */
module FrameTheorems {
  import opened Bytes
  import opened Crc32
  import opened FrameCodec

  /** The length field can hold the length of this frame. */
  predicate Fits(f: Frame) {
    |f.data| + OVERHEAD < TWO_32
  }

  lemma BodySlices(kind: byte, covered: Bytes, checksum: Register)
    ensures var b := Body(kind, covered, checksum);
            var n := |b|;
            b[0] == kind && b[1..n - 4] == covered && GetWord(b[n - 4..]) == checksum
  {
    var b := Body(kind, covered, checksum);
    assert b[|b| - 4..] == PutWord(checksum);
    GetPutWord(checksum);
  }

  /** A body of a frame's length is accepted exactly when its checksum is that of its covered part. */
  lemma BodyAccepted(kind: byte, covered: Bytes, checksum: Register)
    requires |covered| >= 8
    ensures BodyResult(Body(kind, covered, checksum)) ==
            if checksum == Checksum(covered)
            then IdBound(covered[..8]); Read(Frame(kind, GetLe(covered[..8]), covered[8..]))
            else IntegrityError
  {
    hide Checksum, GetWord, PutWord;
    var b := Body(kind, covered, checksum);
    BodySlices(kind, covered, checksum);
    assert b[1..9] == b[1..|b| - 4][..8];
    assert b[9..|b| - 4] == b[1..|b| - 4][8..];
    IdBound(covered[..8]);
  }

  lemma CoveredSlices(f: Frame)
    ensures GetLe(Covered(f)[..8]) == f.msgId && Covered(f)[8..] == f.data
  {
    SpanValues();
    LeRoundTrip(f.msgId, 8);
    assert Covered(f)[..8] == PutLe(f.msgId, 8);
  }

  lemma ReadPrefix(n: uint32, body: Bytes, rest: Bytes)
    requires n == |body| && n >= 4
    ensures ReadFrame(PutLe(n, 4) + body + rest) == (BodyResult(body), rest)
  {
    hide BodyResult;
    var s := PutLe(n, 4) + body + rest;
    SpanValues();
    LeRoundTrip(n, 4);
    assert s[..4] == PutLe(n, 4);
    assert s[4..] == body + rest;
    assert s[4..][..n] == body && s[4..][n..] == rest;
  }

  lemma EncodedIsRead(f: Frame, rest: Bytes)
    requires Fits(f)
    ensures ReadFrame(Encoded(f) + rest) == (Read(f), rest)
  {
    hide Checksum, Body, ReadFrame;
    CoveredSlices(f);
    BodyAccepted(f.kind, Covered(f), Checksum(Covered(f)));
    ReadPrefix(LengthField(f), Body(f.kind, Covered(f), Checksum(Covered(f))), rest);
  }

  /** An accepted body is the body of the frame it gave. */
  lemma AcceptedBody(body: Bytes, f: Frame)
    requires |body| >= 4 && BodyResult(body) == Read(f)
    ensures body == Body(f.kind, Covered(f), Checksum(Covered(f)))
    ensures |body| == |f.data| + OVERHEAD
  {
    hide Checksum, GetWord, PutWord;
    var n := |body|;
    PutGetLe(body[1..9]);
    assert body[1..n - 4] == body[1..9] + body[9..n - 4];
    PutGetWord(body[n - 4..]);
    assert body == [body[0]] + body[1..n - 4] + body[n - 4..];
  }

  lemma AcceptedIsEncoded(s: Bytes, f: Frame, rest: Bytes)
    requires ReadFrame(s) == (Read(f), rest)
    ensures Fits(f) && s == Encoded(f) + rest
  {
    var n, tail := GetLe(s[..4]), s[4..];
    hide BodyResult, Body, Checksum, PutLe, GetLe;
    AcceptedBody(tail[..n], f);
    PutGetLe(s[..4]);
    GetLeBound(s[..4]);
    SpanValues();
    assert n == LengthField(f);
    Rejoined(s, n);
  }

  lemma Rejoined(s: Bytes, n: nat)
    requires 4 + n <= |s|
    ensures s == s[..4] + s[4..][..n] + s[4..][n..]
  {
  }

  /**
   Reading accepts exactly the encodings: a read gives frame `f` and leaves `rest`
   if and only if the input is the encoding of `f`, of a length the field can hold,
   followed by `rest`.
   */
  lemma ReadAcceptsExactlyEncodings(s: Bytes, f: Frame, rest: Bytes)
    ensures ReadFrame(s) == (Read(f), rest) <==> Fits(f) && s == Encoded(f) + rest
  {
    hide ReadFrame, Encoded;
    if ReadFrame(s) == (Read(f), rest) {
      AcceptedIsEncoded(s, f, rest);
    }
    if Fits(f) && s == Encoded(f) + rest {
      EncodedIsRead(f, rest);
    }
  }

  /** Encoding then reading gives the frame back exactly when the length field did not wrap. */
  lemma RoundTripExactly(f: Frame, rest: Bytes)
    ensures ReadFrame(Encoded(f) + rest) == (Read(f), rest) <==> Fits(f)
  {
    ReadAcceptsExactlyEncodings(Encoded(f) + rest, f, rest);
  }

  /** Where the parts of a frame lie: length, kind, message id, data, and the checksum of the two last. */
  lemma FrameLayout(f: Frame)
    requires |f.data| < 0x1_0000_0000 - 13
    ensures var s, n := Encoded(f), |f.data|;
            && |s| == 17 + n && GetLe(s[..4]) == 13 + n && s[4] == f.kind
            && GetLe(s[5..13]) == f.msgId && s[13..13 + n] == f.data
            && s[13 + n] as bv32 | ((s[14 + n] as bv32) << 8)
               | ((s[15 + n] as bv32) << 16) | ((s[16 + n] as bv32) << 24) == Checksum(s[5..13 + n])
  {
    hide Checksum, PutWord, GetLe, PutLe;
    var s, n := Encoded(f), |f.data|;
    SpanValues();
    LeRoundTrip(13 + n, 4);
    CoveredSlices(f);
    assert s[..4] == PutLe(13 + n, 4);
    assert s[5..13 + n] == Covered(f);
    assert s[5..13] == Covered(f)[..8] && s[13..13 + n] == Covered(f)[8..];
    assert s[13 + n..] == PutWord(Checksum(Covered(f)));
    WordBytes(Checksum(Covered(f)));
  }

  /** A read finds the end of the input in front of a frame, or right behind a length. */
  lemma EndsOfInput(s: Bytes)
    ensures ReadFrame(s).0 == EndOfInput <==> |s| == 0 || (|s| == 4 && GetLe(s) >= 4)
    ensures ReadFrame(s).0 == UnexpectedEnd <==> 0 < |s| < 4 || (4 < |s| < 4 + GetLe(s[..4]) && GetLe(s[..4]) >= 4)
  {
    hide Checksum, GetWord, GetLe;
    if |s| == 4 {
      assert s[..4] == s;
    }
  }

  /** On a frame that is all there it fails exactly if its length is too small or its checksum wrong. */
  lemma FrameFaults(s: Bytes)
    requires |s| >= 4 && |s| >= 4 + GetLe(s[..4])
    ensures var n, r := GetLe(s[..4]), ReadFrame(s).0;
            && (r == SliceFault <==> n == 4 || (5 <= n < 13 && GetWord(s[n..n + 4]) == Checksum(s[5..n])))
            && (r == IntegrityError <==> n < 4 || (5 <= n && GetWord(s[n..n + 4]) != Checksum(s[5..n])))
            && (r.Read? <==> 13 <= n && GetWord(s[n..n + 4]) == Checksum(s[5..n]))
  {
    hide Checksum, GetWord, GetLe, BodyResult;
    var n := GetLe(s[..4]);
    if n >= 4 {
      var body := s[4..][..n];
      BodyFaults(body);
      if n > 4 {
        assert body[n - 4..] == s[n..n + 4] && body[1..n - 4] == s[5..n];
      }
    }
  }

  lemma BodyFaults(body: Bytes)
    requires |body| >= 4
    ensures var n, r := |body|, BodyResult(body);
            && (r == SliceFault
                <==> n == 4 || (5 <= n < 13 && GetWord(body[n - 4..]) == Checksum(body[1..n - 4])))
            && (r == IntegrityError <==> 5 <= n && GetWord(body[n - 4..]) != Checksum(body[1..n - 4]))
            && (r.Read? <==> 13 <= n && GetWord(body[n - 4..]) == Checksum(body[1..n - 4]))
  {
    hide Checksum, GetWord, GetLe;
  }

  // ----- many frames on one reader -----

  function EncodedAll(fs: seq<Frame>): Bytes {
    if fs == [] then [] else Encoded(fs[0]) + EncodedAll(fs[1..])
  }

  /** Up to `count` reads on one reader, stopping at the first that gives no frame. */
  function ReadMany(s: Bytes, count: nat): (seq<Frame>, Bytes) {
    if count == 0 then ([], s)
    else
      var (r, rest) := ReadFrame(s);
      if !r.Read? then ([], s)
      else
        var (fs, left) := ReadMany(rest, count - 1);
        ([r.frame] + fs, left)
  }

  /** Frames written back to back are read back as they were, and nothing more is consumed. */
  lemma {:induction false} StreamRoundTrip(fs: seq<Frame>, rest: Bytes)
    requires forall i :: 0 <= i < |fs| ==> Fits(fs[i])
    ensures ReadMany(EncodedAll(fs) + rest, |fs|) == (fs, rest)
  {
    hide ReadFrame, Encoded, Fits;
    if fs == [] {
      assert EncodedAll(fs) + rest == rest;
    } else {
      var s := EncodedAll(fs[1..]) + rest;
      assert EncodedAll(fs) + rest == Encoded(fs[0]) + s;
      EncodedIsRead(fs[0], s);
      StreamRoundTrip(fs[1..], rest);
      assert fs == [fs[0]] + fs[1..];
    }
  }

  /** Conversely, whatever a reader yielded was written back to back on the stream. */
  lemma {:induction false} StreamCanonical(s: Bytes, count: nat)
    ensures var (fs, rest) := ReadMany(s, count);
            s == EncodedAll(fs) + rest && forall i :: 0 <= i < |fs| ==> Fits(fs[i])
    decreases count
  {
    hide ReadFrame, Encoded, Fits;
    var (fs, left) := ReadMany(s, count);
    if fs == [] {
      assert EncodedAll(fs) + left == s;
    } else {
      var (r, rest) := ReadFrame(s);
      ReadAcceptsExactlyEncodings(s, r.frame, rest);
      StreamCanonical(rest, count - 1);
      var (gs, last) := ReadMany(rest, count - 1);
      assert fs[1..] == gs && fs[0] == r.frame;
      assert s == Encoded(r.frame) + (EncodedAll(gs) + last);
    }
  }

  lemma LengthFieldAt(f: Frame, rest: Bytes)
    ensures |Encoded(f) + rest| >= 4 && GetLe((Encoded(f) + rest)[..4]) == LengthField(f)
  {
    SpanValues();
    LeRoundTrip(LengthField(f), 4);
    hide Body;
    assert (Encoded(f) + rest)[..4] == PutLe(LengthField(f), 4);
  }

  /** A frame cut short, as by a failed write, is never taken for a frame. */
  lemma TruncatedFrameRejected(f: Frame, cut: nat)
    requires Fits(f) && cut < |Encoded(f)|
    ensures !ReadFrame(Encoded(f)[..cut]).0.Read?
  {
    hide ReadFrame, Encoded;
    var s := Encoded(f)[..cut];
    LengthFieldAt(f, []);
    assert Encoded(f) + [] == Encoded(f);
    assert cut >= 4 ==> s[..4] == Encoded(f)[..4];
    var (r, rest) := ReadFrame(s);
    if r.Read? {
      LengthFieldAt(r.frame, rest);
      ReadAcceptsExactlyEncodings(s, r.frame, rest);
    }
  }

  // ----- what the checksum protects -----

  /** The bytes on the wire with the covered part replaced and everything else as `f` had it. */
  function Tampered(f: Frame, covered: Bytes): Bytes {
    PutLe(LengthField(f), 4) + Body(f.kind, covered, Checksum(Covered(f)))
  }

  /** A burst of up to four changed bytes in the message id or the data is always rejected. */
  lemma BurstRejected(f: Frame, before: Bytes, run: Bytes, changed: Bytes, after: Bytes, rest: Bytes)
    requires Fits(f)
    requires Covered(f) == before + run + after
    requires |run| == |changed| <= 4 && run != changed
    ensures ReadFrame(Tampered(f, before + changed + after) + rest) == (IntegrityError, rest)
  {
    hide Checksum, Body, ReadFrame;
    var covered := before + changed + after;
    BurstChangesChecksum(before, run, changed, after);
    BodyAccepted(f.kind, covered, Checksum(Covered(f)));
    ReadPrefix(LengthField(f), Body(f.kind, covered, Checksum(Covered(f))), rest);
  }

  /** The kind byte is outside the checksum: with it changed, the frame is accepted as another kind. */
  lemma KindByteUncovered(f: Frame, kind: byte, rest: Bytes)
    requires Fits(f)
    ensures ReadFrame(Encoded(f)[4 := kind] + rest) == (Read(f.(kind := kind)), rest)
  {
    hide ReadFrame, Checksum, PutWord, PutLe;
    var g := f.(kind := kind);
    var head := PutLe(LengthField(f), 4);
    var tail := Covered(f) + PutWord(Checksum(Covered(f)));
    assert Encoded(f) == head + [f.kind] + tail;
    assert Encoded(g) == head + [kind] + tail;
    assert Encoded(f)[4 := kind] == Encoded(g);
    EncodedIsRead(g, rest);
  }
}
