/**
 The peer-list codec of peer_service/connection/metadata.go. The gob, base58 and multiaddr
 libraries appear as the function values of `Library`, assumed to undo themselves on each value;
 the hexadecimal conversion, the record conversions and the list layout are spelled out.
 */
module Metadata {
  import opened Bytes
  import opened Envelopes

  type Text = string

  // ----- hexadecimal, as Go's encoding/hex has it -----

  function HexDigit(n: nat): char
    requires n < 16
  {
    "0123456789abcdef"[n]
  }

  /** The value of a digit, upper or lower case; `None` for any other character. */
  function DigitValue(c: char): (r: Option<nat>)
    ensures r.Some? ==> r.value < 16
  {
    if '0' <= c <= '9' then Some((c - '0') as nat)
    else if 'a' <= c <= 'f' then Some(10 + (c - 'a') as nat)
    else if 'A' <= c <= 'F' then Some(10 + (c - 'A') as nat)
    else None
  }

  /** utils.BytesToHex. */
  function BytesToHex(bs: Bytes): (s: Text)
    ensures |s| == 2 * |bs|
  {
    if bs == [] then []
    else [HexDigit(IntOf(bs[0]) / 16), HexDigit(IntOf(bs[0]) % 16)] + BytesToHex(bs[1..])
  }

  /** utils.HexToBytes: what could be decoded before the first pair that is not one, or the odd end. */
  function HexToBytes(s: Text): Bytes {
    if |s| < 2 then []
    else
      var hi, lo := DigitValue(s[0]), DigitValue(s[1]);
      if hi.None? || lo.None? then []
      else [ByteOf(16 * hi.value + lo.value)] + HexToBytes(s[2..])
  }

  /** Lower-case hexadecimal of even length. */
  predicate Canonical(s: Text) {
    |s| % 2 == 0 && forall i :: 0 <= i < |s| ==> '0' <= s[i] <= '9' || 'a' <= s[i] <= 'f'
  }

  lemma DigitRoundTrip(n: nat)
    requires n < 16
    ensures DigitValue(HexDigit(n)) == Some(n)
    ensures '0' <= HexDigit(n) <= '9' || 'a' <= HexDigit(n) <= 'f'
  {
  }

  lemma DigitBack(c: char)
    requires '0' <= c <= '9' || 'a' <= c <= 'f'
    ensures DigitValue(c).Some? && HexDigit(DigitValue(c).value) == c
  {
  }

  lemma {:induction false} HexIsCanonical(bs: Bytes)
    ensures Canonical(BytesToHex(bs))
  {
    hide HexDigit;
    if bs != [] {
      DigitRoundTrip(IntOf(bs[0]) / 16);
      DigitRoundTrip(IntOf(bs[0]) % 16);
      HexIsCanonical(bs[1..]);
    }
  }

  /** Two digits make a byte, and the byte makes the two digits. */
  lemma PairRoundTrip(hi: nat, lo: nat)
    requires hi < 16 && lo < 16
    ensures IntOf(ByteOf(16 * hi + lo)) / 16 == hi && IntOf(ByteOf(16 * hi + lo)) % 16 == lo
  {
    RemainderUnique(16 * hi + lo, 16, hi, lo);
  }

  lemma {:induction false} CanonicalRoundTrip(s: Text)
    requires Canonical(s)
    ensures BytesToHex(HexToBytes(s)) == s
    decreases |s|
  {
    hide HexDigit, DigitValue, ByteOf, IntOf;
    if |s| >= 2 {
      DigitBack(s[0]);
      DigitBack(s[1]);
      PairRoundTrip(DigitValue(s[0]).value, DigitValue(s[1]).value);
      CanonicalTail(s);
      CanonicalRoundTrip(s[2..]);
      assert HexToBytes(s)[1..] == HexToBytes(s[2..]);
      assert s == [s[0], s[1]] + s[2..];
    }
  }

  lemma CanonicalTail(s: Text)
    requires Canonical(s) && |s| >= 2
    ensures Canonical(s[2..])
  {
  }

  /** A key survives the conversion to bytes and back exactly if it is lower-case hex of even length. */
  lemma HexRoundTripExactly(s: Text)
    ensures BytesToHex(HexToBytes(s)) == s <==> Canonical(s)
  {
    if Canonical(s) {
      CanonicalRoundTrip(s);
    } else {
      HexIsCanonical(HexToBytes(s));
    }
  }

  /** Each byte is written as two digits, the high one first. */
  lemma {:induction false} HexByByte(bs: Bytes, i: nat)
    requires i < |bs|
    ensures BytesToHex(bs)[2 * i] == "0123456789abcdef"[bs[i] as nat / 16]
    ensures BytesToHex(bs)[2 * i + 1] == "0123456789abcdef"[bs[i] as nat % 16]
  {
    if i > 0 {
      HexByByte(bs[1..], i - 1);
    }
  }

  /** The character is the digit with value `n`, in lower or upper case. */
  predicate IsDigit(c: char, n: nat) {
    n < 16 && (c == "0123456789abcdef"[n] || c == "0123456789ABCDEF"[n])
  }

  ghost predicate NoDigit(c: char) {
    forall n :: !IsDigit(c, n)
  }

  lemma DigitValues(c: char)
    ensures DigitValue(c).Some? ==> IsDigit(c, DigitValue(c).value)
    ensures DigitValue(c) == None ==> NoDigit(c)
  {
  }

  /**
   Reading gives the bytes of the leading pairs of digits, of either case: each byte is the one its two
   digits denote, and the pair behind the last one, if there is one, is not two digits.
   */
  lemma {:induction false} HexReadsPairs(s: Text)
    ensures var bs := HexToBytes(s);
            && 2 * |bs| <= |s|
            && (forall i :: 0 <= i < |bs| ==>
                  IsDigit(s[2 * i], bs[i] as nat / 16) && IsDigit(s[2 * i + 1], bs[i] as nat % 16))
            && (2 * |bs| + 1 < |s| ==> NoDigit(s[2 * |bs|]) || NoDigit(s[2 * |bs| + 1]))
    decreases |s|
  {
    hide IsDigit, NoDigit, DigitValue, ByteOf;
    if |s| >= 2 {
      DigitValues(s[0]);
      DigitValues(s[1]);
      if DigitValue(s[0]).Some? && DigitValue(s[1]).Some? {
        PairRoundTrip(DigitValue(s[0]).value, DigitValue(s[1]).value);
        HexReadsPairs(s[2..]);
        var bs := HexToBytes(s);
        assert bs[1..] == HexToBytes(s[2..]);
        forall i | 0 <= i < |bs|
          ensures IsDigit(s[2 * i], bs[i] as nat / 16) && IsDigit(s[2 * i + 1], bs[i] as nat % 16)
        {
          if i > 0 {
            assert bs[i] == bs[1..][i - 1];
            assert s[2 * i] == s[2..][2 * (i - 1)] && s[2 * i + 1] == s[2..][2 * (i - 1) + 1];
          }
        }
      }
    }
  }

  // ----- records -----

  /** A peer as the node knows it; `addr` is `None` for a missing address. */
  datatype Peer<Id, Addr> = Peer(publicKey: Text, id: Id, lastSeen: uint32, addr: Option<Addr>)

  datatype Serializable = Serializable(publicKey: Bytes, id: Text, lastSeen: uint32, addr: Bytes)

  /** The libraries: gob for records, base58 for ids, multiaddr for addresses. `None` is their error. */
  datatype Library<!Id, !Addr> = Library(
    gobEncode: Serializable -> Bytes,
    gobDecode: Bytes -> Option<Serializable>,
    pretty: Id -> Text,
    decodeId: Text -> Option<Id>,
    addrBytes: Addr -> Bytes,
    addrFromBytes: Bytes -> Option<Addr>)

  /** Each library undoes itself, and no address is written in no bytes. */
  ghost predicate Faithful<Id(!new), Addr(!new)>(lib: Library<Id, Addr>) {
    && (forall s :: lib.gobDecode(lib.gobEncode(s)) == Some(s))
    && (forall id :: lib.decodeId(lib.pretty(id)) == Some(id))
    && (forall a :: lib.addrBytes(a) != [] && lib.addrFromBytes(lib.addrBytes(a)) == Some(a))
  }

  function ToBytes<Id, Addr>(lib: Library<Id, Addr>, p: Peer<Id, Addr>): Bytes {
    var addr := if p.addr.None? then [] else lib.addrBytes(p.addr.value);
    lib.gobEncode(Serializable(HexToBytes(p.publicKey), lib.pretty(p.id), p.lastSeen, addr))
  }

  /** One record in the list: its length in four bytes, then the record. */
  function Encode<Id, Addr>(lib: Library<Id, Addr>, p: Peer<Id, Addr>): Bytes {
    var data := ToBytes(lib, p);
    PutLe(|data| % TWO_32, 4) + data
  }

  /** PeerConnectionFromBytes; `None` is its panic. */
  function FromBytes<Id, Addr>(lib: Library<Id, Addr>, raw: Bytes): Option<Peer<Id, Addr>> {
    var record := lib.gobDecode(raw);
    if record.None? then None
    else
      var id := lib.decodeId(record.value.id);
      if id.None? then None
      else if record.value.addr == [] then
        Some(Peer(BytesToHex(record.value.publicKey), id.value, record.value.lastSeen, None))
      else
        var addr := lib.addrFromBytes(record.value.addr);
        if addr.None? then None
        else Some(Peer(BytesToHex(record.value.publicKey), id.value, record.value.lastSeen, addr))
  }

  /** A peer as it comes back: its key in canonical spelling, as far as it could be decoded. */
  function Normalized<Id, Addr>(p: Peer<Id, Addr>): Peer<Id, Addr> {
    p.(publicKey := BytesToHex(HexToBytes(p.publicKey)))
  }

  lemma RecordRoundTrip<Id(!new), Addr(!new)>(lib: Library<Id, Addr>, p: Peer<Id, Addr>)
    requires Faithful(lib)
    ensures FromBytes(lib, ToBytes(lib, p)) == Some(Normalized(p))
  {
  }

  /** What is written of a peer: the bytes of its key, its id, when it was seen, and its address or no bytes. */
  lemma RecordWritten<Id(!new), Addr(!new)>(lib: Library<Id, Addr>, key: Text, id: Id, seen: uint32, a: Addr)
    requires Faithful(lib)
    ensures lib.gobDecode(ToBytes(lib, Peer(key, id, seen, Some(a))))
            == Some(Serializable(HexToBytes(key), lib.pretty(id), seen, lib.addrBytes(a)))
    ensures lib.gobDecode(ToBytes(lib, Peer(key, id, seen, None)))
            == Some(Serializable(HexToBytes(key), lib.pretty(id), seen, []))
  {
    hide HexToBytes;
  }

  /** What is read of any record that can be decoded, and that nothing is read of others. */
  lemma RecordRead<Id, Addr>(lib: Library<Id, Addr>, raw: Bytes, r: Serializable)
    ensures lib.gobDecode(raw) == None ==> FromBytes(lib, raw) == None
    ensures lib.gobDecode(raw) == Some(r) ==>
              (FromBytes(lib, raw) == None
               <==> lib.decodeId(r.id) == None || (r.addr != [] && lib.addrFromBytes(r.addr) == None))
    ensures lib.gobDecode(raw) == Some(r) && FromBytes(lib, raw).Some? ==>
              var p := FromBytes(lib, raw).value;
              && p.publicKey == BytesToHex(r.publicKey) && Some(p.id) == lib.decodeId(r.id) && p.lastSeen == r.lastSeen
              && p.addr == if r.addr == [] then None else lib.addrFromBytes(r.addr)
  {
    hide BytesToHex;
  }

  // ----- the list -----

  function EncodedArray<Id, Addr>(lib: Library<Id, Addr>, ps: seq<Peer<Id, Addr>>): Bytes {
    if ps == [] then [] else EncodedArray(lib, ps[..|ps| - 1]) + Encode(lib, ps[|ps| - 1])
  }

  method EncodeArray<Id, Addr>(lib: Library<Id, Addr>, connections: seq<Peer<Id, Addr>>) returns (result: Bytes)
    ensures result == EncodedArray(lib, connections)
  {
    result := [];
    for i := 0 to |connections|
      invariant result == EncodedArray(lib, connections[..i])
    {
      result := result + Encode(lib, connections[i]);
      assert connections[..i + 1][..i] == connections[..i];
    }
    assert connections[..|connections|] == connections;
  }

  /** How decoding ends: with peers and the cursor, or with a panic. */
  datatype DecodeResult<Id, Addr> = Decoded(peers: seq<Peer<Id, Addr>>, end: nat) | Panicked

  /** `first` in front of the peers decoded. */
  function Prepend<Id, Addr>(first: seq<Peer<Id, Addr>>, r: DecodeResult<Id, Addr>): DecodeResult<Id, Addr> {
    if r.Panicked? then Panicked else Decoded(first + r.peers, r.end)
  }

  /**
   The records from `cursor` on. `raw` is what the slice holds, `spare` the bytes behind it that
   its capacity still covers: Go bounds the slices of a slice by the capacity.
   */
  function DecodeFrom<Id, Addr>(lib: Library<Id, Addr>, raw: Bytes, spare: Bytes, cursor: nat): DecodeResult<Id, Addr>
    decreases |raw| - cursor
  {
    var all := raw + spare;
    if cursor >= |raw| then Decoded([], cursor)
    else if cursor + 4 > |all| then Panicked
    else
      var length := GetLe(all[cursor..cursor + 4]);
      if cursor + 4 + length > |all| then Panicked
      else
        var peer := FromBytes(lib, all[cursor + 4..cursor + 4 + length]);
        if peer.None? then Panicked
        else Prepend([peer.value], DecodeFrom(lib, raw, spare, cursor + 4 + length))
  }

  method DecodeArray<Id, Addr>(lib: Library<Id, Addr>, raw: Bytes, spare: Bytes) returns (r: DecodeResult<Id, Addr>)
    ensures r == DecodeFrom(lib, raw, spare, 0)
  {
    hide GetLe, FromBytes;
    var result: seq<Peer<Id, Addr>> := [];
    var all := raw + spare;
    var cursor := 0;
    while cursor < |raw|
      invariant DecodeFrom(lib, raw, spare, 0) == Prepend(result, DecodeFrom(lib, raw, spare, cursor))
      decreases |raw| - cursor
    {
      if cursor + 4 > |all| {
        return Panicked;
      }
      var length := GetLe(all[cursor..cursor + 4]);
      if cursor + 4 + length > |all| {
        return Panicked;
      }
      var peer := FromBytes(lib, all[cursor + 4..cursor + 4 + length]);
      if peer.None? {
        return Panicked;
      }
      PrependTwice(result, peer.value, DecodeFrom(lib, raw, spare, cursor + 4 + length));
      result := result + [peer.value];
      cursor := cursor + 4 + length;
    }
    r := Decoded(result, cursor);
  }

  lemma PrependTwice<Id, Addr>(first: seq<Peer<Id, Addr>>, p: Peer<Id, Addr>, r: DecodeResult<Id, Addr>)
    ensures Prepend(first, Prepend([p], r)) == Prepend(first + [p], r)
  {
  }

  // ----- decoding inverts encoding -----

  function NormalizedAll<Id, Addr>(ps: seq<Peer<Id, Addr>>): (qs: seq<Peer<Id, Addr>>)
    ensures |qs| == |ps|
    ensures forall i :: 0 <= i < |qs| ==> qs[i] == Normalized(ps[i])
  {
    seq(|ps|, i requires 0 <= i < |ps| => Normalized(ps[i]))
  }

  lemma EncodedSnoc<Id, Addr>(lib: Library<Id, Addr>, ps: seq<Peer<Id, Addr>>, i: nat)
    requires i < |ps|
    ensures EncodedArray(lib, ps[..i + 1]) == EncodedArray(lib, ps[..i]) + Encode(lib, ps[i])
  {
    assert ps[..i + 1][..i] == ps[..i];
  }

  lemma {:induction false} EncodedGrows<Id, Addr>(lib: Library<Id, Addr>, ps: seq<Peer<Id, Addr>>, i: nat, j: nat)
    requires i <= j <= |ps|
    ensures EncodedArray(lib, ps[..i]) <= EncodedArray(lib, ps[..j])
    decreases j
  {
    hide EncodedArray, Encode;
    if i < j {
      EncodedGrows(lib, ps, i, j - 1);
      EncodedSnoc(lib, ps, j - 1);
    }
  }

  /** The length of each record fits its four bytes. */
  predicate AllFit<Id, Addr>(lib: Library<Id, Addr>, ps: seq<Peer<Id, Addr>>) {
    forall i :: 0 <= i < |ps| ==> |ToBytes(lib, ps[i])| < TWO_32
  }

  /** A record between `before` and `after` is found by slicing, its first four bytes apart from the rest. */
  lemma SlicedOut(before: Bytes, record: Bytes, after: Bytes)
    requires |record| >= 4
    ensures var all := before + record + after;
            all[|before|..|before| + 4] == record[..4] && all[|before| + 4..|before| + |record|] == record[4..]
  {
    var all := before + record + after;
    assert all[|before|..|before| + |record|] == record;
    assert all[|before|..|before| + 4] == all[|before|..|before| + |record|][..4];
    assert all[|before| + 4..|before| + |record|] == all[|before|..|before| + |record|][4..];
  }

  /** The encoded list is what comes before record `i`, the record, and what comes behind. */
  lemma RecordBetween<Id, Addr>(lib: Library<Id, Addr>, ps: seq<Peer<Id, Addr>>, i: nat) returns (after: Bytes)
    requires i < |ps|
    ensures EncodedArray(lib, ps) == EncodedArray(lib, ps[..i]) + Encode(lib, ps[i]) + after
    ensures |EncodedArray(lib, ps[..i + 1])| == |EncodedArray(lib, ps[..i])| + |Encode(lib, ps[i])|
  {
    EncodedSnoc(lib, ps, i);
    EncodedGrows(lib, ps, i + 1, |ps|);
    hide EncodedArray, Encode;
    assert ps[..|ps|] == ps;
    after := EncodedArray(lib, ps)[|EncodedArray(lib, ps[..i + 1])|..];
  }

  /** Where record `i` lies in the encoded list. */
  lemma RecordAt<Id(!new), Addr(!new)>(lib: Library<Id, Addr>, ps: seq<Peer<Id, Addr>>, spare: Bytes, i: nat)
    requires AllFit(lib, ps) && i < |ps|
    ensures var raw, cursor, data := EncodedArray(lib, ps), |EncodedArray(lib, ps[..i])|, ToBytes(lib, ps[i]);
            && cursor + 4 + |data| == |EncodedArray(lib, ps[..i + 1])| <= |raw|
            && GetLe((raw + spare)[cursor..cursor + 4]) == |data|
            && (raw + spare)[cursor + 4..cursor + 4 + |data|] == data
  {
    hide ToBytes, Encode, EncodedArray, PutLe, GetLe;
    RecordSize(lib, ps[i]);
    var after := RecordBetween(lib, ps, i);
    var before, record := EncodedArray(lib, ps[..i]), Encode(lib, ps[i]);
    SlicedOut(before, record, after + spare);
    assert EncodedArray(lib, ps) + spare == before + record + (after + spare);
  }

  lemma RecordSize<Id(!new), Addr(!new)>(lib: Library<Id, Addr>, p: Peer<Id, Addr>)
    requires |ToBytes(lib, p)| < TWO_32
    ensures |Encode(lib, p)| == 4 + |ToBytes(lib, p)|
    ensures GetLe(Encode(lib, p)[..4]) == |ToBytes(lib, p)| && Encode(lib, p)[4..] == ToBytes(lib, p)
  {
    var n := |ToBytes(lib, p)|;
    hide ToBytes, PutLe, GetLe, Span;
    SpanValues();
    SmallRemainder(n, TWO_32);
    LeRoundTrip(n, 4);
    assert Encode(lib, p)[..4] == PutLe(n, 4);
  }

  /** One turn of the decoding loop, on a record that is all there. */
  lemma DecodesOne<Id, Addr>(lib: Library<Id, Addr>, raw: Bytes, spare: Bytes, cursor: nat,
                             data: Bytes, peer: Peer<Id, Addr>)
    requires cursor + 4 + |data| <= |raw|
    requires GetLe((raw + spare)[cursor..cursor + 4]) == |data|
    requires (raw + spare)[cursor + 4..cursor + 4 + |data|] == data
    requires FromBytes(lib, data) == Some(peer)
    ensures DecodeFrom(lib, raw, spare, cursor)
            == Prepend([peer], DecodeFrom(lib, raw, spare, cursor + 4 + |data|))
  {
    hide GetLe, FromBytes, Prepend;
  }

  lemma NormalizedCons<Id, Addr>(ps: seq<Peer<Id, Addr>>, i: nat)
    requires i < |ps|
    ensures NormalizedAll(ps[i..]) == [Normalized(ps[i])] + NormalizedAll(ps[i + 1..])
  {
    hide Normalized;
  }

  /** The loop stops where the bytes end. */
  lemma DecodesEnd<Id, Addr>(lib: Library<Id, Addr>, raw: Bytes, spare: Bytes)
    ensures DecodeFrom(lib, raw, spare, |raw|) == Decoded([], |raw|)
  {
    hide GetLe, FromBytes, Prepend;
  }

  lemma {:induction false} DecodesFrom<Id(!new), Addr(!new)>(lib: Library<Id, Addr>, ps: seq<Peer<Id, Addr>>,
                                                            spare: Bytes, i: nat)
    requires Faithful(lib) && AllFit(lib, ps) && i <= |ps|
    ensures DecodeFrom(lib, EncodedArray(lib, ps), spare, |EncodedArray(lib, ps[..i])|)
            == Decoded(NormalizedAll(ps[i..]), |EncodedArray(lib, ps)|)
    decreases |ps| - i
  {
    hide EncodedArray, GetLe, FromBytes, ToBytes, Faithful, Normalized, NormalizedAll, AllFit, DecodeFrom;
    var raw := EncodedArray(lib, ps);
    if i == |ps| {
      assert ps[..i] == ps;
      DecodesEnd(lib, raw, spare);
      assert NormalizedAll(ps[i..]) == [];
    } else {
      RecordAt(lib, ps, spare, i);
      RecordRoundTrip(lib, ps[i]);
      DecodesOne(lib, raw, spare, |EncodedArray(lib, ps[..i])|, ToBytes(lib, ps[i]), Normalized(ps[i]));
      DecodesFrom(lib, ps, spare, i + 1);
      NormalizedCons(ps, i);
    }
  }

  /** Decoding an encoded list gives the peers back, keys normalized, and ends exactly at its end. */
  lemma ArrayRoundTrip<Id(!new), Addr(!new)>(lib: Library<Id, Addr>, ps: seq<Peer<Id, Addr>>, spare: Bytes)
    requires Faithful(lib) && AllFit(lib, ps)
    ensures DecodeFrom(lib, EncodedArray(lib, ps), spare, 0) == Decoded(NormalizedAll(ps), |EncodedArray(lib, ps)|)
  {
    DecodesFrom(lib, ps, spare, 0);
    assert ps[..0] == [] && ps[0..] == ps;
  }

  /** The very peers come back exactly if all their keys are lower-case hexadecimal of even length. */
  lemma ArrayRoundTripExactly<Id(!new), Addr(!new)>(lib: Library<Id, Addr>, ps: seq<Peer<Id, Addr>>, spare: Bytes)
    requires Faithful(lib) && AllFit(lib, ps)
    ensures DecodeFrom(lib, EncodedArray(lib, ps), spare, 0) == Decoded(ps, |EncodedArray(lib, ps)|)
            <==> forall i :: 0 <= i < |ps| ==> Canonical(ps[i].publicKey)
  {
    ArrayRoundTrip(lib, ps, spare);
    hide Canonical, BytesToHex, HexToBytes, DecodeFrom, EncodedArray;
    forall i | 0 <= i < |ps| ensures Normalized(ps[i]) == ps[i] <==> Canonical(ps[i].publicKey) {
      HexRoundTripExactly(ps[i].publicKey);
    }
    if forall i :: 0 <= i < |ps| ==> Canonical(ps[i].publicKey) {
      assert NormalizedAll(ps) == ps;
    }
  }

  // ----- which bytes are a list -----

  /** Records, each behind its length in four bytes. */
  function Framed(records: seq<Bytes>): Bytes {
    if records == [] then [] else PutLe(|records[0]| % TWO_32, 4) + records[0] + Framed(records[1..])
  }

  /** Each record has a length that fits, and is read as the peer beside it. */
  predicate AreRecordsOf<Id(==), Addr(==)>(lib: Library<Id, Addr>, records: seq<Bytes>, ps: seq<Peer<Id, Addr>>) {
    |records| == |ps|
    && forall i :: 0 <= i < |ps| ==> |records[i]| < TWO_32 && FromBytes(lib, records[i]) == Some(ps[i])
  }

  lemma FramedFirst(records: seq<Bytes>)
    requires records != [] && |records[0]| < TWO_32
    ensures var raw, d := Framed(records), records[0];
            4 + |d| <= |raw| && GetLe(raw[..4]) == |d| && raw[4..4 + |d|] == d && raw[4 + |d|..] == Framed(records[1..])
  {
    var d := records[0];
    hide PutLe, GetLe, Span;
    SpanValues();
    SmallRemainder(|d|, TWO_32);
    LeRoundTrip(|d|, 4);
    assert Framed(records)[..4] == PutLe(|d|, 4);
  }

  /** A list of records is decoded, from wherever it starts to the end. */
  lemma {:induction false} RecordsDecode<Id, Addr>(lib: Library<Id, Addr>, raw: Bytes, cursor: nat,
                                                 records: seq<Bytes>, ps: seq<Peer<Id, Addr>>)
    requires cursor <= |raw| && raw[cursor..] == Framed(records) && AreRecordsOf(lib, records, ps)
    ensures DecodeFrom(lib, raw, [], cursor) == Decoded(ps, |raw|)
    decreases |records|
  {
    hide GetLe, FromBytes, DecodeFrom, Prepend, PutLe;
    assert raw + [] == raw;
    if records == [] {
      assert cursor == |raw|;
      DecodesEnd(lib, raw, []);
    } else {
      FramedFirst(records);
      var d, tail := records[0], raw[cursor..];
      hide Framed;
      assert raw[cursor..cursor + 4] == tail[..4] && raw[cursor + 4..cursor + 4 + |d|] == tail[4..4 + |d|];
      assert raw[cursor + 4 + |d|..] == tail[4 + |d|..];
      DecodesOne(lib, raw, [], cursor, d, ps[0]);
      RecordsDecode(lib, raw, cursor + 4 + |d|, records[1..], ps[1..]);
      PrependFirst(ps, |raw|);
    }
  }

  lemma PrependFirst<Id, Addr>(ps: seq<Peer<Id, Addr>>, end: nat)
    requires ps != []
    ensures Prepend([ps[0]], Decoded(ps[1..], end)) == Decoded(ps, end)
  {
  }

  /** What is decoded was a list of records. */
  lemma {:induction false} DecodedAreRecords<Id, Addr>(lib: Library<Id, Addr>, raw: Bytes, cursor: nat,
                                                     ps: seq<Peer<Id, Addr>>, end: nat)
    returns (records: seq<Bytes>)
    requires cursor <= |raw| && DecodeFrom(lib, raw, [], cursor) == Decoded(ps, end)
    ensures end == |raw| && raw[cursor..] == Framed(records) && AreRecordsOf(lib, records, ps)
    decreases |raw| - cursor
  {
    hide GetLe, FromBytes, PutLe;
    assert raw + [] == raw;
    if cursor == |raw| {
      records := [];
    } else {
      var word := raw[cursor..cursor + 4];
      var next := cursor + 4 + GetLe(word);
      var d := raw[cursor + 4..next];
      var rest := DecodedAreRecords(lib, raw, next, ps[1..], end);
      records := [d] + rest;
      PutGetLe(word);
      GetLeBound(word);
      SpanValues();
      SmallRemainder(|d|, TWO_32);
      assert raw[cursor..] == word + d + raw[next..];
      assert records[1..] == rest;
    }
  }

  /**
   The bytes of a list, with nothing behind them, are decoded to peers exactly if they are records, each
   behind its length and none longer than the length can say, that are read as those peers.
   */
  lemma DecodesExactly<Id, Addr>(lib: Library<Id, Addr>, raw: Bytes, ps: seq<Peer<Id, Addr>>)
    ensures DecodeFrom(lib, raw, [], 0) == Decoded(ps, |raw|)
            <==> exists records :: Framed(records) == raw && AreRecordsOf(lib, records, ps)
    ensures DecodeFrom(lib, raw, [], 0).Decoded? ==> DecodeFrom(lib, raw, [], 0).end == |raw|
  {
    hide DecodeFrom, AreRecordsOf, Framed;
    assert raw[0..] == raw;
    if DecodeFrom(lib, raw, [], 0).Decoded? {
      var r := DecodeFrom(lib, raw, [], 0);
      var records := DecodedAreRecords(lib, raw, 0, r.peers, r.end);
    }
    if records :| Framed(records) == raw && AreRecordsOf(lib, records, ps) {
      RecordsDecode(lib, raw, 0, records, ps);
    }
  }
}
