/**
 The batch codec on values: length framing, optional compression, and a stream cipher with a
 checksum whose position and counter carry over from batch to batch. The cipher's keystream,
 the hash and the compression algorithms are parameters.
 */
module BatchCodec {
  import opened Numbers
  import opened Wrappers
  import opened Bits
  import opened Varint
  import opened Sequencing

  const BATCH_HEADER := 0xfe
  const RAW_MARKER := 0xff
  const MAX_BATCH_ITEMS := 812
  const CHECKSUM_BYTES := 8

  type Packet = seq<Byte>

  // ---------- framing ----------

  function WriteFrame(packet: Packet): seq<Byte> {
    WriteVaruint32(|packet| % 0x1_0000_0000) + packet
  }

  function Frames(packets: seq<Packet>): seq<Byte> {
    WriteAll(WriteFrame, packets)
  }

  function ReadFrame(src: seq<Byte>): (r: Read<Packet>)
    ensures r.Got? ==> |r.rest| < |src|
  {
    match ReadVaruint32(src)
    case Failed => Failed
    case Got(length, rest) =>
      ReadConsumes(src, MAX_BYTES);
      if |rest| % 0x1_0000_0000 < length then Failed else Got(rest[..length], rest[length..])
  }

  lemma {:induction false} ReadConsumes(src: seq<Byte>, left: nat)
    ensures ReadUpTo(src, left).Got? ==> |ReadUpTo(src, left).rest| < |src|
  {
    if left > 0 && src != [] && src[0] >= 128 {
      ReadConsumes(src[1..], left - 1);
    }
  }

  /** Frames until the buffer is used up. */
  function ReadFrames(src: seq<Byte>): Option<seq<Packet>>
    decreases |src|
  {
    if src == [] then Some([])
    else
      match ReadFrame(src)
      case Failed => None
      case Got(packet, rest) =>
        match ReadFrames(rest)
        case None => None
        case Some(packets) => Some([packet] + packets)
  }

  lemma FrameRoundTrip(packet: Packet, tail: seq<Byte>)
    requires |packet| + |tail| < 0x1_0000_0000
    ensures ReadFrame(WriteFrame(packet) + tail) == Got(packet, tail)
  {
    Associates(WriteVaruint32(|packet|), packet, tail);
    VaruintRoundTrip(|packet|, packet + tail);
    ConcatParts(packet, tail);
    LengthFits(|packet|);
    LengthFits(|packet + tail|);
  }

  lemma LengthFits(n: nat)
    requires n < 0x1_0000_0000
    ensures n % 0x1_0000_0000 == n
  {
  }

  lemma ConcatParts<T>(a: seq<T>, b: seq<T>)
    ensures (a + b)[..|a|] == a && (a + b)[|a|..] == b
  {
  }

  lemma {:induction false} FramesRoundTrip(packets: seq<Packet>)
    requires |Frames(packets)| < 0x1_0000_0000
    ensures ReadFrames(Frames(packets)) == Some(packets)
  {
    if packets != [] {
      var rest := Frames(packets[1..]);
      assert Frames(packets) == WriteFrame(packets[0]) + rest;
      FramesRoundTrip(packets[1..]);
      FrameRoundTrip(packets[0], rest);
      assert Frames(packets) != [];
      assert packets == [packets[0]] + packets[1..];
    }
  }

  // ---------- compression ----------

  datatype Compression = Compression(
    id: Byte,
    compress: seq<Byte> -> Option<seq<Byte>>,
    decompress: (seq<Byte>, nat) -> Option<seq<Byte>>)

  datatype Settings = Settings(compression: Option<Compression>, threshold: int, maxDecompressed: nat,
                               registered: set<Byte>, enableLimits: bool)

  /** Decompression undoes compression within the limit, and the raw marker stands for no compression. */
  ghost predicate Lawful(s: Settings) {
    s.compression.Some? ==>
      var c := s.compression.value;
      && (c.id == RAW_MARKER ==> forall body :: c.compress(body) == Some(body))
      && (c.id != RAW_MARKER ==> c.id in s.registered)
      && (forall body, limit: nat :: |body| <= limit && c.compress(body).Some?
            ==> c.decompress(c.compress(body).value, limit) == Some(body))
  }

  /** The algorithm marker and the body; nothing when the algorithm fails. */
  function Pack(s: Settings, body: seq<Byte>): Option<seq<Byte>> {
    match s.compression
    case None => Some(body)
    case Some(c) =>
      if |body| < s.threshold then Some([RAW_MARKER] + body)
      else
        match c.compress(body)
        case None => None
        case Some(data) => Some([c.id] + data)
  }

  datatype Error = InvalidHeader | TooShort | BadChecksum | MissingMarker | UnknownAlgorithm | UnexpectedAlgorithm
    | BadData | BadFrame | TooManyPackets

  datatype Decoded = Packets(packets: seq<Packet>) | Refused(error: Error)

  datatype Unpacked = Body(body: seq<Byte>) | NotUnpacked(error: Error)

  function Unpack(s: Settings, body: seq<Byte>): Unpacked {
    match s.compression
    case None => Body(body)
    case Some(c) =>
      if body == [] then NotUnpacked(MissingMarker)
      else if body[0] == RAW_MARKER then Body(body[1..])
      else if body[0] !in s.registered then NotUnpacked(UnknownAlgorithm)
      else if body[0] != c.id then NotUnpacked(UnexpectedAlgorithm)
      else
        match c.decompress(body[1..], s.maxDecompressed)
        case None => NotUnpacked(BadData)
        case Some(data) => Body(data)
  }

  /** The body is small enough for what the decoder will accept. */
  predicate Fits(s: Settings, body: seq<Byte>) {
    s.compression.Some? && |body| >= s.threshold ==> |body| <= s.maxDecompressed
  }

  lemma PackRoundTrip(s: Settings, body: seq<Byte>)
    requires Lawful(s) && Fits(s, body) && Pack(s, body).Some?
    ensures Unpack(s, Pack(s, body).value) == Body(body)
  {
  }

  function FromFrames(s: Settings, body: seq<Byte>): Decoded {
    match ReadFrames(body)
    case None => Refused(BadFrame)
    case Some(packets) =>
      if |packets| > MAX_BATCH_ITEMS && s.enableLimits then Refused(TooManyPackets) else Packets(packets)
  }

  // ---------- encryption ----------

  /** The keystream of the session key, the hash, and the key that enters the checksum. */
  datatype Crypto = Crypto(keystream: nat -> Byte, hash: seq<Byte> -> seq<Byte>, key: seq<Byte>)

  ghost predicate LawfulCrypto(c: Crypto) {
    forall data :: |c.hash(data)| >= CHECKSUM_BYTES
  }

  /** How far a direction of the session has come. */
  datatype Stream = Stream(counter: UInt64, position: nat)

  const START := Stream(0, 0)

  function XorByte(a: Byte, b: Byte): (r: Byte) {
    assert Pow2(8) == 0x100;
    XorBound(a, b, 8);
    Xor(a, b)
  }

  function Cipher(c: Crypto, position: nat, data: seq<Byte>): (r: seq<Byte>)
    ensures |r| == |data|
  {
    seq(|data|, i requires 0 <= i < |data| => XorByte(data[i], c.keystream(position + i)))
  }

  lemma CipherUndoes(c: Crypto, position: nat, data: seq<Byte>)
    ensures Cipher(c, position, Cipher(c, position, data)) == data
  {
    forall i | 0 <= i < |data|
      ensures XorByte(XorByte(data[i], c.keystream(position + i)), c.keystream(position + i)) == data[i]
    {
      XorInvolutive(data[i], c.keystream(position + i));
    }
  }

  function LittleEndian(x: nat, bytes: nat): (r: seq<Byte>)
    ensures |r| == bytes
  {
    if bytes == 0 then [] else [x % 0x100] + LittleEndian(x / 0x100, bytes - 1)
  }

  function Checksum(c: Crypto, counter: UInt64, data: seq<Byte>): (r: seq<Byte>)
    requires LawfulCrypto(c)
    ensures |r| == CHECKSUM_BYTES
  {
    c.hash(LittleEndian(counter, 8) + data + c.key)[..CHECKSUM_BYTES]
  }

  function NextCounter(counter: UInt64): UInt64 {
    if counter == 0xffff_ffff_ffff_ffff then 0 else counter + 1
  }

  function Encrypt(c: Crypto, st: Stream, data: seq<Byte>): (seq<Byte>, Stream)
    requires LawfulCrypto(c)
  {
    var plain := data + Checksum(c, st.counter, data);
    (Cipher(c, st.position, plain), Stream(NextCounter(st.counter), st.position + |plain|))
  }

  /** The decrypted body without its checksum, or why it is refused; the position moves in any case. */
  function Decrypt(c: Crypto, st: Stream, data: seq<Byte>): (Unpacked, Stream)
    requires LawfulCrypto(c)
  {
    var plain := Cipher(c, st.position, data);
    var moved := st.(position := st.position + |data|);
    if |plain| < CHECKSUM_BYTES then (NotUnpacked(TooShort), moved)
    else
      var body, sum := plain[..|plain| - CHECKSUM_BYTES], plain[|plain| - CHECKSUM_BYTES..];
      var counted := moved.(counter := NextCounter(st.counter));
      if sum == Checksum(c, st.counter, body) then (Body(body), counted) else (NotUnpacked(BadChecksum), counted)
  }

  lemma DecryptEncrypted(c: Crypto, st: Stream, data: seq<Byte>)
    requires LawfulCrypto(c)
    ensures var (bytes, after) := Encrypt(c, st, data);
            Decrypt(c, st, bytes) == (Body(data), after)
  {
    var plain := data + Checksum(c, st.counter, data);
    CipherUndoes(c, st.position, plain);
    assert plain[..|plain| - CHECKSUM_BYTES] == data;
    assert plain[|plain| - CHECKSUM_BYTES..] == Checksum(c, st.counter, data);
  }

  // ---------- batches ----------

  /** Encodes a batch; nothing is sent and the stream stays where it is when compression fails. */
  function EncodeBatch(s: Settings, crypto: Option<Crypto>, st: Stream, packets: seq<Packet>)
    : Option<(seq<Byte>, Stream)>
    requires crypto.Some? ==> LawfulCrypto(crypto.value)
  {
    match Pack(s, Frames(packets))
    case None => None
    case Some(data) =>
      match crypto
      case None => Some(([BATCH_HEADER] + data, st))
      case Some(c) => Some(([BATCH_HEADER] + Encrypt(c, st, data).0, Encrypt(c, st, data).1))
  }

  function DecodeBody(s: Settings, unpacked: Unpacked): Decoded {
    match unpacked
    case NotUnpacked(error) => Refused(error)
    case Body(data) =>
      match Unpack(s, data)
      case NotUnpacked(error) => Refused(error)
      case Body(body) => FromFrames(s, body)
  }

  function DecodeBatch(s: Settings, crypto: Option<Crypto>, st: Stream, data: seq<Byte>): (Decoded, Stream)
    requires crypto.Some? ==> LawfulCrypto(crypto.value)
  {
    if data == [] then (Packets([]), st)
    else if data[0] != BATCH_HEADER then (Refused(InvalidHeader), st)
    else
      match crypto
      case None => (DecodeBody(s, Body(data[1..])), st)
      case Some(c) => (DecodeBody(s, Decrypt(c, st, data[1..]).0), Decrypt(c, st, data[1..]).1)
  }

  /** What a batch must satisfy to be decodable: sizes, and the law of the algorithm. */
  ghost predicate Sendable(s: Settings, packets: seq<Packet>) {
    Lawful(s) && |Frames(packets)| < 0x1_0000_0000 && Fits(s, Frames(packets))
  }

  /**
   Decoding an encoded batch from the same point of the stream gives the packets back and
   leaves both ends at the same point, exactly when there are not too many packets.
   */
  lemma BatchRoundTrip(s: Settings, crypto: Option<Crypto>, st: Stream, packets: seq<Packet>)
    requires Sendable(s, packets) && (crypto.Some? ==> LawfulCrypto(crypto.value))
    requires EncodeBatch(s, crypto, st, packets).Some?
    ensures var (bytes, after) := EncodeBatch(s, crypto, st, packets).value;
            var (decoded, after') := DecodeBatch(s, crypto, st, bytes);
            && after' == after
            && decoded == if |packets| > 812 && s.enableLimits then Refused(TooManyPackets) else Packets(packets)
  {
    var body := Frames(packets);
    var data := Pack(s, body).value;
    PackRoundTrip(s, body);
    FramesRoundTrip(packets);
    var (bytes, after) := EncodeBatch(s, crypto, st, packets).value;
    match crypto
    case None => assert bytes[1..] == data;
    case Some(c) =>
      assert bytes[1..] == Encrypt(c, st, data).0;
      DecryptEncrypted(c, st, data);
  }

  // ---------- whole streams ----------

  /** A batch with the settings under which both ends handle it. */
  datatype Batch = Batch(settings: Settings, packets: seq<Packet>)

  ghost predicate AllSendable(batches: seq<Batch>) {
    forall i :: 0 <= i < |batches| ==>
      && Sendable(batches[i].settings, batches[i].packets)
      && (batches[i].settings.enableLimits ==> |batches[i].packets| <= MAX_BATCH_ITEMS)
  }

  /** The bytes of the batches that could be encoded, with the settings of each, and where the stream ends. */
  datatype Sent = Sent(wires: seq<(Settings, seq<Byte>)>, delivered: seq<seq<Packet>>, end: Stream)

  function SendAll(crypto: Option<Crypto>, st: Stream, batches: seq<Batch>): Sent
    requires crypto.Some? ==> LawfulCrypto(crypto.value)
    decreases |batches|
  {
    if batches == [] then Sent([], [], st)
    else
      match EncodeBatch(batches[0].settings, crypto, st, batches[0].packets)
      case None => SendAll(crypto, st, batches[1..])
      case Some((bytes, after)) =>
        var rest := SendAll(crypto, after, batches[1..]);
        Sent([(batches[0].settings, bytes)] + rest.wires, [batches[0].packets] + rest.delivered, rest.end)
  }

  function ReceiveAll(crypto: Option<Crypto>, st: Stream, wires: seq<(Settings, seq<Byte>)>): (seq<Decoded>, Stream)
    requires crypto.Some? ==> LawfulCrypto(crypto.value)
    decreases |wires|
  {
    if wires == [] then ([], st)
    else
      var (decoded, after) := DecodeBatch(wires[0].0, crypto, st, wires[0].1);
      var (rest, end) := ReceiveAll(crypto, after, wires[1..]);
      ([decoded] + rest, end)
  }

  function AsDecoded(delivered: seq<seq<Packet>>): (r: seq<Decoded>)
    ensures |r| == |delivered|
  {
    seq(|delivered|, i requires 0 <= i < |delivered| => Packets(delivered[i]))
  }

  function CounterAfter(counter: UInt64, n: nat): UInt64
    decreases n
  {
    if n == 0 then counter else CounterAfter(NextCounter(counter), n - 1)
  }

  lemma ReceiveFirst(crypto: Option<Crypto>, st: Stream, wire: (Settings, seq<Byte>),
                     wires: seq<(Settings, seq<Byte>)>, decoded: Decoded, after: Stream)
    requires crypto.Some? ==> LawfulCrypto(crypto.value)
    requires DecodeBatch(wire.0, crypto, st, wire.1) == (decoded, after)
    ensures ReceiveAll(crypto, st, [wire] + wires)
            == ([decoded] + ReceiveAll(crypto, after, wires).0, ReceiveAll(crypto, after, wires).1)
  {
  }

  lemma AsDecodedFirst(packets: seq<Packet>, delivered: seq<seq<Packet>>)
    ensures AsDecoded([packets] + delivered) == [Packets(packets)] + AsDecoded(delivered)
  {
  }

  /**
   For every sequence of batches: each decode returns exactly the packets that were encoded,
   and both ends stop at the same position of the keystream with the same counter.
   */
  lemma {:induction false} StreamRoundTrip(crypto: Option<Crypto>, st: Stream, batches: seq<Batch>)
    requires AllSendable(batches) && (crypto.Some? ==> LawfulCrypto(crypto.value))
    ensures var sent := SendAll(crypto, st, batches);
            ReceiveAll(crypto, st, sent.wires) == (AsDecoded(sent.delivered), sent.end)
    decreases |batches|
  {
    if batches != [] {
      var batch := batches[0];
      match EncodeBatch(batch.settings, crypto, st, batch.packets) {
        case None => StreamRoundTrip(crypto, st, batches[1..]);
        case Some((bytes, after)) =>
          var rest := SendAll(crypto, after, batches[1..]);
          StreamRoundTrip(crypto, after, batches[1..]);
          BatchRoundTrip(batch.settings, crypto, st, batch.packets);
          ReceiveFirst(crypto, st, (batch.settings, bytes), rest.wires, Packets(batch.packets), after);
          AsDecodedFirst(batch.packets, rest.delivered);
      }
    }
  }

  /** The counter counts the batches that were sent, and nothing else. */
  lemma {:induction false} StreamCounts(crypto: Option<Crypto>, st: Stream, batches: seq<Batch>)
    requires crypto.Some? ==> LawfulCrypto(crypto.value)
    ensures var sent := SendAll(crypto, st, batches);
            && |sent.wires| == |sent.delivered| <= |batches|
            && (crypto.Some? ==> sent.end.counter == CounterAfter(st.counter, |sent.delivered|))
            && (crypto.None? ==> sent.end == st)
    decreases |batches|
  {
    if batches != [] {
      match EncodeBatch(batches[0].settings, crypto, st, batches[0].packets)
      case None => StreamCounts(crypto, st, batches[1..]);
      case Some((_, after)) => StreamCounts(crypto, after, batches[1..]);
    }
  }

  lemma {:induction false} CounterAfterIs(counter: UInt64, n: nat)
    requires counter + n < 0x1_0000_0000_0000_0000
    ensures CounterAfter(counter, n) == counter + n
    decreases n
  {
    if n > 0 {
      CounterAfterIs(counter + 1, n - 1);
    }
  }

  /** From the start of a session, both counters are the number of batches. */
  lemma SessionRoundTrip(crypto: Crypto, batches: seq<Batch>)
    requires AllSendable(batches) && LawfulCrypto(crypto) && |batches| < 0x1_0000_0000_0000_0000
    ensures var sent := SendAll(Some(crypto), START, batches);
            var (decoded, end) := ReceiveAll(Some(crypto), START, sent.wires);
            && decoded == AsDecoded(sent.delivered)
            && end == sent.end && end.counter == |sent.delivered| <= |batches|
  {
    StreamRoundTrip(Some(crypto), START, batches);
    StreamCounts(Some(crypto), START, batches);
    CounterAfterIs(0, |SendAll(Some(crypto), START, batches).delivered|);
  }

  /** A batch whose last eight bytes were changed on the way is refused. */
  lemma TamperedChecksumIsRefused(s: Settings, c: Crypto, st: Stream, packets: seq<Packet>, tampered: seq<Byte>)
    requires LawfulCrypto(c) && EncodeBatch(s, Some(c), st, packets).Some?
    requires var bytes := EncodeBatch(s, Some(c), st, packets).value.0;
             && |tampered| == |bytes| && tampered != bytes
             && tampered[..|bytes| - CHECKSUM_BYTES] == bytes[..|bytes| - CHECKSUM_BYTES]
    ensures DecodeBatch(s, Some(c), st, tampered).0 == Refused(BadChecksum)
  {
    var bytes := EncodeBatch(s, Some(c), st, packets).value.0;
    var data := Pack(s, Frames(packets)).value;
    assert bytes[1..] == Encrypt(c, st, data).0;
    assert tampered[0] == tampered[..|bytes| - CHECKSUM_BYTES][0];
    TamperedBodyIsRefused(c, st, data, tampered[1..]);
  }

  lemma TamperedBodyIsRefused(c: Crypto, st: Stream, data: seq<Byte>, tampered: seq<Byte>)
    requires LawfulCrypto(c)
    requires var bytes := Encrypt(c, st, data).0;
             && |tampered| == |bytes| && tampered != bytes
             && tampered[..|data|] == bytes[..|data|]
    ensures Decrypt(c, st, tampered).0 == NotUnpacked(BadChecksum)
  {
    var sum := Checksum(c, st.counter, data);
    var plain := data + sum;
    var bytes := Cipher(c, st.position, plain);
    var got := Cipher(c, st.position, tampered);
    CipherUndoes(c, st.position, plain);
    CipherUndoes(c, st.position, tampered);
    assert got != plain;
    forall i | 0 <= i < |data|
      ensures got[i] == data[i]
    {
      assert tampered[i] == tampered[..|data|][i] && bytes[i] == bytes[..|data|][i];
      assert Cipher(c, st.position, bytes)[i] == plain[i];
    }
    assert got[..|data|] == data;
    assert got == got[..|data|] + got[|data|..];
  }

  // ---------- what is on the wire ----------

  /** Every byte is combined with the keystream byte of its place in the session. */
  lemma CipherIs(c: Crypto, position: nat, data: seq<Byte>, i: nat)
    requires i < |data|
    ensures Xor(Cipher(c, position, data)[i], data[i]) == c.keystream(position + i)
  {
    XorSwaps(data[i], c.keystream(position + i));
  }

  lemma XorSwaps(a: nat, b: nat)
    ensures Xor(Xor(a, b), a) == b
  {
    XorCommutes(a, b);
    XorInvolutive(b, a);
  }

  lemma {:induction false} LittleEndianIs(x: nat, bytes: nat)
    requires x < Pow2(8 * bytes)
    ensures Base256(LittleEndian(x, bytes)) == x
    decreases bytes
  {
    if bytes > 0 {
      Pow2Sum(8, 8 * (bytes - 1));
      assert Pow2(8) == 0x100;
      LittleEndianIs(x / 0x100, bytes - 1);
      assert LittleEndian(x, bytes)[1..] == LittleEndian(x / 0x100, bytes - 1);
    }
  }

  /** The eight bytes that stand for a counter. */
  ghost predicate AreCounter(bytes: seq<Byte>, counter: UInt64) {
    |bytes| == 8 && Base256(bytes) == counter
  }

  lemma Pow2Squared(a: nat, power: nat)
    requires Pow2(a) == power
    ensures Pow2(2 * a) == power * power
  {
    Pow2Sum(a, a);
  }

  lemma Pow64()
    ensures Pow2(64) == 0x1_0000_0000_0000_0000
  {
    Pow2Squared(8, 0x100);
    Pow2Squared(16, 0x1_0000);
    Pow2Squared(32, 0x1_0000_0000);
  }

  lemma CounterBytes(counter: UInt64) returns (bytes: seq<Byte>)
    ensures AreCounter(bytes, counter) && bytes == LittleEndian(counter, 8)
  {
    Pow64();
    bytes := LittleEndian(counter, 8);
    LittleEndianIs(counter, 8);
  }

  /**
   What is encrypted is the body, followed by the first eight bytes of the hash of the counter,
   the body and the key.
   */
  lemma SealIs(c: Crypto, st: Stream, data: seq<Byte>) returns (bytes: seq<Byte>)
    requires LawfulCrypto(c)
    ensures AreCounter(bytes, st.counter)
    ensures Cipher(c, st.position, Encrypt(c, st, data).0) == data + c.hash(bytes + data + c.key)[..8]
    ensures Encrypt(c, st, data).1.position == st.position + |data| + 8
  {
    bytes := CounterBytes(st.counter);
    CipherUndoes(c, st.position, data + Checksum(c, st.counter, data));
  }

  /**
   A body with any eight bytes after it is refused for its checksum exactly when these are not the
   first eight bytes of the hash of the counter, the body and the key.
   */
  lemma SealRefusedIff(c: Crypto, st: Stream, data: seq<Byte>, sum: seq<Byte>) returns (bytes: seq<Byte>)
    requires LawfulCrypto(c) && |sum| == 8
    ensures AreCounter(bytes, st.counter)
    ensures var result := Decrypt(c, st, Cipher(c, st.position, data + sum)).0;
            result == if sum == c.hash(bytes + data + c.key)[..8] then Body(data) else NotUnpacked(BadChecksum)
  {
    bytes := CounterBytes(st.counter);
    CipherUndoes(c, st.position, data + sum);
    ConcatParts(data, sum);
  }

  /**
   A body that was sealed at one point of a session, or under another key, is refused at another
   point exactly when the two hashes differ in their first eight bytes.
   */
  lemma ReplayRefusedIff(c: Crypto, st: Stream, c': Crypto, st': Stream, data: seq<Byte>)
    returns (bytes: seq<Byte>, bytes': seq<Byte>)
    requires LawfulCrypto(c) && LawfulCrypto(c')
    ensures AreCounter(bytes, st.counter) && AreCounter(bytes', st'.counter)
    ensures var sealed := Cipher(c, st.position, Encrypt(c, st, data).0);
            Decrypt(c', st', Cipher(c', st'.position, sealed)).0 == NotUnpacked(BadChecksum)
            <==> c.hash(bytes + data + c.key)[..8] != c'.hash(bytes' + data + c'.key)[..8]
  {
    bytes := SealIs(c, st, data);
    bytes' := SealRefusedIff(c', st', data, c.hash(bytes + data + c.key)[..8]);
  }

  /**
   A batch starts with 0xfe; with compression there follows the algorithm's number and the compressed
   frames, or 0xff and the frames as they are when these are shorter than the threshold. All but the first
   byte is encrypted.
   */
  lemma WireIs(s: Settings, crypto: Option<Crypto>, st: Stream, packets: seq<Packet>)
    requires (crypto.Some? ==> LawfulCrypto(crypto.value)) && EncodeBatch(s, crypto, st, packets).Some?
    ensures var bytes := EncodeBatch(s, crypto, st, packets).value.0;
            && bytes != [] && bytes[0] == 0xfe
            && var body := if crypto.None? then bytes[1..] else Cipher(crypto.value, st.position, bytes[1..]);
               var sum := if crypto.None? then 0 else 8;
               && sum <= |body|
               && var plain, frames := body[..|body| - sum], Frames(packets);
                  match s.compression
                  case None => plain == frames
                  case Some(c) =>
                    if |frames| < s.threshold then plain == [0xff] + frames
                    else c.compress(frames).Some? && plain == [c.id] + c.compress(frames).value
  {
    var data := Pack(s, Frames(packets)).value;
    match crypto
    case None =>
    case Some(c) =>
      var counter := SealIs(c, st, data);
      ConcatParts(data, c.hash(counter + data + c.key)[..8]);
  }

  /** Each packet is written as its length, as a varint, and its bytes. */
  lemma {:induction false} FramesAre(packets: seq<Packet>)
    requires forall i :: 0 <= i < |packets| ==> |packets[i]| < 0x1_0000_0000
    ensures packets == [] ==> Frames(packets) == []
    ensures packets != [] ==> Frames(packets) == WriteVaruint32(|packets[0]|) + packets[0] + Frames(packets[1..])
  {
  }

  /** Which batches the decoder refuses before it looks at their frames, without encryption. */
  lemma RefusedIff(s: Settings, st: Stream, data: seq<Byte>)
    ensures var (decoded, after) := DecodeBatch(s, None, st, data);
            && after == st
            && (data == [] ==> decoded == Packets([]))
            && (decoded == Refused(InvalidHeader) <==> data != [] && data[0] != 0xfe)
            && (decoded == Refused(MissingMarker) <==> data == [0xfe] && s.compression.Some?)
            && (decoded == Refused(UnknownAlgorithm) <==>
                  |data| > 1 && data[0] == 0xfe && s.compression.Some? && data[1] != 0xff && data[1] !in s.registered)
            && (decoded == Refused(UnexpectedAlgorithm) <==>
                  && |data| > 1 && data[0] == 0xfe && s.compression.Some?
                  && data[1] != 0xff && data[1] in s.registered && data[1] != s.compression.value.id)
  {
  }

  /** A compressed body that its own algorithm cannot undo within the limit is refused as such. */
  lemma BadDataIff(s: Settings, body: seq<Byte>)
    ensures Unpack(s, body) == NotUnpacked(BadData)
            <==> && s.compression.Some? && body != [] && body[0] != 0xff && body[0] in s.registered
                 && body[0] == s.compression.value.id
                 && s.compression.value.decompress(body[1..], s.maxDecompressed).None?
  {
  }

  /** An encrypted batch that is too short for a checksum is refused and does not count. */
  lemma TooShortIff(c: Crypto, st: Stream, data: seq<Byte>)
    requires LawfulCrypto(c)
    ensures var (result, after) := Decrypt(c, st, data);
            && (result == NotUnpacked(TooShort) <==> |data| < 8)
            && after.position == st.position + |data|
            && after.counter == if |data| < 8 then st.counter else (st.counter + 1) % 0x1_0000_0000_0000_0000
  {
  }
}
