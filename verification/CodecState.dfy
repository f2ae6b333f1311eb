/**
 The codec objects: the cipher state of one direction, advanced by every batch, and the codec
 that encodes with the outgoing and decodes with the incoming state.
 */
module CodecState {
  import opened Numbers
  import opened Wrappers
  import opened Varint
  import opened Sequencing
  import opened BatchCodec

  /** What has been read so far, followed by what is still to be read. */
  ghost function Prepend(packets: seq<Packet>, rest: Option<seq<Packet>>): Option<seq<Packet>> {
    if rest.None? then None else Some(packets + rest.value)
  }

  lemma PrependSteps(packets: seq<Packet>, packet: Packet, rest: seq<Packet>)
    ensures Prepend([], Some(rest)) == Some(rest)
    ensures Prepend(packets, Some([])) == Some(packets)
    ensures Prepend(packets, Some([packet] + rest)) == Prepend(packets + [packet], Some(rest))
  {
    assert [] + rest == rest && packets + [] == packets;
    assert packets + ([packet] + rest) == (packets + [packet]) + rest;
  }

  class CryptState {
    const crypto: Crypto
    var counter: UInt64
    var position: nat

    ghost function Model(): Stream
      reads this
    {
      Stream(counter, position)
    }

    constructor (crypto: Crypto)
      ensures this.crypto == crypto && Model() == START
    {
      this.crypto := crypto;
      counter, position := 0, 0;
    }

    /** Applies the keystream from the current position on, and moves the position past the data. */
    method XorKeyStream(data: seq<Byte>) returns (out: seq<Byte>)
      modifies this`position
      ensures out == Cipher(crypto, old(position), data) && position == old(position) + |data|
    {
      out := [];
      for i := 0 to |data|
        invariant position == old(position) + i
        invariant |out| == i && forall k :: 0 <= k < i ==> out[k] == Cipher(crypto, old(position), data)[k]
      {
        out := out + [XorByte(data[i], crypto.keystream(position))];
        position := position + 1;
      }
    }

    method Encrypt(data: seq<Byte>) returns (out: seq<Byte>)
      requires LawfulCrypto(crypto)
      modifies this
      ensures (out, Model()) == BatchCodec.Encrypt(crypto, old(Model()), data)
    {
      var sum := Checksum(crypto, counter, data);
      counter := NextCounter(counter);
      out := XorKeyStream(data + sum);
    }

    method Verify(data: seq<Byte>) returns (error: Option<Error>)
      requires LawfulCrypto(crypto)
      modifies this`counter
      ensures |data| < CHECKSUM_BYTES ==> error == Some(TooShort) && counter == old(counter)
      ensures |data| >= CHECKSUM_BYTES ==> counter == NextCounter(old(counter))
      ensures |data| >= CHECKSUM_BYTES ==>
                var n := |data| - CHECKSUM_BYTES;
                error == if data[n..] == Checksum(crypto, old(counter), data[..n]) then None else Some(BadChecksum)
    {
      if |data| < CHECKSUM_BYTES {
        return Some(TooShort);
      }
      var n := |data| - CHECKSUM_BYTES;
      var want := Checksum(crypto, counter, data[..n]);
      counter := NextCounter(counter);
      error := if data[n..] == want then None else Some(BadChecksum);
    }

    method Decrypt(data: seq<Byte>) returns (r: Unpacked)
      requires LawfulCrypto(crypto)
      modifies this
      ensures (r, Model()) == BatchCodec.Decrypt(crypto, old(Model()), data)
    {
      var plain := XorKeyStream(data);
      var error := Verify(plain);
      if error.Some? {
        return NotUnpacked(error.value);
      }
      r := Body(plain[..|plain| - CHECKSUM_BYTES]);
    }
  }

  class Codec {
    const settings: Settings
    const encrypted: bool
    const outgoing: CryptState
    const incoming: CryptState

    ghost predicate Valid() {
      LawfulCrypto(outgoing.crypto) && LawfulCrypto(incoming.crypto) && outgoing != incoming
    }

    /** The cipher of a direction, when the session is encrypted. */
    ghost function CryptoOf(state: CryptState): Option<Crypto> {
      if encrypted then Some(state.crypto) else None
    }

    constructor (settings: Settings, encrypted: bool, crypto: Crypto)
      requires LawfulCrypto(crypto)
      ensures Valid() && this.settings == settings && this.encrypted == encrypted
      ensures fresh(outgoing) && fresh(incoming)
      ensures outgoing.crypto == incoming.crypto == crypto && outgoing.Model() == incoming.Model() == START
    {
      this.settings, this.encrypted := settings, encrypted;
      outgoing := new CryptState(crypto);
      incoming := new CryptState(crypto);
    }

    method WriteFrames(packets: seq<Packet>) returns (body: seq<Byte>)
      ensures body == Frames(packets)
    {
      body := [];
      for i := 0 to |packets|
        invariant body == Frames(packets[..i])
      {
        assert packets[..i + 1] == packets[..i] + [packets[i]];
        WriteAllAppend(WriteFrame, packets[..i], packets[i]);
        body := body + WriteFrame(packets[i]);
      }
      assert packets[..|packets|] == packets;
    }

    /** Encodes a batch and advances the outgoing state, unless compression fails. */
    method EncodeBatch(packets: seq<Packet>) returns (r: Option<seq<Byte>>)
      requires Valid()
      modifies outgoing
      ensures match BatchCodec.EncodeBatch(settings, CryptoOf(outgoing), old(outgoing.Model()), packets)
              case None => r == None && outgoing.Model() == old(outgoing.Model())
              case Some((bytes, after)) => r == Some(bytes) && outgoing.Model() == after
    {
      var body := WriteFrames(packets);
      var packed := Pack(settings, body);
      if packed.None? {
        return None;
      }
      var batch := packed.value;
      if encrypted {
        batch := outgoing.Encrypt(batch);
      }
      r := Some([BATCH_HEADER] + batch);
    }

    method ReadFrameList(body: seq<Byte>) returns (r: Option<seq<Packet>>)
      ensures r == ReadFrames(body)
    {
      var buffer := body;
      var packets: seq<Packet> := [];
      if ReadFrames(body).Some? {
        PrependSteps([], [], ReadFrames(body).value);
      }
      while buffer != []
        invariant ReadFrames(body) == Prepend(packets, ReadFrames(buffer))
        decreases |buffer|
      {
        var frame := ReadFrame(buffer);
        if frame.Failed? {
          return None;
        }
        if ReadFrames(frame.rest).Some? {
          PrependSteps(packets, frame.value, ReadFrames(frame.rest).value);
        }
        packets := packets + [frame.value];
        buffer := frame.rest;
      }
      PrependSteps(packets, [], []);
      r := Some(packets);
    }

    /** Decodes a batch and advances the incoming state. */
    method DecodeBatch(data: seq<Byte>) returns (r: Decoded)
      requires Valid()
      modifies incoming
      ensures (r, incoming.Model()) == BatchCodec.DecodeBatch(settings, CryptoOf(incoming), old(incoming.Model()), data)
    {
      if |data| == 0 {
        return Packets([]);
      }
      if data[0] != BATCH_HEADER {
        return Refused(InvalidHeader);
      }
      var body := Body(data[1..]);
      if encrypted {
        body := incoming.Decrypt(data[1..]);
      }
      if body.NotUnpacked? {
        return Refused(body.error);
      }
      body := Unpack(settings, body.body);
      if body.NotUnpacked? {
        return Refused(body.error);
      }
      var packets := ReadFrameList(body.body);
      if packets.None? {
        return Refused(BadFrame);
      }
      if |packets.value| > MAX_BATCH_ITEMS && settings.enableLimits {
        return Refused(TooManyPackets);
      }
      r := Packets(packets.value);
    }
  }
}
