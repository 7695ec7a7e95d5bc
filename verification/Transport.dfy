/** `Client::send` and `Client::receive`, which the two programs have in common, down to
    the bytes in the 1024-byte buffer; and why Wire may describe them as it does. */
module Transport {
  import opened Wrappers
  import opened Constants
  import opened SessionKeys
  import opened Cbc
  import opened Wire
  import opened CryptoObject

  /** A C string: the text before the first zero byte. */
  function CString(s: string): (r: string)
    ensures NUL !in r && r <= s && (NUL !in s ==> r == s)
  {
    if s == "" || s[0] == NUL then "" else [s[0]] + CString(s[1..])
  }

  lemma {:induction false} CStringStops(s: string, rest: string)
    requires NUL !in s
    ensures CString(s + [NUL] + rest) == s
  {
    if s == "" {
      assert (s + [NUL] + rest)[0] == NUL;
    } else {
      assert (s + [NUL] + rest)[1..] == s[1..] + [NUL] + rest;
      CStringStops(s[1..], rest);
    }
  }

  predicate KeysUsable(k: Keys) { IsBlock(k.iv) }

  /** The bytes that `send` hands to the socket. */
  ghost function Sent(c: BlockCipher, encrypted: bool, keys: Keys, data: string): string
    requires Invertible(c) && KeysUsable(keys) && Octets(data)
  {
    if encrypted then Seal(c, keys.key, keys.iv, data) else data
  }

  /** What one `recv` of the buffer's size takes from the bytes at the socket. */
  function Taken(bytes: string): string { if |bytes| > BUFFER then bytes[..BUFFER] else bytes }

  /** What `receive` makes of the bytes at the socket. None stands for the write outside
      the buffer that terminates a full buffer of plain text. */
  ghost function Received(c: BlockCipher, encrypted: bool, keys: Keys, bytes: string): Option<RecvResult>
    requires Invertible(c) && KeysUsable(keys) && Octets(bytes)
  {
    var taken := Taken(bytes);
    if encrypted then
      var text := Open(c, keys.key, keys.iv, taken);
      if text.None? || CString(text.value) == "" then Some(Fail) else Some(Got(CString(text.value)))
    else if taken == "" then Some(Closed)
    else if |taken| == BUFFER then None
    else Some(Got(CString(taken)))
  }

  lemma SealedFitsBuffer(c: BlockCipher, keys: Keys, data: string)
    requires Invertible(c) && KeysUsable(keys) && Octets(data)
    ensures |Seal(c, keys.key, keys.iv, data)| <= BUFFER <==> |data| < BUFFER
  {
  }

  /** The round trip, exactly: `receive` returns what `send` was given if and only if the
      message has 1 to 1023 bytes and none is zero, in the plain and in the encrypted mode
      alike. */
  lemma RoundTripExactly(c: BlockCipher, encrypted: bool, keys: Keys, data: string)
    requires Invertible(c) && KeysUsable(keys) && Octets(data)
    ensures Octets(Sent(c, encrypted, keys, data))
    ensures Received(c, encrypted, keys, Sent(c, encrypted, keys, data)) == Some(Got(data))
       <==> 1 <= |data| <= 1023 && '\0' !in data
    ensures Fits(data) <==> 1 <= |data| <= 1023 && '\0' !in data
  {
    OpenInverts(c, keys.key, keys.iv, data);
    SealedFitsBuffer(c, keys, data);
  }

  // ---------------------------------------------------------------- packets as bytes

  /** The bytes of a packet; a public key goes out with a zero byte at its end. */
  ghost function Bytes(c: BlockCipher, p: Packet): string
    requires Invertible(c) && !p.Envelope? && PacketValid(p)
  {
    match p
    case Text(s) => s
    case Sealed(keys, s) => Seal(c, keys.key, keys.iv, s)
    case PublicKey(pem) => pem + [NUL]
  }

  predicate PacketValid(p: Packet) {
    match p
    case Text(s) => s != "" && Octets(s)
    case Sealed(keys, s) => KeysUsable(keys) && Octets(s)
    case PublicKey(pem) => Octets(pem)
    case Envelope(_, _, _) => false
  }

  predicate PacketsValid(pkts: seq<Packet>) { forall p | p in pkts :: PacketValid(p) }

  ghost function Stream(c: BlockCipher, pkts: seq<Packet>): (bytes: string)
    requires Invertible(c) && PacketsValid(pkts)
    ensures Octets(bytes) && (pkts != [] ==> bytes != "")
  {
    if pkts == [] then "" else
    assert pkts[0] in pkts;
    Bytes(c, pkts[0]) + Stream(c, pkts[1..])
  }

  lemma {:induction false} PlainStream(c: BlockCipher, pkts: seq<Packet>)
    requires Invertible(c) && PacketsValid(pkts) && forall p | p in pkts :: p.Text? || p.Sealed?
    ensures PlainText(pkts).Some? ==> Stream(c, pkts) == PlainText(pkts).value
  {
    if pkts != [] {
      assert forall p | p in pkts[1..] :: p in pkts;
      PlainStream(c, pkts[1..]);
    }
  }

  /** Every result that `receive` can have on the bytes of a chunk is one that Wire allows
      for its packets. */
  lemma WireIsSound(c: BlockCipher, encrypted: bool, keys: Keys, pkts: seq<Packet>)
    requires Invertible(c) && KeysUsable(keys) && PacketsValid(pkts) && (pkts == [] || Chunk(pkts))
    requires Received(c, encrypted, keys, Stream(c, pkts)).Some?
    ensures Delivers(encrypted, keys, pkts, Received(c, encrypted, keys, Stream(c, pkts)).value)
  {
    if encrypted {
      SealedChunkIsSound(c, keys, pkts);
    } else if |pkts| == 1 && pkts[0].PublicKey? {
      var pem := pkts[0].pem;
      assert pkts[1..] == [];
      assert Stream(c, pkts) == pem + [NUL] + "";
      if NUL !in pem { CStringStops(pem, ""); }
    } else {
      assert |pkts| == 1 ==> forall p | p in pkts :: p == pkts[0];
      PlainStream(c, pkts);
    }
  }

  lemma SealedChunkIsSound(c: BlockCipher, keys: Keys, pkts: seq<Packet>)
    requires Invertible(c) && KeysUsable(keys) && PacketsValid(pkts) && (pkts == [] || Chunk(pkts))
    ensures Received(c, true, keys, Stream(c, pkts)).Some?
    ensures Delivers(true, keys, pkts, Received(c, true, keys, Stream(c, pkts)).value)
  {
    if |pkts| == 1 && pkts[0].Sealed? && pkts[0].keys == keys {
      assert pkts[1..] == [] && pkts[0] in pkts;
      assert Stream(c, pkts) == Sent(c, true, keys, pkts[0].s);
      RoundTripExactly(c, true, keys, pkts[0].s);
    }
  }

  // ---------------------------------------------------------------- the methods

  /** Reads a C string from memory that holds a zero byte at end or before. */
  method ReadCString(buf: array<char>, ghost end: nat) returns (s: string)
    requires end < buf.Length && buf[end] == NUL
    ensures s == CString(buf[..end])
  {
    var i := 0;
    s := "";
    while buf[i] != NUL
      invariant i <= end && s == buf[..i] && NUL !in s
      decreases end - i
    {
      s := s + [buf[i]];
      i := i + 1;
    }
    if i == end {
      assert buf[..end] == s;
    } else {
      CStringStops(s, buf[i + 1..end]);
      assert buf[..end] == s + [NUL] + buf[i + 1..end];
    }
  }

  /** The `Client` object of either program, as far as it sends and receives. */
  class Client {
    var crypto: Crypto?
    var sent: seq<string>

    ghost predicate Valid()
      reads this, crypto, if crypto == null then {} else {crypto.aesKey, crypto.aesIV}
    {
      crypto != null ==> crypto.Valid()
    }

    constructor ()
      ensures Valid() && crypto == null && sent == []
    {
      crypto, sent := null, [];
    }

    method Send(data: string, useEnc: bool)
      requires Valid() && Octets(data)
      modifies this`sent
      ensures sent == old(sent) + [if useEnc && crypto != null
                                   then Sent(crypto.cipher, true, crypto.Shared(), data) else data]
    {
      if useEnc && crypto != null {
        var msg, msgLen := crypto.AesEncrypt(data);
        sent := sent + [msg[..msgLen]];
      } else {
        sent := sent + [data];
      }
    }

    /** One receive, of the bytes at the socket. In the plain mode a full buffer leaves no
        room for the terminator: the code writes it just past the end, which overrun
        reports, and what it reads back then is not the program's to say. */
    method Receive(bytes: string, useEnc: bool) returns (recvLen: int, reply: string, overrun: bool)
      requires Valid() && Octets(bytes)
      ensures overrun <==> !(useEnc && crypto != null) && |bytes| >= BUFFER
      ensures overrun ==> recvLen == BUFFER
      ensures !overrun ==>
        var r := if recvLen == FAILURE then Fail else if recvLen == 0 then Closed else Got(reply);
        if useEnc && crypto != null then Some(r) == Received(crypto.cipher, true, crypto.Shared(), bytes)
        else r == if bytes == "" then Closed else Got(CString(bytes))
    {
      var tmpReply := new char[BUFFER];
      var taken := Taken(bytes);
      Put(tmpReply, 0, taken);
      recvLen, reply, overrun := |taken|, "", false;
      assert tmpReply[..recvLen] == taken;
      if useEnc && crypto != null {
        var status, decReply, decLen := crypto.AesDecrypt(tmpReply[..recvLen]);
        if status == FAILURE { return FAILURE, reply, overrun; }
        reply := ReadCString(decReply, decLen);
        if reply == "" { return FAILURE, reply, overrun; }
      } else if recvLen < BUFFER {
        tmpReply[recvLen] := NUL;
        reply := ReadCString(tmpReply, recvLen);
        assert tmpReply[..recvLen] == taken;
      } else {
        overrun := true;
      }
    }
  }
}
