/** The class Crypto: AES messages, RSA-sealed secrets, and the shared key and vector. The
    OpenSSL calls are modelled by what they write and the length they report; the output
    buffers, the accumulated lengths and the terminators are those of the source. */
module CryptoObject {
  import opened Wrappers
  import opened Constants
  import opened SessionKeys
  import opened Cbc

  /** RSA sealing: seal takes a public key, open a private one. */
  datatype Rsa = Rsa(seal: (string, string) -> string, open: (string, string) -> Option<string>)

  ghost predicate Pairs(rsa: Rsa, publicKey: string, privateKey: string) {
    forall k :: rsa.open(privateKey, rsa.seal(publicKey, k)) == Some(k)
  }

  /** `strncpy(dst, src, n)`. */
  method StrNCpyInto(dst: array<char>, src: string, n: nat)
    requires n <= dst.Length && n <= |src|
    modifies dst
    ensures dst[..n] == StrNCpy(src, n) && dst[n..] == old(dst[n..])
  {
    var i := 0;
    while i < n && src[i] != NUL
      invariant i <= n
      invariant forall j | 0 <= j < i :: dst[j] == src[j] && src[j] != NUL
      invariant dst[n..] == old(dst[n..])
    {
      dst[i] := src[i];
      i := i + 1;
    }
    ghost var copied := i;
    while i < n
      invariant copied <= i <= n
      invariant forall j | 0 <= j < copied :: dst[j] == src[j]
      invariant forall j | copied <= j < i :: dst[j] == NUL
      invariant dst[n..] == old(dst[n..])
    {
      dst[i] := NUL;
      i := i + 1;
    }
    forall k | 0 <= k < n
      ensures dst[k] == StrNCpy(src, n)[k]
    {
      StrNCpyAt(src, n, k);
      if k > copied { assert src[..k][copied] == NUL; }
    }
  }

  /** Writes the bytes of text into buf at the position at. */
  method Put(buf: array<char>, at: nat, text: string)
    requires at + |text| <= buf.Length
    modifies buf
    ensures buf[..] == old(buf[..at]) + text + old(buf[at + |text|..])
  {
    forall i | 0 <= i < |text| { buf[at + i] := text[i]; }
  }

  lemma OneBlock(c: BlockCipher, key: string, iv: string, b: string)
    requires Invertible(c) && IsBlock(iv) && IsBlock(b)
    ensures Encrypt(c, key, iv, b) == c.enc(key, XorBlock(b, iv))
    ensures Decrypt(c, key, iv, b) == XorBlock(c.dec(key, b), iv)
  {
    assert b[..BLOCK] == b && b[BLOCK..] == "";
  }

  lemma EncryptGrows(c: BlockCipher, key: string, iv: string, msg: string, i: nat)
    requires Invertible(c) && IsBlock(iv) && Whole(msg) && i % BLOCK == 0 && i + BLOCK <= |msg|
    ensures var done := Encrypt(c, key, iv, msg[..i]);
            && Whole(done)
            && Encrypt(c, key, iv, msg[..i + BLOCK])
               == done + c.enc(key, XorBlock(msg[i..i + BLOCK], Chain(iv, done)))
            && IsBlock(c.enc(key, XorBlock(msg[i..i + BLOCK], Chain(iv, done))))
            && Chain(iv, Encrypt(c, key, iv, msg[..i + BLOCK]))
               == c.enc(key, XorBlock(msg[i..i + BLOCK], Chain(iv, done)))
  {
    assert msg[..i + BLOCK] == msg[..i] + msg[i..i + BLOCK];
    EncryptAppend(c, key, iv, msg[..i], msg[i..i + BLOCK]);
    OneBlock(c, key, Chain(iv, Encrypt(c, key, iv, msg[..i])), msg[i..i + BLOCK]);
  }

  lemma DecryptGrows(c: BlockCipher, key: string, iv: string, ct: string, i: nat)
    requires Invertible(c) && IsBlock(iv) && Whole(ct) && i % BLOCK == 0 && i + BLOCK <= |ct|
    ensures Decrypt(c, key, iv, ct[..i + BLOCK])
         == Decrypt(c, key, iv, ct[..i]) + XorBlock(c.dec(key, ct[i..i + BLOCK]), Chain(iv, ct[..i]))
    ensures Chain(iv, ct[..i + BLOCK]) == ct[i..i + BLOCK]
  {
    assert ct[..i + BLOCK] == ct[..i] + ct[i..i + BLOCK];
    DecryptAppend(c, key, iv, ct[..i], ct[i..i + BLOCK]);
    OneBlock(c, key, Chain(iv, ct[..i]), ct[i..i + BLOCK]);
  }

  lemma NoBlocks(c: BlockCipher, key: string, iv: string)
    requires Invertible(c) && IsBlock(iv)
    ensures Whole("") && Encrypt(c, key, iv, "") == "" && Decrypt(c, key, iv, "") == "" && Chain(iv, "") == iv
  {
  }

  lemma WholePrefix(s: string, i: nat)
    requires Octets(s) && i % BLOCK == 0 && i <= |s|
    ensures Whole(s[..i])
  {
  }

  lemma LastBlock(c: BlockCipher, key: string, s: string)
    requires Invertible(c) && Whole(s) && s != ""
    ensures |s| >= BLOCK && IsBlock(s[|s| - BLOCK..]) && IsBlock(c.dec(key, s[|s| - BLOCK..]))
  {
  }

  /** The block loop of an encryption: writes the ciphertext of msg at the position at, and
      returns the next chaining value. */
  method EncryptBlocks(c: BlockCipher, key: string, iv: string, msg: string, buf: array<char>, at: nat)
    returns (chain: string)
    requires Invertible(c) && IsBlock(iv) && Whole(msg) && at + |msg| <= buf.Length
    modifies buf
    ensures buf[..at] == old(buf[..at])
    ensures buf[at..at + |msg|] == Encrypt(c, key, iv, msg)
    ensures Whole(Encrypt(c, key, iv, msg)) && chain == Chain(iv, Encrypt(c, key, iv, msg))
  {
    hide Octets, Encrypt, XorBlock, Chain;
    var i := 0;
    chain := iv;
    NoBlocks(c, key, iv);
    assert buf[at..at] == "" && msg[..0] == "";
    while i < |msg|
      invariant i <= |msg| && i % BLOCK == 0
      invariant buf[..at] == old(buf[..at])
      invariant Whole(msg[..i]) && buf[at..at + i] == Encrypt(c, key, iv, msg[..i])
      invariant chain == Chain(iv, Encrypt(c, key, iv, msg[..i]))
    {
      EncryptGrows(c, key, iv, msg, i);
      var block := c.enc(key, XorBlock(msg[i..i + BLOCK], chain));
      ghost var done := buf[at..at + i];
      Put(buf, at + i, block);
      assert buf[at..at + i + BLOCK] == done + block;
      WholePrefix(msg, i + BLOCK);
      chain := block;
      i := i + BLOCK;
    }
    assert msg[..i] == msg;
  }

  /** The block loop of a decryption. */
  method DecryptBlocks(c: BlockCipher, key: string, iv: string, ct: string, buf: array<char>, at: nat)
    returns (chain: string)
    requires Invertible(c) && IsBlock(iv) && Whole(ct) && at + |ct| <= buf.Length
    modifies buf
    ensures buf[..at] == old(buf[..at])
    ensures buf[at..at + |ct|] == Decrypt(c, key, iv, ct)
    ensures chain == Chain(iv, ct)
  {
    hide Octets, Decrypt, XorBlock, Chain;
    var i := 0;
    chain := iv;
    NoBlocks(c, key, iv);
    assert buf[at..at] == "" && ct[..0] == "";
    while i < |ct|
      invariant i <= |ct| && i % BLOCK == 0
      invariant buf[..at] == old(buf[..at])
      invariant Whole(ct[..i]) && buf[at..at + i] == Decrypt(c, key, iv, ct[..i])
      invariant chain == Chain(iv, ct[..i])
    {
      WholePrefix(ct, i + BLOCK);
      DecryptGrows(c, key, iv, ct, i);
      var block := XorBlock(c.dec(key, ct[i..i + BLOCK]), chain);
      ghost var done := buf[at..at + i];
      Put(buf, at + i, block);
      assert buf[at..at + i + BLOCK] == done + block;
      chain := ct[i..i + BLOCK];
      i := i + BLOCK;
    }
    assert ct[..i] == ct;
  }

  /** How many bytes the update call of a decryption writes: it holds the last whole block
      back for the final call. */
  function UpdateLength(n: nat): (len: nat)
    ensures len <= n && len % BLOCK == 0
  {
    if n > 0 && n % BLOCK == 0 then n - BLOCK else n - n % BLOCK
  }

  lemma SealSplits(c: BlockCipher, key: string, iv: string, msg: string)
    requires Invertible(c) && IsBlock(iv) && Octets(msg)
    ensures var whole := msg[..|msg| - |msg| % BLOCK];
            var first := Encrypt(c, key, iv, whole);
            && Whole(whole) && Whole(first) && Octets(msg[|whole|..])
            && Seal(c, key, iv, msg) == first + Encrypt(c, key, Chain(iv, first), Pad(msg[|whole|..]))
  {
    var whole := msg[..|msg| - |msg| % BLOCK];
    assert Pad(msg) == whole + Pad(msg[|whole|..]);
    EncryptAppend(c, key, iv, whole, Pad(msg[|whole|..]));
  }

  lemma OpenSplits(c: BlockCipher, key: string, iv: string, ct: string)
    requires Invertible(c) && IsBlock(iv) && Whole(ct) && ct != ""
    ensures var first := ct[..|ct| - BLOCK];
            var last := Unpad(Decrypt(c, key, Chain(iv, first), ct[|first|..]));
            Open(c, key, iv, ct) == if last.None? then None else Some(Decrypt(c, key, iv, first) + last.value)
  {
    var first := ct[..|ct| - BLOCK];
    assert ct == first + ct[|first|..];
    DecryptAppend(c, key, iv, first, ct[|first|..]);
    UnpadLast(Decrypt(c, key, iv, first), Decrypt(c, key, Chain(iv, first), ct[|first|..]));
  }

  /** EVP_EncryptUpdate and EVP_EncryptFinal_ex, or the two EVP_Seal calls: both lengths
      are added up. The buffer of message length plus one block always suffices, and is
      filled exactly when the message is made of whole blocks. */
  method EncryptMessage(c: BlockCipher, key: string, iv: string, msg: string)
    returns (encMsg: array<char>, encMsgLen: nat)
    requires Invertible(c) && IsBlock(iv) && Octets(msg)
    ensures fresh(encMsg) && encMsg.Length == |msg| + BLOCK
    ensures encMsgLen <= encMsg.Length && (encMsgLen == encMsg.Length <==> |msg| % BLOCK == 0)
    ensures encMsg[..encMsgLen] == Seal(c, key, iv, msg)
  {
    hide Octets, Encrypt, XorBlock, Chain, Pad;
    encMsg := new char[|msg| + BLOCK];
    var blockLen := |msg| - |msg| % BLOCK;
    SealSplits(c, key, iv, msg);
    var chain := EncryptBlocks(c, key, iv, msg[..blockLen], encMsg, 0);
    encMsgLen := blockLen;
    ghost var first := encMsg[..encMsgLen];
    var last := Pad(msg[encMsgLen..]);
    var _ := EncryptBlocks(c, key, chain, last, encMsg, encMsgLen);
    blockLen := |last|;
    assert encMsg[..encMsgLen + blockLen] == first + encMsg[encMsgLen..encMsgLen + blockLen];
    encMsgLen := encMsgLen + blockLen;
  }

  /** EVP_DecryptUpdate and EVP_DecryptFinal_ex, or the two EVP_Open calls, into a buffer of
      the given size, and the terminator. The final call fails on anything but whole
      blocks with a good padding; otherwise the terminator is strictly inside even the
      smallest buffer the callers allocate, one of the ciphertext's own length. */
  method DecryptMessage(c: BlockCipher, key: string, iv: string, encMsg: string, size: nat)
    returns (decMsg: array<char>, decLen: Option<nat>)
    requires Invertible(c) && IsBlock(iv) && Octets(encMsg) && size >= |encMsg|
    ensures fresh(decMsg) && decMsg.Length == size
    ensures decLen.None? <==> Open(c, key, iv, encMsg).None?
    ensures decLen.Some? ==> decLen.value < |encMsg| && decMsg[decLen.value] == NUL
    ensures decLen.Some? ==> Some(decMsg[..decLen.value]) == Open(c, key, iv, encMsg)
  {
    hide Octets, Decrypt, XorBlock, Unpad;
    decMsg := new char[size];
    var blockLen := UpdateLength(|encMsg|);
    WholePrefix(encMsg, blockLen);
    var chain := DecryptBlocks(c, key, iv, encMsg[..blockLen], decMsg, 0);
    if encMsg == "" || |encMsg| % BLOCK != 0 { return decMsg, None; }
    OpenSplits(c, key, iv, encMsg);
    LastBlock(c, key, encMsg);
    var len := blockLen;
    ghost var first := decMsg[..len];
    var last := Unpad(XorBlock(c.dec(key, encMsg[len..]), chain));
    OneBlock(c, key, chain, encMsg[len..]);
    if last.None? { return decMsg, None; }
    Put(decMsg, len, last.value);
    assert decMsg[..len + |last.value|] == first + last.value;
    len := len + |last.value|;
    decMsg[len] := NUL;
    decLen := Some(len);
    assert decMsg[..len] == first + last.value;
  }

  class Crypto {
    const cipher: BlockCipher
    const rsa: Rsa
    const publicKey: string
    const privateKey: string
    const aesKey: array<char>
    const aesIV: array<char>
    var remotePubKey: Option<string>

    ghost predicate Valid()
      reads aesKey, aesIV
    {
      && Invertible(cipher) && Pairs(rsa, publicKey, privateKey)
      && aesKey != aesIV && aesKey.Length == KEY_BYTES && IV_BYTES <= aesIV.Length
      && Octets(aesKey[..]) && Octets(aesIV[..])
    }

    /** The key, and the part of the vector's buffer that is used. */
    ghost function Shared(): (k: Keys)
      requires Valid()
      reads aesKey, aesIV
      ensures KeysValid(k) && IsBlock(k.iv)
    {
      Keys(aesKey[..], aesIV[..IV_BYTES])
    }

    /** init: the key pair and the random key and vector are the environment's. */
    constructor (cipher: BlockCipher, rsa: Rsa, publicKey: string, privateKey: string, key: string, iv: string)
      requires Invertible(cipher) && Pairs(rsa, publicKey, privateKey)
      requires |key| == KEY_BYTES && Octets(key) && IsBlock(iv)
      ensures Valid() && fresh(aesKey) && fresh(aesIV) && Shared() == Keys(key, iv) && remotePubKey == None
      ensures this.cipher == cipher && this.rsa == rsa
      ensures this.publicKey == publicKey && this.privateKey == privateKey
    {
      this.cipher, this.rsa, this.publicKey, this.privateKey := cipher, rsa, publicKey, privateKey;
      remotePubKey := None;
      var k := new char[KEY_BYTES](i requires 0 <= i < KEY_BYTES => key[i]);
      var v := new char[KEY_BYTES](i => if 0 <= i < IV_BYTES then iv[i] else NUL);
      aesKey, aesIV := k, v;
      assert k[..] == key && v[..IV_BYTES] == iv;
    }

    method AesEncrypt(msg: string) returns (encMsg: array<char>, encMsgLen: nat)
      requires Valid() && Octets(msg)
      ensures fresh(encMsg) && encMsg.Length == |msg| + BLOCK
      ensures encMsgLen <= encMsg.Length && (encMsgLen == encMsg.Length <==> |msg| % BLOCK == 0)
      ensures encMsg[..encMsgLen] == Seal(cipher, Shared().key, Shared().iv, msg)
    {
      encMsg, encMsgLen := EncryptMessage(cipher, aesKey[..], aesIV[..IV_BYTES], msg);
    }

    /** The status is the ciphertext's length, or FAILURE. */
    method AesDecrypt(encMsg: string) returns (status: int, decMsg: array<char>, ghost decLen: nat)
      requires Valid() && Octets(encMsg)
      ensures fresh(decMsg) && decMsg.Length == |encMsg|
      ensures status == FAILURE <==> Open(cipher, Shared().key, Shared().iv, encMsg).None?
      ensures status != FAILURE ==> status == |encMsg| && decLen < |encMsg| && decMsg[decLen] == NUL
      ensures status != FAILURE ==> Some(decMsg[..decLen]) == Open(cipher, Shared().key, Shared().iv, encMsg)
    {
      var len: Option<nat>;
      decMsg, len := DecryptMessage(cipher, aesKey[..], aesIV[..IV_BYTES], encMsg, |encMsg|);
      status, decLen := FAILURE, 0;
      if len.Some? {
        status, decLen := |encMsg|, len.value;
      }
    }

    /** EVP_SealInit draws a session key and a vector, which it returns sealed and plain. */
    method RsaEncrypt(msg: string, sessionKey: string, iv: string)
      returns (encMsg: array<char>, encMsgLen: nat, ek: string)
      requires Valid() && Octets(msg) && IsBlock(iv) && remotePubKey.Some?
      ensures fresh(encMsg) && encMsg.Length == |msg| + BLOCK && encMsgLen <= encMsg.Length
      ensures encMsg[..encMsgLen] == Seal(cipher, sessionKey, iv, msg)
      ensures ek == rsa.seal(remotePubKey.value, sessionKey)
    {
      ek := rsa.seal(remotePubKey.value, sessionKey);
      encMsg, encMsgLen := EncryptMessage(cipher, sessionKey, iv, msg);
    }

    /** iv is the buffer the vector was received into, and ivl the number of bytes received.
        EVP_OpenInit takes one block from the buffer, however many have come. */
    method RsaDecrypt(encMsg: string, ek: string, iv: string, ivl: nat) returns (status: int, decMsg: array<char>)
      requires Valid() && Octets(encMsg) && Octets(iv) && BLOCK <= |iv|
      ensures fresh(decMsg) && decMsg.Length == |encMsg| + ivl
      ensures var k := rsa.open(privateKey, ek);
        status == FAILURE <==> k.None? || Open(cipher, k.value, iv[..BLOCK], encMsg).None?
      ensures status != FAILURE ==> 0 <= status < |encMsg| && decMsg[status] == NUL
      ensures status != FAILURE ==>
        Some(decMsg[..status]) == Open(cipher, rsa.open(privateKey, ek).value, iv[..BLOCK], encMsg)
    {
      var k := rsa.open(privateKey, ek);
      if k.None? {
        decMsg := new char[|encMsg| + ivl];
        return FAILURE, decMsg;
      }
      var len: Option<nat>;
      decMsg, len := DecryptMessage(cipher, k.value, iv[..BLOCK], encMsg, |encMsg| + ivl);
      status := if len.Some? then len.value else FAILURE;
    }

    method GetAESKey() returns (key: string)
      requires Valid()
      ensures key == Shared().key
    {
      key := aesKey[..];
    }

    method GetAESIv() returns (iv: string)
      requires Valid()
      ensures iv == Shared().iv
    {
      iv := aesIV[..IV_BYTES];
    }

    method SetAESKey(key: string) returns (status: int)
      requires Valid() && Octets(key)
      modifies aesKey
      ensures Valid() && (status == SUCCESS || status == FAILURE)
      ensures status == SUCCESS <==> |key| == KEY_BYTES
      ensures Shared() == if status == SUCCESS then old(Shared()).(key := StrNCpy(key, KEY_BYTES)) else old(Shared())
    {
      if |key| != KEY_BYTES { return FAILURE; }
      StrNCpyInto(aesKey, key, KEY_BYTES);
      StrNCpyOctets(key, KEY_BYTES);
      assert aesKey[..] == aesKey[..KEY_BYTES];
      return SUCCESS;
    }

    method SetAESIv(iv: string) returns (status: int)
      requires Valid() && Octets(iv)
      modifies aesIV
      ensures Valid() && (status == SUCCESS || status == FAILURE)
      ensures status == SUCCESS <==> |iv| == IV_BYTES
      ensures Shared() == if status == SUCCESS then old(Shared()).(iv := StrNCpy(iv, IV_BYTES)) else old(Shared())
    {
      if |iv| != IV_BYTES { return FAILURE; }
      StrNCpyInto(aesIV, iv, IV_BYTES);
      StrNCpyOctets(iv, IV_BYTES);
      assert aesIV[..] == aesIV[..IV_BYTES] + aesIV[IV_BYTES..];
      return SUCCESS;
    }
  }

  lemma StrNCpyOctets(src: string, n: nat)
    requires n <= |src| && Octets(src)
    ensures Octets(StrNCpy(src, n))
  {
    forall k | 0 <= k < n
      ensures IsOctet(StrNCpy(src, n)[k])
    {
      StrNCpyAt(src, n, k);
    }
  }

  /** One secret on its way: sealed by the server, sent in three parts, opened by the
      client. The status and the text are what `rsaDecrypt` gives the client. */
  method Convey(server: Crypto, client: Crypto, secret: string, sessionKey: string, iv: string)
    returns (status: int, received: string)
    requires server.Valid() && client.Valid() && server.cipher == client.cipher && server.rsa == client.rsa
    requires server.remotePubKey == Some(client.publicKey)
    requires Octets(secret) && IsBlock(iv)
    ensures status == |secret| && received == secret
  {
    var encMsg, encMsgLen, ek := server.RsaEncrypt(secret, sessionKey, iv);
    OpenInverts(server.cipher, sessionKey, iv, secret);
    var decMsg: array<char>;
    assert iv[..BLOCK] == iv;
    status, decMsg := client.RsaDecrypt(encMsg[..encMsgLen], ek, iv, |iv|);
    received := decMsg[..status];
  }

  /** `sendAESIv` and `sendAESKey` against `receiveAESIv` and `receiveAESKey`, down to the
      bytes. The client installs the server's vector and key through `strncpy`, and so ends
      up with them exactly when in each no other byte follows a zero byte. */
  method ShareKeys(server: Crypto, client: Crypto, sessionKeys: (string, string), ivs: (string, string))
    returns (ivStatus: int, keyStatus: int)
    requires server.Valid() && client.Valid() && server.cipher == client.cipher && server.rsa == client.rsa
    requires {server.aesKey, server.aesIV} !! {client.aesKey, client.aesIV}
    requires server.remotePubKey == Some(client.publicKey)
    requires IsBlock(ivs.0) && IsBlock(ivs.1)
    modifies client.aesKey, client.aesIV
    ensures client.Valid() && ivStatus == SUCCESS && keyStatus == SUCCESS
    ensures server.Valid() && server.Shared() == old(server.Shared())
    ensures client.Shared() == Installed(server.Shared())
    ensures client.Shared() == server.Shared() <==> Installable(server.Shared())
  {
    var iv := server.GetAESIv();
    var _, receivedIv := Convey(server, client, iv, sessionKeys.0, ivs.0);
    ivStatus := client.SetAESIv(receivedIv);
    var key := server.GetAESKey();
    var _, receivedKey := Convey(server, client, key, sessionKeys.1, ivs.1);
    keyStatus := client.SetAESKey(receivedKey);
    InstalledExact(server.Shared());
  }
}
