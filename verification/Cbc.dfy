/** Cipher block chaining (section 6.2 of NIST SP 800-38A) with the padding of section 6.3
    of RFC 5652, over any invertible block function. */
module Cbc {
  import opened Wrappers
  import opened Lists

  const BLOCK := 16

  predicate IsOctet(c: char) { c as int < 256 }

  predicate Octets(s: string) { forall i | 0 <= i < |s| :: IsOctet(s[i]) }

  predicate IsBlock(s: string) { |s| == BLOCK && Octets(s) }

  // ---------------------------------------------------------------- exclusive or

  function Pow2(n: nat): (p: nat)
    ensures p >= 1
  {
    if n == 0 then 1 else 2 * Pow2(n - 1)
  }

  /** Exclusive or of the n low bits. */
  function XorBits(a: nat, b: nat, n: nat): (x: nat)
    ensures x < Pow2(n)
  {
    if n == 0 then 0 else (a % 2 + b % 2) % 2 + 2 * XorBits(a / 2, b / 2, n - 1)
  }

  lemma BitTwice(a: nat, b: nat)
    ensures ((a % 2 + b % 2) % 2 + b % 2) % 2 == a % 2
  {
  }

  lemma LowBit(low: nat, high: nat)
    requires low < 2
    ensures (low + 2 * high) % 2 == low && (low + 2 * high) / 2 == high
  {
  }

  lemma {:induction false} XorTwice(a: nat, b: nat, n: nat)
    requires a < Pow2(n)
    ensures XorBits(XorBits(a, b, n), b, n) == a
  {
    if n > 0 {
      var low, high := (a % 2 + b % 2) % 2, XorBits(a / 2, b / 2, n - 1);
      var x := XorBits(a, b, n);
      LowBit(low, high);
      assert x % 2 == low && x / 2 == high;
      XorTwice(a / 2, b / 2, n - 1);
      BitTwice(a, b);
      assert XorBits(x, b, n) == (low + b % 2) % 2 + 2 * XorBits(high, b / 2, n - 1);
    }
  }

  lemma OctetRange()
    ensures Pow2(8) == 256
  {
    assert Pow2(4) == 16;
  }

  function XorOctet(a: char, b: char): (x: char)
    ensures IsOctet(x)
  {
    OctetRange();
    XorBits(a as int, b as int, 8) as char
  }

  function XorBlock(a: string, b: string): (x: string)
    requires |a| == |b|
    ensures |x| == |a| && Octets(x)
    ensures forall i | 0 <= i < |a| :: x[i] == XorOctet(a[i], b[i])
  {
    seq(|a|, i requires 0 <= i < |a| => XorOctet(a[i], b[i]))
  }

  lemma XorBlockTwice(a: string, b: string)
    requires |a| == |b| && Octets(a)
    ensures XorBlock(XorBlock(a, b), b) == a
  {
    forall i | 0 <= i < |a|
      ensures XorBlock(XorBlock(a, b), b)[i] == a[i]
    {
      OctetRange();
      XorTwice(a[i] as int, b[i] as int, 8);
    }
  }

  // ---------------------------------------------------------------- chaining

  /** A block function and its inverse, each given a key and a block. */
  datatype BlockCipher = BlockCipher(enc: (string, string) -> string, dec: (string, string) -> string)

  ghost predicate Invertible(c: BlockCipher) {
    forall k, b | IsBlock(b) :: IsBlock(c.enc(k, b)) && IsBlock(c.dec(k, b)) && c.dec(k, c.enc(k, b)) == b
  }

  predicate Whole(s: string) { |s| % BLOCK == 0 && Octets(s) }

  ghost function Encrypt(c: BlockCipher, key: string, iv: string, msg: string): (ct: string)
    requires Invertible(c) && IsBlock(iv) && Whole(msg)
    ensures |ct| == |msg| && Octets(ct)
    decreases |msg|
  {
    if msg == "" then "" else
    var block := c.enc(key, XorBlock(msg[..BLOCK], iv));
    block + Encrypt(c, key, block, msg[BLOCK..])
  }

  ghost function Decrypt(c: BlockCipher, key: string, iv: string, ct: string): (msg: string)
    requires Invertible(c) && IsBlock(iv) && Whole(ct)
    ensures |msg| == |ct| && Octets(msg)
    decreases |ct|
  {
    if ct == "" then "" else
    XorBlock(c.dec(key, ct[..BLOCK]), iv) + Decrypt(c, key, ct[..BLOCK], ct[BLOCK..])
  }

  /** Decryption inverts encryption, block by block. */
  lemma {:induction false} DecryptInverts(c: BlockCipher, key: string, iv: string, msg: string)
    requires Invertible(c) && IsBlock(iv) && Whole(msg)
    ensures Decrypt(c, key, iv, Encrypt(c, key, iv, msg)) == msg
    decreases |msg|
  {
    if msg != "" {
      var head, rest := msg[..BLOCK], msg[BLOCK..];
      var block := c.enc(key, XorBlock(head, iv));
      var ct := Encrypt(c, key, iv, msg);
      assert ct[..BLOCK] == block && ct[BLOCK..] == Encrypt(c, key, block, rest);
      XorBlockTwice(head, iv);
      DecryptInverts(c, key, block, rest);
      assert head + rest == msg;
    }
  }

  /** The chaining value after the ciphertext ct. */
  function Chain(iv: string, ct: string): (next: string)
    requires IsBlock(iv) && Whole(ct)
    ensures IsBlock(next)
  {
    if ct == "" then iv else ct[|ct| - BLOCK..]
  }

  lemma WholeParts(s: string, t: string)
    requires Whole(s) && Whole(t)
    ensures Whole(s + t)
    ensures s != "" ==> IsBlock(s[..BLOCK]) && Whole(s[BLOCK..])
    ensures s != "" ==> (s + t)[..BLOCK] == s[..BLOCK] && (s + t)[BLOCK..] == s[BLOCK..] + t
  {
  }

  lemma ChainOfRest(iv: string, first: string, rest: string)
    requires IsBlock(iv) && IsBlock(first) && Whole(rest)
    ensures Whole(first + rest) && Chain(iv, first + rest) == Chain(first, rest)
  {
  }

  lemma {:induction false} EncryptAppend(c: BlockCipher, key: string, iv: string, a: string, b: string)
    requires Invertible(c) && IsBlock(iv) && Whole(a) && Whole(b)
    ensures Whole(a + b) && Whole(Encrypt(c, key, iv, a))
    ensures Encrypt(c, key, iv, a + b)
         == Encrypt(c, key, iv, a) + Encrypt(c, key, Chain(iv, Encrypt(c, key, iv, a)), b)
    decreases |a|
  {
    WholeParts(a, b);
    if a == "" {
      assert a + b == b;
    } else {
      hide Octets;
      var rest := a[BLOCK..];
      var block := c.enc(key, XorBlock(a[..BLOCK], iv));
      EncryptAppend(c, key, block, rest, b);
      var sealed := Encrypt(c, key, block, rest);
      ChainOfRest(iv, block, sealed);
      Regroup(block, sealed, Encrypt(c, key, Chain(block, sealed), b));
    }
  }

  lemma {:induction false} DecryptAppend(c: BlockCipher, key: string, iv: string, a: string, b: string)
    requires Invertible(c) && IsBlock(iv) && Whole(a) && Whole(b)
    ensures Whole(a + b)
    ensures Decrypt(c, key, iv, a + b) == Decrypt(c, key, iv, a) + Decrypt(c, key, Chain(iv, a), b)
    decreases |a|
  {
    WholeParts(a, b);
    if a == "" {
      assert a + b == b;
    } else {
      hide Octets;
      var first, rest := a[..BLOCK], a[BLOCK..];
      DecryptAppend(c, key, first, rest, b);
      ChainOfRest(iv, first, rest);
      assert a == first + rest;
      Regroup(XorBlock(c.dec(key, first), iv), Decrypt(c, key, first, rest), Decrypt(c, key, Chain(first, rest), b));
    }
  }

  // ---------------------------------------------------------------- padding

  function Repeat(ch: char, n: nat): (s: string)
    ensures |s| == n && forall i | 0 <= i < n :: s[i] == ch
  {
    if n == 0 then "" else [ch] + Repeat(ch, n - 1)
  }

  function Pad(msg: string): (p: string)
    requires Octets(msg)
    ensures Whole(p) && |p| == BLOCK * (|msg| / BLOCK + 1) && p[..|msg|] == msg
  {
    var n := BLOCK - |msg| % BLOCK;
    msg + Repeat(n as char, n)
  }

  /** None stands for a padding that the final call rejects. */
  function Unpad(p: string): (m: Option<string>)
    ensures m.Some? ==> p != "" && m.value <= p && |p| - BLOCK <= |m.value| < |p|
  {
    if p == "" then None else
    var n := p[|p| - 1] as int;
    if 1 <= n <= BLOCK && n <= |p| && p[|p| - n..] == Repeat(n as char, n) then Some(p[..|p| - n]) else None
  }

  /** The padding check looks at the last block alone. */
  lemma UnpadLast(a: string, b: string)
    requires |b| == BLOCK
    ensures var m := Unpad(b); Unpad(a + b) == if m.None? then None else Some(a + m.value)
  {
    var n := b[BLOCK - 1] as int;
    assert (a + b)[|a + b| - 1] == b[BLOCK - 1];
    if 1 <= n <= BLOCK {
      assert (a + b)[|a + b| - n..] == b[BLOCK - n..];
      assert (a + b)[..|a + b| - n] == a + b[..BLOCK - n];
    }
  }

  lemma UnpadInverts(msg: string)
    requires Octets(msg)
    ensures Unpad(Pad(msg)) == Some(msg)
  {
    var n := BLOCK - |msg| % BLOCK;
    assert Pad(msg)[|msg|..] == Repeat(n as char, n);
  }

  // ---------------------------------------------------------------- messages

  ghost function Seal(c: BlockCipher, key: string, iv: string, msg: string): (ct: string)
    requires Invertible(c) && IsBlock(iv) && Octets(msg)
    ensures |ct| == BLOCK * (|msg| / BLOCK + 1) && Whole(ct)
  {
    Encrypt(c, key, iv, Pad(msg))
  }

  ghost function Open(c: BlockCipher, key: string, iv: string, ct: string): (msg: Option<string>)
    requires Invertible(c) && IsBlock(iv) && Octets(ct)
    ensures msg.Some? ==> ct != "" && |ct| % BLOCK == 0 && |ct| - BLOCK <= |msg.value| < |ct|
  {
    if ct == "" || |ct| % BLOCK != 0 then None else Unpad(Decrypt(c, key, iv, ct))
  }

  /** Every message is recovered. */
  lemma OpenInverts(c: BlockCipher, key: string, iv: string, msg: string)
    requires Invertible(c) && IsBlock(iv) && Octets(msg)
    ensures Open(c, key, iv, Seal(c, key, iv, msg)) == Some(msg)
  {
    DecryptInverts(c, key, iv, Pad(msg));
    UnpadInverts(msg);
  }
}
