/** What each side reads from the other when `strncpy` has installed the AES key but cut the
    initialisation vector short, down to the bytes of the padded blocks. */
module VectorLoss {
  import opened Wrappers
  import opened SessionKeys
  import opened Cbc
  import opened Wire
  import opened CryptoObject
  import opened Transport

  /** What `receive` makes of one message that was sealed under other keys. */
  ghost function Reading(c: BlockCipher, from: Keys, to: Keys, s: string): RecvResult
    requires Invertible(c) && KeysUsable(from) && KeysUsable(to) && Octets(s)
  {
    Received(c, true, to, Seal(c, from.key, from.iv, s)).value
  }

  // ---------------------------------------------------------------- exclusive or

  lemma {:induction false} XorCommutes(a: nat, b: nat, n: nat)
    ensures XorBits(a, b, n) == XorBits(b, a, n)
  {
    if n > 0 { XorCommutes(a / 2, b / 2, n - 1); }
  }

  lemma {:induction false} XorWithZero(a: nat, n: nat)
    requires a < Pow2(n)
    ensures XorBits(a, 0, n) == a
  {
    if n > 0 { XorWithZero(a / 2, n - 1); }
  }

  /** Equations in one unknown. */
  lemma XorSolves(a: char, b: char, t: char)
    requires IsOctet(a) && IsOctet(b) && IsOctet(t)
    ensures XorOctet(a, b) == t <==> b == XorOctet(a, t)
    ensures XorOctet(a, b) == XorOctet(b, a)
  {
    OctetRange();
    var x, y, z := a as int, b as int, t as int;
    XorCommutes(x, y, 8);
    XorCommutes(x, z, 8);
    XorTwice(y, x, 8);
    XorTwice(z, x, 8);
    if XorOctet(a, b) == t { assert XorBits(z, x, 8) == y; }
    if b == XorOctet(a, t) { assert XorBits(y, x, 8) == z; }
  }

  lemma XorNul(a: char)
    requires IsOctet(a)
    ensures XorOctet(a, NUL) == a
  {
    OctetRange();
    XorWithZero(a as int, 8);
  }

  lemma XorKeeps(a: char, b: char)
    requires IsOctet(a) && IsOctet(b)
    ensures XorOctet(a, b) == a <==> b == NUL
  {
    XorNul(a);
    XorSolves(a, b, a);
    XorSolves(a, NUL, a);
  }

  // ---------------------------------------------------------------- the lost bytes

  /** The byte of the vector that `strncpy` has replaced by a zero, or zero if it is the
      same on both sides. */
  function Lost(iv: string, i: nat): (c: char)
    requires i < |iv|
    ensures Octets(iv) ==> IsOctet(c)
  {
    if NUL in iv[..i] then iv[i] else NUL
  }

  lemma NothingLost(iv: string)
    ensures ZeroTailed(iv) <==> forall i | 0 <= i < |iv| :: Lost(iv, i) == NUL
  {
    if ZeroTailed(iv) {
      forall i | 0 <= i < |iv| && NUL in iv[..i] ensures iv[i] == NUL {
        var k :| 0 <= k < i && iv[..i][k] == NUL;
        assert iv[k] == NUL;
      }
    }
    if forall i | 0 <= i < |iv| :: Lost(iv, i) == NUL {
      forall i, j | 0 <= i < j < |iv| && iv[i] == NUL ensures iv[j] == NUL {
        assert iv[..j][i] == NUL;
        assert Lost(iv, j) == NUL;
      }
    }
  }

  /** The block p as the other side reads it. */
  function Mixed(p: string, iv: string): (m: string)
    requires IsBlock(p) && IsBlock(iv)
    ensures IsBlock(m)
    ensures forall i | 0 <= i < BLOCK :: m[i] == XorOctet(p[i], Lost(iv, i))
  {
    seq(BLOCK, i requires 0 <= i < BLOCK => XorOctet(p[i], Lost(iv, i)))
  }

  /** It makes no difference which side seals and which one opens. */
  lemma VectorsMix(p: string, iv: string)
    requires IsBlock(p) && IsBlock(iv)
    ensures XorBlock(XorBlock(p, iv), StrNCpy(iv, BLOCK)) == Mixed(p, iv)
    ensures XorBlock(XorBlock(p, StrNCpy(iv, BLOCK)), iv) == Mixed(p, iv)
  {
    var cut := StrNCpy(iv, BLOCK);
    forall i | 0 <= i < BLOCK
      ensures XorOctet(XorOctet(p[i], iv[i]), cut[i]) == Mixed(p, iv)[i]
      ensures XorOctet(XorOctet(p[i], cut[i]), iv[i]) == Mixed(p, iv)[i]
    {
      StrNCpyAt(iv, BLOCK, i);
      XorNul(p[i]);
      XorNul(XorOctet(p[i], iv[i]));
      OctetRange();
      XorTwice(p[i] as int, iv[i] as int, 8);
    }
  }

  /** What `receive` makes of one padded block. */
  function Result(p: string): RecvResult {
    var text := Unpad(p);
    if text.None? || CString(text.value) == "" then Fail else Got(CString(text.value))
  }

  /** One block, sealed under some keys and opened under others. */
  lemma OneBlockReading(c: BlockCipher, from: Keys, to: Keys, s: string)
    requires Invertible(c) && KeysUsable(from) && KeysUsable(to) && Octets(s) && |s| < BLOCK
    ensures var ct := c.enc(from.key, XorBlock(Pad(s), from.iv));
      IsBlock(ct) && IsBlock(c.dec(to.key, ct)) && Reading(c, from, to, s) == Result(XorBlock(c.dec(to.key, ct), to.iv))
  {
    OneBlock(c, from.key, from.iv, Pad(s));
    OneBlock(c, to.key, to.iv, c.enc(from.key, XorBlock(Pad(s), from.iv)));
  }

  /** What is read begins as the block does. */
  lemma ResultBegins(m: string)
    requires IsBlock(m)
    ensures Result(m).Fail? || (Result(m).Got? && Result(m).s != "" && Result(m).s[0] == m[0])
  {
    if Result(m).Got? {
      assert Unpad(m).value[0] == m[0];
    }
  }

  /** A short message between two sides that share the key, and the vector before and after
      `strncpy`, in either direction. */
  lemma ReadingIsMixed(c: BlockCipher, key: string, iv: string, s: string)
    requires Invertible(c) && IsBlock(iv) && Octets(s) && |s| < BLOCK
    ensures IsBlock(StrNCpy(iv, BLOCK))
    ensures Reading(c, Keys(key, iv), Keys(key, StrNCpy(iv, BLOCK)), s) == Result(Mixed(Pad(s), iv))
    ensures Reading(c, Keys(key, StrNCpy(iv, BLOCK)), Keys(key, iv), s) == Result(Mixed(Pad(s), iv))
  {
    StrNCpyOctets(iv, BLOCK);
    VectorsMix(Pad(s), iv);
    OneBlockReading(c, Keys(key, iv), Keys(key, StrNCpy(iv, BLOCK)), s);
    OneBlockReading(c, Keys(key, StrNCpy(iv, BLOCK)), Keys(key, iv), s);
  }

  // ---------------------------------------------------------------- words

  /** A message that fills less than a block. */
  predicate IsWord(s: string) { 1 <= |s| < BLOCK && Octets(s) && NUL !in s }

  /** The first byte is never lost, so a word can only turn into one with the same first
      letter. */
  lemma FirstLetterStays(s: string, iv: string)
    requires IsBlock(iv) && Octets(s) && 1 <= |s| < BLOCK
    ensures Result(Mixed(Pad(s), iv)).Got? ==> Result(Mixed(Pad(s), iv)).s[0] == s[0]
  {
    var m := Mixed(Pad(s), iv);
    assert iv[..0] == "" && Lost(iv, 0) == NUL;
    assert Pad(s)[0] == s[0];
    XorNul(s[0]);
    ResultBegins(m);
  }

  /** The padding byte of a word of the given length. */
  function Padding(len: nat): (p: char)
    requires len < BLOCK
    ensures IsOctet(p)
  {
    (BLOCK - len) as char
  }

  /** The last n bytes of the padding turn into a padding of n. */
  predicate Shortens(iv: string, len: nat, n: nat)
    requires |iv| == BLOCK && len < BLOCK
  {
    1 <= n && len + n < BLOCK && forall i | BLOCK - n <= i < BLOCK :: Lost(iv, i) == XorOctet(Padding(len), n as char)
  }

  /** The vectors that let words of the given length through, although bytes are lost: none of
      the letters is touched, the byte after them becomes a zero, and the bytes at the end
      happen to form a shorter padding. */
  predicate LetsThrough(iv: string, len: nat)
    requires |iv| == BLOCK && len < BLOCK
  {
    && (forall i | 0 <= i < len :: Lost(iv, i) == NUL)
    && Lost(iv, len) == Padding(len)
    && exists n | 1 <= n < BLOCK :: Shortens(iv, len, n)
  }

  lemma PadOfWord(w: string)
    requires Octets(w) && |w| < BLOCK
    ensures |Pad(w)| == BLOCK && forall i | 0 <= i < BLOCK :: Pad(w)[i] == if i < |w| then w[i] else Padding(|w|)
  {
    assert Pad(w)[..|w|] == w;
  }

  lemma WordPasses(w: string, iv: string, n: nat)
    requires IsBlock(iv) && IsWord(w)
    requires (forall i | 0 <= i < |w| :: Lost(iv, i) == NUL) && Lost(iv, |w|) == Padding(|w|) && Shortens(iv, |w|, n)
    ensures Result(Mixed(Pad(w), iv)) == Got(w)
  {
    var m, len, p := Mixed(Pad(w), iv), |w|, Padding(|w|);
    PadOfWord(w);
    forall i | 0 <= i < len ensures m[i] == w[i] { XorNul(w[i]); }
    XorSolves(p, p, NUL);
    XorNul(p);
    assert m[len] == NUL;
    forall i | BLOCK - n <= i < BLOCK ensures m[i] == n as char { XorSolves(p, Lost(iv, i), n as char); }
    assert m[BLOCK - n..] == Repeat(n as char, n);
    var text := m[..BLOCK - n];
    assert Unpad(m) == Some(text);
    assert text == w + [NUL] + text[len + 1..];
    CStringStops(w, text[len + 1..]);
  }

  lemma CStringEnds(s: string, w: string)
    requires CString(s) == w
    ensures w <= s && (|w| < |s| ==> s[|w|] == NUL)
    decreases |s|
  {
    if s != "" && s[0] != NUL {
      CStringEnds(s[1..], w[1..]);
    }
  }

  /** What a result reveals about the block it comes from. */
  lemma ResultOf(m: string, w: string)
    requires IsBlock(m) && Result(m) == Got(w)
    ensures var n := m[BLOCK - 1] as int;
      && 1 <= n && |w| + n <= BLOCK && w == m[..|w|]
      && (forall i | BLOCK - n <= i < BLOCK :: m[i] == n as char)
      && (|w| + n < BLOCK ==> m[|w|] == NUL)
  {
    var n, text := m[BLOCK - 1] as int, Unpad(m).value;
    assert text == m[..BLOCK - n];
    CStringEnds(text, w);
    forall i | BLOCK - n <= i < BLOCK ensures m[i] == n as char {
      assert m[i] == m[BLOCK - n..][i - (BLOCK - n)];
    }
  }

  lemma WordPassed(w: string, iv: string)
    requires IsBlock(iv) && IsWord(w) && Result(Mixed(Pad(w), iv)) == Got(w)
    ensures ZeroTailed(iv) || LetsThrough(iv, |w|)
  {
    hide Result, Lost, Pad, ZeroTailed, StrNCpy, XorOctet, Unpad;
    var m, p := Mixed(Pad(w), iv), Padding(|w|);
    PadOfWord(w);
    ResultOf(m, w);
    var n := m[BLOCK - 1] as int;
    forall i | 0 <= i < |w| ensures Lost(iv, i) == NUL { XorKeeps(w[i], Lost(iv, i)); }
    forall i | BLOCK - n <= i < BLOCK ensures Lost(iv, i) == XorOctet(p, n as char) {
      XorSolves(p, Lost(iv, i), n as char);
    }
    XorSolves(p, p, NUL);
    XorNul(p);
    if |w| + n == BLOCK {
      NothingLost(iv);
    } else {
      XorSolves(p, Lost(iv, |w|), NUL);
      assert Shortens(iv, |w|, n);
    }
  }

  lemma WholeWord(s: string, iv: string)
    requires IsBlock(iv) && ZeroTailed(iv) && IsWord(s)
    ensures Result(Mixed(Pad(s), iv)) == Got(s)
  {
    NothingLost(iv);
    var p := Pad(s);
    forall i | 0 <= i < BLOCK ensures Mixed(p, iv)[i] == p[i] { XorNul(p[i]); }
    assert Mixed(p, iv) == p;
    UnpadInverts(s);
  }

  /** A message of one block comes through between the two sides if and only if no byte of the
      vector is lost, or the vector lets messages of its length through. */
  lemma WordsExactly(w: string, iv: string)
    requires IsBlock(iv) && IsWord(w)
    ensures Result(Mixed(Pad(w), iv)) == Got(w) <==> ZeroTailed(iv) || LetsThrough(iv, |w|)
  {
    hide Result, Mixed, Pad, ZeroTailed, Shortens, Octets;
    if ZeroTailed(iv) {
      WholeWord(w, iv);
    } else if LetsThrough(iv, |w|) {
      var n :| 1 <= n < BLOCK && Shortens(iv, |w|, n);
      WordPasses(w, iv, n);
    }
    if Result(Mixed(Pad(w), iv)) == Got(w) {
      WordPassed(w, iv);
    }
  }

  /** No vector lets messages of two different lengths through. */
  lemma OneLengthAlone(iv: string, len: nat, other: nat)
    requires IsBlock(iv) && len < other < BLOCK && LetsThrough(iv, other)
    ensures !LetsThrough(iv, len)
  {
    assert Padding(len) != NUL;
  }

  /** Such vectors exist for every length from 1 to 14: zeros, the padding byte behind the
      letters, and a single byte at the end that makes a padding of one. */
  lemma SomeVectorLetsThrough(len: nat) returns (iv: string)
    requires 1 <= len < BLOCK - 1
    ensures IsBlock(iv) && !ZeroTailed(iv) && LetsThrough(iv, len)
  {
    var p := Padding(len);
    var last := XorOctet(p, 1 as char);
    iv := seq(BLOCK, i => if i == len then p else if i == BLOCK - 1 then last else NUL);
    assert iv[0] == NUL && iv[len] == p;
    assert iv[..len][0] == NUL && iv[..BLOCK - 1][0] == NUL;
    assert Shortens(iv, len, 1);
  }
}
