/** Encrypted sessions whose AES key `strncpy` has cut short: under some block cipher the
    client's farewell is a command that nobody gave. */
module LostKey {
  import opened Wrappers
  import opened Constants
  import opened SessionKeys
  import opened Cbc
  import opened Wire
  import opened VectorLoss
  import opened Protocol
  import opened SessionEffects
  import opened ByteRuns
  import opened KeyMismatch
  import opened Farewells
  import S = ServerProgram
  import C = ClientProgram

  // ---------------------------------------------------------------- a cipher that does harm

  /** What must be added to the one block of s, sealed with the vector iv, for it to be read as t
      with the vector other. */
  function Difference(s: string, iv: string, t: string, other: string): (d: string)
    requires IsBlock(iv) && IsBlock(other) && Octets(s) && |s| < BLOCK && Octets(t) && |t| < BLOCK
    ensures IsBlock(d)
  {
    XorBlock(XorBlock(Pad(s), iv), XorBlock(Pad(t), other))
  }

  /** A block function that adds the mask under the server's key, and nothing under others. */
  function Adding(cfg: Config, mask: string): (c: BlockCipher)
    requires Exchanged(cfg) && IsBlock(mask)
    ensures Invertible(c)
  {
    var key := Ours(cfg).key;
    var f := (k: string, b: string) => if k == key && |b| == BLOCK then XorBlock(b, mask) else b;
    assert forall b | IsBlock(b) :: XorBlock(XorBlock(b, mask), mask) == b by {
      forall b | IsBlock(b) ensures XorBlock(XorBlock(b, mask), mask) == b { XorBlockTwice(b, mask); }
    }
    BlockCipher(f, f)
  }

  lemma KeysDiffer(cfg: Config)
    requires Exchanged(cfg) && !ZeroTailed(Ours(cfg).key)
    ensures Theirs(cfg).key != Ours(cfg).key
  {
    StrNCpyExact(Ours(cfg).key);
  }

  predicate Opposite(cfg: Config, from: Keys, to: Keys)
    requires Exchanged(cfg)
  {
    (from == Ours(cfg) && to == Theirs(cfg)) || (from == Theirs(cfg) && to == Ours(cfg))
  }

  /** In either direction, one message turns into another. */
  lemma TurnsInto(cfg: Config, from: Keys, to: Keys, s: string, t: string)
    requires Exchanged(cfg) && !ZeroTailed(Ours(cfg).key) && Opposite(cfg, from, to) && IsWord(s) && IsWord(t)
    ensures Reading(Adding(cfg, Difference(s, from.iv, t, to.iv)), from, to, s) == Got(t)
  {
    hide Reading, Installed, Mixed;
    KeysDiffer(cfg);
    var mask := Difference(s, from.iv, t, to.iv);
    var ct, wanted := XorBlock(Pad(s), from.iv), XorBlock(Pad(t), to.iv);
    OneBlockReading(Adding(cfg, mask), from, to, s);
    forall i | 0 <= i < BLOCK ensures XorBlock(ct, mask)[i] == wanted[i] {
      XorSolves(ct[i], wanted[i], XorOctet(ct[i], wanted[i]));
    }
    assert XorBlock(ct, mask) == wanted;
    XorBlockTwice(Pad(t), to.iv);
    UnpadInverts(t);
  }

  /** The cipher under which the client's `end` is read as the word of a media key. */
  function Masking(cfg: Config, cmd: C.MediaCmd): (c: BlockCipher)
    requires Exchanged(cfg)
    ensures Invertible(c)
  {
    Adding(cfg, Difference("end\n", Theirs(cfg).iv, C.MediaWord(cmd), Ours(cfg).iv))
  }

  lemma FarewellReadsWord(cfg: Config, cmd: C.MediaCmd)
    requires Exchanged(cfg) && !ZeroTailed(Ours(cfg).key)
    ensures HeardEnd(Masking(cfg, cmd), cfg) == Got(C.MediaWord(cmd))
  {
    Words(cmd);
    TurnsInto(cfg, Theirs(cfg), Ours(cfg), "end\n", C.MediaWord(cmd));
  }

  /** Adding the mask to the first letter of `redy` gives neither an r nor an e. */
  lemma FirstLetterIsJunk(v: char, letter: char)
    requires IsOctet(v) && IsOctet(letter) && letter != 'e' && letter != 'r'
    ensures var m := XorOctet(XorOctet('e', v), XorOctet(letter, v));
      XorOctet(XorOctet(XorOctet('r', v), m), v) !in {'r', 'e'}
  {
    var e, p, r := XorOctet('e', v), XorOctet(letter, v), XorOctet('r', v);
    var m := XorOctet(e, p);
    var b := XorOctet(XorOctet(r, m), v);
    XorSolves('e', v, e);
    XorSolves(letter, v, p);
    XorSolves('r', v, r);
    XorSolves(v, 'e', e);
    XorSolves(v, letter, p);
    XorSolves(v, 'r', r);
    XorSolves(e, p, m);
    XorSolves(XorOctet(r, m), v, b);
    XorSolves(v, XorOctet(r, m), b);
    if b == 'r' {
      XorSolves(v, 'r', XorOctet(v, 'r'));
      XorKeeps(r, m);
      XorNul(e);
    } else if b == 'e' {
      XorSolves(r, m, e);
      XorSolves(r, e, m);
      XorSolves(e, r, m);
    }
  }

  lemma RedyReadsJunk(cfg: Config, cmd: C.MediaCmd)
    requires Exchanged(cfg) && !ZeroTailed(Ours(cfg).key)
    ensures StatusOf(Greeting(Masking(cfg, cmd), cfg)) == FAILURE
  {
    hide Reading, Installed;
    KeysDiffer(cfg);
    var c, iv, cut, word := Masking(cfg, cmd), Ours(cfg).iv, Theirs(cfg).iv, C.MediaWord(cmd);
    OneBlockReading(c, Ours(cfg), Theirs(cfg), "redy\n");
    var b := XorBlock(XorBlock(XorBlock(Pad("redy\n"), iv), Difference("end\n", cut, word, iv)), cut);
    FirstByteAgrees(cfg);
    assert Pad("redy\n")[0] == 'r' && Pad("end\n")[0] == 'e' && Pad(word)[0] == word[0];
    FirstLetterIsJunk(iv[0], word[0]);
    ResultBegins(b);
  }

  lemma FirstByteAgrees(cfg: Config)
    requires Exchanged(cfg)
    ensures Theirs(cfg).iv[0] == Ours(cfg).iv[0]
  {
    StrNCpyAt(Ours(cfg).iv, IV_BYTES, 0);
    assert Ours(cfg).iv[..0] == "";
  }

  /** If the server's key is cut short, there is for each media key a block cipher under which
      every finished session presses it, whatever it was asked to do. */
  lemma LostKeyPresses(cfg: Config, cmd: C.MediaCmd, states: seq<System>, acts: seq<Action>)
    requires Exchanged(cfg) && !ZeroTailed(Ours(cfg).key)
    requires IsByteRun(Masking(cfg, cmd), cfg, states, acts) && BothEnded(states[|acts|])
    ensures states[|acts|].s.log == [S.MediaKey(KeyOf(cmd))]
  {
    hide Greeting, HeardEnd, ByteStep;
    RedyReadsJunk(cfg, cmd);
    FarewellReadsWord(cfg, cmd);
    EndExactly(Masking(cfg, cmd), cfg, states, acts);
    MediaCommands(cmd);
  }

  ghost predicate SafeUnderEveryCipher(cfg: Config)
    requires Valid(cfg)
  {
    forall c: BlockCipher, states: seq<System>, acts: seq<Action> |
      Invertible(c) && IsByteRun(c, cfg, states, acts) :: states[|acts|].s.log <= Expected(cfg)
  }

  /** A media key that was not asked for. */
  function OtherKey(cfg: Config): C.MediaCmd {
    if cfg.client.request == C.Media(C.Play) then C.Next else C.Play
  }

  lemma OtherKeyIsUnexpected(cfg: Config)
    requires Valid(cfg)
    ensures !([S.MediaKey(KeyOf(OtherKey(cfg)))] <= Expected(cfg))
  {
    var other := [S.MediaKey(KeyOf(OtherKey(cfg)))];
    if cfg.client.request.Volume? { CallsAreExact(cfg, []); }
    assert Expected(cfg) == [] || Expected(cfg)[0] != other[0];
  }

  /** The effects are safe under every block cipher exactly if the server's key is installed
      as it is: no other byte of it follows a zero byte. */
  lemma SafeExactly(cfg: Config)
    requires Exchanged(cfg)
    ensures SafeUnderEveryCipher(cfg) <==> ZeroTailed(Ours(cfg).key)
  {
    hide ByteStep, Expected;
    if ZeroTailed(Ours(cfg).key) {
      forall c: BlockCipher, states: seq<System>, acts: seq<Action> | Invertible(c) && IsByteRun(c, cfg, states, acts)
        ensures states[|acts|].s.log <= Expected(cfg)
      {
        InstalledKeyIsSafe(c, cfg, states, acts, |acts|);
      }
    } else {
      var c := Masking(cfg, OtherKey(cfg));
      var states, acts := ByteRunCompletes(c, cfg, [Init(cfg)], []);
      LostKeyPresses(cfg, OtherKey(cfg), states, acts);
      OtherKeyIsUnexpected(cfg);
    }
  }

  // ---------------------------------------------------------------- what the client may read

  /** The cipher under which the client reads the word s from the server's final `redy`. */
  function GreetingAs(cfg: Config, s: string): (c: BlockCipher)
    requires Exchanged(cfg) && IsWord(s)
    ensures Invertible(c)
  {
    Adding(cfg, Difference("redy\n", Ours(cfg).iv, s, Theirs(cfg).iv))
  }

  lemma GreetingReads(cfg: Config, s: string)
    requires Exchanged(cfg) && !ZeroTailed(Ours(cfg).key) && IsWord(s)
    ensures Greeting(GreetingAs(cfg, s), cfg) == Got(s)
  {
    Words(C.Play);
    TurnsInto(cfg, Ours(cfg), Theirs(cfg), "redy\n", s);
  }

  /** If the server's key is cut short, then for every word there is a block cipher under which
      the client reads it from the server's final `redy`: all three results of the handshake
      happen. */
  lemma EveryStatusHappens(cfg: Config, s: string) returns (c: BlockCipher, states: seq<System>, acts: seq<Action>)
    requires Exchanged(cfg) && !ZeroTailed(Ours(cfg).key) && IsWord(s)
    ensures Invertible(c) && IsByteRun(c, cfg, states, acts) && BothEnded(states[|acts|])
    ensures Greeting(c, cfg) == Got(s)
    ensures states[|acts|].c.handshake
         == Some(if s == "redy\n" then SUCCESS else if s == "end\n" then END else FAILURE)
  {
    hide ByteStep, GreetingAs, Greeting, IsWord, Installed;
    c := GreetingAs(cfg, s);
    GreetingReads(cfg, s);
    states, acts := ByteRunCompletes(c, cfg, [Init(cfg)], []);
    HandshakeExactly(c, cfg, states, acts);
  }
}
