/** The status of a media key that does not work, on the bytes: in an encrypted session, and
    which of the two statuses happen at all. */
module FailedKeyBytes {
  import opened Wrappers
  import opened Constants
  import opened SessionKeys
  import opened Cbc
  import opened Wire
  import opened CryptoObject
  import opened Transport
  import opened Protocol
  import opened Progress
  import opened SessionEffects
  import opened FailedKey
  import opened ByteRuns
  import S = ServerProgram
  import C = ClientProgram

  predicate BytesKnown(cfg: Config) { Octets(cfg.server.keys.key) && IsBlock(cfg.server.keys.iv) }

  /** The ciphertexts of `err` and `end`, one after the other. */
  ghost function Glued(c: BlockCipher, k: Keys): (bytes: string)
    requires Invertible(c) && IsBlock(k.iv)
    ensures Octets(bytes) && |bytes| == 2 * BLOCK
  {
    Seal(c, k.key, k.iv, "err\n") + Seal(c, k.key, k.iv, "end\n")
  }

  /** The second ciphertext, opened with the first one for its vector, ends in what looks like
      a padding. */
  ghost predicate JunkIsPadded(c: BlockCipher, k: Keys)
    requires Invertible(c) && IsBlock(k.iv)
  {
    Open(c, k.key, k.iv, Glued(c, k)).Some?
  }

  /** The glued ciphertexts either fail to open, or open as `err`, its padding, and more. */
  lemma GluedOpens(c: BlockCipher, k: Keys)
    requires Invertible(c) && IsBlock(k.iv)
    ensures var r := Received(c, true, k, Glued(c, k));
      if JunkIsPadded(c, k) then r.Some? && r.value.Got? && |r.value.s| >= 5 && r.value.s[..5] == "err\n" + [12 as char]
      else r == Some(Fail)
  {
    hide XorBlock, Encrypt, Decrypt, Pad, Unpad;
    var first := Seal(c, k.key, k.iv, "err\n");
    OpenSplits(c, k.key, k.iv, Glued(c, k));
    assert Glued(c, k)[..BLOCK] == first;
    DecryptInverts(c, k.key, k.iv, Pad("err\n"));
    if JunkIsPadded(c, k) {
      var text := Open(c, k.key, k.iv, Glued(c, k)).value;
      PadOfErr();
      assert text[..BLOCK] == Pad("err\n");
      assert text[..5] == Pad("err\n")[..5];
      CStringKeeps(text, 5);
    }
  }

  lemma PadOfErr()
    ensures |Pad("err\n")| == BLOCK && Pad("err\n")[..5] == "err\n" + [12 as char]
  {
    var p := Pad("err\n");
    assert p[..4] == "err\n" && p[4] == 12 as char;
  }

  lemma {:induction false} CStringKeeps(s: string, n: nat)
    requires n <= |s| && NUL !in s[..n]
    ensures |CString(s)| >= n && CString(s)[..n] == s[..n]
  {
    if n > 0 {
      assert s[..n][0] == s[0];
      assert s[1..][..n - 1] == s[..n][1..];
      CStringKeeps(s[1..], n - 1);
    }
  }

  lemma ReplyOnBytes(c: BlockCipher, cfg: Config, a: Action, x: System, y: System)
    requires Invertible(c) && KeyFails(cfg) && BytesKnown(cfg) && cfg.client.useEnc
    requires Session(cfg, x) && ByteStep(c, cfg, a, x, y) && ReadsBoth(a, x)
    ensures y.c.command == Some(if JunkIsPadded(c, cfg.server.keys) then SUCCESS else FAILURE)
  {
    hide S.Receive, Calls, HandshakePhase, Handshaken, JunkIsPadded, Received;
    var k := cfg.server.keys;
    ClientTakes(cfg, a, x, y);
    assert x.toClient[..2] == [Sealed(k, "err\n"), Sealed(k, "end\n")];
    SealedPairResult(c, k, k, "err\n", "end\n", a.r);
    GluedOpens(c, k);
    assert a.r.Got? ==> a.r.s[..5][4] != '\n' && |a.r.s| > 4;
  }

  /** In an encrypted session the status of a key that failed is SUCCESS exactly if one `recv`
      took both packets and the second, read with a wrong vector, happens to be padded. */
  lemma EncryptedStatusExactly(c: BlockCipher, cfg: Config, states: seq<System>, acts: seq<Action>)
    requires Invertible(c) && KeyFails(cfg) && BytesKnown(cfg) && cfg.client.useEnc
    requires IsByteRun(c, cfg, states, acts) && BothEnded(states[|acts|])
    ensures states[|acts|].c.command == Some(
              if JunkIsPadded(c, cfg.server.keys) && exists i :: 0 <= i < |acts| && ReadsBoth(acts[i], states[i])
              then SUCCESS else FAILURE)
  {
    hide Session, Step, JunkIsPadded;
    ByteRunsAreRuns(c, cfg, states, acts);
    FailedKeyIsReported(cfg, states, acts);
    if i :| 0 <= i < |acts| && ReadsBoth(acts[i], states[i]) {
      RunsAreSessions(cfg, states, acts, i);
      ReplyOnBytes(c, cfg, acts[i], states[i], states[i + 1]);
      StatusStays(cfg, states, acts, i + 1, |acts|);
    }
  }

  // ---------------------------------------------------------------- both statuses happen

  /** The reply is taken for a success if one `recv` takes it with the `end` behind it: in
      plain text always, and otherwise if the second ciphertext happens to be padded. */
  ghost predicate CanBeMisread(c: BlockCipher, cfg: Config)
    requires Invertible(c) && KeyFails(cfg) && (cfg.client.useEnc ==> BytesKnown(cfg))
  {
    cfg.client.useEnc ==> JunkIsPadded(c, cfg.server.keys)
  }

  /** The client has its reply to read, and both packets are there. */
  predicate ReplyIsThere(cfg: Config, x: System) {
    x.c.pc.WaitMedia? && x.toClient == [Agreed(cfg, "err\n"), Agreed(cfg, "end\n")]
  }

  /** A finished session, and the status that the client's command has returned in it. */
  ghost predicate Reports(c: BlockCipher, cfg: Config, states: seq<System>, acts: seq<Action>, status: int)
    requires Invertible(c) && Valid(cfg)
  {
    IsByteRun(c, cfg, states, acts) && BothEnded(states[|acts|]) && states[|acts|].c.command == Some(status)
  }

  predicate OnItsWay(x: System) { InHandshake(ClientAt(x)) || ClientAt(x).WaitMedia? }

  /** The client has sent its command once it has read the final `redy`. */
  lemma RedyStep(cfg: Config, a: Action, x: System, y: System)
    requires KeyFails(cfg) && Session(cfg, x) && Step(cfg, a, x, y) && a.ClientRecv? && x.c.pc.WaitRedy?
    ensures ClientAt(y).WaitMedia?
  {
    hide Step, Session, S.Receive, C.Receive;
    ReceiverStandsThere(cfg, a, x, y);
    ClientReadsRedy(cfg, a, x, y);
    ClientSends(y.c.pc.pkt, C.WaitMedia);
  }

  /** A step after which the client has still not read the reply to its command. */
  lemma EagerStep(c: BlockCipher, cfg: Config, x: System) returns (a: Action, y: System)
    requires Invertible(c) && KeyFails(cfg) && Session(cfg, x) && OnItsWay(x) && !ReplyIsThere(cfg, x)
    ensures ByteStep(c, cfg, a, x, y) && OnItsWay(y)
  {
    hide S.Receive, C.Receive, Calls, Handshaken, FromBytes;
    a, y := BytesMove(c, cfg, x);
    match a
    case ServerSend => SendsAreInvisible(cfg, a, x, y);
    case ClientSend => SendsAreInvisible(cfg, a, x, y);
    case ServerRecv(_, _) => ServerTakes(cfg, a, x, y);
    case ClientRecv(_, _) =>
      ReceiverStandsThere(cfg, a, x, y);
      match x.c.pc {
        case WaitHelo => ClientGetsHelo(cfg, a, x, y);
        case WaitPub => ClientGetsKeyAndGoesOn(cfg, a, x, y);
        case WaitSecret(_, _, _) => ClientGetsSecretAndGoesOn(cfg, a, x, y);
        case WaitRedy => RedyStep(cfg, a, x, y);
        case _ =>
      }
    case _ =>
  }

  lemma ReachesReply(c: BlockCipher, cfg: Config, states: seq<System>, acts: seq<Action>)
    returns (states': seq<System>, acts': seq<Action>)
    requires Invertible(c) && KeyFails(cfg) && IsByteRun(c, cfg, states, acts) && OnItsWay(states[|acts|])
    ensures IsByteRun(c, cfg, states', acts') && ReplyIsThere(cfg, states'[|acts'|])
    decreases Measure(cfg, states[|acts|])
  {
    hide Session, ByteStep, OnItsWay, ReplyIsThere;
    if ReplyIsThere(cfg, states[|acts|]) {
      return states, acts;
    }
    ByteRunsAreRuns(c, cfg, states, acts);
    RunsAreSessions(cfg, states, acts, |acts|);
    var a, y := EagerStep(c, cfg, states[|acts|]);
    ByteStepIsStep(c, cfg, a, states[|acts|], y);
    StepFalls(cfg, a, states[|acts|], y);
    states', acts' := ReachesReply(c, cfg, states + [y], acts + [a]);
  }

  /** The client takes k packets of the reply. */
  lemma TakesReply(c: BlockCipher, cfg: Config, x: System, k: nat) returns (a: Action, y: System)
    requires Invertible(c) && KeyFails(cfg) && Session(cfg, x) && ReplyIsThere(cfg, x) && (k == 1 || k == 2)
    ensures ByteStep(c, cfg, a, x, y) && ReadsReply(a, x) && a.k == k
  {
    hide S.Receive, C.Receive, FromBytes, Delivers;
    var pkts := x.toClient[..k];
    assert Chunk(pkts) && k <= 2;
    var r := SomeByteResult(c, C.ReceivesEncrypted(cfg.client, x.c), x.c.keys, pkts);
    a, y := ClientRecv(k, r), x.(c := C.Receive(cfg.client, x.c, C.Arrival(pkts, r)), toClient := x.toClient[k..]);
  }

  /** The status of a finished session, in either mode. */
  lemma StatusOnBytes(c: BlockCipher, cfg: Config, states: seq<System>, acts: seq<Action>)
    requires Invertible(c) && KeyFails(cfg) && (cfg.client.useEnc ==> BytesKnown(cfg))
    requires IsByteRun(c, cfg, states, acts) && BothEnded(states[|acts|])
    ensures states[|acts|].c.command == Some(
              if CanBeMisread(c, cfg) && exists i :: 0 <= i < |acts| && ReadsBoth(acts[i], states[i])
              then SUCCESS else FAILURE)
  {
    hide ByteStep, JunkIsPadded;
    if cfg.client.useEnc {
      EncryptedStatusExactly(c, cfg, states, acts);
    } else {
      ByteRunsAreRuns(c, cfg, states, acts);
      FailedKeyIsReported(cfg, states, acts);
    }
  }

  /** Every key that fails can be reported as FAILURE, and as SUCCESS if its reply can be
      misread: there is a finished session that does so, in either mode. */
  lemma EitherStatusHappens(c: BlockCipher, cfg: Config, glued: bool) returns (states: seq<System>, acts: seq<Action>)
    requires Invertible(c) && KeyFails(cfg) && (cfg.client.useEnc ==> BytesKnown(cfg))
    ensures Reports(c, cfg, states, acts, if glued && CanBeMisread(c, cfg) then SUCCESS else FAILURE)
  {
    hide Session, ByteStep, JunkIsPadded, ReplyIsThere;
    var before, steps := ReachesReply(c, cfg, [Init(cfg)], []);
    var n := |steps|;
    ByteRunsAreRuns(c, cfg, before, steps);
    RunsAreSessions(cfg, before, steps, n);
    var a, y := TakesReply(c, cfg, before[n], if glued then 2 else 1);
    states, acts := ByteRunCompletes(c, cfg, before + [y], steps + [a]);
    assert acts[n] == a && states[n] == before[n];
    StatusOnBytes(c, cfg, states, acts);
    ByteRunsAreRuns(c, cfg, states, acts);
    StatusOfFailedKey(cfg, states, acts, |acts|);
    assert ReadsReply(acts[n], states[n]) && (glued ==> ReadsBoth(acts[n], states[n]));
  }

  /** A key that fails can be reported as SUCCESS exactly if its reply can be misread. */
  lemma SuccessHappensExactly(c: BlockCipher, cfg: Config)
    requires Invertible(c) && KeyFails(cfg) && (cfg.client.useEnc ==> BytesKnown(cfg))
    ensures (exists states, acts :: Reports(c, cfg, states, acts, SUCCESS)) <==> CanBeMisread(c, cfg)
  {
    hide ByteStep, JunkIsPadded;
    if CanBeMisread(c, cfg) {
      var states, acts := EitherStatusHappens(c, cfg, true);
    }
    if states, acts :| Reports(c, cfg, states, acts, SUCCESS) {
      StatusOnBytes(c, cfg, states, acts);
    }
  }
}
