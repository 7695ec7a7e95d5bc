/** Encrypted sessions whose client ends up with other keys than the server's, because
    `strncpy` cuts a key or a vector short at a zero byte: what such a session can still do
    to the server's machine, on the bytes. */
module KeyMismatch {
  import opened Wrappers
  import opened Constants
  import opened SessionKeys
  import opened Cbc
  import opened CryptoObject
  import opened Wire
  import opened Transport
  import opened VectorLoss
  import opened Protocol
  import opened Progress
  import opened SessionEffects
  import opened ByteRuns
  import F = FailedExchange
  import S = ServerProgram
  import C = ClientProgram

  /** Both sides encrypt, the secrets open, and they are bytes. */
  predicate Exchanged(cfg: Config) {
    && Valid(cfg) && cfg.client.useEnc && Connects(cfg)
    && Octets(cfg.server.keys.key) && IsBlock(cfg.server.keys.iv)
  }

  /** The server's keys, and what the client holds instead. */
  function Ours(cfg: Config): Keys { cfg.server.keys }

  function Theirs(cfg: Config): (k: Keys)
    requires Exchanged(cfg)
    ensures KeysUsable(k) && KeysUsable(Ours(cfg))
  {
    StrNCpyOctets(cfg.server.keys.iv, IV_BYTES);
    Installed(cfg.server.keys)
  }

  // ---------------------------------------------------------------- the handshake

  /** Until the client has read the final `redy` nothing happens to the machine. */
  lemma ExchangeGoesOn(cfg: Config, a: Action, x: System, y: System)
    requires Exchanged(cfg) && Live(cfg, x) && Step(cfg, a, x, y) && InHandshake(ClientAt(x)) && x.s.log == []
    requires !(a.ClientRecv? && x.c.pc.WaitRedy?)
    ensures InHandshake(ClientAt(y)) && y.s.log == []
  {
    hide S.Receive, C.Receive;
    match a
    case ServerSend => SendsAreInvisible(cfg, a, x, y);
    case ClientSend => SendsAreInvisible(cfg, a, x, y);
    case ServerRecv(_, _) =>
      ServerTakes(cfg, a, x, y);
      ServerRecvInHandshake(cfg, a, x, y);
    case ClientRecv(_, _) =>
      ClientTakes(cfg, a, x, y);
      if x.c.pc.WaitHelo? { ClientGetsHelo(cfg, a, x, y); }
      if x.c.pc.WaitPub? { ClientGetsKeyAndGoesOn(cfg, a, x, y); }
      if x.c.pc.WaitSecret? { ClientGetsSecretAndGoesOn(cfg, a, x, y); }
    case _ =>
  }

  /** What the client reads when the server has sent `redy`. */
  ghost function Greeting(c: BlockCipher, cfg: Config): RecvResult
    requires Invertible(c) && Exchanged(cfg)
  {
    Reading(c, Ours(cfg), Theirs(cfg), "redy\n")
  }

  lemma RedyReading(c: BlockCipher, cfg: Config, a: Action, x: System, y: System)
    requires Invertible(c) && Exchanged(cfg) && ByteStep(c, cfg, a, x, y) && a.ClientRecv? && x.c.pc.WaitRedy?
    requires x.c.keys == Theirs(cfg) && x.c.crypto && Up(x) == [] && Down(x) == [Sealed(Ours(cfg), "redy\n")]
    ensures a.r == Greeting(c, cfg)
    ensures y.c == C.OnRedy(cfg.client, x.c, a.r) && y.s == x.s
    ensures ServerAt(y) == ServerAt(x) && Down(y) == [] && Up(y) == C.Outgoing(y.c.pc)
  {
    hide S.Receive, FromBytes, Received, Seal, Installed, C.OnRedy;
    ClientTakes(cfg, a, x, y);
    assert x.toClient[..a.k] == [Sealed(Ours(cfg), "redy\n")];
    SealedResult(c, Ours(cfg), Theirs(cfg), "redy\n", a.r);
  }

  /** The client reads the final `redy` with its own keys. */
  lemma RedyArrives(c: BlockCipher, cfg: Config, a: Action, x: System, y: System)
    requires Invertible(c) && Exchanged(cfg) && Live(cfg, x) && ByteStep(c, cfg, a, x, y)
    requires a.ClientRecv? && x.c.pc.WaitRedy?
    ensures a.r == Greeting(c, cfg)
    ensures x.c.keys == Theirs(cfg) && x.c.crypto && Modes(cfg, x) && x.s.log == []
    ensures y.c == C.OnRedy(cfg.client, x.c, a.r) && y.s == x.s
    ensures ServerAt(y).WaitCmd? && Down(y) == [] && Up(y) == C.Outgoing(y.c.pc)
  {
    hide Step, FromBytes, Received, Greeting, Handshaken, AtPub, AtSecret, C.OnRedy;
    ReceiverStandsThere(cfg, a, x, y);
    AtFinalRedy(cfg, x);
    RedyReading(c, cfg, a, x, y);
  }

  /** A command of the client, as the server reads it. */
  lemma CommandArrives(c: BlockCipher, cfg: Config, a: Action, x: System, y: System, s: string)
    requires Invertible(c) && Exchanged(cfg) && ByteStep(c, cfg, a, x, y) && a.ServerRecv? && Modes(cfg, x)
    requires ServerAt(x).WaitCmd? && Up(x) == [Sealed(Theirs(cfg), s)] && Octets(s)
    ensures a.r == Reading(c, Theirs(cfg), Ours(cfg), s)
    ensures x.s.pc.WaitCmd? && y.s == S.OnCommand(cfg.server, x.s, a.r) && y.c == x.c
    ensures Up(y) == [] && Down(y) == Down(x) + S.Outgoing(y.s.pc)
  {
    hide C.Receive, S.OnCommand, FromBytes, Received, Seal;
    ServerTakes(cfg, a, x, y);
    SealedResult(c, Theirs(cfg), Ours(cfg), s, a.r);
  }

  /** A reply of the server, as the client reads it after its media command. */
  lemma ReplyArrives(c: BlockCipher, cfg: Config, a: Action, x: System, y: System, s: string)
    requires Invertible(c) && Exchanged(cfg) && Live(cfg, x) && ByteStep(c, cfg, a, x, y) && a.ClientRecv?
    requires ClientAt(x).WaitMedia? && x.c.keys == Theirs(cfg) && x.c.crypto
    requires Down(x) == [Sealed(Ours(cfg), s)] && Octets(s)
    ensures a.r == Reading(c, Ours(cfg), Theirs(cfg), s)
    ensures y.c == C.CommandReturns(cfg.client, x.c, C.MediaStatus(a.r)) && y.s == x.s
    ensures ServerAt(y) == ServerAt(x) && Down(y) == [] && Up(y) == Up(x) + C.Outgoing(y.c.pc)
  {
    hide S.Receive, HandshakePhase, Handshaken, FromBytes, Received, Seal, InHandshake;
    ClientTakes(cfg, a, x, y);
    assert x.toClient[..a.k] == [Sealed(Ours(cfg), s)];
    SealedResult(c, Ours(cfg), Theirs(cfg), s, a.r);
  }

  /** The client's farewell after a status that is not END. */
  lemma Farewell(cfg: Config, st: C.State, status: int)
    requires Exchanged(cfg) && st.keys == Theirs(cfg) && st.crypto && status != END
    ensures C.Target(C.FinishPc(cfg.client, st, status)) == C.WaitBye
    ensures C.Outgoing(C.FinishPc(cfg.client, st, status)) == [Sealed(Theirs(cfg), "end\n")]
  {
    FinishPending(cfg.client, st, status);
  }

  /** A result that is no command but `end` has no effect and ends the session. */
  lemma Unheeded(cfg: S.Config, st: S.State, r: RecvResult)
    requires st.pc.WaitCmd? && (r.Got? ==> r.s != "vol\n" && S.MediaCommand(r.s).None?)
    ensures S.OnCommand(cfg, st, r).log == st.log && Closing(S.Target(S.OnCommand(cfg, st, r).pc))
  {
    ReplyPending(S.Message(cfg, st, "bye\n", st.isEnc), S.Close(false));
    AbortPending(cfg, st, S.Message(cfg, st, "err\n", st.isEnc));
  }

  // ---------------------------------------------------------------- the vector alone is cut

  /** The key is installed, the vector is not. */
  predicate VectorCut(cfg: Config) {
    Exchanged(cfg) && ZeroTailed(cfg.server.keys.key) && !ZeroTailed(cfg.server.keys.iv)
  }

  predicate Passes(cfg: Config)
    requires VectorCut(cfg)
  {
    LetsThrough(cfg.server.keys.iv, 5)
  }

  /** All that such a session does: a media key, if the vector lets words of five letters
      through. */
  function Remaining(cfg: Config): seq<S.Effect>
    requires VectorCut(cfg)
  {
    if Passes(cfg) && cfg.client.request.Media? then Expected(cfg) else []
  }

  /** How a short word is read, in either direction: it keeps its first letter, and it comes
      through whole exactly if it has five letters and the vector lets those pass. */
  lemma WordsBetween(c: BlockCipher, cfg: Config, s: string)
    requires Invertible(c) && VectorCut(cfg) && IsWord(s)
    ensures Reading(c, Ours(cfg), Theirs(cfg), s) == Reading(c, Theirs(cfg), Ours(cfg), s)
    ensures var r := Reading(c, Theirs(cfg), Ours(cfg), s);
      && (r.Fail? || (r.Got? && r.s != "" && r.s[0] == s[0]))
      && (|s| == 5 ==> (r == Got(s) <==> Passes(cfg)))
      && (|s| == 4 && Passes(cfg) ==> r != Got(s))
  {
    hide LetsThrough, Mixed, Pad;
    var iv := cfg.server.keys.iv;
    StrNCpyExact(cfg.server.keys.key);
    assert Theirs(cfg) == Keys(cfg.server.keys.key, StrNCpy(iv, IV_BYTES));
    ReadingIsMixed(c, cfg.server.keys.key, iv, s);
    FirstLetterStays(s, iv);
    WordsExactly(s, iv);
    if |s| == 4 && Passes(cfg) { OneLengthAlone(iv, 4, 5); }
  }

  lemma Words(cmd: C.MediaCmd)
    ensures IsWord("redy\n") && IsWord("end\n") && IsWord("vol\n")
    ensures IsWord(C.MediaWord(cmd)) && |C.MediaWord(cmd)| == 5 && IsWord(Confirmation(cmd))
  {
  }

  /** The client's message is under way to a server that waits for a command. */
  predicate Commanded(cfg: Config, x: System)
    requires VectorCut(cfg)
  {
    && ServerAt(x).WaitCmd? && Down(x) == []
    && (|| (ClientAt(x).WaitBye? && Up(x) == [Sealed(Theirs(cfg), "end\n")] && x.s.log == Remaining(cfg))
        || (ClientAt(x).WaitVolOk? && cfg.client.request.Volume? && Up(x) == [Sealed(Theirs(cfg), "vol\n")]
            && x.s.log == [] && Passes(cfg))
        || (ClientAt(x).WaitMedia? && cfg.client.request.Media?
            && Up(x) == [Sealed(Theirs(cfg), C.MediaWord(cfg.client.request.cmd))] && x.s.log == [] && Passes(cfg)))
  }

  /** The server has pressed the key and confirmed it. */
  predicate Pressed(cfg: Config, x: System)
    requires VectorCut(cfg)
  {
    && ServerAt(x).WaitCmd? && Up(x) == [] && ClientAt(x).WaitMedia? && cfg.client.request.Media?
    && Down(x) == [Sealed(Ours(cfg), Confirmation(cfg.client.request.cmd))] && x.s.log == Remaining(cfg)
  }

  /** The two sides at work after the handshake. */
  predicate AtWork(cfg: Config, x: System)
    requires VectorCut(cfg)
  {
    x.c.keys == Theirs(cfg) && x.c.crypto && Modes(cfg, x) && (Commanded(cfg, x) || Pressed(cfg, x))
  }

  predicate Finished(cfg: Config, x: System)
    requires VectorCut(cfg)
  {
    Closing(ServerAt(x)) && x.s.log == Remaining(cfg)
  }

  predicate CutSession(cfg: Config, x: System)
    requires VectorCut(cfg)
  {
    && Live(cfg, x)
    && if InHandshake(ClientAt(x)) then x.s.log == []
       else
         && x.c.handshake == Some(if Passes(cfg) then SUCCESS else FAILURE)
         && (Finished(cfg, x) || AtWork(cfg, x))
  }

  lemma RedyStep(c: BlockCipher, cfg: Config, a: Action, x: System, y: System)
    requires Invertible(c) && VectorCut(cfg) && Live(cfg, x) && ByteStep(c, cfg, a, x, y)
    requires a.ClientRecv? && x.c.pc.WaitRedy?
    ensures !InHandshake(ClientAt(y)) && y.c.handshake == Some(if Passes(cfg) then SUCCESS else FAILURE)
    ensures AtWork(cfg, y)
  {
    hide ByteStep, Live, LetsThrough, Reading, Installed, Octets;
    RedyArrives(c, cfg, a, x, y);
    Words(C.Play);
    WordsBetween(c, cfg, "redy\n");
    var st := x.c.(handshake := Some(SUCCESS));
    Farewell(cfg, x.c, FAILURE);
    Farewell(cfg, st, SUCCESS);
    match cfg.client.request
    case Volume(_, _) => ClientSends(Sealed(Theirs(cfg), "vol\n"), C.WaitVolOk);
    case Media(cmd) => ClientSends(Sealed(Theirs(cfg), C.MediaWord(cmd)), C.WaitMedia);
    case Nothing =>
  }

  lemma ServerHearsMedia(cfg: Config, x: System, y: System, r: RecvResult)
    requires VectorCut(cfg) && cfg.client.request.Media? && x.s.pc.WaitCmd? && Modes(cfg, x) && x.s.log == []
    requires Passes(cfg) && r == Got(C.MediaWord(cfg.client.request.cmd)) && Down(x) == [] && ClientAt(y).WaitMedia?
    requires y.s == S.OnCommand(cfg.server, x.s, r) && Up(y) == [] && Down(y) == Down(x) + S.Outgoing(y.s.pc)
    ensures if Closing(ServerAt(y)) then y.s.log == Remaining(cfg) else Pressed(cfg, y)
  {
    MediaCommands(cfg.client.request.cmd);
    var confirmation := Confirmation(cfg.client.request.cmd);
    var st := x.s.(log := x.s.log + [S.MediaKey(KeyOf(cfg.client.request.cmd))]);
    ReplyPending(S.Message(cfg.server, st, confirmation, st.isEnc), S.WaitCmd);
    AbortPending(cfg.server, st, S.Message(cfg.server, st, "err\n", st.isEnc));
  }

  lemma ServerHears(c: BlockCipher, cfg: Config, a: Action, x: System, y: System)
    requires Invertible(c) && VectorCut(cfg) && ByteStep(c, cfg, a, x, y) && a.ServerRecv?
    requires Modes(cfg, x) && Commanded(cfg, x)
    ensures y.c == x.c
    ensures (Closing(ServerAt(y)) && y.s.log == Remaining(cfg)) || Pressed(cfg, y)
  {
    hide ByteStep, LetsThrough, Reading, Installed, Octets, S.OnCommand;
    var cmd := if cfg.client.request.Media? then cfg.client.request.cmd else C.Play;
    var s := if ClientAt(x).WaitBye? then "end\n" else if ClientAt(x).WaitVolOk? then "vol\n" else C.MediaWord(cmd);
    Words(cmd);
    CommandArrives(c, cfg, a, x, y, s);
    WordsBetween(c, cfg, s);
    if ClientAt(x).WaitMedia? {
      ServerHearsMedia(cfg, x, y, a.r);
    } else {
      Unheeded(cfg.server, x.s, a.r);
    }
  }

  /** The confirmation cannot turn into an `end`. */
  lemma ClientHears(c: BlockCipher, cfg: Config, a: Action, x: System, y: System)
    requires Invertible(c) && VectorCut(cfg) && Live(cfg, x) && ByteStep(c, cfg, a, x, y) && a.ClientRecv?
    requires Pressed(cfg, x) && x.c.keys == Theirs(cfg) && x.c.crypto
    ensures y.s == x.s && y.c.keys == x.c.keys && y.c.crypto && y.c.handshake == x.c.handshake
    ensures Commanded(cfg, y)
  {
    hide ByteStep, S.Receive, LetsThrough, Reading, Installed, Octets, HandshakePhase, Handshaken;
    Words(cfg.client.request.cmd);
    ReplyArrives(c, cfg, a, x, y, Confirmation(cfg.client.request.cmd));
    WordsBetween(c, cfg, Confirmation(cfg.client.request.cmd));
    Farewell(cfg, x.c, C.MediaStatus(a.r));
  }

  lemma WorkGoesOn(c: BlockCipher, cfg: Config, a: Action, x: System, y: System)
    requires Invertible(c) && VectorCut(cfg) && Live(cfg, x) && ByteStep(c, cfg, a, x, y) && AtWork(cfg, x)
    ensures AtWork(cfg, y) || Finished(cfg, y)
  {
    hide HandshakePhase, Handshaken, S.Receive, C.Receive, LetsThrough, FromBytes, Theirs, Remaining;
    match a
    case ServerSend => SendsAreInvisible(cfg, a, x, y);
    case ClientSend => SendsAreInvisible(cfg, a, x, y);
    case ServerRecv(_, _) =>
      ServerTakes(cfg, a, x, y);
      ServerKeepsMode(cfg.server, x.s, a.r);
      ServerHears(c, cfg, a, x, y);
    case ClientRecv(_, _) =>
      ClientTakes(cfg, a, x, y);
      ClientHears(c, cfg, a, x, y);
    case _ =>
  }

  lemma NothingFollowsTheEnd(cfg: Config, a: Action, x: System, y: System)
    requires VectorCut(cfg) && Step(cfg, a, x, y) && Finished(cfg, x)
    ensures Finished(cfg, y)
  {
    hide C.Receive, S.Receive, LetsThrough, Remaining;
    if a.ServerSend? || a.ClientSend? { SendsAreInvisible(cfg, a, x, y); }
  }

  lemma StatusIsFinal(cfg: Config, a: Action, x: System, y: System)
    requires Valid(cfg) && Live(cfg, x) && Step(cfg, a, x, y) && !InHandshake(ClientAt(x))
    ensures !InHandshake(ClientAt(y)) && y.c.handshake == x.c.handshake
  {
    hide HandshakePhase, Handshaken, S.Receive, C.Receive;
    if a.ServerSend? || a.ClientSend? { SendsAreInvisible(cfg, a, x, y); }
    if a.ClientRecv? {
      ClientTakes(cfg, a, x, y);
      ClientAfterHandshake(cfg.client, x.c, C.Arrival(x.toClient[..a.k], a.r));
    }
  }

  lemma StepKeepsCut(c: BlockCipher, cfg: Config, a: Action, x: System, y: System)
    requires Invertible(c) && VectorCut(cfg) && CutSession(cfg, x) && ByteStep(c, cfg, a, x, y)
    ensures CutSession(cfg, y)
  {
    hide Step, FromBytes, Live, LetsThrough, AtWork, Finished, Theirs;
    StepKeepsLive(cfg, a, x, y);
    if !InHandshake(ClientAt(x)) {
      StatusIsFinal(cfg, a, x, y);
      if Finished(cfg, x) { NothingFollowsTheEnd(cfg, a, x, y); } else { WorkGoesOn(c, cfg, a, x, y); }
    } else if a.ClientRecv? && x.c.pc.WaitRedy? {
      RedyStep(c, cfg, a, x, y);
    } else {
      ExchangeGoesOn(cfg, a, x, y);
    }
  }

  lemma {:induction false} RunsAreCut(c: BlockCipher, cfg: Config, states: seq<System>, acts: seq<Action>, n: nat)
    requires Invertible(c) && VectorCut(cfg) && IsByteRun(c, cfg, states, acts) && n <= |acts|
    ensures CutSession(cfg, states[n])
  {
    if n > 0 {
      hide ByteStep, CutSession;
      RunsAreCut(c, cfg, states, acts, n - 1);
      StepKeepsCut(c, cfg, acts[n - 1], states[n - 1], states[n]);
    }
  }

  /** When the key is installed and the vector is cut short, then under every block cipher the
      handshake succeeds exactly if the vector lets `redy` through all the same, and a
      finished session has pressed the media key that was asked for exactly then, and done
      nothing else. */
  lemma VectorCutExactly(c: BlockCipher, cfg: Config, states: seq<System>, acts: seq<Action>)
    requires Invertible(c) && VectorCut(cfg) && IsByteRun(c, cfg, states, acts) && BothEnded(states[|acts|])
    ensures states[|acts|].c.handshake == Some(if LetsThrough(cfg.server.keys.iv, 5) then SUCCESS else FAILURE)
    ensures states[|acts|].s.log
         == if LetsThrough(cfg.server.keys.iv, 5) && cfg.client.request.Media? then Expected(cfg) else []
  {
    hide LetsThrough, Live;
    RunsAreCut(c, cfg, states, acts, |acts|);
  }

  /** Under every block cipher the effects so far begin the expected ones as soon as the key
      of the server is zero-tailed, whatever becomes of its vector. */
  lemma InstalledKeyIsSafe(c: BlockCipher, cfg: Config, states: seq<System>, acts: seq<Action>, n: nat)
    requires Invertible(c) && Valid(cfg) && IsByteRun(c, cfg, states, acts) && n <= |acts|
    requires Octets(cfg.server.keys.key) && IsBlock(cfg.server.keys.iv)
    requires cfg.client.useEnc && Connects(cfg) ==> ZeroTailed(cfg.server.keys.key)
    ensures states[n].s.log <= Expected(cfg)
  {
    hide ByteStep, LetsThrough;
    ByteRunsAreRuns(c, cfg, states, acts);
    if F.KeysAgree(cfg) {
      F.EffectsAreSafe(cfg, states, acts, n);
    } else {
      RunsAreCut(c, cfg, states, acts, n);
    }
  }
}
