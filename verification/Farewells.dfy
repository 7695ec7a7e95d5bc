/** Encrypted sessions whose client is done as soon as it has read the server's final `redy`,
    whatever it read: what the server makes of its farewell. */
module Farewells {
  import opened Wrappers
  import opened Constants
  import opened SessionKeys
  import opened CText
  import opened Cbc
  import opened Wire
  import opened Transport
  import opened VectorLoss
  import opened Protocol
  import opened Progress
  import opened ByteRuns
  import opened KeyMismatch
  import S = ServerProgram
  import C = ClientProgram

  /** The status that `serverHandshake` returns for it. */
  function StatusOf(r: RecvResult): int {
    if r == Got("redy\n") then SUCCESS else if r == Got("end\n") then END else FAILURE
  }

  /** The effect of what the server reads from a word of the client. */
  function EffectOf(r: RecvResult): seq<S.Effect> {
    if r.Got? && S.MediaCommand(r.s).Some? then [S.MediaKey(S.MediaCommand(r.s).value.0)] else []
  }

  /** The client's `bye` and `end` as the server reads them, each alone or both at once. */
  ghost function HeardBye(c: BlockCipher, cfg: Config): RecvResult
    requires Invertible(c) && Exchanged(cfg)
  {
    Reading(c, Theirs(cfg), Ours(cfg), "bye\n")
  }

  ghost function HeardEnd(c: BlockCipher, cfg: Config): RecvResult
    requires Invertible(c) && Exchanged(cfg)
  {
    Reading(c, Theirs(cfg), Ours(cfg), "end\n")
  }

  ghost function HeardBoth(c: BlockCipher, cfg: Config): RecvResult
    requires Invertible(c) && Exchanged(cfg)
  {
    var k := Theirs(cfg);
    Received(c, true, Ours(cfg), Seal(c, k.key, k.iv, "bye\n") + Seal(c, k.key, k.iv, "end\n")).value
  }

  // ---------------------------------------------------------------- the handshake

  ghost predicate StatusFits(c: BlockCipher, cfg: Config, x: System)
    requires Invertible(c) && Exchanged(cfg)
  {
    if InHandshake(ClientAt(x)) then x.s.log == [] else x.c.handshake == Some(StatusOf(Greeting(c, cfg)))
  }

  lemma StepFits(c: BlockCipher, cfg: Config, a: Action, x: System, y: System)
    requires Invertible(c) && Exchanged(cfg) && Live(cfg, x) && StatusFits(c, cfg, x) && ByteStep(c, cfg, a, x, y)
    ensures StatusFits(c, cfg, y)
  {
    hide Step, FromBytes, Live, Reading, Installed;
    if !InHandshake(ClientAt(x)) {
      StatusIsFinal(cfg, a, x, y);
    } else if a.ClientRecv? && x.c.pc.WaitRedy? {
      RedyArrives(c, cfg, a, x, y);
      FinishPending(cfg.client, x.c, FAILURE);
      FinishPending(cfg.client, x.c, END);
      StartPending(cfg.client, x.c.(handshake := Some(SUCCESS)));
    } else {
      ExchangeGoesOn(cfg, a, x, y);
    }
  }

  lemma {:induction false} RunsFit(c: BlockCipher, cfg: Config, states: seq<System>, acts: seq<Action>, n: nat)
    requires Invertible(c) && Exchanged(cfg) && IsByteRun(c, cfg, states, acts) && n <= |acts|
    ensures Live(cfg, states[n]) && StatusFits(c, cfg, states[n])
  {
    hide ByteStep, Live, Greeting;
    ByteRunsAreRuns(c, cfg, states, acts);
    RunsAreLive(cfg, states, acts, n);
    if n > 0 {
      hide StatusFits;
      RunsFit(c, cfg, states, acts, n - 1);
      StepFits(c, cfg, acts[n - 1], states[n - 1], states[n]);
    }
  }

  /** Under every block cipher and whatever `strncpy` has done to the secrets, a finished
      exchange has exactly the status of what the client reads from the server's `redy`. */
  lemma HandshakeExactly(c: BlockCipher, cfg: Config, states: seq<System>, acts: seq<Action>)
    requires Invertible(c) && Exchanged(cfg) && IsByteRun(c, cfg, states, acts) && BothEnded(states[|acts|])
    ensures states[|acts|].c.handshake == Some(StatusOf(Greeting(c, cfg)))
  {
    hide Live, Greeting;
    RunsFit(c, cfg, states, acts, |acts|);
  }

  // ---------------------------------------------------------------- farewells

  predicate Leaving(cfg: Config, x: System, words: seq<string>)
    requires Exchanged(cfg)
  {
    && ServerAt(x).WaitCmd? && Down(x) == [] && ClientAt(x).WaitBye? && x.s.log == [] && Modes(cfg, x)
    && Up(x) == seq(|words|, i requires 0 <= i < |words| => Sealed(Theirs(cfg), words[i]))
  }

  /** The server has read all there is. */
  predicate Left(x: System, log: seq<S.Effect>) {
    x.s.log == log && (Closing(ServerAt(x)) || (Up(x) == [] && Listening(ServerAt(x))))
  }

  predicate Listening(pc: S.Pc) { pc.WaitCmd? || pc.WaitCount? || pc.WaitArg? }

  predicate Done(pc: C.Pc) { pc.WaitBye? || pc.Close? || pc.Ended? }

  /** What the server may do on a word. */
  lemma AnyCommand(cfg: S.Config, st: S.State, r: RecvResult)
    requires st.pc.WaitCmd?
    ensures var t, pc := S.OnCommand(cfg, st, r), S.Target(S.OnCommand(cfg, st, r).pc);
      && t.log == st.log + EffectOf(r) && t.crypto == st.crypto && t.isEnc == st.isEnc
      && (|| Closing(pc)
          || (pc.WaitCount? && EffectOf(r) == [])
          || (pc.WaitCmd? && EffectOf(r) != [] && cfg.outcome(|st.log|)))
      && (EffectOf(r) != [] && cfg.outcome(|st.log|) ==> pc.WaitCmd?)
  {
    if !r.Got? || r.s == "end\n" || (r.s != "vol\n" && S.MediaCommand(r.s).None?) {
      Unheeded(cfg, st, r);
    } else if r.s == "vol\n" {
      ReplyPending(S.Message(cfg, st, "ok\n", st.isEnc), S.WaitCount);
    } else {
      var (key, confirmation) := S.MediaCommand(r.s).value;
      var t := st.(log := st.log + [S.MediaKey(key)]);
      ReplyPending(S.Message(cfg, t, confirmation, t.isEnc), S.WaitCmd);
      AbortPending(cfg, t, S.Message(cfg, t, "err\n", t.isEnc));
    }
  }

  /** The client has gone. */
  lemma NothingFollows(cfg: Config, a: Action, x: System, y: System, log: seq<S.Effect>)
    requires Valid(cfg) && Step(cfg, a, x, y) && a.ServerRecv? && Left(x, log)
    ensures y.c == x.c && Left(y, log) && a.k == 0
  {
    hide C.Receive;
    ServerTakes(cfg, a, x, y);
    assert y.s == S.Abort(cfg.server, x.s);
    assert S.Target(S.FailPc(cfg.server, x.s)) == S.Close(true);
  }

  // ---------------------------------------------------------------- `end` alone

  /** The client has no use for a command: its handshake fails, or nothing was asked for. */
  ghost predicate SaysEnd(c: BlockCipher, cfg: Config)
    requires Invertible(c) && Exchanged(cfg)
  {
    StatusOf(Greeting(c, cfg)) == FAILURE
    || (StatusOf(Greeting(c, cfg)) == SUCCESS && cfg.client.request.Nothing?)
  }

  ghost predicate EndSession(c: BlockCipher, cfg: Config, x: System)
    requires Invertible(c) && Exchanged(cfg)
  {
    && StatusFits(c, cfg, x)
    && (!InHandshake(ClientAt(x)) ==>
          Done(ClientAt(x)) && (Leaving(cfg, x, ["end\n"]) || Left(x, EffectOf(HeardEnd(c, cfg)))))
  }

  lemma EndIsSaid(c: BlockCipher, cfg: Config, a: Action, x: System, y: System)
    requires Invertible(c) && Exchanged(cfg) && SaysEnd(c, cfg) && Live(cfg, x) && ByteStep(c, cfg, a, x, y)
    requires a.ClientRecv? && x.c.pc.WaitRedy?
    ensures !InHandshake(ClientAt(y)) && Leaving(cfg, y, ["end\n"])
  {
    hide ByteStep, Live, Reading, Installed;
    RedyArrives(c, cfg, a, x, y);
    Farewell(cfg, x.c, FAILURE);
    Farewell(cfg, x.c.(handshake := Some(SUCCESS)), SUCCESS);
  }

  lemma EndIsHeard(c: BlockCipher, cfg: Config, a: Action, x: System, y: System)
    requires Invertible(c) && Exchanged(cfg) && ByteStep(c, cfg, a, x, y) && a.ServerRecv?
    requires Leaving(cfg, x, ["end\n"])
    ensures y.c == x.c && Left(y, EffectOf(HeardEnd(c, cfg)))
  {
    hide ByteStep, Reading, Installed, S.OnCommand;
    assert Up(x) == [Sealed(Theirs(cfg), "end\n")];
    CommandArrives(c, cfg, a, x, y, "end\n");
    AnyCommand(cfg.server, x.s, a.r);
  }

  lemma StepKeepsEnd(c: BlockCipher, cfg: Config, a: Action, x: System, y: System)
    requires Invertible(c) && Exchanged(cfg) && SaysEnd(c, cfg)
    requires Live(cfg, x) && EndSession(c, cfg, x) && ByteStep(c, cfg, a, x, y)
    ensures EndSession(c, cfg, y)
  {
    hide HandshakePhase, Handshaken, S.Receive, Installed, SaysEnd, Greeting, HeardEnd, EffectOf;
    StepFits(c, cfg, a, x, y);
    if InHandshake(ClientAt(x)) {
      if a.ClientRecv? && x.c.pc.WaitRedy? { EndIsSaid(c, cfg, a, x, y); } else { ExchangeGoesOn(cfg, a, x, y); }
    } else {
      match a
      case ServerSend => SendsAreInvisible(cfg, a, x, y);
      case ClientSend => SendsAreInvisible(cfg, a, x, y);
      case ServerRecv(_, _) =>
        if Leaving(cfg, x, ["end\n"]) { EndIsHeard(c, cfg, a, x, y); }
        else { NothingFollows(cfg, a, x, y, EffectOf(HeardEnd(c, cfg))); }
      case ClientRecv(_, _) => ClientTakes(cfg, a, x, y);
      case _ => assert Up(y) == Up(x) && Down(y) == Down(x);
    }
  }

  lemma {:induction false} RunsEnd(c: BlockCipher, cfg: Config, states: seq<System>, acts: seq<Action>, n: nat)
    requires Invertible(c) && Exchanged(cfg) && SaysEnd(c, cfg) && IsByteRun(c, cfg, states, acts) && n <= |acts|
    ensures EndSession(c, cfg, states[n])
  {
    hide ByteStep, Live, Greeting, SaysEnd, StatusFits;
    RunsFit(c, cfg, states, acts, n);
    if n > 0 {
      hide EndSession;
      RunsEnd(c, cfg, states, acts, n - 1);
      RunsFit(c, cfg, states, acts, n - 1);
      StepKeepsEnd(c, cfg, acts[n - 1], states[n - 1], states[n]);
    }
  }

  /** A client whose handshake fails, or that was asked for nothing, leaves with `end`, and all
      that such a session does to the machine is what the server reads from that word: the
      media key it happens to spell, or nothing. */
  lemma EndExactly(c: BlockCipher, cfg: Config, states: seq<System>, acts: seq<Action>)
    requires Invertible(c) && Exchanged(cfg) && SaysEnd(c, cfg)
    requires IsByteRun(c, cfg, states, acts) && BothEnded(states[|acts|])
    ensures states[|acts|].s.log == EffectOf(HeardEnd(c, cfg))
  {
    hide Live, Reading, SaysEnd, StatusFits;
    RunsEnd(c, cfg, states, acts, |acts|);
  }

  // ---------------------------------------------------------------- `bye` and `end`

  /** The effects of both words, each read by its own `recv`: the second counts only if the
      first was a media key that worked. */
  ghost function HeardApart(c: BlockCipher, cfg: Config): seq<S.Effect>
    requires Invertible(c) && Exchanged(cfg)
  {
    var first := EffectOf(HeardBye(c, cfg));
    if first != [] && cfg.server.outcome(0) then first + EffectOf(HeardEnd(c, cfg)) else first
  }

  /** A `recv` of the server that takes two packets. */
  predicate Glues(a: Action) { a.ServerRecv? && a.k == 2 }

  /** The server has read `bye` alone, and waits for more. */
  ghost predicate HalfHeard(c: BlockCipher, cfg: Config, x: System)
    requires Invertible(c) && Exchanged(cfg)
  {
    var first := EffectOf(HeardBye(c, cfg));
    && Up(x) == [Sealed(Theirs(cfg), "end\n")] && x.s.log == first && Modes(cfg, x)
    && (|| (ServerAt(x).WaitCount? && first == [])
        || (ServerAt(x).WaitCmd? && first != [] && cfg.server.outcome(0)))
  }

  ghost predicate ByeSession(c: BlockCipher, cfg: Config, x: System, glued: bool)
    requires Invertible(c) && Exchanged(cfg)
  {
    && StatusFits(c, cfg, x)
    && if InHandshake(ClientAt(x)) then !glued
       else
         && Done(ClientAt(x))
         && (|| (!glued && Leaving(cfg, x, ["bye\n", "end\n"]))
             || (!glued && HalfHeard(c, cfg, x))
             || Left(x, if glued then EffectOf(HeardBoth(c, cfg)) else HeardApart(c, cfg)))
  }

  lemma ByeIsSaid(c: BlockCipher, cfg: Config, a: Action, x: System, y: System)
    requires Invertible(c) && Exchanged(cfg) && StatusOf(Greeting(c, cfg)) == END
    requires Live(cfg, x) && ByteStep(c, cfg, a, x, y) && a.ClientRecv? && x.c.pc.WaitRedy?
    ensures !InHandshake(ClientAt(y)) && Leaving(cfg, y, ["bye\n", "end\n"])
  {
    hide ByteStep, Live, Reading, Installed;
    RedyArrives(c, cfg, a, x, y);
    FinishPending(cfg.client, x.c, END);
    assert Up(y) == [Sealed(Theirs(cfg), "bye\n")] + [Sealed(Theirs(cfg), "end\n")];
  }

  lemma ByeIsHeard(c: BlockCipher, cfg: Config, a: Action, x: System, y: System)
    requires Invertible(c) && Exchanged(cfg) && ByteStep(c, cfg, a, x, y) && a.ServerRecv?
    requires Leaving(cfg, x, ["bye\n", "end\n"])
    ensures y.c == x.c
    ensures a.k == 1 ==> HalfHeard(c, cfg, y) || Left(y, HeardApart(c, cfg))
    ensures a.k != 1 ==> Glues(a) && Left(y, EffectOf(HeardBoth(c, cfg)))
  {
    hide C.Receive, FromBytes, Received, Seal, Installed, S.OnCommand, EffectOf;
    var bye, end := Sealed(Theirs(cfg), "bye\n"), Sealed(Theirs(cfg), "end\n");
    assert Up(x) == [bye, end];
    ServerTakes(cfg, a, x, y);
    assert [bye, end][..1] == [bye] && [bye, end][..2] == [bye, end];
    assert [bye, end][1..] == [end] && [bye, end][2..] == [];
    AnyCommand(cfg.server, x.s, a.r);
    if a.k == 1 {
      SealedResult(c, Theirs(cfg), Ours(cfg), "bye\n", a.r);
    } else {
      SealedPairResult(c, Theirs(cfg), Ours(cfg), "bye\n", "end\n", a.r);
    }
  }

  lemma CountIsHeard(cfg: Config, a: Action, x: System, y: System)
    requires Valid(cfg) && Step(cfg, a, x, y) && a.ServerRecv? && x.s.pc.WaitCount? && |Up(x)| == 1
    ensures y.c == x.c && Left(y, x.s.log) && a.k == 1
  {
    hide C.Receive;
    ServerTakes(cfg, a, x, y);
    assert S.Target(S.FailPc(cfg.server, x.s)) == S.Close(true);
    if a.r.Got? {
      ReplyPending(S.Message(cfg.server, x.s, "ok\n", x.s.isEnc), S.LoopPc(0, Atoi(a.r.s)));
    }
  }

  lemma RestIsHeard(c: BlockCipher, cfg: Config, a: Action, x: System, y: System)
    requires Invertible(c) && Exchanged(cfg) && ByteStep(c, cfg, a, x, y) && a.ServerRecv? && HalfHeard(c, cfg, x)
    ensures y.c == x.c && Left(y, HeardApart(c, cfg)) && !Glues(a)
  {
    hide FromBytes, Reading, Installed, S.OnCommand, S.OnCount, C.Receive;
    ServerTakes(cfg, a, x, y);
    if x.s.pc.WaitCount? {
      CountIsHeard(cfg, a, x, y);
    } else {
      CommandArrives(c, cfg, a, x, y, "end\n");
      AnyCommand(cfg.server, x.s, a.r);
    }
  }

  /** In the handshake the server never finds two packets. */
  lemma NothingGluesYet(cfg: Config, a: Action, x: System, y: System)
    requires Valid(cfg) && Live(cfg, x) && Step(cfg, a, x, y) && InHandshake(ClientAt(x))
    ensures !Glues(a)
  {
    hide S.Receive, C.Receive, Delivers;
    if a.ServerRecv? { ServerTakes(cfg, a, x, y); }
  }

  lemma StepKeepsBye(c: BlockCipher, cfg: Config, a: Action, x: System, y: System, glued: bool)
    requires Invertible(c) && Exchanged(cfg) && StatusOf(Greeting(c, cfg)) == END
    requires Live(cfg, x) && ByeSession(c, cfg, x, glued) && ByteStep(c, cfg, a, x, y)
    ensures ByeSession(c, cfg, y, glued || Glues(a))
  {
    hide HandshakePhase, Handshaken, FromBytes, S.Receive, Installed, Greeting;
    hide HeardBye, HeardEnd, HeardBoth, HeardApart, EffectOf;
    StepFits(c, cfg, a, x, y);
    if InHandshake(ClientAt(x)) {
      NothingGluesYet(cfg, a, x, y);
      if a.ClientRecv? && x.c.pc.WaitRedy? { ByeIsSaid(c, cfg, a, x, y); } else { ExchangeGoesOn(cfg, a, x, y); }
    } else {
      match a
      case ServerSend => SendsAreInvisible(cfg, a, x, y);
      case ClientSend => SendsAreInvisible(cfg, a, x, y);
      case ServerRecv(_, _) =>
        if !glued && Leaving(cfg, x, ["bye\n", "end\n"]) { ByeIsHeard(c, cfg, a, x, y); }
        else if !glued && HalfHeard(c, cfg, x) { RestIsHeard(c, cfg, a, x, y); }
        else { NothingFollows(cfg, a, x, y, if glued then EffectOf(HeardBoth(c, cfg)) else HeardApart(c, cfg)); }
      case ClientRecv(_, _) => ClientTakes(cfg, a, x, y);
      case _ => assert Up(y) == Up(x) && Down(y) == Down(x);
    }
  }

  predicate Glued(acts: seq<Action>, n: nat)
    requires n <= |acts|
  {
    exists i | 0 <= i < n :: Glues(acts[i])
  }

  lemma {:induction false} RunsSayBye(c: BlockCipher, cfg: Config, states: seq<System>, acts: seq<Action>, n: nat)
    requires Invertible(c) && Exchanged(cfg) && StatusOf(Greeting(c, cfg)) == END
    requires IsByteRun(c, cfg, states, acts) && n <= |acts|
    ensures ByeSession(c, cfg, states[n], Glued(acts, n))
  {
    hide ByteStep, Live, Greeting, StatusFits;
    RunsFit(c, cfg, states, acts, n);
    if n > 0 {
      hide ByeSession;
      RunsSayBye(c, cfg, states, acts, n - 1);
      RunsFit(c, cfg, states, acts, n - 1);
      StepKeepsBye(c, cfg, acts[n - 1], states[n - 1], states[n], Glued(acts, n - 1));
      assert Glued(acts, n) == (Glued(acts, n - 1) || Glues(acts[n - 1]));
    }
  }

  /** A client that reads `end` from the server's `redy` leaves with `bye` and `end`. If one
      `recv` of the server takes both, the session does what they spell together; otherwise
      what `bye` spells, and then, if that was a media key that worked, what `end` spells. */
  lemma ByeExactly(c: BlockCipher, cfg: Config, states: seq<System>, acts: seq<Action>)
    requires Invertible(c) && Exchanged(cfg) && StatusOf(Greeting(c, cfg)) == END
    requires IsByteRun(c, cfg, states, acts) && BothEnded(states[|acts|])
    ensures states[|acts|].s.log
         == if Glued(acts, |acts|) then EffectOf(HeardBoth(c, cfg)) else HeardApart(c, cfg)
  {
    hide ByteStep, Live, Greeting, StatusFits, HeardBye, HeardEnd, HeardBoth, HeardApart, EffectOf, Glued;
    RunsSayBye(c, cfg, states, acts, |acts|);
  }
}
