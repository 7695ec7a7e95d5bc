/** Sessions whose key exchange fails because a secret does not open at the client, and what
    all sessions together can do to the server's machine. */
module FailedExchange {
  import opened Constants
  import opened SessionKeys
  import opened Wire
  import opened Protocol
  import opened Progress
  import opened SessionEffects
  import S = ServerProgram
  import C = ClientProgram

  /** Both sides encrypt, but `rsaDecrypt` does not open both secrets. */
  predicate Unopened(cfg: Config) {
    cfg.client.useEnc && cfg.server.useEnc && !(cfg.client.opensIv && cfg.client.opensKey)
  }

  /** The client has given up, and at most its `end` is on its way to the server. */
  predicate GivenUp(x: System) {
    && (ClientAt(x).WaitBye? || ClientAt(x).Close? || ClientAt(x).Ended?)
    && (|| Closing(ServerAt(x))
        || (ServerAt(x).WaitRedy? && |Up(x)| <= 1)
        || (ServerAt(x).WaitCmd? && Up(x) == []))
  }

  /** The client is still in its exchange, and has opened the vector if it waits for the key. */
  predicate Exchanging(cfg: Config, x: System) {
    && InHandshake(ClientAt(x)) && !ClientAt(x).WaitRedy?
    && (ClientAt(x).WaitSecret? && ClientAt(x).isKey ==> cfg.client.opensIv)
  }

  predicate Harmless(cfg: Config, x: System) {
    x.s.log == [] && (Exchanging(cfg, x) || GivenUp(x))
  }

  lemma ServerStaysHarmless(cfg: Config, a: Action, x: System, y: System)
    requires Valid(cfg) && Unopened(cfg) && Live(cfg, x) && Harmless(cfg, x) && Step(cfg, a, x, y) && a.ServerRecv?
    ensures Harmless(cfg, y)
  {
    hide C.Receive;
    ServerTakes(cfg, a, x, y);
    if InHandshake(ClientAt(x)) {
      ServerRecvInHandshake(cfg, a, x, y);
    } else if x.s.pc.WaitRedy? {
      ReplyPending(S.Message(cfg.server, x.s, "redy\n", x.s.isEnc), S.WaitCmd);
      assert S.Target(S.FailPc(cfg.server, x.s)) == S.Close(true);
    } else {
      assert y.s == S.Abort(cfg.server, x.s);
      assert S.Target(S.FailPc(cfg.server, x.s)) == S.Close(true);
    }
  }

  /** A part of a secret that is read while the client is exchanging keys. */
  lemma PartStaysHarmless(cfg: Config, a: Action, x: System, y: System, isKey: bool, part: nat)
    requires Valid(cfg) && Unopened(cfg) && Step(cfg, a, x, y) && a.ClientRecv?
    requires x.c.pc == C.WaitSecret(isKey, part, true) && part <= 2 && (isKey ==> cfg.client.opensIv)
    requires ServerAt(x).WaitRedy? && Up(x) == [] && Down(x) == Envelopes(cfg, isKey, part) && x.s.log == []
    ensures Harmless(cfg, y)
  {
    hide S.Receive, Delivers;
    ClientTakes(cfg, a, x, y);
    NextEnvelope(cfg, isKey, part);
    FinishPending(cfg.client, x.c, FAILURE);
  }

  lemma ClientStaysHarmless(cfg: Config, a: Action, x: System, y: System)
    requires Valid(cfg) && Unopened(cfg) && Live(cfg, x) && Harmless(cfg, x) && Step(cfg, a, x, y) && a.ClientRecv?
    ensures Harmless(cfg, y)
  {
    hide S.Receive, Handshaken, Modes;
    ClientTakes(cfg, a, x, y);
    match x.c.pc
    case WaitHelo => ClientGetsHelo(cfg, a, x, y);
    case WaitPub =>
      DeliversSingle(false, x.c.keys, cfg.server.pem, a.r);
      ClientSends(PublicKey(cfg.client.pem), C.WaitSecret(false, 0, true));
    case WaitSecret(isKey, part, _) => PartStaysHarmless(cfg, a, x, y, isKey, part);
    case _ =>
  }

  lemma StepStaysHarmless(cfg: Config, a: Action, x: System, y: System)
    requires Valid(cfg) && Unopened(cfg) && Live(cfg, x) && Harmless(cfg, x) && Step(cfg, a, x, y)
    ensures Harmless(cfg, y)
  {
    hide HandshakePhase;
    match a
    case ServerSend => SendsAreInvisible(cfg, a, x, y);
    case ClientSend => SendsAreInvisible(cfg, a, x, y);
    case ServerRecv(_, _) => ServerStaysHarmless(cfg, a, x, y);
    case ClientRecv(_, _) => ClientStaysHarmless(cfg, a, x, y);
    case _ => assert Up(y) == Up(x);
  }

  /** If one of the two secrets does not open, no run has an effect. */
  lemma {:induction false} UnopenedHasNoEffect(cfg: Config, states: seq<System>, acts: seq<Action>, n: nat)
    requires Valid(cfg) && Unopened(cfg) && IsRun(cfg, states, acts) && n <= |acts|
    ensures Harmless(cfg, states[n]) && states[n].s.log == []
  {
    if n > 0 {
      hide Step, Live;
      UnopenedHasNoEffect(cfg, states, acts, n - 1);
      RunsAreLive(cfg, states, acts, n - 1);
      StepStaysHarmless(cfg, acts[n - 1], states[n - 1], states[n]);
    }
  }

  /** The secrets reach the client, and `strncpy` does not cut them short. */
  predicate KeysAgree(cfg: Config) {
    cfg.client.useEnc && cfg.server.useEnc && cfg.client.opensIv && cfg.client.opensKey ==> Installable(cfg.server.keys)
  }

  /** In every session, whatever the flags, the effects so far begin the expected ones, unless
      the client ends up with other keys than the server's. */
  lemma EffectsAreSafe(cfg: Config, states: seq<System>, acts: seq<Action>, n: nat)
    requires Valid(cfg) && KeysAgree(cfg) && IsRun(cfg, states, acts) && n <= |acts|
    ensures states[n].s.log <= Expected(cfg)
  {
    if Cooperative(cfg) {
      EffectsAreExpected(cfg, states, acts, n);
    } else if cfg.server.useEnc {
      UnopenedHasNoEffect(cfg, states, acts, n);
    } else {
      RefusedHasNoEffect(cfg, states, acts, n);
    }
  }
}
