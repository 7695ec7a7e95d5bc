/** Every run of the composed programs ends, and ends with both sides closed; and what
    the handshake establishes. All of this holds for every choice of flags, request, key
    material and environment, also when the keys disagree and decryption returns junk. */
module Progress {
  import opened Wrappers
  import opened Constants
  import opened SessionKeys
  import opened Wire
  import opened Protocol
  import S = ServerProgram
  import C = ClientProgram

  // ---------------------------------------------------------------- termination

  function Measure(cfg: Config, x: System): nat {
    21 * C.Rank(cfg.client, x.c.pc) + 20 * |x.toServer| + S.Rank(x.s.pc)
  }

  lemma StepFalls(cfg: Config, a: Action, x: System, y: System)
    requires Valid(cfg) && Step(cfg, a, x, y)
    ensures Measure(cfg, y) < Measure(cfg, x)
  {
    match a
    case ServerRecv(k, r) => S.RankFalls(cfg.server, x.s, r);
    case ClientRecv(k, r) => C.RankFalls(cfg.client, x.c, C.Arrival(x.toClient[..k], r));
    case _ =>
  }

  lemma {:induction false} RunFalls(cfg: Config, states: seq<System>, acts: seq<Action>, n: nat)
    requires Valid(cfg) && IsRun(cfg, states, acts) && n <= |acts|
    ensures n + Measure(cfg, states[n]) <= Measure(cfg, Init(cfg))
  {
    if n > 0 {
      RunFalls(cfg, states, acts, n - 1);
      StepFalls(cfg, acts[n - 1], states[n - 1], states[n]);
    }
  }

  function Channels(cfg: Config): nat {
    if cfg.client.request.Volume? then |cfg.client.request.channels| else 0
  }

  /** No run is longer than a bound linear in the number of channels. */
  lemma RunsAreBounded(cfg: Config, states: seq<System>, acts: seq<Action>)
    requires Valid(cfg) && IsRun(cfg, states, acts)
    ensures |acts| <= 424 + 42 * Channels(cfg)
  {
    RunFalls(cfg, states, acts, |acts|);
    assert C.Rank(cfg.client, C.WaitHelo) == 20 + 2 * Channels(cfg);
    assert S.Rank(S.Start(cfg.server).pc) == 4;
  }

  // ---------------------------------------------------------------- the handshake

  /** The fields of the server before and after `initCrypto`; no effect has been made. */
  predicate Fresh(s: S.State) { !s.crypto && !s.isEnc && s.log == [] }
  predicate Secured(cfg: Config, s: S.State) { cfg.server.useEnc && s.crypto && s.isEnc && s.log == [] }

  /** Both programs encrypt, or neither does. The server decides to decrypt commands by
      its global flag and everything else by the client object's flag. */
  predicate Modes(cfg: Config, x: System) {
    && (cfg.server.useEnc && x.s.crypto <==> cfg.client.useEnc)
    && (S.SendsEncrypted(x.s) <==> cfg.client.useEnc)
    && (cfg.client.useEnc && x.c.crypto <==> cfg.client.useEnc)
    && (!cfg.client.useEnc ==> !x.s.crypto && !x.c.crypto)
  }

  /** The packets of `sendAESIv` and `sendAESKey` that the client has still to read. */
  function Parts(reader: string, secret: string, from: nat): (p: seq<Packet>)
    requires from <= 3
    ensures |p| == 3 - from
  {
    [Envelope(Some(reader), 0, ""), Envelope(Some(reader), 1, ""), Envelope(Some(reader), 2, secret)][from..]
  }

  function Envelopes(cfg: Config, isKey: bool, part: nat): seq<Packet>
    requires part <= 2
  {
    if isKey then Parts(cfg.client.pem, cfg.server.keys.key, part)
    else Parts(cfg.client.pem, cfg.server.keys.iv, part) + Parts(cfg.client.pem, cfg.server.keys.key, 0)
  }

  predicate InHandshake(pc: C.Pc) { pc.WaitHelo? || pc.WaitPub? || pc.WaitSecret? || pc.WaitRedy? }

  predicate AtPub(cfg: Config, x: System) {
    && cfg.client.useEnc && x.c.crypto
    && Up(x) == (if ServerAt(x).WaitEnc? then [Text("enc\n")] else [])
    && (|| (Fresh(x.s) && ServerAt(x).WaitEnc? && Down(x) == [])
        || (Secured(cfg, x.s) && ServerAt(x).WaitPub? && Down(x) == [PublicKey(cfg.server.pem)])
        || (!cfg.server.useEnc && Fresh(x.s) && Closing(ServerAt(x)) && Down(x) == [Text("err\n"), Text("end\n")]))
  }

  predicate AtSecret(cfg: Config, x: System, isKey: bool, part: nat, genuine: bool) {
    && cfg.client.useEnc && x.c.crypto && part <= 2
    && (|| (Secured(cfg, x.s) && ServerAt(x).WaitPub? && Up(x) == [PublicKey(cfg.client.pem)] && Down(x) == []
            && !isKey && part == 0 && genuine)
        || (Secured(cfg, x.s) && ServerAt(x).WaitRedy? && Up(x) == [] && Down(x) == Envelopes(cfg, isKey, part)
            && genuine && KeysValid(cfg.server.keys)
            && (isKey ==> x.c.keys.iv == Installed(cfg.server.keys).iv))
        || (!cfg.server.useEnc && Fresh(x.s) && Closing(ServerAt(x)) && Down(x) == []))
  }

  predicate AtRedy(cfg: Config, x: System) {
    && KeysValid(cfg.server.keys)
    && x.c.crypto == cfg.client.useEnc
    && (|| (!cfg.client.useEnc && Fresh(x.s) && ServerAt(x).WaitEnc? && Up(x) == [Text("noenc\n")] && Down(x) == [])
        || (cfg.client.useEnc && Secured(cfg, x.s) && ServerAt(x).WaitRedy?
            && Up(x) == [Text("redy\n")] && Down(x) == [] && x.c.keys == Installed(cfg.server.keys))
        || (Modes(cfg, x) && x.s.log == [] && ServerAt(x).WaitCmd? && Up(x) == [] && Down(x) == [Agreed(cfg, "redy\n")]
            && (cfg.client.useEnc ==> x.c.keys == Installed(cfg.server.keys)))
        || (cfg.client.useEnc && !cfg.server.useEnc && Fresh(x.s) && Closing(ServerAt(x)) && Down(x) == []))
  }

  predicate HandshakePhase(cfg: Config, x: System) {
    match ClientAt(x)
    case WaitHelo =>
      !x.c.crypto && Fresh(x.s) && ServerAt(x).WaitEnc? && Up(x) == [] && Down(x) == [Text("helo\n")]
    case WaitPub => AtPub(cfg, x)
    case WaitSecret(isKey, part, genuine) => AtSecret(cfg, x, isKey, part, genuine)
    case WaitRedy => AtRedy(cfg, x)
    case _ => true
  }

  /** What a successful handshake leaves behind, for good. */
  predicate Handshaken(cfg: Config, x: System) {
    && Modes(cfg, x)
    && Agreed(cfg, "redy\n") in x.byServer
    && !ServerAt(x).WaitEnc? && !ServerAt(x).WaitPub? && !ServerAt(x).WaitRedy?
    && KeysValid(cfg.server.keys)
    && (cfg.client.useEnc ==> x.c.keys == Installed(cfg.server.keys))
  }

  /** The invariant of all runs: the handshake goes through its phases, and afterwards
      two waiting programs always have a packet under way. */
  predicate Live(cfg: Config, x: System) {
    && C.PcFits(cfg.client, x.c.pc)
    && (forall p | p in x.toClient :: p in x.byServer)
    && (InHandshake(ClientAt(x)) ==> x.c.handshake.None? && HandshakePhase(cfg, x))
    && (!InHandshake(ClientAt(x)) && S.Waiting(ServerAt(x)) && C.Waiting(ClientAt(x)) ==> Up(x) != [] || Down(x) != [])
    && (x.c.handshake == Some(SUCCESS) ==> Handshaken(cfg, x))
  }

  // ---------------------------------------------------------------- preservation

  /** The server never receives without sending something back. */
  lemma ServerReplies(cfg: S.Config, st: S.State, r: RecvResult)
    requires S.Waiting(st.pc)
    ensures S.Receive(cfg, st, r).pc.Send? && |S.Outgoing(S.Receive(cfg, st, r).pc)| >= 1
  {
  }

  /** Crypto is initialised while the encryption request is answered, and never after. */
  lemma ServerKeepsMode(cfg: S.Config, st: S.State, r: RecvResult)
    requires S.Waiting(st.pc) && !st.pc.WaitEnc? && !st.pc.WaitPub? && !st.pc.WaitRedy?
    ensures var t := S.Receive(cfg, st, r); t.crypto == st.crypto && t.isEnc == st.isEnc
    ensures var pc := S.Target(S.Receive(cfg, st, r).pc); !pc.WaitEnc? && !pc.WaitPub? && !pc.WaitRedy?
  {
    if st.pc.WaitCmd? {
      MediaKeepsMode(cfg, st, r);
    }
  }

  lemma MediaKeepsMode(cfg: S.Config, st: S.State, r: RecvResult)
    ensures var t := S.OnCommand(cfg, st, r); t.crypto == st.crypto && t.isEnc == st.isEnc
    ensures var pc := S.Target(S.OnCommand(cfg, st, r).pc); pc.WaitCmd? || pc.WaitCount? || pc.Close?
  {
    assert forall s: S.State :: S.Target(S.FailPc(cfg, s)) == S.Close(true);
  }

  lemma SendKeepsLive(cfg: Config, a: Action, x: System, y: System)
    requires Valid(cfg) && Live(cfg, x) && Step(cfg, a, x, y) && (a.ServerSend? || a.ClientSend?)
    ensures Live(cfg, y)
  {
    SendsAreInvisible(cfg, a, x, y);
    assert forall p | p in y.toClient :: p in x.toClient || (a.ServerSend? && p == x.s.pc.pkt);
  }

  lemma CloseKeepsLive(cfg: Config, a: Action, x: System, y: System)
    requires Valid(cfg) && Live(cfg, x) && Step(cfg, a, x, y) && (a.ServerClose? || a.ClientClose?)
    ensures Live(cfg, y)
  {
    assert Up(y) == Up(x) && Down(y) == Down(x);
  }

  lemma AbortPending(cfg: S.Config, st: S.State, pkt: Packet)
    ensures S.Target(S.Send(pkt, S.FailPc(cfg, st))) == S.Close(true)
    ensures S.Outgoing(S.Send(pkt, S.FailPc(cfg, st))) == [pkt, S.Message(cfg, st, "end\n", st.isEnc)]
  {
    assert S.Target(S.FailPc(cfg, st)) == S.Close(true);
    assert S.Outgoing(S.FailPc(cfg, st)) == [S.Message(cfg, st, "end\n", st.isEnc)];
  }

  lemma ReplyPending(pkt: Packet, next: S.Pc)
    requires !next.Send?
    ensures S.Target(S.Send(pkt, next)) == next && S.Outgoing(S.Send(pkt, next)) == [pkt]
  {
  }

  lemma SecretsPending(cfg: S.Config, reader: string)
    ensures S.Target(S.SecretsPc(cfg, Some(reader))) == S.WaitRedy
    ensures S.Outgoing(S.SecretsPc(cfg, Some(reader))) == Parts(reader, cfg.keys.iv, 0) + Parts(reader, cfg.keys.key, 0)
  {
    var second := S.SecretPc(Some(reader), cfg.keys.key, S.WaitRedy);
    SecretPending(reader, cfg.keys.key, S.WaitRedy);
    SecretPending(reader, cfg.keys.iv, second);
    assert Parts(reader, cfg.keys.key, 0) + [] == Parts(reader, cfg.keys.key, 0);
  }

  lemma SecretPending(reader: string, secret: string, next: S.Pc)
    ensures S.Target(S.SecretPc(Some(reader), secret, next)) == S.Target(next)
    ensures S.Outgoing(S.SecretPc(Some(reader), secret, next)) == Parts(reader, secret, 0) + S.Outgoing(next)
  {
    var third := S.Send(Envelope(Some(reader), 2, secret), next);
    assert S.Target(third) == S.Target(next);
    assert S.Outgoing(third) == [Envelope(Some(reader), 2, secret)] + S.Outgoing(next);
    var second := S.Send(Envelope(Some(reader), 1, ""), third);
    assert S.Target(second) == S.Target(next);
    assert S.Outgoing(second) == [Envelope(Some(reader), 1, "")] + S.Outgoing(third);
  }

  /** Asked for encryption, the server sends its key or refuses. */
  lemma ServerAnswersEnc(cfg: Config, a: Action, x: System, y: System)
    requires Valid(cfg) && Step(cfg, a, x, y) && a.ServerRecv? && ClientAt(x).WaitPub? && AtPub(cfg, x)
    requires x.s.pc.WaitEnc?
    ensures AtPub(cfg, y) && ClientAt(y) == ClientAt(x)
  {
    hide C.Receive;
    ServerTakes(cfg, a, x, y);
    DeliversSingle(false, cfg.server.keys, "enc\n", a.r);
    AbortPending(cfg.server, x.s.(clientEnc := true), Text("err\n"));
    ReplyPending(PublicKey(cfg.server.pem), S.WaitPub);
  }

  lemma ServerAnswersNoenc(cfg: Config, a: Action, x: System, y: System)
    requires Valid(cfg) && Step(cfg, a, x, y) && a.ServerRecv? && ClientAt(x).WaitRedy? && AtRedy(cfg, x)
    requires x.s.pc.WaitEnc?
    ensures AtRedy(cfg, y) && ClientAt(y) == ClientAt(x)
  {
    hide C.Receive;
    ServerTakes(cfg, a, x, y);
    DeliversSingle(false, cfg.server.keys, "noenc\n", a.r);
    ReplyPending(Text("redy\n"), S.WaitCmd);
  }

  lemma ServerAnswersKey(cfg: Config, a: Action, x: System, y: System)
    requires Valid(cfg) && Live(cfg, x) && Step(cfg, a, x, y) && a.ServerRecv? && InHandshake(ClientAt(x))
    requires x.s.pc.WaitPub?
    ensures HandshakePhase(cfg, y)
  {
    ServerTakes(cfg, a, x, y);
    DeliversSingle(false, cfg.server.keys, cfg.client.pem, a.r);
    SecretsPending(cfg.server, cfg.client.pem);
  }

  lemma ServerAnswersRedy(cfg: Config, a: Action, x: System, y: System)
    requires Valid(cfg) && Live(cfg, x) && Step(cfg, a, x, y) && a.ServerRecv? && InHandshake(ClientAt(x))
    requires x.s.pc.WaitRedy?
    ensures HandshakePhase(cfg, y)
  {
    ServerTakes(cfg, a, x, y);
    DeliversSingle(false, cfg.server.keys, "redy\n", a.r);
    ReplyPending(Sealed(cfg.server.keys, "redy\n"), S.WaitCmd);
  }

  lemma ServerRecvInHandshake(cfg: Config, a: Action, x: System, y: System)
    requires Valid(cfg) && Live(cfg, x) && Step(cfg, a, x, y) && a.ServerRecv? && InHandshake(ClientAt(x))
    ensures HandshakePhase(cfg, y)
  {
    ServerTakes(cfg, a, x, y);
    match x.s.pc
    case WaitEnc =>
      if ClientAt(x).WaitPub? { ServerAnswersEnc(cfg, a, x, y); }
      if ClientAt(x).WaitRedy? { ServerAnswersNoenc(cfg, a, x, y); }
    case WaitPub => ServerAnswersKey(cfg, a, x, y);
    case WaitRedy => ServerAnswersRedy(cfg, a, x, y);
    case _ =>
  }

  lemma ServerRecvKeepsLive(cfg: Config, a: Action, x: System, y: System)
    requires Valid(cfg) && Live(cfg, x) && Step(cfg, a, x, y) && a.ServerRecv?
    ensures Live(cfg, y)
  {
    ServerTakes(cfg, a, x, y);
    ServerReplies(cfg.server, x.s, a.r);
    if InHandshake(ClientAt(x)) {
      ServerRecvInHandshake(cfg, a, x, y);
    }
    if x.c.handshake == Some(SUCCESS) {
      ServerKeepsMode(cfg.server, x.s, a.r);
    }
  }

  /** Where the client stands, and what it has committed itself to send, once it gives up
      or is done. */
  lemma FinishPending(cfg: C.Config, st: C.State, status: int)
    ensures C.Target(C.FinishPc(cfg, st, status)) == C.WaitBye
    ensures C.Outgoing(C.FinishPc(cfg, st, status))
         == (if status == END then [C.Message(cfg, st, "bye\n")] else []) + [C.Message(cfg, st, "end\n")]
  {
    var end := C.Send(C.Message(cfg, st, "end\n"), C.WaitBye);
    assert C.Target(end) == C.WaitBye && C.Outgoing(end) == [C.Message(cfg, st, "end\n")];
  }

  lemma ClientSends(pkt: Packet, next: C.Pc)
    requires !next.Send?
    ensures C.Target(C.Send(pkt, next)) == next && C.Outgoing(C.Send(pkt, next)) == [pkt]
  {
  }

  /** After the handshake a receive of the client changes neither its keys nor its mode,
      and it sends something unless it closes. */
  lemma ClientAfterHandshake(cfg: C.Config, st: C.State, a: C.Arrival)
    requires C.RequestValid(cfg.request) && C.PcFits(cfg, st.pc) && C.Waiting(st.pc) && !InHandshake(st.pc)
    ensures var t := C.Receive(cfg, st, a);
            && t.crypto == st.crypto && t.keys == st.keys && t.handshake == st.handshake
            && !InHandshake(C.Target(t.pc))
            && (C.Waiting(C.Target(t.pc)) ==> |C.Outgoing(t.pc)| >= 1)
  {
    FinishPending(cfg, st, SUCCESS);
    FinishPending(cfg, st, FAILURE);
    FinishPending(cfg, st, END);
  }

  lemma StartPending(cfg: C.Config, st: C.State)
    requires C.RequestValid(cfg.request)
    ensures var t := C.StartCommand(cfg, st);
            && t.crypto == st.crypto && t.keys == st.keys && t.handshake == st.handshake
            && !InHandshake(C.Target(t.pc)) && C.Waiting(C.Target(t.pc)) && |C.Outgoing(t.pc)| >= 1
  {
    FinishPending(cfg, st, SUCCESS);
  }

  lemma ClientGetsHelo(cfg: Config, a: Action, x: System, y: System)
    requires Valid(cfg) && Live(cfg, x) && Step(cfg, a, x, y) && a.ClientRecv? && x.c.pc.WaitHelo?
    ensures y.c.handshake.None? && InHandshake(ClientAt(y)) && HandshakePhase(cfg, y)
  {
    ClientTakes(cfg, a, x, y);
    assert a.k == 1;
    DeliversSingle(false, x.c.keys, "helo\n", a.r);
    ClientSends(Text("enc\n"), C.WaitPub);
    ClientSends(Text("noenc\n"), C.WaitRedy);
  }

  /** The two sends of a server that refuses encryption, read together. */
  lemma GluedRefusal(keys: Keys, r: RecvResult)
    ensures Delivers(false, keys, [Text("err\n"), Text("end\n")], r) ==> r == Got("err\nend\n")
  {
    assert [Text("err\n"), Text("end\n")][1..] == [Text("end\n")];
    assert [Text("end\n")][1..] == [];
    assert PlainText([Text("end\n")]) == Some("end\n" + "");
    assert "err\n" + ("end\n" + "") == "err\nend\n";
    assert Fits("err\nend\n");
  }

  /** A refused client fails its handshake exactly when it reads the first of the two
      refusals alone. Read in one piece they pass for a key, and the client goes on. */
  lemma ClientIsRefused(cfg: Config, a: Action, x: System, y: System)
    requires Valid(cfg) && Step(cfg, a, x, y) && a.ClientRecv? && x.c.pc.WaitPub? && x.c.handshake.None?
    requires x.c.crypto && cfg.client.useEnc && !cfg.server.useEnc && Fresh(x.s) && Closing(ServerAt(x))
    requires Down(x) == [Text("err\n"), Text("end\n")]
    ensures if InHandshake(ClientAt(y)) then y.c.handshake.None? && HandshakePhase(cfg, y)
            else y.c.handshake == Some(FAILURE) && Up(y) != []
    ensures a.k == 1 || a.k == 2
    ensures InHandshake(ClientAt(y)) <==> a.k == 2
    ensures y.c.handshake == Some(FAILURE) <==> a.k == 1
  {
    hide S.Receive, AtRedy, Modes, Delivers, Handshaken, AtPub;
    ClientTakes(cfg, a, x, y);
    ClientSends(PublicKey(cfg.client.pem), C.WaitSecret(false, 0, true));
    var fail := C.FinishPc(cfg.client, x.c, FAILURE);
    FinishPending(cfg.client, x.c, FAILURE);
    assert C.Outgoing(C.Send(Text("err\n"), fail)) == [Text("err\n")] + C.Outgoing(fail);
    DeliversSingle(false, x.c.keys, "err\n", a.r);
    GluedRefusal(x.c.keys, a.r);
    assert [Text("err\n"), Text("end\n")][..1] == [Text("err\n")];
    assert [Text("err\n"), Text("end\n")][..2] == [Text("err\n"), Text("end\n")];
  }

  lemma ClientGetsKey(cfg: Config, a: Action, x: System, y: System)
    requires Valid(cfg) && Live(cfg, x) && Step(cfg, a, x, y) && a.ClientRecv? && x.c.pc.WaitPub?
    ensures if InHandshake(ClientAt(y)) then y.c.handshake.None? && HandshakePhase(cfg, y)
            else y.c.handshake == Some(FAILURE) && Up(y) != []
  {
    hide S.Receive, Handshaken, AtRedy, Modes;
    ClientTakes(cfg, a, x, y);
    if Closing(ServerAt(x)) {
      ClientIsRefused(cfg, a, x, y);
    } else {
      ClientSends(PublicKey(cfg.client.pem), C.WaitSecret(false, 0, true));
      DeliversSingle(false, x.c.keys, cfg.server.pem, a.r);
    }
  }

  lemma NextEnvelope(cfg: Config, isKey: bool, part: nat)
    requires part <= 2
    ensures var e := Envelopes(cfg, isKey, part);
            var secret := if isKey then cfg.server.keys.key else cfg.server.keys.iv;
            && |e| >= 1 && e[..1] == [e[0]]
            && e[0] == Envelope(Some(cfg.client.pem), part, if part < 2 then "" else secret)
            && e[1..] == if part < 2 then Envelopes(cfg, isKey, part + 1)
                         else if isKey then [] else Envelopes(cfg, true, 0)
  {
    assert Parts(cfg.client.pem, cfg.server.keys.key, 3) == [];
    assert Parts(cfg.client.pem, cfg.server.keys.iv, 3) == [];
    assert forall s, from | 0 <= from < 3 ::
             Parts(cfg.client.pem, s, from) == [Parts(cfg.client.pem, s, from)[0]] + Parts(cfg.client.pem, s, from + 1);
  }

  /** A part of a secret that a server has sent for this client. */
  lemma ClientGetsPart(cfg: Config, a: Action, x: System, y: System, isKey: bool, part: nat)
    requires Valid(cfg) && Step(cfg, a, x, y) && a.ClientRecv? && x.c.pc == C.WaitSecret(isKey, part, true)
    requires x.c.handshake.None? && cfg.client.useEnc && x.c.crypto && part <= 2
    requires Secured(cfg, x.s) && ServerAt(x).WaitRedy? && Up(x) == [] && Down(x) == Envelopes(cfg, isKey, part)
    requires isKey ==> x.c.keys.iv == Installed(cfg.server.keys).iv
    ensures if InHandshake(ClientAt(y)) then y.c.handshake.None? && HandshakePhase(cfg, y)
            else y.c.handshake == Some(FAILURE) && Up(y) != []
  {
    hide S.Receive, Delivers, Modes, Fresh;
    ClientTakes(cfg, a, x, y);
    FinishPending(cfg.client, x.c, FAILURE);
    ClientSends(Text("redy\n"), C.WaitRedy);
    NextEnvelope(cfg, isKey, part);
  }

  /** A server that refuses encryption has closed without any secret. */
  lemma ClientGetsNoSecret(cfg: Config, a: Action, x: System, y: System, isKey: bool, part: nat)
    requires Valid(cfg) && Step(cfg, a, x, y) && a.ClientRecv? && x.c.pc.WaitSecret? && x.c.pc.isKey == isKey
    requires x.c.handshake.None? && cfg.client.useEnc && x.c.crypto && Down(x) == []
    requires !cfg.server.useEnc && Fresh(x.s) && Closing(ServerAt(x))
    ensures InHandshake(ClientAt(y)) && y.c.handshake.None? && HandshakePhase(cfg, y)
  {
    hide S.Receive, Delivers, Modes;
    ClientTakes(cfg, a, x, y);
    ClientSends(Text("redy\n"), C.WaitRedy);
  }

  lemma ClientGetsSecret(cfg: Config, a: Action, x: System, y: System)
    requires Valid(cfg) && Live(cfg, x) && Step(cfg, a, x, y) && a.ClientRecv? && x.c.pc.WaitSecret?
    ensures if InHandshake(ClientAt(y)) then y.c.handshake.None? && HandshakePhase(cfg, y)
            else y.c.handshake == Some(FAILURE) && Up(y) != []
  {
    hide Step, Handshaken, AtPub, AtRedy, Modes, Fresh;
    ReceiverStandsThere(cfg, a, x, y);
    if Closing(ServerAt(x)) {
      ClientGetsNoSecret(cfg, a, x, y, x.c.pc.isKey, x.c.pc.part);
    } else {
      ClientGetsPart(cfg, a, x, y, x.c.pc.isKey, x.c.pc.part);
    }
  }

  /** A client that reads stands at its point, and finds something unless the server has
      closed. */
  lemma ReceiverStandsThere(cfg: Config, a: Action, x: System, y: System)
    requires Valid(cfg) && Step(cfg, a, x, y) && a.ClientRecv?
    ensures ClientAt(x) == x.c.pc && (Down(x) == [] ==> ServerAt(x).Ended?)
  {
    hide S.Receive, C.Receive;
    ClientTakes(cfg, a, x, y);
  }

  /** With something to read, a client at the end of its handshake reads the final `redy`. */
  lemma AtFinalRedy(cfg: Config, x: System)
    requires Valid(cfg) && Live(cfg, x) && ClientAt(x).WaitRedy? && Down(x) != []
    ensures Modes(cfg, x) && x.s.log == [] && x.c.crypto == cfg.client.useEnc
    ensures ServerAt(x).WaitCmd? && Up(x) == [] && Down(x) == [Agreed(cfg, "redy\n")]
    ensures cfg.client.useEnc ==> x.c.keys == Installed(cfg.server.keys)
  {
  }

  lemma ClientGetsRedy(cfg: Config, a: Action, x: System, y: System)
    requires Valid(cfg) && Live(cfg, x) && Step(cfg, a, x, y) && a.ClientRecv? && x.c.pc.WaitRedy?
    ensures !InHandshake(ClientAt(y)) && Up(y) != []
    ensures y.c.handshake == Some(SUCCESS) ==> Handshaken(cfg, y)
  {
    hide S.Receive, HandshakePhase;
    ClientTakes(cfg, a, x, y);
    FinishPending(cfg.client, x.c, FAILURE);
    FinishPending(cfg.client, x.c, END);
    StartPending(cfg.client, x.c.(handshake := Some(SUCCESS)));
    if a.k > 0 {
      AtFinalRedy(cfg, x);
      assert Agreed(cfg, "redy\n") == x.toClient[..a.k][0] == x.toClient[0];
    }
  }

  lemma ClientRecvKeepsLive(cfg: Config, a: Action, x: System, y: System)
    requires Valid(cfg) && Live(cfg, x) && Step(cfg, a, x, y) && a.ClientRecv?
    ensures Live(cfg, y)
  {
    hide C.Receive, S.Receive, C.Rank;
    var arrival := C.Arrival(x.toClient[..a.k], a.r);
    ClientTakes(cfg, a, x, y);
    C.RankFalls(cfg.client, x.c, arrival);
    match x.c.pc
    case WaitHelo => ClientGetsHelo(cfg, a, x, y);
    case WaitPub => ClientGetsKey(cfg, a, x, y);
    case WaitSecret(_, _, _) => ClientGetsSecret(cfg, a, x, y);
    case WaitRedy => ClientGetsRedy(cfg, a, x, y);
    case _ => ClientAfterHandshake(cfg.client, x.c, arrival);
  }

  lemma StepKeepsLive(cfg: Config, a: Action, x: System, y: System)
    requires Valid(cfg) && Live(cfg, x) && Step(cfg, a, x, y)
    ensures Live(cfg, y)
  {
    match a
    case ServerSend => SendKeepsLive(cfg, a, x, y);
    case ClientSend => SendKeepsLive(cfg, a, x, y);
    case ServerClose => CloseKeepsLive(cfg, a, x, y);
    case ClientClose => CloseKeepsLive(cfg, a, x, y);
    case ServerRecv(_, _) => ServerRecvKeepsLive(cfg, a, x, y);
    case ClientRecv(_, _) => ClientRecvKeepsLive(cfg, a, x, y);
  }

  lemma {:induction false} RunsAreLive(cfg: Config, states: seq<System>, acts: seq<Action>, n: nat)
    requires Valid(cfg) && IsRun(cfg, states, acts) && n <= |acts|
    ensures Live(cfg, states[n])
  {
    if n > 0 {
      RunsAreLive(cfg, states, acts, n - 1);
      StepKeepsLive(cfg, acts[n - 1], states[n - 1], states[n]);
    }
  }

  // ---------------------------------------------------------------- no deadlock

  /** Some result is possible for every chunk. */
  function SomeResult(encrypted: bool, keys: Keys, pkts: seq<Packet>): (r: RecvResult)
    ensures Delivers(encrypted, keys, pkts, r)
  {
    if pkts == [] then if encrypted then Fail else Closed
    else if encrypted then
      if |pkts| == 1 && pkts[0].Sealed? && pkts[0].keys == keys && Fits(pkts[0].s) then Got(pkts[0].s) else Fail
    else
      var text := PlainText(pkts);
      if text.Some? && Fits(text.value) then Got(text.value) else Got("")
  }

  /** Unless both have closed, some side can move; the client need not receive before all is
      sent that either side is committed to send, nor more than one packet. */
  lemma LiveMoves(cfg: Config, x: System) returns (a: Action, y: System)
    requires Valid(cfg) && Live(cfg, x) && !BothEnded(x)
    ensures Step(cfg, a, x, y)
    ensures a.ClientRecv? ==> !x.s.pc.Send? && a.k <= 1
  {
    if x.s.pc.Send? {
      return ServerSend, x.(s := x.s.(pc := x.s.pc.next), toClient := x.toClient + [x.s.pc.pkt],
                            byServer := x.byServer + [x.s.pc.pkt]);
    } else if x.c.pc.Send? {
      return ClientSend, x.(c := x.c.(pc := x.c.pc.next), toServer := x.toServer + [x.c.pc.pkt],
                            byClient := x.byClient + [x.c.pc.pkt]);
    } else if x.s.pc.Close? {
      return ServerClose, x.(s := x.s.(pc := S.Ended(x.s.pc.failed)));
    } else if x.c.pc.Close? {
      return ClientClose, x.(c := x.c.(pc := C.Ended));
    } else if S.Waiting(x.s.pc) && (x.toServer != [] || x.c.pc.Ended?) {
      var k := if x.toServer == [] then 0 else 1;
      var r := SomeResult(S.ReceivesEncrypted(cfg.server, x.s), cfg.server.keys, x.toServer[..k]);
      return ServerRecv(k, r), x.(s := S.Receive(cfg.server, x.s, r), toServer := x.toServer[k..]);
    } else {
      var k := if x.toClient == [] then 0 else 1;
      var r := SomeResult(C.ReceivesEncrypted(cfg.client, x.c), x.c.keys, x.toClient[..k]);
      return ClientRecv(k, r), x.(c := C.Receive(cfg.client, x.c, C.Arrival(x.toClient[..k], r)),
                                  toClient := x.toClient[k..]);
    }
  }

  // ---------------------------------------------------------------- theorems

  /** No run exceeds the bound, and a run that cannot be continued has closed both sides:
      the two programs never wait for each other for ever. */
  lemma SessionTerminates(cfg: Config, states: seq<System>, acts: seq<Action>)
    requires Valid(cfg) && IsRun(cfg, states, acts)
    ensures |acts| <= 424 + 42 * Channels(cfg)
    ensures BothEnded(states[|acts|]) <==> !exists a, y :: Step(cfg, a, states[|acts|], y)
  {
    RunsAreBounded(cfg, states, acts);
    RunsAreLive(cfg, states, acts, |acts|);
    if !BothEnded(states[|acts|]) {
      var a, y := LiveMoves(cfg, states[|acts|]);
    }
  }

  /** Every run can be continued to one that closes both sides. */
  lemma SessionCompletes(cfg: Config, states: seq<System>, acts: seq<Action>)
    returns (states': seq<System>, acts': seq<Action>)
    requires Valid(cfg) && IsRun(cfg, states, acts)
    ensures IsRun(cfg, states', acts') && states <= states' && acts <= acts' && BothEnded(states'[|acts'|])
    decreases Measure(cfg, states[|acts|])
  {
    if BothEnded(states[|acts|]) {
      return states, acts;
    }
    RunsAreLive(cfg, states, acts, |acts|);
    var a, y := LiveMoves(cfg, states[|acts|]);
    StepFalls(cfg, a, states[|acts|], y);
    states', acts' := SessionCompletes(cfg, states + [y], acts + [a]);
  }

  /** The result of `serverHandshake` is final. */
  lemma StepKeepsHandshake(cfg: Config, a: Action, x: System, y: System)
    requires Valid(cfg) && Live(cfg, x) && Step(cfg, a, x, y) && x.c.handshake.Some?
    ensures y.c.handshake == x.c.handshake
  {
    if a.ClientRecv? {
      ClientTakes(cfg, a, x, y);
      ClientAfterHandshake(cfg.client, x.c, C.Arrival(x.toClient[..a.k], a.r));
    }
  }

  /** Once the client's handshake has succeeded, and in every later state of the run, the
      server has sent its final `redy` and both programs send and receive in one mode. */
  lemma {:induction false} HandshakeAgrees(cfg: Config, states: seq<System>, acts: seq<Action>, i: nat, j: nat)
    requires Valid(cfg) && IsRun(cfg, states, acts) && i <= j <= |acts|
    requires states[i].c.handshake == Some(SUCCESS)
    ensures Agreed(cfg, "redy\n") in states[j].byServer
    ensures Modes(cfg, states[j])
    decreases j - i
  {
    RunsAreLive(cfg, states, acts, i);
    if i < j {
      StepKeepsHandshake(cfg, acts[i], states[i], states[i + 1]);
      HandshakeAgrees(cfg, states, acts, i + 1, j);
    }
  }

  /** After the key exchange the client holds the server's key and vector exactly when in
      each of them no other byte follows a zero byte. */
  lemma KeysAgreeExactly(cfg: Config, states: seq<System>, acts: seq<Action>, i: nat)
    requires Valid(cfg) && IsRun(cfg, states, acts) && i <= |acts| && cfg.client.useEnc && cfg.server.useEnc
    requires ClientAt(states[i]).WaitRedy? || states[i].c.handshake == Some(SUCCESS)
    ensures states[i].c.keys == cfg.server.keys
       <==> ZeroTailed(cfg.server.keys.key) && ZeroTailed(cfg.server.keys.iv)
  {
    RunsAreLive(cfg, states, acts, i);
    InstalledExact(cfg.server.keys);
  }
}
