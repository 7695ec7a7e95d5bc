/** The command-line client and the server child process, interleaved step by step over
    two queues. */
module Protocol {
  import opened SessionKeys
  import opened Wire
  import S = ServerProgram
  import C = ClientProgram

  datatype Config = Config(server: S.Config, client: C.Config)

  /** A public key in PEM form, "-----BEGIN PUBLIC KEY-----" and so on. */
  predicate IsPem(pem: string) { Fits(pem) && pem[0] == '-' }

  /** Keys have their lengths, and every volume argument fits the receive buffer. */
  predicate Valid(cfg: Config) {
    && KeysValid(cfg.server.keys) && KeysValid(cfg.client.keys)
    && IsPem(cfg.server.pem) && IsPem(cfg.client.pem)
    && C.RequestValid(cfg.client.request)
    && (cfg.client.request.Volume? ==>
          forall i | 0 <= i < |cfg.client.request.channels| :: Fits(C.Argument(cfg.client.request, i)))
  }

  /** Both programs, the packets under way, and everything each side has ever sent. A
      packet queued for a side that has closed is never read. */
  datatype System = System(s: S.State, c: C.State, toServer: seq<Packet>, toClient: seq<Packet>,
                           byServer: seq<Packet>, byClient: seq<Packet>)

  function Init(cfg: Config): System {
    System(S.Start(cfg.server), C.Start(cfg.client), [], [], [], [])
  }

  datatype Action =
    | ServerSend | ServerRecv(k: nat, r: RecvResult) | ServerClose
    | ClientSend | ClientRecv(k: nat, r: RecvResult) | ClientClose

  predicate Step(cfg: Config, a: Action, x: System, y: System)
    requires Valid(cfg)
  {
    match a
    case ServerSend =>
      x.s.pc.Send? && y == x.(s := x.s.(pc := x.s.pc.next),
                              toClient := x.toClient + [x.s.pc.pkt], byServer := x.byServer + [x.s.pc.pkt])
    case ClientSend =>
      x.c.pc.Send? && y == x.(c := x.c.(pc := x.c.pc.next),
                              toServer := x.toServer + [x.c.pc.pkt], byClient := x.byClient + [x.c.pc.pkt])
    case ServerClose =>
      x.s.pc.Close? && y == x.(s := x.s.(pc := S.Ended(x.s.pc.failed)))
    case ClientClose =>
      x.c.pc.Close? && y == x.(c := x.c.(pc := C.Ended))
    case ServerRecv(k, r) =>
      && S.Waiting(x.s.pc)
      && Takes(x.toServer, k, x.c.pc.Ended?)
      && Delivers(S.ReceivesEncrypted(cfg.server, x.s), cfg.server.keys, x.toServer[..k], r)
      && y == x.(s := S.Receive(cfg.server, x.s, r), toServer := x.toServer[k..])
    case ClientRecv(k, r) =>
      && C.Waiting(x.c.pc) && C.PcFits(cfg.client, x.c.pc)
      && Takes(x.toClient, k, x.s.pc.Ended?)
      && Delivers(C.ReceivesEncrypted(cfg.client, x.c), x.c.keys, x.toClient[..k], r)
      && y == x.(c := C.Receive(cfg.client, x.c, C.Arrival(x.toClient[..k], r)), toClient := x.toClient[k..])
  }

  predicate BothEnded(x: System) { x.s.pc.Ended? && x.c.pc.Ended? }

  /** A run from the start: the states passed through and the actions between them. */
  predicate IsRun(cfg: Config, states: seq<System>, acts: seq<Action>)
    requires Valid(cfg)
  {
    && |states| == |acts| + 1
    && states[0] == Init(cfg)
    && forall i | 0 <= i < |acts| :: Step(cfg, acts[i], states[i], states[i + 1])
  }

  // ---------------------------------------------------------------- the pending view

  // What a program is committed to sending counts as under way, and the program as
  // standing where it stands after those sends. Sends then change nothing.

  function ServerAt(x: System): S.Pc { S.Target(x.s.pc) }

  function ClientAt(x: System): C.Pc { C.Target(x.c.pc) }

  function Up(x: System): seq<Packet> { x.toServer + C.Outgoing(x.c.pc) }

  function Down(x: System): seq<Packet> { x.toClient + S.Outgoing(x.s.pc) }

  predicate Closing(pc: S.Pc) { pc.Close? || pc.Ended? }

  /** A message as both sides of an agreed session encode it. */
  function Agreed(cfg: Config, s: string): Packet {
    if cfg.client.useEnc then Sealed(cfg.server.keys, s) else Text(s)
  }

  lemma SendsAreInvisible(cfg: Config, a: Action, x: System, y: System)
    requires Valid(cfg) && Step(cfg, a, x, y) && (a.ServerSend? || a.ClientSend?)
    ensures ServerAt(y) == ServerAt(x) && ClientAt(y) == ClientAt(x) && Up(y) == Up(x) && Down(y) == Down(x)
  {
    if a.ServerSend? {
      assert Down(y) == x.toClient + ([x.s.pc.pkt] + S.Outgoing(x.s.pc.next));
    } else {
      assert Up(y) == x.toServer + ([x.c.pc.pkt] + C.Outgoing(x.c.pc.next));
    }
  }

  /** A receive by the server, in the pending view. */
  lemma ServerTakes(cfg: Config, a: Action, x: System, y: System)
    requires Valid(cfg) && Step(cfg, a, x, y) && a.ServerRecv?
    ensures ServerAt(x) == x.s.pc && ClientAt(y) == ClientAt(x)
    ensures Down(y) == Down(x) + S.Outgoing(y.s.pc)
    ensures Up(x) != [] ==> a.k >= 1
    ensures a.k <= |Up(x)| && x.toServer[..a.k] == Up(x)[..a.k] && Up(y) == Up(x)[a.k..]
    ensures Up(x) == [] ==> a.k == 0 && ClientAt(x).Ended? && Up(y) == []
    ensures |Up(x)| == 1 && a.k >= 1 ==> a.k == 1 && x.toServer[..1] == Up(x) && Up(y) == []
  {
    hide C.Receive, S.Receive, Delivers;
    if a.k >= 1 && |Up(x)| == 1 {
      assert x.toServer == Up(x) && C.Outgoing(x.c.pc) == [];
    }
  }

  /** A receive by the client, in the pending view. */
  lemma ClientTakes(cfg: Config, a: Action, x: System, y: System)
    requires Valid(cfg) && Step(cfg, a, x, y) && a.ClientRecv?
    ensures ClientAt(x) == x.c.pc && ServerAt(y) == ServerAt(x)
    ensures Up(y) == Up(x) + C.Outgoing(y.c.pc)
    ensures a.k == 0 ==> x.toClient[..0] == [] && ServerAt(x).Ended? && Down(x) == [] && Down(y) == []
    ensures Down(x) == [] ==> a.k == 0
    ensures a.k <= |Down(x)| && x.toClient[..a.k] == Down(x)[..a.k] && Down(y) == Down(x)[a.k..]
    ensures |Down(x)| >= 1 && (Down(x)[0].Envelope? || Down(x)[0].PublicKey?) && a.k >= 1 ==> a.k == 1
  {
    hide C.Receive, S.Receive, Delivers;
    assert forall i | 0 <= i < a.k :: x.toClient[..a.k][i] == x.toClient[i];
    if a.k > 1 {
      assert x.toClient[..a.k][0] in x.toClient[..a.k];
    }
  }
}
