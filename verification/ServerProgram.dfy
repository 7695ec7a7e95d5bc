/** The child process that `alsa-server` forks for a connection: `clientHandshake`, then
    `processCommand` until it fails or the client ends the session, then close.

    The program is first given as a state machine whose steps are single sends, receives
    and closes, so that it can be interleaved with a client. The class Session below is
    the program itself, with the control flow of the source; its methods are proved to
    perform exactly the machine's run. */
module ServerProgram {
  import opened Wrappers
  import opened Constants
  import opened CText
  import opened SessionKeys
  import opened VolumeCommand
  import opened Wire

  const XF86AudioPlay := 0x1008ff14
  const XF86AudioNext := 0x1008ff17
  const XF86AudioPrev := 0x1008ff16

  /** What the server does to its machine. */
  datatype Effect = MediaKey(key: int) | SetVolume(channel: string, left: int, right: int)

  /** The command-line flag, the process's key material, and the environment: outcome(k)
      says whether the k-th effect of the session succeeds. */
  datatype Config = Config(useEnc: bool, keys: Keys, pem: string, outcome: nat -> bool)

  /** Program points. Send holds a packet about to be sent and the point after it. */
  datatype Pc =
    | Send(pkt: Packet, next: Pc)
    | WaitEnc
    | WaitPub
    | WaitRedy
    | WaitCmd
    | WaitCount
    | WaitArg(i: nat, n: int)
    | Close(failed: bool)
    | Ended(failed: bool)

  /** The program point, the globals and the fields of the `Client` object. */
  datatype State = State(pc: Pc, clientEnc: bool, isEnc: bool, crypto: bool,
                         peerPem: Option<string>, log: seq<Effect>)

  predicate Waiting(pc: Pc) { !pc.Send? && !pc.Close? && !pc.Ended? }

  /** The program has been through its catch block. */
  predicate Failed(pc: Pc) { pc == Close(true) || pc == Ended(true) }

  function Target(pc: Pc): Pc { if pc.Send? then Target(pc.next) else pc }

  function Outgoing(pc: Pc): seq<Packet> { if pc.Send? then [pc.pkt] + Outgoing(pc.next) else [] }

  /** `Client::send` with the given flag. */
  function Message(cfg: Config, st: State, s: string, flag: bool): Packet {
    if flag && st.crypto then Sealed(cfg.keys, s) else Text(s)
  }

  /** The mode of the `receive` at a waiting point: the commands are read with the
      global `useEnc`, everything inside a volume command with `isEnc()`. */
  predicate ReceivesEncrypted(cfg: Config, st: State) {
    match st.pc
    case WaitCmd => cfg.useEnc && st.crypto
    case WaitCount => st.isEnc && st.crypto
    case WaitArg(_, _) => st.isEnc && st.crypto
    case _ => false
  }

  predicate SendsEncrypted(st: State) { st.isEnc && st.crypto }

  function Start(cfg: Config): State {
    State(Send(Text("helo\n"), WaitEnc), false, false, false, None, [])
  }

  // ---------------------------------------------------------------- the steps

  /** The catch block of main: send `end`, then close. */
  function FailPc(cfg: Config, st: State): Pc {
    Send(Message(cfg, st, "end\n", st.isEnc), Close(true))
  }

  function Abort(cfg: Config, st: State): State { st.(pc := FailPc(cfg, st)) }

  function Reply(cfg: Config, st: State, s: string, next: Pc): State {
    st.(pc := Send(Message(cfg, st, s, st.isEnc), next))
  }

  function OnEncReply(cfg: Config, st: State, r: RecvResult): State {
    if r == Got("enc\n") then
      var st1 := st.(clientEnc := true);
      if !cfg.useEnc then st1.(pc := Send(Text("err\n"), FailPc(cfg, st1)))
      else st1.(crypto := true, isEnc := true, pc := Send(PublicKey(cfg.pem), WaitPub))
    else if r == Got("noenc\n") then
      Reply(cfg, st.(clientEnc := false), "redy\n", WaitCmd)
    else Abort(cfg, st)
  }

  /** The three sends of `sendAESIv`, and of `sendAESKey`. */
  function SecretPc(reader: Option<string>, secret: string, next: Pc): Pc {
    Send(Envelope(reader, 0, ""), Send(Envelope(reader, 1, ""), Send(Envelope(reader, 2, secret), next)))
  }

  function SecretsPc(cfg: Config, reader: Option<string>): Pc {
    SecretPc(reader, cfg.keys.iv, SecretPc(reader, cfg.keys.key, WaitRedy))
  }

  /** A connection closed at this point makes `receiveRemotePubKey` return END, which the
      caller does not take for a failure. */
  function OnPublicKey(cfg: Config, st: State, r: RecvResult): State {
    match r
    case Fail => st.(pc := Send(Text("err\n"), FailPc(cfg, st)))
    case Closed => st.(pc := SecretsPc(cfg, st.peerPem))
    case Got(s) =>
      if s == "err\n" then st.(pc := Send(Text("err\n"), FailPc(cfg, st)))
      else st.(peerPem := Some(s), pc := SecretsPc(cfg, Some(s)))
  }

  function OnRedy(cfg: Config, st: State, r: RecvResult): State {
    if r == Got("redy\n") then Reply(cfg, st, "redy\n", WaitCmd) else Abort(cfg, st)
  }

  /** The key of a media command and the reply that confirms it. The branch meant for
      `stop` repeats the test for `prev` and so is never taken. */
  function MediaCommand(s: string): Option<(int, string)> {
    if s == "play\n" then Some((XF86AudioPlay, "ok\n"))
    else if s == "next\n" then Some((XF86AudioNext, "ok\n"))
    else if s == "prev\n" then Some((XF86AudioPrev, "prev\n"))
    else None
  }

  function OnMedia(cfg: Config, st: State, key: int, confirmation: string): State {
    var st1 := st.(log := st.log + [MediaKey(key)]);
    if cfg.outcome(|st.log|) then Reply(cfg, st1, confirmation, WaitCmd)
    else Reply(cfg, st1, "err\n", FailPc(cfg, st1))
  }

  /** `processCommand` up to its first reply. */
  function OnCommand(cfg: Config, st: State, r: RecvResult): State {
    if !r.Got? then Abort(cfg, st)
    else if r.s == "end\n" then Reply(cfg, st, "bye\n", Close(false))
    else if r.s == "vol\n" then Reply(cfg, st, "ok\n", WaitCount)
    else match MediaCommand(r.s)
      case Some((key, confirmation)) => OnMedia(cfg, st, key, confirmation)
      case None => Reply(cfg, st, "err\n", FailPc(cfg, st))
  }

  /** The test of the volume loop. */
  function LoopPc(i: nat, n: int): Pc { if i < n then WaitArg(i, n) else WaitCmd }

  function OnCount(cfg: Config, st: State, r: RecvResult): State {
    if !r.Got? then Abort(cfg, st) else Reply(cfg, st, "ok\n", LoopPc(0, Atoi(r.s)))
  }

  /** `parseVolCommand` and `changeVolume`: the new log, and whether it returned SUCCESS. */
  function ChangeVolume(cfg: Config, log: seq<Effect>, arg: string): (seq<Effect>, bool) {
    match ParseVolCommand(arg)
    case Call(channel, left, right) => (log + [SetVolume(channel, left, right)], cfg.outcome(|log|))
    case _ => (log, false)
  }

  function OnArgument(cfg: Config, st: State, r: RecvResult): State
    requires st.pc.WaitArg?
  {
    if !r.Got? then Abort(cfg, st) else
    var (log, ok) := ChangeVolume(cfg, st.log, r.s);
    Reply(cfg, st.(log := log), if ok then "ok\n" else "err\n", LoopPc(st.pc.i + 1, st.pc.n))
  }

  function Receive(cfg: Config, st: State, r: RecvResult): State
    requires Waiting(st.pc)
  {
    match st.pc
    case WaitEnc => OnEncReply(cfg, st, r)
    case WaitPub => OnPublicKey(cfg, st, r)
    case WaitRedy => OnRedy(cfg, st, r)
    case WaitCmd => OnCommand(cfg, st, r)
    case WaitCount => OnCount(cfg, st, r)
    case WaitArg(_, _) => OnArgument(cfg, st, r)
  }

  // ---------------------------------------------------------------- whole runs

  /** An upper bound on the steps the program takes before it next needs its client. */
  function Rank(pc: Pc): nat {
    match pc
    case Send(_, next) => 1 + Rank(next)
    case Ended(_) => 0
    case Close(_) => 1
    case WaitPub => 10
    case _ => 3
  }

  /** What `receive` reports once the client has gone. */
  function Gone(cfg: Config, st: State): RecvResult {
    if ReceivesEncrypted(cfg, st) then Fail else Closed
  }

  lemma RankOfReply(cfg: Config, st: State, pkt: Packet, next: Pc)
    ensures Rank(Abort(cfg, st).pc) == 2
    ensures Rank(Send(pkt, next)) == 1 + Rank(next)
    ensures Rank(Send(pkt, FailPc(cfg, st))) == 3
  {
    assert Rank(FailPc(cfg, st)) == 2;
  }

  lemma RankOfMedia(cfg: Config, st: State, key: int, confirmation: string)
    ensures Rank(OnMedia(cfg, st, key, confirmation).pc) <= 4
  {
    var st1 := st.(log := st.log + [MediaKey(key)]);
    RankOfReply(cfg, st1, Message(cfg, st1, "err\n", st.isEnc), WaitCmd);
  }

  lemma RankOfCommand(cfg: Config, st: State, r: RecvResult)
    ensures Rank(OnCommand(cfg, st, r).pc) <= 4
    ensures !r.Got? ==> Rank(OnCommand(cfg, st, r).pc) == 2
  {
    RankOfReply(cfg, st, Message(cfg, st, "err\n", st.isEnc), WaitCmd);
    if r.Got? && MediaCommand(r.s).Some? {
      RankOfMedia(cfg, st, MediaCommand(r.s).value.0, MediaCommand(r.s).value.1);
    }
  }

  lemma RankOfSecret(reader: Option<string>, secret: string, next: Pc)
    ensures Rank(SecretPc(reader, secret, next)) == 3 + Rank(next)
  {
    assert Rank(SecretPc(reader, secret, next).next) == 2 + Rank(next);
  }

  lemma RankOfSecrets(cfg: Config, reader: Option<string>)
    ensures Rank(SecretsPc(cfg, reader)) == 9
  {
    RankOfSecret(reader, cfg.keys.key, WaitRedy);
    RankOfSecret(reader, cfg.keys.iv, SecretPc(reader, cfg.keys.key, WaitRedy));
  }

  lemma RankFalls(cfg: Config, st: State, r: RecvResult)
    requires Waiting(st.pc)
    ensures Rank(Receive(cfg, st, r).pc) <= 11
    ensures !r.Got? ==> Rank(Receive(cfg, st, r).pc) < Rank(st.pc)
  {
    RankOfReply(cfg, st, Text("err\n"), WaitCmd);
    match st.pc
    case WaitPub =>
      RankOfSecrets(cfg, st.peerPem);
      if r.Got? { RankOfSecrets(cfg, Some(r.s)); }
    case WaitCmd => RankOfCommand(cfg, st, r);
    case WaitEnc => RankOfReply(cfg, st.(clientEnc := true), Text("err\n"), WaitCmd);
    case _ =>
  }

  /** The program alone: its receives return the results of the script and then report a
      closed connection. The result is its last state and everything it sent. */
  function Run(cfg: Config, st: State, sent: seq<Packet>, script: seq<RecvResult>): (State, seq<Packet>)
    decreases |script|, Rank(st.pc)
  {
    match st.pc
    case Ended(_) => (st, sent)
    case Close(failed) => Run(cfg, st.(pc := Ended(failed)), sent, script)
    case Send(pkt, next) => Run(cfg, st.(pc := next), sent + [pkt], script)
    case _ =>
      if script != [] then Run(cfg, Receive(cfg, st, script[0]), sent, script[1..])
      else
        RankFalls(cfg, st, Gone(cfg, st));
        Run(cfg, Receive(cfg, st, Gone(cfg, st)), sent, script)
  }

  lemma RunCloses(cfg: Config, st: State, sent: seq<Packet>, script: seq<RecvResult>)
    requires st.pc.Close?
    ensures Run(cfg, st, sent, script) == (st.(pc := Ended(st.pc.failed)), sent)
  {
    var done := st.(pc := Ended(st.pc.failed));
    assert Run(cfg, done, sent, script) == (done, sent);
  }

  // ---------------------------------------------------------------- the program

  class Session {
    const cfg: Config
    // The globals and the `Client` object's fields.
    var clientEnc: bool
    var isEnc: bool
    var crypto: bool
    var peerPem: Option<string>
    // The world outside: results still to be received, packets sent, effects made.
    var script: seq<RecvResult>
    var sent: seq<Packet>
    var log: seq<Effect>

    ghost function At(pc: Pc): State
      reads this
    {
      State(pc, clientEnc, isEnc, crypto, peerPem, log)
    }

    /** Everything still to come when the program stands at pc. */
    ghost function Rest(pc: Pc): (State, seq<Packet>)
      reads this
    {
      Run(cfg, At(pc), sent, script)
    }

    constructor (cfg: Config, script: seq<RecvResult>)
      ensures this.cfg == cfg && this.script == script && sent == []
      ensures At(Send(Text("helo\n"), WaitEnc)) == Start(cfg)
    {
      this.cfg, this.script := cfg, script;
      clientEnc, isEnc, crypto := false, false, false;
      peerPem, sent, log := None, [], [];
    }

    method SendPacket(pkt: Packet, ghost next: Pc)
      modifies this`sent
      ensures sent == old(sent) + [pkt]
      ensures Rest(next) == old(Rest(Send(pkt, next)))
    {
      sent := sent + [pkt];
    }

    /** `client.send(data, flag)`. */
    method SendData(data: string, flag: bool, ghost next: Pc)
      modifies this`sent
      ensures sent == old(sent) + [Message(cfg, At(next), data, flag)]
      ensures Rest(next) == old(Rest(Send(Message(cfg, At(next), data, flag), next)))
    {
      SendPacket(if flag && crypto then Sealed(cfg.keys, data) else Text(data), next);
    }

    /** `client.receive(&reply, flag)` at the waiting point pc. */
    method ReceiveData(flag: bool, ghost pc: Pc) returns (r: RecvResult)
      requires Waiting(pc) && (flag && crypto <==> ReceivesEncrypted(cfg, At(pc)))
      modifies this`script
      ensures |script| < old(|script|) || (script == old(script) && r == Gone(cfg, At(pc)))
      ensures Run(cfg, Receive(cfg, At(pc), r), sent, script) == old(Rest(pc))
    {
      if script == [] {
        r := if flag && crypto then Fail else Closed;
      } else {
        r := script[0];
        script := script[1..];
      }
    }

    method InitCrypto() returns (status: int)
      modifies this`crypto, this`isEnc
      ensures old(crypto) ==> status == FAILURE && crypto == old(crypto) && isEnc == old(isEnc)
      ensures !old(crypto) ==> status == SUCCESS && crypto && isEnc
    {
      if crypto { return FAILURE; }
      crypto, isEnc := true, true;
      return SUCCESS;
    }

    method ReceiveRemotePubKey() returns (status: int)
      modifies this`script, this`peerPem
      ensures |script| <= old(|script|)
      ensures status == FAILURE ==> peerPem == old(peerPem)
      ensures status == FAILURE ==> Rest(Send(Text("err\n"), FailPc(cfg, At(WaitPub)))) == old(Rest(WaitPub))
      ensures status != FAILURE ==> Rest(SecretsPc(cfg, peerPem)) == old(Rest(WaitPub))
    {
      var r := ReceiveData(false, WaitPub);
      match r
      case Fail => return FAILURE;
      case Closed => return END;
      case Got(pubKey) =>
        if pubKey == "err\n" { return FAILURE; }
        peerPem := Some(pubKey);
        return SUCCESS;
    }

    /** `sendAESIv` and `sendAESKey` differ in the secret alone. */
    method SendSecret(secret: string, ghost next: Pc)
      modifies this`sent
      ensures Rest(next) == old(Rest(SecretPc(peerPem, secret, next)))
    {
      SendPacket(Envelope(peerPem, 0, ""), Send(Envelope(peerPem, 1, ""), Send(Envelope(peerPem, 2, secret), next)));
      SendPacket(Envelope(peerPem, 1, ""), Send(Envelope(peerPem, 2, secret), next));
      SendPacket(Envelope(peerPem, 2, secret), next);
    }

    /** Where main continues after a status: its catch block, its close, or its loop. */
    ghost function After(status: int): Pc
      reads this
    {
      if status == FAILURE then FailPc(cfg, At(WaitCmd)) else if status == END then Close(false) else WaitCmd
    }

    /** The part of `clientHandshake` for a client that wants encryption. */
    method ExchangeKeys() returns (status: int)
      requires !crypto
      modifies this
      ensures status == SUCCESS || status == FAILURE
      ensures |script| <= old(|script|)
      ensures Rest(if status == FAILURE then After(FAILURE)
                   else Send(Message(cfg, At(WaitCmd), "redy\n", isEnc), WaitCmd))
           == old(Run(cfg, At(WaitEnc).(crypto := true, isEnc := true, pc := Send(PublicKey(cfg.pem), WaitPub)),
                      sent, script))
    {
      hide OnCommand, OnCount, OnArgument;
      var _ := InitCrypto();
      SendPacket(PublicKey(cfg.pem), WaitPub);
      var got := ReceiveRemotePubKey();
      if got == FAILURE {
        SendData("err\n", false, FailPc(cfg, At(WaitCmd)));
        return FAILURE;
      }
      SendSecret(cfg.keys.iv, SecretPc(peerPem, cfg.keys.key, WaitRedy));
      SendSecret(cfg.keys.key, WaitRedy);
      var r := ReceiveData(false, WaitRedy);
      return if r != Got("redy\n") then FAILURE else SUCCESS;
    }

    method ClientHandshake() returns (status: int)
      requires At(WaitEnc).(pc := Start(cfg).pc) == Start(cfg)
      modifies this
      ensures status == SUCCESS || status == FAILURE
      ensures |script| <= old(|script|)
      ensures Rest(After(status)) == old(Rest(Start(cfg).pc))
    {
      hide OnCommand, OnCount, OnArgument, OnPublicKey, OnRedy;
      SendData("helo\n", false, WaitEnc);
      var r := ReceiveData(false, WaitEnc);
      if r == Got("enc\n") {
        clientEnc := true;
      } else if r == Got("noenc\n") {
        clientEnc := false;
      } else {
        return FAILURE;
      }

      if !cfg.useEnc && clientEnc {
        SendData("err\n", false, FailPc(cfg, At(WaitCmd)));
        return FAILURE;
      }

      if clientEnc {
        var exchanged := ExchangeKeys();
        if exchanged == FAILURE { return FAILURE; }
      }

      SendData("redy\n", isEnc, WaitCmd);
      return SUCCESS;
    }

    /** A media key press; the environment decides its outcome. */
    method SendMediaKey(key: int) returns (ok: bool)
      modifies this`log
      ensures log == old(log) + [MediaKey(key)] && ok == cfg.outcome(|old(log)|)
    {
      ok := cfg.outcome(|log|);
      log := log + [MediaKey(key)];
    }

    /** `parseVolCommand(reply) == SUCCESS`, with the call to `changeVolume`. */
    method ParseVol(command: string) returns (ok: bool)
      modifies this`log
      ensures (log, ok) == ChangeVolume(cfg, old(log), command)
    {
      ParserTotal(command);
      match ParseVolCommand(command)
      case Call(channel, left, right) =>
        ok := cfg.outcome(|log|);
        log := log + [SetVolume(channel, left, right)];
      case ParseError => ok := false;
    }

    method MediaBranch(key: int, confirmation: string, ghost st: State) returns (status: int)
      requires st == At(WaitCmd)
      modifies this`log, this`sent
      ensures status == SUCCESS || status == FAILURE
      ensures Rest(After(status)) == old(Run(cfg, OnMedia(cfg, st, key, confirmation), sent, script))
    {
      var ok := SendMediaKey(key);
      if ok {
        SendData(confirmation, isEnc, WaitCmd);
        return SUCCESS;
      } else {
        SendData("err\n", isEnc, FailPc(cfg, At(WaitCmd)));
        return FAILURE;
      }
    }

    /** The body of the volume loop. */
    method OneChannel(i: nat, numChannels: int) returns (status: int)
      modifies this`script, this`log, this`sent
      ensures status == SUCCESS || status == FAILURE
      ensures |script| <= old(|script|)
      ensures Rest(if status == FAILURE then After(FAILURE) else LoopPc(i + 1, numChannels))
           == old(Rest(WaitArg(i, numChannels)))
    {
      hide ParseVolCommand, OnCommand, OnEncReply, OnPublicKey, OnRedy, OnCount;
      var r := ReceiveData(isEnc, WaitArg(i, numChannels));
      if !r.Got? { return FAILURE; }
      ghost var next, st := LoopPc(i + 1, numChannels), At(WaitArg(i, numChannels));
      var ok := ParseVol(r.s);
      var answer := if ok then "ok\n" else "err\n";
      assert OnArgument(cfg, st, r) == At(Send(Message(cfg, At(next), answer, isEnc), next));
      SendData(answer, isEnc, next);
      return SUCCESS;
    }

    method VolumeLoop(numChannels: int) returns (status: int)
      modifies this`script, this`log, this`sent
      ensures status == SUCCESS || status == FAILURE
      ensures |script| <= old(|script|)
      ensures Rest(After(status)) == old(Rest(LoopPc(0, numChannels)))
    {
      var i := 0;
      status := SUCCESS;
      while i < numChannels
        invariant |script| <= old(|script|)
        invariant Rest(LoopPc(i, numChannels)) == old(Rest(LoopPc(0, numChannels)))
      {
        status := OneChannel(i, numChannels);
        if status == FAILURE { return; }
        i := i + 1;
      }
      return SUCCESS;
    }

    method VolumeBranch() returns (status: int)
      modifies this`script, this`log, this`sent
      ensures status == SUCCESS || status == FAILURE
      ensures |script| <= old(|script|)
      ensures Rest(After(status)) == old(Run(cfg, Reply(cfg, At(WaitCmd), "ok\n", WaitCount), sent, script))
    {
      SendData("ok\n", isEnc, WaitCount);
      var r := ReceiveData(isEnc, WaitCount);
      if !r.Got? { return FAILURE; }
      var numChannels := Atoi(r.s);
      SendData("ok\n", isEnc, LoopPc(0, numChannels));
      status := VolumeLoop(numChannels);
    }

    method ProcessCommand() returns (status: int)
      modifies this`script, this`log, this`sent
      ensures status == SUCCESS || status == FAILURE || status == END
      ensures status == SUCCESS ==> |script| < |old(script)|
      ensures Rest(After(status)) == old(Rest(WaitCmd))
    {
      var r := ReceiveData(cfg.useEnc, WaitCmd);
      if !r.Got? { return FAILURE; }
      if r.s == "end\n" {
        SendData("bye\n", isEnc, Close(false));
        return END;
      } else if r.s == "play\n" {
        status := MediaBranch(XF86AudioPlay, "ok\n", At(WaitCmd));
      } else if r.s == "next\n" {
        status := MediaBranch(XF86AudioNext, "ok\n", At(WaitCmd));
      } else if r.s == "prev\n" {
        status := MediaBranch(XF86AudioPrev, "prev\n", At(WaitCmd));
      } else if r.s == "vol\n" {
        status := VolumeBranch();
      } else {
        SendData("err\n", isEnc, FailPc(cfg, At(WaitCmd)));
        return FAILURE;
      }
    }

    /** The child's part of main. */
    method Serve() returns (failed: bool)
      requires sent == [] && At(Start(cfg).pc) == Start(cfg)
      modifies this
      ensures (At(Ended(failed)), sent) == Run(cfg, Start(cfg), [], old(script))
    {
      ghost var whole := Run(cfg, Start(cfg), [], script);
      var status := ClientHandshake();
      while status == SUCCESS
        invariant status == SUCCESS || status == FAILURE || status == END
        invariant Rest(After(status)) == whole
        decreases if status == SUCCESS then |script| + 1 else 0
      {
        status := ProcessCommand();
      }
      failed := status == FAILURE;
      if failed {
        SendData("end\n", isEnc, Close(true));
      }
      RunCloses(cfg, At(Close(failed)), sent, script);
    }
  }
}
