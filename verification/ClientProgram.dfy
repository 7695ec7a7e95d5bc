/** The command-line client `alsa-client`: `serverHandshake`, one command, then the
    exchange of `end` and `bye`. As for the server, a state machine first, then the
    program with the control flow of the source, proved to perform the machine's run. */
module ClientProgram {
  import opened Wrappers
  import opened Constants
  import opened CText
  import opened SessionKeys
  import opened VolumeCommand
  import opened Wire

  datatype MediaCmd = Play | Next | Prev

  datatype Request = Volume(channels: seq<string>, vols: seq<string>) | Media(cmd: MediaCmd) | Nothing

  /** The command line, the client's own fresh key material, and the environment: whether
      `rsaDecrypt` opens a genuine envelope with the vector, and one with the key. */
  datatype Config = Config(useEnc: bool, request: Request, keys: Keys, pem: string, opensIv: bool, opensKey: bool)

  datatype Pc =
    | Send(pkt: Packet, next: Pc)
    | WaitHelo
    | WaitPub
    | WaitSecret(isKey: bool, part: nat, genuine: bool)
    | WaitRedy
    | WaitVolOk
    | WaitCountOk
    | WaitVolReply(i: nat)
    | WaitMedia
    | WaitBye
    | Close
    | Ended

  datatype State = State(pc: Pc, crypto: bool, keys: Keys, handshake: Option<int>, command: Option<int>)

  /** What one `recv` took from the connection, and what `receive` made of it. */
  datatype Arrival = Arrival(pkts: seq<Packet>, r: RecvResult)

  /** What main checks before it connects: as many volumes as channels, and not none. */
  predicate RequestValid(request: Request) {
    request.Volume? ==> 1 <= |request.channels| == |request.vols| <= INT_MAX
  }

  predicate Waiting(pc: Pc) { !pc.Send? && !pc.Close? && !pc.Ended? }

  function Target(pc: Pc): Pc { if pc.Send? then Target(pc.next) else pc }

  function Outgoing(pc: Pc): seq<Packet> { if pc.Send? then [pc.pkt] + Outgoing(pc.next) else [] }

  /** `client.send(s, useEnc)`. */
  function Message(cfg: Config, st: State, s: string): Packet {
    if cfg.useEnc && st.crypto then Sealed(st.keys, s) else Text(s)
  }

  /** The mode of the `receive` at a waiting point. */
  predicate ReceivesEncrypted(cfg: Config, st: State) {
    match st.pc
    case WaitHelo => false
    case WaitPub => false
    case WaitSecret(_, _, _) => false
    case _ => cfg.useEnc && st.crypto
  }

  function Start(cfg: Config): State { State(WaitHelo, false, cfg.keys, None, None) }

  // ---------------------------------------------------------------- the steps

  /** From the end of the try block: a status END sends `bye` first. */
  function FinishPc(cfg: Config, st: State, status: int): Pc {
    var end := Send(Message(cfg, st, "end\n"), WaitBye);
    if status == END then Send(Message(cfg, st, "bye\n"), end) else end
  }

  function HandshakeFails(cfg: Config, st: State, status: int): State {
    st.(handshake := Some(status), pc := FinishPc(cfg, st, status))
  }

  function CommandReturns(cfg: Config, st: State, status: int): State {
    st.(command := Some(status), pc := FinishPc(cfg, st, status))
  }

  function MediaWord(cmd: MediaCmd): string {
    match cmd
    case Play => "play\n"
    case Next => "next\n"
    case Prev => "prev\n"
  }

  function StartCommand(cfg: Config, st: State): State {
    match cfg.request
    case Volume(_, _) => st.(pc := Send(Message(cfg, st, "vol\n"), WaitVolOk))
    case Media(cmd) => st.(pc := Send(Message(cfg, st, MediaWord(cmd)), WaitMedia))
    case Nothing => CommandReturns(cfg, st, SUCCESS)
  }

  function OnHelo(cfg: Config, st: State, r: RecvResult): State {
    if r != Got("helo\n") then HandshakeFails(cfg, st, FAILURE)
    else if cfg.useEnc then st.(crypto := true, pc := Send(Text("enc\n"), WaitPub))
    else st.(pc := Send(Text("noenc\n"), WaitRedy))
  }

  /** A connection closed here, or at the secrets, returns END, which the caller ignores. */
  function OnPublicKey(cfg: Config, st: State, r: RecvResult): State {
    if r == Fail || r == Got("err\n") then
      st.(handshake := Some(FAILURE), pc := Send(Text("err\n"), FinishPc(cfg, st, FAILURE)))
    else st.(pc := Send(PublicKey(cfg.pem), WaitSecret(false, 0, true)))
  }

  /** Where the client goes once the vector, or the key, has been dealt with. */
  function AfterSecret(isKey: bool): Pc {
    if isKey then Send(Text("redy\n"), WaitRedy) else WaitSecret(true, 0, true)
  }

  /** `setAESIv` or `setAESKey`: the length check and the `strncpy`. */
  function Install(keys: Keys, isKey: bool, body: string): Option<Keys> {
    if isKey then
      if |body| != KEY_BYTES then None else Some(keys.(key := StrNCpy(body, KEY_BYTES)))
    else
      if |body| != IV_BYTES then None else Some(keys.(iv := StrNCpy(body, IV_BYTES)))
  }

  predicate Genuine(cfg: Config, pkts: seq<Packet>, part: nat) {
    |pkts| == 1 && pkts[0].Envelope? && pkts[0].reader == Some(cfg.pem) && pkts[0].part == part
  }

  function OnSecret(cfg: Config, st: State, pkts: seq<Packet>): State
    requires st.pc.WaitSecret?
  {
    var isKey, part := st.pc.isKey, st.pc.part;
    if pkts == [] then st.(pc := AfterSecret(isKey)) else
    var genuine := st.pc.genuine && Genuine(cfg, pkts, part);
    if part < 2 then st.(pc := WaitSecret(isKey, part + 1, genuine))
    else if !genuine || !(if isKey then cfg.opensKey else cfg.opensIv) then HandshakeFails(cfg, st, FAILURE)
    else
      var keys := Install(st.keys, isKey, pkts[0].body);
      if keys.None? then HandshakeFails(cfg, st, FAILURE)
      else st.(keys := keys.value, pc := AfterSecret(isKey))
  }

  function OnRedy(cfg: Config, st: State, r: RecvResult): State {
    if r == Got("end\n") then HandshakeFails(cfg, st, END)
    else if r != Got("redy\n") then HandshakeFails(cfg, st, FAILURE)
    else StartCommand(cfg, st.(handshake := Some(SUCCESS)))
  }

  /** The tests after each of the first two replies of a volume command: the status to
      return, or None to go on. */
  function Refusal(r: RecvResult): Option<int> {
    match r
    case Fail => Some(FAILURE)
    case Closed => Some(END)
    case Got(s) => if s == "ok\n" then None else if s == "end\n" then Some(END) else Some(FAILURE)
  }

  /** The tests in the channel loop, where an unknown reply counts as success. */
  function ChannelRefusal(r: RecvResult): Option<int> {
    match r
    case Fail => Some(FAILURE)
    case Closed => Some(END)
    case Got(s) => if s == "err\n" then Some(FAILURE) else if s == "end\n" then Some(END) else None
  }

  /** The status of `sendMediaCmd`: the last test is inverted, so `ok` is a failure. */
  function MediaStatus(r: RecvResult): int {
    match r
    case Fail => FAILURE
    case Closed => END
    case Got(s) =>
      if s == "err\n" then FAILURE else if s == "end\n" then END
      else if s != "ok\n" then SUCCESS else FAILURE
  }

  function Argument(request: Request, i: nat): string
    requires request.Volume? && i < |request.channels| == |request.vols|
  {
    PrintArgument(request.channels[i], request.vols[i])
  }

  /** The test of the channel loop. */
  function LoopState(cfg: Config, st: State, i: nat): State
    requires cfg.request.Volume? && RequestValid(cfg.request)
  {
    if i < |cfg.request.channels| then
      st.(pc := Send(Message(cfg, st, Argument(cfg.request, i)), WaitVolReply(i)))
    else CommandReturns(cfg, st, SUCCESS)
  }

  function OnVolOk(cfg: Config, st: State, r: RecvResult): State
    requires cfg.request.Volume?
  {
    if Refusal(r).Some? then CommandReturns(cfg, st, Refusal(r).value)
    else st.(pc := Send(Message(cfg, st, Itoa(|cfg.request.channels|) + "\n"), WaitCountOk))
  }

  function OnCountOk(cfg: Config, st: State, r: RecvResult): State
    requires cfg.request.Volume? && RequestValid(cfg.request)
  {
    if Refusal(r).Some? then CommandReturns(cfg, st, Refusal(r).value) else LoopState(cfg, st, 0)
  }

  function OnVolReply(cfg: Config, st: State, r: RecvResult): State
    requires st.pc.WaitVolReply? && cfg.request.Volume? && RequestValid(cfg.request)
  {
    if ChannelRefusal(r).Some? then CommandReturns(cfg, st, ChannelRefusal(r).value)
    else LoopState(cfg, st, st.pc.i + 1)
  }

  /** The points of a volume command occur in a volume request alone. */
  predicate PcFits(cfg: Config, pc: Pc) {
    match pc
    case Send(_, next) => PcFits(cfg, next)
    case WaitVolOk => cfg.request.Volume?
    case WaitCountOk => cfg.request.Volume?
    case WaitVolReply(i) => cfg.request.Volume? && i < |cfg.request.channels|
    case WaitSecret(_, part, _) => part <= 2
    case _ => true
  }

  function Receive(cfg: Config, st: State, a: Arrival): State
    requires RequestValid(cfg.request) && PcFits(cfg, st.pc) && Waiting(st.pc)
  {
    match st.pc
    case WaitHelo => OnHelo(cfg, st, a.r)
    case WaitPub => OnPublicKey(cfg, st, a.r)
    case WaitSecret(_, _, _) => OnSecret(cfg, st, a.pkts)
    case WaitRedy => OnRedy(cfg, st, a.r)
    case WaitVolOk => OnVolOk(cfg, st, a.r)
    case WaitCountOk => OnCountOk(cfg, st, a.r)
    case WaitVolReply(_) => OnVolReply(cfg, st, a.r)
    case WaitMedia => CommandReturns(cfg, st, MediaStatus(a.r))
    case WaitBye => st.(pc := Close)
  }

  // ---------------------------------------------------------------- whole runs

  /** An upper bound on the steps the client still takes. */
  function Rank(cfg: Config, pc: Pc): nat {
    var n := if cfg.request.Volume? then |cfg.request.channels| else 0;
    match pc
    case Send(_, next) => 1 + Rank(cfg, next)
    case Ended => 0
    case Close => 1
    case WaitBye => 2
    case WaitMedia => 5
    case WaitVolReply(i) => if i < n then 3 + 2 * (n - i) else 5
    case WaitCountOk => 5 + 2 * n
    case WaitVolOk => 7 + 2 * n
    case WaitRedy => 9 + 2 * n
    case WaitSecret(isKey, part, _) => (if isKey then 13 else 16) + 2 * n - (if part < 2 then part else 2)
    case WaitPub => 18 + 2 * n
    case WaitHelo => 20 + 2 * n
  }

  lemma RankOfFinish(cfg: Config, st: State, status: int)
    ensures 3 <= Rank(cfg, FinishPc(cfg, st, status)) <= 4
    ensures PcFits(cfg, FinishPc(cfg, st, status))
  {
    assert Rank(cfg, Send(Message(cfg, st, "end\n"), WaitBye)) == 3;
    assert PcFits(cfg, Send(Message(cfg, st, "end\n"), WaitBye));
  }

  lemma RankOfStart(cfg: Config, st: State)
    requires RequestValid(cfg.request)
    ensures Rank(cfg, StartCommand(cfg, st).pc) < Rank(cfg, WaitRedy)
    ensures PcFits(cfg, StartCommand(cfg, st).pc)
  {
    RankOfFinish(cfg, st, SUCCESS);
  }

  lemma RankOfLoop(cfg: Config, st: State, i: nat)
    requires RequestValid(cfg.request) && cfg.request.Volume? && i <= |cfg.request.channels|
    ensures Rank(cfg, LoopState(cfg, st, i).pc) <= 4 + 2 * (|cfg.request.channels| - i)
    ensures PcFits(cfg, LoopState(cfg, st, i).pc)
  {
    RankOfFinish(cfg, st, SUCCESS);
  }

  lemma RankOfSecret(cfg: Config, st: State, pkts: seq<Packet>)
    requires st.pc.WaitSecret? && PcFits(cfg, st.pc)
    ensures Rank(cfg, OnSecret(cfg, st, pkts).pc) < Rank(cfg, st.pc)
    ensures PcFits(cfg, OnSecret(cfg, st, pkts).pc)
  {
    RankOfFinish(cfg, st, FAILURE);
    assert Rank(cfg, AfterSecret(true)) == 1 + Rank(cfg, WaitRedy);
    assert PcFits(cfg, AfterSecret(true));
  }

  /** Every receive brings the client nearer to its end. */
  lemma RankFalls(cfg: Config, st: State, a: Arrival)
    requires RequestValid(cfg.request) && PcFits(cfg, st.pc) && Waiting(st.pc)
    ensures Rank(cfg, Receive(cfg, st, a).pc) < Rank(cfg, st.pc)
    ensures PcFits(cfg, Receive(cfg, st, a).pc)
  {
    hide StrNCpy, Itoa, Message, PrintArgument, MediaStatus;
    RankOfFinish(cfg, st, FAILURE);
    RankOfFinish(cfg, st, END);
    match st.pc
    case WaitSecret(_, _, _) => RankOfSecret(cfg, st, a.pkts);
    case WaitRedy => RankOfStart(cfg, st.(handshake := Some(SUCCESS)));
    case WaitCountOk => RankOfLoop(cfg, st, 0);
    case WaitVolReply(i) => RankOfLoop(cfg, st, i + 1);
    case WaitMedia => RankOfFinish(cfg, st, MediaStatus(a.r));
    case _ =>
  }

  /** What a `recv` reports once the server has gone. */
  function Gone(cfg: Config, st: State): Arrival {
    Arrival([], if ReceivesEncrypted(cfg, st) then Fail else Closed)
  }

  /** The client alone: its receives return the arrivals of the script and then report a
      closed connection. The result is its last state and everything it sent. */
  function Run(cfg: Config, st: State, sent: seq<Packet>, script: seq<Arrival>): (State, seq<Packet>)
    requires RequestValid(cfg.request) && PcFits(cfg, st.pc)
    decreases Rank(cfg, st.pc)
  {
    match st.pc
    case Ended => (st, sent)
    case Close => Run(cfg, st.(pc := Ended), sent, script)
    case Send(pkt, next) => Run(cfg, st.(pc := next), sent + [pkt], script)
    case _ =>
      if script != [] then
        RankFalls(cfg, st, script[0]);
        Run(cfg, Receive(cfg, st, script[0]), sent, script[1..])
      else
        RankFalls(cfg, st, Gone(cfg, st));
        Run(cfg, Receive(cfg, st, Gone(cfg, st)), sent, script)
  }

  lemma RunCloses(cfg: Config, st: State, sent: seq<Packet>, script: seq<Arrival>)
    requires RequestValid(cfg.request) && st.pc.Close?
    ensures Run(cfg, st, sent, script) == (st.(pc := Ended), sent)
  {
    var done := st.(pc := Ended);
    assert Run(cfg, done, sent, script) == (done, sent);
  }

  // ---------------------------------------------------------------- the program

  class Session {
    const cfg: Config
    // The `Client` object's fields, and the statuses main keeps.
    var crypto: bool
    var keys: Keys
    var handshake: Option<int>
    var command: Option<int>
    // The world outside: arrivals still to come, and packets sent.
    var script: seq<Arrival>
    var sent: seq<Packet>

    ghost function At(pc: Pc): State
      reads this
    {
      State(pc, crypto, keys, handshake, command)
    }

    /** Everything still to come from the state st of the program. */
    ghost function From(st: State): (State, seq<Packet>)
      requires RequestValid(cfg.request) && PcFits(cfg, st.pc)
      reads this
    {
      Run(cfg, st, sent, script)
    }

    ghost function Rest(pc: Pc): (State, seq<Packet>)
      requires RequestValid(cfg.request) && PcFits(cfg, pc)
      reads this
    {
      From(At(pc))
    }

    constructor (cfg: Config, script: seq<Arrival>)
      ensures this.cfg == cfg && this.script == script && sent == []
      ensures At(WaitHelo) == Start(cfg)
    {
      this.cfg, this.script := cfg, script;
      crypto, keys, handshake, command, sent := false, cfg.keys, None, None, [];
    }

    method SendPacket(pkt: Packet, ghost next: Pc)
      requires RequestValid(cfg.request) && PcFits(cfg, next)
      modifies this`sent
      ensures sent == old(sent) + [pkt]
      ensures Rest(next) == old(Rest(Send(pkt, next)))
    {
      sent := sent + [pkt];
    }

    /** `client.send(data, useEnc)`. */
    method SendData(data: string, ghost next: Pc)
      requires RequestValid(cfg.request) && PcFits(cfg, next)
      modifies this`sent
      ensures sent == old(sent) + [Message(cfg, At(next), data)]
      ensures Rest(next) == old(Rest(Send(Message(cfg, At(next), data), next)))
    {
      SendPacket(if cfg.useEnc && crypto then Sealed(keys, data) else Text(data), next);
    }

    /** `client.receive(&reply, flag)`, or the bare `recv` of the key exchange. */
    method ReceiveArrival(flag: bool, ghost pc: Pc) returns (a: Arrival)
      requires RequestValid(cfg.request) && PcFits(cfg, pc) && Waiting(pc)
      requires flag && crypto <==> ReceivesEncrypted(cfg, At(pc))
      modifies this`script
      ensures PcFits(cfg, Receive(cfg, At(pc), a).pc)
      ensures From(Receive(cfg, At(pc), a)) == old(Rest(pc))
    {
      if script == [] {
        a := Arrival([], if flag && crypto then Fail else Closed);
      } else {
        a := script[0];
        script := script[1..];
      }
      RankFalls(cfg, At(pc), a);
    }

    method InitCrypto() returns (status: int)
      modifies this`crypto
      ensures crypto && (status == FAILURE <==> old(crypto))
    {
      if crypto { return FAILURE; }
      crypto := true;
      return SUCCESS;
    }

    /** How the client goes on after a failed handshake. */
    ghost function Failing(status: int): State
      reads this
    {
      HandshakeFails(cfg, At(WaitRedy), status)
    }

    /** How the client goes on when it could not take the server's public key. */
    ghost function Refusing(): State
      reads this
    {
      At(WaitPub).(handshake := Some(FAILURE), pc := Send(Text("err\n"), FinishPc(cfg, At(WaitPub), FAILURE)))
    }

    method ReceiveRemotePubKey() returns (status: int)
      requires RequestValid(cfg.request)
      modifies this`script
      ensures PcFits(cfg, FinishPc(cfg, At(WaitPub), FAILURE))
      ensures status == FAILURE ==> From(Refusing()) == old(Rest(WaitPub))
      ensures status != FAILURE ==> Rest(Send(PublicKey(cfg.pem), WaitSecret(false, 0, true))) == old(Rest(WaitPub))
    {
      RankOfFinish(cfg, At(WaitPub), FAILURE);
      var a := ReceiveArrival(false, WaitPub);
      match a.r
      case Fail => return FAILURE;
      case Closed => return END;
      case Got(pubKey) => return if pubKey == "err\n" then FAILURE else SUCCESS;
    }

    /** `setAESIv` and `setAESKey`. */
    method SetSecret(isKey: bool, body: string) returns (status: int)
      modifies this`keys
      ensures status == FAILURE <==> Install(old(keys), isKey, body).None?
      ensures status == FAILURE ==> keys == old(keys)
      ensures status != FAILURE ==> status == SUCCESS && keys == Install(old(keys), isKey, body).value
    {
      if |body| != (if isKey then KEY_BYTES else IV_BYTES) { return FAILURE; }
      if isKey {
        keys := keys.(key := StrNCpy(body, KEY_BYTES));
      } else {
        keys := keys.(iv := StrNCpy(body, IV_BYTES));
      }
      return SUCCESS;
    }

    /** The last receive of a secret: `rsaDecrypt`, and the installation. */
    method OpenSecret(isKey: bool, genuineSoFar: bool) returns (status: int)
      requires RequestValid(cfg.request)
      requires PcFits(cfg, AfterSecret(isKey))
      modifies this`script, this`keys
      ensures PcFits(cfg, Failing(FAILURE).pc)
      ensures status == FAILURE ==> From(Failing(FAILURE)) == old(Rest(WaitSecret(isKey, 2, genuineSoFar)))
      ensures status != FAILURE ==> Rest(AfterSecret(isKey)) == old(Rest(WaitSecret(isKey, 2, genuineSoFar)))
    {
      RankOfFinish(cfg, At(WaitRedy), FAILURE);
      var body := ReceiveArrival(false, WaitSecret(isKey, 2, genuineSoFar));
      if body.pkts == [] { return END; }
      var genuine := genuineSoFar && Genuine(cfg, body.pkts, 2);
      if !genuine || !(if isKey then cfg.opensKey else cfg.opensIv) { return FAILURE; }
      status := SetSecret(isKey, body.pkts[0].body);
    }

    /** `receiveAESIv` and `receiveAESKey`: three receives, each of which may find the
        connection closed. */
    method ReceiveSecret(isKey: bool) returns (status: int)
      requires RequestValid(cfg.request)
      modifies this`script, this`keys
      ensures PcFits(cfg, AfterSecret(isKey)) && PcFits(cfg, Failing(FAILURE).pc)
      ensures status == FAILURE ==> From(Failing(FAILURE)) == old(Rest(WaitSecret(isKey, 0, true)))
      ensures status != FAILURE ==> Rest(AfterSecret(isKey)) == old(Rest(WaitSecret(isKey, 0, true)))
    {
      assert PcFits(cfg, Send(Text("redy\n"), WaitRedy));
      RankOfFinish(cfg, At(WaitRedy), FAILURE);
      var iv := ReceiveArrival(false, WaitSecret(isKey, 0, true));
      if iv.pkts == [] { return END; }
      var genuine := Genuine(cfg, iv.pkts, 0);
      var ek := ReceiveArrival(false, WaitSecret(isKey, 1, genuine));
      if ek.pkts == [] { return END; }
      genuine := genuine && Genuine(cfg, ek.pkts, 1);
      status := OpenSecret(isKey, genuine);
    }

    /** How the client goes on after its handshake. */
    ghost function AfterHandshake(status: int): State
      reads this
    {
      if status == SUCCESS then StartCommand(cfg, At(WaitRedy).(handshake := Some(SUCCESS))) else Failing(status)
    }

    lemma AfterHandshakeFits(status: int)
      requires RequestValid(cfg.request)
      ensures PcFits(cfg, AfterHandshake(status).pc)
    {
      RankOfFinish(cfg, At(WaitRedy), status);
      RankOfStart(cfg, At(WaitRedy).(handshake := Some(SUCCESS)));
    }

    /** The encrypted part of `serverHandshake`. */
    method ExchangeKeys() returns (status: int)
      requires RequestValid(cfg.request) && cfg.useEnc
      modifies this`script, this`keys, this`sent
      ensures status == SUCCESS || status == FAILURE
      ensures PcFits(cfg, Failing(FAILURE).pc)
      ensures status == SUCCESS ==> Rest(WaitRedy) == old(Rest(WaitPub))
      ensures status == FAILURE ==> From(Failing(FAILURE)) == old(Rest(WaitPub))
    {
      RankOfFinish(cfg, At(WaitRedy), FAILURE);
      status := ReceiveRemotePubKey();
      if status == FAILURE {
        sent := sent + [Text("err\n")];
        return;
      }
      SendPacket(PublicKey(cfg.pem), WaitSecret(false, 0, true));
      status := ReceiveSecret(false);
      if status == FAILURE { return; }
      status := ReceiveSecret(true);
      if status == FAILURE { return; }
      SendPacket(Text("redy\n"), WaitRedy);
      return SUCCESS;
    }

    method ServerHandshake() returns (status: int)
      requires RequestValid(cfg.request)
      modifies this`script, this`keys, this`sent, this`crypto
      ensures PcFits(cfg, AfterHandshake(status).pc)
      ensures From(AfterHandshake(status)) == old(Rest(WaitHelo))
    {
      var a := ReceiveArrival(false, WaitHelo);
      if a.r != Got("helo\n") {
        AfterHandshakeFits(FAILURE);
        return FAILURE;
      }
      SendPacket(Text(if cfg.useEnc then "enc\n" else "noenc\n"), if cfg.useEnc then WaitPub else WaitRedy);
      status := SUCCESS;
      if cfg.useEnc {
        var _ := InitCrypto();
        status := ExchangeKeys();
        if status == FAILURE { return; }
      }
      a := ReceiveArrival(cfg.useEnc, WaitRedy);
      if a.r == Got("end\n") {
        status := END;
      } else if a.r != Got("redy\n") {
        status := FAILURE;
      }
      AfterHandshakeFits(status);
    }

    /** How main goes on after its command function. */
    ghost function Returning(status: int): State
      reads this
    {
      CommandReturns(cfg, At(WaitRedy), status)
    }

    lemma ReturningFits(status: int)
      ensures PcFits(cfg, Returning(status).pc)
    {
      RankOfFinish(cfg, At(WaitRedy), status);
    }

    method SendVolCmd() returns (status: int)
      requires RequestValid(cfg.request) && cfg.request.Volume?
      modifies this`script, this`sent
      ensures PcFits(cfg, Returning(status).pc)
      ensures From(Returning(status)) == old(Rest(Send(Message(cfg, At(WaitVolOk), "vol\n"), WaitVolOk)))
    {
      SendData("vol\n", WaitVolOk);
      var a := ReceiveArrival(cfg.useEnc, WaitVolOk);
      if Refusal(a.r).Some? {
        ReturningFits(Refusal(a.r).value);
        return Refusal(a.r).value;
      }
      SendData(Itoa(|cfg.request.channels|) + "\n", WaitCountOk);
      a := ReceiveArrival(cfg.useEnc, WaitCountOk);
      if Refusal(a.r).Some? {
        ReturningFits(Refusal(a.r).value);
        return Refusal(a.r).value;
      }
      status := SendChannels();
    }

    method SendChannels() returns (status: int)
      requires RequestValid(cfg.request) && cfg.request.Volume?
      requires PcFits(cfg, LoopState(cfg, At(WaitRedy), 0).pc)
      modifies this`script, this`sent
      ensures PcFits(cfg, Returning(status).pc)
      ensures From(Returning(status)) == old(From(LoopState(cfg, At(WaitRedy), 0)))
    {
      var i := 0;
      while i < |cfg.request.channels|
        invariant i <= |cfg.request.channels|
        invariant PcFits(cfg, LoopState(cfg, At(WaitRedy), i).pc)
        invariant From(LoopState(cfg, At(WaitRedy), i)) == old(From(LoopState(cfg, At(WaitRedy), 0)))
      {
        SendData(Argument(cfg.request, i), WaitVolReply(i));
        var a := ReceiveArrival(cfg.useEnc, WaitVolReply(i));
        if ChannelRefusal(a.r).Some? {
          ReturningFits(ChannelRefusal(a.r).value);
          return ChannelRefusal(a.r).value;
        }
        i := i + 1;
      }
      return SUCCESS;
    }

    method SendMediaCmd(cmd: MediaCmd) returns (status: int)
      requires RequestValid(cfg.request)
      modifies this`script, this`sent
      ensures PcFits(cfg, Returning(status).pc)
      ensures From(Returning(status)) == old(Rest(Send(Message(cfg, At(WaitMedia), MediaWord(cmd)), WaitMedia)))
    {
      SendData(MediaWord(cmd), WaitMedia);
      var a := ReceiveArrival(cfg.useEnc, WaitMedia);
      status := MediaStatus(a.r);
      ReturningFits(status);
    }

    /** The end of main: `bye` if the server ended the session, `end`, and one receive. */
    method Finish(status: int)
      requires RequestValid(cfg.request) && PcFits(cfg, FinishPc(cfg, At(WaitRedy), status))
      modifies this`script, this`sent
      ensures (At(Ended), sent) == old(Rest(FinishPc(cfg, At(WaitRedy), status)))
    {
      if status == END {
        SendData("bye\n", Send(Message(cfg, At(WaitBye), "end\n"), WaitBye));
      }
      SendData("end\n", WaitBye);
      var _ := ReceiveArrival(cfg.useEnc, WaitBye);
      RunCloses(cfg, At(Close), sent, script);
    }

    /** The command that main runs after a successful handshake. */
    method SendCommand() returns (status: int)
      requires RequestValid(cfg.request) && PcFits(cfg, StartCommand(cfg, At(WaitRedy)).pc)
      modifies this`script, this`sent
      ensures PcFits(cfg, Returning(status).pc)
      ensures From(Returning(status)) == old(From(StartCommand(cfg, At(WaitRedy))))
    {
      match cfg.request
      case Volume(_, _) => status := SendVolCmd();
      case Media(cmd) => status := SendMediaCmd(cmd);
      case Nothing => status := SUCCESS;
    }

    /** main, from the connection on. */
    method Execute()
      requires RequestValid(cfg.request) && sent == [] && At(WaitHelo) == Start(cfg)
      modifies this
      ensures (At(Ended), sent) == Run(cfg, Start(cfg), [], old(script))
    {
      ghost var whole := Run(cfg, Start(cfg), [], script);
      var status := ServerHandshake();
      ghost var next := AfterHandshake(status);
      assert From(next) == whole;
      handshake := Some(status);
      if status == SUCCESS {
        status := SendCommand();
        next := Returning(status);
        assert From(next) == whole;
        command := Some(status);
      }
      assert next == At(FinishPc(cfg, At(WaitRedy), status));
      assert From(next) == whole;
      Finish(status);
    }
  }
}
