/** What the server does to its machine over a whole session with the command-line
    client, and how many packets are ever under way. */
module SessionEffects {
  import opened Wrappers
  import opened Constants
  import opened CText
  import opened SessionKeys
  import opened VolumeCommand
  import opened Wire
  import opened Protocol
  import opened Progress
  import S = ServerProgram
  import C = ClientProgram

  // ---------------------------------------------------------------- what is expected

  /** The flags let the session be set up: it is in plain text, or the server supports
      encryption and the client ends up with the server's key and vector. */
  predicate Cooperative(cfg: Config) {
    Connects(cfg) && (cfg.client.useEnc ==> Installable(cfg.server.keys))
  }

  /** The handshake goes through, up to the final `redy`. */
  predicate Connects(cfg: Config) {
    cfg.client.useEnc ==> cfg.server.useEnc && cfg.client.opensIv && cfg.client.opensKey
  }

  function NumChannels(cfg: Config): nat
    requires cfg.client.request.Volume?
  {
    |cfg.client.request.channels|
  }

  /** The calls of `changeVolume` from channel i on, after those in log: one for each
      channel in order, up to and including the first that fails; a volume that does not
      parse adds no call and ends the sequence. */
  function Calls(cfg: Config, i: nat, log: seq<S.Effect>): seq<S.Effect>
    requires cfg.client.request.Volume? && C.RequestValid(cfg.client.request) && i <= NumChannels(cfg)
    decreases NumChannels(cfg) - i
  {
    if i == NumChannels(cfg) then log else
    var (log', ok) := S.ChangeVolume(cfg.server, log, C.Argument(cfg.client.request, i));
    if ok then Calls(cfg, i + 1, log') else log'
  }

  function KeyOf(cmd: C.MediaCmd): int {
    match cmd
    case Play => S.XF86AudioPlay
    case Next => S.XF86AudioNext
    case Prev => S.XF86AudioPrev
  }

  function Confirmation(cmd: C.MediaCmd): string {
    if cmd.Prev? then "prev\n" else "ok\n"
  }

  function Expected(cfg: Config): seq<S.Effect>
    requires C.RequestValid(cfg.client.request)
  {
    match cfg.client.request
    case Volume(_, _) => Calls(cfg, 0, [])
    case Media(cmd) => [S.MediaKey(KeyOf(cmd))]
    case Nothing => []
  }

  // ---------------------------------------------------------------- the phases of a command

  /** The server waits for a command, or for a volume argument that will not come. */
  predicate Idle(pc: S.Pc) { pc.WaitCmd? || pc.WaitArg? }

  /** The server is done: it has failed, or at most its last reply is under way. */
  predicate Over(x: System) {
    Closing(ServerAt(x)) && (S.Failed(ServerAt(x)) || (Up(x) == [] && |Down(x)| <= 1))
  }

  predicate AtVolOk(cfg: Config, x: System) {
    && cfg.client.request.Volume? && x.s.log == []
    && (|| (ServerAt(x).WaitCmd? && Up(x) == [Agreed(cfg, "vol\n")] && Down(x) == [])
        || (ServerAt(x).WaitCount? && Up(x) == [] && Down(x) == [Agreed(cfg, "ok\n")]))
  }

  predicate AtCountOk(cfg: Config, x: System) {
    && cfg.client.request.Volume? && x.s.log == []
    && (|| (ServerAt(x).WaitCount? && Up(x) == [Agreed(cfg, Itoa(NumChannels(cfg)) + "\n")] && Down(x) == [])
        || (ServerAt(x) == S.LoopPc(0, NumChannels(cfg)) && Up(x) == [] && Down(x) == [Agreed(cfg, "ok\n")]))
  }

  /** The first m effects have all succeeded. */
  predicate AllSucceed(cfg: Config, m: nat) { forall k | 0 <= k < m :: cfg.server.outcome(k) }

  /** Every channel of the request has been set. */
  predicate Complete(cfg: Config, log: seq<S.Effect>)
    requires cfg.client.request.Volume?
  {
    |log| == NumChannels(cfg) && AllSucceed(cfg, |log|)
  }

  /** What the client's command function returned. A volume command reports truthfully; a
      media command, whose last test is inverted, calls `ok` a failure. */
  predicate Reported(cfg: Config, x: System) {
    match cfg.client.request
    case Volume(_, _) => x.c.command == Some(if Complete(cfg, x.s.log) then SUCCESS else FAILURE)
    case Media(cmd) =>
      x.c.command.Some? && (cfg.server.outcome(0) ==> x.c.command == Some(if cmd.Prev? then SUCCESS else FAILURE))
    case Nothing => x.c.command == Some(SUCCESS)
  }

  /** Both loops stand at channel i, or the server has answered it and gone on. */
  predicate AtVolReply(cfg: Config, x: System, i: nat) {
    && cfg.client.request.Volume? && C.RequestValid(cfg.client.request) && i < NumChannels(cfg)
    && (|| (ServerAt(x) == S.WaitArg(i, NumChannels(cfg)) && Up(x) == [Agreed(cfg, C.Argument(cfg.client.request, i))]
            && Down(x) == [] && Calls(cfg, i, x.s.log) == Expected(cfg)
            && |x.s.log| == i && AllSucceed(cfg, i))
        || (ServerAt(x) == S.LoopPc(i + 1, NumChannels(cfg)) && Up(x) == []
            && Down(x) == [Agreed(cfg, "ok\n")] && Calls(cfg, i + 1, x.s.log) == Expected(cfg)
            && |x.s.log| == i + 1 && AllSucceed(cfg, i + 1))
        || (ServerAt(x) == S.LoopPc(i + 1, NumChannels(cfg)) && Up(x) == []
            && Down(x) == [Agreed(cfg, "err\n")] && x.s.log == Expected(cfg) && !Complete(cfg, x.s.log)))
  }

  predicate AtMedia(cfg: Config, x: System) {
    && cfg.client.request.Media?
    && (|| (ServerAt(x).WaitCmd? && Up(x) == [Agreed(cfg, C.MediaWord(cfg.client.request.cmd))] && Down(x) == []
            && x.s.log == [])
        || (ServerAt(x).WaitCmd? && Up(x) == [] && Down(x) == [Agreed(cfg, Confirmation(cfg.client.request.cmd))]
            && x.s.log == Expected(cfg) && cfg.server.outcome(0))
        || (S.Failed(ServerAt(x)) && Down(x) == [Agreed(cfg, "err\n"), Agreed(cfg, "end\n")]
            && x.s.log == Expected(cfg) && !cfg.server.outcome(0)))
  }

  predicate AtBye(cfg: Config, x: System)
    requires C.RequestValid(cfg.client.request)
  {
    && x.s.log == Expected(cfg) && Reported(cfg, x)
    && (|| (Idle(ServerAt(x)) && Up(x) == [Agreed(cfg, "end\n")] && Down(x) == [])
        || (Idle(ServerAt(x)) && Up(x) == [] && |Down(x)| == 1)
        || Over(x))
  }

  predicate AtEnd(cfg: Config, x: System)
    requires C.RequestValid(cfg.client.request)
  {
    && x.s.log == Expected(cfg) && Reported(cfg, x)
    && ((Idle(ServerAt(x)) && Up(x) == [] && Down(x) == []) || Over(x))
  }

  predicate CommandPhase(cfg: Config, x: System)
    requires C.RequestValid(cfg.client.request)
  {
    match ClientAt(x)
    case WaitVolOk => AtVolOk(cfg, x)
    case WaitCountOk => AtCountOk(cfg, x)
    case WaitVolReply(i) => AtVolReply(cfg, x, i)
    case WaitMedia => AtMedia(cfg, x)
    case WaitBye => AtBye(cfg, x)
    case _ => AtEnd(cfg, x)
  }

  /** The invariant of cooperative sessions. */
  predicate Session(cfg: Config, x: System)
    requires Valid(cfg)
  {
    && Live(cfg, x)
    && if InHandshake(ClientAt(x)) then x.s.log == []
       else
         && Modes(cfg, x)
         && (cfg.client.useEnc ==> x.c.keys == cfg.server.keys)
         && CommandPhase(cfg, x)
  }

  // ---------------------------------------------------------------- messages in the agreed mode

  /** In a cooperative session that has passed its handshake. */
  predicate Matched(cfg: Config, x: System) {
    Modes(cfg, x) && (cfg.client.useEnc ==> x.c.keys == cfg.server.keys)
  }

  lemma MatchedMessages(cfg: Config, x: System, s: string)
    requires Matched(cfg, x)
    ensures C.Message(cfg.client, x.c, s) == Agreed(cfg, s)
    ensures S.Message(cfg.server, x.s, s, x.s.isEnc) == Agreed(cfg, s)
  {
  }

  /** The server reads an agreed message as it was written. */
  lemma ServerReads(cfg: Config, a: Action, x: System, y: System, s: string)
    requires Valid(cfg) && Step(cfg, a, x, y) && a.ServerRecv? && Matched(cfg, x)
    requires Up(x) == [Agreed(cfg, s)] && Fits(s) && !ClientAt(x).Ended? && (Idle(x.s.pc) || x.s.pc.WaitCount?)
    ensures a.k == 1 && a.r == Got(s)
    ensures y.s == S.Receive(cfg.server, x.s, Got(s)) && ClientAt(y) == ClientAt(x)
    ensures Up(y) == [] && Down(y) == Down(x) + S.Outgoing(y.s.pc)
  {
    ServerTakes(cfg, a, x, y);
    DeliversSingle(cfg.client.useEnc, cfg.server.keys, s, a.r);
  }

  /** So does the client. */
  lemma ClientReads(cfg: Config, a: Action, x: System, y: System, s: string)
    requires Valid(cfg) && Step(cfg, a, x, y) && a.ClientRecv? && Matched(cfg, x)
    requires Down(x) == [Agreed(cfg, s)] && Fits(s) && !InHandshake(x.c.pc)
    ensures a.k == 1 && a.r == Got(s)
    ensures y.c == C.Receive(cfg.client, x.c, C.Arrival([Agreed(cfg, s)], Got(s))) && ServerAt(y) == ServerAt(x)
    ensures Down(y) == [] && Up(y) == Up(x) + C.Outgoing(y.c.pc)
  {
    ClientTakes(cfg, a, x, y);
    DeliversSingle(cfg.client.useEnc, cfg.server.keys, s, a.r);
  }

  // ---------------------------------------------------------------- steps of the server

  lemma ServerGetsVol(cfg: Config, a: Action, x: System, y: System)
    requires Valid(cfg) && Matched(cfg, x) && AtVolOk(cfg, x)
    requires Step(cfg, a, x, y) && a.ServerRecv? && ClientAt(x).WaitVolOk?
    ensures AtVolOk(cfg, y) && Modes(cfg, y) && ClientAt(y) == ClientAt(x)
  {
    hide C.Receive;
    ServerTakes(cfg, a, x, y);
    ServerReads(cfg, a, x, y, "vol\n");
    MatchedMessages(cfg, x, "ok\n");
    ReplyPending(Agreed(cfg, "ok\n"), S.WaitCount);
  }

  lemma CountFits(n: nat)
    requires n <= INT_MAX
    ensures Fits(Itoa(n) + "\n")
  {
    IntIsShort(n);
  }

  lemma ServerGetsCount(cfg: Config, a: Action, x: System, y: System)
    requires Valid(cfg) && Matched(cfg, x) && AtCountOk(cfg, x)
    requires Step(cfg, a, x, y) && a.ServerRecv? && ClientAt(x).WaitCountOk?
    ensures AtCountOk(cfg, y) && Modes(cfg, y) && ClientAt(y) == ClientAt(x)
  {
    hide C.Receive;
    var n := NumChannels(cfg);
    ServerTakes(cfg, a, x, y);
    CountFits(n);
    ServerReads(cfg, a, x, y, Itoa(n) + "\n");
    CountAgrees(n);
    MatchedMessages(cfg, x, "ok\n");
    ReplyPending(Agreed(cfg, "ok\n"), S.LoopPc(0, n));
  }

  lemma ArgumentIsAnswered(cfg: Config, x: System, i: nat, n: int, arg: string)
    requires Matched(cfg, x) && x.s.pc == S.WaitArg(i, n)
    ensures var (log, ok) := S.ChangeVolume(cfg.server, x.s.log, arg);
            var t := S.Receive(cfg.server, x.s, Got(arg));
            && t == x.s.(log := log, pc := t.pc)
            && S.Target(t.pc) == S.LoopPc(i + 1, n)
            && S.Outgoing(t.pc) == [Agreed(cfg, if ok then "ok\n" else "err\n")]
  {
    hide ParseVolCommand;
    var (log, ok) := S.ChangeVolume(cfg.server, x.s.log, arg);
    MatchedMessages(cfg, x, if ok then "ok\n" else "err\n");
    ReplyPending(Agreed(cfg, if ok then "ok\n" else "err\n"), S.LoopPc(i + 1, n));
  }

  lemma ServerGetsArgument(cfg: Config, a: Action, x: System, y: System)
    requires Valid(cfg) && Matched(cfg, x) && Step(cfg, a, x, y) && a.ServerRecv?
    requires ClientAt(x).WaitVolReply? && AtVolReply(cfg, x, ClientAt(x).i)
    ensures AtVolReply(cfg, y, ClientAt(x).i) && Modes(cfg, y) && ClientAt(y) == ClientAt(x)
  {
    hide ParseVolCommand, C.Receive, S.Receive, Agreed;
    var i := ClientAt(x).i;
    var arg := C.Argument(cfg.client.request, i);
    ServerTakes(cfg, a, x, y);
    ServerReads(cfg, a, x, y, arg);
    ArgumentIsAnswered(cfg, x, i, NumChannels(cfg), arg);
  }

  lemma MediaCommands(cmd: C.MediaCmd)
    ensures var w := C.MediaWord(cmd);
            && Fits(w) && w != "end\n" && w != "vol\n"
            && S.MediaCommand(w) == Some((KeyOf(cmd), Confirmation(cmd)))
  {
  }

  lemma ServerGetsMedia(cfg: Config, a: Action, x: System, y: System)
    requires Valid(cfg) && Matched(cfg, x) && AtMedia(cfg, x) && Step(cfg, a, x, y) && a.ServerRecv?
    requires ClientAt(x).WaitMedia?
    ensures AtMedia(cfg, y) && Modes(cfg, y) && ClientAt(y) == ClientAt(x)
  {
    hide C.Receive;
    var word := C.MediaWord(cfg.client.request.cmd);
    ServerTakes(cfg, a, x, y);
    MediaCommands(cfg.client.request.cmd);
    ServerReads(cfg, a, x, y, word);
    var confirmation := Confirmation(cfg.client.request.cmd);
    var st := x.s.(log := x.s.log + [S.MediaKey(KeyOf(cfg.client.request.cmd))]);
    ReplyPending(S.Message(cfg.server, st, confirmation, st.isEnc), S.WaitCmd);
    AbortPending(cfg.server, st, S.Message(cfg.server, st, "err\n", st.isEnc));
    MatchedMessages(cfg, x, "err\n");
    MatchedMessages(cfg, x, "end\n");
  }

  lemma ServerEndsSession(cfg: Config, x: System)
    requires Matched(cfg, x) && x.s.pc.WaitCmd?
    ensures var t := S.Receive(cfg.server, x.s, Got("end\n"));
            && t == x.s.(pc := t.pc)
            && S.Target(t.pc) == S.Close(false) && S.Outgoing(t.pc) == [Agreed(cfg, "bye\n")]
  {
    MatchedMessages(cfg, x, "bye\n");
    ReplyPending(Agreed(cfg, "bye\n"), S.Close(false));
  }

  /** A server still in its volume loop takes the early `end` for an argument. */
  lemma ServerMisreadsEnd(cfg: Config, x: System)
    requires Matched(cfg, x) && x.s.pc.WaitArg?
    ensures var t := S.Receive(cfg.server, x.s, Got("end\n"));
            && t == x.s.(pc := t.pc)
            && Idle(S.Target(t.pc)) && S.Outgoing(t.pc) == [Agreed(cfg, "err\n")]
  {
    ControlWordsAreNoArgument();
    MatchedMessages(cfg, x, "err\n");
    ReplyPending(Agreed(cfg, "err\n"), S.LoopPc(x.s.pc.i + 1, x.s.pc.n));
  }

  lemma ServerGetsEnd(cfg: Config, a: Action, x: System, y: System)
    requires Valid(cfg) && Matched(cfg, x) && AtBye(cfg, x)
    requires Step(cfg, a, x, y) && a.ServerRecv? && ClientAt(x).WaitBye?
    ensures AtBye(cfg, y) && Modes(cfg, y) && ClientAt(y) == ClientAt(x)
  {
    hide C.Receive, S.Receive, Live;
    ServerTakes(cfg, a, x, y);
    ServerReads(cfg, a, x, y, "end\n");
    if x.s.pc.WaitCmd? {
      ServerEndsSession(cfg, x);
    } else {
      ServerMisreadsEnd(cfg, x);
    }
  }

  /** The client has gone: the server fails, without any further effect. */
  lemma ServerGetsNothing(cfg: Config, a: Action, x: System, y: System)
    requires Valid(cfg) && Session(cfg, x) && Step(cfg, a, x, y) && a.ServerRecv?
    requires ClientAt(x).Close? || ClientAt(x).Ended?
    ensures AtEnd(cfg, y) && Modes(cfg, y) && ClientAt(y) == ClientAt(x)
  {
    hide C.Receive, Expected, Calls, Complete, Agreed, HandshakePhase, Handshaken, AtVolOk, AtCountOk, AtMedia;
    hide AtVolReply, AtBye;
    ServerTakes(cfg, a, x, y);
    assert y.s == S.Abort(cfg.server, x.s);
    assert S.Target(S.FailPc(cfg.server, x.s)) == S.Close(true);
  }

  lemma ServerRecvKeepsSession(cfg: Config, a: Action, x: System, y: System)
    requires Valid(cfg) && Cooperative(cfg) && Session(cfg, x) && Step(cfg, a, x, y) && a.ServerRecv?
    ensures Session(cfg, y)
  {
    hide C.Receive, S.Receive, Calls, Live;
    StepKeepsLive(cfg, a, x, y);
    ServerTakes(cfg, a, x, y);
    if InHandshake(ClientAt(x)) {
      ServerRecvInHandshake(cfg, a, x, y);
    } else {
      match ClientAt(x)
      case WaitVolOk => ServerGetsVol(cfg, a, x, y);
      case WaitCountOk => ServerGetsCount(cfg, a, x, y);
      case WaitVolReply(_) => ServerGetsArgument(cfg, a, x, y);
      case WaitMedia => ServerGetsMedia(cfg, a, x, y);
      case WaitBye => ServerGetsEnd(cfg, a, x, y);
      case _ => ServerGetsNothing(cfg, a, x, y);
    }
  }

  // ---------------------------------------------------------------- steps of the client

  /** The client reads nothing, or anything, from a server that is done. */
  lemma ClientFacesFailure(cfg: Config, a: Action, x: System, y: System)
    requires Valid(cfg) && Matched(cfg, x) && AtMedia(cfg, x)
    requires Step(cfg, a, x, y) && a.ClientRecv? && ClientAt(x).WaitMedia?
    requires S.Failed(ServerAt(x))
    ensures ClientAt(y).WaitBye? && AtBye(cfg, y) && Matched(cfg, y)
  {
    hide S.Receive;
    ClientTakes(cfg, a, x, y);
    FinishPending(cfg.client, x.c, y.c.command.value);
  }

  lemma ClientGetsConfirmation(cfg: Config, a: Action, x: System, y: System)
    requires Valid(cfg) && Step(cfg, a, x, y) && a.ClientRecv? && x.c.pc.WaitMedia? && cfg.client.request.Media?
    requires Matched(cfg, x) && ServerAt(x).WaitCmd? && Up(x) == [] && x.s.log == Expected(cfg)
    requires Down(x) == [Agreed(cfg, Confirmation(cfg.client.request.cmd))] && cfg.server.outcome(0)
    ensures ClientAt(y).WaitBye? && AtBye(cfg, y) && Matched(cfg, y)
  {
    hide S.Receive, Agreed, Expected, Calls;
    var confirmation := Confirmation(cfg.client.request.cmd);
    ClientReads(cfg, a, x, y, confirmation);
    FinishPending(cfg.client, x.c, C.MediaStatus(Got(confirmation)));
    MatchedMessages(cfg, x, "end\n");
  }

  lemma ClientGetsMedia(cfg: Config, a: Action, x: System, y: System)
    requires Valid(cfg) && Matched(cfg, x) && AtMedia(cfg, x)
    requires Step(cfg, a, x, y) && a.ClientRecv? && ClientAt(x).WaitMedia?
    ensures ClientAt(y).WaitBye? && AtBye(cfg, y) && Matched(cfg, y)
  {
    hide S.Receive;
    ClientTakes(cfg, a, x, y);
    if S.Failed(ServerAt(x)) {
      ClientFacesFailure(cfg, a, x, y);
    } else {
      ClientGetsConfirmation(cfg, a, x, y);
    }
  }

  /** The client's next argument, or its farewell after the last one. */
  lemma LoopPending(cfg: Config, x: System, i: nat)
    requires Valid(cfg) && Matched(cfg, x) && cfg.client.request.Volume? && i <= NumChannels(cfg)
    ensures var t := C.LoopState(cfg.client, x.c, i);
            && t.crypto == x.c.crypto && t.keys == x.c.keys
            && C.Target(t.pc) == (if i < NumChannels(cfg) then C.WaitVolReply(i) else C.WaitBye)
            && C.Outgoing(t.pc)
               == [Agreed(cfg, if i < NumChannels(cfg) then C.Argument(cfg.client.request, i) else "end\n")]
  {
    if i < NumChannels(cfg) {
      MatchedMessages(cfg, x, C.Argument(cfg.client.request, i));
      ClientSends(Agreed(cfg, C.Argument(cfg.client.request, i)), C.WaitVolReply(i));
    } else {
      MatchedMessages(cfg, x, "end\n");
      FinishPending(cfg.client, x.c, SUCCESS);
    }
  }

  lemma ClientGetsVolOk(cfg: Config, a: Action, x: System, y: System)
    requires Valid(cfg) && Matched(cfg, x) && AtVolOk(cfg, x)
    requires Step(cfg, a, x, y) && a.ClientRecv? && ClientAt(x).WaitVolOk?
    ensures ClientAt(y).WaitCountOk? && AtCountOk(cfg, y) && Matched(cfg, y)
  {
    hide S.Receive;
    var count := Itoa(NumChannels(cfg)) + "\n";
    ClientTakes(cfg, a, x, y);
    ClientReads(cfg, a, x, y, "ok\n");
    MatchedMessages(cfg, x, count);
    ClientSends(Agreed(cfg, count), C.WaitCountOk);
  }

  lemma ClientGetsCountOk(cfg: Config, a: Action, x: System, y: System)
    requires Valid(cfg) && Matched(cfg, x) && AtCountOk(cfg, x)
    requires Step(cfg, a, x, y) && a.ClientRecv? && ClientAt(x).WaitCountOk?
    ensures ClientAt(y) == C.WaitVolReply(0) && AtVolReply(cfg, y, 0) && Matched(cfg, y)
  {
    hide S.Receive, S.ChangeVolume, Itoa, Agreed;
    ClientTakes(cfg, a, x, y);
    ClientReads(cfg, a, x, y, "ok\n");
    LoopPending(cfg, x, 0);
  }

  lemma OkGoesOn(cfg: Config, x: System, arrival: C.Arrival)
    requires Valid(cfg) && cfg.client.request.Volume? && C.PcFits(cfg.client, x.c.pc) && x.c.pc.WaitVolReply?
    requires arrival.r == Got("ok\n")
    ensures C.Receive(cfg.client, x.c, arrival) == C.LoopState(cfg.client, x.c, x.c.pc.i + 1)
  {
  }

  lemma ClientGetsSuccess(cfg: Config, a: Action, x: System, y: System, i: nat)
    requires Valid(cfg) && Step(cfg, a, x, y) && a.ClientRecv? && x.c.pc == C.WaitVolReply(i)
    requires Matched(cfg, x) && cfg.client.request.Volume? && i < NumChannels(cfg)
    requires ServerAt(x) == S.LoopPc(i + 1, NumChannels(cfg)) && Up(x) == [] && Down(x) == [Agreed(cfg, "ok\n")]
    requires Calls(cfg, i + 1, x.s.log) == Expected(cfg) && |x.s.log| == i + 1 && AllSucceed(cfg, i + 1)
    ensures Matched(cfg, y)
    ensures if i + 1 < NumChannels(cfg) then ClientAt(y) == C.WaitVolReply(i + 1) && AtVolReply(cfg, y, i + 1)
            else ClientAt(y) == C.WaitBye && AtBye(cfg, y)
  {
    hide S.Receive, S.ChangeVolume, C.Receive, Agreed;
    ClientReads(cfg, a, x, y, "ok\n");
    OkGoesOn(cfg, x, C.Arrival([Agreed(cfg, "ok\n")], Got("ok\n")));
    LoopPending(cfg, x, i + 1);
  }

  lemma ClientGetsError(cfg: Config, a: Action, x: System, y: System, i: nat)
    requires Valid(cfg) && Step(cfg, a, x, y) && a.ClientRecv? && x.c.pc == C.WaitVolReply(i)
    requires Matched(cfg, x) && cfg.client.request.Volume? && i < NumChannels(cfg)
    requires ServerAt(x) == S.LoopPc(i + 1, NumChannels(cfg)) && Up(x) == [] && Down(x) == [Agreed(cfg, "err\n")]
    requires x.s.log == Expected(cfg) && !Complete(cfg, x.s.log)
    ensures Matched(cfg, y) && ClientAt(y).WaitBye? && AtBye(cfg, y)
  {
    hide S.Receive, Expected, Calls, Complete, Agreed;
    ClientReads(cfg, a, x, y, "err\n");
    assert y.c == C.CommandReturns(cfg.client, x.c, FAILURE);
    MatchedMessages(cfg, x, "end\n");
    FinishPending(cfg.client, x.c, FAILURE);
  }

  lemma RedyIsRead(cfg: Config, a: Action, x: System, y: System)
    requires Valid(cfg) && Step(cfg, a, x, y) && a.ClientRecv? && x.c.pc.WaitRedy?
    requires Matched(cfg, x) && Up(x) == [] && Down(x) == [Agreed(cfg, "redy\n")]
    ensures y.c == C.StartCommand(cfg.client, x.c.(handshake := Some(SUCCESS))) && y.s == x.s
    ensures ServerAt(y) == ServerAt(x) && Down(y) == [] && Up(y) == C.Outgoing(y.c.pc)
  {
    hide S.Receive;
    ClientTakes(cfg, a, x, y);
    DeliversSingle(cfg.client.useEnc, cfg.server.keys, "redy\n", a.r);
  }

  /** The final `redy`, in the mode and under the keys of the session. */
  lemma ClientReadsRedy(cfg: Config, a: Action, x: System, y: System)
    requires Valid(cfg) && Cooperative(cfg) && Session(cfg, x) && Step(cfg, a, x, y) && a.ClientRecv?
    requires ClientAt(x).WaitRedy?
    ensures y.c == C.StartCommand(cfg.client, x.c.(handshake := Some(SUCCESS)))
    ensures Matched(cfg, x.(c := x.c.(handshake := Some(SUCCESS)))) && y.s == x.s && x.s.log == []
    ensures ServerAt(y).WaitCmd? && Down(y) == [] && Up(y) == C.Outgoing(y.c.pc)
  {
    hide Step, Handshaken, AtPub, AtSecret;
    ReceiverStandsThere(cfg, a, x, y);
    InstalledExact(cfg.server.keys);
    AtFinalRedy(cfg, x);
    RedyIsRead(cfg, a, x, y);
  }

  lemma ClientStarts(cfg: Config, a: Action, x: System, y: System)
    requires Valid(cfg) && Cooperative(cfg) && Session(cfg, x) && Step(cfg, a, x, y) && a.ClientRecv?
    requires ClientAt(x).WaitRedy?
    ensures Matched(cfg, y) && !InHandshake(ClientAt(y)) && CommandPhase(cfg, y)
  {
    ClientReadsRedy(cfg, a, x, y);
    var st := x.c.(handshake := Some(SUCCESS));
    var z := x.(c := st);
    match cfg.client.request
    case Volume(_, _) =>
      MatchedMessages(cfg, z, "vol\n");
      ClientSends(Agreed(cfg, "vol\n"), C.WaitVolOk);
    case Media(cmd) =>
      MatchedMessages(cfg, z, C.MediaWord(cmd));
      ClientSends(Agreed(cfg, C.MediaWord(cmd)), C.WaitMedia);
    case Nothing =>
      MatchedMessages(cfg, z, "end\n");
      FinishPending(cfg.client, st, SUCCESS);
  }

  lemma ClientGetsBye(cfg: Config, a: Action, x: System, y: System)
    requires Valid(cfg) && Session(cfg, x) && Step(cfg, a, x, y) && a.ClientRecv? && ClientAt(x).WaitBye?
    ensures ClientAt(y).Close? && AtEnd(cfg, y) && Matched(cfg, y)
  {
    ClientTakes(cfg, a, x, y);
  }

  lemma ClientGetsKeyAndGoesOn(cfg: Config, a: Action, x: System, y: System)
    requires Valid(cfg) && Connects(cfg) && Live(cfg, x) && Step(cfg, a, x, y) && a.ClientRecv? && x.c.pc.WaitPub?
    ensures InHandshake(ClientAt(y)) && y.s == x.s
  {
    ClientTakes(cfg, a, x, y);
    DeliversSingle(false, x.c.keys, cfg.server.pem, a.r);
    ClientSends(PublicKey(cfg.client.pem), C.WaitSecret(false, 0, true));
  }

  lemma PartGoesOn(cfg: Config, a: Action, x: System, y: System, isKey: bool, part: nat)
    requires Valid(cfg) && Connects(cfg) && Step(cfg, a, x, y) && a.ClientRecv? && cfg.client.useEnc
    requires x.c.pc == C.WaitSecret(isKey, part, true) && part <= 2 && Down(x) == Envelopes(cfg, isKey, part)
    ensures InHandshake(ClientAt(y)) && y.s == x.s
  {
    hide S.Receive, Delivers;
    ClientTakes(cfg, a, x, y);
    NextEnvelope(cfg, isKey, part);
    ClientSends(Text("redy\n"), C.WaitRedy);
  }

  lemma ClientGetsSecretAndGoesOn(cfg: Config, a: Action, x: System, y: System)
    requires Valid(cfg) && Connects(cfg) && Live(cfg, x) && Step(cfg, a, x, y)
    requires a.ClientRecv? && x.c.pc.WaitSecret?
    ensures InHandshake(ClientAt(y)) && y.s == x.s
  {
    hide Step, AtPub, AtRedy, Handshaken, Modes;
    ReceiverStandsThere(cfg, a, x, y);
    PartGoesOn(cfg, a, x, y, x.c.pc.isKey, x.c.pc.part);
  }

  lemma ClientGetsReply(cfg: Config, a: Action, x: System, y: System, i: nat)
    requires Valid(cfg) && Step(cfg, a, x, y) && a.ClientRecv? && x.c.pc == C.WaitVolReply(i)
    requires Matched(cfg, x) && AtVolReply(cfg, x, i)
    ensures Matched(cfg, y)
    ensures || (ClientAt(y) == C.WaitVolReply(i + 1) && AtVolReply(cfg, y, i + 1))
            || (ClientAt(y).WaitBye? && AtBye(cfg, y))
  {
    ClientTakes(cfg, a, x, y);
    if Down(x) == [Agreed(cfg, "ok\n")] && Calls(cfg, i + 1, x.s.log) == Expected(cfg)
       && |x.s.log| == i + 1 && AllSucceed(cfg, i + 1) {
      ClientGetsSuccess(cfg, a, x, y, i);
    } else {
      ClientGetsError(cfg, a, x, y, i);
    }
  }

  lemma ClientRecvInCommand(cfg: Config, a: Action, x: System, y: System)
    requires Valid(cfg) && Session(cfg, x) && Step(cfg, a, x, y) && a.ClientRecv? && !InHandshake(x.c.pc)
    ensures Matched(cfg, y) && !InHandshake(ClientAt(y)) && CommandPhase(cfg, y)
  {
    hide C.Receive, S.Receive, S.ChangeVolume, Calls, Live, Modes;
    hide AtVolOk, AtCountOk, AtVolReply, AtMedia, AtBye, AtEnd;
    match x.c.pc
    case WaitVolOk => ClientGetsVolOk(cfg, a, x, y);
    case WaitCountOk => ClientGetsCountOk(cfg, a, x, y);
    case WaitVolReply(_) => ClientGetsReply(cfg, a, x, y, x.c.pc.i);
    case WaitMedia => ClientGetsMedia(cfg, a, x, y);
    case WaitBye => ClientGetsBye(cfg, a, x, y);
  }

  lemma ClientRecvKeepsSession(cfg: Config, a: Action, x: System, y: System)
    requires Valid(cfg) && Cooperative(cfg) && Session(cfg, x) && Step(cfg, a, x, y) && a.ClientRecv?
    ensures Session(cfg, y)
  {
    hide C.Receive, S.Receive, Calls, Live;
    StepKeepsLive(cfg, a, x, y);
    ClientTakes(cfg, a, x, y);
    match x.c.pc
    case WaitHelo => ClientGetsHelo(cfg, a, x, y);
    case WaitPub => ClientGetsKeyAndGoesOn(cfg, a, x, y);
    case WaitSecret(_, _, _) => ClientGetsSecretAndGoesOn(cfg, a, x, y);
    case WaitRedy => ClientStarts(cfg, a, x, y);
    case _ => ClientRecvInCommand(cfg, a, x, y);
  }

  // ---------------------------------------------------------------- all runs

  lemma SendKeepsSession(cfg: Config, a: Action, x: System, y: System)
    requires Valid(cfg) && Session(cfg, x) && Step(cfg, a, x, y) && (a.ServerSend? || a.ClientSend?)
    ensures Session(cfg, y)
  {
    hide C.Receive, S.Receive, Calls, Live, Expected, Complete, Agreed;
    StepKeepsLive(cfg, a, x, y);
    SendsAreInvisible(cfg, a, x, y);
  }

  lemma CloseKeepsSession(cfg: Config, a: Action, x: System, y: System)
    requires Valid(cfg) && Session(cfg, x) && Step(cfg, a, x, y) && (a.ServerClose? || a.ClientClose?)
    ensures Session(cfg, y)
  {
    hide C.Receive, S.Receive, Calls, Live, Expected, Complete, Agreed;
    StepKeepsLive(cfg, a, x, y);
    assert Up(y) == Up(x) && Down(y) == Down(x);
  }

  lemma StepKeepsSession(cfg: Config, a: Action, x: System, y: System)
    requires Valid(cfg) && Cooperative(cfg) && Session(cfg, x) && Step(cfg, a, x, y)
    ensures Session(cfg, y)
  {
    match a
    case ServerRecv(_, _) => ServerRecvKeepsSession(cfg, a, x, y);
    case ClientRecv(_, _) => ClientRecvKeepsSession(cfg, a, x, y);
    case ServerSend => SendKeepsSession(cfg, a, x, y);
    case ClientSend => SendKeepsSession(cfg, a, x, y);
    case ServerClose => CloseKeepsSession(cfg, a, x, y);
    case ClientClose => CloseKeepsSession(cfg, a, x, y);
  }

  lemma {:induction false} RunsAreSessions(cfg: Config, states: seq<System>, acts: seq<Action>, n: nat)
    requires Valid(cfg) && Cooperative(cfg) && IsRun(cfg, states, acts) && n <= |acts|
    ensures Session(cfg, states[n])
  {
    if n > 0 {
      RunsAreSessions(cfg, states, acts, n - 1);
      StepKeepsSession(cfg, acts[n - 1], states[n - 1], states[n]);
    }
  }

  // ---------------------------------------------------------------- effects

  /** How channel k of the request parses at the server. */
  function Argued(cfg: Config, k: nat): Parsed
    requires cfg.client.request.Volume? && C.RequestValid(cfg.client.request) && k < NumChannels(cfg)
  {
    ParseVolCommand(C.Argument(cfg.client.request, k))
  }

  /** The change that channel k asks for. */
  function Asked(cfg: Config, k: nat): S.Effect
    requires cfg.client.request.Volume? && C.RequestValid(cfg.client.request) && k < NumChannels(cfg)
    requires Argued(cfg, k).Call?
  {
    S.SetVolume(Argued(cfg, k).channel, Argued(cfg, k).left, Argued(cfg, k).right)
  }

  /** log makes the first |log| changes asked for, in order, without gaps or repeats. */
  predicate InOrder(cfg: Config, log: seq<S.Effect>)
    requires cfg.client.request.Volume? && C.RequestValid(cfg.client.request)
  {
    |log| <= NumChannels(cfg) && forall k | 0 <= k < |log| :: Argued(cfg, k).Call? && log[k] == Asked(cfg, k)
  }

  /** The changes are in order, each but the last succeeds, and they stop only at the end
      of the request, after the first change that fails, or before a channel that does
      not parse. */
  predicate ExactCalls(cfg: Config, log: seq<S.Effect>)
    requires cfg.client.request.Volume? && C.RequestValid(cfg.client.request)
  {
    && InOrder(cfg, log)
    && (forall k | 0 <= k < |log| - 1 :: cfg.server.outcome(k))
    && (|| (|log| > 0 && !cfg.server.outcome(|log| - 1))
        || |log| == NumChannels(cfg)
        || !Argued(cfg, |log|).Call?)
  }

  lemma OneMoreCall(cfg: Config, log: seq<S.Effect>)
    requires cfg.client.request.Volume? && C.RequestValid(cfg.client.request)
    requires InOrder(cfg, log) && |log| < NumChannels(cfg) && Argued(cfg, |log|).Call?
    ensures S.ChangeVolume(cfg.server, log, C.Argument(cfg.client.request, |log|))
         == (log + [Asked(cfg, |log|)], cfg.server.outcome(|log|))
    ensures InOrder(cfg, log + [Asked(cfg, |log|)])
  {
  }

  lemma {:induction false} CallsAreExact(cfg: Config, log: seq<S.Effect>)
    requires cfg.client.request.Volume? && C.RequestValid(cfg.client.request) && InOrder(cfg, log)
    requires forall k | 0 <= k < |log| :: cfg.server.outcome(k)
    ensures ExactCalls(cfg, Calls(cfg, |log|, log))
    decreases NumChannels(cfg) - |log|
  {
    hide ParseVolCommand;
    if |log| < NumChannels(cfg) && Argued(cfg, |log|).Call? {
      OneMoreCall(cfg, log);
      if cfg.server.outcome(|log|) {
        CallsAreExact(cfg, log + [Asked(cfg, |log|)]);
      }
    }
  }

  lemma {:induction false} CallsExtend(cfg: Config, i: nat, log: seq<S.Effect>)
    requires cfg.client.request.Volume? && C.RequestValid(cfg.client.request) && i <= NumChannels(cfg)
    ensures log <= Calls(cfg, i, log)
    decreases NumChannels(cfg) - i
  {
    hide ParseVolCommand;
    if i < NumChannels(cfg) {
      var (log', ok) := S.ChangeVolume(cfg.server, log, C.Argument(cfg.client.request, i));
      if ok {
        CallsExtend(cfg, i + 1, log');
      }
    }
  }

  /** At every moment the effects so far begin the expected ones; when both sides have
      closed they are all of them, and the trailing `end` has added nothing. */
  lemma EffectsAreExpected(cfg: Config, states: seq<System>, acts: seq<Action>, i: nat)
    requires Valid(cfg) && Cooperative(cfg) && IsRun(cfg, states, acts) && i <= |acts|
    ensures states[i].s.log <= Expected(cfg)
    ensures BothEnded(states[i]) ==> states[i].s.log == Expected(cfg)
  {
    hide S.ChangeVolume, Live;
    var x := states[i];
    RunsAreSessions(cfg, states, acts, i);
    if ClientAt(x).WaitVolReply? {
      CallsExtend(cfg, ClientAt(x).i, x.s.log);
      CallsExtend(cfg, ClientAt(x).i + 1, x.s.log);
    }
  }

  /** End to end: a finished volume session has made exactly the requested changes up to
      and including the first that failed. */
  lemma VolumesAreExact(cfg: Config, states: seq<System>, acts: seq<Action>)
    requires Valid(cfg) && Cooperative(cfg) && cfg.client.request.Volume?
    requires IsRun(cfg, states, acts) && BothEnded(states[|acts|])
    ensures ExactCalls(cfg, states[|acts|].s.log)
  {
    EffectsAreExpected(cfg, states, acts, |acts|);
    CallsAreExact(cfg, []);
  }

  /** The same for a request given by separator-free names and numbers: no parsing is left
      in the statement. */
  lemma VolumesAsRequested(cfg: Config, lefts: seq<int>, rights: seq<int>, states: seq<System>, acts: seq<Action>)
    requires Valid(cfg) && Cooperative(cfg) && cfg.client.request.Volume?
    requires IsRun(cfg, states, acts) && BothEnded(states[|acts|])
    requires |lefts| == |rights| == NumChannels(cfg)
    requires forall k | 0 <= k < NumChannels(cfg) ::
               && SeparatorFree(cfg.client.request.channels[k]) && IsInt(lefts[k]) && IsInt(rights[k])
               && cfg.client.request.vols[k] == PrintVolumes(lefts[k], rights[k])
    ensures var log := states[|acts|].s.log;
            && 1 <= |log| <= NumChannels(cfg)
            && (forall k | 0 <= k < |log| :: log[k] == S.SetVolume(cfg.client.request.channels[k], lefts[k], rights[k]))
            && (forall k | 0 <= k < |log| - 1 :: cfg.server.outcome(k))
            && (|log| < NumChannels(cfg) ==> !cfg.server.outcome(|log| - 1))
  {
    VolumesAreExact(cfg, states, acts);
    forall k | 0 <= k < NumChannels(cfg)
      ensures Argued(cfg, k) == Call(cfg.client.request.channels[k], lefts[k], rights[k])
    {
      var arg := C.Argument(cfg.client.request, k);
      PrintParse(cfg.client.request.channels[k], lefts[k], rights[k], "");
      assert arg + "" == arg;
    }
  }

  /** A finished media session has pressed one key, whether it worked or not: XF86AudioPlay,
      XF86AudioNext or XF86AudioPrev of X11's XF86keysym.h. */
  lemma OneKeyIsPressed(cfg: Config, states: seq<System>, acts: seq<Action>)
    requires Valid(cfg) && Cooperative(cfg) && cfg.client.request.Media?
    requires IsRun(cfg, states, acts) && BothEnded(states[|acts|])
    ensures var cmd := cfg.client.request.cmd;
      states[|acts|].s.log
      == [S.MediaKey(if cmd.Play? then 0x1008ff14 else if cmd.Next? then 0x1008ff17 else 0x1008ff16)]
  {
    hide Step;
    EffectsAreExpected(cfg, states, acts, |acts|);
  }

  /** The status the client's command function returns in a finished session: for volumes
      SUCCESS exactly when every channel was set; for a media key that worked, SUCCESS
      exactly for `prev`, whose confirmation is not `ok`. */
  lemma StatusIsReported(cfg: Config, states: seq<System>, acts: seq<Action>)
    requires Valid(cfg) && Cooperative(cfg) && IsRun(cfg, states, acts) && BothEnded(states[|acts|])
    ensures var x := states[|acts|];
            match cfg.client.request
            case Volume(_, _) => x.c.command == Some(if Complete(cfg, x.s.log) then SUCCESS else FAILURE)
            case Media(cmd) => cfg.server.outcome(0) ==> (x.c.command == Some(SUCCESS) <==> cmd.Prev?)
            case Nothing => x.c.command == Some(SUCCESS)
  {
    RunsAreSessions(cfg, states, acts, |acts|);
  }

  /** A client that asks for encryption from a server without it changes nothing, and once
      it has left the handshake it has failed it. */
  lemma {:induction false} RefusedHasNoEffect(cfg: Config, states: seq<System>, acts: seq<Action>, i: nat)
    requires Valid(cfg) && cfg.client.useEnc && !cfg.server.useEnc && IsRun(cfg, states, acts) && i <= |acts|
    ensures states[i].s.log == []
    ensures InHandshake(ClientAt(states[i])) || Closing(ServerAt(states[i]))
    ensures InHandshake(ClientAt(states[i])) || states[i].c.handshake == Some(FAILURE)
  {
    hide Step, Live;
    if i > 0 {
      RefusedHasNoEffect(cfg, states, acts, i - 1);
      RunsAreLive(cfg, states, acts, i - 1);
      RefusedStep(cfg, acts[i - 1], states[i - 1], states[i]);
    }
  }

  /** However the refusals are read, a refused session ends in a failed handshake. */
  lemma RefusedFails(cfg: Config, states: seq<System>, acts: seq<Action>)
    requires Valid(cfg) && cfg.client.useEnc && !cfg.server.useEnc
    requires IsRun(cfg, states, acts) && BothEnded(states[|acts|])
    ensures states[|acts|].c.handshake == Some(FAILURE)
  {
    RefusedHasNoEffect(cfg, states, acts, |acts|);
  }

  lemma RefusedStep(cfg: Config, a: Action, x: System, y: System)
    requires Valid(cfg) && Live(cfg, x) && Step(cfg, a, x, y)
    requires cfg.client.useEnc && !cfg.server.useEnc && x.s.log == []
    requires InHandshake(ClientAt(x)) || (Closing(ServerAt(x)) && x.c.handshake == Some(FAILURE))
    ensures y.s.log == []
    ensures InHandshake(ClientAt(y)) || (Closing(ServerAt(y)) && y.c.handshake == Some(FAILURE))
  {
    match a
    case ServerSend => SendsAreInvisible(cfg, a, x, y);
    case ClientSend => SendsAreInvisible(cfg, a, x, y);
    case ServerRecv(_, _) => ServerTakes(cfg, a, x, y);
    case ClientRecv(_, _) => RefusedClientStep(cfg, a, x, y);
    case _ =>
  }

  lemma RefusedClientStep(cfg: Config, a: Action, x: System, y: System)
    requires Valid(cfg) && Live(cfg, x) && Step(cfg, a, x, y) && a.ClientRecv?
    requires cfg.client.useEnc && !cfg.server.useEnc
    requires InHandshake(ClientAt(x)) || (Closing(ServerAt(x)) && x.c.handshake == Some(FAILURE))
    ensures InHandshake(ClientAt(y)) || (Closing(ServerAt(y)) && y.c.handshake == Some(FAILURE))
  {
    hide S.Receive;
    ClientTakes(cfg, a, x, y);
    if !InHandshake(x.c.pc) { ClientAfterHandshake(cfg.client, x.c, C.Arrival(x.toClient[..a.k], a.r)); }
    match x.c.pc
    case WaitHelo => ClientGetsHelo(cfg, a, x, y);
    case WaitPub => ClientGetsKey(cfg, a, x, y);
    case WaitSecret(_, _, _) => ClientGetsSecret(cfg, a, x, y);
    case WaitRedy => FinishPending(cfg.client, x.c, FAILURE);
    case _ =>
  }

  // ---------------------------------------------------------------- lock step

  function InFlight(x: System): nat { |x.toServer| + |x.toClient| }

  /** Until the server fails, and outside the key exchange, at most one message is under
      way, counting both directions and what either side is already committed to send. */
  lemma LockStep(cfg: Config, states: seq<System>, acts: seq<Action>, i: nat)
    requires Valid(cfg) && Cooperative(cfg) && IsRun(cfg, states, acts) && i <= |acts|
    requires !S.Failed(ServerAt(states[i])) && !ClientAt(states[i]).WaitSecret?
    ensures |Up(states[i])| + |Down(states[i])| <= 1
    ensures InFlight(states[i]) <= 1
  {
    RunsAreSessions(cfg, states, acts, i);
  }

  predicate Framed(a: Action) {
    match a
    case ServerRecv(k, _) => k <= 1
    case ClientRecv(k, _) => k <= 1
    case _ => true
  }

  lemma UnfailedStepIsFramed(cfg: Config, a: Action, x: System, y: System)
    requires Valid(cfg) && Cooperative(cfg) && Session(cfg, x) && Step(cfg, a, x, y) && !S.Failed(ServerAt(x))
    ensures Framed(a)
  {
    hide C.Receive, S.Receive, Calls, Expected, Complete, Agreed, Handshaken, Delivers, Modes;
    if a.ServerRecv? { ServerTakes(cfg, a, x, y); }
    if a.ClientRecv? { ClientTakes(cfg, a, x, y); }
    if a.ClientRecv? && x.c.pc.WaitSecret? && Down(x) != [] {
      NextEnvelope(cfg, x.c.pc.isKey, x.c.pc.part);
    }
  }

  /** Until the server fails no `recv` can glue sends together: a run over the byte stream
      is a run over a message queue. */
  lemma StreamIsMessageQueue(cfg: Config, states: seq<System>, acts: seq<Action>, i: nat)
    requires Valid(cfg) && Cooperative(cfg) && IsRun(cfg, states, acts) && i < |acts|
    requires !S.Failed(ServerAt(states[i]))
    ensures Framed(acts[i])
  {
    RunsAreSessions(cfg, states, acts, i);
    UnfailedStepIsFramed(cfg, acts[i], states[i], states[i + 1]);
  }

  /** The server's loop bound is the client's number of channels, and the two indices
      agree: the server is at the client's channel, or has just answered it. */
  lemma LoopsAgree(cfg: Config, states: seq<System>, acts: seq<Action>, i: nat)
    requires Valid(cfg) && Cooperative(cfg) && IsRun(cfg, states, acts) && i <= |acts|
    requires ClientAt(states[i]).WaitVolReply? && ServerAt(states[i]).WaitArg?
    ensures cfg.client.request.Volume? && ServerAt(states[i]).n == NumChannels(cfg)
    ensures ServerAt(states[i]).i == ClientAt(states[i]).i + if Up(states[i]) == [] then 1 else 0
  {
    RunsAreSessions(cfg, states, acts, i);
  }
}