/** The Android client and the server child process, interleaved step by step: one
    connection, any number of commands. */
module AndroidSession {
  import opened Wrappers
  import opened CText
  import opened VolumeCommand
  import opened Wire
  import S = ServerProgram
  import A = AndroidClient
  import P = Progress
  import E = SessionEffects
  import C = ClientProgram

  datatype Config = Config(server: S.Config, client: A.Config)

  /** Every volume argument, with its newline, fits the server's receive buffer. */
  predicate Valid(cfg: Config) {
    && A.Valid(cfg.client)
    && forall k | 0 <= k < |cfg.client.commands| :: ArgumentsFit(cfg.client.commands[k])
  }

  predicate ArgumentsFit(command: A.Command) {
    command.Volume? ==> forall i | 0 <= i < |command.arguments| :: Fits(command.arguments[i] + "\n")
  }

  datatype System = System(s: S.State, c: A.State, toServer: seq<Packet>, toClient: seq<Packet>)

  function Init(cfg: Config): System {
    System(S.Start(cfg.server), A.Start(cfg.client), [], [])
  }

  datatype Action =
    | ServerSend | ServerRecv(k: nat, r: RecvResult) | ServerClose
    | ClientSend | ClientRecv(line: Option<string>) | ClientBegin | ClientQuit

  predicate ServerReceives(cfg: Config, k: nat, r: RecvResult, x: System, y: System) {
    && S.Waiting(x.s.pc)
    && Takes(x.toServer, k, x.c.pc.Dead?)
    && Delivers(S.ReceivesEncrypted(cfg.server, x.s), cfg.server.keys, x.toServer[..k], r)
    && y == x.(s := S.Receive(cfg.server, x.s, r), toServer := x.toServer[k..])
  }

  /** The client reads line by line, which for lines is send by send. */
  predicate ClientReceives(cfg: Config, line: Option<string>, x: System, y: System) {
    && A.Waiting(x.c.pc) && A.PointFits(cfg.client, x.c)
    && match line
       case Some(text) =>
         && x.toClient != [] && x.toClient[0].Text? && A.IsLine(x.toClient[0].s) && text == A.Chomp(x.toClient[0].s)
         && y == x.(c := A.Receive(cfg.client, x.c, line), toClient := x.toClient[1..])
       case None =>
         && x.toClient == [] && x.s.pc.Ended?
         && y == x.(c := A.Receive(cfg.client, x.c, line))
  }

  /** The client begins the next command at a command boundary, or quits when there are no
      more. */
  predicate Step(cfg: Config, a: Action, x: System, y: System) {
    match a
    case ServerSend =>
      x.s.pc.Send? && y == x.(s := x.s.(pc := x.s.pc.next), toClient := x.toClient + [x.s.pc.pkt])
    case ClientSend =>
      x.c.pc.Send? && y == x.(c := x.c.(pc := x.c.pc.next), toServer := x.toServer + [x.c.pc.pkt])
    case ServerClose =>
      x.s.pc.Close? && y == x.(s := x.s.(pc := S.Ended(x.s.pc.failed)))
    case ServerRecv(k, r) => ServerReceives(cfg, k, r, x, y)
    case ClientRecv(line) => ClientReceives(cfg, line, x, y)
    case ClientBegin =>
      (x.c.pc.Boundary? || x.c.pc.Dead?) && x.c.done < |cfg.client.commands|
      && y == x.(c := A.Begin(cfg.client, x.c))
    case ClientQuit =>
      x.c.pc.Boundary? && x.c.done == |cfg.client.commands| && y == x.(c := A.Quit(x.c))
  }

  predicate IsRun(cfg: Config, states: seq<System>, acts: seq<Action>) {
    && |states| == |acts| + 1
    && states[0] == Init(cfg)
    && forall i | 0 <= i < |acts| :: Step(cfg, acts[i], states[i], states[i + 1])
  }

  // ---------------------------------------------------------------- effects

  /** What the first i channels of a volume command ask for. */
  function Changes(command: A.Command, i: nat): seq<S.Effect>
    requires command.Volume? && i <= |command.arguments|
  {
    if i == 0 then [] else Changes(command, i - 1) + Change(command.arguments[i - 1] + "\n")
  }

  /** What one argument asks for: nothing, if it does not parse. */
  function Change(arg: string): seq<S.Effect> {
    match ParseVolCommand(arg)
    case Call(channel, left, right) => [S.SetVolume(channel, left, right)]
    case _ => []
  }

  function Effects(command: A.Command): seq<S.Effect> {
    match command
    case Volume(arguments) => Changes(command, |arguments|)
    case Media(cmd) => [S.MediaKey(E.KeyOf(cmd))]
  }

  /** The effects of the first k commands, one command after the other. */
  function AllEffects(cfg: Config, k: nat): seq<S.Effect>
    requires k <= |cfg.client.commands|
  {
    if k == 0 then [] else AllEffects(cfg, k - 1) + Effects(cfg.client.commands[k - 1])
  }

  lemma ChangeAsRequested(channel: string, left: int, right: int)
    requires SeparatorFree(channel) && IsInt(left) && IsInt(right)
    ensures Change(PrintArgument(channel, PrintVolumes(left, right)) + "\n") == [S.SetVolume(channel, left, right)]
  {
    PrintParse(channel, left, right, "\n");
  }

  /** One effect for each argument gives one effect after the other. */
  lemma {:induction false} ChangesInOrder(command: A.Command, wanted: seq<S.Effect>, i: nat)
    requires command.Volume? && i <= |command.arguments| == |wanted|
    requires forall k | 0 <= k < |wanted| :: Change(command.arguments[k] + "\n") == [wanted[k]]
    ensures Changes(command, i) == wanted[..i]
  {
    hide ParseVolCommand;
    if i > 0 {
      ChangesInOrder(command, wanted, i - 1);
    }
  }

  /** For separator-free names a volume command sets every channel once, in order. */
  lemma ChangesAsRequested(channels: seq<string>, left: int, right: int)
    requires IsInt(left) && IsInt(right)
    requires forall k | 0 <= k < |channels| :: SeparatorFree(channels[k])
    ensures Effects(A.VolumeCommandFor(channels, left, right))
         == seq(|channels|, k requires 0 <= k < |channels| => S.SetVolume(channels[k], left, right))
  {
    var wanted := seq(|channels|, k requires 0 <= k < |channels| => S.SetVolume(channels[k], left, right));
    var command := A.VolumeCommandFor(channels, left, right);
    forall k | 0 <= k < |channels|
      ensures Change(command.arguments[k] + "\n") == [wanted[k]]
    {
      ChangeAsRequested(channels[k], left, right);
    }
    ChangesInOrder(command, wanted, |channels|);
  }

  // ---------------------------------------------------------------- the pending view

  function ServerAt(x: System): S.Pc { S.Target(x.s.pc) }

  function ClientAt(x: System): A.Pc { A.Target(x.c.pc) }

  function Up(x: System): seq<Packet> { x.toServer + A.Outgoing(x.c.pc) }

  function Down(x: System): seq<Packet> { x.toClient + S.Outgoing(x.s.pc) }

  lemma SendsAreInvisible(cfg: Config, a: Action, x: System, y: System)
    requires Step(cfg, a, x, y) && (a.ServerSend? || a.ClientSend?)
    ensures ServerAt(y) == ServerAt(x) && ClientAt(y) == ClientAt(x) && Up(y) == Up(x) && Down(y) == Down(x)
  {
    if a.ServerSend? {
      assert Down(y) == x.toClient + ([x.s.pc.pkt] + S.Outgoing(x.s.pc.next));
    } else {
      assert Up(y) == x.toServer + ([x.c.pc.pkt] + A.Outgoing(x.c.pc.next));
    }
  }

  /** The server reads a single plain message. */
  lemma ServerReads(cfg: Config, k: nat, r: RecvResult, x: System, y: System, s: string)
    requires ServerReceives(cfg, k, r, x, y) && Up(x) == [Text(s)] && Fits(s) && !x.s.crypto
    ensures k == 1 && y.s == S.Receive(cfg.server, x.s, Got(s)) && y.c == x.c
    ensures ServerAt(x) == x.s.pc && ClientAt(y) == ClientAt(x)
    ensures Up(y) == [] && Down(y) == Down(x) + S.Outgoing(y.s.pc)
  {
    assert x.toServer != [] && x.toServer == Up(x);
    DeliversSingle(false, cfg.server.keys, s, r);
  }

  /** The client reads a single line. */
  lemma ClientReads(cfg: Config, line: Option<string>, x: System, y: System, s: string)
    requires ClientReceives(cfg, line, x, y) && Down(x) == [Text(s)]
    ensures line.Some? && s != "" && y.c == A.Receive(cfg.client, x.c, Some(A.Chomp(s))) && y.s == x.s
    ensures ClientAt(x) == x.c.pc && ServerAt(y) == ServerAt(x)
    ensures Down(y) == [] && Up(y) == Up(x) + A.Outgoing(y.c.pc)
  {
    if line.Some? {
      assert x.toClient == Down(x);
    }
  }

  /** With nothing under way to the client it can only find the connection closed. */
  lemma ClientFindsNothing(cfg: Config, line: Option<string>, x: System, y: System)
    requires ClientReceives(cfg, line, x, y) && Down(x) == []
    ensures ServerAt(x).Ended?
  {
  }

  lemma ServerFindsNothing(cfg: Config, k: nat, r: RecvResult, x: System, y: System)
    requires ServerReceives(cfg, k, r, x, y) && Up(x) == []
    ensures x.c.pc.Dead? && ServerAt(x) == x.s.pc
  {
  }

  // ---------------------------------------------------------------- the invariant

  predicate Confirmation(s: string) { s == "ok\n" || s == "prev\n" }

  predicate Answer(s: string) { s == "ok\n" || s == "err\n" }

  /** Command k is a media key that does not work when its turn comes. */
  predicate Fails(cfg: Config, k: nat)
    requires k < |cfg.client.commands|
  {
    cfg.client.commands[k].Media? && !cfg.server.outcome(|AllEffects(cfg, k)|)
  }

  /** All media keys among the first k commands work. */
  predicate Worked(cfg: Config, k: nat)
    requires k <= |cfg.client.commands|
  {
    forall j | 0 <= j < k :: !Fails(cfg, j)
  }

  /** The session broke off at command m, the first media key that failed, which was the
      last thing the server did. */
  predicate BrokenAt(cfg: Config, x: System, m: nat) {
    && m < |cfg.client.commands| && Worked(cfg, m) && Fails(cfg, m)
    && x.s.log == AllEffects(cfg, m + 1)
    && (m < x.c.done || (m == x.c.done && ClientAt(x).WaitMedia?))
  }

  ghost predicate Broken(cfg: Config, x: System) { exists m :: BrokenAt(cfg, x, m) }

  predicate AtVolOk(cfg: Config, x: System)
    requires x.c.done <= |cfg.client.commands|
  {
    && x.s.log == AllEffects(cfg, x.c.done)
    && (|| (ServerAt(x).WaitCmd? && Up(x) == [Text("vol\n")] && Down(x) == [])
        || (ServerAt(x).WaitCount? && Up(x) == [] && Down(x) == [Text("ok\n")]))
  }

  predicate AtCountOk(cfg: Config, x: System, n: nat)
    requires x.c.done <= |cfg.client.commands|
  {
    && x.s.log == AllEffects(cfg, x.c.done)
    && (|| (ServerAt(x).WaitCount? && Up(x) == [Text(Itoa(n) + "\n")] && Down(x) == [])
        || (ServerAt(x) == S.LoopPc(0, n) && Up(x) == [] && Down(x) == [Text("ok\n")]))
  }

  predicate AtReply(cfg: Config, x: System, i: nat, command: A.Command)
    requires command.Volume? && i < |command.arguments| && x.c.done <= |cfg.client.commands|
  {
    var n := |command.arguments|;
    || (ServerAt(x) == S.WaitArg(i, n) && Up(x) == [Text(command.arguments[i] + "\n")] && Down(x) == []
        && x.s.log == AllEffects(cfg, x.c.done) + Changes(command, i))
    || (ServerAt(x) == S.LoopPc(i + 1, n) && Up(x) == [] && |Down(x)| == 1 && Down(x)[0].Text? && Answer(Down(x)[0].s)
        && x.s.log == AllEffects(cfg, x.c.done) + Changes(command, i + 1))
  }

  predicate AtMedia(cfg: Config, x: System, cmd: C.MediaCmd)
    requires x.c.done < |cfg.client.commands|
  {
    || (ServerAt(x).WaitCmd? && Up(x) == [Text(A.MediaWord(cmd) + "\n")] && Down(x) == []
        && x.s.log == AllEffects(cfg, x.c.done))
    || (ServerAt(x).WaitCmd? && Up(x) == [] && |Down(x)| == 1 && Down(x)[0].Text? && Confirmation(Down(x)[0].s)
        && x.s.log == AllEffects(cfg, x.c.done + 1) && Worked(cfg, x.c.done + 1))
  }

  predicate AtBoundary(cfg: Config, x: System)
    requires x.c.done <= |cfg.client.commands|
  {
    x.s.log == AllEffects(cfg, x.c.done) && ServerAt(x).WaitCmd? && Up(x) == [] && Down(x) == []
  }

  /** The phases of a session whose media keys have all worked. */
  predicate Phase(cfg: Config, x: System)
    requires A.PointFits(cfg.client, x.c)
  {
    FitsTarget(cfg, x);
    Worked(cfg, x.c.done) &&
    match ClientAt(x)
    case Send(_, _) => false
    case WaitHelo =>
      x.c.done == 0 && x.s.log == [] && ServerAt(x).WaitEnc? && Up(x) == [] && Down(x) == [Text("helo\n")]
    case WaitRedy =>
      x.c.done == 0 && x.s.log == []
      && (|| (ServerAt(x).WaitEnc? && Up(x) == [Text("noenc\n")] && Down(x) == [])
          || (ServerAt(x).WaitCmd? && Up(x) == [] && Down(x) == [Text("redy\n")]))
    case Boundary => AtBoundary(cfg, x)
    case WaitVolOk => AtVolOk(cfg, x)
    case WaitCountOk => AtCountOk(cfg, x, |A.Current(cfg.client, x.c).arguments|)
    case WaitReply(i) => AtReply(cfg, x, i, A.Current(cfg.client, x.c))
    case WaitMedia => AtMedia(cfg, x, A.Current(cfg.client, x.c).cmd)
    case Dead =>
      x.c.done == |cfg.client.commands| && x.s.log == AllEffects(cfg, x.c.done)
      && (|| (ServerAt(x).WaitCmd? && Up(x) == [Text("end\n")] && Down(x) == [])
          || ((ServerAt(x) == S.Close(false) || ServerAt(x) == S.Ended(false))
              && Up(x) == [] && Down(x) == [Text("bye\n")]))
  }

  lemma FitsTarget(cfg: Config, x: System)
    requires A.PointFits(cfg.client, x.c)
    ensures A.PcFits(cfg.client, x.c.done, ClientAt(x)) && x.c.done <= |cfg.client.commands|
  {
    TargetFits(cfg.client, x.c.done, x.c.pc);
  }

  lemma {:induction false} TargetFits(cfg: A.Config, done: nat, pc: A.Pc)
    requires A.PcFits(cfg, done, pc)
    ensures A.PcFits(cfg, done, A.Target(pc)) && !A.Target(pc).Send?
  {
    if pc.Send? { TargetFits(cfg, done, pc.next); }
  }

  /** Everything under way to the client is a plain line. */
  predicate Plain(x: System) {
    !x.s.crypto && !x.s.isEnc && forall p | p in Down(x) :: p.Text? && A.IsLine(p.s)
  }

  ghost predicate Inv(cfg: Config, x: System) {
    && A.PointFits(cfg.client, x.c)
    && Plain(x)
    && if S.Failed(ServerAt(x)) then Broken(cfg, x) else Phase(cfg, x)
  }

  // ---------------------------------------------------------------- steps of the server

  lemma WordsAreLines()
    ensures A.IsLine("helo\n") && A.IsLine("redy\n") && A.IsLine("ok\n") && A.IsLine("err\n")
    ensures A.IsLine("prev\n") && A.IsLine("bye\n") && A.IsLine("end\n")
  {
  }

  /** The server reads one message and answers it with one line. */
  lemma ServerAnswers(cfg: Config, k: nat, r: RecvResult, x: System, y: System,
                      s: string, t: S.State, reply: string, next: S.Pc)
    requires ServerReceives(cfg, k, r, x, y) && Plain(x) && Up(x) == [Text(s)] && Down(x) == [] && Fits(s)
    requires S.Waiting(x.s.pc) ==> S.Receive(cfg.server, x.s, Got(s)) == S.Reply(cfg.server, t, reply, next)
    requires !t.crypto && !t.isEnc && !next.Send? && A.IsLine(reply)
    ensures y.c == x.c && Plain(y) && y.s.log == t.log
    ensures ServerAt(y) == next && Up(y) == [] && Down(y) == [Text(reply)]
  {
    ServerReads(cfg, k, r, x, y, s);
    Answered(x, y, reply, next);
  }

  lemma Answered(x: System, y: System, reply: string, next: S.Pc)
    requires Plain(x) && !y.s.crypto && !y.s.isEnc && y.s.pc == S.Send(Text(reply), next) && !next.Send?
    requires Down(x) == [] && Down(y) == Down(x) + S.Outgoing(y.s.pc) && A.IsLine(reply)
    ensures Plain(y) && ServerAt(y) == next && Down(y) == [Text(reply)]
  {
    P.ReplyPending(Text(reply), next);
  }

  lemma ServerGetsNoenc(cfg: Config, k: nat, r: RecvResult, x: System, y: System)
    requires ServerReceives(cfg, k, r, x, y) && Plain(x) && x.s.pc.WaitEnc?
    requires Up(x) == [Text("noenc\n")] && Down(x) == []
    ensures y.c == x.c && Plain(y) && y.s.log == x.s.log
    ensures ServerAt(y).WaitCmd? && Up(y) == [] && Down(y) == [Text("redy\n")]
  {
    WordsAreLines();
    ServerAnswers(cfg, k, r, x, y, "noenc\n", x.s.(clientEnc := false), "redy\n", S.WaitCmd);
  }

  lemma ServerGetsVol(cfg: Config, k: nat, r: RecvResult, x: System, y: System)
    requires ServerReceives(cfg, k, r, x, y) && Plain(x) && x.s.pc.WaitCmd?
    requires Up(x) == [Text("vol\n")] && Down(x) == []
    ensures y.c == x.c && Plain(y) && y.s.log == x.s.log
    ensures ServerAt(y).WaitCount? && Up(y) == [] && Down(y) == [Text("ok\n")]
  {
    WordsAreLines();
    ServerAnswers(cfg, k, r, x, y, "vol\n", x.s, "ok\n", S.WaitCount);
  }

  lemma ServerGetsCount(cfg: Config, k: nat, r: RecvResult, x: System, y: System, n: nat)
    requires ServerReceives(cfg, k, r, x, y) && Plain(x) && x.s.pc.WaitCount?
    requires Up(x) == [Text(Itoa(n) + "\n")] && Down(x) == [] && n <= INT_MAX
    ensures y.c == x.c && Plain(y) && y.s.log == x.s.log
    ensures ServerAt(y) == S.LoopPc(0, n) && Up(y) == [] && Down(y) == [Text("ok\n")]
  {
    WordsAreLines();
    E.CountFits(n);
    CountAgrees(n);
    ServerAnswers(cfg, k, r, x, y, Itoa(n) + "\n", x.s, "ok\n", S.LoopPc(0, n));
  }

  lemma ServerTakesArgument(cfg: Config, x: System, y: System, i: nat, n: nat, arg: string)
    requires Plain(x) && x.s.pc == S.WaitArg(i, n) && Down(x) == []
    requires y.s == S.Receive(cfg.server, x.s, Got(arg)) && Down(y) == Down(x) + S.Outgoing(y.s.pc)
    ensures Plain(y) && y.s.log == x.s.log + Change(arg) && ServerAt(y) == S.LoopPc(i + 1, n)
    ensures |Down(y)| == 1 && Down(y)[0].Text? && Answer(Down(y)[0].s)
  {
    hide ParseVolCommand, Changes, AllEffects;
    var reply := ArgumentAnswer(cfg, x.s, y.s, arg);
    Answered(x, y, reply, S.LoopPc(i + 1, n));
  }

  lemma ArgumentAnswer(cfg: Config, st: S.State, t: S.State, arg: string) returns (reply: string)
    requires st.pc.WaitArg? && !st.crypto && t == S.Receive(cfg.server, st, Got(arg))
    ensures Answer(reply) && A.IsLine(reply)
    ensures t == st.(log := st.log + Change(arg), pc := S.Send(Text(reply), S.LoopPc(st.pc.i + 1, st.pc.n)))
  {
    hide ParseVolCommand;
    WordsAreLines();
    reply := if S.ChangeVolume(cfg.server, st.log, arg).1 then "ok\n" else "err\n";
  }

  lemma MediaWords(cmd: C.MediaCmd)
    ensures A.MediaWord(cmd) + "\n" == C.MediaWord(cmd)
    ensures Confirmation(E.Confirmation(cmd)) && A.IsLine(E.Confirmation(cmd))
  {
    WordsAreLines();
  }

  lemma ServerGetsMedia(cfg: Config, k: nat, r: RecvResult, x: System, y: System, cmd: C.MediaCmd)
    requires ServerReceives(cfg, k, r, x, y) && Plain(x) && x.s.pc.WaitCmd?
    requires Up(x) == [Text(C.MediaWord(cmd))] && Down(x) == []
    ensures y.c == x.c && Plain(y) && y.s.log == x.s.log + [S.MediaKey(E.KeyOf(cmd))]
    ensures if cfg.server.outcome(|x.s.log|)
            then ServerAt(y).WaitCmd? && Up(y) == [] && Down(y) == [Text(E.Confirmation(cmd))]
            else ServerAt(y) == S.Close(true) && Down(y) == [Text("err\n"), Text("end\n")]
  {
    WordsAreLines();
    MediaWords(cmd);
    E.MediaCommands(cmd);
    var st := x.s.(log := x.s.log + [S.MediaKey(E.KeyOf(cmd))]);
    if cfg.server.outcome(|x.s.log|) {
      ServerAnswers(cfg, k, r, x, y, C.MediaWord(cmd), st, E.Confirmation(cmd), S.WaitCmd);
    } else {
      ServerReads(cfg, k, r, x, y, C.MediaWord(cmd));
      P.AbortPending(cfg.server, st, Text("err\n"));
    }
  }

  lemma ServerGetsEnd(cfg: Config, k: nat, r: RecvResult, x: System, y: System)
    requires ServerReceives(cfg, k, r, x, y) && Plain(x) && x.s.pc.WaitCmd?
    requires Up(x) == [Text("end\n")] && Down(x) == []
    ensures y.c == x.c && Plain(y) && y.s.log == x.s.log
    ensures ServerAt(y) == S.Close(false) && Up(y) == [] && Down(y) == [Text("bye\n")]
  {
    WordsAreLines();
    ServerAnswers(cfg, k, r, x, y, "end\n", x.s, "bye\n", S.Close(false));
  }

  lemma ServerRecvOfCount(cfg: Config, k: nat, r: RecvResult, x: System, y: System, n: nat)
    requires ServerReceives(cfg, k, r, x, y) && Plain(x) && Up(x) != []
    requires x.c.done <= |cfg.client.commands| && n <= INT_MAX && AtCountOk(cfg, x, n)
    ensures y.c == x.c && Plain(y) && AtCountOk(cfg, y, n) && !S.Failed(ServerAt(y))
  {
    ServerGetsCount(cfg, k, r, x, y, n);
  }

  lemma ServerRecvOfArgument(cfg: Config, k: nat, r: RecvResult, x: System, y: System, i: nat, command: A.Command)
    requires ServerReceives(cfg, k, r, x, y) && Plain(x) && Up(x) != []
    requires x.c.done <= |cfg.client.commands| && command.Volume? && i < |command.arguments| && ArgumentsFit(command)
    requires AtReply(cfg, x, i, command)
    ensures y.c == x.c && Plain(y) && AtReply(cfg, y, i, command) && !S.Failed(ServerAt(y))
  {
    hide ParseVolCommand, AllEffects, Change, S.Receive, A.Receive;
    var arg := command.arguments[i] + "\n";
    ServerReads(cfg, k, r, x, y, arg);
    ServerTakesArgument(cfg, x, y, i, |command.arguments|, arg);
    assert Changes(command, i + 1) == Changes(command, i) + Change(arg);
    assert AllEffects(cfg, x.c.done) + Changes(command, i) + Change(arg)
        == AllEffects(cfg, x.c.done) + Changes(command, i + 1);
  }

  lemma ServerRecvOfMedia(cfg: Config, k: nat, r: RecvResult, x: System, y: System, cmd: C.MediaCmd)
    requires ServerReceives(cfg, k, r, x, y) && Plain(x) && Up(x) != [] && ClientAt(x).WaitMedia?
    requires x.c.done < |cfg.client.commands| && cfg.client.commands[x.c.done] == A.Media(cmd) && AtMedia(cfg, x, cmd)
    requires Worked(cfg, x.c.done)
    ensures y.c == x.c && Plain(y)
    ensures if S.Failed(ServerAt(y)) then Broken(cfg, y) && Down(y) == [Text("err\n"), Text("end\n")]
            else AtMedia(cfg, y, cmd)
  {
    hide Change, S.Receive, Worked, AllEffects;
    MediaWords(cmd);
    ServerGetsMedia(cfg, k, r, x, y, cmd);
    MediaEffect(cfg, x.c.done);
    if Fails(cfg, x.c.done) {
      assert BrokenAt(cfg, y, x.c.done);
    } else {
      OneMoreWorked(cfg, x.c.done);
    }
  }

  lemma OneMoreWorked(cfg: Config, k: nat)
    requires k < |cfg.client.commands| && Worked(cfg, k) && !Fails(cfg, k)
    ensures Worked(cfg, k + 1)
  {
  }

  lemma NothingYet(cfg: Config)
    ensures AllEffects(cfg, 0) == []
  {
  }

  lemma MediaEffect(cfg: Config, k: nat)
    requires k < |cfg.client.commands| && cfg.client.commands[k].Media?
    ensures AllEffects(cfg, k + 1) == AllEffects(cfg, k) + [S.MediaKey(E.KeyOf(cfg.client.commands[k].cmd))]
  {
  }

  lemma ServerRecvKeepsInv(cfg: Config, k: nat, r: RecvResult, x: System, y: System)
    requires Valid(cfg) && Inv(cfg, x) && ServerReceives(cfg, k, r, x, y)
    ensures Inv(cfg, y)
    ensures !S.Failed(ServerAt(x)) && y.c == x.c
    ensures S.Failed(ServerAt(y)) ==> ClientAt(y).WaitMedia? && Down(y) == [Text("err\n"), Text("end\n")]
  {
    hide Change, S.Receive, Worked, AllEffects, Itoa;
    if Up(x) == [] { ServerFindsNothing(cfg, k, r, x, y); }
    FitsTarget(cfg, x);
    match ClientAt(x)
    case WaitRedy => ServerGetsNoenc(cfg, k, r, x, y);
    case WaitVolOk => ServerGetsVol(cfg, k, r, x, y);
    case WaitCountOk =>
      assert A.CommandValid(A.Current(cfg.client, x.c));
      ServerRecvOfCount(cfg, k, r, x, y, |A.Current(cfg.client, x.c).arguments|);
    case WaitReply(i) =>
      assert ArgumentsFit(A.Current(cfg.client, x.c));
      ServerRecvOfArgument(cfg, k, r, x, y, i, A.Current(cfg.client, x.c));
    case WaitMedia => ServerRecvOfMedia(cfg, k, r, x, y, A.Current(cfg.client, x.c).cmd);
    case Dead => ServerGetsEnd(cfg, k, r, x, y);
    case _ =>
  }

  // ---------------------------------------------------------------- steps of the client

  /** The words of the server, without their newlines. */
  lemma Chomped()
    ensures A.Chomp("helo\n") == "helo" && A.Chomp("redy\n") == "redy"
    ensures A.Chomp("ok\n") == "ok" && A.Chomp("prev\n") == "prev" && A.Chomp("err\n") == "err"
  {
  }

  lemma ClientSends(s: string, next: A.Pc)
    requires !next.Send?
    ensures A.Target(A.Send(A.Println(s), next)) == next && A.Outgoing(A.Send(A.Println(s), next)) == [Text(s + "\n")]
  {
  }

  /** The client's next argument, or the end of the command. */
  lemma LoopPending(cfg: Config, st: A.State, i: nat)
    requires st.done < |cfg.client.commands| && A.Current(cfg.client, st).Volume?
    requires i <= |A.Current(cfg.client, st).arguments|
    ensures var t := A.LoopState(cfg.client, st, i);
      if i < |A.Current(cfg.client, st).arguments| then
        && t.done == st.done && A.Target(t.pc) == A.WaitReply(i)
        && A.Outgoing(t.pc) == [Text(A.Current(cfg.client, st).arguments[i] + "\n")]
      else t == A.Finished(st) && A.Target(t.pc) == A.Boundary && A.Outgoing(t.pc) == []
  {
    if i < |A.Current(cfg.client, st).arguments| {
      ClientSends(A.Current(cfg.client, st).arguments[i], A.WaitReply(i));
    }
  }

  lemma NextCommand(cfg: Config, k: nat)
    requires k < |cfg.client.commands|
    ensures AllEffects(cfg, k + 1) == AllEffects(cfg, k) + Effects(cfg.client.commands[k])
  {
  }

  lemma ClientGetsHelo(cfg: Config, line: Option<string>, x: System, y: System)
    requires ClientReceives(cfg, line, x, y) && x.c.pc.WaitHelo? && Down(x) == [Text("helo\n")]
    ensures y.c.done == x.c.done && ClientAt(y) == A.WaitRedy && y.s == x.s && ServerAt(y) == ServerAt(x)
    ensures Up(y) == Up(x) + [Text("noenc\n")] && Down(y) == []
  {
    ClientReads(cfg, line, x, y, "helo\n");
    Chomped();
    ClientSends("noenc", A.WaitRedy);
    assert "noenc" + "\n" == "noenc\n";
  }

  lemma ClientGetsRedy(cfg: Config, line: Option<string>, x: System, y: System)
    requires ClientReceives(cfg, line, x, y) && x.c.pc.WaitRedy? && Down(x) == [Text("redy\n")]
    ensures y.c.done == x.c.done && ClientAt(y) == A.Boundary && y.s == x.s && ServerAt(y) == ServerAt(x)
    ensures Up(y) == Up(x) && Down(y) == []
  {
    ClientReads(cfg, line, x, y, "redy\n");
    Chomped();
  }

  lemma ClientGetsVolOk(cfg: Config, line: Option<string>, x: System, y: System)
    requires ClientReceives(cfg, line, x, y) && x.c.pc.WaitVolOk? && Down(x) == [Text("ok\n")]
    ensures y.c.done == x.c.done && ClientAt(y) == A.WaitCountOk && y.s == x.s && ServerAt(y) == ServerAt(x)
    ensures Up(y) == Up(x) + [Text(Itoa(|A.Current(cfg.client, x.c).arguments|) + "\n")] && Down(y) == []
  {
    ClientReads(cfg, line, x, y, "ok\n");
    Chomped();
    ClientSends(Itoa(|A.Current(cfg.client, x.c).arguments|), A.WaitCountOk);
  }

  /** An `err` for one channel is no reason to stop. */
  lemma ClientGoesOn(cfg: Config, line: Option<string>, x: System, y: System, i: nat, answer: string)
    requires ClientReceives(cfg, line, x, y) && Down(x) == [Text(answer)] && Answer(answer)
    requires if x.c.pc.WaitCountOk? then i == 0 && answer == "ok\n" else x.c.pc.WaitReply? && x.c.pc.i + 1 == i
    ensures x.c.done < |cfg.client.commands| && A.Current(cfg.client, x.c).Volume?
    ensures y.c == A.LoopState(cfg.client, x.c, i) && y.s == x.s && ServerAt(y) == ServerAt(x)
    ensures Up(y) == Up(x) + A.Outgoing(y.c.pc) && Down(y) == []
  {
    ClientReads(cfg, line, x, y, answer);
    Chomped();
  }

  /** The program at the test of its channel loop, with i channels answered. */
  lemma AtLoopTest(cfg: Config, x: System, y: System, i: nat, command: A.Command)
    requires x.c.done < |cfg.client.commands| && command == A.Current(cfg.client, x.c) && command.Volume?
    requires i <= |command.arguments| && y.c == A.LoopState(cfg.client, x.c, i)
    requires ServerAt(y) == S.LoopPc(i, |command.arguments|) && Up(y) == A.Outgoing(y.c.pc) && Down(y) == []
    requires y.s.log == AllEffects(cfg, x.c.done) + Changes(command, i)
    ensures y.c.done <= |cfg.client.commands|
    ensures if i < |command.arguments|
            then y.c.done == x.c.done && ClientAt(y) == A.WaitReply(i) && AtReply(cfg, y, i, command)
            else y.c.done == x.c.done + 1 && ClientAt(y) == A.Boundary && AtBoundary(cfg, y)
  {
    hide AllEffects, Change, Itoa;
    LoopPending(cfg, x.c, i);
    NextCommand(cfg, x.c.done);
  }

  /** The client in a volume command takes the answer to the count, or to a channel. */
  lemma ClientInVolume(cfg: Config, line: Option<string>, x: System, y: System,
                       i: nat, command: A.Command, answer: string)
    requires ClientReceives(cfg, line, x, y) && Down(x) == [Text(answer)] && Answer(answer) && Up(x) == []
    requires if x.c.pc.WaitCountOk? then i == 0 && answer == "ok\n" else x.c.pc.WaitReply? && x.c.pc.i + 1 == i
    requires x.c.done < |cfg.client.commands| && command == A.Current(cfg.client, x.c) && command.Volume?
    requires ServerAt(x) == S.LoopPc(i, |command.arguments|)
    requires i <= |command.arguments| && x.s.log == AllEffects(cfg, x.c.done) + Changes(command, i)
    ensures y.s == x.s && ServerAt(y) == ServerAt(x) && Down(y) == [] && y.c.done <= |cfg.client.commands|
    ensures if i < |command.arguments|
            then y.c.done == x.c.done && ClientAt(y) == A.WaitReply(i) && AtReply(cfg, y, i, command)
            else y.c.done == x.c.done + 1 && ClientAt(y) == A.Boundary && AtBoundary(cfg, y)
  {
    hide ParseVolCommand;
    ClientGoesOn(cfg, line, x, y, i, answer);
    AtLoopTest(cfg, x, y, i, command);
  }

  lemma ClientGetsMedia(cfg: Config, line: Option<string>, x: System, y: System, confirmation: string)
    requires ClientReceives(cfg, line, x, y) && x.c.pc.WaitMedia?
    requires Down(x) == [Text(confirmation)] && Confirmation(confirmation)
    ensures y.c == A.Finished(x.c) && ClientAt(y) == A.Boundary && y.s == x.s && ServerAt(y) == ServerAt(x)
    ensures Up(y) == Up(x) && Down(y) == []
  {
    ClientReads(cfg, line, x, y, confirmation);
    Chomped();
  }

  lemma NoChanges(command: A.Command)
    requires command.Volume?
    ensures Changes(command, 0) == []
  {
  }

  lemma ClientVolumeKeepsPhase(cfg: Config, line: Option<string>, x: System, y: System)
    requires A.PointFits(cfg.client, x.c) && A.PointFits(cfg.client, y.c) && Phase(cfg, x)
    requires ClientReceives(cfg, line, x, y) && Down(x) != [] && (x.c.pc.WaitCountOk? || x.c.pc.WaitReply?)
    ensures Phase(cfg, y) && Down(y) == []
  {
    hide Change, A.Receive, A.Rank, Itoa, Worked, AllEffects;
    hide Changes, A.Chomp, A.IsLine, A.LoopState, A.Outgoing;
    OneMoreWorked(cfg, x.c.done);
    if x.c.pc.WaitCountOk? {
      NoChanges(A.Current(cfg.client, x.c));
      ClientInVolume(cfg, line, x, y, 0, A.Current(cfg.client, x.c), "ok\n");
    } else {
      ClientInVolume(cfg, line, x, y, x.c.pc.i + 1, A.Current(cfg.client, x.c), Down(x)[0].s);
    }
  }

  lemma ClientRecvKeepsPhase(cfg: Config, line: Option<string>, x: System, y: System)
    requires A.PointFits(cfg.client, x.c) && A.PointFits(cfg.client, y.c) && Phase(cfg, x)
    requires ClientReceives(cfg, line, x, y)
    requires Down(x) != []
    ensures Phase(cfg, y) && Down(y) == []
  {
    hide Change, A.Receive, A.Rank, Itoa, Worked, AllEffects, Changes, A.Chomp, A.IsLine, A.LoopState, AtReply;
    match x.c.pc
    case WaitHelo => ClientGetsHelo(cfg, line, x, y);
    case WaitRedy =>
      NothingYet(cfg);
      ClientGetsRedy(cfg, line, x, y);
    case WaitVolOk => ClientGetsVolOk(cfg, line, x, y);
    case WaitMedia => ClientGetsMedia(cfg, line, x, y, Down(x)[0].s);
    case _ => ClientVolumeKeepsPhase(cfg, line, x, y);
  }

  /** No answer to a media key makes the client stay in its command. */
  lemma ClientKeepsBroken(cfg: Config, line: Option<string>, x: System, y: System)
    requires Broken(cfg, x) && ClientReceives(cfg, line, x, y)
    ensures Broken(cfg, y)
  {
    hide Change;
    var m :| BrokenAt(cfg, x, m);
    assert BrokenAt(cfg, y, m);
  }

  lemma ClientRecvKeepsInv(cfg: Config, line: Option<string>, x: System, y: System)
    requires Inv(cfg, x) && ClientReceives(cfg, line, x, y)
    ensures Inv(cfg, y)
  {
    hide Change, A.Receive, A.Rank, Itoa;
    A.RankFalls(cfg.client, x.c, line);
    assert ServerAt(y) == ServerAt(x);
    if S.Failed(ServerAt(x)) {
      assert forall p | p in Down(y) :: p in Down(x);
      ClientKeepsBroken(cfg, line, x, y);
    } else {
      if Down(x) == [] { ClientFindsNothing(cfg, line, x, y); }
      ClientRecvKeepsPhase(cfg, line, x, y);
    }
  }

  // ---------------------------------------------------------------- the other steps

  lemma BeginPending(cfg: Config, st: A.State)
    requires st.done < |cfg.client.commands| && st.pc.Boundary?
    ensures A.Begin(cfg.client, st).done == st.done
    ensures var t := A.Begin(cfg.client, st);
      match cfg.client.commands[st.done]
      case Volume(_) => A.Target(t.pc) == A.WaitVolOk && A.Outgoing(t.pc) == [Text("vol\n")]
      case Media(cmd) => A.Target(t.pc) == A.WaitMedia && A.Outgoing(t.pc) == [Text(A.MediaWord(cmd) + "\n")]
  {
    assert "vol" + "\n" == "vol\n";
  }

  lemma BeginKeepsPhase(cfg: Config, x: System, y: System)
    requires A.PointFits(cfg.client, x.c) && A.PointFits(cfg.client, y.c) && Phase(cfg, x)
    requires Step(cfg, ClientBegin, x, y)
    ensures Phase(cfg, y)
  {
    hide Change, A.Rank, Worked, AllEffects, S.Outgoing;
    BeginPending(cfg, x.c);
  }

  lemma BeginKeepsInv(cfg: Config, x: System, y: System)
    requires Inv(cfg, x) && Step(cfg, ClientBegin, x, y)
    ensures Inv(cfg, y)
  {
    hide Change, A.Rank, Worked, AllEffects;
    A.RankOfBegin(cfg.client, x.c);
    assert ServerAt(y) == ServerAt(x) && Down(y) == Down(x);
    if S.Failed(ServerAt(x)) {
      var m :| BrokenAt(cfg, x, m);
      assert BrokenAt(cfg, y, m);
    } else {
      BeginKeepsPhase(cfg, x, y);
    }
  }

  lemma QuitKeepsInv(cfg: Config, x: System, y: System)
    requires Inv(cfg, x) && Step(cfg, ClientQuit, x, y)
    ensures Inv(cfg, y)
  {
    hide Change;
    assert ServerAt(y) == ServerAt(x) && Down(y) == Down(x) && ClientAt(y) == A.Dead;
    assert "end" + "\n" == "end\n";
    assert A.PcFits(cfg.client, x.c.done, A.Dead) && A.Outgoing(A.Dead) == [];
    if S.Failed(ServerAt(x)) {
      var m :| BrokenAt(cfg, x, m);
      assert BrokenAt(cfg, y, m);
    }
  }

  lemma SendKeepsInv(cfg: Config, a: Action, x: System, y: System)
    requires Inv(cfg, x) && Step(cfg, a, x, y) && (a.ServerSend? || a.ClientSend?)
    ensures Inv(cfg, y)
  {
    hide Change, Worked, AllEffects, Changes, Itoa, S.Receive, A.Receive, Fails;
    hide S.Outgoing, A.Outgoing, S.Target, A.Target, A.IsLine, Answer, Confirmation;
    SendsAreInvisible(cfg, a, x, y);
    if S.Failed(ServerAt(x)) {
      var m :| BrokenAt(cfg, x, m);
      assert BrokenAt(cfg, y, m);
    }
  }

  lemma CloseKeepsInv(cfg: Config, x: System, y: System)
    requires Inv(cfg, x) && Step(cfg, ServerClose, x, y)
    ensures Inv(cfg, y)
  {
    hide Change;
    assert Up(y) == Up(x) && Down(y) == Down(x) && ClientAt(y) == ClientAt(x);
    if S.Failed(ServerAt(x)) {
      var m :| BrokenAt(cfg, x, m);
      assert BrokenAt(cfg, y, m);
    }
  }

  lemma StepKeepsInv(cfg: Config, a: Action, x: System, y: System)
    requires Valid(cfg) && Inv(cfg, x) && Step(cfg, a, x, y)
    ensures Inv(cfg, y)
  {
    hide Inv;
    match a
    case ServerSend => SendKeepsInv(cfg, a, x, y);
    case ClientSend => SendKeepsInv(cfg, a, x, y);
    case ServerClose => CloseKeepsInv(cfg, x, y);
    case ServerRecv(k, r) => ServerRecvKeepsInv(cfg, k, r, x, y);
    case ClientRecv(line) => ClientRecvKeepsInv(cfg, line, x, y);
    case ClientBegin => BeginKeepsInv(cfg, x, y);
    case ClientQuit => QuitKeepsInv(cfg, x, y);
  }

  lemma InitInv(cfg: Config)
    ensures Inv(cfg, Init(cfg))
  {
    WordsAreLines();
    P.ReplyPending(Text("helo\n"), S.WaitEnc);
  }

  lemma {:induction false} RunsAreInv(cfg: Config, states: seq<System>, acts: seq<Action>, n: nat)
    requires Valid(cfg) && IsRun(cfg, states, acts) && n <= |acts|
    ensures Inv(cfg, states[n])
  {
    hide Inv, Step;
    if n == 0 {
      InitInv(cfg);
    } else {
      RunsAreInv(cfg, states, acts, n - 1);
      StepKeepsInv(cfg, acts[n - 1], states[n - 1], states[n]);
    }
  }

  // ---------------------------------------------------------------- termination

  function Measure(cfg: Config, x: System): nat {
    21 * A.Rank(cfg.client, x.c.done, x.c.pc) + 20 * |x.toServer| + S.Rank(x.s.pc)
  }

  lemma StepFalls(cfg: Config, a: Action, x: System, y: System)
    requires A.PointFits(cfg.client, x.c) && Step(cfg, a, x, y)
    ensures Measure(cfg, y) < Measure(cfg, x)
  {
    match a
    case ServerRecv(k, r) => S.RankFalls(cfg.server, x.s, r);
    case ClientRecv(line) => A.RankFalls(cfg.client, x.c, line);
    case ClientBegin => A.RankOfBegin(cfg.client, x.c);
    case ClientQuit => assert A.Rank(cfg.client, x.c.done, A.Dead) == 1 + A.Work(cfg.client, x.c.done);
    case _ =>
  }

  lemma {:induction false} RunFalls(cfg: Config, states: seq<System>, acts: seq<Action>, n: nat)
    requires Valid(cfg) && IsRun(cfg, states, acts) && n <= |acts|
    ensures n + Measure(cfg, states[n]) <= Measure(cfg, Init(cfg))
  {
    hide Measure, Step;
    if n > 0 {
      RunFalls(cfg, states, acts, n - 1);
      RunsAreInv(cfg, states, acts, n - 1);
      StepFalls(cfg, acts[n - 1], states[n - 1], states[n]);
    }
  }

  /** Every call has been made, and both sides have closed. */
  predicate Over(cfg: Config, x: System) {
    x.s.pc.Ended? && x.c.pc.Dead? && x.c.done == |cfg.client.commands|
  }

  /** A waiting client has a line to read, or its server has closed or has a message to read. */
  lemma NoneWaitsInVain(cfg: Config, x: System)
    requires Inv(cfg, x) && A.Waiting(x.c.pc) && !x.s.pc.Send? && x.toClient == []
    ensures x.s.pc.Close? || x.s.pc.Ended? || (S.Waiting(x.s.pc) && x.toServer != [])
  {
    hide Change, Worked, AllEffects, Changes, Itoa;
  }

  lemma InvMoves(cfg: Config, x: System) returns (a: Action, y: System)
    requires Inv(cfg, x) && !Over(cfg, x)
    ensures Step(cfg, a, x, y)
  {
    hide Phase, Broken, Itoa, S.Receive, A.Receive, A.Begin, S.Rank, A.Rank, Delivers;
    FitsTarget(cfg, x);
    if A.Waiting(x.c.pc) && !x.s.pc.Send? && x.toClient == [] { NoneWaitsInVain(cfg, x); }
    if x.s.pc.Send? {
      return ServerSend, x.(s := x.s.(pc := x.s.pc.next), toClient := x.toClient + [x.s.pc.pkt]);
    } else if x.c.pc.Send? {
      return ClientSend, x.(c := x.c.(pc := x.c.pc.next), toServer := x.toServer + [x.c.pc.pkt]);
    } else if x.s.pc.Close? {
      return ServerClose, x.(s := x.s.(pc := S.Ended(x.s.pc.failed)));
    } else if x.c.pc.Boundary? || (x.c.pc.Dead? && x.c.done < |cfg.client.commands|) {
      if x.c.done < |cfg.client.commands| { return ClientBegin, x.(c := A.Begin(cfg.client, x.c)); }
      return ClientQuit, x.(c := A.Quit(x.c));
    } else if S.Waiting(x.s.pc) && (x.toServer != [] || x.c.pc.Dead?) {
      var k := if x.toServer == [] then 0 else 1;
      var r := P.SomeResult(S.ReceivesEncrypted(cfg.server, x.s), cfg.server.keys, x.toServer[..k]);
      return ServerRecv(k, r), x.(s := S.Receive(cfg.server, x.s, r), toServer := x.toServer[k..]);
    } else if x.toClient == [] {
      return ClientRecv(None), x.(c := A.Receive(cfg.client, x.c, None));
    } else {
      assert x.toClient[0] in Down(x);
      var line := Some(A.Chomp(x.toClient[0].s));
      return ClientRecv(line), x.(c := A.Receive(cfg.client, x.c, line), toClient := x.toClient[1..]);
    }
  }

  // ---------------------------------------------------------------- theorems

  /** The two programs agree that the session stands between two commands. */
  predicate Synchronised(cfg: Config, x: System)
    requires x.c.done <= |cfg.client.commands|
  {
    x.s.pc.WaitCmd? && x.toServer == [] && x.toClient == [] && x.s.log == AllEffects(cfg, x.c.done)
  }

  /** At a command boundary the session is synchronised, and the server's effects are those
      of the commands so far, exactly when every media key so far has worked. Channels that
      were answered with `err` make no difference. */
  lemma BoundariesAreSynchronised(cfg: Config, states: seq<System>, acts: seq<Action>, n: nat)
    requires Valid(cfg) && IsRun(cfg, states, acts) && n <= |acts| && states[n].c.pc.Boundary?
    ensures states[n].c.done <= |cfg.client.commands|
    ensures Synchronised(cfg, states[n]) <==> Worked(cfg, states[n].c.done)
  {
    hide Change;
    RunsAreInv(cfg, states, acts, n);
    var x := states[n];
    FitsTarget(cfg, x);
    if S.Failed(ServerAt(x)) {
      var m :| BrokenAt(cfg, x, m);
      assert Fails(cfg, m);
    }
  }

  /** No run exceeds the bound, and a run that cannot be continued has made every call and
      closed both sides. */
  lemma SessionsEnd(cfg: Config, states: seq<System>, acts: seq<Action>)
    requires Valid(cfg) && IsRun(cfg, states, acts)
    ensures |acts| <= 151 + 21 * A.Work(cfg.client, 0)
    ensures Over(cfg, states[|acts|]) <==> !exists a, y :: Step(cfg, a, states[|acts|], y)
  {
    RunFalls(cfg, states, acts, |acts|);
    RunsAreInv(cfg, states, acts, |acts|);
    assert S.Rank(S.Start(cfg.server).pc) == 4;
    if !Over(cfg, states[|acts|]) {
      var a, y := InvMoves(cfg, states[|acts|]);
    }
  }

  /** At the end of a session every command has had its effect, exactly when every media
      key worked. */
  lemma CompleteExactly(cfg: Config, states: seq<System>, acts: seq<Action>)
    requires Valid(cfg) && IsRun(cfg, states, acts) && Over(cfg, states[|acts|])
    ensures Worked(cfg, |cfg.client.commands|) <==> !states[|acts|].s.pc.failed
    ensures Worked(cfg, |cfg.client.commands|) ==> states[|acts|].s.log == AllEffects(cfg, |cfg.client.commands|)
  {
    hide Change;
    var x := states[|acts|];
    RunsAreInv(cfg, states, acts, |acts|);
    if S.Failed(ServerAt(x)) {
      var m :| BrokenAt(cfg, x, m);
      assert Fails(cfg, m);
    }
  }

  /** After a media key that fails the server does nothing more: its effects are those of
      the commands up to and including the first such key. */
  lemma FailureIsFinal(cfg: Config, states: seq<System>, acts: seq<Action>, n: nat) returns (m: nat)
    requires Valid(cfg) && IsRun(cfg, states, acts) && n <= |acts| && S.Failed(ServerAt(states[n]))
    ensures m < |cfg.client.commands| && Worked(cfg, m) && Fails(cfg, m)
    ensures states[n].s.log == AllEffects(cfg, m + 1)
  {
    RunsAreInv(cfg, states, acts, n);
    m :| BrokenAt(cfg, states[n], m);
  }

  lemma InFlight(cfg: Config, x: System)
    requires Inv(cfg, x) && !S.Failed(ServerAt(x))
    ensures |Up(x)| + |Down(x)| <= 1
    ensures ClientAt(x).Dead? && S.Waiting(ServerAt(x)) ==> Up(x) != []
  {
    hide Change, Worked, AllEffects, Itoa, S.Outgoing;
    FitsTarget(cfg, x);
  }

  lemma WordsFit()
    ensures Fits("noenc\n") && Fits("vol\n") && Fits("end\n")
    ensures Fits("play\n") && Fits("next\n") && Fits("prev\n")
  {
  }

  /** Every message on its way to the server fits its buffer. */
  lemma UpFits(cfg: Config, x: System)
    requires Valid(cfg) && A.PointFits(cfg.client, x.c) && Phase(cfg, x)
    ensures Up(x) != [] ==> Up(x)[0].Text? && Fits(Up(x)[0].s)
  {
    hide Change, Worked, AllEffects, Itoa, S.Outgoing, Wire.Fits;
    FitsTarget(cfg, x);
    WordsFit();
    match ClientAt(x)
    case WaitCountOk =>
      assert A.CommandValid(A.Current(cfg.client, x.c));
      E.CountFits(|A.Current(cfg.client, x.c).arguments|);
    case WaitReply(i) => assert ArgumentsFit(A.Current(cfg.client, x.c));
    case WaitMedia => MediaWords(A.Current(cfg.client, x.c).cmd);
    case _ =>
  }

  lemma ServerReadsOne(cfg: Config, k: nat, r: RecvResult, x: System, y: System)
    requires Valid(cfg) && Inv(cfg, x) && !S.Failed(ServerAt(x)) && ServerReceives(cfg, k, r, x, y)
    ensures k == 1 && r.Got? && x.toServer == [Text(r.s)]
  {
    hide Change, S.Receive;
    InFlight(cfg, x);
    UpFits(cfg, x);
    assert ServerAt(x) == x.s.pc;
    if x.toServer != [] {
      assert Up(x) == x.toServer;
      DeliversSingle(false, cfg.server.keys, Up(x)[0].s, r);
    }
  }

  /** While the server has not failed, one message is under way at the most, so that every
      `recv` of the server returns one send of the client: a stream that may glue sends
      together behaves as a queue of messages. */
  lemma OneMessageAtATime(cfg: Config, states: seq<System>, acts: seq<Action>, n: nat)
    requires Valid(cfg) && IsRun(cfg, states, acts) && n <= |acts| && !S.Failed(ServerAt(states[n]))
    ensures |states[n].toServer| + |states[n].toClient| <= 1
    ensures n < |acts| && acts[n].ServerRecv? ==>
              acts[n].k == 1 && acts[n].r.Got? && states[n].toServer == [Text(acts[n].r.s)]
  {
    hide Change;
    RunsAreInv(cfg, states, acts, n);
    FitsTarget(cfg, states[n]);
    InFlight(cfg, states[n]);
    if n < |acts| && acts[n].ServerRecv? {
      ServerReadsOne(cfg, acts[n].k, acts[n].r, states[n], states[n + 1]);
    }
  }

  /** The server's loop bound is the number of channels of the command, and the two indices
      agree: the server is at the client's channel, or has just answered it. */
  lemma LoopsAgree(cfg: Config, states: seq<System>, acts: seq<Action>, n: nat)
    requires Valid(cfg) && IsRun(cfg, states, acts) && n <= |acts|
    requires ClientAt(states[n]).WaitReply? && ServerAt(states[n]).WaitArg?
    ensures states[n].c.done < |cfg.client.commands| && A.Current(cfg.client, states[n].c).Volume?
    ensures ServerAt(states[n]).n == |A.Current(cfg.client, states[n].c).arguments|
    ensures ServerAt(states[n]).i == ClientAt(states[n]).i + if Up(states[n]) == [] then 1 else 0
  {
    hide Change, Worked, AllEffects;
    RunsAreInv(cfg, states, acts, n);
    FitsTarget(cfg, states[n]);
  }
}
