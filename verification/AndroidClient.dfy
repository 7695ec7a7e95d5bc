/** The Android client's side of one connection: `doInBackground` for one host, called with
    one command after another over a connection that it keeps open. */
module AndroidClient {
  import opened Wrappers
  import opened CText
  import opened VolumeCommand
  import opened Wire
  import C = ClientProgram

  /** A volume command with its arguments as the channel loop prints them, or a media key. */
  datatype Command = Volume(arguments: seq<string>) | Media(cmd: C.MediaCmd)

  /** The volume command for the channels selected and the volumes set in the dialogs. */
  function VolumeCommandFor(channels: seq<string>, left: int, right: int): Command {
    Volume(seq(|channels|, i requires 0 <= i < |channels| => PrintArgument(channels[i], PrintVolumes(left, right))))
  }

  /** The commands of all calls, in order. */
  datatype Config = Config(commands: seq<Command>)

  datatype Pc =
    | Send(pkt: Packet, next: Pc)
    | WaitHelo
    | WaitRedy
    | Boundary
    | WaitVolOk
    | WaitCountOk
    | WaitReply(i: nat)
    | WaitMedia
    | Dead

  /** done counts the commands that are over; the next one, if the program stands inside a
      command, is the one being processed. */
  datatype State = State(pc: Pc, done: nat)

  predicate CommandValid(command: Command) {
    command.Volume? ==> |command.arguments| <= INT_MAX
  }

  predicate Valid(cfg: Config) { forall c | c in cfg.commands :: CommandValid(c) }

  predicate Waiting(pc: Pc) { !pc.Send? && !pc.Boundary? && !pc.Dead? }

  function Target(pc: Pc): Pc { if pc.Send? then Target(pc.next) else pc }

  function Outgoing(pc: Pc): seq<Packet> { if pc.Send? then [pc.pkt] + Outgoing(pc.next) else [] }

  function Start(cfg: Config): State { State(WaitHelo, 0) }

  // ---------------------------------------------------------------- lines

  /** `println` ends the text with a newline. */
  function Println(s: string): Packet { Text(s + "\n") }

  /** A line: a newline at the end, and no other line break. */
  predicate IsLine(s: string) {
    s != "" && s[|s| - 1] == '\n' && forall i | 0 <= i < |s| - 1 :: s[i] != '\n' && s[i] != '\r'
  }

  function Chomp(s: string): string
    requires s != ""
  {
    s[..|s| - 1]
  }

  /** `readLine` on the bytes received so far: the line, and what follows it. */
  function ReadLine(s: string): Option<(string, string)> {
    if s == "" then None
    else if s[0] == '\n' then Some(("", s[1..]))
    else if s[0] == '\r' then Some(("", if |s| > 1 && s[1] == '\n' then s[2..] else s[1..]))
    else
      match ReadLine(s[1..])
      case None => None
      case Some((line, rest)) => Some(([s[0]] + line, rest))
  }

  /** `readLine` recovers the boundaries between sends that are lines, however they were
      glued together on the way. */
  lemma {:induction false} LinesAreSends(s: string, rest: string)
    requires IsLine(s)
    ensures ReadLine(s + rest) == Some((Chomp(s), rest))
  {
    var t := s + rest;
    if |s| == 1 {
      assert t[1..] == rest && Chomp(s) == "";
    } else {
      assert t[1..] == s[1..] + rest;
      LinesAreSends(s[1..], rest);
      assert [s[0]] + Chomp(s[1..]) == Chomp(s);
    }
  }

  /** The three ways to end a line; a line that has not ended is not returned. */
  lemma {:induction false} LineBreaks(line: string, rest: string)
    requires '\n' !in line && '\r' !in line
    ensures ReadLine(line + "\n" + rest) == Some((line, rest))
    ensures ReadLine(line + "\r\n" + rest) == Some((line, rest))
    ensures rest == "" || rest[0] != '\n' ==> ReadLine(line + "\r" + rest) == Some((line, rest))
    ensures ReadLine(line) == None
  {
    var lf, crlf, cr := line + "\n" + rest, line + "\r\n" + rest, line + "\r" + rest;
    if line == "" {
      assert lf[1..] == rest && crlf[2..] == rest && cr[1..] == rest;
    } else {
      assert lf[1..] == line[1..] + "\n" + rest;
      assert crlf[1..] == line[1..] + "\r\n" + rest;
      assert cr[1..] == line[1..] + "\r" + rest;
      LineBreaks(line[1..], rest);
      assert [line[0]] + line[1..] == line;
    }
  }

  // ---------------------------------------------------------------- the steps

  function Current(cfg: Config, st: State): Command
    requires st.done < |cfg.commands|
  {
    cfg.commands[st.done]
  }

  /** The program is inside a volume command at the points of one, and so on. */
  predicate PcFits(cfg: Config, done: nat, pc: Pc) {
    match pc
    case Send(_, next) => PcFits(cfg, done, next)
    case WaitVolOk => done < |cfg.commands| && cfg.commands[done].Volume?
    case WaitCountOk => done < |cfg.commands| && cfg.commands[done].Volume?
    case WaitReply(i) => done < |cfg.commands| && cfg.commands[done].Volume? && i < |cfg.commands[done].arguments|
    case WaitMedia => done < |cfg.commands| && cfg.commands[done].Media?
    case _ => done <= |cfg.commands|
  }

  predicate PointFits(cfg: Config, st: State) { PcFits(cfg, st.done, st.pc) }

  function Finished(st: State): State { State(Boundary, st.done + 1) }

  /** `bye`, and close: no later command reaches the server. */
  function ServerEnded(st: State): State { State(Send(Println("bye"), Dead), st.done + 1) }

  function MediaWord(cmd: C.MediaCmd): string {
    match cmd
    case Play => "play"
    case Next => "next"
    case Prev => "prev"
  }

  /** A new call. The socket still counts as connected after a close, so that a dead
      connection is not opened again and the command is lost. */
  function Begin(cfg: Config, st: State): State
    requires st.done < |cfg.commands|
  {
    if st.pc.Dead? then State(Dead, st.done + 1) else
    match Current(cfg, st)
    case Volume(_) => st.(pc := Send(Println("vol"), WaitVolOk))
    case Media(cmd) => st.(pc := Send(Println(MediaWord(cmd)), WaitMedia))
  }

  /** `closeAllServers`. */
  function Quit(st: State): State { st.(pc := Send(Println("end"), Dead)) }

  /** The test of the channel loop. */
  function LoopState(cfg: Config, st: State, i: nat): State
    requires st.done < |cfg.commands| && Current(cfg, st).Volume?
  {
    if i < |Current(cfg, st).arguments| then st.(pc := Send(Println(Current(cfg, st).arguments[i]), WaitReply(i)))
    else Finished(st)
  }

  /** One `readLine`: None is the null of a closed connection, which makes the program
      close its side. */
  function Receive(cfg: Config, st: State, line: Option<string>): State
    requires PointFits(cfg, st) && Waiting(st.pc)
  {
    match st.pc
    case WaitHelo =>
      if line.None? then st.(pc := Dead)
      else if line.value != "helo" then st.(pc := Send(Println("end"), Dead))
      else st.(pc := Send(Println("noenc"), WaitRedy))
    case WaitRedy =>
      if line.None? then st.(pc := Dead)
      else if line.value != "redy" then st.(pc := Send(Println("end"), Dead))
      else st.(pc := Boundary)
    case WaitVolOk =>
      if line.None? then State(Dead, st.done + 1)
      else if line.value == "err" then Finished(st)
      else if line.value == "end" then ServerEnded(st)
      else st.(pc := Send(Println(Itoa(|Current(cfg, st).arguments|)), WaitCountOk))
    case WaitCountOk =>
      if line.None? then State(Dead, st.done + 1)
      else if line.value == "err" then Finished(st)
      else if line.value == "end" then ServerEnded(st)
      else LoopState(cfg, st, 0)
    case WaitReply(i) =>
      if line.None? then State(Dead, st.done + 1)
      else if line.value == "end" then ServerEnded(st)
      else LoopState(cfg, st, i + 1)
    case WaitMedia =>
      if line.None? then State(Dead, st.done + 1)
      else if line.value == "end" then ServerEnded(st)
      else Finished(st)
  }

  // ---------------------------------------------------------------- rank

  /** A bound on the steps of the commands from k on. */
  function Work(cfg: Config, k: nat): nat
    decreases |cfg.commands| - k
  {
    if k >= |cfg.commands| then 0
    else 8 + (if cfg.commands[k].Volume? then 2 * |cfg.commands[k].arguments| else 0) + Work(cfg, k + 1)
  }

  function Rank(cfg: Config, done: nat, pc: Pc): nat {
    var n := if done < |cfg.commands| && cfg.commands[done].Volume? then |cfg.commands[done].arguments| else 0;
    var later := 3 + Work(cfg, done + 1);
    match pc
    case Send(_, next) => 1 + Rank(cfg, done, next)
    case Dead => 1 + Work(cfg, done)
    case Boundary => 3 + Work(cfg, done)
    case WaitHelo => 7 + Work(cfg, done)
    case WaitRedy => 5 + Work(cfg, done)
    case WaitVolOk => later + 5 + 2 * n
    case WaitCountOk => later + 3 + 2 * n
    case WaitReply(i) => later + 1 + if i < n then 2 * (n - i) else 0
    case WaitMedia => later + 4
  }

  lemma RankOfLoop(cfg: Config, st: State, i: nat)
    requires st.done < |cfg.commands| && Current(cfg, st).Volume? && i <= |Current(cfg, st).arguments|
    ensures var t := LoopState(cfg, st, i);
      && PointFits(cfg, t) && !Waiting(t.pc)
      && Rank(cfg, t.done, t.pc) <= 5 + Work(cfg, st.done + 1) + 2 * (|Current(cfg, st).arguments| - i)
  {
  }

  lemma RankFalls(cfg: Config, st: State, line: Option<string>)
    requires PointFits(cfg, st) && Waiting(st.pc)
    ensures var t := Receive(cfg, st, line); PointFits(cfg, t) && Rank(cfg, t.done, t.pc) < Rank(cfg, st.done, st.pc)
  {
    assert Rank(cfg, ServerEnded(st).done, ServerEnded(st).pc) == 2 + Work(cfg, st.done + 1);
    match st.pc
    case WaitCountOk => RankOfLoop(cfg, st, 0);
    case WaitReply(i) => RankOfLoop(cfg, st, i + 1);
    case _ =>
  }

  lemma RankOfBegin(cfg: Config, st: State)
    requires st.done < |cfg.commands| && (st.pc.Boundary? || st.pc.Dead?)
    ensures var t := Begin(cfg, st); PointFits(cfg, t) && Rank(cfg, t.done, t.pc) < Rank(cfg, st.done, st.pc)
  {
  }

  // ---------------------------------------------------------------- whole runs

  /** The program alone, over all its calls: its reads return the lines of the script and
      then find the connection closed. The result is its last state and what it sent. */
  function Run(cfg: Config, st: State, sent: seq<Packet>, script: seq<string>): (State, seq<Packet>)
    requires PointFits(cfg, st)
    decreases Rank(cfg, st.done, st.pc)
  {
    match st.pc
    case Send(pkt, next) => Run(cfg, st.(pc := next), sent + [pkt], script)
    case Boundary =>
      if st.done < |cfg.commands| then
        RankOfBegin(cfg, st);
        Run(cfg, Begin(cfg, st), sent, script)
      else
        RankOfQuit(cfg, st);
        Run(cfg, Quit(st), sent, script)
    case Dead =>
      if st.done < |cfg.commands| then
        RankOfBegin(cfg, st);
        Run(cfg, Begin(cfg, st), sent, script)
      else (st, sent)
    case _ =>
      var line := if script != [] then Some(script[0]) else None;
      RankFalls(cfg, st, line);
      Run(cfg, Receive(cfg, st, line), sent, if script != [] then script[1..] else script)
  }

  lemma RankOfQuit(cfg: Config, st: State)
    requires st.done == |cfg.commands| && st.pc.Boundary?
    ensures PointFits(cfg, Quit(st)) && Rank(cfg, st.done, Quit(st).pc) < Rank(cfg, st.done, st.pc)
  {
    assert PcFits(cfg, st.done, Dead) && Rank(cfg, st.done, Dead) == 1;
  }

  lemma RunQuits(cfg: Config, done: nat, sent: seq<Packet>, script: seq<string>)
    requires done == |cfg.commands|
    ensures Run(cfg, State(Boundary, done), sent, script) == (State(Dead, done), sent + [Println("end")])
    ensures Run(cfg, State(Dead, done), sent, script) == (State(Dead, done), sent)
  {
    var st := State(Boundary, done);
    RankOfQuit(cfg, st);
    assert Run(cfg, State(Dead, done), sent + [Println("end")], script) == (State(Dead, done), sent + [Println("end")]);
    assert Run(cfg, st, sent, script) == Run(cfg, Quit(st), sent, script);
  }

  // ---------------------------------------------------------------- the program

  /** The connection to one host. */
  class Server {
    /** The socket has been connected, which remains so after a close. */
    var connected: bool
    var closed: bool
    // The world outside: lines still to arrive, and what has been sent.
    var incoming: seq<string>
    var sent: seq<Packet>

    constructor (incoming: seq<string>)
      ensures !connected && !closed && this.incoming == incoming && sent == []
    {
      connected, closed := false, false;
      this.incoming, sent := incoming, [];
    }

    method Connect()
      modifies this`connected
      ensures connected
    {
      connected := true;
    }

    /** Printing to a closed stream has no effect. */
    method SendLine(data: string)
      modifies this`sent
      ensures sent == if closed then old(sent) else old(sent) + [Println(data)]
    {
      if !closed {
        sent := sent + [Println(data)];
      }
    }

    /** None is the null at the end of the stream, or the exception of a closed stream. The
        caller treats them alike. */
    method ReceiveLine() returns (line: Option<string>)
      modifies this`incoming
      ensures closed || old(incoming) == [] ==> line.None? && incoming == old(incoming)
      ensures !closed && old(incoming) != [] ==> line == Some(old(incoming)[0]) && incoming == old(incoming)[1..]
    {
      if closed || incoming == [] { return None; }
      line := Some(incoming[0]);
      incoming := incoming[1..];
    }

    method Close()
      modifies this`closed
      ensures closed
    {
      closed := true;
    }
  }

  /** The calls to `doInBackground` for one host; cfg holds what each call asks for. */
  class Background {
    const cfg: Config
    const server: Server
    var done: nat

    /** Everything still to come from the state st of the program. */
    ghost function From(st: State): (State, seq<Packet>)
      requires PointFits(cfg, st)
      reads this, server
    {
      Run(cfg, st, server.sent, server.incoming)
    }

    ghost function Rest(pc: Pc): (State, seq<Packet>)
      requires PcFits(cfg, done, pc)
      reads this, server
    {
      From(State(pc, done))
    }

    /** The program point between two calls. */
    ghost function Between(): Pc
      reads this, server
    {
      if server.closed then Dead else Boundary
    }

    constructor (cfg: Config, incoming: seq<string>)
      ensures this.cfg == cfg && done == 0 && fresh(server)
      ensures !server.connected && !server.closed && server.incoming == incoming && server.sent == []
    {
      this.cfg := cfg;
      server := new Server(incoming);
      done := 0;
    }

    method SendLine(data: string, ghost next: Pc)
      requires !server.closed && PcFits(cfg, done, next)
      modifies server`sent
      ensures Rest(next) == old(Rest(Send(Println(data), next)))
    {
      server.SendLine(data);
    }

    method ReceiveLine(ghost pc: Pc) returns (line: Option<string>)
      requires !server.closed && PcFits(cfg, done, pc) && Waiting(pc)
      modifies server`incoming
      ensures PointFits(cfg, Receive(cfg, State(pc, done), line))
      ensures From(Receive(cfg, State(pc, done), line)) == old(Rest(pc))
    {
      line := server.ReceiveLine();
      RankFalls(cfg, State(pc, done), line);
    }

    /** A line to the server and its reply; on a closed connection there is neither. */
    method Ask(data: string, ghost pc: Pc) returns (reply: Option<string>)
      requires PcFits(cfg, done, pc) && Waiting(pc)
      modifies server`sent, server`incoming
      ensures server.closed ==>
        reply.None? && server.sent == old(server.sent) && server.incoming == old(server.incoming)
      ensures !server.closed ==> PointFits(cfg, Receive(cfg, State(pc, done), reply))
      ensures !server.closed ==> From(Receive(cfg, State(pc, done), reply)) == old(Rest(Send(Println(data), pc)))
    {
      if server.closed {
        server.SendLine(data);
        reply := server.ReceiveLine();
      } else {
        SendLine(data, pc);
        reply := ReceiveLine(pc);
      }
    }

    /** `bye`, and close. */
    method Leave()
      requires done < |cfg.commands|
      modifies server`sent, server`closed
      ensures server.closed
      ensures old(server.closed) ==> server.sent == old(server.sent)
      ensures !old(server.closed) ==>
        From(State(Dead, done + 1)) == old(From(ServerEnded(State(Dead, done))))
    {
      server.SendLine("bye");
      server.Close();
    }

    method Handshake() returns (ok: bool)
      requires !server.closed && done == 0
      modifies server`sent, server`incoming, server`closed
      ensures server.closed == !ok
      ensures Rest(Between()) == old(Rest(WaitHelo))
    {
      assert PcFits(cfg, done, Dead) && PcFits(cfg, done, WaitRedy);
      var line := ReceiveLine(WaitHelo);
      if line != Some("helo") {
        if line.Some? { SendLine("end", Dead); }
        server.Close();
        return false;
      }
      SendLine("noenc", WaitRedy);
      line := ReceiveLine(WaitRedy);
      if line != Some("redy") {
        if line.Some? { SendLine("end", Dead); }
        server.Close();
        return false;
      }
      return true;
    }

    /** What is to come once this call's command is over. */
    ghost function After(): (State, seq<Packet>)
      requires done < |cfg.commands|
      reads this, server
    {
      From(State(Between(), done + 1))
    }

    /** What is to come when this call's command begins. */
    ghost function Before(): (State, seq<Packet>)
      requires done < |cfg.commands|
      reads this, server
    {
      RankOfBegin(cfg, State(Between(), done));
      From(Begin(cfg, State(Between(), done)))
    }

    method SetVolumes(channels: seq<string>)
      requires done < |cfg.commands| && cfg.commands[done] == Volume(channels)
      modifies server`sent, server`incoming, server`closed
      ensures After() == old(Before())
    {
      var reply := Ask("vol", WaitVolOk);
      if reply.None? { server.Close(); return; }
      if reply.value == "err" { return; }
      if reply.value == "end" { Leave(); return; }

      reply := Ask(Itoa(|channels|), WaitCountOk);
      if reply.None? { server.Close(); return; }
      if reply.value == "err" { return; }
      if reply.value == "end" { Leave(); return; }

      SetChannels(channels);
    }

    /** The channel loop. A close does not leave it: the next read finds the stream closed. */
    method SetChannels(channels: seq<string>)
      requires done < |cfg.commands| && cfg.commands[done] == Volume(channels) && !server.closed
      modifies server`sent, server`incoming, server`closed
      ensures After() == old(LoopRest(0))
    {
      var i := 0;
      while i < |channels|
        invariant 0 <= i <= |channels|
        invariant !server.closed ==> LoopRest(i) == old(LoopRest(0))
        invariant server.closed ==> After() == old(LoopRest(0))
      {
        var reply := Ask(channels[i], WaitReply(i));
        if reply.None? { server.Close(); return; }
        if reply.value == "end" { Leave(); }
        i := i + 1;
      }
    }

    ghost function LoopRest(i: nat): (State, seq<Packet>)
      requires done < |cfg.commands| && cfg.commands[done].Volume? && i <= |cfg.commands[done].arguments|
      reads this, server
    {
      RankOfLoop(cfg, State(WaitCountOk, done), i);
      From(LoopState(cfg, State(WaitCountOk, done), i))
    }

    method PressKey(cmd: C.MediaCmd)
      requires done < |cfg.commands| && cfg.commands[done] == Media(cmd)
      modifies server`sent, server`incoming, server`closed
      ensures After() == old(Before())
    {
      var reply := Ask(MediaWord(cmd), WaitMedia);
      if reply.None? { server.Close(); return; }
      if reply.value == "end" { Leave(); }
    }

    /** One call. The first one opens the connection. */
    method DoInBackground()
      requires done < |cfg.commands|
      requires !server.connected ==> done == 0 && !server.closed
      modifies this`done, server
      ensures done == old(done) + 1 && server.connected
      ensures Rest(Between()) == old(Rest(if server.connected then Between() else WaitHelo))
    {
      ghost var whole := Rest(if server.connected then Between() else WaitHelo);
      if !server.connected {
        server.Connect();
        var ok := Handshake();
        if !ok {
          done := done + 1;
          return;
        }
      }
      assert Before() == whole;
      match cfg.commands[done] {
        case Volume(channels) => SetVolumes(channels);
        case Media(cmd) => PressKey(cmd);
      }
      done := done + 1;
    }

    /** `closeAllServers`. */
    method CloseServer()
      requires done == |cfg.commands|
      modifies server
      ensures server.closed && (!old(server.connected) ==> server.sent == old(server.sent))
      ensures old(server.connected) ==> (State(Dead, done), server.sent) == old(Rest(Between()))
    {
      RunQuits(cfg, done, server.sent, server.incoming);
      if server.connected { server.SendLine("end"); }
      server.Close();
    }

    /** All calls, one after the other, and the end of the application. */
    method Calls()
      requires done == 0 && cfg.commands != [] && !server.connected && !server.closed && server.sent == []
      modifies this, server
      ensures (State(Dead, |cfg.commands|), server.sent) == Run(cfg, Start(cfg), [], old(server.incoming))
    {
      DoInBackground();
      while done < |cfg.commands|
        invariant done <= |cfg.commands| && server.connected
        invariant Rest(Between()) == Run(cfg, Start(cfg), [], old(server.incoming))
      {
        DoInBackground();
      }
      CloseServer();
    }
  }
}
