/** What becomes of an Android session after a media key that failed: the server has answered
    `err` and `end` and is gone, and the client, which takes the `err` for an ordinary answer,
    finds the `end` in its next command. */
module AndroidAftermath {
  import opened Wrappers
  import opened Wire
  import opened AndroidSession
  import S = ServerProgram
  import A = AndroidClient
  import C = ClientProgram

  // ---------------------------------------------------------------- the client reads `end`

  predicate InsideCommand(pc: A.Pc) { pc.WaitVolOk? || pc.WaitCountOk? || pc.WaitReply? || pc.WaitMedia? }

  /** Wherever it stands inside a command, a client that reads `end` has exactly its `bye` to send,
      closes, and counts the command as done. A lost connection is closed without a word. */
  lemma EndIsTheEnd(cfg: Config, a: Action, x: System, y: System)
    requires Step(cfg, a, x, y) && a.ClientRecv? && InsideCommand(x.c.pc) && a.line in {Some("end"), None}
    ensures A.Outgoing(y.c.pc) == if a.line == None then [] else [Text("bye\n")]
    ensures ClientAt(y).Dead? && y.c.done == x.c.done + 1
  {
    ClientSends("bye", A.Dead);
    assert "bye" + "\n" == "bye\n";
  }

  // ---------------------------------------------------------------- the phases of the aftermath

  /** Media key m has failed. The client has yet to read `err`, or it has read it and gone on, at
      most to the first answer of the next command; or it has read the `end` as well. */
  predicate After(cfg: Config, x: System, m: nat) {
    || (x.c.done == m && ClientAt(x).WaitMedia? && Down(x) == [Text("err\n"), Text("end\n")])
    || (x.c.done == m + 1 && (ClientAt(x).Boundary? || ClientAt(x).WaitVolOk? || ClientAt(x).WaitMedia?)
        && Down(x) == [Text("end\n")])
    || (x.c.done == m + 1 == |cfg.client.commands| && ClientAt(x).Dead?)
    || (x.c.done >= m + 2 && ClientAt(x).Dead?)
  }

  ghost predicate Aftermath(cfg: Config, x: System) {
    S.Failed(ServerAt(x)) ==> forall m | BrokenAt(cfg, x, m) :: After(cfg, x, m)
  }

  /** The first key that fails is one key. */
  lemma FirstFailure(cfg: Config, x: System, y: System, m: nat, n: nat)
    requires BrokenAt(cfg, x, m) && BrokenAt(cfg, y, n)
    ensures m == n
  {
    hide AllEffects, Fails;
  }

  lemma WorkedSoFar(cfg: Config, x: System)
    requires Inv(cfg, x) && !S.Failed(ServerAt(x))
    ensures x.c.done <= |cfg.client.commands| && forall m | 0 <= m < x.c.done :: !Fails(cfg, m)
  {
    hide AllEffects, Fails, Plain, AtVolOk, AtCountOk, AtReply, AtMedia, AtBoundary;
    FitsTarget(cfg, x);
    assert Worked(cfg, x.c.done);
  }

  lemma SomeFailure(cfg: Config, x: System) returns (m: nat)
    requires Inv(cfg, x) && S.Failed(ServerAt(x))
    ensures BrokenAt(cfg, x, m)
  {
    m :| BrokenAt(cfg, x, m);
  }

  lemma ServerRecvKeepsAftermath(cfg: Config, a: Action, x: System, y: System)
    requires Valid(cfg) && Inv(cfg, x) && Step(cfg, a, x, y) && a.ServerRecv?
    ensures Aftermath(cfg, y)
  {
    hide Inv, AllEffects, Worked, Fails;
    ServerRecvKeepsInv(cfg, a.k, a.r, x, y);
    WorkedSoFar(cfg, x);
  }

  lemma ClientRecvKeepsAfter(cfg: Config, a: Action, x: System, y: System, m: nat)
    requires A.PointFits(cfg.client, x.c) && Step(cfg, a, x, y) && a.ClientRecv? && S.Failed(ServerAt(x))
    requires After(cfg, x, m)
    ensures After(cfg, y, m)
  {
    Chomped();
    assert A.Chomp("end\n") == "end";
    ClientSends("bye", A.Dead);
    if a.line != None {
      assert x.toClient[0] == Down(x)[0] && Down(y) == Down(x)[1..];
    }
  }

  lemma StepKeepsAfter(cfg: Config, a: Action, x: System, y: System, m: nat)
    requires A.PointFits(cfg.client, x.c) && Step(cfg, a, x, y) && S.Failed(ServerAt(x)) && After(cfg, x, m)
    ensures After(cfg, y, m)
  {
    hide A.Receive, S.Receive;
    match a
    case ServerSend => SendsAreInvisible(cfg, a, x, y);
    case ClientSend => SendsAreInvisible(cfg, a, x, y);
    case ClientRecv(_) => ClientRecvKeepsAfter(cfg, a, x, y, m);
    case ClientBegin => if x.c.pc.Boundary? { BeginPending(cfg, x.c); }
    case ClientQuit => ClientSends("end", A.Dead);
    case ServerClose => assert Down(y) == Down(x);
    case ServerRecv(_, _) =>
  }

  lemma StepKeepsAftermath(cfg: Config, a: Action, x: System, y: System)
    requires Valid(cfg) && Inv(cfg, x) && Aftermath(cfg, x) && Step(cfg, a, x, y)
    ensures Aftermath(cfg, y)
  {
    hide After, BrokenAt, A.Receive, S.Receive, Phase, Plain;
    if a.ServerRecv? {
      ServerRecvKeepsAftermath(cfg, a, x, y);
    } else if S.Failed(ServerAt(y)) {
      ServerStays(cfg, a, x, y);
      var m := SomeFailure(cfg, x);
      StepKeepsAfter(cfg, a, x, y, m);
      forall n | BrokenAt(cfg, y, n) ensures After(cfg, y, n) { FirstFailure(cfg, x, y, m, n); }
    }
  }

  lemma ServerStays(cfg: Config, a: Action, x: System, y: System)
    requires Step(cfg, a, x, y) && !a.ServerRecv?
    ensures S.Failed(ServerAt(y)) <==> S.Failed(ServerAt(x))
  {
    if a.ServerSend? { SendsAreInvisible(cfg, a, x, y); }
  }

  lemma {:induction false} RunsHaveAftermath(cfg: Config, states: seq<System>, acts: seq<Action>, n: nat)
    requires Valid(cfg) && IsRun(cfg, states, acts) && n <= |acts|
    ensures Aftermath(cfg, states[n])
  {
    hide Inv, Step, Aftermath;
    if n > 0 {
      RunsHaveAftermath(cfg, states, acts, n - 1);
      RunsAreInv(cfg, states, acts, n - 1);
      StepKeepsAftermath(cfg, acts[n - 1], states[n - 1], states[n]);
    } else {
      StartIsFine(cfg);
    }
  }

  lemma StartIsFine(cfg: Config)
    ensures Aftermath(cfg, Init(cfg))
  {
    assert S.Target(S.Send(Text("helo\n"), S.WaitEnc)) == S.WaitEnc;
  }

  // ---------------------------------------------------------------- theorems

  /** In every run: once media key m has failed the client stands in that command, has `end` to read
      in the next one, or has closed. With two more commands behind it it has closed. */
  lemma FailureCloses(cfg: Config, states: seq<System>, acts: seq<Action>, n: nat) returns (m: nat)
    requires Valid(cfg) && IsRun(cfg, states, acts) && n <= |acts| && S.Failed(ServerAt(states[n]))
    ensures m < |cfg.client.commands| && Worked(cfg, m) && Fails(cfg, m)
    ensures After(cfg, states[n], m)
    ensures states[n].c.done >= m + 2 ==> ClientAt(states[n]).Dead?
  {
    hide Step, After, Inv, AllEffects, Worked, Fails;
    RunsAreInv(cfg, states, acts, n);
    RunsHaveAftermath(cfg, states, acts, n);
    m := SomeFailure(cfg, states[n]);
    assert After(cfg, states[n], m);
    ClosedByThen(cfg, states[n], m);
  }

  lemma ClosedByThen(cfg: Config, x: System, m: nat)
    requires After(cfg, x, m)
    ensures x.c.done >= m + 2 ==> ClientAt(x).Dead?
  {
  }

  /** A session of one media command presses one key, whether it works or not: XF86AudioPlay,
      XF86AudioNext or XF86AudioPrev of X11's XF86keysym.h. */
  lemma OneKeyIsPressed(cfg: Config, states: seq<System>, acts: seq<Action>, cmd: C.MediaCmd)
    requires Valid(cfg) && IsRun(cfg, states, acts) && AndroidSession.Over(cfg, states[|acts|])
    requires cfg.client.commands == [A.Media(cmd)]
    ensures states[|acts|].s.log
         == [S.MediaKey(if cmd.Play? then 0x1008ff14 else if cmd.Next? then 0x1008ff17 else 0x1008ff16)]
  {
    hide Step;
    NothingYet(cfg);
    MediaEffect(cfg, 0);
    CompleteExactly(cfg, states, acts);
    if states[|acts|].s.pc.failed {
      var m := FailureIsFinal(cfg, states, acts, |acts|);
    }
  }
}
