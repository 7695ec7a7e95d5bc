/** What the command-line client reports for a media key that does not work. The server
    answers such a key with `err`, and then `end` from its catch block; the inverted last
    test of `sendMediaCmd` makes the status depend on whether one `recv` takes both. */
module FailedKey {
  import opened Wrappers
  import opened Constants
  import opened Wire
  import opened Protocol
  import opened Progress
  import opened SessionEffects
  import S = ServerProgram
  import C = ClientProgram

  /** The two sides can be set up together, and the key the client asks for fails. */
  predicate KeyFails(cfg: Config) {
    Valid(cfg) && Cooperative(cfg) && cfg.client.request.Media? && !cfg.server.outcome(0)
  }

  /** The client's receive of the reply to its media command. */
  predicate ReadsReply(a: Action, x: System) { a.ClientRecv? && x.c.pc.WaitMedia? }

  /** The reply and the `end` after it, taken by one `recv`. */
  predicate ReadsBoth(a: Action, x: System) { ReadsReply(a, x) && a.k == 2 }

  /** The reply and the `end` behind it are there, and the client reads one of them or both. */
  lemma ReplyIsRead(cfg: Config, a: Action, x: System, y: System)
    requires Valid(cfg) && Step(cfg, a, x, y) && ReadsReply(a, x)
    requires Down(x) == [Agreed(cfg, "err\n"), Agreed(cfg, "end\n")]
    ensures a.k == 1 || a.k == 2
    ensures y.c == C.CommandReturns(cfg.client, x.c, C.MediaStatus(a.r)) && ClientAt(y).WaitBye?
    ensures Delivers(C.ReceivesEncrypted(cfg.client, x.c), x.c.keys, Down(x)[..a.k], a.r)
  {
    hide S.Receive, Delivers, Agreed, C.ReceivesEncrypted, C.MediaStatus;
    ClientTakes(cfg, a, x, y);
    FinishPending(cfg.client, x.c, C.MediaStatus(a.r));
  }

  lemma ReplyStep(cfg: Config, a: Action, x: System, y: System)
    requires KeyFails(cfg) && Session(cfg, x) && Step(cfg, a, x, y) && ReadsReply(a, x)
    ensures Down(x) == [Agreed(cfg, "err\n"), Agreed(cfg, "end\n")]
    ensures a.k == 1 || a.k == 2
    ensures ClientAt(y).WaitBye? && y.c.command.Some?
    ensures a.k == 1 ==> y.c.command == Some(FAILURE)
    ensures a.k == 2 && !cfg.client.useEnc ==> y.c.command == Some(SUCCESS)
  {
    hide Step, Live, Expected;
    ReceiverStandsThere(cfg, a, x, y);
    ReplyIsRead(cfg, a, x, y);
    var err, end := Agreed(cfg, "err\n"), Agreed(cfg, "end\n");
    assert [err, end][..1] == [err] && [err, end][..2] == [err, end];
    DeliversSingle(cfg.client.useEnc, cfg.server.keys, "err\n", a.r);
    GluedRefusal(x.c.keys, a.r);
  }

  /** Where the client has a status and where it has none. */
  predicate StatusKnown(x: System) {
    if x.c.command.Some? then ClientAt(x).WaitBye? || ClientAt(x).Close? || ClientAt(x).Ended?
    else !ClientAt(x).Send?
  }

  lemma OtherSteps(cfg: Config, a: Action, x: System, y: System)
    requires KeyFails(cfg) && Session(cfg, x) && Step(cfg, a, x, y) && !ReadsReply(a, x) && StatusKnown(x)
    ensures y.c.command == x.c.command && StatusKnown(y)
  {
    hide S.Receive, Calls, HandshakePhase, CommandPhase;
    match a
    case ServerSend => SendsAreInvisible(cfg, a, x, y);
    case ClientSend => SendsAreInvisible(cfg, a, x, y);
    case ServerRecv(_, _) => ServerTakes(cfg, a, x, y);
    case ClientRecv(_, _) => OtherReceives(cfg, a, x, y);
    case _ =>
  }

  lemma OtherReceives(cfg: Config, a: Action, x: System, y: System)
    requires KeyFails(cfg) && Session(cfg, x) && Step(cfg, a, x, y) && a.ClientRecv? && !x.c.pc.WaitMedia?
    requires StatusKnown(x)
    ensures y.c.command == x.c.command && StatusKnown(y)
  {
    hide S.Receive, Calls, HandshakePhase, CommandPhase;
    ClientTakes(cfg, a, x, y);
    TargetIsPoint(y.c.pc);
  }

  lemma {:induction false} TargetIsPoint(pc: C.Pc)
    ensures !C.Target(pc).Send?
  {
    if pc.Send? { TargetIsPoint(pc.next); }
  }

  /** For a key that fails, in every run: the reply is read once at most, the status is
      there from then on, it is FAILURE unless one `recv` took both packets, and in plain
      text it is SUCCESS if one did. */
  lemma {:induction false} StatusOfFailedKey(cfg: Config, states: seq<System>, acts: seq<Action>, n: nat)
    requires KeyFails(cfg) && IsRun(cfg, states, acts) && n <= |acts|
    ensures StatusKnown(states[n])
    ensures states[n].c.command.Some? <==> exists i :: 0 <= i < n && ReadsReply(acts[i], states[i])
    ensures forall i, j | 0 <= i < n && 0 <= j < n ::
              ReadsReply(acts[i], states[i]) && ReadsReply(acts[j], states[j]) ==> i == j
    ensures (forall i | 0 <= i < n :: !ReadsBoth(acts[i], states[i])) ==>
              states[n].c.command.None? || states[n].c.command == Some(FAILURE)
    ensures !cfg.client.useEnc && (exists i :: 0 <= i < n && ReadsBoth(acts[i], states[i])) ==>
              states[n].c.command == Some(SUCCESS)
  {
    hide Step, Session;
    if n > 0 {
      var a, x, y := acts[n - 1], states[n - 1], states[n];
      StatusOfFailedKey(cfg, states, acts, n - 1);
      RunsAreSessions(cfg, states, acts, n - 1);
      if ReadsReply(a, x) {
        ReplyStep(cfg, a, x, y);
      } else {
        OtherSteps(cfg, a, x, y);
      }
    }
  }

  /** The status of a finished session whose media key failed: FAILURE if no `recv` took both
      packets, in either mode; and in plain text SUCCESS exactly if one did. */
  lemma FailedKeyIsReported(cfg: Config, states: seq<System>, acts: seq<Action>)
    requires KeyFails(cfg) && IsRun(cfg, states, acts) && BothEnded(states[|acts|])
    ensures states[|acts|].c.command.Some?
    ensures (forall i | 0 <= i < |acts| :: !ReadsBoth(acts[i], states[i])) ==>
              states[|acts|].c.command == Some(FAILURE)
    ensures !cfg.client.useEnc ==>
              (states[|acts|].c.command == Some(SUCCESS)
               <==> exists i :: 0 <= i < |acts| && ReadsBoth(acts[i], states[i]))
  {
    StatusOfFailedKey(cfg, states, acts, |acts|);
    RunsAreSessions(cfg, states, acts, |acts|);
  }

  /** A status stays as it is. */
  lemma {:induction false} StatusStays(cfg: Config, states: seq<System>, acts: seq<Action>, i: nat, j: nat)
    requires KeyFails(cfg) && IsRun(cfg, states, acts) && i <= j <= |acts| && states[i].c.command.Some?
    ensures states[j].c.command == states[i].c.command
    decreases j - i
  {
    hide Step, Session;
    if i < j {
      StatusOfFailedKey(cfg, states, acts, i);
      StatusOfFailedKey(cfg, states, acts, i + 1);
      RunsAreSessions(cfg, states, acts, i);
      if !ReadsReply(acts[i], states[i]) { OtherSteps(cfg, acts[i], states[i], states[i + 1]); }
      StatusStays(cfg, states, acts, i + 1, j);
    }
  }
}
