/** The machines that AndroidSession interleaves are the programs: in a finished session
    each side has sent, and holds, exactly what `Calls` and `Serve` compute from what they
    received. */
module AndroidRefinement {
  import opened Wire
  import opened AndroidSession
  import S = ServerProgram
  import A = AndroidClient

  /** The results of the server's receives from step i on. */
  function ServerScript(acts: seq<Action>, i: nat): seq<RecvResult>
    decreases |acts| - i
  {
    if i >= |acts| then [] else (if acts[i].ServerRecv? then [acts[i].r] else []) + ServerScript(acts, i + 1)
  }

  /** The lines the client reads from step i on. */
  function ClientLines(acts: seq<Action>, i: nat): seq<string>
    decreases |acts| - i
  {
    if i >= |acts| then []
    else (if acts[i].ClientRecv? && acts[i].line.Some? then [acts[i].line.value] else []) + ClientLines(acts, i + 1)
  }

  /** What the server has sent in the first i steps. */
  function ByServer(states: seq<System>, acts: seq<Action>, i: nat): seq<Packet>
    requires i <= |acts| <= |states|
  {
    if i == 0 then []
    else ByServer(states, acts, i - 1)
         + if acts[i - 1].ServerSend? && states[i - 1].s.pc.Send? then [states[i - 1].s.pc.pkt] else []
  }

  function ByClient(states: seq<System>, acts: seq<Action>, i: nat): seq<Packet>
    requires i <= |acts| <= |states|
  {
    if i == 0 then []
    else ByClient(states, acts, i - 1)
         + if acts[i - 1].ClientSend? && states[i - 1].c.pc.Send? then [states[i - 1].c.pc.pkt] else []
  }

  lemma {:induction false} ServerSide(cfg: Config, states: seq<System>, acts: seq<Action>, i: nat)
    requires Valid(cfg) && IsRun(cfg, states, acts) && i <= |acts| && states[|acts|].s.pc.Ended?
    ensures S.Run(cfg.server, states[i].s, ByServer(states, acts, i), ServerScript(acts, i))
         == (states[|acts|].s, ByServer(states, acts, |acts|))
    decreases |acts| - i
  {
    if i < |acts| {
      ServerSide(cfg, states, acts, i + 1);
      ServerStep(cfg, acts[i], states[i], states[i + 1], ByServer(states, acts, i), ServerScript(acts, i + 1));
    }
  }

  lemma ServerStep(cfg: Config, a: Action, x: System, y: System, sent: seq<Packet>, rest: seq<RecvResult>)
    requires Step(cfg, a, x, y)
    ensures S.Run(cfg.server, x.s, sent, (if a.ServerRecv? then [a.r] else []) + rest)
         == S.Run(cfg.server, y.s, sent + (if a.ServerSend? && x.s.pc.Send? then [x.s.pc.pkt] else []), rest)
  {
    assert [] + rest == rest && sent + [] == sent;
    if a.ServerRecv? {
      assert ([a.r] + rest)[1..] == rest;
    }
  }

  /** A client that has closed reads nothing more. */
  lemma {:induction false} DeadReadsNothing(cfg: Config, states: seq<System>, acts: seq<Action>, i: nat)
    requires IsRun(cfg, states, acts) && i <= |acts| && states[i].c.pc.Dead?
    ensures ClientLines(acts, i) == []
    decreases |acts| - i
  {
    if i < |acts| {
      assert Step(cfg, acts[i], states[i], states[i + 1]);
      DeadReadsNothing(cfg, states, acts, i + 1);
    }
  }

  lemma ClientStep(cfg: Config, a: Action, x: System, y: System, sent: seq<Packet>, rest: seq<string>)
    requires Step(cfg, a, x, y) && A.PointFits(cfg.client, x.c) && A.PointFits(cfg.client, y.c)
    requires y.c.pc.Dead? ==> rest == []
    ensures A.Run(cfg.client, x.c, sent, (if a.ClientRecv? && a.line.Some? then [a.line.value] else []) + rest)
         == A.Run(cfg.client, y.c, sent + (if a.ClientSend? && x.c.pc.Send? then [x.c.pc.pkt] else []), rest)
  {
    assert [] + rest == rest && sent + [] == sent;
    if a.ClientRecv? && a.line.Some? {
      assert ([a.line.value] + rest)[1..] == rest;
    }
  }

  lemma {:induction false} ClientSide(cfg: Config, states: seq<System>, acts: seq<Action>, i: nat)
    requires Valid(cfg) && IsRun(cfg, states, acts) && i <= |acts| && Over(cfg, states[|acts|])
    ensures A.PointFits(cfg.client, states[i].c)
    ensures A.Run(cfg.client, states[i].c, ByClient(states, acts, i), ClientLines(acts, i))
         == (states[|acts|].c, ByClient(states, acts, |acts|))
    decreases |acts| - i
  {
    hide Inv;
    PointsFit(cfg, states, acts, i);
    if i < |acts| {
      ClientSide(cfg, states, acts, i + 1);
      if states[i + 1].c.pc.Dead? { DeadReadsNothing(cfg, states, acts, i + 1); }
      ClientStep(cfg, acts[i], states[i], states[i + 1], ByClient(states, acts, i), ClientLines(acts, i + 1));
    }
  }

  lemma PointsFit(cfg: Config, states: seq<System>, acts: seq<Action>, i: nat)
    requires Valid(cfg) && IsRun(cfg, states, acts) && i <= |acts|
    ensures A.PointFits(cfg.client, states[i].c)
  {
    RunsAreInv(cfg, states, acts, i);
  }

  /** A finished session is the two programs, each run on what it received. */
  lemma SessionIsThePrograms(cfg: Config, states: seq<System>, acts: seq<Action>)
    requires Valid(cfg) && IsRun(cfg, states, acts) && Over(cfg, states[|acts|])
    ensures A.PointFits(cfg.client, A.Start(cfg.client))
    ensures var n := |acts|;
            && (states[n].s, ByServer(states, acts, n))
               == S.Run(cfg.server, S.Start(cfg.server), [], ServerScript(acts, 0))
            && (states[n].c, ByClient(states, acts, n))
               == A.Run(cfg.client, A.Start(cfg.client), [], ClientLines(acts, 0))
  {
    ServerSide(cfg, states, acts, 0);
    ClientSide(cfg, states, acts, 0);
  }
}
