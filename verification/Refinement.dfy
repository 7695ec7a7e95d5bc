/** The machines that Protocol interleaves are the programs: in a finished session each
    side has sent, and holds, exactly what `Serve` and `Execute` compute from the results
    their receives returned. */
module Refinement {
  import opened Wire
  import opened Protocol
  import opened Progress
  import S = ServerProgram
  import C = ClientProgram

  /** The results the server's receives returned, in order. */
  function ServerScript(acts: seq<Action>): seq<RecvResult> {
    if acts == [] then []
    else
      var last := acts[|acts| - 1];
      ServerScript(acts[..|acts| - 1]) + if last.ServerRecv? then [last.r] else []
  }

  /** The arrivals at the client. */
  function ClientScript(states: seq<System>, acts: seq<Action>): seq<C.Arrival>
    requires |states| >= |acts|
  {
    if acts == [] then []
    else
      var n := |acts| - 1;
      ClientScript(states, acts[..n]) + Arrived(acts[n], states[n])
  }

  lemma ServerStep(cfg: Config, a: Action, x: System, y: System, rest: seq<RecvResult>)
    requires Valid(cfg) && Step(cfg, a, x, y)
    ensures S.Run(cfg.server, x.s, x.byServer, (if a.ServerRecv? then [a.r] else []) + rest)
         == S.Run(cfg.server, y.s, y.byServer, rest)
  {
    assert [] + rest == rest;
    if a.ServerRecv? {
      assert ([a.r] + rest)[1..] == rest;
    }
  }

  lemma ClientStep(cfg: Config, a: Action, x: System, y: System, rest: seq<C.Arrival>)
    requires Valid(cfg) && Step(cfg, a, x, y) && C.PcFits(cfg.client, x.c.pc) && C.PcFits(cfg.client, y.c.pc)
    ensures C.Run(cfg.client, x.c, x.byClient, Arrived(a, x) + rest) == C.Run(cfg.client, y.c, y.byClient, rest)
  {
    assert [] + rest == rest;
    if a.ClientRecv? {
      assert ([C.Arrival(x.toClient[..a.k], a.r)] + rest)[1..] == rest;
    }
  }

  lemma {:induction false} ServerSide(cfg: Config, states: seq<System>, acts: seq<Action>, n: nat,
                                      rest: seq<RecvResult>)
    requires Valid(cfg) && IsRun(cfg, states, acts) && n <= |acts|
    ensures S.Run(cfg.server, S.Start(cfg.server), [], ServerScript(acts[..n]) + rest)
         == S.Run(cfg.server, states[n].s, states[n].byServer, rest)
  {
    hide Step;
    if n == 0 {
      assert ServerScript(acts[..0]) + rest == rest;
    } else {
      var a := acts[n - 1];
      var now := if a.ServerRecv? then [a.r] else [];
      assert acts[..n][..n - 1] == acts[..n - 1];
      assert ServerScript(acts[..n]) + rest == ServerScript(acts[..n - 1]) + (now + rest);
      ServerSide(cfg, states, acts, n - 1, now + rest);
      ServerStep(cfg, a, states[n - 1], states[n], rest);
    }
  }

  /** The arrival of one action, if it is a receive of the client. */
  function Arrived(a: Action, x: System): seq<C.Arrival> {
    if a.ClientRecv? && a.k <= |x.toClient| then [C.Arrival(x.toClient[..a.k], a.r)] else []
  }

  lemma RunFits(cfg: Config, states: seq<System>, acts: seq<Action>, n: nat)
    requires Valid(cfg) && IsRun(cfg, states, acts) && n <= |acts|
    ensures C.PcFits(cfg.client, states[n].c.pc)
  {
    RunsAreLive(cfg, states, acts, n);
  }

  lemma {:induction false} ClientSide(cfg: Config, states: seq<System>, acts: seq<Action>, n: nat, rest: seq<C.Arrival>)
    requires Valid(cfg) && IsRun(cfg, states, acts) && n <= |acts|
    ensures C.PcFits(cfg.client, states[n].c.pc)
    ensures C.Run(cfg.client, C.Start(cfg.client), [], ClientScript(states, acts[..n]) + rest)
         == C.Run(cfg.client, states[n].c, states[n].byClient, rest)
  {
    hide Step;
    RunFits(cfg, states, acts, n);
    if n == 0 {
      assert ClientScript(states, acts[..0]) + rest == rest;
    } else {
      var a, x := acts[n - 1], states[n - 1];
      RunFits(cfg, states, acts, n - 1);
      assert acts[..n][..n - 1] == acts[..n - 1];
      assert ClientScript(states, acts[..n]) + rest == ClientScript(states, acts[..n - 1]) + (Arrived(a, x) + rest);
      ClientSide(cfg, states, acts, n - 1, Arrived(a, x) + rest);
      ClientStep(cfg, a, x, states[n], rest);
    }
  }

  /** A finished session is the two programs, each run on what it received. */
  lemma SessionIsThePrograms(cfg: Config, states: seq<System>, acts: seq<Action>)
    requires Valid(cfg) && IsRun(cfg, states, acts) && BothEnded(states[|acts|])
    ensures var x := states[|acts|];
            && (x.s, x.byServer) == S.Run(cfg.server, S.Start(cfg.server), [], ServerScript(acts))
            && (x.c, x.byClient) == C.Run(cfg.client, C.Start(cfg.client), [], ClientScript(states, acts))
  {
    ServerSide(cfg, states, acts, |acts|, []);
    ClientSide(cfg, states, acts, |acts|, []);
    assert acts[..|acts|] == acts;
    assert ServerScript(acts) + [] == ServerScript(acts);
    assert ClientScript(states, acts) + [] == ClientScript(states, acts);
  }
}
