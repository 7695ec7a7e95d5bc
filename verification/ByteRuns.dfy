/** Runs whose receives return what the bytes on the wire come to under a given block
    cipher, where Protocol leaves junk open. */
module ByteRuns {
  import opened Wrappers
  import opened SessionKeys
  import opened Cbc
  import opened Wire
  import opened Transport
  import opened Protocol
  import opened Progress
  import S = ServerProgram
  import C = ClientProgram

  /** The result r is that of the bytes of the packets. The parts of a secret have no bytes
      here, and text that overruns the buffer no result. */
  ghost predicate FromBytes(c: BlockCipher, encrypted: bool, keys: Keys, pkts: seq<Packet>, r: RecvResult)
    requires Invertible(c)
  {
    PacketsValid(pkts) && KeysUsable(keys) ==>
      var result := Received(c, encrypted, keys, Stream(c, pkts));
      result.Some? ==> r == result.value
  }

  ghost predicate ByteStep(c: BlockCipher, cfg: Config, a: Action, x: System, y: System)
    requires Invertible(c) && Valid(cfg)
  {
    && Step(cfg, a, x, y)
    && match a
       case ServerRecv(k, r) =>
         FromBytes(c, S.ReceivesEncrypted(cfg.server, x.s), cfg.server.keys, x.toServer[..k], r)
       case ClientRecv(k, r) =>
         FromBytes(c, C.ReceivesEncrypted(cfg.client, x.c), x.c.keys, x.toClient[..k], r)
       case _ => true
  }

  ghost predicate IsByteRun(c: BlockCipher, cfg: Config, states: seq<System>, acts: seq<Action>)
    requires Invertible(c) && Valid(cfg)
  {
    && |states| == |acts| + 1
    && states[0] == Init(cfg)
    && forall i | 0 <= i < |acts| :: ByteStep(c, cfg, acts[i], states[i], states[i + 1])
  }

  lemma ByteRunsAreRuns(c: BlockCipher, cfg: Config, states: seq<System>, acts: seq<Action>)
    requires Invertible(c) && Valid(cfg) && IsByteRun(c, cfg, states, acts)
    ensures IsRun(cfg, states, acts)
  {
    assert forall i | 0 <= i < |acts| :: ByteStep(c, cfg, acts[i], states[i], states[i + 1]);
  }

  /** One sealed message, opened under any keys, has one result. */
  lemma SealedResult(c: BlockCipher, from: Keys, to: Keys, s: string, r: RecvResult)
    requires Invertible(c) && KeysUsable(from) && KeysUsable(to) && Octets(s)
    requires FromBytes(c, true, to, [Sealed(from, s)], r)
    ensures Some(r) == Received(c, true, to, Seal(c, from.key, from.iv, s))
  {
    var pkts := [Sealed(from, s)];
    var bytes := Seal(c, from.key, from.iv, s);
    assert PacketsValid(pkts);
    assert pkts[1..] == [] && Stream(c, pkts[1..]) == "";
    assert Stream(c, pkts) == bytes + "" == bytes;
    assert Received(c, true, to, bytes).Some?;
  }

  /** So do two of them, taken by one `recv`. */
  lemma SealedPairResult(c: BlockCipher, from: Keys, to: Keys, s: string, t: string, r: RecvResult)
    requires Invertible(c) && KeysUsable(from) && KeysUsable(to) && Octets(s) && Octets(t)
    requires FromBytes(c, true, to, [Sealed(from, s), Sealed(from, t)], r)
    ensures Some(r) == Received(c, true, to, Seal(c, from.key, from.iv, s) + Seal(c, from.key, from.iv, t))
  {
    var pkts := [Sealed(from, s), Sealed(from, t)];
    var first, second := Seal(c, from.key, from.iv, s), Seal(c, from.key, from.iv, t);
    assert PacketsValid(pkts);
    assert pkts[1..] == [Sealed(from, t)] && pkts[1..][1..] == [];
    assert Stream(c, pkts[1..]) == second + "" == second;
    assert Stream(c, pkts) == first + second;
    assert Received(c, true, to, first + second).Some?;
  }

  lemma SomeByteResult(c: BlockCipher, encrypted: bool, keys: Keys, pkts: seq<Packet>) returns (r: RecvResult)
    requires Invertible(c) && (pkts == [] || Chunk(pkts))
    ensures Delivers(encrypted, keys, pkts, r) && FromBytes(c, encrypted, keys, pkts, r)
  {
    r := SomeResult(encrypted, keys, pkts);
    if PacketsValid(pkts) && KeysUsable(keys) && Received(c, encrypted, keys, Stream(c, pkts)).Some? {
      WireIsSound(c, encrypted, keys, pkts);
      r := Received(c, encrypted, keys, Stream(c, pkts)).value;
    }
  }

  /** Unless both have closed, some side can move, with a result that comes from bytes. */
  lemma BytesMove(c: BlockCipher, cfg: Config, x: System) returns (a: Action, y: System)
    requires Invertible(c) && Valid(cfg) && Live(cfg, x) && !BothEnded(x)
    ensures ByteStep(c, cfg, a, x, y)
    ensures a.ClientRecv? ==> !x.s.pc.Send? && a.k <= 1
  {
    a, y := LiveMoves(cfg, x);
    if a.ServerRecv? {
      var r := SomeByteResult(c, S.ReceivesEncrypted(cfg.server, x.s), cfg.server.keys, x.toServer[..a.k]);
      a, y := ServerRecv(a.k, r), y.(s := S.Receive(cfg.server, x.s, r));
    } else if a.ClientRecv? {
      var r := SomeByteResult(c, C.ReceivesEncrypted(cfg.client, x.c), x.c.keys, x.toClient[..a.k]);
      a, y := ClientRecv(a.k, r), y.(c := C.Receive(cfg.client, x.c, C.Arrival(x.toClient[..a.k], r)));
    }
  }

  /** Every such run can be continued to one that closes both sides. */
  lemma ByteRunCompletes(c: BlockCipher, cfg: Config, states: seq<System>, acts: seq<Action>)
    returns (states': seq<System>, acts': seq<Action>)
    requires Invertible(c) && Valid(cfg) && IsByteRun(c, cfg, states, acts)
    ensures IsByteRun(c, cfg, states', acts') && BothEnded(states'[|acts'|])
    ensures states <= states' && acts <= acts'
    decreases Measure(cfg, states[|acts|])
  {
    hide ByteStep, Live;
    if BothEnded(states[|acts|]) {
      return states, acts;
    }
    ByteRunsAreRuns(c, cfg, states, acts);
    RunsAreLive(cfg, states, acts, |acts|);
    var a, y := BytesMove(c, cfg, states[|acts|]);
    ByteStepIsStep(c, cfg, a, states[|acts|], y);
    StepFalls(cfg, a, states[|acts|], y);
    states', acts' := ByteRunCompletes(c, cfg, states + [y], acts + [a]);
  }

  lemma ByteStepIsStep(c: BlockCipher, cfg: Config, a: Action, x: System, y: System)
    requires Invertible(c) && Valid(cfg) && ByteStep(c, cfg, a, x, y)
    ensures Step(cfg, a, x, y)
  {
  }
}
