/** What the command-line client does on any script of arrivals, with every word and every
    status written out. The statuses are those of `Constants.h`: 0 for SUCCESS, -1 for
    FAILURE and 2 for END. */
module ClientScripts {
  import opened Wrappers
  import opened CText
  import opened SessionKeys
  import opened Wire
  import opened ClientProgram

  /** The packets of some words, under the client's own keys or in plain text. */
  function Said(cfg: Config, st: State, words: seq<string>): (pkts: seq<Packet>)
    ensures |pkts| == |words|
  {
    seq(|words|, i requires 0 <= i < |words| =>
      if cfg.useEnc && st.crypto then Sealed(st.keys, words[i]) else Text(words[i]))
  }

  lemma SaidAppend(cfg: Config, st: State, a: seq<string>, b: seq<string>)
    ensures Said(cfg, st, a + b) == Said(cfg, st, a) + Said(cfg, st, b)
  {
  }

  /** The next arrival; a script that is used up goes on with a closed connection. */
  function First(cfg: Config, st: State, script: seq<Arrival>): Arrival {
    if script != [] then script[0] else Arrival([], if ReceivesEncrypted(cfg, st) then Fail else Closed)
  }

  function Rest(script: seq<Arrival>): seq<Arrival> { if script != [] then script[1..] else [] }

  lemma OneReceive(cfg: Config, st: State, sent: seq<Packet>, script: seq<Arrival>)
    requires RequestValid(cfg.request) && PcFits(cfg, st.pc) && Waiting(st.pc)
    ensures var t := Receive(cfg, st, First(cfg, st, script));
      PcFits(cfg, t.pc) && Run(cfg, st, sent, script) == Run(cfg, t, sent, Rest(script))
  {
    hide Receive;
    RankFalls(cfg, st, First(cfg, st, script));
  }

  lemma OneSend(cfg: Config, st: State, sent: seq<Packet>, script: seq<Arrival>)
    requires RequestValid(cfg.request) && st.pc.Send? && PcFits(cfg, st.pc.next)
    ensures PcFits(cfg, st.pc)
    ensures Run(cfg, st, sent, script) == Run(cfg, st.(pc := st.pc.next), sent + [st.pc.pkt], script)
  {
  }

  /** The end of the program: `bye` goes out if the status is END, then `end`, and nothing
      that arrives afterwards makes a difference. */
  function Farewell(status: int): seq<string> { if status == 2 then ["bye\n", "end\n"] else ["end\n"] }

  lemma RunWaitsForBye(cfg: Config, st: State, sent: seq<Packet>, script: seq<Arrival>)
    requires RequestValid(cfg.request) && st.pc.WaitBye?
    ensures Run(cfg, st, sent, script) == (st.(pc := Ended), sent)
  {
    OneReceive(cfg, st, sent, script);
    RunCloses(cfg, st.(pc := Close), sent, Rest(script));
  }

  lemma RunFinishes(cfg: Config, st: State, status: int, sent: seq<Packet>, script: seq<Arrival>)
    requires RequestValid(cfg.request)
    ensures PcFits(cfg, FinishPc(cfg, st, status))
    ensures Run(cfg, st.(pc := FinishPc(cfg, st, status)), sent, script)
         == (st.(pc := Ended), sent + Said(cfg, st, Farewell(status)))
  {
    var end := Send(Message(cfg, st, "end\n"), WaitBye);
    assert PcFits(cfg, WaitBye);
    RankOfFinish(cfg, st, status);
    if status == 2 {
      var t := st.(pc := FinishPc(cfg, st, status));
      var told := sent + [Message(cfg, st, "bye\n")];
      assert PcFits(cfg, end);
      OneSend(cfg, t, sent, script);
      OneSend(cfg, st.(pc := end), told, script);
      RunWaitsForBye(cfg, st.(pc := WaitBye), told + [Message(cfg, st, "end\n")], script);
      assert told + [Message(cfg, st, "end\n")] == sent + Said(cfg, st, ["bye\n", "end\n"]);
    } else {
      OneSend(cfg, st.(pc := end), sent, script);
      RunWaitsForBye(cfg, st.(pc := WaitBye), sent + [Message(cfg, st, "end\n")], script);
      assert sent + [Message(cfg, st, "end\n")] == sent + Said(cfg, st, ["end\n"]);
    }
  }

  // ---------------------------------------------------------------- the handshake

  /** The program on its whole script. */
  function Whole(cfg: Config, script: seq<Arrival>): (State, seq<Packet>)
    requires RequestValid(cfg.request)
  {
    Run(cfg, Start(cfg), [], script)
  }

  /** A failed handshake: the status is kept, no command is run, and the client leaves. */
  function Leaving(cfg: Config, st: State, status: int, sent: seq<Packet>): (State, seq<Packet>) {
    (st.(handshake := Some(status), pc := Ended), sent + Said(cfg, st, Farewell(status)))
  }

  lemma RunLeaves(cfg: Config, st: State, status: int, sent: seq<Packet>, script: seq<Arrival>)
    requires RequestValid(cfg.request)
    ensures PcFits(cfg, HandshakeFails(cfg, st, status).pc)
    ensures Run(cfg, HandshakeFails(cfg, st, status), sent, script) == Leaving(cfg, st, status, sent)
  {
    var t := st.(handshake := Some(status));
    RunFinishes(cfg, t, status, sent, script);
    assert FinishPc(cfg, t, status) == FinishPc(cfg, st, status);
    assert Said(cfg, t, Farewell(status)) == Said(cfg, st, Farewell(status));
  }

  /** Anything but `helo`, or nothing: the client leaves with a failed handshake. */
  lemma HeloIsNeeded(cfg: Config, script: seq<Arrival>)
    requires RequestValid(cfg.request) && (script == [] || script[0].r != Got("helo\n"))
    ensures Whole(cfg, script) == (State(Ended, false, cfg.keys, Some(-1), None), [Text("end\n")])
  {
    OneReceive(cfg, Start(cfg), [], script);
    RunLeaves(cfg, Start(cfg), -1, [], Rest(script));
    assert [] + Said(cfg, Start(cfg), ["end\n"]) == [Text("end\n")];
  }

  /** Where a client waits for the server's last `redy`, and what it does then: `redy` starts the
      command, `end` makes the handshake return 2, and anything else -1. */
  lemma RedyOnScript(cfg: Config, st: State, sent: seq<Packet>, script: seq<Arrival>)
    requires RequestValid(cfg.request) && st.pc.WaitRedy?
    ensures PcFits(cfg, StartCommand(cfg, st.(handshake := Some(0))).pc)
    ensures var r := First(cfg, st, script).r;
      Run(cfg, st, sent, script)
      == if r == Got("redy\n") then Run(cfg, StartCommand(cfg, st.(handshake := Some(0))), sent, Rest(script))
         else Leaving(cfg, st, if r == Got("end\n") then 2 else -1, sent)
  {
    RankOfStart(cfg, st.(handshake := Some(0)));
    OneReceive(cfg, st, sent, script);
    RunLeaves(cfg, st, 2, sent, Rest(script));
    RunLeaves(cfg, st, -1, sent, Rest(script));
  }

  /** A client without encryption answers `helo` with `noenc` and waits for `redy`. */
  lemma PlainHandshake(cfg: Config, a: Arrival, rest: seq<Arrival>)
    requires RequestValid(cfg.request) && !cfg.useEnc && a.r == Got("helo\n")
    ensures Whole(cfg, [a] + rest)
         == Run(cfg, State(WaitRedy, false, cfg.keys, None, None), [Text("noenc\n")], rest)
  {
    OneReceive(cfg, Start(cfg), [], [a] + rest);
    assert Rest([a] + rest) == rest && [] + [Text("noenc\n")] == [Text("noenc\n")];
    OneSend(cfg, Start(cfg).(pc := Send(Text("noenc\n"), WaitRedy)), [], rest);
  }

  /** A client with encryption answers `enc`. Unless the public key cannot be received, or is an
      `err`, it sends its own. */
  lemma EncryptedHandshake(cfg: Config, a: Arrival, rest: seq<Arrival>)
    requires RequestValid(cfg.request) && cfg.useEnc && a.r == Got("helo\n")
    ensures var st, r := State(WaitSecret(false, 0, true), true, cfg.keys, None, None),
                         if rest == [] then Closed else rest[0].r;
      Whole(cfg, [a] + rest)
      == if r in {Fail, Got("err\n")} then Leaving(cfg, st, -1, [Text("enc\n"), Text("err\n")])
         else Run(cfg, st, [Text("enc\n"), PublicKey(cfg.pem)], Rest(rest))
  {
    var st, enc := State(WaitPub, true, cfg.keys, None, None), [Text("enc\n")];
    OneReceive(cfg, Start(cfg), [], [a] + rest);
    assert Rest([a] + rest) == rest && [] + enc == enc;
    OneSend(cfg, Start(cfg).(crypto := true, pc := Send(Text("enc\n"), WaitPub)), [], rest);
    OneReceive(cfg, st, enc, rest);
    var r := First(cfg, st, rest).r;
    if r in {Fail, Got("err\n")} {
      RunLeaves(cfg, st, -1, enc + [Text("err\n")], Rest(rest));
      assert enc + [Text("err\n")] == [Text("enc\n"), Text("err\n")];
      OneSend(cfg, Receive(cfg, st, First(cfg, st, rest)), enc, Rest(rest));
      assert Said(cfg, st.(pc := WaitSecret(false, 0, true)), Farewell(-1)) == Said(cfg, st, Farewell(-1));
    } else {
      OneSend(cfg, st.(pc := Send(PublicKey(cfg.pem), WaitSecret(false, 0, true))), enc, Rest(rest));
      assert enc + [PublicKey(cfg.pem)] == [Text("enc\n"), PublicKey(cfg.pem)];
    }
  }

  /** One part of a sealed secret for this client, by itself. */
  predicate IsPart(cfg: Config, a: Arrival, part: nat) {
    |a.pkts| == 1 && a.pkts[0].Envelope? && a.pkts[0] == Envelope(Some(cfg.pem), part, a.pkts[0].body)
  }

  /** Where the client waits for the first part of the vector, or of the key. */
  predicate AwaitsSecret(st: State, isKey: bool) { st.pc == WaitSecret(isKey, 0, true) }

  /** The vector is followed by the key; the key by a `redy` in plain text. */
  function SecretDone(cfg: Config, st: State, isKey: bool, sent: seq<Packet>, rest: seq<Arrival>): (State, seq<Packet>)
    requires RequestValid(cfg.request)
  {
    if isKey then Run(cfg, st.(pc := WaitRedy), sent + [Text("redy\n")], rest)
    else Run(cfg, st.(pc := WaitSecret(true, 0, true)), sent, rest)
  }

  lemma RunSecretDone(cfg: Config, st: State, isKey: bool, sent: seq<Packet>, rest: seq<Arrival>)
    requires RequestValid(cfg.request)
    ensures PcFits(cfg, AfterSecret(isKey))
    ensures Run(cfg, st.(pc := AfterSecret(isKey)), sent, rest) == SecretDone(cfg, st, isKey, sent, rest)
  {
    if isKey { OneSend(cfg, st.(pc := Send(Text("redy\n"), WaitRedy)), sent, rest); }
  }

  /** A connection closed before any of the three parts: the client goes on without the secret. */
  lemma ClosedSecretIsIgnored(cfg: Config, st: State, isKey: bool, sent: seq<Packet>, script: seq<Arrival>)
    requires RequestValid(cfg.request) && AwaitsSecret(st, isKey)
    requires script == [] || script[0].pkts == []
             || (script[0].pkts != [] && (|script| == 1 || script[1].pkts == []
                 || (script[1].pkts != [] && (|script| == 2 || script[2].pkts == []))))
    ensures var k := if script == [] || script[0].pkts == [] then 1
                     else if |script| == 1 || script[1].pkts == [] then 2 else 3;
      Run(cfg, st, sent, script)
      == SecretDone(cfg, st, isKey, sent, if k <= |script| then script[k..] else [])
  {
    hide SecretDone;
    OneReceive(cfg, st, sent, script);
    if script == [] || script[0].pkts == [] {
      RunSecretDone(cfg, st, isKey, sent, Rest(script));
    } else {
      var t := Receive(cfg, st, script[0]);
      OneReceive(cfg, t, sent, Rest(script));
      if |script| == 1 || script[1].pkts == [] {
        RunSecretDone(cfg, st, isKey, sent, Rest(Rest(script)));
        assert |script| > 1 ==> Rest(Rest(script)) == script[2..];
      } else {
        var u := Receive(cfg, t, script[1]);
        OneReceive(cfg, u, sent, Rest(Rest(script)));
        RunSecretDone(cfg, st, isKey, sent, Rest(Rest(Rest(script))));
        assert |script| > 2 ==> Rest(Rest(Rest(script))) == script[3..];
      }
    }
  }

  /** The three parts belong together, they open, and the secret has its length: 32 bytes for
      the key and 16 for the vector. */
  predicate SecretOpens(cfg: Config, isKey: bool, iv: Arrival, sealedKey: Arrival, body: Arrival) {
    && IsPart(cfg, iv, 0) && IsPart(cfg, sealedKey, 1) && IsPart(cfg, body, 2)
    && (if isKey then cfg.opensKey && |body.pkts[0].body| == 32 else cfg.opensIv && |body.pkts[0].body| == 16)
  }

  /** Three parts that arrive: the secret is installed exactly if it opens, and otherwise the
      handshake fails. */
  lemma SecretOnScript(cfg: Config, st: State, isKey: bool, sent: seq<Packet>,
                       iv: Arrival, sealedKey: Arrival, body: Arrival, rest: seq<Arrival>)
    requires RequestValid(cfg.request) && AwaitsSecret(st, isKey)
    requires iv.pkts != [] && sealedKey.pkts != [] && body.pkts != []
    ensures Run(cfg, st, sent, [iv, sealedKey, body] + rest)
         == if SecretOpens(cfg, isKey, iv, sealedKey, body) then
              var secret := body.pkts[0].body;
              var keys := if isKey then Keys(StrNCpy(secret, 32), st.keys.iv)
                          else Keys(st.keys.key, StrNCpy(secret, 16));
              SecretDone(cfg, st.(keys := keys), isKey, sent, rest)
            else Leaving(cfg, st, -1, sent)
  {
    hide SecretDone, Leaving;
    var script := [iv, sealedKey, body] + rest;
    var t := Receive(cfg, st, iv);
    OneReceive(cfg, st, sent, script);
    assert Rest(script) == [sealedKey, body] + rest;
    OneReceive(cfg, t, sent, Rest(script));
    var u := Receive(cfg, t, sealedKey);
    assert Rest(Rest(script)) == [body] + rest;
    OneReceive(cfg, u, sent, Rest(Rest(script)));
    assert Rest(Rest(Rest(script))) == rest;
    if SecretOpens(cfg, isKey, iv, sealedKey, body) {
      var keys := Install(st.keys, isKey, body.pkts[0].body).value;
      RunSecretDone(cfg, st.(keys := keys), isKey, sent, rest);
    } else {
      RunLeaves(cfg, u, -1, sent, rest);
      LeavingFrom(cfg, u, st, -1, sent);
    }
  }

  lemma LeavingFrom(cfg: Config, u: State, st: State, status: int, sent: seq<Packet>)
    requires u == st.(pc := u.pc)
    ensures Leaving(cfg, u, status, sent) == Leaving(cfg, st, status, sent)
  {
    assert Said(cfg, u, Farewell(status)) == Said(cfg, st, Farewell(status));
  }

  // ---------------------------------------------------------------- media commands

  /** The word of a media key, and the status of its command. */
  function WordOf(cmd: MediaCmd): string {
    if cmd.Play? then "play\n" else if cmd.Next? then "next\n" else "prev\n"
  }

  /** -1 for a failed receive, `err` and `ok`; 2 for a closed connection and `end`; and 0 for
      everything else. */
  predicate MediaReports(r: RecvResult, status: int) {
    && (status == 2 <==> r in {Closed, Got("end\n")})
    && (status == -1 <==> r in {Fail, Got("err\n"), Got("ok\n")})
    && (status == 0 <==> r.Got? && r.s !in {"end\n", "err\n", "ok\n"})
  }

  /** After a successful handshake a media command sends its word, takes its status from the
      one reply, and leaves with `bye` and `end` exactly if the status is END. */
  lemma MediaOnScript(cfg: Config, st: State, sent: seq<Packet>, script: seq<Arrival>) returns (status: int)
    requires RequestValid(cfg.request) && cfg.request.Media?
    ensures PcFits(cfg, StartCommand(cfg, st).pc)
    ensures MediaReports(First(cfg, st.(pc := WaitMedia), script).r, status)
    ensures Run(cfg, StartCommand(cfg, st), sent, script)
         == (st.(command := Some(status), pc := Ended),
             sent + Said(cfg, st, [WordOf(cfg.request.cmd)] + Farewell(status)))
  {
    var word, t := WordOf(cfg.request.cmd), st.(pc := WaitMedia);
    status := MediaStatus(First(cfg, t, script).r);
    OneSend(cfg, StartCommand(cfg, st), sent, script);
    var told := sent + [Message(cfg, st, word)];
    assert told == sent + Said(cfg, st, [word]);
    OneReceive(cfg, t, told, script);
    RunFinishes(cfg, t.(command := Some(status)), status, told, Rest(script));
    assert Said(cfg, t.(command := Some(status)), Farewell(status)) == Said(cfg, st, Farewell(status));
    SaidAppend(cfg, st, [word], Farewell(status));
    assert told + Said(cfg, st, Farewell(status)) == sent + Said(cfg, st, [word] + Farewell(status));
  }

  /** With nothing asked for, the client leaves at once. */
  lemma NothingOnScript(cfg: Config, st: State, sent: seq<Packet>, script: seq<Arrival>)
    requires cfg.request.Nothing?
    ensures PcFits(cfg, StartCommand(cfg, st).pc)
    ensures Run(cfg, StartCommand(cfg, st), sent, script)
         == (st.(command := Some(0), pc := Ended), sent + Said(cfg, st, ["end\n"]))
  {
    var t := st.(command := Some(0));
    RunFinishes(cfg, t, 0, sent, script);
    assert Said(cfg, t, ["end\n"]) == Said(cfg, st, ["end\n"]);
  }

  /** Before it connects the program asks for as many volumes as channels, and for at least one;
      an `int` must hold their number. */
  lemma RequestsAreChecked(channels: seq<string>, vols: seq<string>)
    ensures RequestValid(Volume(channels, vols)) <==> 0 < |channels| == |vols| < 2147483648
  {
  }

  // ---------------------------------------------------------------- volume commands

  /** What a volume command says: `vol`, the number of channels, and one argument for each. */
  function VolumeWords(cfg: Config): seq<string>
    requires cfg.request.Volume? && RequestValid(cfg.request)
  {
    ["vol\n", Itoa(|cfg.request.channels|) + "\n"] + Arguments(cfg)
  }

  function Arguments(cfg: Config): seq<string>
    requires cfg.request.Volume? && RequestValid(cfg.request)
  {
    seq(|cfg.request.channels|, i requires 0 <= i < |cfg.request.channels| =>
      cfg.request.channels[i] + "=" + cfg.request.vols[i])
  }

  /** Where the client waits for the answer to its i-th word. */
  function WaitFor(i: nat): Pc { if i == 0 then WaitVolOk else if i == 1 then WaitCountOk else WaitVolReply(i - 2) }

  /** The command goes on after the i-th answer: `ok` for the first two, and for a channel any
      message but `err` and `end`. */
  predicate Heeded(i: nat, r: RecvResult) {
    if i < 2 then r == Got("ok\n") else r.Got? && r.s !in {"err\n", "end\n"}
  }

  /** The status of a command that does not go on: 2 for a closed connection and `end`. */
  function RefusalStatus(r: RecvResult): int { if r in {Closed, Got("end\n")} then 2 else -1 }

  /** The answer to the i-th word, if the script begins with the one to word 0. */
  function Answer(cfg: Config, st: State, script: seq<Arrival>, i: nat): RecvResult {
    if i < |script| then script[i].r else if cfg.useEnc && st.crypto then Fail else Closed
  }

  lemma WaitForFits(cfg: Config, i: nat)
    requires cfg.request.Volume? && RequestValid(cfg.request) && i < |VolumeWords(cfg)|
    ensures PcFits(cfg, WaitFor(i)) && Waiting(WaitFor(i))
  {
  }

  /** The client after the i-th answer. */
  lemma NextWord(cfg: Config, st: State, i: nat, a: Arrival)
    requires cfg.request.Volume? && RequestValid(cfg.request) && i < |VolumeWords(cfg)| && st.pc == WaitFor(i)
    ensures PcFits(cfg, st.pc)
    ensures Receive(cfg, st, a)
         == if !Heeded(i, a.r) then CommandReturns(cfg, st, RefusalStatus(a.r))
            else if i + 1 == |VolumeWords(cfg)| then CommandReturns(cfg, st, 0)
            else st.(pc := Send(Message(cfg, st, VolumeWords(cfg)[i + 1]), WaitFor(i + 1)))
  {
    hide Message, Itoa;
    assert VolumeWords(cfg)[2..] == Arguments(cfg);
  }

  /** From the answer to the i-th word on, the m-th answer is the first that stops the command,
      or all of them let it go on. */
  predicate StopsAfter(cfg: Config, st: State, script: seq<Arrival>, i: nat, m: nat)
    requires cfg.request.Volume? && RequestValid(cfg.request) && i + m <= |VolumeWords(cfg)|
  {
    && (forall k | 0 <= k < m :: Heeded(i + k, Answer(cfg, st, script, k)))
    && (i + m < |VolumeWords(cfg)| ==> !Heeded(i + m, Answer(cfg, st, script, m)))
  }

  /** The status then, and the words said: all up to the one that is not heeded. */
  function StatusAfter(cfg: Config, st: State, script: seq<Arrival>, i: nat, m: nat): int
    requires cfg.request.Volume? && RequestValid(cfg.request)
  {
    if i + m == |VolumeWords(cfg)| then 0 else RefusalStatus(Answer(cfg, st, script, m))
  }

  function WordsBetween(cfg: Config, i: nat, m: nat): seq<string>
    requires cfg.request.Volume? && RequestValid(cfg.request) && i + m <= |VolumeWords(cfg)|
  {
    if i + m == |VolumeWords(cfg)| then VolumeWords(cfg)[i..] else VolumeWords(cfg)[i..i + m + 1]
  }

  lemma StopsLater(cfg: Config, st: State, t: State, script: seq<Arrival>, i: nat, m: nat)
    requires cfg.request.Volume? && RequestValid(cfg.request) && i + m <= |VolumeWords(cfg)| && m > 0
    requires StopsAfter(cfg, st, script, i, m) && t.crypto == st.crypto
    ensures StopsAfter(cfg, t, Rest(script), i + 1, m - 1)
    ensures StatusAfter(cfg, t, Rest(script), i + 1, m - 1) == StatusAfter(cfg, st, script, i, m)
  {
    hide Heeded, VolumeWords, RefusalStatus;
    forall k | 0 <= k < m ensures Answer(cfg, t, Rest(script), k) == Answer(cfg, st, script, k + 1) { }
    forall k | 0 <= k < m - 1 ensures Heeded(i + 1 + k, Answer(cfg, t, Rest(script), k)) {
      assert Heeded(i + (k + 1), Answer(cfg, st, script, k + 1));
    }
  }

  lemma {:induction false} WordsOnScript(cfg: Config, st: State, sent: seq<Packet>, script: seq<Arrival>,
                                         i: nat, m: nat)
    requires cfg.request.Volume? && RequestValid(cfg.request) && st.pc == WaitFor(i)
    requires i < |VolumeWords(cfg)| && i + m <= |VolumeWords(cfg)| && StopsAfter(cfg, st, script, i, m)
    ensures PcFits(cfg, st.pc)
    ensures var status := StatusAfter(cfg, st, script, i, m);
      Run(cfg, st, sent, script)
      == (st.(command := Some(status), pc := Ended),
          sent + Said(cfg, st, WordsBetween(cfg, i, m)[1..] + Farewell(status)))
    decreases m
  {
    hide Run, Receive, Heeded, VolumeWords, RefusalStatus, StopsAfter;
    var n, a, rest := |VolumeWords(cfg)|, First(cfg, st, script), Rest(script);
    WaitForFits(cfg, i);
    OneReceive(cfg, st, sent, script);
    NextWord(cfg, st, i, a);
    FirstAnswer(cfg, st, script, i, m);
    if m == 0 || i + 1 == n {
      var status := StatusAfter(cfg, st, script, i, m);
      var t := st.(command := Some(status));
      RunFinishes(cfg, t, status, sent, rest);
      assert Said(cfg, t, Farewell(status)) == Said(cfg, st, Farewell(status));
      assert WordsBetween(cfg, i, m)[1..] + Farewell(status) == Farewell(status);
    } else {
      var word, t := VolumeWords(cfg)[i + 1], st.(pc := WaitFor(i + 1));
      var status := StatusAfter(cfg, st, script, i, m);
      WaitForFits(cfg, i + 1);
      StopsLater(cfg, st, t, script, i, m);
      OneSend(cfg, st.(pc := Send(Message(cfg, st, word), WaitFor(i + 1))), sent, rest);
      WordsOnScript(cfg, t, sent + [Message(cfg, st, word)], rest, i + 1, m - 1);
      assert WordsBetween(cfg, i, m)[1..] == WordsBetween(cfg, i + 1, m - 1);
      SayFirst(cfg, st, t, sent, WordsBetween(cfg, i + 1, m - 1), word, Farewell(status));
    }
  }

  /** Saying a word and then the others is saying all of them. */
  lemma SayFirst(cfg: Config, st: State, t: State, sent: seq<Packet>, words: seq<string>, word: string,
                 farewell: seq<string>)
    requires words != [] && words[0] == word && t.crypto == st.crypto && t.keys == st.keys
    ensures sent + [Message(cfg, st, word)] + Said(cfg, t, words[1..] + farewell)
         == sent + Said(cfg, st, words + farewell)
  {
    assert words + farewell == [word] + (words[1..] + farewell);
    SaidAppend(cfg, st, [word], words[1..] + farewell);
    assert Said(cfg, t, words[1..] + farewell) == Said(cfg, st, words[1..] + farewell);
    assert Said(cfg, st, [word]) == [Message(cfg, st, word)];
  }

  /** The arrival that is read next is the answer to the word last said. */
  lemma FirstAnswer(cfg: Config, st: State, script: seq<Arrival>, i: nat, m: nat)
    requires cfg.request.Volume? && RequestValid(cfg.request) && st.pc == WaitFor(i)
    requires i < |VolumeWords(cfg)| && i + m <= |VolumeWords(cfg)| && StopsAfter(cfg, st, script, i, m)
    ensures First(cfg, st, script).r == Answer(cfg, st, script, 0)
    ensures Heeded(i, Answer(cfg, st, script, 0)) <==> m > 0
  {
    hide Heeded, VolumeWords;
    assert m > 0 ==> Heeded(i + 0, Answer(cfg, st, script, 0));
  }

  /** After a successful handshake: the command says its words one by one, each after the answer
      to the one before, up to the one whose answer (the m-th) is the first that stops it, or
      all of them. Its status is 0 exactly if none does. */
  lemma VolumeOnScript(cfg: Config, st: State, sent: seq<Packet>, script: seq<Arrival>, m: nat)
    requires cfg.request.Volume? && RequestValid(cfg.request) && m <= |VolumeWords(cfg)|
    requires StopsAfter(cfg, st, script, 0, m)
    ensures PcFits(cfg, StartCommand(cfg, st).pc)
    ensures var status := StatusAfter(cfg, st, script, 0, m);
      Run(cfg, StartCommand(cfg, st), sent, script)
      == (st.(command := Some(status), pc := Ended),
          sent + Said(cfg, st, WordsBetween(cfg, 0, m) + Farewell(status)))
  {
    hide Run, Heeded, RefusalStatus, Itoa;
    var t := st.(pc := WaitFor(0));
    assert VolumeWords(cfg)[0] == "vol\n";
    WaitForFits(cfg, 0);
    OneSend(cfg, StartCommand(cfg, st), sent, script);
    assert forall k :: Answer(cfg, t, script, k) == Answer(cfg, st, script, k);
    WordsOnScript(cfg, t, sent + [Message(cfg, st, "vol\n")], script, 0, m);
    SayFirst(cfg, st, t, sent, WordsBetween(cfg, 0, m), "vol\n", Farewell(StatusAfter(cfg, st, script, 0, m)));
  }

  /** For every script there is such an m. */
  lemma {:induction false} SomeAnswerStops(cfg: Config, st: State, script: seq<Arrival>, m: nat) returns (stop: nat)
    requires cfg.request.Volume? && RequestValid(cfg.request) && m <= |VolumeWords(cfg)|
    requires forall k | 0 <= k < m :: Heeded(k, Answer(cfg, st, script, k))
    ensures stop <= |VolumeWords(cfg)| && StopsAfter(cfg, st, script, 0, stop)
    decreases |VolumeWords(cfg)| - m
  {
    hide Heeded, VolumeWords;
    if m < |VolumeWords(cfg)| && Heeded(m, Answer(cfg, st, script, m)) {
      stop := SomeAnswerStops(cfg, st, script, m + 1);
    } else {
      stop := m;
      forall k | 0 <= k < m ensures Heeded(0 + k, Answer(cfg, st, script, k)) { }
    }
  }

  // ---------------------------------------------------------------- whole sessions

  /** On its way through the handshake. */
  predicate Shaking(st: State) {
    && st.handshake == None && st.command == None
    && (Target(st.pc).WaitHelo? || Target(st.pc).WaitPub? || Target(st.pc).WaitSecret? || Target(st.pc).WaitRedy?)
  }

  /** What comes of one receive in the handshake. */
  lemma ShakingStep(cfg: Config, st: State, a: Arrival)
    requires RequestValid(cfg.request) && PcFits(cfg, st.pc) && Waiting(st.pc) && Shaking(st)
    ensures var t := Receive(cfg, st, a);
      || Shaking(t)
      || (st.pc.WaitRedy? && a.r == Got("redy\n") && t == StartCommand(cfg, st.(handshake := Some(0))))
      || t == HandshakeFails(cfg, st, -1)
      || (st.pc.WaitRedy? && a.r == Got("end\n") && t == HandshakeFails(cfg, st, 2))
      || t == HandshakeFails(cfg, st, -1).(pc := Send(Text("err\n"), FinishPc(cfg, st, -1)))
  {
    assert Target(Send(Text("redy\n"), WaitRedy)) == WaitRedy && Target(Send(Text("enc\n"), WaitPub)) == WaitPub;
    assert Target(Send(Text("noenc\n"), WaitRedy)) == WaitRedy;
    assert Target(Send(PublicKey(cfg.pem), WaitSecret(false, 0, true))).WaitSecret?;
  }

  /** Either the handshake fails, no command is run, and the client takes its leave; or the whole
      run is that of a command, started in the state at with the arrivals in rest. */
  lemma {:induction false} CommandOrLeave(cfg: Config, st: State, sent: seq<Packet>, script: seq<Arrival>)
    returns (at: State, before: seq<Packet>, rest: seq<Arrival>)
    requires RequestValid(cfg.request) && PcFits(cfg, st.pc) && Shaking(st)
    ensures PcFits(cfg, StartCommand(cfg, at).pc) && at.command == None
    ensures at.handshake in {Some(0), Some(-1), Some(2)}
    ensures |rest| <= |script| && rest == script[|script| - |rest|..]
    ensures at.handshake == Some(0) ==> |rest| < |script| && script[|script| - |rest| - 1].r == Got("redy\n")
    ensures Run(cfg, st, sent, script)
         == if at.handshake == Some(0) then Run(cfg, StartCommand(cfg, at), before, rest)
            else (at.(pc := Ended), before + Said(cfg, at, Farewell(at.handshake.value)))
    decreases Rank(cfg, st.pc)
  {
    hide Run, Receive, Farewell, FinishPc;
    if st.pc.Send? {
      OneSend(cfg, st, sent, script);
      at, before, rest := CommandOrLeave(cfg, st.(pc := st.pc.next), sent + [st.pc.pkt], script);
    } else {
      var a := First(cfg, st, script);
      var t := Receive(cfg, st, a);
      RankFalls(cfg, st, a);
      OneReceive(cfg, st, sent, script);
      ShakingStep(cfg, st, a);
      if Shaking(t) {
        at, before, rest := CommandOrLeave(cfg, t, sent, Rest(script));
      } else {
        at, before, rest := st.(handshake := t.handshake), sent, Rest(script);
        if t.handshake == Some(0) {
          RankOfStart(cfg, at);
        } else {
          before := Leaves(cfg, st, t, sent, rest);
        }
      }
    }
  }

  lemma Leaves(cfg: Config, st: State, t: State, sent: seq<Packet>, rest: seq<Arrival>) returns (before: seq<Packet>)
    requires RequestValid(cfg.request) && PcFits(cfg, t.pc)
    requires || t == HandshakeFails(cfg, st, -1) || t == HandshakeFails(cfg, st, 2)
             || t == HandshakeFails(cfg, st, -1).(pc := Send(Text("err\n"), FinishPc(cfg, st, -1)))
    ensures var at := st.(handshake := t.handshake);
      && PcFits(cfg, StartCommand(cfg, at).pc)
      && Run(cfg, t, sent, rest) == (at.(pc := Ended), before + Said(cfg, at, Farewell(t.handshake.value)))
  {
    var at := st.(handshake := t.handshake);
    RankOfStart(cfg, at);
    if t.pc == Send(Text("err\n"), FinishPc(cfg, st, -1)) && t.handshake == Some(-1) {
      before := sent + [Text("err\n")];
      RankOfFinish(cfg, st, -1);
      OneSend(cfg, t, sent, rest);
    } else {
      before := sent;
    }
    RunLeaves(cfg, st, t.handshake.value, before, rest);
    assert Said(cfg, at, Farewell(t.handshake.value)) == Said(cfg, st, Farewell(t.handshake.value));
  }

  /** A media session on any script. If the handshake succeeds, with the arrival before the k-th,
      the status of the command is that of the k-th, and the client sends its word, `bye`
      exactly if the status is 2, and `end`. Otherwise there is no command. */
  lemma MediaStatusExactly(cfg: Config, script: seq<Arrival>) returns (k: nat, before: seq<Packet>)
    requires RequestValid(cfg.request) && cfg.request.Media?
    ensures var (t, sent) := Whole(cfg, script);
      if t.handshake == Some(0) then
        && 1 <= k <= |script| && script[k - 1].r == Got("redy\n")
        && t.command.Some? && MediaReports(Answer(cfg, t, script, k), t.command.value)
        && sent == before + Said(cfg, t, [WordOf(cfg.request.cmd)] + Farewell(t.command.value))
      else
        && t.handshake in {Some(-1), Some(2)} && t.command == None
        && sent == before + Said(cfg, t, Farewell(t.handshake.value))
  {
    hide Run, Farewell, MediaReports;
    var at, rest;
    at, before, rest := CommandOrLeave(cfg, Start(cfg), [], script);
    k := |script| - |rest|;
    if at.handshake == Some(0) {
      var status := MediaOnScript(cfg, at, before, rest);
      var words := [WordOf(cfg.request.cmd)] + Farewell(status);
      assert First(cfg, at.(pc := WaitMedia), rest).r == Answer(cfg, at, script, k);
      assert Said(cfg, Whole(cfg, script).0, words) == Said(cfg, at, words);
    } else {
      var words := Farewell(at.handshake.value);
      assert Said(cfg, Whole(cfg, script).0, words) == Said(cfg, at, words);
    }
  }

  /** The same for a volume session: its m-th answer after the handshake is the first that stops
      the command, or all of them let it go on. */
  lemma VolumeStatusExactly(cfg: Config, script: seq<Arrival>)
    returns (k: nat, m: nat, before: seq<Packet>)
    requires RequestValid(cfg.request) && cfg.request.Volume?
    ensures k <= |script| && m <= |VolumeWords(cfg)|
    ensures var (t, sent) := Whole(cfg, script);
      if t.handshake == Some(0) then
        && 1 <= k && script[k - 1].r == Got("redy\n") && StopsAfter(cfg, t, script[k..], 0, m)
        && t.command == Some(StatusAfter(cfg, t, script[k..], 0, m))
        && sent == before + Said(cfg, t, WordsBetween(cfg, 0, m) + Farewell(t.command.value))
      else
        && t.handshake in {Some(-1), Some(2)} && t.command == None
        && sent == before + Said(cfg, t, Farewell(t.handshake.value))
  {
    hide Run, Farewell, Heeded, RefusalStatus, VolumeWords;
    var at, rest;
    at, before, rest := CommandOrLeave(cfg, Start(cfg), [], script);
    k, m := |script| - |rest|, 0;
    if at.handshake == Some(0) {
      m := SomeAnswerStops(cfg, at, rest, 0);
      VolumeOnScript(cfg, at, before, rest, m);
      var t, words := Whole(cfg, script).0, WordsBetween(cfg, 0, m) + Farewell(StatusAfter(cfg, at, rest, 0, m));
      assert forall i :: Answer(cfg, t, rest, i) == Answer(cfg, at, rest, i);
      assert Said(cfg, t, words) == Said(cfg, at, words);
    } else {
      var words := Farewell(at.handshake.value);
      assert Said(cfg, Whole(cfg, script).0, words) == Said(cfg, at, words);
    }
  }
}
