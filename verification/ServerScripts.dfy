/** What the server's child process does on any script of received messages, with every word
    and every key written out: which packets it sends, which effects it has, and whether it
    ends in its catch block. */
module ServerScripts {
  import opened Wrappers
  import opened CText
  import opened VolumeCommand
  import opened Wire
  import opened ServerProgram

  /** The packets of some words, in the mode the session has agreed on. */
  function Said(cfg: Config, st: State, words: seq<string>): (pkts: seq<Packet>)
    ensures |pkts| == |words|
  {
    seq(|words|, i requires 0 <= i < |words| =>
      if st.isEnc && st.crypto then Sealed(cfg.keys, words[i]) else Text(words[i]))
  }

  /** Nothing is received any more, or not a message. */
  predicate Silent(script: seq<RecvResult>) { script == [] || !script[0].Got? }

  /** The program ends in its catch block, or without it. */
  function Over(st: State, failed: bool): State { st.(pc := Ended(failed)) }

  lemma SaidAppend(cfg: Config, st: State, a: seq<string>, b: seq<string>)
    ensures Said(cfg, st, a + b) == Said(cfg, st, a) + Said(cfg, st, b)
  {
  }

  /** A script that is used up goes on with what a closed connection returns. */
  function First(cfg: Config, st: State, script: seq<RecvResult>): RecvResult {
    if script != [] then script[0] else if ReceivesEncrypted(cfg, st) then Fail else Closed
  }

  function Rest(script: seq<RecvResult>): seq<RecvResult> { if script != [] then script[1..] else [] }

  lemma OneReceive(cfg: Config, st: State, sent: seq<Packet>, script: seq<RecvResult>)
    requires Waiting(st.pc)
    ensures Run(cfg, st, sent, script) == Run(cfg, Receive(cfg, st, First(cfg, st, script)), sent, Rest(script))
  {
    hide Receive;
    if script == [] { RankFalls(cfg, st, Gone(cfg, st)); }
  }

  lemma OneSend(cfg: Config, st: State, sent: seq<Packet>, script: seq<RecvResult>)
    requires st.pc.Send?
    ensures Run(cfg, st, sent, script) == Run(cfg, st.(pc := st.pc.next), sent + [st.pc.pkt], script)
  {
  }

  lemma RunAborts(cfg: Config, st: State, sent: seq<Packet>, script: seq<RecvResult>)
    ensures Run(cfg, Abort(cfg, st), sent, script) == (Over(st, true), sent + Said(cfg, st, ["end\n"]))
  {
    var pkt := Message(cfg, st, "end\n", st.isEnc);
    OneSend(cfg, Abort(cfg, st), sent, script);
    RunCloses(cfg, st.(pc := Close(true)), sent + [pkt], script);
    assert Said(cfg, st, ["end\n"]) == [pkt];
  }

  lemma RunReplies(cfg: Config, st: State, word: string, next: Pc, sent: seq<Packet>, script: seq<RecvResult>)
    ensures Run(cfg, Reply(cfg, st, word, next), sent, script)
         == Run(cfg, st.(pc := next), sent + Said(cfg, st, [word]), script)
  {
    OneSend(cfg, Reply(cfg, st, word, next), sent, script);
    assert Said(cfg, st, [word]) == [Message(cfg, st, word, st.isEnc)];
  }

  /** A last word, and then the `end` of the catch block. */
  lemma RunRepliesAndFails(cfg: Config, st: State, word: string, sent: seq<Packet>, script: seq<RecvResult>)
    ensures Run(cfg, Reply(cfg, st, word, FailPc(cfg, st)), sent, script)
         == (Over(st, true), sent + Said(cfg, st, [word, "end\n"]))
  {
    RunReplies(cfg, st, word, FailPc(cfg, st), sent, script);
    RunAborts(cfg, st, sent + Said(cfg, st, [word]), script);
    assert st.(pc := FailPc(cfg, st)) == Abort(cfg, st);
    assert [word] + ["end\n"] == [word, "end\n"];
    SaidAppend(cfg, st, [word], ["end\n"]);
    assert sent + Said(cfg, st, [word]) + Said(cfg, st, ["end\n"]) == sent + Said(cfg, st, [word, "end\n"]);
  }

  // ---------------------------------------------------------------- the handshake

  /** The state in which the first command is awaited. */
  function Ready(encrypted: bool, peerPem: Option<string>): State {
    State(WaitCmd, encrypted, encrypted, encrypted, peerPem, [])
  }

  /** Where the child stands after its `helo`. */
  lemma Greeted(cfg: Config, script: seq<RecvResult>)
    ensures Run(cfg, Start(cfg), [], script)
         == Run(cfg, Receive(cfg, State(WaitEnc, false, false, false, None, []),
                             if script == [] then Closed else script[0]), [Text("helo\n")], Rest(script))
  {
    hide Receive;
    var st := State(WaitEnc, false, false, false, None, []);
    OneSend(cfg, Start(cfg), [], script);
    assert Start(cfg).(pc := WaitEnc) == st && [] + [Text("helo\n")] == [Text("helo\n")];
    OneReceive(cfg, st, [Text("helo\n")], script);
  }

  /** A first word other than `enc` and `noenc`, or none: the child fails at once, having sent
      `helo` and `end` and done nothing. */
  lemma OtherWordsFail(cfg: Config, script: seq<RecvResult>)
    requires script == [] || script[0] !in {Got("enc\n"), Got("noenc\n")}
    ensures Run(cfg, Start(cfg), [], script)
         == (State(Ended(true), false, false, false, None, []), [Text("helo\n"), Text("end\n")])
  {
    var st := State(WaitEnc, false, false, false, None, []);
    Greeted(cfg, script);
    RunAborts(cfg, st, [Text("helo\n")], Rest(script));
    assert [Text("helo\n")] + Said(cfg, st, ["end\n"]) == [Text("helo\n"), Text("end\n")];
  }

  /** `noenc`: the session goes on in plain text. */
  lemma NoencIsPlain(cfg: Config, rest: seq<RecvResult>)
    ensures Run(cfg, Start(cfg), [], [Got("noenc\n")] + rest)
         == Run(cfg, Ready(false, None), [Text("helo\n"), Text("redy\n")], rest)
  {
    var st := State(WaitEnc, false, false, false, None, []);
    var script := [Got("noenc\n")] + rest;
    Greeted(cfg, script);
    assert Rest(script) == rest;
    RunReplies(cfg, st, "redy\n", WaitCmd, [Text("helo\n")], rest);
    assert [Text("helo\n")] + Said(cfg, st, ["redy\n"]) == [Text("helo\n"), Text("redy\n")];
  }

  /** `enc` at a server without encryption: refused in plain text. */
  lemma EncIsRefused(cfg: Config, rest: seq<RecvResult>)
    requires !cfg.useEnc
    ensures Run(cfg, Start(cfg), [], [Got("enc\n")] + rest)
         == (State(Ended(true), true, false, false, None, []), [Text("helo\n"), Text("err\n"), Text("end\n")])
  {
    var st := State(WaitEnc, true, false, false, None, []);
    var script := [Got("enc\n")] + rest;
    Greeted(cfg, script);
    assert Rest(script) == rest;
    RunRepliesAndFails(cfg, st, "err\n", [Text("helo\n")], rest);
    assert [Text("helo\n")] + Said(cfg, st, ["err\n", "end\n"]) == [Text("helo\n"), Text("err\n"), Text("end\n")];
  }

  /** The state in which the server waits for the client's public key. */
  function Exchanging(peerPem: Option<string>, pc: Pc): State { State(pc, true, true, true, peerPem, []) }

  lemma EncStartsExchange(cfg: Config, rest: seq<RecvResult>)
    requires cfg.useEnc
    ensures Run(cfg, Start(cfg), [], [Got("enc\n")] + rest)
         == Run(cfg, Receive(cfg, Exchanging(None, WaitPub), if rest == [] then Closed else rest[0]),
                [Text("helo\n"), PublicKey(cfg.pem)], Rest(rest))
  {
    hide OnPublicKey;
    var script := [Got("enc\n")] + rest;
    Greeted(cfg, script);
    assert Rest(script) == rest;
    var st := Exchanging(None, Send(PublicKey(cfg.pem), WaitPub));
    OneSend(cfg, st, [Text("helo\n")], rest);
    assert [Text("helo\n")] + [PublicKey(cfg.pem)] == [Text("helo\n"), PublicKey(cfg.pem)];
    OneReceive(cfg, Exchanging(None, WaitPub), [Text("helo\n"), PublicKey(cfg.pem)], rest);
  }

  /** A public key that could not be received, or an `err` in its place. */
  lemma KeyIsRefused(cfg: Config, r: RecvResult, rest: seq<RecvResult>)
    requires cfg.useEnc && r in {Fail, Got("err\n")}
    ensures Run(cfg, Start(cfg), [], [Got("enc\n"), r] + rest)
         == (Exchanging(None, Ended(true)),
             [Text("helo\n"), PublicKey(cfg.pem), Text("err\n"), Sealed(cfg.keys, "end\n")])
  {
    var st, sent := Exchanging(None, WaitPub), [Text("helo\n"), PublicKey(cfg.pem)];
    assert [Got("enc\n"), r] + rest == [Got("enc\n")] + ([r] + rest);
    EncStartsExchange(cfg, [r] + rest);
    assert Rest([r] + rest) == rest;
    var failing := Exchanging(None, Send(Text("err\n"), FailPc(cfg, st)));
    OneSend(cfg, failing, sent, rest);
    RunAborts(cfg, st, sent + [Text("err\n")], rest);
    assert Abort(cfg, st) == failing.(pc := FailPc(cfg, st));
    assert sent + [Text("err\n")] + Said(cfg, st, ["end\n"])
        == [Text("helo\n"), PublicKey(cfg.pem), Text("err\n"), Sealed(cfg.keys, "end\n")];
  }

  /** The six parts of the two secrets, for the holder of a public key. */
  function Secrets(cfg: Config, reader: Option<string>): seq<Packet> {
    [Envelope(reader, 0, ""), Envelope(reader, 1, ""), Envelope(reader, 2, cfg.keys.iv),
     Envelope(reader, 0, ""), Envelope(reader, 1, ""), Envelope(reader, 2, cfg.keys.key)]
  }

  lemma RunSendsSecret(cfg: Config, reader: Option<string>, secret: string, next: Pc, sent: seq<Packet>,
                       script: seq<RecvResult>)
    ensures Run(cfg, Exchanging(reader, SecretPc(reader, secret, next)), sent, script)
         == Run(cfg, Exchanging(reader, next),
                sent + [Envelope(reader, 0, ""), Envelope(reader, 1, ""), Envelope(reader, 2, secret)], script)
  {
    var a, b, c := Envelope(reader, 0, ""), Envelope(reader, 1, ""), Envelope(reader, 2, secret);
    OneSend(cfg, Exchanging(reader, Send(a, Send(b, Send(c, next)))), sent, script);
    OneSend(cfg, Exchanging(reader, Send(b, Send(c, next))), sent + [a], script);
    OneSend(cfg, Exchanging(reader, Send(c, next)), sent + [a] + [b], script);
    assert sent + [a] + [b] + [c] == sent + [a, b, c];
  }

  lemma RunSendsSecrets(cfg: Config, reader: Option<string>, sent: seq<Packet>, script: seq<RecvResult>)
    ensures Run(cfg, Exchanging(reader, SecretsPc(cfg, reader)), sent, script)
         == Run(cfg, Exchanging(reader, WaitRedy), sent + Secrets(cfg, reader), script)
  {
    hide SecretPc;
    var iv := [Envelope(reader, 0, ""), Envelope(reader, 1, ""), Envelope(reader, 2, cfg.keys.iv)];
    var key := [Envelope(reader, 0, ""), Envelope(reader, 1, ""), Envelope(reader, 2, cfg.keys.key)];
    RunSendsSecret(cfg, reader, cfg.keys.iv, SecretPc(reader, cfg.keys.key, WaitRedy), sent, script);
    RunSendsSecret(cfg, reader, cfg.keys.key, WaitRedy, sent + iv, script);
    assert sent + iv + key == sent + Secrets(cfg, reader);
  }

  /** The reader of the secrets: the sender of the public key, or nobody if the connection was
      closed instead, which the code does not notice. */
  predicate KeyReceived(r: RecvResult, reader: Option<string>) {
    (r == Closed && reader == None) || (r.Got? && r.s != "err\n" && reader == Some(r.s))
  }

  /** The secrets go out, and the session goes on, encrypted, if and only if the next word is
      `redy`. */
  lemma SecretsAreSent(cfg: Config, r: RecvResult, reader: Option<string>, rest: seq<RecvResult>)
    requires cfg.useEnc && KeyReceived(r, reader)
    ensures var sent := [Text("helo\n"), PublicKey(cfg.pem)] + Secrets(cfg, reader);
      Run(cfg, Start(cfg), [], [Got("enc\n"), r] + rest)
      == if rest != [] && rest[0] == Got("redy\n")
         then Run(cfg, Ready(true, reader), sent + [Sealed(cfg.keys, "redy\n")], rest[1..])
         else (Exchanging(reader, Ended(true)), sent + [Sealed(cfg.keys, "end\n")])
  {
    hide SecretsPc, Secrets;
    var hello := [Text("helo\n"), PublicKey(cfg.pem)];
    var sent, st := hello + Secrets(cfg, reader), Exchanging(reader, WaitRedy);
    assert [Got("enc\n"), r] + rest == [Got("enc\n")] + ([r] + rest);
    EncStartsExchange(cfg, [r] + rest);
    assert Rest([r] + rest) == rest;
    RunSendsSecrets(cfg, reader, hello, rest);
    OneReceive(cfg, st, sent, rest);
    assert Said(cfg, st, ["redy\n"]) == [Sealed(cfg.keys, "redy\n")];
    assert Said(cfg, st, ["end\n"]) == [Sealed(cfg.keys, "end\n")];
    RunReplies(cfg, st, "redy\n", WaitCmd, sent, Rest(rest));
    RunAborts(cfg, st, sent, Rest(rest));
  }

  /** The scripts that get through the handshake. */
  predicate Admitted(cfg: Config, script: seq<RecvResult>) {
    || (script != [] && script[0] == Got("noenc\n"))
    || (&& cfg.useEnc && |script| >= 3 && script[0] == Got("enc\n")
        && script[1] !in {Fail, Got("err\n")} && script[2] == Got("redy\n"))
  }

  /** The connection is closed after `enc`: the secrets are sent all the same. */
  lemma NoKeyAtAll(cfg: Config)
    requires cfg.useEnc
    ensures Run(cfg, Start(cfg), [], [Got("enc\n")])
         == (Exchanging(None, Ended(true)),
             [Text("helo\n"), PublicKey(cfg.pem)] + Secrets(cfg, None) + [Sealed(cfg.keys, "end\n")])
  {
    SecretsAreSent(cfg, Closed, None, []);
    EncStartsExchange(cfg, []);
    EncStartsExchange(cfg, [Closed]);
    assert [Got("enc\n")] + [] == [Got("enc\n")];
    assert [Got("enc\n"), Closed] + [] == [Got("enc\n")] + [Closed];
    assert Rest([Closed]) == Rest([]);
  }

  /** No other script has any effect, and each of them ends in the catch block. */
  lemma NothingWithoutHandshake(cfg: Config, script: seq<RecvResult>)
    requires !Admitted(cfg, script)
    ensures var (st, sent) := Run(cfg, Start(cfg), [], script);
      && st.log == [] && st.pc == Ended(true)
      && |sent| >= 2 && sent[0] == Text("helo\n")
      && sent[|sent| - 1] in {Text("end\n"), Sealed(cfg.keys, "end\n")}
      && Text("redy\n") !in sent && Sealed(cfg.keys, "redy\n") !in sent
  {
    hide Run, Start;
    if script == [] || script[0] != Got("enc\n") {
      OtherWordsFail(cfg, script);
    } else {
      var rest := script[1..];
      assert script == [Got("enc\n")] + rest;
      if !cfg.useEnc {
        EncIsRefused(cfg, rest);
      } else if rest == [] {
        assert script == [Got("enc\n")];
        NoKeyAtAll(cfg);
      } else {
        var r := rest[0];
        assert script == [Got("enc\n"), r] + rest[1..];
        if r in {Fail, Got("err\n")} {
          KeyIsRefused(cfg, r, rest[1..]);
        } else {
          SecretsAreSent(cfg, r, if r.Got? then Some(r.s) else None, rest[1..]);
        }
      }
    }
  }

  /** What has been sent stays sent. */
  lemma {:induction false} RunSendsMore(cfg: Config, st: State, sent: seq<Packet>, script: seq<RecvResult>)
    ensures sent <= Run(cfg, st, sent, script).1
    decreases |script|, Rank(st.pc)
  {
    match st.pc
    case Ended(_) =>
    case Close(failed) => RunSendsMore(cfg, st.(pc := Ended(failed)), sent, script);
    case Send(pkt, next) => RunSendsMore(cfg, st.(pc := next), sent + [pkt], script);
    case _ =>
      if script != [] {
        RunSendsMore(cfg, Receive(cfg, st, script[0]), sent, script[1..]);
      } else {
        RankFalls(cfg, st, Gone(cfg, st));
        RunSendsMore(cfg, Receive(cfg, st, Gone(cfg, st)), sent, script);
      }
  }

  predicate Confirms(cfg: Config, sent: seq<Packet>) { Text("redy\n") in sent || Sealed(cfg.keys, "redy\n") in sent }

  lemma ReadyConfirms(cfg: Config, st: State, sent: seq<Packet>, script: seq<RecvResult>)
    requires Confirms(cfg, sent)
    ensures Confirms(cfg, Run(cfg, st, sent, script).1)
  {
    hide Run;
    RunSendsMore(cfg, st, sent, script);
    assert forall p | p in sent :: p in Run(cfg, st, sent, script).1;
  }

  /** The server confirms the handshake with `redy` exactly on the scripts that get through it. */
  lemma AdmittedExactly(cfg: Config, script: seq<RecvResult>)
    ensures Confirms(cfg, Run(cfg, Start(cfg), [], script).1) <==> Admitted(cfg, script)
  {
    hide Run, Start;
    if !Admitted(cfg, script) {
      NothingWithoutHandshake(cfg, script);
    } else if script[0] == Got("noenc\n") {
      assert script == [Got("noenc\n")] + script[1..];
      NoencIsPlain(cfg, script[1..]);
      ReadyConfirms(cfg, Ready(false, None), [Text("helo\n"), Text("redy\n")], script[1..]);
    } else {
      var r, rest := script[1], script[2..];
      var reader := if r.Got? then Some(r.s) else None;
      assert script == [Got("enc\n"), r] + rest;
      SecretsAreSent(cfg, r, reader, rest);
      var sent := [Text("helo\n"), PublicKey(cfg.pem)] + Secrets(cfg, reader) + [Sealed(cfg.keys, "redy\n")];
      assert sent[|sent| - 1] == Sealed(cfg.keys, "redy\n");
      ReadyConfirms(cfg, Ready(true, reader), sent, rest[1..]);
    }
  }

  // ---------------------------------------------------------------- commands

  /** The media keys: the word, the keysym of X11's XF86keysym.h, and the confirmation. */
  predicate IsKey(word: string, key: int, confirmation: string) {
    || (word == "play\n" && key == 0x1008ff14 && confirmation == "ok\n")
    || (word == "next\n" && key == 0x1008ff17 && confirmation == "ok\n")
    || (word == "prev\n" && key == 0x1008ff16 && confirmation == "prev\n")
  }

  /** A key is pressed once. If that works the session goes on, and otherwise it is over. */
  lemma KeyIsPressed(cfg: Config, st: State, sent: seq<Packet>, rest: seq<RecvResult>,
                     word: string, key: int, confirmation: string)
    requires st.pc.WaitCmd? && IsKey(word, key, confirmation)
    ensures var pressed := st.(log := st.log + [MediaKey(key)]);
      Run(cfg, st, sent, [Got(word)] + rest)
      == if cfg.outcome(|st.log|) then Run(cfg, pressed, sent + Said(cfg, st, [confirmation]), rest)
         else (Over(pressed, true), sent + Said(cfg, st, ["err\n", "end\n"]))
  {
    var pressed := st.(log := st.log + [MediaKey(key)]);
    OneReceive(cfg, st, sent, [Got(word)] + rest);
    assert Rest([Got(word)] + rest) == rest;
    RunReplies(cfg, pressed, confirmation, WaitCmd, sent, rest);
    RunRepliesAndFails(cfg, pressed, "err\n", sent, rest);
    assert Said(cfg, pressed, [confirmation]) == Said(cfg, st, [confirmation]);
    assert Said(cfg, pressed, ["err\n", "end\n"]) == Said(cfg, st, ["err\n", "end\n"]);
  }

  /** `end` is answered with `bye`, and is the only way to leave without a failure. */
  lemma EndIsAnswered(cfg: Config, st: State, sent: seq<Packet>, rest: seq<RecvResult>)
    requires st.pc.WaitCmd?
    ensures Run(cfg, st, sent, [Got("end\n")] + rest) == (Over(st, false), sent + Said(cfg, st, ["bye\n"]))
  {
    OneReceive(cfg, st, sent, [Got("end\n")] + rest);
    RunReplies(cfg, st, "bye\n", Close(false), sent, Rest([Got("end\n")] + rest));
    RunCloses(cfg, st.(pc := Close(false)), sent + Said(cfg, st, ["bye\n"]), Rest([Got("end\n")] + rest));
  }

  /** Any other word is answered with `err`, and no message at all with nothing, before the
      `end` of the catch block. */
  lemma OtherCommandsFail(cfg: Config, st: State, sent: seq<Packet>, script: seq<RecvResult>)
    requires st.pc.WaitCmd?
    requires Silent(script) || script[0].s !in {"end\n", "vol\n", "play\n", "next\n", "prev\n"}
    ensures Run(cfg, st, sent, script)
         == (Over(st, true), sent + Said(cfg, st, if Silent(script) then ["end\n"] else ["err\n", "end\n"]))
  {
    OneReceive(cfg, st, sent, script);
    if Silent(script) {
      RunAborts(cfg, st, sent, Rest(script));
    } else {
      RunRepliesAndFails(cfg, st, "err\n", sent, Rest(script));
    }
  }

  // ---------------------------------------------------------------- volume commands

  function Messages(words: seq<string>): (script: seq<RecvResult>)
    ensures |script| == |words|
  {
    seq(|words|, i requires 0 <= i < |words| => Got(words[i]))
  }

  /** The effects of some volume arguments, after those in log: a change of volume for each
      that parses. */
  function Changed(log: seq<Effect>, args: seq<string>): seq<Effect>
    decreases |args|
  {
    if args == [] then log else
    match ParseVolCommand(args[0])
    case Call(channel, left, right) => Changed(log + [SetVolume(channel, left, right)], args[1..])
    case _ => Changed(log, args[1..])
  }

  /** The answers to them: `ok` exactly for those that parse and whose change succeeds. */
  function Answered(cfg: Config, log: seq<Effect>, args: seq<string>): (words: seq<string>)
    ensures |words| == |args|
    decreases |args|
  {
    if args == [] then [] else
    [if ParseVolCommand(args[0]).Call? && cfg.outcome(|log|) then "ok\n" else "err\n"]
    + Answered(cfg, Changed(log, args[..1]), args[1..])
  }

  /** Where the loop stands after as many arguments as it asks for, or fewer. */
  lemma {:induction false} ArgumentsAreAnswered(cfg: Config, st: State, sent: seq<Packet>, n: int, i: nat,
                                                args: seq<string>, rest: seq<RecvResult>)
    requires st.pc == LoopPc(i, n) && (args != [] ==> i + |args| <= n)
    ensures Run(cfg, st, sent, Messages(args) + rest)
         == Run(cfg, st.(pc := LoopPc(i + |args|, n), log := Changed(st.log, args)),
                sent + Said(cfg, st, Answered(cfg, st.log, args)), rest)
    decreases |args|
  {
    hide ParseVolCommand, Run;
    var script := Messages(args) + rest;
    if args == [] {
      assert script == rest && sent + Said(cfg, st, []) == sent;
    } else {
      var answer := Answered(cfg, st.log, args)[0];
      var t := st.(pc := LoopPc(i + 1, n), log := Changed(st.log, args[..1]));
      OneArgument(cfg, st, sent, script, args[0]);
      assert Rest(script) == Messages(args[1..]) + rest;
      assert args[..1][0] == args[0] && args[..1][1..] == [];
      ArgumentsAreAnswered(cfg, t, sent + Said(cfg, st, [answer]), n, i + 1, args[1..], rest);
      assert Said(cfg, t, Answered(cfg, t.log, args[1..])) == Said(cfg, st, Answered(cfg, t.log, args[1..]));
      SaidAppend(cfg, st, [answer], Answered(cfg, t.log, args[1..]));
      assert sent + Said(cfg, st, [answer]) + Said(cfg, st, Answered(cfg, t.log, args[1..]))
          == sent + Said(cfg, st, Answered(cfg, st.log, args));
      assert Changed(t.log, args[1..]) == Changed(st.log, args);
    }
  }

  lemma OneArgument(cfg: Config, st: State, sent: seq<Packet>, script: seq<RecvResult>, arg: string)
    requires st.pc.WaitArg? && script != [] && script[0] == Got(arg)
    ensures Run(cfg, st, sent, script)
         == Run(cfg, st.(pc := LoopPc(st.pc.i + 1, st.pc.n), log := Changed(st.log, [arg])),
                sent + Said(cfg, st, [Answered(cfg, st.log, [arg])[0]]), Rest(script))
  {
    hide Run, ParseVolCommand, LoopPc;
    var t := st.(log := Changed(st.log, [arg]));
    OneReceive(cfg, st, sent, script);
    assert [arg][1..] == [];
    var answer := Answered(cfg, st.log, [arg])[0];
    RunReplies(cfg, t, answer, LoopPc(st.pc.i + 1, st.pc.n), sent, Rest(script));
    assert Said(cfg, t, [answer]) == Said(cfg, st, [answer]);
  }

  /** The number of arguments that a count asks for: none if it is negative. */
  function Asked(count: string): nat { if Atoi(count) < 0 then 0 else Atoi(count) }

  lemma VolumeBegins(cfg: Config, st: State, sent: seq<Packet>, count: string, rest: seq<RecvResult>)
    requires st.pc.WaitCmd?
    ensures Run(cfg, st, sent, [Got("vol\n"), Got(count)] + rest)
         == Run(cfg, st.(pc := LoopPc(0, Atoi(count))), sent + Said(cfg, st, ["ok\n", "ok\n"]), rest)
  {
    hide Atoi;
    var script := [Got("vol\n"), Got(count)] + rest;
    var t := st.(pc := WaitCount);
    OneReceive(cfg, st, sent, script);
    RunReplies(cfg, st, "ok\n", WaitCount, sent, Rest(script));
    OneReceive(cfg, t, sent + Said(cfg, st, ["ok\n"]), Rest(script));
    assert Rest(Rest(script)) == rest;
    RunReplies(cfg, t, "ok\n", LoopPc(0, Atoi(count)), sent + Said(cfg, st, ["ok\n"]), rest);
    assert sent + Said(cfg, st, ["ok\n"]) + Said(cfg, t, ["ok\n"]) == sent + Said(cfg, st, ["ok\n", "ok\n"]);
  }

  /** The loop after some of the arguments that the count asks for, or all of them. */
  lemma VolumeGoesOn(cfg: Config, st: State, sent: seq<Packet>, count: string, args: seq<string>,
                     rest: seq<RecvResult>)
    requires st.pc.WaitCmd? && |args| <= Asked(count)
    ensures Run(cfg, st, sent, [Got("vol\n"), Got(count)] + Messages(args) + rest)
         == Run(cfg, st.(pc := LoopPc(|args|, Atoi(count)), log := Changed(st.log, args)),
                sent + Said(cfg, st, ["ok\n", "ok\n"] + Answered(cfg, st.log, args)), rest)
  {
    hide Run, Atoi, Changed, Answered, LoopPc;
    var t := st.(pc := LoopPc(0, Atoi(count)));
    var confirmed := sent + Said(cfg, st, ["ok\n", "ok\n"]);
    assert [Got("vol\n"), Got(count)] + Messages(args) + rest == [Got("vol\n"), Got(count)] + (Messages(args) + rest);
    VolumeBegins(cfg, st, sent, count, Messages(args) + rest);
    ArgumentsAreAnswered(cfg, t, confirmed, Atoi(count), 0, args, rest);
    assert Said(cfg, t, Answered(cfg, st.log, args)) == Said(cfg, st, Answered(cfg, st.log, args));
    SaidAppend(cfg, st, ["ok\n", "ok\n"], Answered(cfg, st.log, args));
    assert confirmed + Said(cfg, st, Answered(cfg, st.log, args))
        == sent + Said(cfg, st, ["ok\n", "ok\n"] + Answered(cfg, st.log, args));
  }

  /** A volume command with all the arguments its count asks for: two confirmations and one
      answer for each; then the session goes on. */
  lemma VolumeIsServed(cfg: Config, st: State, sent: seq<Packet>, count: string, args: seq<string>,
                       rest: seq<RecvResult>)
    requires st.pc.WaitCmd? && |args| == Asked(count)
    ensures Run(cfg, st, sent, [Got("vol\n"), Got(count)] + Messages(args) + rest)
         == Run(cfg, st.(log := Changed(st.log, args)),
                sent + Said(cfg, st, ["ok\n", "ok\n"] + Answered(cfg, st.log, args)), rest)
  {
    hide Run, Atoi, Changed, Answered, Said;
    VolumeGoesOn(cfg, st, sent, count, args, rest);
  }

  lemma LoopAborts(cfg: Config, st: State, sent: seq<Packet>, rest: seq<RecvResult>)
    requires (st.pc.WaitArg? || st.pc.WaitCount?) && Silent(rest)
    ensures Run(cfg, st, sent, rest) == (Over(st, true), sent + Said(cfg, st, ["end\n"]))
  {
    OneReceive(cfg, st, sent, rest);
    RunAborts(cfg, st, sent, Rest(rest));
  }

  /** A volume command that breaks off, before its count or before all of its arguments: what
      was asked for until then has been done, and the session fails. */
  lemma VolumeBreaksOff(cfg: Config, st: State, sent: seq<Packet>, count: string, args: seq<string>,
                        rest: seq<RecvResult>)
    requires st.pc.WaitCmd? && Silent(rest)
    ensures Run(cfg, st, sent, [Got("vol\n")] + rest) == (Over(st, true), sent + Said(cfg, st, ["ok\n", "end\n"]))
    ensures |args| < Asked(count) ==>
      Run(cfg, st, sent, [Got("vol\n"), Got(count)] + Messages(args) + rest)
      == (Over(st.(log := Changed(st.log, args)), true),
          sent + Said(cfg, st, ["ok\n", "ok\n"] + Answered(cfg, st.log, args) + ["end\n"]))
  {
    hide Run, Atoi, Changed, Answered, Silent;
    NoCount(cfg, st, sent, rest);
    if |args| < Asked(count) {
      VolumeGoesOn(cfg, st, sent, count, args, rest);
      var t := st.(pc := LoopPc(|args|, Atoi(count)), log := Changed(st.log, args));
      var words := ["ok\n", "ok\n"] + Answered(cfg, st.log, args);
      LoopAborts(cfg, t, sent + Said(cfg, st, words), rest);
      assert Said(cfg, t, ["end\n"]) == Said(cfg, st, ["end\n"]);
      SaidAppend(cfg, st, words, ["end\n"]);
      assert sent + Said(cfg, st, words) + Said(cfg, st, ["end\n"]) == sent + Said(cfg, st, words + ["end\n"]);
    }
  }

  lemma NoCount(cfg: Config, st: State, sent: seq<Packet>, rest: seq<RecvResult>)
    requires st.pc.WaitCmd? && Silent(rest)
    ensures Run(cfg, st, sent, [Got("vol\n")] + rest) == (Over(st, true), sent + Said(cfg, st, ["ok\n", "end\n"]))
  {
    var script, t := [Got("vol\n")] + rest, st.(pc := WaitCount);
    OneReceive(cfg, st, sent, script);
    assert Rest(script) == rest;
    RunReplies(cfg, st, "ok\n", WaitCount, sent, rest);
    LoopAborts(cfg, t, sent + Said(cfg, st, ["ok\n"]), rest);
    assert sent + Said(cfg, st, ["ok\n"]) + Said(cfg, t, ["end\n"]) == sent + Said(cfg, st, ["ok\n", "end\n"]);
  }
}
