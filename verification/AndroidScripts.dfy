/** What the Android client does on any script of lines, with every word written out. */
module AndroidScripts {
  import opened Wrappers
  import opened CText
  import opened Wire
  import opened AndroidClient
  import C = ClientProgram

  function Said(words: seq<string>): (pkts: seq<Packet>)
    ensures |pkts| == |words|
  {
    seq(|words|, i requires 0 <= i < |words| => Text(words[i] + "\n"))
  }

  /** The next line; a script that is used up goes on with the end of the stream. */
  function First(script: seq<string>): Option<string> { if script != [] then Some(script[0]) else None }

  function Rest(script: seq<string>): seq<string> { if script != [] then script[1..] else [] }

  lemma OneReceive(cfg: Config, st: State, sent: seq<Packet>, script: seq<string>)
    requires PointFits(cfg, st) && Waiting(st.pc)
    ensures var t := Receive(cfg, st, First(script));
      PointFits(cfg, t) && Run(cfg, st, sent, script) == Run(cfg, t, sent, Rest(script))
  {
    hide Receive;
    RankFalls(cfg, st, First(script));
  }

  lemma OneSend(cfg: Config, st: State, sent: seq<Packet>, script: seq<string>)
    requires st.pc.Send? && PcFits(cfg, st.done, st.pc.next)
    ensures PointFits(cfg, st)
    ensures Run(cfg, st, sent, script) == Run(cfg, st.(pc := st.pc.next), sent + [st.pc.pkt], script)
  {
  }

  lemma RunSays(cfg: Config, st: State, word: string, next: Pc, sent: seq<Packet>, script: seq<string>)
    requires PcFits(cfg, st.done, next)
    ensures PcFits(cfg, st.done, Send(Println(word), next))
    ensures Run(cfg, st.(pc := Send(Println(word), next)), sent, script)
         == Run(cfg, st.(pc := next), sent + Said([word]), script)
  {
    OneSend(cfg, st.(pc := Send(Println(word), next)), sent, script);
    assert Said([word]) == [Println(word)];
  }

  /** Once the connection is closed nothing is sent any more: all later commands are lost. */
  lemma {:induction false} DeadSendsNothing(cfg: Config, done: nat, sent: seq<Packet>, script: seq<string>)
    requires done <= |cfg.commands|
    ensures Run(cfg, State(Dead, done), sent, script) == (State(Dead, |cfg.commands|), sent)
    decreases |cfg.commands| - done
  {
    if done < |cfg.commands| {
      DeadSendsNothing(cfg, done + 1, sent, script);
      RankOfBegin(cfg, State(Dead, done));
    }
  }

  /** The end of everything, when words have been sent last. */
  function Lost(cfg: Config, sent: seq<Packet>): (State, seq<Packet>) { (State(Dead, |cfg.commands|), sent) }

  lemma SaysAndDies(cfg: Config, st: State, word: string, sent: seq<Packet>, script: seq<string>)
    requires st.done <= |cfg.commands|
    ensures PcFits(cfg, st.done, Send(Println(word), Dead))
    ensures Run(cfg, st.(pc := Send(Println(word), Dead)), sent, script) == Lost(cfg, sent + Said([word]))
  {
    assert PcFits(cfg, st.done, Dead);
    RunSays(cfg, st, word, Dead, sent, script);
    DeadSendsNothing(cfg, st.done, sent + Said([word]), script);
  }

  // ---------------------------------------------------------------- the handshake

  lemma RedyOnScript(cfg: Config, script: seq<string>)
    ensures Run(cfg, State(WaitRedy, 0), Said(["noenc"]), script)
         == if script == [] then Lost(cfg, Said(["noenc"]))
            else if script[0] != "redy" then Lost(cfg, Said(["noenc", "end"]))
            else Run(cfg, State(Boundary, 0), Said(["noenc"]), script[1..])
  {
    var st := State(WaitRedy, 0);
    OneReceive(cfg, st, Said(["noenc"]), script);
    if script == [] {
      DeadSendsNothing(cfg, 0, Said(["noenc"]), script);
    } else if script[0] != "redy" {
      SaysAndDies(cfg, st, "end", Said(["noenc"]), Rest(script));
      assert Said(["noenc"]) + Said(["end"]) == Said(["noenc", "end"]);
    }
  }

  /** `helo` is answered with `noenc`, and `redy` opens the connection for commands. Any other line
      is answered with `end`, the end of the stream with nothing; all commands are then lost. */
  lemma HandshakeOnScript(cfg: Config, script: seq<string>)
    ensures Run(cfg, Start(cfg), [], script)
         == if script == [] then Lost(cfg, [])
            else if script[0] != "helo" then Lost(cfg, Said(["end"]))
            else if |script| == 1 then Lost(cfg, Said(["noenc"]))
            else if script[1] != "redy" then Lost(cfg, Said(["noenc", "end"]))
            else Run(cfg, State(Boundary, 0), Said(["noenc"]), script[2..])
  {
    hide Run;
    var st := Start(cfg);
    OneReceive(cfg, st, [], script);
    assert [] + Said(["end"]) == Said(["end"]) && [] + Said(["noenc"]) == Said(["noenc"]);
    if script == [] {
      DeadSendsNothing(cfg, 0, [], script);
    } else if script[0] != "helo" {
      SaysAndDies(cfg, st, "end", [], Rest(script));
    } else {
      RunSays(cfg, st, "noenc", WaitRedy, [], Rest(script));
      RedyOnScript(cfg, Rest(script));
      assert |script| > 1 ==> Rest(script)[1..] == script[2..];
    }
  }

  // ---------------------------------------------------------------- media keys

  function WordOf(cmd: C.MediaCmd): string { if cmd.Play? then "play" else if cmd.Next? then "next" else "prev" }

  /** A media command: the end of the stream loses the connection, `end` makes the client send
      `bye` and close, and after any other line, also `err`, the next command follows. */
  lemma MediaOnScript(cfg: Config, done: nat, sent: seq<Packet>, script: seq<string>)
    requires done < |cfg.commands| && cfg.commands[done].Media?
    ensures var word := WordOf(cfg.commands[done].cmd);
      Run(cfg, State(Boundary, done), sent, script)
      == if script == [] then Lost(cfg, sent + Said([word]))
         else if script[0] == "end" then Lost(cfg, sent + Said([word, "bye"]))
         else Run(cfg, State(Boundary, done + 1), sent + Said([word]), script[1..])
  {
    var word, st := WordOf(cfg.commands[done].cmd), State(WaitMedia, done);
    RankOfBegin(cfg, State(Boundary, done));
    RunSays(cfg, st, word, WaitMedia, sent, script);
    OneReceive(cfg, st, sent + Said([word]), script);
    if script == [] {
      DeadSendsNothing(cfg, done + 1, sent + Said([word]), script);
    } else if script[0] == "end" {
      SaysAndDies(cfg, State(Dead, done + 1), "bye", sent + Said([word]), Rest(script));
      assert sent + Said([word]) + Said(["bye"]) == sent + Said([word, "bye"]);
    }
  }

  // ---------------------------------------------------------------- volume commands

  /** What a volume command says. */
  function VolumeWords(args: seq<string>): seq<string> { ["vol", Itoa(|args|)] + args }

  function WaitFor(i: nat): Pc { if i == 0 then WaitVolOk else if i == 1 then WaitCountOk else WaitReply(i - 2) }

  lemma WaitForFits(cfg: Config, done: nat, i: nat)
    requires done < |cfg.commands| && cfg.commands[done].Volume? && i < |VolumeWords(cfg.commands[done].arguments)|
    ensures PcFits(cfg, done, WaitFor(i)) && Waiting(WaitFor(i))
  {
  }

  /** The client after the answer to its i-th word: the end of the stream loses the connection and
      `end` makes it leave; `err` ends the command if it comes before the channels, and makes no
      difference for a channel. */
  lemma NextWord(cfg: Config, done: nat, i: nat, line: Option<string>)
    requires done < |cfg.commands| && cfg.commands[done].Volume? && i < |VolumeWords(cfg.commands[done].arguments)|
    ensures PcFits(cfg, done, WaitFor(i)) && Waiting(WaitFor(i))
    ensures var words := VolumeWords(cfg.commands[done].arguments);
      Receive(cfg, State(WaitFor(i), done), line)
      == if line.None? then State(Dead, done + 1)
         else if line.value == "end" then State(Send(Println("bye"), Dead), done + 1)
         else if (i < 2 && line.value == "err") || i + 1 == |words| then State(Boundary, done + 1)
         else State(Send(Println(words[i + 1]), WaitFor(i + 1)), done)
  {
    var args := cfg.commands[done].arguments;
    assert VolumeWords(args)[2..] == args;
  }

  /** The answer to the i-th word lets the command go on to its next word. */
  predicate Passes(i: nat, line: string) { line != "end" && (i < 2 ==> line != "err") }

  /** After the answer to word i the next m answers are followed by further words, and the one
      after them is not. */
  predicate Goes(args: seq<string>, i: nat, script: seq<string>, m: nat) {
    && i + m < |VolumeWords(args)| && m <= |script|
    && (forall k | 0 <= k < m :: Passes(i + k, script[k]))
    && (i + m + 1 < |VolumeWords(args)| ==> m == |script| || !Passes(i + m, script[m]))
  }

  lemma GoesLater(args: seq<string>, i: nat, script: seq<string>, m: nat)
    requires Goes(args, i, script, m) && m > 0
    ensures script != [] && Passes(i, script[0]) && Goes(args, i + 1, Rest(script), m - 1)
  {
    hide Passes, VolumeWords;
    forall k | 0 <= k < m - 1 ensures Passes(i + 1 + k, Rest(script)[k]) {
      assert Passes(i + (k + 1), script[k + 1]);
    }
    assert Passes(i + 0, script[0]);
  }

  /** What follows the last word of a volume command: nothing if the stream has ended, `bye` if the
      answer is `end`, and otherwise the next command. */
  function Ending(cfg: Config, done: nat, i: nat, sent: seq<Packet>, script: seq<string>, m: nat): (State, seq<Packet>)
    requires done < |cfg.commands|
  {
    if m >= |script| then Lost(cfg, sent)
    else if script[m] == "end" then Lost(cfg, sent + Said(["bye"]))
    else Run(cfg, State(Boundary, done + 1), sent, script[m + 1..])
  }

  /** How a volume command goes on from the wait for the answer to its i-th word. */
  lemma {:induction false} WordsOnScript(cfg: Config, done: nat, i: nat, sent: seq<Packet>, script: seq<string>, m: nat)
    requires done < |cfg.commands| && cfg.commands[done].Volume?
    requires i < |VolumeWords(cfg.commands[done].arguments)| && Goes(cfg.commands[done].arguments, i, script, m)
    ensures PcFits(cfg, done, WaitFor(i))
    ensures Run(cfg, State(WaitFor(i), done), sent, script)
         == Ending(cfg, done, i, sent + Said(VolumeWords(cfg.commands[done].arguments)[i + 1..i + 1 + m]), script, m)
    decreases m
  {
    hide Run, Receive, VolumeWords;
    var words, st, rest := VolumeWords(cfg.commands[done].arguments), State(WaitFor(i), done), Rest(script);
    WaitForFits(cfg, done, i);
    NextWord(cfg, done, i, First(script));
    OneReceive(cfg, st, sent, script);
    if m == 0 {
      assert sent + Said(words[i + 1..i + 1]) == sent;
      if script == [] {
        DeadSendsNothing(cfg, done + 1, sent, rest);
      } else if script[0] == "end" {
        SaysAndDies(cfg, State(Dead, done + 1), "bye", sent, rest);
      }
    } else {
      var told := sent + Said([words[i + 1]]);
      WaitForFits(cfg, done, i + 1);
      RunSays(cfg, st, words[i + 1], WaitFor(i + 1), sent, rest);
      GoesLater(cfg.commands[done].arguments, i, script, m);
      WordsOnScript(cfg, done, i + 1, told, rest, m - 1);
      assert Said(words[i + 1..i + 1 + m]) == Said([words[i + 1]]) + Said(words[i + 2..i + 1 + m]);
      assert told + Said(words[i + 2..i + 1 + m]) == sent + Said(words[i + 1..i + 1 + m]);
      assert m < |script| ==> script[m..] == rest[m - 1..] && script[m + 1..] == rest[m..];
    }
  }

  /** A volume command on any script: its words go out one by one, each after the answer to the
      one before. */
  lemma VolumeOnScript(cfg: Config, done: nat, sent: seq<Packet>, script: seq<string>, m: nat)
    requires done < |cfg.commands| && cfg.commands[done].Volume? && Goes(cfg.commands[done].arguments, 0, script, m)
    ensures Run(cfg, State(Boundary, done), sent, script)
         == Ending(cfg, done, 0, sent + Said(VolumeWords(cfg.commands[done].arguments)[..m + 1]), script, m)
  {
    hide Run, Goes, Itoa;
    var words, st := VolumeWords(cfg.commands[done].arguments), State(WaitFor(0), done);
    WaitForFits(cfg, done, 0);
    BeginsVolume(cfg, done, sent, script);
    RunSays(cfg, st, "vol", WaitFor(0), sent, script);
    WordsOnScript(cfg, done, 0, sent + Said(["vol"]), script, m);
    assert 0 + m < |words| by { WordsLeft(cfg.commands[done].arguments, script, m); }
    assert Said(words[..m + 1]) == Said(["vol"]) + Said(words[1..1 + m]);
    assert sent + Said(["vol"]) + Said(words[1..1 + m]) == sent + Said(words[..m + 1]);
  }

  lemma WordsLeft(args: seq<string>, script: seq<string>, m: nat)
    requires Goes(args, 0, script, m)
    ensures m < |VolumeWords(args)|
  {
  }

  lemma BeginsVolume(cfg: Config, done: nat, sent: seq<Packet>, script: seq<string>)
    requires done < |cfg.commands| && cfg.commands[done].Volume?
    ensures PcFits(cfg, done, Send(Println("vol"), WaitFor(0)))
    ensures Run(cfg, State(Boundary, done), sent, script)
         == Run(cfg, State(Send(Println("vol"), WaitFor(0)), done), sent, script)
  {
    RankOfBegin(cfg, State(Boundary, done));
  }

  /** There is such an m for every script. */
  lemma {:induction false} SomeAnswerStops(args: seq<string>, script: seq<string>, m: nat) returns (stop: nat)
    requires m < |VolumeWords(args)| && m <= |script|
    requires forall k | 0 <= k < m :: Passes(k, script[k])
    ensures Goes(args, 0, script, stop)
    decreases |script| - m
  {
    hide Passes, VolumeWords;
    if m + 1 < |VolumeWords(args)| && m < |script| && Passes(m, script[m]) {
      stop := SomeAnswerStops(args, script, m + 1);
    } else {
      stop := m;
      forall k | 0 <= k < m ensures Passes(0 + k, script[k]) { }
    }
  }

  /** After the last command the client says `end` and closes. */
  lemma QuitOnScript(cfg: Config, sent: seq<Packet>, script: seq<string>)
    ensures Run(cfg, State(Boundary, |cfg.commands|), sent, script) == Lost(cfg, sent + Said(["end"]))
  {
    RunQuits(cfg, |cfg.commands|, sent, script);
    assert Said(["end"]) == [Println("end")];
  }
}
