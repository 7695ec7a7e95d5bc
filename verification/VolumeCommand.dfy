/** The volume argument `channel=left,right`: its printers in the two clients and its
    parser in the server. */
module VolumeCommand {
  import opened Wrappers
  import opened CText

  /** What `parseVolCommand` does before it returns: nothing (a parse error), throw
      `out_of_range` from `substr`, or call `changeVolume`. */
  datatype Parsed = ParseError | Throws | Call(channel: string, left: int, right: int)

  function ParseVolCommand(command: string): Parsed {
    var equals := Find(command, '=');
    if equals.None? then ParseError else
    var comma := Find(command, ',');
    if comma.None? then ParseError else
    var channel := Substr(command, 0, equals.value);
    var left := Substr(command, equals.value + 1, comma.value);
    var right := Substr(command, comma.value + 1, |command|);
    if channel.None? || left.None? || right.None? then Throws
    else Call(channel.value, Atoi(left.value), Atoi(right.value))
  }

  /** The CLI client's `command << channels[i] << "=" << vols[i]`. */
  function PrintArgument(channel: string, vol: string): string {
    channel + "=" + vol
  }

  function PrintVolumes(left: int, right: int): string {
    Itoa(left) + "," + Itoa(right)
  }

  /** Text that cannot be mistaken for a separator. */
  predicate SeparatorFree(channel: string) { '=' !in channel && ',' !in channel }

  lemma FindAfterPrefix(a: string, c: char, b: string)
    requires c !in a
    ensures Find(a + [c] + b, c) == Some(|a|)
  {
    var s := a + [c] + b;
    assert s[|a|] == c;
    assert forall i | 0 <= i < |a| :: s[i] == a[i];
  }

  /** `parseVolCommand` reaches `changeVolume` exactly when both separators occur, in
      either order, and no `substr` start index is ever outside the string. */
  lemma ParserTotal(command: string)
    ensures !ParseVolCommand(command).Throws?
    ensures ParseVolCommand(command).Call? <==> '=' in command && ',' in command
  {
  }

  lemma LeftField(command: string, equals: nat, comma: nat)
    requires equals < comma < |command| && command[comma] == ','
    ensures Atoi(Substr(command, equals + 1, comma).value) == Atoi(command[equals + 1..comma])
  {
    var left := Substr(command, equals + 1, comma).value;
    var k := comma - (equals + 1);
    assert left[k] == ',';
    assert left[..k] == command[equals + 1..comma];
    AtoiStopsAtSeparator(left, k);
  }

  /** The second argument of `substr` is a length but the code passes an index, so the
      substring runs past the comma; the left volume is the number in the exact field
      all the same, and the channel is the exact text before the '='. */
  lemma OverlongFieldHarmless(command: string, equals: nat, comma: nat)
    requires Find(command, '=') == Some(equals) && Find(command, ',') == Some(comma)
    requires equals < comma
    ensures ParseVolCommand(command)
         == Call(command[..equals], Atoi(command[equals + 1..comma]), Atoi(command[comma + 1..]))
  {
    hide Atoi;
    LeftField(command, equals, comma);
    assert Substr(command, 0, equals) == Some(command[..equals]);
    assert Substr(command, comma + 1, |command|) == Some(command[comma + 1..]);
  }

  lemma SeparatorsFound(channel: string, left: string, right: string)
    requires SeparatorFree(channel) && ',' !in left
    ensures Find(channel + "=" + left + "," + right, '=') == Some(|channel|)
    ensures Find(channel + "=" + left + "," + right, ',') == Some(|channel| + 1 + |left|)
  {
    assert channel + "=" + left + "," + right == channel + ['='] + (left + "," + right);
    FindAfterPrefix(channel, '=', left + "," + right);
    assert ',' !in channel + "=" + left;
    FindAfterPrefix(channel + "=" + left, ',', right);
  }

  lemma ParseFields(channel: string, left: string, right: string)
    requires SeparatorFree(channel) && ',' !in left
    ensures ParseVolCommand(channel + "=" + left + "," + right) == Call(channel, Atoi(left), Atoi(right))
  {
    hide ParseVolCommand, Atoi;
    var s, comma := channel + "=" + left + "," + right, |channel| + 1 + |left|;
    SeparatorsFound(channel, left, right);
    OverlongFieldHarmless(s, |channel|, comma);
    assert s[..|channel|] == channel;
    assert s[|channel| + 1..comma] == left;
    assert s[comma + 1..] == right;
  }

  lemma Regroup(channel: string, left: string, right: string, end: string)
    ensures channel + "=" + (left + "," + right) + end == channel + "=" + left + "," + (right + end)
  {
  }

  /** Printing a volume argument and parsing it gives back the request, with or without
      the newline that the Android client's `println` adds. */
  lemma PrintParse(channel: string, left: int, right: int, end: string)
    requires SeparatorFree(channel) && IsInt(left) && IsInt(right)
    requires end == "" || end == "\n"
    ensures ParseVolCommand(PrintArgument(channel, PrintVolumes(left, right)) + end) == Call(channel, left, right)
  {
    Regroup(channel, Itoa(left), Itoa(right), end);
    ParseFields(channel, Itoa(left), Itoa(right) + end);
    AtoiInvertsItoa(left, "");
    assert Itoa(left) + "" == Itoa(left);
    AtoiInvertsItoa(right, end);
  }

  lemma BlankNumber(w: string, n: int, rest: string)
    requires Blank(w) && IsInt(n) && EndsNumber(rest)
    ensures Atoi(w + Itoa(n) + rest) == n && ',' !in w + Itoa(n)
  {
    hide Atoi;
    if n < 0 {
      AtoiReads(w, "-", "", -n, rest);
      assert w + Itoa(n) + rest == w + "-" + "" + Dec(-n) + rest;
    } else {
      AtoiReads(w, "", "", n, rest);
      assert w + Itoa(n) + rest == w + "" + "" + Dec(n) + rest;
    }
  }

  /** Blanks before the numbers, and text other than digits after the second, make no
      difference to a volume argument. */
  lemma BlanksAreHarmless(channel: string, w1: string, left: int, w2: string, right: int, rest: string)
    requires SeparatorFree(channel) && Blank(w1) && Blank(w2) && IsInt(left) && IsInt(right) && EndsNumber(rest)
    ensures ParseVolCommand(channel + "=" + w1 + Itoa(left) + "," + w2 + Itoa(right) + rest)
         == Call(channel, left, right)
  {
    hide ParseVolCommand, Atoi, Itoa, Blank;
    BlankNumber(w1, left, "");
    BlankNumber(w2, right, rest);
    assert w1 + Itoa(left) + "" == w1 + Itoa(left);
    assert channel + "=" + w1 + Itoa(left) + "," + w2 + Itoa(right) + rest
        == channel + "=" + (w1 + Itoa(left)) + "," + (w2 + Itoa(right) + rest);
    ParseFields(channel, w1 + Itoa(left), w2 + Itoa(right) + rest);
  }

  /** A call names the channel that was printed exactly if its name holds no '=': the parser
      cuts it at the first one. */
  lemma NameIsKeptExactly(channel: string, vol: string)
    ensures var p := ParseVolCommand(PrintArgument(channel, vol));
      p.Call? ==> (p.channel == channel <==> '=' !in channel)
  {
    var s := PrintArgument(channel, vol);
    assert s == channel + ['='] + vol;
    if '=' in channel {
      var k := Find(channel, '=').value;
      assert channel == channel[..k] + ['='] + channel[k + 1..];
      assert s == channel[..k] + ['='] + (channel[k + 1..] + "=" + vol);
      FindAfterPrefix(channel[..k], '=', channel[k + 1..] + "=" + vol);
    } else {
      FindAfterPrefix(channel, '=', vol);
      assert s[..|channel|] == channel;
    }
  }

  function Shorter(s: string, n: nat): string { if n <= |s| then s[..n] else s }

  /** What the parser reads, wherever the separators stand: the index of the comma bounds the
      length of the left volume. */
  lemma ParsedAt(command: string, equals: nat, comma: nat)
    requires Find(command, '=') == Some(equals) && Find(command, ',') == Some(comma)
    ensures ParseVolCommand(command)
         == Call(command[..equals], Atoi(Shorter(command[equals + 1..], comma)), Atoi(command[comma + 1..]))
  {
    hide Atoi, Find;
    if equals + 1 + comma <= |command| {
      assert command[equals + 1..][..comma] == command[equals + 1..equals + 1 + comma];
    }
    assert Substr(command, 0, equals) == Some(command[..equals]);
    assert Substr(command, equals + 1, comma) == Some(Shorter(command[equals + 1..], comma));
    assert Substr(command, comma + 1, |command|) == Some(command[comma + 1..]);
  }

  lemma CommaSplits(channel: string, vol: string, k: nat)
    requires k < |channel| && channel[k] == ','
    ensures var s, tail := PrintArgument(channel, vol), channel[k + 1..] + "=" + vol;
      && s == channel + ['='] + vol && s == channel[..k] + [','] + tail
      && s[..|channel|] == channel && s[|channel| + 1..] == vol && s[k + 1..] == tail
  {
    var s, tail := PrintArgument(channel, vol), channel[k + 1..] + "=" + vol;
    assert s[k + 1..] == tail;
    assert s[..k] == channel[..k] && s[k] == ',';
  }

  lemma CommaFields(channel: string, vol: string, k: nat)
    requires '=' !in channel && Find(channel, ',') == Some(k)
    ensures ParseVolCommand(PrintArgument(channel, vol))
         == Call(channel, Atoi(Shorter(vol, k)), Atoi(channel[k + 1..] + "=" + vol))
  {
    assert ',' !in channel[..k] && channel[k] == ',';
    hide ParseVolCommand, Atoi, Shorter, PrintArgument, Find;
    CommaSplits(channel, vol, k);
    FindAfterPrefix(channel, '=', vol);
    FindAfterPrefix(channel[..k], ',', channel[k + 1..] + "=" + vol);
    ParsedAt(PrintArgument(channel, vol), |channel|, k);
  }

  lemma RightFromName(name: string, vol: string)
    ensures Atoi(name + "=" + vol) == Atoi(name)
  {
    var s := name + "=" + vol;
    assert s[|name|] == '=' && s[..|name|] == name;
    AtoiStopsAtSeparator(s, |name|);
  }

  lemma LeftIsCut(left: string, rest: string, k: nat)
    ensures Atoi(Shorter(left + "," + rest, k)) == Atoi(Shorter(left, k))
  {
    hide Scan;
    var field := Shorter(left + "," + rest, k);
    if k > |left| {
      assert field[|left|] == ',' && field[..|left|] == left;
      AtoiStopsAtSeparator(field, |left|);
    } else {
      assert field == Shorter(left, k);
    }
  }

  /** A name that holds a ',' but no '=' is kept and the volumes are not: the right one is read
      from the name, whatever was asked for, and the left one is cut to as many characters as
      the name has before its comma. */
  lemma CommaInName(channel: string, left: int, right: int, end: string, k: nat)
    requires '=' !in channel && Find(channel, ',') == Some(k)
    ensures ParseVolCommand(PrintArgument(channel, PrintVolumes(left, right)) + end)
         == Call(channel, Atoi(Shorter(Itoa(left), k)), Atoi(channel[k + 1..]))
  {
    hide ParseVolCommand, Atoi, Itoa, Find;
    var vol := PrintVolumes(left, right) + end;
    assert PrintArgument(channel, PrintVolumes(left, right)) + end == PrintArgument(channel, vol);
    CommaFields(channel, vol, k);
    RightFromName(channel[k + 1..], vol);
    assert vol == Itoa(left) + "," + (Itoa(right) + end);
    LeftIsCut(Itoa(left), Itoa(right) + end, k);
  }

  predicate RoundTrips(channel: string, left: int, right: int, end: string) {
    ParseVolCommand(PrintArgument(channel, PrintVolumes(left, right)) + end) == Call(channel, left, right)
  }

  /** A name survives printing and parsing with all volumes exactly if it holds no separator. */
  lemma RoundTripsExactly(channel: string, end: string)
    requires end == "" || end == "\n"
    ensures (forall left, right | IsInt(left) && IsInt(right) :: RoundTrips(channel, left, right, end))
       <==> SeparatorFree(channel)
  {
    hide ParseVolCommand, Atoi, Itoa;
    if SeparatorFree(channel) {
      forall left, right | IsInt(left) && IsInt(right) ensures RoundTrips(channel, left, right, end) {
        PrintParse(channel, left, right, end);
      }
    } else if '=' in channel {
      var vol := PrintVolumes(0, 0) + end;
      NameIsKeptExactly(channel, vol);
      assert PrintArgument(channel, PrintVolumes(0, 0)) + end == PrintArgument(channel, vol);
      assert !RoundTrips(channel, 0, 0, end);
    } else {
      var k := Find(channel, ',').value;
      var right := if Atoi(channel[k + 1..]) == 0 then 1 else 0;
      CommaInName(channel, 0, right, end, k);
      assert !RoundTrips(channel, 0, right, end);
    }
  }

  lemma DecOfExamples()
    ensures Dec(100) == "100" && Dec(50) == "50" && Dec(10) == "10"
  {
    assert Dec(1) == "1" && Dec(5) == "5" && Dec(0) == "0";
    assert Dec(10) == "1" + "0" && Dec(50) == "5" + "0";
  }

  /** The control "ab,c" set to 100 and 50: the over-long `substr` is too short here. */
  lemma CommaCutsVolumes()
    ensures ParseVolCommand("ab,c=100,50") == Call("ab,c", 10, 0)
  {
    hide ParseVolCommand, Atoi, Find;
    assert "ab,c" == "ab" + [','] + "c";
    FindAfterPrefix("ab", ',', "c");
    DecOfExamples();
    assert PrintArgument("ab,c", PrintVolumes(100, 50)) + "" == "ab,c=100,50";
    CommaInName("ab,c", 100, 50, "", 2);
    assert Shorter("100", 2) == "10" && Itoa(10) + "" == "10";
    AtoiInvertsItoa(10, "");
    assert "ab,c"[3..] == "c" && "" + "" + "c" == "c";
    AtoiOfNoNumber("", "", "c");
  }

  /** The early `end` of a client that gave up is no volume argument. */
  lemma ControlWordsAreNoArgument()
    ensures ParseVolCommand("end\n") == ParseError && ParseVolCommand("bye\n") == ParseError
  {
    assert '=' !in "end\n" && '=' !in "bye\n";
  }

  /** The client prints the number of channels with "%d\n"; the server's `atoi` reads it. */
  lemma CountAgrees(n: nat)
    requires n <= INT_MAX
    ensures Atoi(Itoa(n) + "\n") == n
  {
    AtoiInvertsItoa(n, "\n");
  }
}
