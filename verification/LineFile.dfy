/** The Android client's line file of hosts or channels, and the list on the screen that is
    meant to show the same items. */
module LineFile {
  import opened Wrappers
  import opened Constants
  import opened Lists

  // ---------------------------------------------------------------- lines

  /** `readLine` on what is left of a file: the line, and what follows it. The end of the
      file ends a line too. */
  function FirstLine(s: string): (r: (string, string))
    requires s != ""
    ensures |r.1| < |s| && LineFree(r.0)
  {
    if s[0] == '\n' then ("", s[1..])
    else if s[0] == '\r' then ("", if |s| > 1 && s[1] == '\n' then s[2..] else s[1..])
    else if |s| == 1 then (s, "")
    else
      var (line, rest) := FirstLine(s[1..]);
      ([s[0]] + line, rest)
  }

  /** What a reader finds in a file. */
  function Lines(s: string): seq<string>
    decreases |s|
  {
    if s == "" then [] else [FirstLine(s).0] + Lines(FirstLine(s).1)
  }

  function Unlines(items: seq<string>): string {
    if items == [] then "" else items[0] + "\n" + Unlines(items[1..])
  }

  predicate LineFree(item: string) { '\n' !in item && '\r' !in item }

  lemma {:induction false} FirstLineOf(item: string, rest: string)
    requires LineFree(item)
    ensures FirstLine(item + "\n" + rest) == (item, rest)
  {
    var s := item + "\n" + rest;
    if item == "" {
      assert s[1..] == rest;
    } else {
      assert s[1..] == item[1..] + "\n" + rest;
      FirstLineOf(item[1..], rest);
      assert [item[0]] + item[1..] == item;
    }
  }

  /** The three ways to end a line, and the end of the file. */
  lemma {:induction false} LineBreaks(line: string, rest: string)
    requires LineFree(line)
    ensures FirstLine(line + "\n" + rest) == (line, rest)
    ensures FirstLine(line + "\r\n" + rest) == (line, rest)
    ensures rest == "" || rest[0] != '\n' ==> FirstLine(line + "\r" + rest) == (line, rest)
    ensures line != "" ==> FirstLine(line) == (line, "")
  {
    var lf, crlf, cr := line + "\n" + rest, line + "\r\n" + rest, line + "\r" + rest;
    if line == "" {
      assert lf[1..] == rest && crlf[2..] == rest && cr[1..] == rest;
    } else {
      assert lf[1..] == line[1..] + "\n" + rest;
      assert crlf[1..] == line[1..] + "\r\n" + rest;
      assert cr[1..] == line[1..] + "\r" + rest;
      LineBreaks(line[1..], rest);
      assert [line[0]] + line[1..] == line;
    }
  }

  lemma LinesOfLine(item: string, others: string)
    requires LineFree(item)
    ensures Lines(item + "\n" + others) == [item] + Lines(others)
  {
    FirstLineOf(item, others);
    assert item + "\n" + others != "";
  }

  lemma {:induction false} LinesOfUnlines(items: seq<string>, rest: string)
    requires forall item | item in items :: LineFree(item)
    ensures Lines(Unlines(items) + rest) == items + Lines(rest)
  {
    hide Lines, LineFree;
    if items == [] {
      assert Unlines(items) + rest == rest;
    } else {
      var first, others := [items[0]], items[1..];
      Regroup(items[0] + "\n", Unlines(others), rest);
      LinesOfLine(items[0], Unlines(others) + rest);
      LinesOfUnlines(others, rest);
      Regroup(first, others, Lines(rest));
      assert items == first + others;
    }
  }

  lemma {:induction false} UnlinesAppend(items: seq<string>, item: string)
    ensures Unlines(items + [item]) == Unlines(items) + item + "\n"
  {
    if items == [] {
      assert Unlines([item]) == item + "\n" + "";
    } else {
      assert (items + [item])[1..] == items[1..] + [item];
      UnlinesAppend(items[1..], item);
    }
  }

  /** An item written as a line is read back as that line exactly when it holds no line
      break. */
  lemma ItemIsOneLine(item: string)
    ensures Lines(item + "\n") == [item] <==> LineFree(item)
  {
    if LineFree(item) {
      FirstLineOf(item, "");
      assert item + "\n" + "" == item + "\n";
    } else {
      assert FirstLine(item + "\n").0 != item;
      assert Lines(item + "\n")[0] == FirstLine(item + "\n").0;
    }
  }

  // ---------------------------------------------------------------- removal

  /** `ArrayAdapter.remove`: the first equal element goes. */
  function RemoveFirst(items: seq<string>, item: string): seq<string> {
    if items == [] then []
    else if items[0] == item then items[1..]
    else [items[0]] + RemoveFirst(items[1..], item)
  }

  lemma {:induction false} RemoveFirstTakesOne(items: seq<string>, item: string)
    ensures multiset(RemoveFirst(items, item)) == multiset(items) - multiset{item}
  {
    if items != [] {
      assert items == [items[0]] + items[1..];
      if items[0] != item { RemoveFirstTakesOne(items[1..], item); }
    }
  }

  /** The search for the first equal element, at its i-th step. */
  function RemoveFrom(items: seq<string>, i: nat, item: string): seq<string>
    requires i <= |items|
  {
    items[..i] + RemoveFirst(items[i..], item)
  }

  lemma RemoveStep(items: seq<string>, i: nat, item: string)
    requires i <= |items|
    ensures i == 0 ==> RemoveFrom(items, i, item) == RemoveFirst(items, item)
    ensures i == |items| ==> RemoveFrom(items, i, item) == items
    ensures i < |items| ==>
      RemoveFrom(items, i, item)
      == if items[i] == item then items[..i] + items[i + 1..] else RemoveFrom(items, i + 1, item)
  {
    if i == 0 {
      assert items[..0] == [] && items[0..] == items;
    }
    if i < |items| {
      assert items[i..][1..] == items[i + 1..];
      Regroup(items[..i], [items[i]], RemoveFirst(items[i + 1..], item));
      assert items[..i] + [items[i]] == items[..i + 1];
    }
  }

  /** The text written so far, and one more line read. */
  lemma CopyOne(text: string, items: seq<string>, last: string, item: string)
    ensures text + Unlines(Without(items + [last], item))
         == if last == item then text + Unlines(Without(items, item))
            else text + Unlines(Without(items, item)) + (last + "\n")
  {
    WithoutAppend(items, last, item);
    var kept := Without(items, item);
    if last == item {
      assert kept + [] == kept;
    } else {
      UnlinesAppend(kept, last);
      Regroup(Unlines(kept), last, "\n");
      Regroup(text, Unlines(kept), last + "\n");
    }
  }

  /** Removing every copy and removing the first copy agree exactly when there is at most
      one. */
  lemma {:induction false} RemovalsAgree(items: seq<string>, item: string)
    ensures Without(items, item) == RemoveFirst(items, item) <==> multiset(items)[item] <= 1
  {
    if items == [] {
    } else if items[0] == item {
      assert items == [items[0]] + items[1..];
      if item in items[1..] {
        assert multiset(items[1..])[item] >= 1;
      } else {
        RemovalsAgree(items[1..], item);
        NothingToRemove(items[1..], item);
      }
    } else {
      assert items == [items[0]] + items[1..];
      RemovalsAgree(items[1..], item);
      var a, b := Without(items[1..], item), RemoveFirst(items[1..], item);
      assert ([items[0]] + a)[1..] == a && ([items[0]] + b)[1..] == b;
    }
  }

  lemma {:induction false} NothingToRemove(items: seq<string>, item: string)
    requires item !in items
    ensures Without(items, item) == items && RemoveFirst(items, item) == items
  {
    if items != [] {
      assert items == [items[0]] + items[1..];
      NothingToRemove(items[1..], item);
    }
  }

  // ---------------------------------------------------------------- file and list

  /** The text of the file, if there is one, and the items on the screen. */
  datatype State = State(file: Option<string>, content: seq<string>)

  datatype Operation = Add(item: string) | Remove(item: string)

  function Text(file: Option<string>): string { if file.None? then "" else file.value }

  /** The two dialogs: an empty input is refused; a missing file makes the removal from it
      fail, which nobody looks at. */
  function Apply(st: State, op: Operation): State {
    match op
    case Add(item) =>
      if item == "" then st else State(Some(Text(st.file) + item + "\n"), st.content + [item])
    case Remove(item) =>
      State(if st.file.None? then None else Some(Unlines(Without(Lines(st.file.value), item))),
            RemoveFirst(st.content, item))
  }

  predicate Agree(st: State) { Lines(Text(st.file)) == st.content }

  /** The file is the list, line for line. */
  predicate Mirrors(st: State) {
    Text(st.file) == Unlines(st.content) && forall item | item in st.content :: LineFree(item)
  }

  lemma MirrorsAgree(st: State)
    requires Mirrors(st)
    ensures Agree(st)
  {
    LinesOfUnlines(st.content, "");
    assert Text(st.file) + "" == Text(st.file);
    assert st.content + Lines("") == st.content;
  }

  /** When one operation keeps file and list together. */
  predicate Keeps(st: State, op: Operation) {
    match op
    case Add(item) => LineFree(item)
    case Remove(item) => multiset(st.content)[item] <= 1
  }

  lemma AdditionAgrees(st: State, item: string)
    requires Mirrors(st) && item != ""
    ensures Agree(Apply(st, Add(item))) <==> LineFree(item)
    ensures LineFree(item) ==> Mirrors(Apply(st, Add(item)))
  {
    LinesOfUnlines(st.content, item + "\n");
    assert Unlines(st.content) + (item + "\n") == Unlines(st.content) + item + "\n";
    ItemIsOneLine(item);
    assert (st.content + [item])[|st.content|..] == [item];
    assert (st.content + Lines(item + "\n"))[|st.content|..] == Lines(item + "\n");
    UnlinesAppend(st.content, item);
  }

  lemma RemovalAgrees(st: State, item: string)
    requires Mirrors(st)
    ensures Agree(Apply(st, Remove(item))) <==> multiset(st.content)[item] <= 1
    ensures multiset(st.content)[item] <= 1 ==> Mirrors(Apply(st, Remove(item)))
  {
    MirrorsAgree(st);
    var kept := Without(st.content, item);
    RemovalsAgree(st.content, item);
    if st.file.None? {
      EmptyText(st.content);
    } else {
      MirrorsAgree(State(Some(Unlines(kept)), kept));
    }
  }

  /** After one operation the file agrees with the list exactly when an added item holds no
      line break, or a removed item occurred at most once. */
  lemma AgreeExactly(st: State, op: Operation)
    requires Mirrors(st)
    ensures Agree(Apply(st, op)) <==> Keeps(st, op)
    ensures Keeps(st, op) ==> Mirrors(Apply(st, op))
  {
    hide Lines, Unlines, Without, RemoveFirst;
    match op
    case Add(item) => if item == "" { MirrorsAgree(st); } else { AdditionAgrees(st, item); }
    case Remove(item) => RemovalAgrees(st, item);
  }

  /** An empty input, and the removal of an item that is not there, change nothing; every other
      operation changes something. */
  lemma ChangesNothingExactly(st: State, op: Operation)
    requires Mirrors(st)
    ensures Apply(st, op) == st <==> match op case Add(item) => item == "" case Remove(item) => item !in st.content
  {
    hide Lines, Unlines, Without, RemoveFirst;
    match op
    case Add(item) => if item != "" { assert |Apply(st, op).content| == |st.content| + 1; }
    case Remove(item) =>
      MirrorsAgree(st);
      RemoveFirstTakesOne(st.content, item);
      if item in st.content {
        assert multiset(st.content)[item] >= 1;
      } else {
        NothingToRemove(st.content, item);
      }
  }

  /** A missing file counts as an empty list, and the first addition creates it. */
  lemma MissingFile(item: string)
    requires item != ""
    ensures Mirrors(State(None, []))
    ensures Apply(State(None, []), Add(item)) == State(Some(item + "\n"), [item])
    ensures Apply(State(None, []), Remove(item)) == State(None, [])
  {
    assert "" + item + "\n" == item + "\n";
  }

  lemma NoLines()
    ensures Lines("") == []
  {
  }

  lemma NothingCopied(text: string, item: string)
    ensures text + Unlines(Without([], item)) == text
  {
  }

  lemma EmptyText(items: seq<string>)
    requires Unlines(items) == ""
    ensures items == []
  {
  }

  function ApplyAll(st: State, ops: seq<Operation>): State
    decreases |ops|
  {
    if ops == [] then st else ApplyAll(Apply(st, ops[0]), ops[1..])
  }

  /** Items are added while they are absent, and hold no line break. */
  predicate AddsAreNew(st: State, ops: seq<Operation>)
    decreases |ops|
  {
    ops == []
    || (&& (ops[0].Add? ==> ops[0].item !in st.content && LineFree(ops[0].item))
        && AddsAreNew(Apply(st, ops[0]), ops[1..]))
  }

  ghost predicate Distinct(items: seq<string>) { forall item :: multiset(items)[item] <= 1 }

  /** After any such sequence of additions and removals the file still lists what the
      screen shows, and nothing twice. */
  lemma {:induction false} FileFollowsList(st: State, ops: seq<Operation>)
    requires Mirrors(st) && Distinct(st.content) && AddsAreNew(st, ops)
    ensures Agree(ApplyAll(st, ops)) && Distinct(ApplyAll(st, ops).content)
    decreases |ops|
  {
    hide FirstLine, RemoveFirst;
    if ops == [] {
      MirrorsAgree(st);
    } else {
      hide Lines, Unlines, Without;
      AgreeExactly(st, ops[0]);
      RemoveFirstTakesOne(st.content, ops[0].item);
      assert Distinct(Apply(st, ops[0]).content);
      FileFollowsList(Apply(st, ops[0]), ops[1..]);
    }
  }

  // ---------------------------------------------------------------- the program

  /** A file as the system knows it, which keeps its identity when it is renamed. */
  class Inode {
    var text: string

    constructor (text: string)
      ensures this.text == text
    {
      this.text := text;
    }
  }

  function Found(line: Option<string>): seq<string> { if line.Some? then [line.value] else [] }

  class BufferedReader {
    var rest: string

    constructor (file: Inode)
      ensures rest == file.text
    {
      rest := file.text;
    }

    method ReadLine() returns (line: Option<string>)
      modifies this
      ensures line.None? <==> old(rest) == ""
      ensures line.None? ==> rest == ""
      ensures line.Some? ==> |rest| < |old(rest)| && (line.value, rest) == FirstLine(old(rest))
      ensures Lines(old(rest)) == Found(line) + Lines(rest)
    {
      if rest == "" { return None; }
      line := Some(FirstLine(rest).0);
      rest := FirstLine(rest).1;
    }
  }

  /** A writer may hand its buffer to the file at any time, and does so when it is closed. */
  class BufferedWriter {
    const file: Inode
    var buffer: string

    ghost function Written(): string
      reads this, file
    {
      file.text + buffer
    }

    constructor (file: Inode)
      ensures this.file == file && Written() == file.text
    {
      this.file, buffer := file, "";
    }

    method Write(s: string)
      modifies this, file
      ensures Written() == old(Written()) + s
    {
      buffer := buffer + s;
      if * { Flush(); }
    }

    /** `write`, then `newLine`. */
    method WriteLine(s: string)
      modifies this, file
      ensures Written() == old(Written()) + (s + "\n")
    {
      Write(s);
      Write("\n");
      assert old(Written()) + s + "\n" == old(Written()) + (s + "\n");
    }

    method Flush()
      modifies this, file
      ensures Written() == old(Written()) && file.text == old(Written())
    {
      file.text, buffer := file.text + buffer, "";
    }
  }

  /** The application's directory: the line file, and the temporary file. */
  class Storage {
    var ioFile: Inode?
    var tmpFile: Inode?

    ghost predicate Valid()
      reads this
    {
      ioFile != tmpFile || ioFile == null
    }

    ghost function File(): Option<string>
      reads this, ioFile
    {
      if ioFile == null then None else Some(ioFile.text)
    }

    constructor (ioFile: Inode?)
      ensures this.ioFile == ioFile && tmpFile == null && Valid()
    {
      this.ioFile, tmpFile := ioFile, null;
    }

    method GetContent() returns (content: seq<string>)
      ensures content == Lines(Text(File()))
    {
      hide Lines, FirstLine;
      content := [];
      if ioFile == null {
        assert Lines("") == [] by { NoLines(); }
        return;
      }
      var reader := new BufferedReader(ioFile);
      var input := reader.ReadLine();
      while input.Some?
        invariant content + (Found(input) + Lines(reader.rest)) == Lines(ioFile.text)
        invariant input.None? ==> reader.rest == ""
        decreases input.Some?, |reader.rest|
      {
        Regroup(content, [input.value], Lines(reader.rest));
        content := content + [input.value];
        input := reader.ReadLine();
      }
      NoLines();
    }

    method AddContent(content: string)
      requires Valid()
      modifies this, ioFile
      ensures Valid() && tmpFile == old(tmpFile)
      ensures ioFile == old(ioFile) || fresh(ioFile)
      ensures File() == Some(Text(old(File())) + content + "\n")
    {
      if ioFile == null {
        ioFile := new Inode("");
      }
      var out := new BufferedWriter(ioFile);
      out.WriteLine(content);
      out.Flush();
      assert Text(old(File())) + (content + "\n") == Text(old(File())) + content + "\n";
    }

    /** The loop of `removeContent`. */
    static method CopyWithout(reader: BufferedReader, out: BufferedWriter, content: string)
      modifies reader, out, out.file
      ensures out.Written() == old(out.Written()) + Unlines(Without(Lines(old(reader.rest)), content))
    {
      hide Lines, Unlines, Without, FirstLine;
      ghost var lines, before, done := Lines(reader.rest), out.Written(), [];
      var input := reader.ReadLine();
      NothingCopied(before, content);
      while input.Some?
        invariant done + (Found(input) + Lines(reader.rest)) == lines
        invariant input.None? ==> reader.rest == ""
        invariant out.Written() == before + Unlines(Without(done, content))
        decreases input.Some?, |reader.rest|
      {
        CopyOne(before, done, input.value, content);
        Regroup(done, [input.value], Lines(reader.rest));
        if input.value != content {
          out.WriteLine(input.value);
        }
        done := done + [input.value];
        input := reader.ReadLine();
      }
      NoLines();
      assert done == lines;
    }

    /** The new file takes the old one's place before the writer is closed; what is still
        in the buffer reaches it under its new name. */
    method RemoveContent(content: string) returns (status: int)
      requires Valid()
      modifies this, ioFile, tmpFile
      ensures Valid() && (status == FAILURE <==> old(File()).None?)
      ensures status == FAILURE ==> File() == None && tmpFile == old(tmpFile)
      ensures status != FAILURE ==> status == SUCCESS && tmpFile == null
      ensures status != FAILURE ==>
        File() == Some((if old(tmpFile) == null then "" else old(tmpFile.text))
                       + Unlines(Without(Lines(old(File()).value), content)))
      ensures ioFile == old(ioFile) || ioFile == old(tmpFile) || fresh(ioFile)
    {
      if ioFile == null { return FAILURE; }
      if tmpFile == null {
        tmpFile := new Inode("");
      }
      var reader := new BufferedReader(ioFile);
      var out := new BufferedWriter(tmpFile);
      CopyWithout(reader, out, content);
      ioFile, tmpFile := tmpFile, null;
      out.Flush();
      return SUCCESS;
    }
  }

  class SelectDialog {
    const storage: Storage
    var content: seq<string>

    ghost function At(): State
      reads this, storage, storage.ioFile
    {
      State(storage.File(), content)
    }

    /** Nothing is left of a temporary file between operations. */
    ghost predicate Valid()
      reads this, storage
    {
      storage.Valid() && storage.tmpFile == null
    }

    /** `onCreate`. */
    constructor (storage: Storage)
      requires storage.Valid() && storage.tmpFile == null
      ensures this.storage == storage && Valid()
      ensures At() == State(old(storage.File()), Lines(Text(old(storage.File()))))
    {
      this.storage := storage;
      new;
      content := storage.GetContent();
    }

    /** The positive button of the dialog that adds. */
    method AddContent(item: string)
      requires Valid()
      modifies this, storage, storage.ioFile
      ensures Valid() && At() == Apply(old(At()), Add(item))
    {
      if item != "" {
        storage.AddContent(item);
        content := content + [item];
      }
    }

    /** The positive button of the dialog that deletes. */
    method RemoveContent(item: string)
      requires Valid()
      modifies this, storage, storage.ioFile
      ensures Valid() && At() == Apply(old(At()), Remove(item))
    {
      hide Lines, Unlines, Without, RemoveFirst;
      ghost var kept := Unlines(Without(Lines(Text(storage.File())), item));
      assert "" + kept == kept;
      var _ := storage.RemoveContent(item);
      RemoveFromList(item);
    }

    /** `ArrayAdapter.remove`. */
    method RemoveFromList(item: string)
      modifies this`content
      ensures content == RemoveFirst(old(content), item)
    {
      hide RemoveFirst, RemoveFrom;
      var i := 0;
      RemoveStep(content, 0, item);
      while i < |content| && content[i] != item
        invariant 0 <= i <= |content| && content == old(content)
        invariant RemoveFrom(content, i, item) == RemoveFirst(content, item)
      {
        RemoveStep(content, i, item);
        i := i + 1;
      }
      RemoveStep(content, i, item);
      if i < |content| {
        content := content[..i] + content[i + 1..];
      }
    }
  }
}
