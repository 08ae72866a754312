/**
 The file code under the logs (logger.py:343-409): reading the lines of a file
 bottom up in chunks, and cutting off its last line in place. Files are ASCII text,
 one char per byte.
 */
module LogFiles {
  import opened Sequences

  /** An open file: its content and the position of the next read or write. */
  class File {
    var data: string
    var position: nat

    constructor (data: string)
      ensures this.data == data && position == 0
    {
      this.data, position := data, 0;
    }

    method Seek(p: nat)
      modifies this`position
      ensures position == p
    {
      position := p;
    }

    method SeekEnd() returns (size: nat)
      modifies this`position
      ensures position == size == |data|
    {
      position := |data|;
      size := |data|;
    }

    /** At most n characters; nothing at the end of the file. */
    method Read(n: nat) returns (chunk: string)
      modifies this`position
      ensures var from := old(position);
        if from >= |data| then chunk == "" && position == from
        else chunk == data[from..Min(from + n, |data|)] && position == from + |chunk|
    {
      if position >= |data| {
        return "";
      }
      chunk := data[position..Min(position + n, |data|)];
      position := position + |chunk|;
    }

    method Truncate()
      requires position <= |data|
      modifies this`data
      ensures data == old(data)[..position]
    {
      data := data[..position];
    }

    method WriteAtEnd(text: string)
      requires position == |data|
      modifies this
      ensures data == old(data) + text && position == |data|
    {
      data := data + text;
      position := |data|;
    }
  }

  function Min(a: nat, b: nat): nat {
    if a <= b then a else b
  }

  // ---------- lines ----------

  /** The ASCII characters at which str.splitlines breaks. */
  predicate IsBreak(c: char) {
    '\n' <= c <= '\r' || '\U{1C}' <= c <= '\U{1E}'
  }

  function FirstBreak(s: string): (k: nat)
    ensures k <= |s|
    ensures forall i :: 0 <= i < k ==> !IsBreak(s[i])
    ensures k < |s| ==> IsBreak(s[k])
  {
    if s == "" || IsBreak(s[0]) then 0 else 1 + FirstBreak(s[1..])
  }

  /** str.splitlines: "\r\n" is one break, and a break at the end opens no further line. */
  function SplitLines(s: string): seq<string>
    decreases |s|
  {
    if s == "" then []
    else
      var k := FirstBreak(s);
      if k == |s| then [s]
      else
        var width := if s[k] == '\r' && k + 1 < |s| && s[k + 1] == '\n' then 2 else 1;
        [s[..k]] + SplitLines(s[k + width..])
  }

  /** The newline is the only line break that occurs, as in files of JSON and ids. */
  predicate Plain(s: string) {
    forall i :: 0 <= i < |s| && IsBreak(s[i]) ==> s[i] == '\n'
  }

  predicate OneLine(s: string) {
    forall i :: 0 <= i < |s| ==> !IsBreak(s[i])
  }

  /** What appending the lines one by one leaves in the file. */
  function Join(lines: seq<string>): string {
    if lines == [] then "" else Join(lines[..|lines| - 1]) + lines[|lines| - 1] + "\n"
  }

  lemma FirstBreakIs(s: string, k: nat)
    requires k <= |s| && OneLine(s[..k]) && (k < |s| ==> IsBreak(s[k]))
    ensures FirstBreak(s) == k
  {
    var j := FirstBreak(s);
    assert forall i :: 0 <= i < k ==> s[i] == s[..k][i];
  }

  lemma SplitFirst(line: string, rest: string)
    requires OneLine(line)
    ensures SplitLines(line + "\n" + rest) == [line] + SplitLines(rest)
  {
    var s := line + "\n" + rest;
    assert s[..|line|] == line && s[|line|] == '\n' && s[|line| + 1..] == rest;
    FirstBreakIs(s, |line|);
  }

  lemma SplitOne(line: string)
    requires OneLine(line)
    ensures SplitLines(line) == if line == "" then [] else [line]
  {
    if line != "" {
      assert line[..|line|] == line;
      FirstBreakIs(line, |line|);
    }
  }

  /** Either the text is one line, or it has a first line and a newline. */
  lemma Decompose(s: string) returns (line: string, rest: string)
    requires Plain(s) && !OneLine(s)
    ensures s == line + "\n" + rest && OneLine(line) && Plain(rest)
  {
    var k := FirstBreak(s);
    line, rest := s[..k], s[k + 1..];
  }

  lemma SplitStep(line: string, rest: string, y: string)
    requires OneLine(line)
    requires SplitLines(rest + "\n" + y) == SplitLines(rest + "\n") + SplitLines(y)
    ensures SplitLines(line + "\n" + rest + "\n" + y) == SplitLines(line + "\n" + rest + "\n") + SplitLines(y)
  {
    hide SplitLines, OneLine;
    Regroup(line, rest, y);
    SplitFirst(line, rest + "\n" + y);
    SplitFirst(line, rest + "\n");
  }

  lemma Regroup(line: string, rest: string, y: string)
    ensures line + "\n" + rest + "\n" + y == line + "\n" + (rest + "\n" + y)
    ensures line + "\n" + rest + "\n" == line + "\n" + (rest + "\n")
  {
  }

  lemma {:induction false} SplitAtNewline(x: string, y: string)
    requires Plain(x)
    ensures SplitLines(x + "\n" + y) == SplitLines(x + "\n") + SplitLines(y)
    decreases |x|
  {
    if OneLine(x) {
      SplitFirst(x, y);
      SplitFirst(x, "");
      NoTail(x + "\n");
    } else {
      var line, rest := Decompose(x);
      SplitAtNewline(rest, y);
      SplitStep(line, rest, y);
    }
  }

  /** A final newline is invisible after a character, and a blank line after another newline. */
  lemma {:induction false} FinalNewline(x: string)
    requires Plain(x)
    ensures if x != "" && x[|x| - 1] != '\n' then SplitLines(x + "\n") == SplitLines(x) else "" in SplitLines(x + "\n")
    decreases |x|
  {
    if OneLine(x) {
      SplitFirst(x, "");
      assert x + "\n" + "" == x + "\n";
      SplitOne(x);
    } else {
      var line, rest := Decompose(x);
      FinalNewline(rest);
      assert x + "\n" == line + "\n" + (rest + "\n");
      SplitFirst(line, rest + "\n");
      SplitFirst(line, rest);
      if rest == "" {
        assert SplitLines(rest + "\n") == [""] + SplitLines("") by {
          SplitFirst("", "");
          assert "" + "\n" + "" == rest + "\n";
        }
      }
    }
  }

  lemma {:induction false} PlainJoin(lines: seq<string>)
    requires forall i :: 0 <= i < |lines| ==> OneLine(lines[i])
    ensures Plain(Join(lines))
  {
    if lines != [] {
      var front, last := lines[..|lines| - 1], lines[|lines| - 1];
      PlainJoin(front);
      assert Join(lines) == Join(front) + last + "\n" && OneLine(last);
    }
  }

  lemma {:induction false} SplitJoin(lines: seq<string>)
    requires forall i :: 0 <= i < |lines| ==> OneLine(lines[i])
    ensures Plain(Join(lines)) && SplitLines(Join(lines)) == lines
  {
    PlainJoin(lines);
    if lines != [] {
      var front, last := lines[..|lines| - 1], lines[|lines| - 1];
      SplitJoin(front);
      LineAlone(last);
      if front == [] {
        assert Join(lines) == "" + last + "\n" == last + "\n";
      } else {
        JoinEnds(front, last);
      }
    }
  }

  lemma LineAlone(line: string)
    requires OneLine(line)
    ensures SplitLines(line + "\n") == [line]
  {
    SplitFirst(line, "");
    NoTail(line + "\n");
  }

  lemma JoinEnds(front: seq<string>, last: string)
    requires front != [] && Plain(Join(front)) && SplitLines(last + "\n") == [last]
    ensures SplitLines(Join(front) + last + "\n") == SplitLines(Join(front)) + [last]
  {
    var x := Join(front[..|front| - 1]) + front[|front| - 1];
    assert Join(front) == x + "\n";
    assert Plain(x) by {
      assert forall i :: 0 <= i < |x| ==> x[i] == Join(front)[i];
    }
    SplitAtNewline(x, last + "\n");
    assert x + "\n" + (last + "\n") == Join(front) + last + "\n";
  }

  // ---------- read_file_bottom_to_top_generator ----------

  /** What the generator yields for a file `s`, with the unfinished line `remainder` behind it. */
  function Backward(s: string, chunkSize: nat, remainder: string): seq<string>
    requires chunkSize > 0
    decreases |s|
  {
    if s == "" then (if remainder == "" then [] else [remainder])
    else
      var size := Min(chunkSize, |s|);
      var lines := SplitLines(s[|s| - size..] + remainder);
      Reverse(lines[1..]) + Backward(s[..|s| - size], chunkSize, lines[0])
  }

  /** The generator, with all its yields collected in order. */
  method ReadBottomToTop(f: File, chunkSize: nat) returns (yielded: seq<string>)
    requires chunkSize > 0
    modifies f`position
    ensures yielded == Backward(f.data, chunkSize, "")
  {
    hide SplitLines, Reverse;
    var fileSize := f.SeekEnd();
    var remainder := "";
    yielded := [];
    assert f.data[..fileSize] == f.data;
    while fileSize > 0
      invariant 0 <= fileSize <= |f.data|
      invariant f.position == fileSize
      invariant yielded + Backward(f.data[..fileSize], chunkSize, remainder) == Backward(f.data, chunkSize, "")
    {
      var readSize := Min(chunkSize, fileSize);
      var chunk := ReadBefore(f, readSize);
      ChunkAt(f.data, fileSize, readSize);
      ghost var before, rest := yielded, Backward(f.data[..fileSize], chunkSize, remainder);
      fileSize := fileSize - readSize;
      var lines := SplitLines(chunk + remainder);
      SplitSome(chunk + remainder);
      remainder := lines[0];
      lines := lines[1..];
      yielded := yielded + Reverse(lines);
      assert rest == Reverse(lines) + Backward(f.data[..fileSize], chunkSize, remainder);
    }
    if remainder != "" {
      yielded := yielded + [remainder];
    }
  }

  lemma SplitSome(t: string)
    requires t != ""
    ensures SplitLines(t) != []
  {
  }

  /** Steps back, reads, and steps back again. */
  method ReadBefore(f: File, size: nat) returns (chunk: string)
    requires 0 < size <= f.position <= |f.data|
    modifies f`position
    ensures chunk == f.data[old(f.position) - size..old(f.position)] && f.position == old(f.position) - size
  {
    f.Seek(f.position - size);
    chunk := f.Read(size);
    f.Seek(f.position - size);
  }

  lemma ChunkAt(data: string, size: nat, readSize: nat)
    requires readSize <= size <= |data|
    ensures var s := data[..size];
      data[size - readSize..size] == s[|s| - readSize..] && data[..size - readSize] == s[..|s| - readSize]
  {
  }

  /** Splitting only a tail of the text, and leaving its first line for later, loses nothing
      unless there is a blank line. */
  lemma SplitTail(s: string, t: string)
    requires Plain(s + t) && t != "" && "" !in SplitLines(s + t)
    ensures var lines := SplitLines(t);
      lines != [] && OneLine(lines[0]) && SplitLines(s + t) == SplitLines(s + lines[0]) + lines[1..]
  {
    assert forall i :: 0 <= i < |t| ==> t[i] == (s + t)[|s| + i];
    if OneLine(t) {
      SplitOne(t);
    } else {
      var line, rest := Decompose(t);
      SplitTailAt(s, line, rest);
    }
  }

  lemma SplitTailAt(s: string, line: string, rest: string)
    requires OneLine(line)
    requires Plain(s + (line + "\n" + rest)) && "" !in SplitLines(s + (line + "\n" + rest))
    ensures SplitLines(line + "\n" + rest) == [line] + SplitLines(rest)
    ensures SplitLines(s + (line + "\n" + rest)) == SplitLines(s + line) + SplitLines(rest)
  {
    assert s + (line + "\n" + rest) == (s + line) + "\n" + rest;
    SplitFirst(line, rest);
    SplitMiddle(s + line, rest);
  }

  lemma SplitMiddle(x: string, rest: string)
    requires Plain(x + "\n" + rest) && "" !in SplitLines(x + "\n" + rest)
    ensures SplitLines(x + "\n" + rest) == SplitLines(x) + SplitLines(rest)
  {
    assert Plain(x) by {
      assert forall i :: 0 <= i < |x| ==> x[i] == (x + "\n" + rest)[i];
    }
    SplitAtNewline(x, rest);
    FinalNewline(x);
  }

  lemma {:induction false} BackwardIsReverse(s: string, chunkSize: nat, remainder: string)
    requires chunkSize > 0 && Plain(s + remainder) && OneLine(remainder)
    requires "" !in SplitLines(s + remainder)
    ensures Backward(s, chunkSize, remainder) == Reverse(SplitLines(s + remainder))
    decreases |s|
  {
    if s == "" {
      assert s + remainder == remainder;
      SplitOne(remainder);
    } else {
      var size := Min(chunkSize, |s|);
      var front, t := s[..|s| - size], s[|s| - size..] + remainder;
      assert front + t == s + remainder;
      SplitTail(front, t);
      var lines := SplitLines(t);
      assert Plain(front + lines[0]) by {
        assert forall i :: 0 <= i < |front| ==> (front + lines[0])[i] == (s + remainder)[i];
      }
      BackwardIsReverse(front, chunkSize, lines[0]);
      ReverseAppend(SplitLines(front + lines[0]), lines[1..]);
    }
  }

  /** With chunks of one character no blank line is ever yielded. */
  lemma {:induction false} SmallChunksDropBlanks(s: string, remainder: string)
    requires Plain(s) && OneLine(remainder)
    ensures "" !in Backward(s, 1, remainder)
    decreases |s|
  {
    if s != "" {
      var front, t := s[..|s| - 1], s[|s| - 1..] + remainder;
      if s[|s| - 1] == '\n' {
        assert t == "" + "\n" + remainder;
        SplitFirst("", remainder);
        SplitOne(remainder);
        assert SplitLines(t)[1..] == SplitLines(remainder) && SplitLines(t)[0] == "";
        assert "" !in Reverse(SplitLines(remainder));
        SmallChunksDropBlanks(front, "");
      } else {
        assert OneLine(t);
        SplitOne(t);
        SmallChunksDropBlanks(front, t);
      }
    }
  }

  lemma {:induction false} ReverseMembers(s: seq<string>, x: string)
    ensures x in Reverse(s) <==> x in s
  {
    ReverseMultiset(s);
    assert x in Reverse(s) <==> x in multiset(Reverse(s));
  }

  /** The generator yields the lines in reverse, whatever the chunk size, if and only if
      the file has no blank line. */
  lemma ReaderIsExact(s: string)
    requires Plain(s)
    ensures (forall k: nat :: k > 0 ==> Backward(s, k, "") == Reverse(SplitLines(s))) <==> "" !in SplitLines(s)
  {
    assert s + "" == s;
    if "" !in SplitLines(s) {
      forall k: nat | k > 0
        ensures Backward(s, k, "") == Reverse(SplitLines(s))
      {
        BackwardIsReverse(s, k, "");
      }
    } else {
      SmallChunksDropBlanks(s, "");
      ReverseMembers(SplitLines(s), "");
      assert Backward(s, 1, "") != Reverse(SplitLines(s));
    }
  }

  // ---------- truncate_last_line_of_file ----------

  /** The last newline that is neither the first nor the last character, or 0. */
  function CutAt(s: string, below: nat): (p: nat)
    requires below <= |s|
    ensures p < below || p == 0
    ensures p > 0 ==> s[p] == '\n'
    ensures forall j :: p < j < below ==> s[j] != '\n'
  {
    if below <= 1 then 0 else if s[below - 1] == '\n' then below - 1 else CutAt(s, below - 1)
  }

  function CutLastLine(s: string): string {
    var p := if s == "" then 0 else CutAt(s, |s| - 1);
    if p > 0 then s[..p] + "\n" else ""
  }

  /** Cuts the last line off the file; on an empty file the seek fails. */
  method TruncateLastLine(f: File) returns (ok: bool)
    modifies f
    ensures ok <==> old(f.data) != ""
    ensures f.data == CutLastLine(old(f.data))
  {
    var size := f.SeekEnd();
    if size == 0 {
      return false;
    }
    var pos := size - 1;
    while pos > 0
      invariant 0 <= pos < size == |f.data|
      invariant f.data == old(f.data)
      invariant f.position == if pos == size - 1 then size else pos
      invariant CutAt(f.data, size - 1) == if pos == size - 1 then CutAt(f.data, pos) else CutAt(f.data, pos + 1)
    {
      var c := f.Read(1);
      if c == "\n" {
        break;
      }
      pos := pos - 1;
      f.Seek(pos);
    }
    f.Seek(pos);
    f.Truncate();
    if pos > 0 {
      f.WriteAtEnd("\n");
    }
    return true;
  }

  lemma CutIs(s: string, p: nat, below: nat)
    requires p < below <= |s| && (p > 0 ==> s[p] == '\n')
    requires forall j :: p < j < below ==> s[j] != '\n'
    ensures CutAt(s, below) == p
  {
  }

  /** Cutting undoes one append: the earlier lines stay, each still ended by its newline. */
  lemma {:induction false} CutUndoesAppend(lines: seq<string>, last: string)
    requires forall i :: 0 <= i < |lines| ==> OneLine(lines[i]) && lines[i] != ""
    requires OneLine(last) && last != ""
    ensures CutLastLine(Join(lines + [last])) == Join(lines)
  {
    assert (lines + [last])[..|lines|] == lines;
    if lines == [] {
      CutOnly(last);
    } else {
      var front := lines[..|lines| - 1];
      assert lines[|lines| - 1] != "" && Join(lines) == Join(front) + lines[|lines| - 1] + "\n";
      CutAfter(Join(lines), last);
    }
  }

  lemma CutOnly(last: string)
    requires OneLine(last) && last != ""
    ensures CutLastLine("" + last + "\n") == ""
  {
    var s := "" + last + "\n";
    assert forall j :: 0 <= j < |last| ==> s[j] == last[j];
    CutIs(s, 0, |s| - 1);
  }

  lemma CutAfter(head: string, last: string)
    requires |head| > 1 && head[|head| - 1] == '\n' && OneLine(last) && last != ""
    ensures CutLastLine(head + last + "\n") == head
  {
    var s, p := head + last + "\n", |head| - 1;
    assert forall j :: p < j < |s| - 1 ==> s[j] == last[j - p - 1];
    assert s[p] == '\n';
    CutIs(s, p, |s| - 1);
    assert s[..p] + "\n" == head;
  }
}
