/**
 * Line framing over byte streams: `XKit.readln` reads one line, dropping every
 * carriage return and stopping after the first line feed; `XKit.writeln` writes
 * a line followed by CR LF.
 */
module LineIO {
  import opened Wrappers
  import opened Bytes

  /** An `InputStream` over fixed contents; `pos` is the read cursor. */
  class ByteInput {
    const data: seq<byte>
    var pos: nat

    ghost predicate Valid()
      reads this
    {
      pos <= |data|
    }

    /** The bytes not read yet. */
    function Remaining(): seq<byte>
      reads this
      requires Valid()
    {
      data[pos..]
    }

    constructor (data: seq<byte>)
      ensures Valid() && this.data == data && pos == 0
    {
      this.data := data;
      pos := 0;
    }

    /** `InputStream.read()`: the next byte, advancing the cursor, or EOF at the end. */
    method Read() returns (b: int)
      requires Valid()
      modifies this
      ensures Valid()
      ensures old(pos) == |data| ==> b == EOF && pos == old(pos)
      ensures old(pos) < |data| ==> b == data[old(pos)] && pos == old(pos) + 1
    {
      if pos == |data| {
        b := EOF;
      } else {
        b := data[pos];
        pos := pos + 1;
      }
    }
  }

  /** An `OutputStream` (also a `ByteArrayOutputStream`); `written` is all it has received. */
  class ByteOutput {
    var written: seq<byte>

    constructor ()
      ensures written == []
    {
      written := [];
    }

    method Write(b: byte)
      modifies this
      ensures written == old(written) + [b]
    {
      written := written + [b];
    }

    method WriteAll(bs: seq<byte>)
      modifies this
      ensures written == old(written) + bs
    {
      written := written + bs;
    }
  }

  /** What one `readln` yields over the unread bytes: the line (`None` for null) and the bytes it consumed. */
  datatype LineRead = LineRead(line: Option<seq<byte>>, consumed: nat)

  /**
   * The loop of `readln`, entered with `rest[0]` just read, `bos` gathered so far
   * and `consumed` bytes read before `rest[0]`.
   */
  function Gather(rest: seq<byte>, bos: seq<byte>, consumed: nat): (r: LineRead)
    ensures r.line.Some?
    ensures consumed <= r.consumed <= consumed + |rest|
    ensures rest != [] ==> consumed < r.consumed
    ensures |r.line.value| <= |bos| + (r.consumed - consumed)
    decreases |rest|
  {
    if rest == [] then LineRead(Some(bos), consumed)
    else if rest[0] == LF then LineRead(Some(bos), consumed + 1)
    else Gather(rest[1..], if rest[0] == CR then bos else bos + [rest[0]], consumed + 1)
  }

  /** `readln` over the unread bytes `rest`. */
  function ReadLn(rest: seq<byte>): (r: LineRead)
    ensures r.line.None? <==> rest == []
    ensures r.line.None? ==> r.consumed == 0
    ensures r.line.Some? ==> 0 < r.consumed <= |rest| && |r.line.value| <= r.consumed
  {
    if rest == [] then LineRead(None, 0) else Gather(rest, [], 0)
  }

  /**
   * The bytes `writeln` sends for a line; nothing for null. For a plain line the
   * first LF is the last byte, and the bytes before it, CRs removed, are the line.
   */
  function Frame(line: Option<seq<byte>>): (r: seq<byte>)
    ensures r == [] <==> line.None?
    ensures line.Some? && IsPlainLine(line.value) ==>
      IndexOfLF(r) == |r| - 1 && RemoveCR(r[..|r| - 1]) == line.value
  {
    match line
    case None => []
    case Some(l) =>
      CRLFTerminates(l);
      l + [CR, LF]
  }

  /** The first LF in `s` is the one at `i` when none comes before it. */
  lemma {:induction false} IndexOfLFAt(s: seq<byte>, i: nat)
    requires i < |s| && s[i] == LF && LF !in s[..i]
    ensures IndexOfLF(s) == i
    decreases i
  {
    if i > 0 {
      assert s[0] in s[..i];
      assert s[1..][..i - 1] == s[1..i];
      assert LF !in s[1..i] by {
        assert forall b :: b in s[1..i] ==> b in s[..i];
      }
      IndexOfLFAt(s[1..], i - 1);
    }
  }

  /** Appending CR LF to a plain line puts the first LF last, with the line before its CR. */
  lemma CRLFTerminates(l: seq<byte>)
    ensures IsPlainLine(l) ==>
      IndexOfLF(l + [CR, LF]) == |l| + 1 && RemoveCR((l + [CR, LF])[..|l| + 1]) == l
  {
    if IsPlainLine(l) {
      var s := l + [CR, LF];
      assert s[..|l| + 1] == l + [CR];
      assert s[|l| + 1] == LF;
      assert LF !in s[..|l| + 1];
      IndexOfLFAt(s, |l| + 1);
      RemoveCRAppend(l, [CR]);
      RemoveCRWithoutCR(l);
      assert RemoveCR([CR]) == [] by {
        assert [CR][1..] == [];
      }
      assert l + [] == l;
    }
  }

  /** A line that `writeln` can send and `readln` gives back unchanged. */
  predicate IsPlainLine(line: seq<byte>)
  {
    CR !in line && LF !in line
  }

  /** Reference definition: `s` with every carriage return removed. */
  function RemoveCR(s: seq<byte>): (r: seq<byte>)
    ensures |r| <= |s|
    ensures forall b :: b in r <==> b in s && b != CR
  {
    if s == [] then []
    else (if s[0] == CR then [] else [s[0]]) + RemoveCR(s[1..])
  }

  /** The index of the first line feed in `s`, or `|s|` when there is none. */
  function IndexOfLF(s: seq<byte>): (i: nat)
    ensures i <= |s| && LF !in s[..i]
    ensures i < |s| ==> s[i] == LF
  {
    if s == [] then 0
    else if s[0] == LF then 0
    else
      var j := IndexOfLF(s[1..]);
      assert s[..j + 1] == [s[0]] + s[1..][..j];
      j + 1
  }

  lemma {:induction false} RemoveCRAppend(a: seq<byte>, b: seq<byte>)
    ensures RemoveCR(a + b) == RemoveCR(a) + RemoveCR(b)
    decreases |a|
  {
    if a == [] {
      assert a + b == b;
    } else {
      assert (a + b)[1..] == a[1..] + b;
      RemoveCRAppend(a[1..], b);
    }
  }

  lemma {:induction false} RemoveCRWithoutCR(s: seq<byte>)
    requires CR !in s
    ensures RemoveCR(s) == s
    decreases |s|
  {
    if s != [] {
      assert s == [s[0]] + s[1..];
      RemoveCRWithoutCR(s[1..]);
    }
  }

  /** One turn of the loop on a byte other than LF. */
  lemma GatherStep(rest: seq<byte>, bos: seq<byte>, consumed: nat)
    requires rest != [] && rest[0] != LF
    ensures Gather(rest, bos, consumed) == Gather(rest[1..], bos + RemoveCR([rest[0]]), consumed + 1)
  {
    var x := rest[0];
    assert [x][1..] == [];
    if x == CR {
      assert RemoveCR([x]) == [];
      assert bos + [] == bos;
    } else {
      assert RemoveCR([x]) == [x];
    }
  }

  lemma {:induction false} GatherToNewline(rest: seq<byte>, bos: seq<byte>, consumed: nat, i: nat)
    requires i < |rest| && rest[i] == LF && LF !in rest[..i]
    ensures Gather(rest, bos, consumed) == LineRead(Some(bos + RemoveCR(rest[..i])), consumed + i + 1)
    decreases i
  {
    if i == 0 {
      assert rest[..0] == [];
      assert bos + [] == bos;
    } else {
      var head, tail := rest[..i][0], rest[1..];
      assert rest[..i] == [head] + tail[..i - 1];
      assert LF !in tail[..i - 1];
      GatherStep(rest, bos, consumed);
      GatherToNewline(tail, bos + RemoveCR([head]), consumed + 1, i - 1);
      RemoveCRAppend([head], tail[..i - 1]);
      assert bos + RemoveCR([head]) + RemoveCR(tail[..i - 1]) == bos + RemoveCR(rest[..i]);
    }
  }

  lemma {:induction false} GatherToEnd(rest: seq<byte>, bos: seq<byte>, consumed: nat)
    requires LF !in rest
    ensures Gather(rest, bos, consumed) == LineRead(Some(bos + RemoveCR(rest)), consumed + |rest|)
    decreases |rest|
  {
    if rest == [] {
      assert bos + [] == bos;
    } else {
      var head, tail := rest[0], rest[1..];
      assert rest == [head] + tail;
      assert LF !in tail;
      GatherStep(rest, bos, consumed);
      GatherToEnd(tail, bos + RemoveCR([head]), consumed + 1);
      RemoveCRAppend([head], tail);
      assert bos + RemoveCR([head]) + RemoveCR(tail) == bos + RemoveCR(rest);
    }
  }

  /** With a line feed at index `i` and none before it, `readln` returns the bytes before it without CRs and consumes `i + 1` bytes. */
  lemma ReadLnUpToNewline(rest: seq<byte>, i: nat)
    requires i < |rest| && rest[i] == LF && LF !in rest[..i]
    ensures ReadLn(rest) == LineRead(Some(RemoveCR(rest[..i])), i + 1)
  {
    GatherToNewline(rest, [], 0, i);
    assert [] + RemoveCR(rest[..i]) == RemoveCR(rest[..i]);
  }

  /** With no line feed left, `readln` returns everything left without CRs (possibly empty, never null) and exhausts the stream. */
  lemma ReadLnWithoutNewline(rest: seq<byte>)
    requires rest != [] && LF !in rest
    ensures ReadLn(rest) == LineRead(Some(RemoveCR(rest)), |rest|)
  {
    GatherToEnd(rest, [], 0);
    assert [] + RemoveCR(rest) == RemoveCR(rest);
  }

  /** A lone `"\r"` reads as an empty line, not as null. */
  lemma ReadLnLoneCR()
    ensures ReadLn([CR]) == LineRead(Some([]), 1)
  {
  }

  /** `readln` splits at the first line feed, whichever of the two cases applies. */
  lemma ReadLnAtFirstNewline(rest: seq<byte>)
    requires rest != []
    ensures var i := IndexOfLF(rest);
      ReadLn(rest) == if i < |rest| then LineRead(Some(RemoveCR(rest[..i])), i + 1)
                      else LineRead(Some(RemoveCR(rest)), |rest|)
  {
    var i := IndexOfLF(rest);
    if i < |rest| {
      ReadLnUpToNewline(rest, i);
    } else {
      assert rest[..i] == rest;
      ReadLnWithoutNewline(rest);
    }
  }

  /** A line returned by `readln` holds neither CR nor LF. */
  lemma ReadLnIsPlain(rest: seq<byte>)
    requires rest != []
    ensures ReadLn(rest).line.Some? && IsPlainLine(ReadLn(rest).line.value)
  {
    ReadLnAtFirstNewline(rest);
    var i := IndexOfLF(rest);
    if i == |rest| {
      assert rest[..i] == rest;
    }
  }

  /** Round trip: `readln` over what `writeln` sent, followed by anything, returns the line and leaves exactly `rest` unread. */
  lemma FrameRoundTrip(line: seq<byte>, rest: seq<byte>)
    requires IsPlainLine(line)
    ensures ReadLn(Frame(Some(line)) + rest) == LineRead(Some(line), |line| + 2)
    ensures (Frame(Some(line)) + rest)[|line| + 2..] == rest
  {
    var s := Frame(Some(line)) + rest;
    var i := |line| + 1;
    assert s[..i] == line + [CR];
    assert s[i] == LF;
    assert LF !in s[..i];
    ReadLnUpToNewline(s, i);
    RemoveCRAppend(line, [CR]);
    RemoveCRWithoutCR(line);
    assert RemoveCR([CR]) == [] by {
      assert [CR][1..] == [];
    }
    assert line + [] == line;
  }

  /** What `writeln` sends for each line in turn. */
  function WriteLines(lines: seq<seq<byte>>): seq<byte>
  {
    if lines == [] then [] else Frame(Some(lines[0])) + WriteLines(lines[1..])
  }

  /** The lines that repeated `readln` calls return until one returns null. */
  function ReadLines(s: seq<byte>): seq<seq<byte>>
    decreases |s|
  {
    var r := ReadLn(s);
    if r.line.None? then [] else [r.line.value] + ReadLines(s[r.consumed..])
  }

  /** Writing plain lines one after the other and reading until null gives the same lines back. */
  lemma {:induction false} LinesRoundTrip(lines: seq<seq<byte>>)
    requires forall k :: 0 <= k < |lines| ==> IsPlainLine(lines[k])
    ensures ReadLines(WriteLines(lines)) == lines
    decreases |lines|
  {
    if lines != [] {
      var rest := WriteLines(lines[1..]);
      var s := WriteLines(lines);
      assert s == Frame(Some(lines[0])) + rest;
      FrameRoundTrip(lines[0], rest);
      assert s[|lines[0]| + 2..] == rest;
      assert ReadLines(s) == [lines[0]] + ReadLines(rest);
      LinesRoundTrip(lines[1..]);
      assert lines == [lines[0]] + lines[1..];
    }
  }

  /** `XKit.readln`: null at end of stream; otherwise the bytes up to the first LF, CRs dropped. */
  method ReadLine(input: ByteInput) returns (line: Option<seq<byte>>)
    requires input.Valid()
    modifies input
    ensures input.Valid()
    ensures line == ReadLn(old(input.Remaining())).line
    ensures input.pos == old(input.pos) + ReadLn(old(input.Remaining())).consumed
  {
    ghost var start := input.pos;
    var b := input.Read();
    if b == EOF {
      return None;
    }
    var bos := new ByteOutput();
    while b != EOF
      invariant input.Valid() && start < input.pos
      invariant b == EOF ==> input.pos == |input.data|
      invariant b != EOF ==> b == input.data[input.pos - 1]
      invariant var here := if b == EOF then input.pos else input.pos - 1;
        ReadLn(input.data[start..]) == Gather(input.data[here..], bos.written, here - start)
      decreases |input.data| - (if b == EOF then input.pos else input.pos - 1)
    {
      if b == LF {
        return Some(bos.written);
      } else if b != CR {
        bos.Write(b);
      }
      b := input.Read();
    }
    return Some(bos.written);
  }

  /** `XKit.writeln`: a null line writes nothing; otherwise the line, then CR, then LF. */
  method WriteLine(line: Option<seq<byte>>, out: ByteOutput)
    modifies out
    ensures out.written == old(out.written) + Frame(line)
  {
    if line.None? {
      return;
    }
    out.WriteAll(line.value);
    out.Write(CR);
    out.Write(LF);
  }

  /** A line written with `writeln` and read back with `readln` from a stream holding it and then `rest`. */
  method WriteThenRead(line: seq<byte>, rest: seq<byte>) returns (back: Option<seq<byte>>, unread: seq<byte>)
    requires IsPlainLine(line)
    ensures back == Some(line) && unread == rest
  {
    var out := new ByteOutput();
    WriteLine(Some(line), out);
    assert out.written == Frame(Some(line));
    var input := new ByteInput(out.written + rest);
    FrameRoundTrip(line, rest);
    back := ReadLine(input);
    unread := input.Remaining();
  }
}
