/** scripts/pearbrowser-marketplace-demo.js: a child's output cut into lines, and the drive key captured from them. */
module Lines {
  import opened Wrappers
  import opened Texts

  const LF: Unit := 10
  const CR: Unit := 13

  /** chunk.replace(/\r/g, '\n') */
  function Normalized(t: Text): (r: Text)
    ensures |r| == |t|
  {
    seq(|t|, i requires 0 <= i < |t| => if t[i] == CR then LF else t[i])
  }

  /** The lines of text.split('\n') but the last. */
  function Complete(t: Text): seq<Text> {
    if t == [] then []
    else
      var front := t[..|t| - 1];
      if t[|t| - 1] == LF then Complete(front) + [Unterminated(front)] else Complete(front)
  }

  /** The last line of text.split('\n'). */
  function Unterminated(t: Text): Text {
    if t == [] || t[|t| - 1] == LF then [] else Unterminated(t[..|t| - 1]) + [t[|t| - 1]]
  }

  /** text.split('\n') */
  function Split(t: Text): seq<Text> {
    Complete(t) + [Unterminated(t)]
  }

  /** Each line followed by a line feed. */
  function Terminated(lines: seq<Text>): Text {
    if lines == [] then [] else Terminated(lines[..|lines| - 1]) + (lines[|lines| - 1] + [LF])
  }

  /** Splitting loses nothing ... */
  lemma {:induction false} SplitFaithful(t: Text)
    ensures t == Terminated(Complete(t)) + Unterminated(t)
  {
    if t != [] {
      var front, u := t[..|t| - 1], t[|t| - 1];
      SplitFaithful(front);
      assert t == front + [u];
      if u == LF {
        TerminatedSnoc(Complete(front), Unterminated(front));
        Reassociate(Terminated(Complete(front)), Unterminated(front), LF);
      } else {
        Reassociate(Terminated(Complete(front)), Unterminated(front), u);
      }
    }
  }

  lemma Reassociate(a: Text, b: Text, u: Unit)
    ensures a + (b + [u]) == (a + b) + [u]
  {
  }

  /** ... and leaves no line feed inside a line. */
  lemma {:induction false} NoBreakInside(t: Text, i: nat)
    requires i < |Split(t)|
    ensures LF !in Split(t)[i]
  {
    if t != [] {
      var front := t[..|t| - 1];
      if i < |Split(front)| {
        NoBreakInside(front, i);
      }
    }
  }

  /** Nor a carriage return: they break lines too. */
  lemma {:induction false} NoReturnInside(t: Text, i: nat)
    requires i < |Split(t)| && CR !in t
    ensures CR !in Split(t)[i]
  {
    if t != [] {
      var front := t[..|t| - 1];
      if i < |Split(front)| {
        NoReturnInside(front, i);
      }
    }
  }

  lemma RawLinesClean(t: Text, i: nat)
    requires i < |Split(Normalized(t))|
    ensures CR !in Split(Normalized(t))[i] && LF !in Split(Normalized(t))[i]
  {
    NoReturnInside(Normalized(t), i);
    NoBreakInside(Normalized(t), i);
  }

  /** Only carriage returns are changed. */
  lemma OthersStay(t: Text, i: nat)
    requires i < |t|
    ensures Normalized(t)[i] == if t[i] == 13 then 10 else t[i]
  {
  }

  lemma TerminatedSnoc(lines: seq<Text>, line: Text)
    ensures Terminated(lines + [line]) == Terminated(lines) + (line + [LF])
  {
    assert (lines + [line])[..|lines|] == lines;
  }

  lemma SplitSnoc(t: Text, u: Unit)
    ensures Complete(t + [u]) == if u == LF then Complete(t) + [Unterminated(t)] else Complete(t)
    ensures Unterminated(t + [u]) == if u == LF then [] else Unterminated(t) + [u]
  {
    assert (t + [u])[..|t|] == t;
  }

  /** Splitting a text that continues: the complete lines stand, the tail is split on with the rest. */
  lemma {:induction false} SplitConcat(a: Text, b: Text)
    ensures Complete(a + b) == Complete(a) + Complete(Unterminated(a) + b)
    ensures Unterminated(a + b) == Unterminated(Unterminated(a) + b)
    decreases |b|
  {
    if b == [] {
      assert a + b == a && Unterminated(a) + b == Unterminated(a);
      SplitTail(a);
    } else {
      var front, u := SplitLast(b);
      SplitConcat(a, front);
      SplitConcatSnoc(a, front, u);
    }
  }

  lemma SplitConcatSnoc(a: Text, b: Text, u: Unit)
    requires Complete(a + b) == Complete(a) + Complete(Unterminated(a) + b)
    requires Unterminated(a + b) == Unterminated(Unterminated(a) + b)
    ensures Complete(a + (b + [u])) == Complete(a) + Complete(Unterminated(a) + (b + [u]))
    ensures Unterminated(a + (b + [u])) == Unterminated(Unterminated(a) + (b + [u]))
  {
    Reassociate(a, b, u);
    Reassociate(Unterminated(a), b, u);
    SplitSnoc(a + b, u);
    SplitSnoc(Unterminated(a) + b, u);
    Regroup(Complete(a), Complete(Unterminated(a) + b), [Unterminated(a + b)]);
  }

  lemma {:induction false} SplitTail(a: Text)
    ensures Complete(Unterminated(a)) == [] && Unterminated(Unterminated(a)) == Unterminated(a)
  {
    if a != [] && a[|a| - 1] != LF {
      SplitTail(a[..|a| - 1]);
      SplitSnoc(Unterminated(a[..|a| - 1]), a[|a| - 1]);
    }
  }

  // ---------------------------------------------------------------- the reader

  /** stripAnsi(raw).trimEnd(), whether a line is blank, and what the drive-key pattern captures. */
  datatype Reader = Reader(clean: Text -> Text, blank: Text -> bool, capture: Text -> Option<Text>)

  function EmitOne(r: Reader, raw: Text): seq<Text> {
    var line := r.clean(raw);
    if r.blank(line) then [] else [line]
  }

  /** The lines handed to onLine for some raw lines. */
  function Emitted(r: Reader, raw: seq<Text>): seq<Text> {
    if raw == [] then [] else Emitted(r, raw[..|raw| - 1]) + EmitOne(r, raw[|raw| - 1])
  }

  lemma EmittedSnoc(r: Reader, raw: seq<Text>, line: Text)
    ensures Emitted(r, raw + [line]) == Emitted(r, raw) + EmitOne(r, line)
  {
    assert (raw + [line])[..|raw|] == raw;
  }

  lemma SplitLast<T>(s: seq<T>) returns (front: seq<T>, last: T)
    requires s != []
    ensures s == front + [last]
  {
    front, last := s[..|s| - 1], s[|s| - 1];
  }

  lemma {:induction false} EmittedConcat(r: Reader, a: seq<Text>, b: seq<Text>)
    ensures Emitted(r, a + b) == Emitted(r, a) + Emitted(r, b)
    decreases |b|
  {
    if b == [] {
      assert a + b == a;
    } else {
      var front, line := SplitLast(b);
      EmittedConcat(r, a, front);
      EmittedConcatSnoc(r, a, front, line);
    }
  }

  lemma EmittedConcatSnoc(r: Reader, a: seq<Text>, b: seq<Text>, line: Text)
    requires Emitted(r, a + b) == Emitted(r, a) + Emitted(r, b)
    ensures Emitted(r, a + (b + [line])) == Emitted(r, a) + Emitted(r, b + [line])
  {
    Regroup(a, b, [line]);
    EmittedSnoc(r, a + b, line);
    EmittedSnoc(r, b, line);
    Regroup(Emitted(r, a), Emitted(r, b), EmitOne(r, line));
  }

  lemma Regroup(a: seq<Text>, b: seq<Text>, c: seq<Text>)
    ensures a + (b + c) == (a + b) + c
  {
  }

  /** The first capture wins. */
  function FirstCapture(r: Reader, lines: seq<Text>): Option<Text> {
    if lines == [] then None
    else if r.capture(lines[0]).Some? then r.capture(lines[0])
    else FirstCapture(r, lines[1..])
  }

  lemma {:induction false} FirstCaptureSnoc(r: Reader, lines: seq<Text>, line: Text)
    ensures FirstCapture(r, lines + [line])
         == if FirstCapture(r, lines).Some? then FirstCapture(r, lines) else r.capture(line)
  {
    if lines != [] {
      FirstCaptureSnoc(r, lines[1..], line);
      assert (lines + [line])[1..] == lines[1..] + [line];
    } else {
      assert [] + [line] == [line] && [line][1..] == [];
    }
  }

  /** What is emitted: the cleaned raw lines that are not blank. */
  lemma {:induction false} EmittedIff(r: Reader, raw: seq<Text>, line: Text)
    ensures line in Emitted(r, raw) <==> !r.blank(line) && exists i :: 0 <= i < |raw| && r.clean(raw[i]) == line
  {
    if raw != [] {
      var front, last := raw[..|raw| - 1], raw[|raw| - 1];
      EmittedIff(r, front, line);
      assert forall i | 0 <= i < |front| :: front[i] == raw[i];
      assert raw[|raw| - 1] == last;
      if line in Emitted(r, front) {
        var i :| 0 <= i < |front| && r.clean(front[i]) == line;
        assert r.clean(raw[i]) == line;
      }
    }
  }

  /** Without blank lines every raw line is emitted, in order. */
  lemma {:induction false} AllEmitted(r: Reader, raw: seq<Text>)
    requires forall i | 0 <= i < |raw| :: !r.blank(r.clean(raw[i]))
    ensures |Emitted(r, raw)| == |raw| && forall i | 0 <= i < |raw| :: Emitted(r, raw)[i] == r.clean(raw[i])
  {
    if raw != [] {
      AllEmitted(r, raw[..|raw| - 1]);
    }
  }

  /** The captured key is that of the first line that has one. */
  lemma {:induction false} CaptureIsFirst(r: Reader, lines: seq<Text>)
    ensures FirstCapture(r, lines).None? ==> forall i | 0 <= i < |lines| :: r.capture(lines[i]).None?
    ensures FirstCapture(r, lines).Some? ==>
              exists i :: 0 <= i < |lines| && r.capture(lines[i]) == FirstCapture(r, lines) &&
                forall j | 0 <= j < i :: r.capture(lines[j]).None?
  {
    if lines != [] && r.capture(lines[0]).None? {
      CaptureIsFirst(r, lines[1..]);
      if FirstCapture(r, lines).Some? {
        var i :| 0 <= i < |lines| - 1 && r.capture(lines[1..][i]) == FirstCapture(r, lines) &&
          forall j | 0 <= j < i :: r.capture(lines[1..][j]).None?;
        assert r.capture(lines[i + 1]) == FirstCapture(r, lines);
        forall j | 0 <= j < i + 1 ensures r.capture(lines[j]).None? {
          assert j > 0 ==> lines[j] == lines[1..][j - 1];
        }
      }
    }
  }

  class StreamReader {
    const r: Reader
    var pending: Text
    var driveKey: Option<Text>
    ghost var seen: Text
    ghost var lines: seq<Text>

    /** Whatever the chunks were: lines, leftover and key are those of the whole text so far. */
    ghost predicate Valid()
      reads this
    {
      && lines == Emitted(r, Complete(Normalized(seen)))
      && pending == Unterminated(Normalized(seen))
      && driveKey == FirstCapture(r, lines)
    }

    constructor (r: Reader)
      ensures Valid() && seen == [] && this.r == r
    {
      this.r := r;
      pending, driveKey := [], None;
      seen, lines := [], [];
    }

    method OnLine(line: Text)
      requires driveKey == FirstCapture(r, lines)
      modifies this`driveKey, this`lines
      ensures lines == old(lines) + [line] && driveKey == FirstCapture(r, lines)
    {
      FirstCaptureSnoc(r, lines, line);
      lines := lines + [line];
      var m := r.capture(line);
      if m.Some? && driveKey.None? {
        driveKey := m;
      }
    }

    method EmitAll(raw: seq<Text>)
      requires driveKey == FirstCapture(r, lines)
      modifies this`driveKey, this`lines
      ensures lines == old(lines) + Emitted(r, raw) && driveKey == FirstCapture(r, lines)
    {
      var i := 0;
      while i < |raw|
        invariant 0 <= i <= |raw|
        invariant lines == old(lines) + Emitted(r, raw[..i]) && driveKey == FirstCapture(r, lines)
      {
        assert raw[..i + 1] == raw[..i] + [raw[i]];
        EmittedSnoc(r, raw[..i], raw[i]);
        var line := r.clean(raw[i]);
        if !r.blank(line) {
          OnLine(line);
        }
        i := i + 1;
      }
      assert raw[..i] == raw;
    }

    method OnData(chunk: Text)
      requires Valid()
      modifies this
      ensures Valid() && seen == old(seen) + chunk
    {
      ghost var before := Normalized(seen);
      pending := pending + Normalized(chunk);
      SplitConcat(before, Normalized(chunk));
      NormalizedConcat(seen, chunk);
      EmittedConcat(r, Complete(before), Complete(pending));
      var split := Split(pending);
      pending := split[|split| - 1];
      seen := seen + chunk;
      EmitAll(split[..|split| - 1]);
    }
  }

  // ---------------------------------------------------------------- chunking does not matter

  function Concatenated(chunks: seq<Text>): Text {
    if chunks == [] then [] else Concatenated(chunks[..|chunks| - 1]) + chunks[|chunks| - 1]
  }

  datatype Outcome = Outcome(lines: seq<Text>, pending: Text)

  /** One data event, as a function. */
  function Feed(r: Reader, o: Outcome, chunk: Text): Outcome {
    var text := o.pending + Normalized(chunk);
    Outcome(o.lines + Emitted(r, Complete(text)), Unterminated(text))
  }

  function FeedAll(r: Reader, chunks: seq<Text>): Outcome {
    if chunks == [] then Outcome([], []) else Feed(r, FeedAll(r, chunks[..|chunks| - 1]), chunks[|chunks| - 1])
  }

  /** However a text is cut into chunks, the reader ends where batch splitting of the whole text does. */
  lemma {:induction false} ChunkingIndependent(r: Reader, chunks: seq<Text>)
    ensures var t := Normalized(Concatenated(chunks));
            FeedAll(r, chunks) == Outcome(Emitted(r, Complete(t)), Unterminated(t))
  {
    if chunks == [] {
      assert Normalized([]) == [];
    } else {
      var front, last := chunks[..|chunks| - 1], chunks[|chunks| - 1];
      ChunkingIndependent(r, front);
      NormalizedConcat(Concatenated(front), last);
      FeedStep(r, Normalized(Concatenated(front)), last);
    }
  }

  lemma NormalizedConcat(a: Text, b: Text)
    ensures Normalized(a + b) == Normalized(a) + Normalized(b)
  {
  }

  lemma FeedStep(r: Reader, before: Text, chunk: Text)
    ensures Feed(r, Outcome(Emitted(r, Complete(before)), Unterminated(before)), chunk)
         == Outcome(Emitted(r, Complete(before + Normalized(chunk))), Unterminated(before + Normalized(chunk)))
  {
    SplitConcat(before, Normalized(chunk));
    EmittedConcat(r, Complete(before), Complete(Unterminated(before) + Normalized(chunk)));
  }
}
