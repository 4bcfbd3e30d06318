/** The bounded line reader over a subprocess stream. The reader sees arbitrary chunks;
    what it accepts is specified on the whole byte stream. */
module CodexStream {
  import opened Order
  import opened Utf8

  type Bytes = seq<byte>

  const LF: byte := 10
  const CR: byte := 13
  const READ_SIZE := 8192
  const MAX_STREAM_BYTES := 1024 * 1024
  const MAX_LINE_BYTES := 128 * 1024
  const MAX_EVENTS := 4096

  /** Event validation of one line in a state: the next state, or None for a violation. */
  type Validator = (Bytes, int) -> Option<int>

  /** `event_count` and `state`. */
  datatype Progress = Progress(count: nat, state: int)

  const START := Progress(0, 0)

  // ---------- lines of a stream ----------

  function LineEnd(s: Bytes): (n: nat)
    ensures n <= |s|
    ensures forall i :: 0 <= i < n ==> s[i] != LF
    ensures n < |s| ==> s[n] == LF
  {
    if s == [] || s[0] == LF then 0 else 1 + LineEnd(s[1..])
  }

  predicate HasNewline(s: Bytes)
  {
    LineEnd(s) < |s|
  }

  /** The lines that end in a newline, without it. */
  function Lines(s: Bytes): seq<Bytes>
    decreases |s|
  {
    if !HasNewline(s) then [] else [s[..LineEnd(s)]] + Lines(s[LineEnd(s) + 1..])
  }

  /** What follows the last newline. */
  function Tail(s: Bytes): Bytes
    decreases |s|
  {
    if !HasNewline(s) then s else Tail(s[LineEnd(s) + 1..])
  }

  function Concat(chunks: seq<Bytes>): Bytes
  {
    if chunks == [] then [] else Concat(chunks[..|chunks| - 1]) + chunks[|chunks| - 1]
  }

  // ---------- what one line does ----------

  function StripReturn(raw: Bytes): Bytes
  {
    if raw != [] && raw[|raw| - 1] == CR then raw[..|raw| - 1] else raw
  }

  /** Count a line and, when events are expected, validate it. */
  function TakeLine(line: Bytes, events: bool, validate: Validator, p: Progress): Option<Progress>
  {
    if line == [] || |line| > MAX_LINE_BYTES || p.count + 1 > MAX_EVENTS then None
    else if !events then Some(Progress(p.count + 1, p.state))
    else
      match validate(line, p.state)
      case None => None
      case Some(next) => Some(Progress(p.count + 1, next))
  }

  function TakeLines(lines: seq<Bytes>, events: bool, validate: Validator, p: Progress): Option<Progress>
  {
    if lines == [] then Some(p)
    else
      match TakeLine(StripReturn(lines[0]), events, validate, p)
      case None => None
      case Some(next) => TakeLines(lines[1..], events, validate, next)
  }

  function TakeTail(tail: Bytes, events: bool, validate: Validator, p: Progress): Option<Progress>
  {
    if tail == [] then Some(p) else TakeLine(tail, events, validate, p)
  }

  /** The stream as a whole is acceptable. */
  predicate Accepts(s: Bytes, events: bool, validate: Validator)
  {
    |s| <= MAX_STREAM_BYTES &&
    match TakeLines(Lines(s), events, validate, START)
    case None => false
    case Some(p) =>
      match TakeTail(Tail(s), events, validate, p)
      case None => false
      case Some(end) => !events || end.state == 3
  }

  /** Some chunk without a newline leaves more than a line's worth of pending bytes. */
  ghost predicate Overruns(chunks: seq<Bytes>)
  {
    exists k :: 0 <= k < |chunks| && !HasNewline(chunks[k]) && |Tail(Concat(chunks[..k + 1]))| > MAX_LINE_BYTES
  }

  /** What the reader returns for a sequence of chunks. */
  ghost function Outcome(chunks: seq<Bytes>, events: bool, validate: Validator): Option<Bytes>
  {
    if Accepts(Concat(chunks), events, validate) && !Overruns(chunks) then Some(Concat(chunks)) else None
  }

  // ---------- lines of a growing stream ----------

  lemma LineEndConcat(a: Bytes, b: Bytes)
    requires HasNewline(a)
    ensures LineEnd(a + b) == LineEnd(a)
  {
    var n, m := LineEnd(a), LineEnd(a + b);
    assert (a + b)[n] == LF;
    assert m <= n;
    assert (a + b)[m] == LF;
  }

  lemma {:induction false} FrameConcat(a: Bytes, b: Bytes)
    ensures Lines(a + b) == Lines(a) + Lines(Tail(a) + b)
    ensures Tail(a + b) == Tail(Tail(a) + b)
    decreases |a|
  {
    if HasNewline(a) {
      var n := LineEnd(a);
      LineEndConcat(a, b);
      assert (a + b)[..n] == a[..n] && (a + b)[n + 1..] == a[n + 1..] + b;
      FrameConcat(a[n + 1..], b);
    }
  }

  lemma {:induction false} TailHasNoNewline(s: Bytes)
    ensures !HasNewline(Tail(s))
    decreases |s|
  {
    if HasNewline(s) {
      TailHasNoNewline(s[LineEnd(s) + 1..]);
    }
  }

  lemma {:induction false} TakeLinesConcat(a: seq<Bytes>, b: seq<Bytes>, events: bool, validate: Validator, p: Progress)
    ensures TakeLines(a + b, events, validate, p) ==
      match TakeLines(a, events, validate, p) case None => None case Some(q) => TakeLines(b, events, validate, q)
  {
    if a == [] {
      assert a + b == b;
    } else {
      assert (a + b)[1..] == a[1..] + b;
      match TakeLine(StripReturn(a[0]), events, validate, p)
      case None =>
      case Some(next) => TakeLinesConcat(a[1..], b, events, validate, next);
    }
  }

  lemma {:induction false} ConcatSplit(chunks: seq<Bytes>, k: nat)
    requires k <= |chunks|
    ensures exists rest :: Concat(chunks) == Concat(chunks[..k]) + rest
    decreases |chunks|
  {
    if k == |chunks| {
      assert chunks[..k] == chunks;
      assert Concat(chunks) == Concat(chunks[..k]) + [];
    } else {
      var front := chunks[..|chunks| - 1];
      ConcatSplit(front, k);
      assert front[..k] == chunks[..k];
      var rest :| Concat(front) == Concat(chunks[..k]) + rest;
      assert Concat(chunks) == Concat(chunks[..k]) + (rest + chunks[|chunks| - 1]);
    }
  }

  /** A prefix that is too long or whose lines are refused dooms the whole stream. */
  lemma PrefixRefused(s: Bytes, rest: Bytes, events: bool, validate: Validator)
    requires |s| > MAX_STREAM_BYTES || TakeLines(Lines(s), events, validate, START).None?
    ensures !Accepts(s + rest, events, validate)
  {
    FrameConcat(s, rest);
    TakeLinesConcat(Lines(s), Lines(Tail(s) + rest), events, validate, START);
  }

  lemma AcceptsByTail(s: Bytes, events: bool, validate: Validator, p: Progress)
    requires |s| <= MAX_STREAM_BYTES && TakeLines(Lines(s), events, validate, START) == Some(p)
    ensures Accepts(s, events, validate) <==>
      TakeTail(Tail(s), events, validate, p).Some? && (!events || TakeTail(Tail(s), events, validate, p).value.state == 3)
  {
  }

  lemma NewlineConcat(a: Bytes, b: Bytes)
    ensures HasNewline(a + b) <==> HasNewline(a) || HasNewline(b)
  {
    var n := LineEnd(a + b);
    assert n < |a| ==> a[n] == (a + b)[n];
    assert |a| <= n < |a + b| ==> b[n - |a|] == (a + b)[n];
    if HasNewline(a) {
      LineEndConcat(a, b);
    } else if HasNewline(b) {
      assert (a + b)[|a| + LineEnd(b)] == LF;
    }
  }

  lemma ReadNothing(chunks: seq<Bytes>, events: bool, validate: Validator)
    ensures Concat(chunks[..0]) == [] && Tail([]) == [] && TakeLines(Lines([]), events, validate, START) == Some(START)
  {
  }

  /** The inner loop: take every complete line off the front of `buffer`. */
  method DrainLines(buffer: Bytes, events: bool, validate: Validator, start: Progress)
    returns (r: Option<(Bytes, Progress)>)
    ensures r == match TakeLines(Lines(buffer), events, validate, start)
                 case None => None
                 case Some(p) => Some((Tail(buffer), p))
  {
    hide TakeLine, TakeLines, Lines, Tail, LineEnd, StripReturn;
    var pending, progress := buffer, start;
    while HasNewline(pending)
      invariant Tail(pending) == Tail(buffer)
      invariant TakeLines(Lines(pending), events, validate, progress) == TakeLines(Lines(buffer), events, validate, start)
      decreases |pending|
    {
      var n := LineEnd(pending);
      var next := TakeLine(StripReturn(pending[..n]), events, validate, progress);
      FirstLineOf(pending);
      FirstTaken(pending[..n], Lines(pending[n + 1..]), events, validate, progress);
      if next.None? {
        return None;
      }
      pending := pending[n + 1..];
      progress := next.value;
    }
    NoLinesInTail(pending);
    NoLinesTaken(events, validate, progress);
    return Some((pending, progress));
  }

  lemma FirstLineOf(s: Bytes)
    requires HasNewline(s)
    ensures var raw, rest := s[..LineEnd(s)], s[LineEnd(s) + 1..];
            |rest| < |s| && Lines(s) == [raw] + Lines(rest) && Tail(s) == Tail(rest)
  {
    hide LineEnd;
  }

  lemma FirstTaken(raw: Bytes, rest: seq<Bytes>, events: bool, validate: Validator, p: Progress)
    ensures TakeLines([raw] + rest, events, validate, p) ==
      match TakeLine(StripReturn(raw), events, validate, p) case None => None case Some(q) => TakeLines(rest, events, validate, q)
  {
    hide TakeLine;
    assert ([raw] + rest)[1..] == rest;
  }

  lemma NoLinesTaken(events: bool, validate: Validator, p: Progress)
    ensures TakeLines([], events, validate, p) == Some(p)
  {
  }

  lemma NoLinesInTail(s: Bytes)
    requires !HasNewline(s)
    ensures Lines(s) == [] && Tail(s) == s
  {
  }

  lemma ConcatAppend(chunks: seq<Bytes>, k: nat)
    requires k < |chunks|
    ensures Concat(chunks[..k + 1]) == Concat(chunks[..k]) + chunks[k]
  {
    assert chunks[..k + 1][..k] == chunks[..k];
  }

  /** `_read_stream`. */
  method ReadStream(chunks: seq<Bytes>, events: bool, validate: Validator) returns (r: Option<Bytes>)
    requires forall i :: 0 <= i < |chunks| ==> chunks[i] != []
    ensures r == Outcome(chunks, events, validate)
  {
    hide Accepts, TakeLine, TakeLines, Lines, Tail, Concat, TakeTail;
    assert Concat(chunks[..0]) == [] && Tail([]) == [] && TakeLines(Lines([]), events, validate, START) == Some(START) by {
      ReadNothing(chunks, events, validate);
    }
    var data: Bytes, pending: Bytes := [], [];
    var progress := START;
    for k := 0 to |chunks|
      invariant data == Concat(chunks[..k]) && pending == Tail(data)
      invariant |data| <= MAX_STREAM_BYTES
      invariant TakeLines(Lines(data), events, validate, START) == Some(progress)
      invariant forall j :: 0 <= j < k ==> !(!HasNewline(chunks[j]) && |Tail(Concat(chunks[..j + 1]))| > MAX_LINE_BYTES)
    {
      ghost var before := data;
      data := data + chunks[k];
      ConcatAppend(chunks, k);
      ConcatSplit(chunks, k + 1);
      ghost var rest :| Concat(chunks) == data + rest;
      if |data| > MAX_STREAM_BYTES {
        PrefixRefused(data, rest, events, validate);
        return None;
      }
      FrameConcat(before, chunks[k]);
      TailHasNoNewline(before);
      pending := pending + chunks[k];
      NewlineConcat(Tail(before), chunks[k]);
      if !HasNewline(pending) {
        NoLinesInTail(pending);
      }
      if |pending| > MAX_LINE_BYTES && !HasNewline(pending) {
        assert !HasNewline(chunks[k]) && Tail(data) == pending;
        return None;
      }
      assert !HasNewline(chunks[k]) ==> Tail(data) == pending;
      TakeLinesConcat(Lines(before), Lines(pending), events, validate, START);
      var drained := DrainLines(pending, events, validate, progress);
      if drained.None? {
        PrefixRefused(data, rest, events, validate);
        return None;
      }
      pending, progress := drained.value.0, drained.value.1;
    }
    assert chunks[..|chunks|] == chunks;
    var end := TakeTail(pending, events, validate, progress);
    AcceptsByTail(data, events, validate, progress);
    return if end.Some? && (!events || end.value.state == 3) then Some(data) else None;
  }

  // ---------- when the chunking matters ----------

  /** `chunks` is one way `stream.read(8192)` can deliver `s`. */
  ghost predicate Delivers(chunks: seq<Bytes>, s: Bytes)
  {
    Concat(chunks) == s && forall i :: 0 <= i < |chunks| ==> 1 <= |chunks[i]| <= READ_SIZE
  }

  predicate LongReturn(line: Bytes)
  {
    |line| == MAX_LINE_BYTES + 1 && line[MAX_LINE_BYTES] == CR
  }

  /** Some newline-terminated line is a full line's content followed by a carriage return. */
  ghost predicate LongReturnLine(s: Bytes)
  {
    exists i :: 0 <= i < |Lines(s)| && LongReturn(Lines(s)[i])
  }

  ghost predicate ChunkIndependent(s: Bytes, events: bool, validate: Validator)
  {
    forall a, b :: Delivers(a, s) && Delivers(b, s) ==> Outcome(a, events, validate) == Outcome(b, events, validate)
  }

  lemma {:induction false} TakenLinesFit(lines: seq<Bytes>, events: bool, validate: Validator, p: Progress)
    requires TakeLines(lines, events, validate, p).Some?
    ensures forall i :: 0 <= i < |lines| ==> |StripReturn(lines[i])| <= MAX_LINE_BYTES
  {
    if lines != [] {
      TakenLinesFit(lines[1..], events, validate, TakeLine(StripReturn(lines[0]), events, validate, p).value);
    }
  }

  /** The first line comes off the front. */
  lemma SplitFirst(line: Bytes, rest: Bytes)
    requires !HasNewline(line)
    ensures HasNewline(line + [LF] + rest) && LineEnd(line + [LF] + rest) == |line|
    ensures Lines(line + [LF] + rest) == [line] + Lines(rest)
    ensures Tail(line + [LF] + rest) == Tail(rest)
  {
    var s := line + [LF] + rest;
    assert s[|line|] == LF;
    assert LineEnd(line) == |line|;
    assert forall i :: 0 <= i < |line| ==> s[i] == line[i];
    assert LineEnd(s) == |line|;
    assert s[..|line|] == line && s[|line| + 1..] == rest;
  }

  lemma FirstLine(s: Bytes)
    requires HasNewline(s)
    ensures !HasNewline(s[..LineEnd(s)]) && s == s[..LineEnd(s)] + [LF] + s[LineEnd(s) + 1..]
  {
  }

  lemma CutLine(s: Bytes, c: nat)
    requires c <= |s|
    ensures HasNewline(s[c..]) ==> |Lines(s[..c])| < |Lines(s)| && Lines(s)[|Lines(s[..c])|] == Tail(s[..c]) + s[c..][..LineEnd(s[c..])]
    ensures !HasNewline(s[c..]) ==> Tail(s) == Tail(s[..c]) + s[c..]
  {
    hide Lines, Tail, LineEnd;
    var t, rest := Tail(s[..c]), s[c..];
    assert s == s[..c] + rest;
    FrameConcat(s[..c], rest);
    TailHasNoNewline(s[..c]);
    if HasNewline(rest) {
      FirstLine(rest);
      var e := LineEnd(rest);
      var line, after := t + rest[..e], rest[e + 1..];
      assert t + rest == line + [LF] + after;
      SplitFirst(line, after);
    } else {
      NoLinesInTail(t + rest);
    }
  }

  /** In an accepted stream, pending bytes exceed a line only between the carriage return
      and the newline of a line of maximal content. */
  lemma OverrunShape(s: Bytes, c: nat, events: bool, validate: Validator)
    requires Accepts(s, events, validate) && c <= |s| && |Tail(s[..c])| > MAX_LINE_BYTES
    ensures 0 < c < |s| && s[c] == LF && s[c - 1] == CR && LongReturnLine(s)
  {
    hide Lines, Tail, TakeLines, TakeTail;
    var t, rest := Tail(s[..c]), s[c..];
    CutLine(s, c);
    AcceptedLinesFit(s, events, validate);
    assert HasNewline(rest);
    var e := LineEnd(rest);
    var line := t + rest[..e];
    assert |StripReturn(line)| <= MAX_LINE_BYTES;
    assert e == 0 && |t| == MAX_LINE_BYTES + 1;
    assert line == t && rest[0] == LF;
    TailIsSuffix(s[..c]);
    assert s[c - 1] == t[MAX_LINE_BYTES];
  }

  lemma AcceptedLinesFit(s: Bytes, events: bool, validate: Validator)
    requires Accepts(s, events, validate)
    ensures forall i :: 0 <= i < |Lines(s)| ==> |StripReturn(Lines(s)[i])| <= MAX_LINE_BYTES
    ensures |Tail(s)| <= MAX_LINE_BYTES
  {
    hide Lines, Tail;
    TakenLinesFit(Lines(s), events, validate, START);
  }

  lemma {:induction false} TailIsSuffix(s: Bytes)
    ensures |Tail(s)| <= |s| && s[|s| - |Tail(s)|..] == Tail(s)
    decreases |s|
  {
    if HasNewline(s) {
      var rest := s[LineEnd(s) + 1..];
      TailIsSuffix(rest);
      assert s[|s| - |Tail(rest)|..] == rest[|rest| - |Tail(rest)|..];
    }
  }

  lemma {:induction false} LinePosition(s: Bytes, i: nat) returns (c: nat)
    requires i < |Lines(s)|
    ensures c < |s| && s[c] == LF && Tail(s[..c]) == Lines(s)[i]
    decreases |s|
  {
    hide Lines, Tail, LineEnd;
    LinesStep(s, i);
    FirstLine(s);
    var n := LineEnd(s);
    var first, rest := s[..n], s[n + 1..];
    if i == 0 {
      c := n;
      NoLinesInTail(first);
    } else {
      var d := LinePosition(rest, i - 1);
      c := n + 1 + d;
      assert s[..c] == first + [LF] + rest[..d];
      SplitFirst(first, rest[..d]);
      assert s[c] == rest[d];
    }
  }

  lemma LinesStep(s: Bytes, i: nat)
    requires i < |Lines(s)|
    ensures HasNewline(s) && s[LineEnd(s)] == LF
    ensures var rest := s[LineEnd(s) + 1..];
      if i == 0 then Lines(s)[i] == s[..LineEnd(s)] else i - 1 < |Lines(rest)| && Lines(s)[i] == Lines(rest)[i - 1]
  {
  }

  /** Every byte as its own chunk. */
  function Singles(s: Bytes): (r: seq<Bytes>)
    ensures |r| == |s|
  {
    seq(|s|, i requires 0 <= i < |s| => [s[i]])
  }

  lemma {:induction false} SinglesConcat(s: Bytes, k: nat)
    requires k <= |s|
    ensures Concat(Singles(s)[..k]) == s[..k]
  {
    if k > 0 {
      SinglesConcat(s, k - 1);
      assert Singles(s)[..k][..k - 1] == Singles(s)[..k - 1];
    }
  }

  lemma SinglesOverrun(s: Bytes)
    requires LongReturnLine(s)
    ensures Delivers(Singles(s), s) && Overruns(Singles(s))
  {
    hide Lines, Tail, Concat, LineEnd;
    var i :| 0 <= i < |Lines(s)| && LongReturn(Lines(s)[i]);
    var line := Lines(s)[i];
    var c := LinePosition(s, i);
    TailIsSuffix(s[..c]);
    var k := c - 1;
    var chunks := Singles(s);
    SinglesConcat(s, c);
    SinglesConcat(s, |s|);
    assert chunks[..|s|] == chunks && s[..|s|] == s;
    assert s[k] == line[MAX_LINE_BYTES];
    assert chunks[k] == [CR];
    assert Tail(Concat(chunks[..k + 1])) == line;
  }

  lemma ConcatNothing()
    ensures Concat([]) == []
  {
  }

  function PairSize(s: Bytes): (n: nat)
    requires s != []
    ensures 1 <= n <= 2 && n <= |s|
  {
    if |s| >= 2 && s[0] == CR && s[1] == LF then 2 else 1
  }

  /** Every byte as its own chunk, except that a carriage return keeps its newline. */
  function Pairs(s: Bytes): seq<Bytes>
  {
    if s == [] then [] else [s[..PairSize(s)]] + Pairs(s[PairSize(s)..])
  }

  lemma {:induction false} ConcatFront(first: Bytes, chunks: seq<Bytes>)
    ensures Concat([first] + chunks) == first + Concat(chunks)
  {
    var all := [first] + chunks;
    if chunks == [] {
      assert all[..0] == [];
      assert Concat(all) == Concat([]) + first;
    } else {
      var front := chunks[..|chunks| - 1];
      assert all[..|all| - 1] == [first] + front;
      ConcatFront(first, front);
      assert Concat(all) == first + Concat(front) + chunks[|chunks| - 1];
    }
  }

  ghost predicate CleanCut(s: Bytes, c: nat)
  {
    c <= |s| && !(0 < c < |s| && s[c - 1] == CR && s[c] == LF)
  }

  lemma CleanCutShift(s: Bytes, n: nat, d: nat)
    requires s != [] && n == PairSize(s) && CleanCut(s[n..], d)
    ensures CleanCut(s, n + d)
  {
    var rest := s[n..];
    if 0 < d < |rest| {
      assert s[n + d - 1] == rest[d - 1] && s[n + d] == rest[d];
    }
  }

  lemma {:induction false} PairsClean(s: Bytes, k: nat)
    requires k <= |Pairs(s)|
    ensures var c := |Concat(Pairs(s)[..k])|; CleanCut(s, c) && Concat(Pairs(s)[..k]) == s[..c]
    ensures k == |Pairs(s)| ==> Concat(Pairs(s)[..k]) == s
    decreases |s|
  {
    hide Concat, CleanCut, PairSize;
    if k == 0 {
      ConcatNothing();
      assert CleanCut(s, 0) by {
        CutAtStart(s);
      }
      assert Pairs(s)[..0] == [];
    } else {
      var n := PairSize(s);
      var rest := s[n..];
      assert Pairs(s)[..k] == [s[..n]] + Pairs(rest)[..k - 1];
      ConcatFront(s[..n], Pairs(rest)[..k - 1]);
      PairsClean(rest, k - 1);
      var d := |Concat(Pairs(rest)[..k - 1])|;
      CleanCutShift(s, n, d);
      CutInside(rest, d);
      assert s[..n] + rest[..d] == s[..n + d];
      assert s == s[..n] + rest;
    }
  }

  lemma CutAtStart(s: Bytes)
    ensures CleanCut(s, 0)
  {
  }

  lemma CutInside(s: Bytes, c: nat)
    requires CleanCut(s, c)
    ensures c <= |s|
  {
  }

  lemma {:induction false} PairsSizes(s: Bytes)
    ensures forall i :: 0 <= i < |Pairs(s)| ==> 1 <= |Pairs(s)[i]| <= READ_SIZE
  {
    if s != [] {
      PairsSizes(s[PairSize(s)..]);
    }
  }

  lemma PairsNeverOverrun(s: Bytes, events: bool, validate: Validator)
    requires Accepts(s, events, validate)
    ensures Delivers(Pairs(s), s) && !Overruns(Pairs(s))
  {
    hide Accepts, Pairs, Tail, Lines, Concat;
    var chunks := Pairs(s);
    PairsSizes(s);
    PairsClean(s, |chunks|);
    assert chunks[..|chunks|] == chunks;
    forall k | 0 <= k < |chunks| && !HasNewline(chunks[k]) ensures |Tail(Concat(chunks[..k + 1]))| <= MAX_LINE_BYTES {
      PairsClean(s, k + 1);
      var c := |Concat(chunks[..k + 1])|;
      if |Tail(s[..c])| > MAX_LINE_BYTES {
        OverrunShape(s, c, events, validate);
      }
    }
  }

  /** Chunking cannot change the outcome unless an acceptable stream has a line of exactly
      the maximal content before a carriage return; then one delivery of it is accepted and
      another refused. */
  lemma ChunkIndependentIff(s: Bytes, events: bool, validate: Validator)
    ensures ChunkIndependent(s, events, validate) <==> !(Accepts(s, events, validate) && LongReturnLine(s))
  {
    hide Accepts, LongReturnLine, Overruns;
    if Accepts(s, events, validate) && LongReturnLine(s) {
      SinglesOverrun(s);
      PairsNeverOverrun(s, events, validate);
      assert Outcome(Singles(s), events, validate) != Outcome(Pairs(s), events, validate);
    } else {
      forall a | Delivers(a, s)
        ensures Outcome(a, events, validate) == if Accepts(s, events, validate) then Some(s) else None
      {
        if Accepts(s, events, validate) {
          DeliveryNeverOverruns(a, s, events, validate);
        }
      }
    }
  }

  /** One line of the maximal content, ended by a carriage return and a newline. */
  function FullLine(): Bytes
  {
    seq(MAX_LINE_BYTES, i => 97 as byte) + [CR, LF]
  }

  lemma FullLineFrames()
    ensures Lines(FullLine()) == [FullLine()[..MAX_LINE_BYTES + 1]] && Tail(FullLine()) == []
  {
    var line := FullLine()[..MAX_LINE_BYTES + 1];
    assert FullLine() == line + [LF];
    OneLine(line);
  }

  lemma OneLine(line: Bytes)
    requires forall i :: 0 <= i < |line| ==> line[i] != LF
    ensures Lines(line + [LF]) == [line] && Tail(line + [LF]) == []
  {
    var s := line + [LF];
    assert s[|line|] == LF;
    assert LineEnd(s) == |line| && s[..|line|] == line && s[|line| + 1..] == [];
  }

  /** The exception is real: standard error made of that one line is accepted or refused by
      the way it is cut, whatever the validator. */
  lemma ChunkingMatters(validate: Validator)
    ensures Accepts(FullLine(), false, validate) && LongReturnLine(FullLine())
    ensures !ChunkIndependent(FullLine(), false, validate)
  {
    hide FullLine, Lines, Tail, ChunkIndependent, LineEnd;
    FullLineFrames();
    FullLineText();
    var raw := FullLine()[..MAX_LINE_BYTES + 1];
    assert Lines(FullLine())[0] == raw && LongReturn(raw);
    assert TakeLine(StripReturn(raw), false, validate, START) == Some(Progress(1, 0));
    assert Lines(FullLine())[1..] == [];
    ChunkIndependentIff(FullLine(), false, validate);
  }

  lemma FullLineText()
    ensures |FullLine()| == MAX_LINE_BYTES + 2 && FullLine()[MAX_LINE_BYTES] == CR
  {
  }

  lemma DeliveryNeverOverruns(chunks: seq<Bytes>, s: Bytes, events: bool, validate: Validator)
    requires Accepts(s, events, validate) && !LongReturnLine(s) && Delivers(chunks, s)
    ensures !Overruns(chunks)
  {
    hide Accepts, LongReturnLine, Tail, Lines, Concat;
    forall k | 0 <= k < |chunks| && !HasNewline(chunks[k]) ensures |Tail(Concat(chunks[..k + 1]))| <= MAX_LINE_BYTES {
      ConcatSplit(chunks, k + 1);
      var rest :| Concat(chunks) == Concat(chunks[..k + 1]) + rest;
      var c := |Concat(chunks[..k + 1])|;
      assert s[..c] == Concat(chunks[..k + 1]);
      if |Tail(s[..c])| > MAX_LINE_BYTES {
        OverrunShape(s, c, events, validate);
      }
    }
  }

  // ---------- lines and limits, written out ----------

  /** A stream is its lines, each ended by a newline, and what follows the last one. */
  lemma LinesMean(line: Bytes, rest: Bytes)
    requires 10 !in line
    ensures Lines(line) == [] && Tail(line) == line
    ensures Lines(line + [10] + rest) == [line] + Lines(rest) && Tail(line + [10] + rest) == Tail(rest)
  {
    var s := line + [10] + rest;
    LineEndIs(line, rest);
    assert s[..|line|] == line && s[|line| + 1..] == rest;
    NoNewline(line);
  }

  lemma NoNewline(line: Bytes)
    ensures HasNewline(line) ==> 10 in line
  {
  }

  lemma LineEndIs(line: Bytes, rest: Bytes)
    requires 10 !in line
    ensures LineEnd(line + [10] + rest) == |line|
  {
    var s := line + [10] + rest;
    var n := LineEnd(s);
    assert s[|line|] == LF && forall i :: 0 <= i < |line| ==> s[i] == line[i];
  }

  /** The byte count, the line count and the length of a line without its carriage return. */
  ghost predicate Fits(s: Bytes)
  {
    var lines, tail := Lines(s), Tail(s);
    && |s| <= 1_048_576 && |lines| + (if tail == [] then 0 else 1) <= 4096 && |tail| <= 131_072
    && forall i :: 0 <= i < |lines| ==>
         var line := lines[i];
         if line != [] && line[|line| - 1] == 13 then 1 < |line| <= 131_073 else 0 < |line| <= 131_072
  }

  /** Standard error is acceptable exactly when it fits: whatever its lines say. */
  lemma AcceptsMeans(s: Bytes, validate: Validator)
    ensures Accepts(s, false, validate) <==> Fits(s)
  {
    hide Lines, Tail, TakeLines;
    CountLines(Lines(s), validate, START);
  }

  lemma {:induction false} CountLines(lines: seq<Bytes>, validate: Validator, p: Progress)
    requires p.count <= MAX_EVENTS
    ensures TakeLines(lines, false, validate, p) ==
            if p.count + |lines| <= MAX_EVENTS && forall i :: 0 <= i < |lines| ==> 0 < |StripReturn(lines[i])| <= MAX_LINE_BYTES
            then Some(Progress(p.count + |lines|, p.state)) else None
  {
    hide StripReturn;
    if lines != [] {
      var rest := lines[1..];
      assert forall i :: 1 <= i < |lines| ==> lines[i] == rest[i - 1];
      assert forall i :: 0 <= i < |rest| ==> rest[i] == lines[i + 1];
      var next := TakeLine(StripReturn(lines[0]), false, validate, p);
      if next.Some? {
        CountLines(rest, validate, next.value);
      }
    }
  }

  /** The reader returns the whole stream exactly when it is acceptable and, at every chunk
      without a newline, at most 131072 bytes were pending. */
  lemma OutcomeMeans(chunks: seq<Bytes>, events: bool, validate: Validator)
    ensures Outcome(chunks, events, validate) ==
            if Accepts(Concat(chunks), events, validate)
               && forall k :: 0 <= k < |chunks| && 10 !in chunks[k] ==> |Tail(Concat(chunks[..k + 1]))| <= 131_072
            then Some(Concat(chunks)) else None
  {
    hide Accepts, Tail, Concat;
    forall k | 0 <= k < |chunks| ensures HasNewline(chunks[k]) <==> 10 in chunks[k] {
      NoNewline(chunks[k]);
      NewlineInside(chunks[k]);
    }
  }

  lemma NewlineInside(line: Bytes)
    ensures 10 in line ==> HasNewline(line)
  {
    if 10 in line {
      var i :| 0 <= i < |line| && line[i] == 10;
      assert line[i] == LF;
    }
  }
}
