/** Validation of one event line and the grammar of an accepted event stream. */
module CodexEvents {
  import opened Order
  import Utf8
  import opened Decimals
  import opened JsonText
  import opened JsonWalk
  import opened CodexStream

  const MAX_INTEGER_DIGITS := 19
  const MAX_ID_CHARS := 128
  const MAX_TOKEN_COUNT := 0x7FFF_FFFF_FFFF_FFFF

  /** `value.get(key)` on a dict. */
  function Get(members: seq<Member>, key: string): Option<Json>
  {
    if members == [] then None
    else if members[0].key == key then Some(members[0].value)
    else Get(members[1..], key)
  }

  function Keys(members: seq<Member>): (r: set<string>)
    ensures forall k :: k in r <==> exists i :: 0 <= i < |members| && members[i].key == k
  {
    set i | 0 <= i < |members| :: members[i].key
  }

  predicate IsId(v: Json)
  {
    v.Str? && 1 <= |v.s| <= MAX_ID_CHARS
  }

  // ---------- decoding a line ----------

  /** The loop of `_codex_event_object`: the first value of a key stays, and only a repeated
      textual `id` is tolerated. */
  function FoldPairs(pairs: seq<Member>): Option<(seq<Member>, bool)>
  {
    if pairs == [] then Some(([], false))
    else
      match FoldPairs(pairs[..|pairs| - 1])
      case None => None
      case Some((value, duplicate)) =>
        var m := pairs[|pairs| - 1];
        match Get(value, m.key)
        case None => Some((Insert(value, m), duplicate))
        case Some(first) => if m.key == "id" && IsId(first) && IsId(m.value) then Some((value, true)) else None
  }

  function EventObject(pairs: seq<Member>): Option<seq<Member>>
  {
    match FoldPairs(pairs)
    case None => None
    case Some((value, duplicate)) =>
      if duplicate && Get(value, "type") != Some(Str("web_search")) then None else Some(value)
  }

  /** `json.loads` with the event hooks: bounded integers, no non-finite constant. */
  function LoadEvent(v: Json, floats: FloatReader): Option<Json>
  {
    match v
    case Int(n) => if |Digits(if n < 0 then -n else n)| > MAX_INTEGER_DIGITS then None else Some(v)
    case Float(d) => (match floats(d) case None => None case Some(r) => Some(Float(r)))
    case Arr(items) => (match LoadEventItems(items, floats) case None => None case Some(vs) => Some(Arr(vs)))
    case Obj(pairs) =>
      (match LoadEventPairs(pairs, floats)
       case None => None
       case Some(loaded) => match EventObject(loaded) case None => None case Some(ms) => Some(Obj(ms)))
    case _ => Some(v)
  }

  function LoadEventItems(items: seq<Json>, floats: FloatReader): Option<seq<Json>>
  {
    if items == [] then Some([])
    else
      var v, vs := LoadEvent(items[0], floats), LoadEventItems(items[1..], floats);
      if v.None? || vs.None? then None else Some([v.value] + vs.value)
  }

  function LoadEventPairs(pairs: seq<Member>, floats: FloatReader): Option<seq<Member>>
  {
    if pairs == [] then Some([])
    else
      var v, vs := LoadEvent(pairs[0].value, floats), LoadEventPairs(pairs[1..], floats);
      if v.None? || vs.None? then None else Some([Member(pairs[0].key, v.value)] + vs.value)
  }

  /** `_bounded_json` with the event hooks. */
  function EventValue(line: Bytes, floats: FloatReader): Option<Json>
  {
    if line == [] || |line| > MAX_FRAME_BYTES then None
    else
      match Utf8.Decode(line)
      case None => None
      case Some(text) =>
        match ParseText(text)
        case None => None
        case Some(tree) =>
          match LoadEvent(tree, floats)
          case None => None
          case Some(v) => if Acceptable(v) then Some(v) else None
  }

  // ---------- the four kinds of event ----------

  predicate HasType(v: Json, name: string)
  {
    v.Obj? && Get(v.members, "type") == Some(Str(name))
  }

  predicate ThreadStarted(v: Json)
  {
    && HasType(v, "thread.started")
    && Keys(v.members) == {"type", "thread_id"}
    && var id := Get(v.members, "thread_id"); id.Some? && IsId(id.value)
  }

  predicate TurnStarted(v: Json)
  {
    HasType(v, "turn.started") && Keys(v.members) == {"type"}
  }

  predicate WebSearchItem(v: Json)
  {
    && (HasType(v, "item.started") || HasType(v, "item.updated") || HasType(v, "item.completed"))
    && Keys(v.members) == {"type", "item"}
    && var item := Get(v.members, "item");
    && item.Some? && HasType(item.value, "web_search")
    && var id := Get(item.value.members, "id"); id.Some? && IsId(id.value)
  }

  predicate TextItem(v: Json)
  {
    && HasType(v, "item.completed")
    && Keys(v.members) == {"type", "item"}
    && var item := Get(v.members, "item");
    && item.Some? && item.value.Obj?
    && Keys(item.value.members) == {"id", "type", "text"}
    && (HasType(item.value, "agent_message") || HasType(item.value, "reasoning"))
    && var id, text := Get(item.value.members, "id"), Get(item.value.members, "text");
    && id.Some? && IsId(id.value)
    && text.Some? && text.value.Str? && |text.value.s| <= MAX_JSON_STRING_CHARS
  }

  predicate AllowedItem(v: Json, webSearch: bool)
  {
    (webSearch && WebSearchItem(v)) || TextItem(v)
  }

  predicate IsTokenCount(v: Json)
  {
    v.Int? && 0 <= v.n <= MAX_TOKEN_COUNT
  }

  predicate TurnCompleted(v: Json)
  {
    && HasType(v, "turn.completed")
    && Keys(v.members) == {"type", "usage"}
    && var usage := Get(v.members, "usage");
    && usage.Some? && usage.value.Obj?
    && {"input_tokens", "cached_input_tokens", "output_tokens"} <= Keys(usage.value.members)
    && Keys(usage.value.members) <= {"input_tokens", "cached_input_tokens", "output_tokens", "reasoning_output_tokens"}
    && forall i :: 0 <= i < |usage.value.members| ==> IsTokenCount(usage.value.members[i].value)
  }

  /** `_validate_event`: the next state, or None for a violation. */
  function ValidateEvent(line: Bytes, state: int, webSearch: bool, floats: FloatReader): Option<int>
  {
    match EventValue(line, floats)
    case None => None
    case Some(v) =>
      if !v.Obj? then None
      else if state == 0 then (if ThreadStarted(v) then Some(1) else None)
      else if state == 1 then (if TurnStarted(v) then Some(2) else None)
      else if state != 2 then None
      else if webSearch && WebSearchItem(v) then Some(2)
      else if HasType(v, "item.completed") then (if TextItem(v) then Some(2) else None)
      else if HasType(v, "turn.completed") then (if TurnCompleted(v) then Some(3) else None)
      else None
  }

  function EventValidator(webSearch: bool, floats: FloatReader): Validator
  {
    (line: Bytes, state: int) => ValidateEvent(line, state, webSearch, floats)
  }

  // ---------- a repeated key cannot hide ----------

  lemma {:induction false} GetInsert(members: seq<Member>, m: Member, key: string)
    requires Get(members, m.key) == None
    ensures Get(Insert(members, m), key) == if key == m.key then Some(m.value) else Get(members, key)
  {
    hide TextLess;
    if members != [] {
      if TextLess(members[0].key, m.key) {
        GetInsert(members[1..], m, key);
        var rest := Insert(members[1..], m);
        assert ([members[0]] + rest)[1..] == rest;
      } else {
        assert ([m] + members)[1..] == members;
      }
    }
  }

  ghost predicate DistinctKeys(pairs: seq<Member>)
  {
    forall i, j :: 0 <= i < j < |pairs| ==> pairs[i].key != pairs[j].key
  }

  /** The value of a key in source order, the first one winning. */
  lemma {:induction false} GetLast(pairs: seq<Member>, m: Member, key: string)
    ensures Get(pairs + [m], key) ==
      if Get(pairs, key).Some? then Get(pairs, key) else if key == m.key then Some(m.value) else None
  {
    if pairs == [] {
      assert ([] + [m])[1..] == [];
    } else {
      assert (pairs + [m])[1..] == pairs[1..] + [m];
      GetLast(pairs[1..], m, key);
    }
  }

  lemma {:induction false} GetNone(pairs: seq<Member>, key: string)
    ensures Get(pairs, key) == None <==> forall i :: 0 <= i < |pairs| ==> pairs[i].key != key
  {
    if pairs != [] {
      GetNone(pairs[1..], key);
      if Get(pairs, key) == None {
        forall i | 0 <= i < |pairs| ensures pairs[i].key != key {
          if i > 0 {
            assert pairs[i] == pairs[1..][i - 1];
          }
        }
      }
      assert forall i :: 0 <= i < |pairs[1..]| ==> pairs[1..][i] == pairs[i + 1];
    }
  }

  lemma {:induction false} FoldPairsMeans(pairs: seq<Member>)
    requires FoldPairs(pairs).Some?
    ensures forall key :: Get(FoldPairs(pairs).value.0, key) == Get(pairs, key)
    ensures !FoldPairs(pairs).value.1 ==> DistinctKeys(pairs)
  {
    if pairs != [] {
      var front, m := pairs[..|pairs| - 1], pairs[|pairs| - 1];
      FoldPairsMeans(front);
      assert pairs == front + [m];
      var value := FoldPairs(front).value.0;
      GetNone(front, m.key);
      forall key ensures Get(FoldPairs(pairs).value.0, key) == Get(pairs, key) {
        GetLast(front, m, key);
        if Get(value, m.key) == None {
          GetInsert(value, m, key);
        }
      }
    }
  }

  /** An accepted object answers every key with its first value, and its keys are pairwise
      distinct in the text unless it is a web search with a repeated id. */
  lemma EventObjectMeans(pairs: seq<Member>)
    requires EventObject(pairs).Some?
    ensures forall key :: Get(EventObject(pairs).value, key) == Get(pairs, key)
    ensures DistinctKeys(pairs) || Get(pairs, "type") == Some(Str("web_search"))
  {
    hide FoldPairs, Get;
    FoldPairsMeans(pairs);
  }

  // ---------- the grammar ----------

  /** The lines the reader validates: terminated lines without a trailing carriage return,
      then the unterminated rest, if any. */
  function EventLines(s: Bytes): seq<Bytes>
  {
    StripAll(Lines(s)) + if Tail(s) == [] then [] else [Tail(s)]
  }

  function StripAll(lines: seq<Bytes>): seq<Bytes>
  {
    if lines == [] then [] else [StripReturn(lines[0])] + StripAll(lines[1..])
  }

  function Run(lines: seq<Bytes>, validate: Validator, p: Progress): Option<Progress>
  {
    if lines == [] then Some(p)
    else
      match TakeLine(lines[0], true, validate, p)
      case None => None
      case Some(next) => Run(lines[1..], validate, next)
  }

  lemma {:induction false} RunStripped(lines: seq<Bytes>, validate: Validator, p: Progress)
    ensures Run(StripAll(lines), validate, p) == TakeLines(lines, true, validate, p)
  {
    if lines != [] {
      assert StripAll(lines)[1..] == StripAll(lines[1..]);
      match TakeLine(StripReturn(lines[0]), true, validate, p)
      case None =>
      case Some(next) => RunStripped(lines[1..], validate, next);
    }
  }

  lemma {:induction false} RunConcat(a: seq<Bytes>, b: seq<Bytes>, validate: Validator, p: Progress)
    ensures Run(a + b, validate, p) == match Run(a, validate, p) case None => None case Some(q) => Run(b, validate, q)
  {
    hide TakeLine;
    if a == [] {
      assert a + b == b;
    } else {
      assert (a + b)[1..] == a[1..] + b;
      match TakeLine(a[0], true, validate, p)
      case None =>
      case Some(next) => RunConcat(a[1..], b, validate, next);
    }
  }

  lemma AcceptsByRun(s: Bytes, validate: Validator)
    ensures Accepts(s, true, validate) <==>
      |s| <= MAX_STREAM_BYTES && Run(EventLines(s), validate, START).Some? && Run(EventLines(s), validate, START).value.state == 3
  {
    hide TakeLine, TakeLines, Lines, Tail;
    RunStripped(Lines(s), validate, START);
    var tail := if Tail(s) == [] then [] else [Tail(s)];
    RunConcat(StripAll(Lines(s)), tail, validate, START);
    if TakeLines(Lines(s), true, validate, START).Some? {
      RunTail(Tail(s), validate, TakeLines(Lines(s), true, validate, START).value);
    }
  }

  lemma RunTail(tail: Bytes, validate: Validator, p: Progress)
    ensures Run(if tail == [] then [] else [tail], validate, p) == TakeTail(tail, true, validate, p)
  {
    hide TakeLine;
    if tail != [] {
      assert [tail][1..] == [];
      match TakeLine(tail, true, validate, p)
      case None =>
      case Some(next) => assert Run([], validate, next) == Some(next);
    }
  }

  predicate LineFits(line: Bytes)
  {
    1 <= |line| <= MAX_LINE_BYTES
  }

  predicate Is(line: Bytes, floats: FloatReader, event: Json -> bool)
  {
    EventValue(line, floats).Some? && event(EventValue(line, floats).value)
  }

  /** thread.started, turn.started, any number of allowed items, turn.completed. */
  ghost predicate Spells(lines: seq<Bytes>, webSearch: bool, floats: FloatReader)
  {
    && |lines| >= 3
    && Is(lines[0], floats, ThreadStarted)
    && Is(lines[1], floats, TurnStarted)
    && SpellsTurn(lines[2..], webSearch, floats)
  }

  ghost predicate SpellsTurn(lines: seq<Bytes>, webSearch: bool, floats: FloatReader)
  {
    && lines != []
    && (forall i :: 0 <= i < |lines| - 1 ==> Is(lines[i], floats, v => AllowedItem(v, webSearch)))
    && Is(lines[|lines| - 1], floats, TurnCompleted)
  }

  ghost predicate AllFit(lines: seq<Bytes>)
  {
    forall i :: 0 <= i < |lines| ==> LineFits(lines[i])
  }

  lemma TypesExclude(v: Json)
    ensures HasType(v, "item.completed") ==> !TurnCompleted(v)
    ensures WebSearchItem(v) ==> !TurnCompleted(v)
    ensures TextItem(v) ==> HasType(v, "item.completed") && v.Obj?
  {
    assert "item.completed"[0] != "turn.completed"[0];
    assert "item.started"[0] != "turn.completed"[0];
    assert "item.updated"[0] != "turn.completed"[0];
  }

  /** The transitions out of the turn state. */
  lemma TurnStep(line: Bytes, webSearch: bool, floats: FloatReader)
    ensures ValidateEvent(line, 2, webSearch, floats) == Some(2) <==> Is(line, floats, v => AllowedItem(v, webSearch))
    ensures ValidateEvent(line, 2, webSearch, floats) == Some(3) <==> Is(line, floats, TurnCompleted)
    ensures ValidateEvent(line, 2, webSearch, floats) in {None, Some(2), Some(3)}
  {
    hide EventValue, HasType, TurnCompleted, TextItem, WebSearchItem;
    if EventValue(line, floats).Some? {
      var v := EventValue(line, floats).value;
      TypesExclude(v);
      CompletedShape(v);
    }
  }

  lemma CompletedShape(v: Json)
    ensures TurnCompleted(v) ==> HasType(v, "turn.completed") && v.Obj?
    ensures WebSearchItem(v) ==> v.Obj?
    ensures HasType(v, "item.completed") ==> !HasType(v, "turn.completed")
  {
    assert "item.completed"[0] != "turn.completed"[0];
  }

  lemma NothingAfterTheEnd(lines: seq<Bytes>, webSearch: bool, floats: FloatReader, p: Progress)
    requires p.state == 3 && lines != []
    ensures Run(lines, EventValidator(webSearch, floats), p) == None
  {
    hide EventValue;
  }

  lemma {:induction false} TurnGrammar(lines: seq<Bytes>, webSearch: bool, floats: FloatReader, p: Progress)
    requires p.state == 2
    ensures var end := Run(lines, EventValidator(webSearch, floats), p);
      (end.Some? && end.value.state == 3) <==>
      AllFit(lines) && p.count + |lines| <= MAX_EVENTS && SpellsTurn(lines, webSearch, floats)
  {
    hide ValidateEvent, Is;
    if lines != [] {
      var line, rest := lines[0], lines[1..];
      var validate := EventValidator(webSearch, floats);
      TurnStep(line, webSearch, floats);
      assert validate(line, 2) == ValidateEvent(line, 2, webSearch, floats);
      assert forall i :: 0 <= i < |rest| ==> rest[i] == lines[i + 1];
      assert AllFit(lines) <==> LineFits(line) && AllFit(rest) by {
        assert forall i :: 1 <= i < |lines| ==> lines[i] == rest[i - 1];
      }
      if rest != [] {
        SpellsTurnStep(lines, webSearch, floats);
      }
      var next := TakeLine(line, true, validate, p);
      if next.Some? {
        if next.value.state == 2 {
          TurnGrammar(rest, webSearch, floats, next.value);
        } else if rest != [] {
          NothingAfterTheEnd(rest, webSearch, floats, next.value);
          CompletedIsNoItem(line, webSearch, floats);
        }
      }
    }
  }

  lemma CompletedIsNoItem(line: Bytes, webSearch: bool, floats: FloatReader)
    ensures Is(line, floats, TurnCompleted) ==> !Is(line, floats, v => AllowedItem(v, webSearch))
  {
    hide EventValue, TurnCompleted, TextItem, WebSearchItem, HasType;
    if EventValue(line, floats).Some? {
      TypesExclude(EventValue(line, floats).value);
    }
  }

  lemma SpellsTurnStep(lines: seq<Bytes>, webSearch: bool, floats: FloatReader)
    requires |lines| >= 2
    ensures SpellsTurn(lines, webSearch, floats) <==>
      Is(lines[0], floats, v => AllowedItem(v, webSearch)) && SpellsTurn(lines[1..], webSearch, floats)
  {
    hide Is;
    var rest := lines[1..];
    assert rest[|rest| - 1] == lines[|lines| - 1];
    assert forall i :: 0 <= i < |rest| ==> rest[i] == lines[i + 1];
    if Is(lines[0], floats, v => AllowedItem(v, webSearch)) && SpellsTurn(rest, webSearch, floats) {
      forall i | 0 <= i < |lines| - 1 ensures Is(lines[i], floats, v => AllowedItem(v, webSearch)) {
        if i > 0 {
          assert lines[i] == rest[i - 1];
        }
      }
    }
    if SpellsTurn(lines, webSearch, floats) {
      forall i | 0 <= i < |rest| - 1 ensures Is(rest[i], floats, v => AllowedItem(v, webSearch)) {
        assert rest[i] == lines[i + 1];
      }
    }
  }

  lemma FirstStep(line: Bytes, webSearch: bool, floats: FloatReader)
    ensures ValidateEvent(line, 0, webSearch, floats) == if Is(line, floats, ThreadStarted) then Some(1) else None
    ensures ValidateEvent(line, 1, webSearch, floats) == if Is(line, floats, TurnStarted) then Some(2) else None
  {
    hide EventValue, Get, Keys;
  }

  /** The reader accepts an event stream exactly when it fits the limits and its lines spell
      one complete turn. */
  lemma AcceptedEventStreams(s: Bytes, webSearch: bool, floats: FloatReader)
    ensures Accepts(s, true, EventValidator(webSearch, floats)) <==>
      var lines := EventLines(s);
      && |s| <= 1_048_576 && |lines| <= 4096 && (forall i :: 0 <= i < |lines| ==> 1 <= |lines[i]| <= 131_072)
      && Spells(lines, webSearch, floats)
  {
    hide EventLines, ValidateEvent, Is, SpellsTurn, Accepts;
    var validate := EventValidator(webSearch, floats);
    var lines := EventLines(s);
    AcceptsByRun(s, validate);
    if |lines| >= 1 {
      FirstStep(lines[0], webSearch, floats);
      assert validate(lines[0], 0) == ValidateEvent(lines[0], 0, webSearch, floats);
    }
    if |lines| >= 2 {
      FirstStep(lines[1], webSearch, floats);
      assert validate(lines[1], 1) == ValidateEvent(lines[1], 1, webSearch, floats);
      assert lines[1..][0] == lines[1] && lines[1..][1..] == lines[2..];
      var second := Progress(2, 2);
      TurnGrammar(lines[2..], webSearch, floats, second);
      assert AllFit(lines) <==> LineFits(lines[0]) && LineFits(lines[1]) && AllFit(lines[2..]) by {
        assert forall i :: 2 <= i < |lines| ==> lines[i] == lines[2..][i - 2];
      }
      TurnNeedsALine(lines[2..], webSearch, floats);
    }
  }

  lemma TurnNeedsALine(lines: seq<Bytes>, webSearch: bool, floats: FloatReader)
    ensures SpellsTurn(lines, webSearch, floats) ==> lines != []
  {
  }

  // ---------- every accepted stream can be cut badly ----------

  const SPACE: Utf8.byte := 32

  function Blanks(k: nat): Bytes
  {
    seq(k, i => SPACE)
  }

  /** The stream with its first line filled up with spaces in front, and ended by a carriage
      return and a newline. */
  function Padded(s: Bytes): Bytes
    requires HasNewline(s) && |StripReturn(s[..LineEnd(s)])| <= MAX_LINE_BYTES
  {
    var first := StripReturn(s[..LineEnd(s)]);
    Blanks(MAX_LINE_BYTES - |first|) + first + [CR, LF] + s[LineEnd(s) + 1..]
  }

  lemma {:induction false} BlanksDecode(k: nat, line: Bytes)
    requires Utf8.Decode(line).Some?
    ensures var text := Utf8.Decode(Blanks(k) + line);
            text.Some? && SkipSpace(text.value) == SkipSpace(Utf8.Decode(line).value)
  {
    hide Utf8.Decode, SkipSpace;
    if k == 0 {
      assert Blanks(0) + line == line;
    } else {
      BlanksDecode(k - 1, line);
      var more := Blanks(k - 1) + line;
      assert Blanks(k) + line == [SPACE] + more;
      OneBlank(more);
    }
  }

  lemma OneBlank(line: Bytes)
    requires Utf8.Decode(line).Some?
    ensures Utf8.Decode([SPACE] + line) == Some(" " + Utf8.Decode(line).value)
    ensures SkipSpace(" " + Utf8.Decode(line).value) == SkipSpace(Utf8.Decode(line).value)
  {
    assert ([SPACE] + line)[1..] == line;
    assert (" " + Utf8.Decode(line).value)[1..] == Utf8.Decode(line).value;
  }

  /** Spaces in front of a line do not change what it says. */
  lemma BlanksAreSkipped(k: nat, line: Bytes, floats: FloatReader)
    requires EventValue(line, floats).Some? && k + |line| <= MAX_LINE_BYTES
    ensures EventValue(Blanks(k) + line, floats) == EventValue(line, floats)
  {
    hide SkipSpace, ParseValue;
    BlanksDecode(k, line);
  }

  lemma PaddedFrames(s: Bytes)
    requires HasNewline(s) && |StripReturn(s[..LineEnd(s)])| <= MAX_LINE_BYTES
    ensures var first, t := StripReturn(s[..LineEnd(s)]), Padded(s);
            var line := Blanks(MAX_LINE_BYTES - |first|) + first;
            && Lines(t) == [line + [CR]] + Lines(s[LineEnd(s) + 1..]) && Tail(t) == Tail(s)
            && |line| == MAX_LINE_BYTES && |t| <= |s| + MAX_LINE_BYTES + 1
  {
    hide Lines, Tail, LineEnd, StripReturn;
    var first, rest := StripReturn(s[..LineEnd(s)]), s[LineEnd(s) + 1..];
    var line := Blanks(MAX_LINE_BYTES - |first|) + first;
    FirstLineOf(s);
    NoNewlineBefore(s);
    NoNewlineIn(line + [CR]);
    assert Padded(s) == (line + [CR]) + [LF] + rest by {
      assert [CR] + [LF] == [CR, LF];
    }
    SplitFirst(line + [CR], rest);
  }

  lemma NoNewlineBefore(s: Bytes)
    ensures var first := StripReturn(s[..LineEnd(s)]);
            |first| <= LineEnd(s) && forall i :: 0 <= i < |first| ==> first[i] != LF
  {
  }

  lemma NoNewlineIn(line: Bytes)
    requires forall i :: 0 <= i < |line| ==> line[i] != LF
    ensures !HasNewline(line)
  {
  }

  lemma FirstLineTaken(s: Bytes, validate: Validator)
    requires HasNewline(s) && Accepts(s, true, validate)
    ensures var first := StripReturn(s[..LineEnd(s)]);
            |first| <= MAX_LINE_BYTES && first != [] && validate(first, 0).Some?
            && TakeLines(Lines(s), true, validate, START) ==
               TakeLines(Lines(s[LineEnd(s) + 1..]), true, validate, Progress(1, validate(first, 0).value))
  {
    hide Lines, Tail, LineEnd, StripReturn, TakeTail;
    FirstLineOf(s);
    assert Lines(s)[1..] == Lines(s[LineEnd(s) + 1..]);
  }

  lemma FirstLinePadded(line: Bytes, rest: seq<Bytes>, validate: Validator)
    requires |line| == MAX_LINE_BYTES && validate(line, 0).Some?
    ensures TakeLines([line + [CR]] + rest, true, validate, START) == TakeLines(rest, true, validate, Progress(1, validate(line, 0).value))
  {
    var lines := [line + [CR]] + rest;
    assert lines[1..] == rest && StripReturn(lines[0]) == line;
  }

  lemma AcceptedHasNewline(s: Bytes, webSearch: bool, floats: FloatReader)
    requires Accepts(s, true, EventValidator(webSearch, floats))
    ensures HasNewline(s)
  {
    hide Accepts, SpellsTurn, Is;
    AcceptedEventStreams(s, webSearch, floats);
    assert !HasNewline(s) ==> |EventLines(s)| <= 1;
  }

  /** Of every accepted event stream that leaves room for one more line, padding the first
      line makes an accepted event stream whose outcome depends on where it is cut. */
  lemma PaddedStreamDepends(s: Bytes, webSearch: bool, floats: FloatReader)
    requires var v := EventValidator(webSearch, floats);
             Accepts(s, true, v) && |s| + MAX_LINE_BYTES < MAX_STREAM_BYTES
    ensures HasNewline(s) && |StripReturn(s[..LineEnd(s)])| <= MAX_LINE_BYTES
    ensures Accepts(Padded(s), true, EventValidator(webSearch, floats))
    ensures !ChunkIndependent(Padded(s), true, EventValidator(webSearch, floats))
  {
    hide Lines, Tail, TakeLines, Padded, EventValue, ChunkIndependent, StripReturn;
    var validate := EventValidator(webSearch, floats);
    AcceptedHasNewline(s, webSearch, floats);
    FirstLineTaken(s, validate);
    PaddedFrames(s);
    var first, rest := StripReturn(s[..LineEnd(s)]), Lines(s[LineEnd(s) + 1..]);
    var line := Blanks(MAX_LINE_BYTES - |first|) + first;
    BlanksAreSkipped(MAX_LINE_BYTES - |first|, first, floats);
    assert validate(line, 0) == ValidateEvent(line, 0, webSearch, floats) == validate(first, 0);
    FirstLinePadded(line, rest, validate);
    assert Lines(Padded(s))[0] == line + [CR] && LongReturn(line + [CR]);
    ChunkIndependentIff(Padded(s), true, validate);
  }

  // ---------- lines and events, written out ----------

  lemma GetMeans(members: seq<Member>, key: string, v: Json)
    ensures Get(members, key) == Some(v) <==>
            exists i :: 0 <= i < |members| && members[i].key == key && members[i].value == v
                        && forall j :: 0 <= j < i ==> members[j].key != key
  {
    if Get(members, key) == Some(v) {
      var i := FirstIndex(members, key);
      assert members[i].value == v;
    } else if exists i :: 0 <= i < |members| && members[i].key == key && forall j :: 0 <= j < i ==> members[j].key != key {
      var i :| 0 <= i < |members| && members[i].key == key && forall j :: 0 <= j < i ==> members[j].key != key;
      GetNone(members, key);
      var k := FirstIndex(members, key);
    }
  }

  lemma {:induction false} FirstIndex(members: seq<Member>, key: string) returns (i: nat)
    requires Get(members, key).Some?
    ensures i < |members| && members[i].key == key && Get(members, key) == Some(members[i].value)
    ensures forall j :: 0 <= j < i ==> members[j].key != key
  {
    if members[0].key == key {
      i := 0;
    } else {
      i := FirstIndex(members[1..], key);
      i := i + 1;
      assert forall j :: 1 <= j < i ==> members[j] == members[1..][j - 1];
    }
  }

  /** An identifier is a text of 1 to 128 characters, a token count a 63-bit number. */
  lemma FieldsMean(v: Json)
    ensures IsId(v) <==> v.Str? && 1 <= |v.s| <= 128
    ensures IsTokenCount(v) <==> v.Int? && 0 <= v.n <= 0x7FFF_FFFF_FFFF_FFFF
  {
  }

  /** The events: which keys each has, and what they hold. */
  lemma EventsMean(members: seq<Member>)
    ensures var v, type_ := Obj(members), Get(members, "type");
            && (ThreadStarted(v) <==>
                  && type_ == Some(Str("thread.started")) && Keys(members) == {"type", "thread_id"}
                  && exists id :: Get(members, "thread_id") == Some(id) && IsId(id))
            && (TurnStarted(v) <==> type_ == Some(Str("turn.started")) && Keys(members) == {"type"})
            && (WebSearchItem(v) <==>
                  && type_ in {Some(Str("item.started")), Some(Str("item.updated")), Some(Str("item.completed"))}
                  && Keys(members) == {"type", "item"}
                  && exists item: seq<Member>, id :: Get(members, "item") == Some(Obj(item)) && Get(item, "type") == Some(Str("web_search"))
                                        && Get(item, "id") == Some(id) && IsId(id))
            && (TextItem(v) <==>
                  && type_ == Some(Str("item.completed")) && Keys(members) == {"type", "item"}
                  && exists item: seq<Member>, id, text :: Get(members, "item") == Some(Obj(item)) && Keys(item) == {"id", "type", "text"}
                       && Get(item, "type") in {Some(Str("agent_message")), Some(Str("reasoning"))}
                       && Get(item, "id") == Some(id) && IsId(id) && Get(item, "text") == Some(Str(text)) && |text| <= 40000)
  {
    hide Get, Keys, IsId;
    var v := Obj(members);
    if TextItem(v) {
      var item := Get(members, "item").value.members;
      assert Get(members, "item") == Some(Obj(item)) && Get(item, "text") == Some(Str(Get(item, "text").value.s));
    }
    if WebSearchItem(v) {
      var item := Get(members, "item").value.members;
      assert Get(members, "item") == Some(Obj(item));
    }
  }

  /** The last event: three counts and perhaps a fourth, each a token count. */
  lemma CompletedMeans(members: seq<Member>)
    ensures TurnCompleted(Obj(members)) <==>
            && Get(members, "type") == Some(Str("turn.completed")) && Keys(members) == {"type", "usage"}
            && exists usage: seq<Member> :: Get(members, "usage") == Some(Obj(usage))
                 && (Keys(usage) == {"input_tokens", "cached_input_tokens", "output_tokens"}
                     || Keys(usage) == {"input_tokens", "cached_input_tokens", "output_tokens", "reasoning_output_tokens"})
                 && forall i :: 0 <= i < |usage| ==> IsTokenCount(usage[i].value)
  {
    hide Get, Keys, IsTokenCount;
    if TurnCompleted(Obj(members)) {
      var usage := Get(members, "usage").value.members;
      FourthCount(Keys(usage));
      assert Get(members, "usage") == Some(Obj(usage));
    }
  }

  lemma FourthCount(keys: set<string>)
    requires {"input_tokens", "cached_input_tokens", "output_tokens"} <= keys
    requires keys <= {"input_tokens", "cached_input_tokens", "output_tokens", "reasoning_output_tokens"}
    ensures keys == {"input_tokens", "cached_input_tokens", "output_tokens"}
            || keys == {"input_tokens", "cached_input_tokens", "output_tokens", "reasoning_output_tokens"}
  {
    if "reasoning_output_tokens" in keys {
      assert keys == {"input_tokens", "cached_input_tokens", "output_tokens", "reasoning_output_tokens"};
    } else {
      assert keys == {"input_tokens", "cached_input_tokens", "output_tokens"};
    }
  }

  /** Integers of at most nineteen digits are read. */
  lemma IntegersRead(n: int, floats: FloatReader)
    ensures LoadEvent(Int(n), floats) ==
            if -10_000_000_000_000_000_000 < n < 10_000_000_000_000_000_000 then Some(Int(n)) else None
  {
    hide Digits;
    var m := if n < 0 then -n else n;
    NineteenDigits();
    if m < TenTo(19) {
      DigitsFit(m, 19);
    } else {
      DigitsShape(m);
      ValueBelow(Digits(m));
      if |Digits(m)| <= 19 {
        TenToGrows(|Digits(m)|, 19);
      }
    }
  }

  /** The lines of an event stream: those that a newline ends, without a carriage return before
      it, and what follows the last one, if anything does. */
  lemma EventLinesMean(line: Bytes, rest: Bytes)
    requires 10 !in line
    ensures EventLines([]) == [] && (line != [] ==> EventLines(line) == [line])
    ensures EventLines(line + [10] + rest) ==
            [if line != [] && line[|line| - 1] == 13 then line[..|line| - 1] else line] + EventLines(rest)
  {
    hide Lines, Tail;
    LinesMean(line, rest);
    LinesMean([], []);
    assert StripAll([]) == [];
    var all := [line] + Lines(rest);
    assert all[0] == line && all[1..] == Lines(rest);
    assert StripAll(all) == [StripReturn(line)] + StripAll(Lines(rest));
  }

  /** Every repeated key is `id`, with identifiers for values. */
  ghost predicate OnlyIdsRepeat(pairs: seq<Member>)
  {
    forall i, j :: 0 <= i < j < |pairs| && pairs[i].key == pairs[j].key ==>
      pairs[i].key == "id" && IsId(pairs[i].value) && IsId(pairs[j].value)
  }

  lemma RepeatsSnoc(pairs: seq<Member>, m: Member)
    ensures OnlyIdsRepeat(pairs + [m]) <==>
            && OnlyIdsRepeat(pairs)
            && (Get(pairs, m.key).Some? ==> m.key == "id" && IsId(m.value) && IsId(Get(pairs, m.key).value))
    ensures DistinctKeys(pairs + [m]) <==> DistinctKeys(pairs) && Get(pairs, m.key) == None
  {
    hide IsId, Get;
    var more := pairs + [m];
    assert more[|pairs|] == m && forall i :: 0 <= i < |pairs| ==> more[i] == pairs[i];
    GetNone(pairs, m.key);
    if Get(pairs, m.key).Some? {
      var k := FirstIndex(pairs, m.key);
      assert more[k].key == more[|pairs|].key;
    }
  }

  lemma {:induction false} FoldPairsExactly(pairs: seq<Member>)
    ensures FoldPairs(pairs).Some? <==> OnlyIdsRepeat(pairs)
    ensures FoldPairs(pairs).Some? ==> FoldPairs(pairs).value.1 == !DistinctKeys(pairs)
  {
    hide IsId, Get, OnlyIdsRepeat, DistinctKeys;
    if pairs == [] {
      NothingRepeats();
    } else {
      var front, m := pairs[..|pairs| - 1], pairs[|pairs| - 1];
      assert pairs == front + [m];
      FoldPairsExactly(front);
      RepeatsSnoc(front, m);
      if FoldPairs(front).Some? {
        FoldPairsMeans(front);
      }
    }
  }

  lemma NothingRepeats()
    ensures OnlyIdsRepeat([]) && DistinctKeys([])
  {
  }

  /** An event object is accepted exactly when no key repeats, or only `id` does, always with
      identifiers, in an object of type `web_search`. */
  lemma EventObjectExactly(pairs: seq<Member>)
    ensures EventObject(pairs).Some? <==>
            && (forall i, j :: 0 <= i < j < |pairs| && pairs[i].key == pairs[j].key ==>
                  pairs[i].key == "id" && IsId(pairs[i].value) && IsId(pairs[j].value))
            && ((exists i, j :: 0 <= i < j < |pairs| && pairs[i].key == pairs[j].key) ==>
                  Get(pairs, "type") == Some(Str("web_search")))
  {
    hide IsId, Get, FoldPairs;
    FoldPairsExactly(pairs);
    if FoldPairs(pairs).Some? {
      FoldPairsMeans(pairs);
    }
  }

  /** A line holds a value when it is not empty, has at most 256 kilobytes of UTF-8, parses, and
      its value loads and is within the bounds. */
  lemma LineMeans(line: Bytes, floats: FloatReader, v: Json)
    ensures EventValue(line, floats) == Some(v) <==>
            && 1 <= |line| <= 262_144
            && exists text, tree :: Utf8.Decode(line) == Some(text) && ParseText(text) == Some(tree)
                                    && LoadEvent(tree, floats) == Some(v) && Acceptable(v)
  {
    hide LoadEvent, ParseText, Utf8.Decode, Acceptable;
  }
}
