/** The payload of a one-time action: what may be stored, how it is stored as canonical
    JSON, and what comes back when the stored text is read again. */
module ActionPayload {
  import opened Order
  import Utf8
  import J = JsonText

  const MAX_PAYLOAD_BYTES := 65536
  const MAX_JSON_DEPTH := 16
  const MAX_JSON_NODES := 1024
  const MAX_JSON_KEY_CHARS := 128
  const MAX_JSON_STRING_CHARS := 4096
  const MAX_JSON_STRING_BYTES := 16384
  const MAX_INTEGER := 0x7FFF_FFFF_FFFF_FFFF

  /** The Python values a caller may hand in. A float is given by the token its `repr`
      prints; `Other` is any value of a type the payload does not admit. */
  datatype PyValue =
    | Null
    | Bool(b: bool)
    | Int(n: int)
    | Float(d: J.Decimal)
    | NonFinite
    | Str(s: string)
    | List(items: seq<PyValue>)
    | Tuple(items: seq<PyValue>)
    | Dict(entries: seq<PyEntry>)
    | Proxy(entries: seq<PyEntry>)
    | Other

  /** A mapping item; `OddEntry` has a key that is not a `str`. */
  datatype PyEntry = PyEntry(key: string, value: PyValue) | OddEntry(value: PyValue)

  /** Library facts the code consults: whether a character's Unicode category starts
      with C, and how `float` reads a decimal token. */
  datatype Library = Library(control: char -> bool, floats: J.FloatReader)

  predicate IsMapping(v: PyValue)
  {
    v.Dict? || v.Proxy?
  }

  predicate IsSequence(v: PyValue)
  {
    v.List? || v.Tuple?
  }

  predicate ValidString(s: string, maxChars: nat, lib: Library)
  {
    && |s| <= maxChars
    && |Utf8.Encode(s)| <= MAX_JSON_STRING_BYTES
    && forall i :: 0 <= i < |s| ==> !lib.control(s[i])
  }

  predicate ValidKey(e: PyEntry, lib: Library)
  {
    e.PyEntry? && ValidString(e.key, MAX_JSON_KEY_CHARS, lib)
  }

  /** The leaf cases, for a value that is neither a mapping nor a sequence. */
  function Scalar(v: PyValue, lib: Library): Option<J.Json>
  {
    match v
    case Null => Some(J.Null)
    case Bool(b) => Some(J.Bool(b))
    case Int(n) => if -MAX_INTEGER <= n <= MAX_INTEGER then Some(J.Int(n)) else None
    case Float(d) => Some(J.Float(d))
    case Str(s) => if ValidString(s, MAX_JSON_STRING_CHARS, lib) then Some(J.Str(s)) else None
    case _ => None
  }

  // ---------- the recursion with its shared counter ----------

  datatype Checked<+T> = Rejected | Accepted(value: T, counter: nat)

  function Validate(v: PyValue, depth: nat, counter: nat, lib: Library): Checked<J.Json>
    decreases v, 0
  {
    var count := counter + 1;
    if count > MAX_JSON_NODES || depth > MAX_JSON_DEPTH then Rejected
    else if IsMapping(v) then
      match ValidateEntries(v.entries, depth + 1, count, lib)
      case Rejected => Rejected
      case Accepted(pairs, c) => Accepted(J.Obj(J.FromPairs(pairs)), c)
    else if IsSequence(v) then
      match ValidateItems(v.items, depth + 1, count, lib)
      case Rejected => Rejected
      case Accepted(items, c) => Accepted(J.Arr(items), c)
    else
      match Scalar(v, lib)
      case None => Rejected
      case Some(j) => Accepted(j, count)
  }

  function ValidateItems(items: seq<PyValue>, depth: nat, counter: nat, lib: Library): Checked<seq<J.Json>>
    decreases items, 1
  {
    if items == [] then Accepted([], counter)
    else
      match Validate(items[0], depth, counter, lib)
      case Rejected => Rejected
      case Accepted(j, c) =>
        match ValidateItems(items[1..], depth, c, lib)
        case Rejected => Rejected
        case Accepted(js, total) => Accepted([j] + js, total)
  }

  function ValidateEntries(entries: seq<PyEntry>, depth: nat, counter: nat, lib: Library): Checked<seq<J.Member>>
    decreases entries, 1
  {
    if entries == [] then Accepted([], counter)
    else if !ValidKey(entries[0], lib) then Rejected
    else
      assert entries[0].value < entries[0];
      match Validate(entries[0].value, depth, counter, lib)
      case Rejected => Rejected
      case Accepted(j, c) =>
        match ValidateEntries(entries[1..], depth, c, lib)
        case Rejected => Rejected
        case Accepted(ms, total) => Accepted([J.Member(entries[0].key, j)] + ms, total)
  }

  // ---------- what it means, without a counter ----------

  /** Values in a payload; mapping keys are not counted. */
  function Nodes(v: PyValue): nat
    decreases v, 0
  {
    if IsMapping(v) then 1 + EntryNodes(v.entries)
    else if IsSequence(v) then 1 + ItemNodes(v.items)
    else 1
  }

  function ItemNodes(items: seq<PyValue>): nat
    decreases items, 1
  {
    if items == [] then 0 else Nodes(items[0]) + ItemNodes(items[1..])
  }

  function EntryNodes(entries: seq<PyEntry>): nat
    decreases entries, 1
  {
    if entries == [] then 0
    else
      assert entries[0].value < entries[0];
      Nodes(entries[0].value) + EntryNodes(entries[1..])
  }

  predicate Fits(v: PyValue, depth: nat, lib: Library)
    decreases v
  {
    && depth <= MAX_JSON_DEPTH
    && if IsMapping(v) then
         forall i :: 0 <= i < |v.entries| ==>
           ValidKey(v.entries[i], lib) && Fits(v.entries[i].value, depth + 1, lib)
       else if IsSequence(v) then
         forall i :: 0 <= i < |v.items| ==> Fits(v.items[i], depth + 1, lib)
       else Scalar(v, lib).Some?
  }

  function KeyOf(e: PyEntry): string
  {
    if e.PyEntry? then e.key else ""
  }

  /** The JSON value of a payload, whatever mixture of dicts, proxies, lists and tuples
      spells it. */
  function Image(v: PyValue, lib: Library): J.Json
    decreases v, 0
  {
    if IsMapping(v) then J.Obj(J.FromPairs(EntryImages(v.entries, lib)))
    else if IsSequence(v) then J.Arr(ItemImages(v.items, lib))
    else match Scalar(v, lib) case None => J.Null case Some(j) => j
  }

  function ItemImages(items: seq<PyValue>, lib: Library): seq<J.Json>
    decreases items, 1
  {
    if items == [] then [] else [Image(items[0], lib)] + ItemImages(items[1..], lib)
  }

  function EntryImages(entries: seq<PyEntry>, lib: Library): seq<J.Member>
    decreases entries, 1
  {
    if entries == [] then []
    else
      assert entries[0].value < entries[0];
      [J.Member(KeyOf(entries[0]), Image(entries[0].value, lib))] + EntryImages(entries[1..], lib)
  }

  predicate ItemsFit(items: seq<PyValue>, depth: nat, lib: Library)
  {
    forall i :: 0 <= i < |items| ==> Fits(items[i], depth, lib)
  }

  predicate EntriesFit(entries: seq<PyEntry>, depth: nat, lib: Library)
  {
    forall i :: 0 <= i < |entries| ==>
      ValidKey(entries[i], lib) && Fits(entries[i].value, depth, lib)
  }

  /** The shared counter rejects exactly the payloads with too many values, wherever in
      the traversal it runs out. */
  lemma {:induction false} ValidateMeans(v: PyValue, depth: nat, counter: nat, lib: Library)
    requires counter <= MAX_JSON_NODES
    ensures Validate(v, depth, counter, lib) ==
            if counter + Nodes(v) <= MAX_JSON_NODES && Fits(v, depth, lib)
            then Accepted(Image(v, lib), counter + Nodes(v))
            else Rejected
    decreases v, 0
  {
    hide ValidString;
    if counter < MAX_JSON_NODES && depth <= MAX_JSON_DEPTH {
      if IsMapping(v) {
        ValidateEntriesMeans(v.entries, depth + 1, counter + 1, lib);
      } else if IsSequence(v) {
        ValidateItemsMeans(v.items, depth + 1, counter + 1, lib);
      }
    }
  }

  lemma {:induction false} ValidateItemsMeans(items: seq<PyValue>, depth: nat, counter: nat, lib: Library)
    requires counter <= MAX_JSON_NODES
    ensures ValidateItems(items, depth, counter, lib) ==
            if counter + ItemNodes(items) <= MAX_JSON_NODES && ItemsFit(items, depth, lib)
            then Accepted(ItemImages(items, lib), counter + ItemNodes(items))
            else Rejected
    decreases items, 1
  {
    hide Validate, Fits, Nodes, Image;
    if items != [] {
      ValidateMeans(items[0], depth, counter, lib);
      assert ItemsFit(items, depth, lib) <==> Fits(items[0], depth, lib) && ItemsFit(items[1..], depth, lib);
      if counter + Nodes(items[0]) <= MAX_JSON_NODES {
        ValidateItemsMeans(items[1..], depth, counter + Nodes(items[0]), lib);
      }
    }
  }

  lemma {:induction false} ValidateEntriesMeans(entries: seq<PyEntry>, depth: nat, counter: nat, lib: Library)
    requires counter <= MAX_JSON_NODES
    ensures ValidateEntries(entries, depth, counter, lib) ==
            if counter + EntryNodes(entries) <= MAX_JSON_NODES && EntriesFit(entries, depth, lib)
            then Accepted(EntryImages(entries, lib), counter + EntryNodes(entries))
            else Rejected
    decreases entries, 1
  {
    hide Validate, Fits, Nodes, Image;
    if entries != [] {
      assert entries[0].value < entries[0];
      ValidateMeans(entries[0].value, depth, counter, lib);
      assert EntriesFit(entries, depth, lib) <==>
             (ValidKey(entries[0], lib) && Fits(entries[0].value, depth, lib)) && EntriesFit(entries[1..], depth, lib);
      if counter + Nodes(entries[0].value) <= MAX_JSON_NODES {
        ValidateEntriesMeans(entries[1..], depth, counter + Nodes(entries[0].value), lib);
      }
    }
  }

  // ---------- storing and reading again ----------

  /** A JSON value as Python containers: read-only ones, or those `json.loads` builds. */
  function Build(j: J.Json, frozen: bool): PyValue
    decreases j, 0
  {
    match j
    case Null => Null
    case Bool(b) => Bool(b)
    case Int(n) => Int(n)
    case Float(d) => Float(d)
    case Str(s) => Str(s)
    case Arr(items) =>
      var built := BuildItems(items, frozen);
      if frozen then Tuple(built) else List(built)
    case Obj(ms) =>
      var built := BuildMembers(ms, frozen);
      if frozen then Proxy(built) else Dict(built)
  }

  function BuildItems(items: seq<J.Json>, frozen: bool): seq<PyValue>
    decreases items, 1
  {
    if items == [] then [] else [Build(items[0], frozen)] + BuildItems(items[1..], frozen)
  }

  function BuildMembers(ms: seq<J.Member>, frozen: bool): seq<PyEntry>
    decreases ms, 1
  {
    if ms == [] then []
    else [PyEntry(ms[0].key, Build(ms[0].value, frozen))] + BuildMembers(ms[1..], frozen)
  }

  datatype Payload = Payload(text: string, frozen: PyValue)

  function ValidatedPayload(v: PyValue, lib: Library): Option<Payload>
  {
    if !IsMapping(v) then None
    else
      match Validate(v, 1, 0, lib)
      case Rejected => None
      case Accepted(j, _) =>
        if |Utf8.Encode(J.Print(j))| > MAX_PAYLOAD_BYTES then None
        else Some(Payload(J.Print(j), Build(j, true)))
  }

  function StoredPayload(text: string, lib: Library): Option<Payload>
  {
    if |Utf8.Encode(text)| > MAX_PAYLOAD_BYTES || !NestingIsSafe(text) then None
    else
      match J.Loads(text, lib.floats)
      case None => None
      case Some(j) =>
        match ValidatedPayload(Build(j, false), lib)
        case None => None
        case Some(p) => if p.text == text then Some(p) else None
  }

  // ---------- the nesting scanner ----------

  datatype Mode = Outside | Inside | Escaped

  function NextMode(m: Mode, c: char): Mode
  {
    match m
    case Escaped => Inside
    case Inside => if c == '\\' then Escaped else if c == '"' then Outside else Inside
    case Outside => if c == '"' then Inside else Outside
  }

  function EndMode(m: Mode, text: string): Mode
    decreases |text|
  {
    if text == "" then m else EndMode(NextMode(m, text[0]), text[1..])
  }

  /** The characters of a text that lie outside its string literals. */
  function Skeleton(m: Mode, text: string): string
    decreases |text|
  {
    if text == "" then ""
    else (if m == Outside && text[0] != '"' then [text[0]] else "") + Skeleton(NextMode(m, text[0]), text[1..])
  }

  function Weight(c: char): int
  {
    if c == '[' || c == '{' then 1 else if c == ']' || c == '}' then -1 else 0
  }

  function Balance(s: string): int
  {
    if s == "" then 0 else Weight(s[0]) + Balance(s[1..])
  }

  function Max(a: int, b: int): int
  {
    if a < b then b else a
  }

  /** The highest balance any prefix reaches. */
  function Peak(s: string): int
  {
    if s == "" then 0 else Max(0, Weight(s[0]) + Peak(s[1..]))
  }

  /** The lowest balance any prefix reaches. */
  function Floor(s: string): int
  {
    if s == "" then 0 else -Max(0, -(Weight(s[0]) + Floor(s[1..])))
  }

  /** String literals are closed, no bracket closes before one opens, none stays open,
      and at most MAX_JSON_DEPTH are open at once. */
  predicate NestingIsSafe(text: string)
  {
    && EndMode(Outside, text) == Outside
    && var bare := Skeleton(Outside, text);
       Balance(bare) == 0 && Floor(bare) == 0 && Peak(bare) <= MAX_JSON_DEPTH
  }

  lemma {:induction false} ModeConcat(m: Mode, a: string, b: string)
    ensures EndMode(m, a + b) == EndMode(EndMode(m, a), b)
    ensures Skeleton(m, a + b) == Skeleton(m, a) + Skeleton(EndMode(m, a), b)
    decreases |a|
  {
    if a == "" {
      assert a + b == b;
    } else {
      var next := NextMode(m, a[0]);
      ModeConcat(next, a[1..], b);
      TailOfConcat(a, b);
      ConcatAssoc(if m == Outside && a[0] != '"' then [a[0]] else "", Skeleton(next, a[1..]), Skeleton(EndMode(m, a), b));
    }
  }

  lemma {:induction false} BalanceConcat(a: string, b: string)
    ensures Balance(a + b) == Balance(a) + Balance(b)
    ensures Peak(a + b) == Max(Peak(a), Balance(a) + Peak(b))
    ensures Floor(a + b) == -Max(-Floor(a), -(Balance(a) + Floor(b)))
    ensures Floor(a) <= 0 <= Peak(a) && Floor(a) <= Balance(a) <= Peak(a)
  {
    if a == "" {
      assert a + b == b;
    } else {
      assert (a + b)[1..] == a[1..] + b;
      BalanceConcat(a[1..], b);
    }
  }

  lemma {:induction false} FloorPeak(s: string)
    ensures Floor(s) <= 0 <= Peak(s) && Floor(s) <= Balance(s) <= Peak(s)
  {
    BalanceConcat(s, "");
  }

  method JsonNestingIsSafe(text: string) returns (ok: bool)
    ensures ok <==> NestingIsSafe(text)
  {
    var depth, inString, escaped := 0, false, false;
    ghost var mode := Outside;
    ghost var seen := "";
    var i := 0;
    while i < |text|
      invariant 0 <= i <= |text|
      invariant inString <==> mode != Outside
      invariant escaped <==> mode == Escaped
      invariant mode == EndMode(Outside, text[..i])
      invariant seen == Skeleton(Outside, text[..i])
      invariant depth == Balance(seen) && Floor(seen) == 0 && Peak(seen) <= MAX_JSON_DEPTH
    {
      hide Floor, Peak, Balance, EndMode, Skeleton, NestingIsSafe;
      var character := text[i];
      ghost var before := mode;
      ScanOne(text, i);
      mode := NextMode(before, character);
      if inString {
        if escaped {
          escaped := false;
        } else if character == '\\' {
          escaped := true;
        } else if character == '"' {
          inString := false;
        }
      } else if character == '"' {
        inString := true;
      } else {
        AddWeight(seen, character);
        seen := seen + [character];
        if character == '[' || character == '{' {
          depth := depth + 1;
          if depth > MAX_JSON_DEPTH {
            Overruns(text, i + 1);
            return false;
          }
        } else if character == ']' || character == '}' {
          depth := depth - 1;
          if depth < 0 {
            Overruns(text, i + 1);
            return false;
          }
        }
      }
      i := i + 1;
    }
    assert text[..i] == text;
    return depth == 0 && !inString;
  }

  lemma ScanOne(text: string, i: nat)
    requires i < |text|
    ensures var m := EndMode(Outside, text[..i]);
            && EndMode(Outside, text[..i + 1]) == NextMode(m, text[i])
            && Skeleton(Outside, text[..i + 1]) ==
               Skeleton(Outside, text[..i]) + if m == Outside && text[i] != '"' then [text[i]] else ""
  {
    var m := EndMode(Outside, text[..i]);
    assert text[..i + 1] == text[..i] + [text[i]];
    ModeConcat(Outside, text[..i], [text[i]]);
    assert [text[i]][1..] == "";
    assert EndMode(m, [text[i]]) == NextMode(m, text[i]);
  }

  lemma AddWeight(s: string, c: char)
    ensures Balance(s + [c]) == Balance(s) + Weight(c)
    ensures Peak(s + [c]) == Max(Peak(s), Balance(s) + Weight(c))
    ensures Floor(s + [c]) == -Max(-Floor(s), -(Balance(s) + Weight(c)))
    ensures Balance(s) <= Peak(s)
  {
    BalanceConcat(s, [c]);
    assert [c][1..] == "";
    assert Balance([c]) == Weight(c) + Balance("");
    assert Peak([c]) == Max(0, Weight(c) + Peak(""));
    assert Floor([c]) == -Max(0, -(Weight(c) + Floor("")));
    FloorPeak(s);
  }

  /** Once a prefix has gone out of bounds the whole text is refused. */
  lemma Overruns(text: string, i: nat)
    requires i <= |text|
    requires var bare := Skeleton(Outside, text[..i]); Balance(bare) < 0 || Balance(bare) > MAX_JSON_DEPTH
    ensures !NestingIsSafe(text)
  {
    var bare := Skeleton(Outside, text[..i]);
    assert text == text[..i] + text[i..];
    ModeConcat(Outside, text[..i], text[i..]);
    BalanceConcat(bare, Skeleton(EndMode(Outside, text[..i]), text[i..]));
  }

  // ---------- the scanner on printed values ----------

  /** Containers open around the deepest point of a value. */
  function Depth(j: J.Json): nat
    decreases j, 0
  {
    match j
    case Arr(items) => 1 + ItemsDepth(items)
    case Obj(ms) => 1 + MembersDepth(ms)
    case _ => 0
  }

  function ItemsDepth(items: seq<J.Json>): nat
    decreases items, 1
  {
    if items == [] then 0 else Max(Depth(items[0]), ItemsDepth(items[1..]))
  }

  function MembersDepth(ms: seq<J.Member>): nat
    decreases ms, 1
  {
    if ms == [] then 0 else Max(Depth(ms[0].value), MembersDepth(ms[1..]))
  }

  /** A text the scanner enters and leaves at the same depth, outside any string, after
      rising by at most `d`, which it reaches. */
  predicate Level(text: string, d: int)
  {
    && EndMode(Outside, text) == Outside
    && var bare := Skeleton(Outside, text);
       Balance(bare) == 0 && Floor(bare) == 0 && Peak(bare) == d
  }

  lemma LevelConcat(a: string, d: int, b: string, e: int)
    requires Level(a, d) && Level(b, e)
    ensures Level(a + b, Max(d, e))
  {
    ModeConcat(Outside, a, b);
    BalanceConcat(Skeleton(Outside, a), Skeleton(Outside, b));
  }

  lemma LevelWrap(open: char, a: string, d: int, close: char)
    requires Level(a, d) && Weight(open) == 1 && Weight(close) == -1
    ensures Level([open] + a + [close], d + 1)
  {
    var bare := Skeleton(Outside, a);
    ModeConcat(Outside, [open] + a, [close]);
    ModeConcat(Outside, [open], a);
    assert Skeleton(Outside, [open]) == [open] && EndMode(Outside, [open]) == Outside by {
      assert [open][1..] == "";
    }
    assert Skeleton(Outside, [close]) == [close] && EndMode(Outside, [close]) == Outside by {
      assert [close][1..] == "";
    }
    FloorPeak(bare);
    AddWeight([open] + bare, close);
    AddWeight("", open);
    assert "" + [open] == [open];
    BalanceConcat([open], bare);
  }

  predicate PlainChar(c: char)
  {
    c != '"' && Weight(c) == 0
  }

  predicate Plain(w: string)
  {
    forall i :: 0 <= i < |w| ==> PlainChar(w[i])
  }

  lemma {:induction false} LevelPlain(w: string)
    requires Plain(w)
    ensures Level(w, 0)
  {
    if w != "" {
      var c := w[0];
      LevelPlain(w[1..]);
      assert [c][1..] == "";
      assert Level([c], 0) by {
        assert Skeleton(Outside, [c]) == [c];
        AddWeight("", c);
        assert "" + [c] == [c];
      }
      LevelConcat([c], 0, w[1..], 0);
      assert [c] + w[1..] == w;
    }
  }

  /** Inside a string literal an escaped character is skipped whole. */
  lemma EscapeCharStaysInside(c: char)
    ensures EndMode(Inside, J.EscapeChar(c)) == Inside && Skeleton(Inside, J.EscapeChar(c)) == ""
  {
    var e := J.EscapeChar(c);
    if |e| == 1 {
      assert e[1..] == "";
    } else {
      forall i | 2 <= i < |e| ensures e[i] != '"' && e[i] != '\\' {
        HexIsPlain(if c as int < 32 then c as int / 16 else 0);
        HexIsPlain(c as int % 16);
      }
      var tail := e[1..][1..];
      assert e[0] == '\\' && e[1..][0] == e[1];
      assert forall i :: 0 <= i < |tail| ==> tail[i] == e[i + 2];
      PlainInside(tail);
      assert EndMode(Inside, e) == EndMode(Escaped, e[1..]) == EndMode(Inside, tail);
      assert Skeleton(Inside, e) == Skeleton(Escaped, e[1..]) == Skeleton(Inside, tail);
    }
  }

  lemma {:induction false} PlainInside(w: string)
    requires forall i :: 0 <= i < |w| ==> w[i] != '"' && w[i] != '\\'
    ensures EndMode(Inside, w) == Inside && Skeleton(Inside, w) == ""
  {
    if w != "" {
      PlainInside(w[1..]);
    }
  }

  lemma HexIsPlain(d: int)
    requires 0 <= d < 16
    ensures J.HexDigit(d) != '"' && J.HexDigit(d) != '\\'
  {
  }

  lemma {:induction false} EscapeStaysInside(s: string)
    ensures EndMode(Inside, J.Escape(s)) == Inside && Skeleton(Inside, J.Escape(s)) == ""
  {
    if s != "" {
      EscapeCharStaysInside(s[0]);
      EscapeStaysInside(s[1..]);
      ModeConcat(Inside, J.EscapeChar(s[0]), J.Escape(s[1..]));
    }
  }

  lemma LevelString(s: string)
    ensures Level(J.PrintString(s), 0)
  {
    EscapeStaysInside(s);
    var quote := "\"";
    assert quote[1..] == "";
    assert EndMode(Inside, quote) == Outside && Skeleton(Inside, quote) == "";
    assert EndMode(Outside, quote) == Inside && Skeleton(Outside, quote) == "";
    ModeConcat(Outside, quote, J.Escape(s));
    ModeConcat(Outside, quote + J.Escape(s), quote);
  }

  lemma {:induction false} DigitsArePlain(n: nat)
    ensures Plain(J.Digits(n))
  {
    if n >= 10 {
      DigitsArePlain(n / 10);
    }
  }

  lemma NumberIsPlain(d: J.Decimal)
    requires J.DecimalToken(d)
    ensures Plain(J.DecimalText(d))
  {
    hide PlainChar;
    WholeIsPlain(d.whole);
    DigitsPlain(d.fraction);
    DotIsPlain();
    if d.exponent != "" {
      ExponentIsPlain(d.exponent);
    }
  }

  lemma DigitsPlain(s: string)
    requires J.AllDigits(s)
    ensures Plain(s)
  {
  }

  lemma WholeIsPlain(s: string)
    requires J.WholeToken(s)
    ensures Plain(s)
  {
    forall i | 0 <= i < |s| ensures PlainChar(s[i]) {
      if s[0] == '-' && i > 0 {
        assert s[i] == s[1..][i - 1];
      }
    }
  }

  lemma ExponentIsPlain(s: string)
    requires J.ExponentToken(s)
    ensures Plain(s)
  {
    var sign := |s| > 1 && (s[1] == '+' || s[1] == '-');
    forall i | 0 <= i < |s| ensures PlainChar(s[i]) {
      if i > 1 && sign {
        assert s[i] == s[2..][i - 2];
      } else if i > 0 && !sign {
        assert s[i] == s[1..][i - 1];
      }
    }
  }

  lemma DotIsPlain()
    ensures Plain(".")
  {
  }

  /** On printed JSON the scanner's depth is the container nesting of the value. */
  lemma {:induction false} PrintedNesting(j: J.Json, floats: J.FloatReader)
    requires J.Canonical(j, floats)
    ensures Level(J.Print(j), Depth(j))
    decreases j, 0
  {
    hide Level;
    match j {
      case Null => LevelPlain("null");
      case Bool(b) => LevelPlain(if b then "true" else "false");
      case Int(n) =>
        DigitsArePlain(if n < 0 then -n else n);
        LevelPlain(J.IntText(n));
      case Float(d) =>
        NumberIsPlain(d);
        LevelPlain(J.DecimalText(d));
      case Str(s) => LevelString(s);
      case Arr(items) =>
        PrintedItemsNesting(items, floats);
        LevelWrap('[', J.PrintItems(items), ItemsDepth(items), ']');
      case Obj(ms) =>
        PrintedMembersNesting(ms, floats);
        LevelWrap('{', J.PrintMembers(ms), MembersDepth(ms), '}');
    }
  }

  lemma {:induction false} PrintedItemsNesting(items: seq<J.Json>, floats: J.FloatReader)
    requires forall i :: 0 <= i < |items| ==> J.Canonical(items[i], floats)
    ensures Level(J.PrintItems(items), ItemsDepth(items))
    decreases items, 1
  {
    hide Level;
    if items == [] {
      LevelPlain("");
    } else {
      PrintedNesting(items[0], floats);
      if |items| > 1 {
        PrintedItemsNesting(items[1..], floats);
        LevelPlain(",");
        LevelConcat(J.Print(items[0]), Depth(items[0]), ",", 0);
        LevelConcat(J.Print(items[0]) + ",", Depth(items[0]), J.PrintItems(items[1..]), ItemsDepth(items[1..]));
      } else {
        assert items[1..] == [];
      }
    }
  }

  lemma PrintedMemberNesting(m: J.Member, floats: J.FloatReader)
    requires J.Canonical(m.value, floats)
    requires Level(J.Print(m.value), Depth(m.value))
    ensures Level(J.PrintMember(m), Depth(m.value))
  {
    hide Level;
    LevelString(m.key);
    LevelPlain(":");
    LevelConcat(J.PrintString(m.key), 0, ":", 0);
    LevelConcat(J.PrintString(m.key) + ":", 0, J.Print(m.value), Depth(m.value));
  }

  lemma {:induction false} PrintedMembersNesting(ms: seq<J.Member>, floats: J.FloatReader)
    requires forall i :: 0 <= i < |ms| ==> J.Canonical(ms[i].value, floats)
    ensures Level(J.PrintMembers(ms), MembersDepth(ms))
    decreases ms, 1
  {
    hide Level;
    if ms == [] {
      LevelPlain("");
    } else {
      PrintedNesting(ms[0].value, floats);
      PrintedMemberNesting(ms[0], floats);
      if |ms| > 1 {
        PrintedMembersNesting(ms[1..], floats);
        LevelPlain(",");
        LevelConcat(J.PrintMember(ms[0]), Depth(ms[0].value), ",", 0);
        LevelConcat(J.PrintMember(ms[0]) + ",", Depth(ms[0].value), J.PrintMembers(ms[1..]), MembersDepth(ms[1..]));
      } else {
        assert ms[1..] == [];
      }
    }
  }

  // ---------- what is stored can be read again ----------

  /** A value a Python program can hold: every float is spelt as its `repr` spells it. */
  ghost predicate Real(v: PyValue, lib: Library)
    decreases v, 0
  {
    if IsMapping(v) then EntriesReal(v.entries, lib)
    else if IsSequence(v) then ItemsReal(v.items, lib)
    else v.Float? ==> J.DecimalToken(v.d) && lib.floats(v.d) == Some(v.d)
  }

  ghost predicate ItemsReal(items: seq<PyValue>, lib: Library)
    decreases items, 1
  {
    items == [] || (Real(items[0], lib) && ItemsReal(items[1..], lib))
  }

  ghost predicate EntriesReal(entries: seq<PyEntry>, lib: Library)
    decreases entries, 1
  {
    entries == [] ||
    assert entries[0].value < entries[0];
    (Real(entries[0].value, lib) && EntriesReal(entries[1..], lib))
  }

  /** `repr` of a float reads back as the same float. */
  ghost predicate ReprStable(lib: Library)
  {
    forall d {:trigger lib.floats(d)} :: lib.floats(d).Some? ==>
      J.DecimalToken(lib.floats(d).value) && lib.floats(lib.floats(d).value) == lib.floats(d)
  }

  /** The limits of `Fits`, on the JSON value. */
  ghost predicate JsonFits(j: J.Json, depth: nat, lib: Library)
    decreases j
  {
    && depth <= MAX_JSON_DEPTH
    && match j
       case Int(n) => -MAX_INTEGER <= n <= MAX_INTEGER
       case Str(s) => ValidString(s, MAX_JSON_STRING_CHARS, lib)
       case Arr(items) => forall i :: 0 <= i < |items| ==> JsonFits(items[i], depth + 1, lib)
       case Obj(ms) =>
         forall i :: 0 <= i < |ms| ==>
           ValidString(ms[i].key, MAX_JSON_KEY_CHARS, lib) && JsonFits(ms[i].value, depth + 1, lib)
       case _ => true
  }

  function JsonNodes(j: J.Json): nat
    decreases j, 0
  {
    match j
    case Arr(items) => 1 + JsonItemNodes(items)
    case Obj(ms) => 1 + JsonMemberNodes(ms)
    case _ => 1
  }

  function JsonItemNodes(items: seq<J.Json>): nat
    decreases items, 1
  {
    if items == [] then 0 else JsonNodes(items[0]) + JsonItemNodes(items[1..])
  }

  function JsonMemberNodes(ms: seq<J.Member>): nat
    decreases ms, 1
  {
    if ms == [] then 0 else JsonNodes(ms[0].value) + JsonMemberNodes(ms[1..])
  }

  ghost predicate MemberOk(m: J.Member, depth: nat, lib: Library)
  {
    && ValidString(m.key, MAX_JSON_KEY_CHARS, lib)
    && JsonFits(m.value, depth, lib)
    && J.Canonical(m.value, lib.floats)
  }

  ghost predicate MembersOk(ms: seq<J.Member>, depth: nat, lib: Library)
  {
    forall i :: 0 <= i < |ms| ==> MemberOk(ms[i], depth, lib)
  }

  ghost predicate ItemsOk(items: seq<J.Json>, depth: nat, lib: Library)
  {
    forall i :: 0 <= i < |items| ==> JsonFits(items[i], depth, lib) && J.Canonical(items[i], lib.floats)
  }

  lemma {:induction false} InsertNodes(ms: seq<J.Member>, m: J.Member)
    ensures JsonMemberNodes(J.Insert(ms, m)) <= JsonMemberNodes(ms) + JsonNodes(m.value)
  {
    hide JsonNodes;
    assert [m][1..] == [];
    if ms != [] {
      if ms[0].key == m.key {
        assert ([m] + ms[1..])[1..] == ms[1..];
      } else if Order.TextLess(ms[0].key, m.key) {
        InsertNodes(ms[1..], m);
        assert ([ms[0]] + J.Insert(ms[1..], m))[1..] == J.Insert(ms[1..], m);
      } else {
        assert ([m] + ms)[1..] == ms;
      }
    }
  }

  lemma {:induction false} AppendNodes(ms: seq<J.Member>, m: J.Member)
    ensures JsonMemberNodes(ms + [m]) == JsonMemberNodes(ms) + JsonNodes(m.value)
  {
    hide JsonNodes;
    if ms == [] {
      assert ms + [m] == [m] && [m][1..] == [];
    } else {
      AppendNodes(ms[1..], m);
      assert (ms + [m])[1..] == ms[1..] + [m];
    }
  }

  lemma {:induction false} PairsNodes(pairs: seq<J.Member>)
    ensures JsonMemberNodes(J.FromPairs(pairs)) <= JsonMemberNodes(pairs)
  {
    hide JsonNodes;
    if pairs != [] {
      var front, last := pairs[..|pairs| - 1], pairs[|pairs| - 1];
      PairsNodes(front);
      InsertNodes(J.FromPairs(front), last);
      AppendNodes(front, last);
      assert pairs == front + [last];
    }
  }

  /** A payload that fits has a canonical JSON value within the same limits. */
  lemma {:induction false} ImageOk(v: PyValue, depth: nat, lib: Library)
    requires Fits(v, depth, lib) && Real(v, lib)
    ensures JsonFits(Image(v, lib), depth, lib) && J.Canonical(Image(v, lib), lib.floats)
    ensures JsonNodes(Image(v, lib)) <= Nodes(v)
    decreases v, 0
  {
    if IsMapping(v) {
      EntryImagesOk(v.entries, depth + 1, lib);
      var pairs := EntryImages(v.entries, lib);
      J.FromPairsAscends(pairs);
      PairsNodes(pairs);
      forall i | 0 <= i < |J.FromPairs(pairs)| ensures MemberOk(J.FromPairs(pairs)[i], depth + 1, lib) {
        assert J.FromPairs(pairs)[i] in pairs;
      }
    } else if IsSequence(v) {
      ItemImagesOk(v.items, depth + 1, lib);
    }
  }

  lemma {:induction false} ItemImagesOk(items: seq<PyValue>, depth: nat, lib: Library)
    requires ItemsFit(items, depth, lib) && ItemsReal(items, lib)
    ensures ItemsOk(ItemImages(items, lib), depth, lib)
    ensures JsonItemNodes(ItemImages(items, lib)) <= ItemNodes(items)
    decreases items, 1
  {
    hide JsonFits, J.Canonical, Fits, Real;
    if items != [] {
      ImageOk(items[0], depth, lib);
      ItemImagesOk(items[1..], depth, lib);
    }
  }

  lemma {:induction false} EntryImagesOk(entries: seq<PyEntry>, depth: nat, lib: Library)
    requires EntriesFit(entries, depth, lib) && EntriesReal(entries, lib)
    ensures MembersOk(EntryImages(entries, lib), depth, lib)
    ensures JsonMemberNodes(EntryImages(entries, lib)) <= EntryNodes(entries)
    decreases entries, 1
  {
    hide JsonFits, J.Canonical, Fits, Real;
    if entries != [] {
      ImageOk(entries[0].value, depth, lib);
      EntryImagesOk(entries[1..], depth, lib);
    }
  }

  /** Freezing, or rebuilding what `json.loads` builds, keeps the JSON value. */
  lemma {:induction false} BuildOk(j: J.Json, depth: nat, frozen: bool, lib: Library)
    requires JsonFits(j, depth, lib) && J.Canonical(j, lib.floats)
    ensures Fits(Build(j, frozen), depth, lib) && Real(Build(j, frozen), lib)
    ensures Image(Build(j, frozen), lib) == j && Nodes(Build(j, frozen)) == JsonNodes(j)
    decreases j, 0
  {
    hide ValidString, J.FromPairs, J.KeysAscend, J.DecimalToken, BuildItems, BuildMembers, ItemImages, EntryImages,
         ItemNodes, EntryNodes, JsonItemNodes, JsonMemberNodes, ItemsReal, EntriesReal;
    match j {
      case Arr(items) => BuildItemsOk(items, depth + 1, frozen, lib);
      case Obj(ms) =>
        BuildMembersOk(ms, depth + 1, frozen, lib);
        J.FromAscendingPairs(ms);
      case _ =>
    }
  }

  lemma {:induction false} BuildItemsOk(items: seq<J.Json>, depth: nat, frozen: bool, lib: Library)
    requires ItemsOk(items, depth, lib)
    ensures var built := BuildItems(items, frozen);
            && ItemsFit(built, depth, lib) && ItemsReal(built, lib)
            && ItemImages(built, lib) == items && ItemNodes(built) == JsonItemNodes(items)
    decreases items, 1
  {
    hide JsonFits, J.Canonical, Fits, Real, Build, Image, Nodes, JsonNodes;
    if items != [] {
      BuildOk(items[0], depth, frozen, lib);
      BuildItemsOk(items[1..], depth, frozen, lib);
      var built := BuildItems(items, frozen);
      assert built[0] == Build(items[0], frozen) && built[1..] == BuildItems(items[1..], frozen);
      assert items == [items[0]] + items[1..];
    }
  }

  lemma {:induction false} BuildMembersOk(ms: seq<J.Member>, depth: nat, frozen: bool, lib: Library)
    requires MembersOk(ms, depth, lib)
    ensures var built := BuildMembers(ms, frozen);
            && EntriesFit(built, depth, lib) && EntriesReal(built, lib)
            && EntryImages(built, lib) == ms && EntryNodes(built) == JsonMemberNodes(ms)
    decreases ms, 1
  {
    hide JsonFits, J.Canonical, Fits, Real, Build, Image, Nodes, JsonNodes;
    if ms != [] {
      assert MemberOk(ms[0], depth, lib);
      BuildOk(ms[0].value, depth, frozen, lib);
      BuildMembersOk(ms[1..], depth, frozen, lib);
      var built := BuildMembers(ms, frozen);
      assert built[0] == PyEntry(ms[0].key, Build(ms[0].value, frozen)) && built[1..] == BuildMembers(ms[1..], frozen);
      assert ms == [ms[0]] + ms[1..];
    }
  }

  lemma {:induction false} FitsDepth(j: J.Json, depth: nat, lib: Library)
    requires JsonFits(j, depth, lib)
    ensures depth + Depth(j) <= MAX_JSON_DEPTH + 1
    decreases j, 0
  {
    match j {
      case Arr(items) => ItemsFitDepth(items, depth + 1, lib);
      case Obj(ms) => MembersFitDepth(ms, depth + 1, lib);
      case _ =>
    }
  }

  lemma {:induction false} ItemsFitDepth(items: seq<J.Json>, depth: nat, lib: Library)
    requires depth <= MAX_JSON_DEPTH + 1 && forall i :: 0 <= i < |items| ==> JsonFits(items[i], depth, lib)
    ensures depth + ItemsDepth(items) <= MAX_JSON_DEPTH + 1
    decreases items, 1
  {
    hide JsonFits;
    if items != [] {
      FitsDepth(items[0], depth, lib);
      ItemsFitDepth(items[1..], depth, lib);
    }
  }

  lemma {:induction false} MembersFitDepth(ms: seq<J.Member>, depth: nat, lib: Library)
    requires depth <= MAX_JSON_DEPTH + 1 && forall i :: 0 <= i < |ms| ==> JsonFits(ms[i].value, depth, lib)
    ensures depth + MembersDepth(ms) <= MAX_JSON_DEPTH + 1
    decreases ms, 1
  {
    hide JsonFits;
    if ms != [] {
      FitsDepth(ms[0].value, depth, lib);
      MembersFitDepth(ms[1..], depth, lib);
    }
  }

  /** The JSON objects that are payloads. */
  ghost predicate Storable(j: J.Json, lib: Library)
  {
    && j.Obj? && J.Canonical(j, lib.floats)
    && JsonFits(j, 1, lib) && JsonNodes(j) <= MAX_JSON_NODES
    && |Utf8.Encode(J.Print(j))| <= MAX_PAYLOAD_BYTES
  }

  function PayloadOf(j: J.Json): Payload
  {
    Payload(J.Print(j), Build(j, true))
  }

  lemma ImageOfMapping(v: PyValue, lib: Library)
    requires IsMapping(v)
    ensures Image(v, lib).Obj?
  {
  }

  lemma AcceptedIsStorable(v: PyValue, lib: Library) returns (j: J.Json)
    requires Real(v, lib) && ValidatedPayload(v, lib).Some?
    ensures Storable(j, lib) && ValidatedPayload(v, lib) == Some(PayloadOf(j))
  {
    hide Fits, JsonFits, Image, Nodes, JsonNodes, J.Canonical, Validate;
    ValidateMeans(v, 1, 0, lib);
    j := Image(v, lib);
    ImageOk(v, 1, lib);
    ImageOfMapping(v, lib);
  }

  /** A storable object is accepted again from either of its Python spellings. */
  lemma StorableIsAccepted(j: J.Json, frozen: bool, lib: Library)
    requires Storable(j, lib)
    ensures ValidatedPayload(Build(j, frozen), lib) == Some(PayloadOf(j))
  {
    hide Fits, JsonFits, Image, Nodes, JsonNodes, J.Canonical, Validate;
    BuildOk(j, 1, frozen, lib);
    ValidateMeans(Build(j, frozen), 1, 0, lib);
  }

  lemma StorableIsReread(j: J.Json, lib: Library)
    requires Storable(j, lib)
    ensures StoredPayload(J.Print(j), lib) == Some(PayloadOf(j))
  {
    hide JsonFits, JsonNodes, J.Canonical, ValidatedPayload, Build, J.Print, J.Loads;
    PrintedNesting(j, lib.floats);
    FitsDepth(j, 1, lib);
    J.LoadsPrinted(j, lib.floats);
    StorableIsAccepted(j, false, lib);
  }

  /** Whatever `create` stores, `consume` reads back: the stored text passes the scanner,
      parses, prints to the same text and freezes to the same value; and the frozen value
      is itself accepted unchanged, so a later fingerprint of it matches. */
  lemma StoredIsReread(v: PyValue, lib: Library)
    requires Real(v, lib) && ValidatedPayload(v, lib).Some?
    ensures var p := ValidatedPayload(v, lib).value;
            StoredPayload(p.text, lib) == Some(p) && ValidatedPayload(p.frozen, lib) == Some(p)
  {
    hide JsonFits, JsonNodes, J.Canonical, ValidatedPayload, StoredPayload, Storable;
    var j := AcceptedIsStorable(v, lib);
    StorableIsReread(j, lib);
    StorableIsAccepted(j, true, lib);
  }

  lemma {:induction false} LoadIsCanonical(v: J.Json, lib: Library)
    requires ReprStable(lib) && J.Load(v, lib.floats).Some?
    ensures J.Canonical(J.Load(v, lib.floats).value, lib.floats)
    decreases v, 0
  {
    match v {
      case Float(d) => assert lib.floats(d).Some?;
      case Arr(items) => LoadItemsCanonical(items, lib);
      case Obj(ms) =>
        LoadMembersCanonical(ms, lib);
        var pairs := J.LoadMembers(ms, lib.floats).value;
        J.FromPairsAscends(pairs);
        forall i | 0 <= i < |J.FromPairs(pairs)| ensures J.Canonical(J.FromPairs(pairs)[i].value, lib.floats) {
          assert J.FromPairs(pairs)[i] in pairs;
        }
      case _ =>
    }
  }

  lemma {:induction false} LoadItemsCanonical(items: seq<J.Json>, lib: Library)
    requires ReprStable(lib) && J.LoadItems(items, lib.floats).Some?
    ensures var vs := J.LoadItems(items, lib.floats).value;
            forall i :: 0 <= i < |vs| ==> J.Canonical(vs[i], lib.floats)
    decreases items, 1
  {
    hide J.Canonical, ReprStable;
    if items != [] {
      LoadIsCanonical(items[0], lib);
      LoadItemsCanonical(items[1..], lib);
    }
  }

  lemma {:induction false} LoadMembersCanonical(ms: seq<J.Member>, lib: Library)
    requires ReprStable(lib) && J.LoadMembers(ms, lib.floats).Some?
    ensures var vs := J.LoadMembers(ms, lib.floats).value;
            forall i :: 0 <= i < |vs| ==> J.Canonical(vs[i].value, lib.floats)
    decreases ms, 1
  {
    hide J.Canonical, ReprStable;
    if ms != [] {
      LoadIsCanonical(ms[0].value, lib);
      LoadMembersCanonical(ms[1..], lib);
    }
  }

  /** The texts `consume` accepts are exactly the texts `create` can store. */
  lemma AcceptedTexts(text: string, lib: Library)
    requires ReprStable(lib)
    ensures StoredPayload(text, lib).Some? <==>
            exists v :: Real(v, lib) && ValidatedPayload(v, lib).Some? && ValidatedPayload(v, lib).value.text == text
  {
    hide JsonFits, JsonNodes, J.Canonical, ValidatedPayload, Fits, Real, ReprStable, NestingIsSafe, J.ParseText, Storable;
    if StoredPayload(text, lib).Some? {
      var j := J.Loads(text, lib.floats).value;
      LoadIsCanonical(J.ParseText(text).value, lib);
      var v := Build(j, false);
      BuildReal(j, false, lib);
      assert ValidatedPayload(v, lib).value.text == text;
    }
    forall v | Real(v, lib) && ValidatedPayload(v, lib).Some? && ValidatedPayload(v, lib).value.text == text
      ensures StoredPayload(text, lib).Some?
    {
      StoredIsReread(v, lib);
    }
  }

  lemma {:induction false} BuildReal(j: J.Json, frozen: bool, lib: Library)
    requires J.Canonical(j, lib.floats)
    ensures Real(Build(j, frozen), lib)
    decreases j, 0
  {
    match j {
      case Arr(items) => BuildItemsReal(items, frozen, lib);
      case Obj(ms) => BuildMembersReal(ms, frozen, lib);
      case _ =>
    }
  }

  lemma {:induction false} BuildItemsReal(items: seq<J.Json>, frozen: bool, lib: Library)
    requires forall i :: 0 <= i < |items| ==> J.Canonical(items[i], lib.floats)
    ensures ItemsReal(BuildItems(items, frozen), lib)
    decreases items, 1
  {
    hide J.Canonical, Real, Build;
    if items != [] {
      BuildReal(items[0], frozen, lib);
      BuildItemsReal(items[1..], frozen, lib);
      var built := BuildItems(items, frozen);
      assert built[0] == Build(items[0], frozen) && built[1..] == BuildItems(items[1..], frozen);
    }
  }

  lemma {:induction false} BuildMembersReal(ms: seq<J.Member>, frozen: bool, lib: Library)
    requires forall i :: 0 <= i < |ms| ==> J.Canonical(ms[i].value, lib.floats)
    ensures EntriesReal(BuildMembers(ms, frozen), lib)
    decreases ms, 1
  {
    hide J.Canonical, Real, Build;
    if ms != [] {
      BuildReal(ms[0].value, frozen, lib);
      BuildMembersReal(ms[1..], frozen, lib);
      var built := BuildMembers(ms, frozen);
      assert built[0] == PyEntry(ms[0].key, Build(ms[0].value, frozen)) && built[1..] == BuildMembers(ms[1..], frozen);
    }
  }

  // ---------- the bounds and the shapes, written out ----------

  /** A payload is accepted exactly when it is a mapping of at most 1024 values that fits and
      prints to at most 65536 bytes; what is stored is its JSON text, and what is handed out
      the frozen form of its JSON value. */
  lemma PayloadMeans(v: PyValue, lib: Library)
    ensures ValidatedPayload(v, lib) ==
            if (v.Dict? || v.Proxy?) && Nodes(v) <= 1024 && Fits(v, 1, lib) && |Utf8.Encode(J.Print(Image(v, lib)))| <= 65_536
            then Some(Payload(J.Print(Image(v, lib)), Build(Image(v, lib), true))) else None
  {
    hide Validate, Nodes, Fits, Image, Build, J.Print;
    ValidateMeans(v, 1, 0, lib);
  }

  ghost predicate Shown(s: string, chars: nat, lib: Library)
  {
    |s| <= chars && |Utf8.Encode(s)| <= 16_384 && forall c :: c in s ==> !lib.control(c)
  }

  /** What fits: containers nested at most sixteen deep, texts of at most 4096 characters and
      keys of at most 128 without control characters, and integers of 63 bits. */
  lemma FitsMeans(v: PyValue, depth: nat, lib: Library)
    ensures Fits(v, depth, lib) <==>
            && depth <= 16
            && match v
               case Null => true
               case Bool(_) => true
               case Int(n) => -0x7FFF_FFFF_FFFF_FFFF <= n <= 0x7FFF_FFFF_FFFF_FFFF
               case Float(_) => true
               case NonFinite => false
               case Str(s) => Shown(s, 4096, lib)
               case List(items) => forall i :: 0 <= i < |items| ==> Fits(items[i], depth + 1, lib)
               case Tuple(items) => forall i :: 0 <= i < |items| ==> Fits(items[i], depth + 1, lib)
               case Dict(entries) => EntriesShown(entries, depth + 1, lib)
               case Proxy(entries) => EntriesShown(entries, depth + 1, lib)
               case Other => false
  {
    hide ValidKey;
    if v.Dict? || v.Proxy? {
      forall i | 0 <= i < |v.entries| ensures ValidKey(v.entries[i], lib) <==> v.entries[i].PyEntry? && Shown(v.entries[i].key, 128, lib) {
        KeyShown(v.entries[i], lib);
      }
    } else if v.Str? {
      TextShown(v.s, 4096, lib);
    }
  }

  ghost predicate EntriesShown(entries: seq<PyEntry>, depth: nat, lib: Library)
  {
    forall i :: 0 <= i < |entries| ==>
      entries[i].PyEntry? && Shown(entries[i].key, 128, lib) && Fits(entries[i].value, depth, lib)
  }

  lemma TextShown(s: string, chars: nat, lib: Library)
    ensures ValidString(s, chars, lib) <==> Shown(s, chars, lib)
  {
  }

  lemma KeyShown(e: PyEntry, lib: Library)
    ensures ValidKey(e, lib) <==> e.PyEntry? && Shown(e.key, 128, lib)
  {
    if e.PyEntry? {
      TextShown(e.key, 128, lib);
    }
  }

  /** Values are counted, keys are not. */
  lemma NodesMean(v: PyValue, items: seq<PyValue>, e: PyEntry, entries: seq<PyEntry>)
    ensures !IsMapping(v) && !IsSequence(v) ==> Nodes(v) == 1
    ensures Nodes(List([])) == 1 && Nodes(List([v] + items)) == Nodes(v) + Nodes(List(items))
    ensures Nodes(Tuple(items)) == Nodes(List(items))
    ensures Nodes(Dict([])) == 1 && Nodes(Dict([e] + entries)) == Nodes(e.value) + Nodes(Dict(entries))
    ensures Nodes(Proxy(entries)) == Nodes(Dict(entries))
  {
    assert ([v] + items)[1..] == items && ([e] + entries)[1..] == entries;
  }

  /** The JSON value of a payload: a mapping is an object of its entries, the last of equal keys
      winning, and a list or tuple is an array. */
  lemma ImageMeans(v: PyValue, lib: Library)
    ensures v.Null? ==> Image(v, lib) == J.Null
    ensures v.Bool? ==> Image(v, lib) == J.Bool(v.b)
    ensures v.Int? && -0x7FFF_FFFF_FFFF_FFFF <= v.n <= 0x7FFF_FFFF_FFFF_FFFF ==> Image(v, lib) == J.Int(v.n)
    ensures v.Float? ==> Image(v, lib) == J.Float(v.d)
    ensures v.Str? && Shown(v.s, 4096, lib) ==> Image(v, lib) == J.Str(v.s)
    ensures v.List? || v.Tuple? ==>
              Image(v, lib).Arr? && |Image(v, lib).items| == |v.items|
              && forall i :: 0 <= i < |v.items| ==> Image(v, lib).items[i] == Image(v.items[i], lib)
    ensures v.Dict? || v.Proxy? ==> Image(v, lib) == J.Obj(J.FromPairs(EntryImages(v.entries, lib)))
  {
    if v.List? || v.Tuple? {
      ItemImagesMean(v.items, lib);
    }
    if v.Str? {
      TextShown(v.s, 4096, lib);
    }
  }

  lemma {:induction false} ItemImagesMean(items: seq<PyValue>, lib: Library)
    ensures |ItemImages(items, lib)| == |items|
    ensures forall i :: 0 <= i < |items| ==> ItemImages(items, lib)[i] == Image(items[i], lib)
  {
    hide Image;
    if items != [] {
      ItemImagesMean(items[1..], lib);
    }
  }

  lemma {:induction false} EntryImagesMean(entries: seq<PyEntry>, lib: Library)
    ensures |EntryImages(entries, lib)| == |entries|
    ensures forall i :: 0 <= i < |entries| ==>
              EntryImages(entries, lib)[i].value == Image(entries[i].value, lib)
              && (entries[i].PyEntry? ==> EntryImages(entries, lib)[i].key == entries[i].key)
  {
    hide Image;
    if entries != [] {
      EntryImagesMean(entries[1..], lib);
    }
  }

  /** Handed out frozen: arrays as tuples and objects as read-only mappings, all the way down. */
  lemma FrozenMeans(j: J.Json)
    ensures j.Null? ==> Build(j, true) == Null
    ensures j.Bool? ==> Build(j, true) == Bool(j.b)
    ensures j.Int? ==> Build(j, true) == Int(j.n)
    ensures j.Float? ==> Build(j, true) == Float(j.d)
    ensures j.Str? ==> Build(j, true) == Str(j.s)
    ensures j.Arr? ==>
              Build(j, true).Tuple? && |Build(j, true).items| == |j.items|
              && forall i :: 0 <= i < |j.items| ==> Build(j, true).items[i] == Build(j.items[i], true)
    ensures j.Obj? ==>
              Build(j, true).Proxy? && |Build(j, true).entries| == |j.members|
              && forall i :: 0 <= i < |j.members| ==>
                   Build(j, true).entries[i] == PyEntry(j.members[i].key, Build(j.members[i].value, true))
  {
    if j.Arr? {
      BuiltItems(j.items);
    }
    if j.Obj? {
      BuiltMembers(j.members);
    }
  }

  lemma {:induction false} BuiltItems(items: seq<J.Json>)
    ensures |BuildItems(items, true)| == |items|
    ensures forall i :: 0 <= i < |items| ==> BuildItems(items, true)[i] == Build(items[i], true)
  {
    hide Build;
    if items != [] {
      BuiltItems(items[1..]);
    }
  }

  lemma {:induction false} BuiltMembers(ms: seq<J.Member>)
    ensures |BuildMembers(ms, true)| == |ms|
    ensures forall i :: 0 <= i < |ms| ==> BuildMembers(ms, true)[i] == PyEntry(ms[i].key, Build(ms[i].value, true))
  {
    hide Build;
    if ms != [] {
      BuiltMembers(ms[1..]);
    }
  }
}
