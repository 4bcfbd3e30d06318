/** JSON text (RFC 8259) as Python's `json` module reads and writes it:
    `dumps(value, ensure_ascii=False, sort_keys=True, separators=(",", ":"))` and `loads`.

    A Python dict is represented by its items in key order, so dict equality is equality
    of the model values and printing in order is `sort_keys`. */
module JsonText {
  import opened Order

  /** The three parts of a number token that has a fraction or an exponent. */
  datatype Decimal = Decimal(whole: string, fraction: string, exponent: string)

  datatype Json =
    | Null
    | Bool(b: bool)
    | Int(n: int)
    | Float(d: Decimal)
    | Str(s: string)
    | Arr(items: seq<Json>)
    | Obj(members: seq<Member>)

  datatype Member = Member(key: string, value: Json)

  /** Result of reading one construct from the front of a text. */
  datatype Parsed<+T> = Fail | Done(value: T, rest: string)

  // ---------- numbers ----------

  predicate IsDigit(c: char)
  {
    '0' <= c <= '9'
  }

  predicate AllDigits(s: string)
  {
    forall i :: 0 <= i < |s| ==> IsDigit(s[i])
  }

  function DigitChar(d: int): char
    requires 0 <= d < 10
  {
    ('0' as int + d) as char
  }

  function Digits(n: nat): string
  {
    if n < 10 then [DigitChar(n)] else Digits(n / 10) + [DigitChar(n % 10)]
  }

  function DigitsValue(s: string): nat
    requires AllDigits(s)
  {
    if s == "" then 0
    else DigitsValue(s[..|s| - 1]) * 10 + (s[|s| - 1] as int - '0' as int)
  }

  function IntText(n: int): string
  {
    if n < 0 then "-" + Digits(-n) else Digits(n)
  }

  function DigitSpan(s: string): (n: nat)
    ensures n <= |s|
  {
    if s != "" && IsDigit(s[0]) then 1 + DigitSpan(s[1..]) else 0
  }

  lemma {:induction false} SpanIsDigits(s: string)
    ensures AllDigits(s[..DigitSpan(s)])
  {
    if s != "" && IsDigit(s[0]) {
      SpanIsDigits(s[1..]);
      var n := DigitSpan(s);
      assert s[..n] == [s[0]] + s[1..][..n - 1];
    }
  }

  /** Length of `[eE][-+]?[0-9]+` at the front of `s`, or 0. */
  function ExponentSpan(s: string): (n: nat)
    ensures n <= |s|
  {
    if s == "" || (s[0] != 'e' && s[0] != 'E') then 0
    else
      var sign := if |s| > 1 && (s[1] == '+' || s[1] == '-') then 1 else 0;
      var digits := DigitSpan(s[1 + sign..]);
      if digits == 0 then 0 else 1 + sign + digits
  }

  function FractionSpan(s: string): (n: nat)
    ensures n <= |s|
  {
    if |s| >= 2 && s[0] == '.' && IsDigit(s[1]) then 1 + DigitSpan(s[1..]) else 0
  }

  /** Length of `-?(0|[1-9][0-9]*)` at the front of `s`, or 0. */
  function WholeSpan(s: string): (n: nat)
    ensures n <= |s| && (n > 0 ==> WholeToken(s[..n]))
  {
    var sign := if s != "" && s[0] == '-' then 1 else 0;
    var span := DigitSpan(s[sign..]);
    if span == 0 then 0
    else
      var n := sign + if s[sign] == '0' then 1 else span;
      SpanIsDigits(s[sign..]);
      assert s[..n][sign..] == s[sign..][..span][..n - sign];
      n
  }

  function WholeValue(s: string): int
    requires WholeToken(s)
  {
    if s[0] == '-' then -(DigitsValue(s[1..]) as int) else DigitsValue(s)
  }

  function ParseNumber(s: string): (p: Parsed<Json>)
    ensures p.Done? ==> |p.rest| < |s|
  {
    var whole := WholeSpan(s);
    if whole == 0 then Fail
    else
      ParseAfterWhole(s[..whole], s[whole..])
  }

  function ParseAfterWhole(whole: string, tail: string): (p: Parsed<Json>)
    requires WholeToken(whole)
    ensures p.Done? ==> |p.rest| <= |tail|
  {
    var fraction := FractionSpan(tail);
    var exponent := ExponentSpan(tail[fraction..]);
    if fraction == 0 && exponent == 0 then Done(Int(WholeValue(whole)), tail)
    else
      var digits := if fraction == 0 then "" else tail[1..fraction];
      Done(Float(Decimal(whole, digits, tail[fraction..][..exponent])), tail[fraction..][exponent..])
  }

  predicate WholeToken(s: string)
  {
    var body := if s != "" && s[0] == '-' then s[1..] else s;
    body != "" && AllDigits(body) && (|body| > 1 ==> body[0] != '0')
  }

  predicate ExponentToken(s: string)
  {
    s != "" && (s[0] == 'e' || s[0] == 'E') &&
    var body := if |s| > 1 && (s[1] == '+' || s[1] == '-') then s[2..] else s[1..];
    body != "" && AllDigits(body)
  }

  predicate DecimalToken(d: Decimal)
  {
    && WholeToken(d.whole)
    && AllDigits(d.fraction)
    && (d.exponent == "" || ExponentToken(d.exponent))
    && (d.fraction != "" || d.exponent != "")
  }

  function DotText(d: Decimal): string
  {
    if d.fraction == "" then "" else "." + d.fraction
  }

  function DecimalText(d: Decimal): string
  {
    d.whole + DotText(d) + d.exponent
  }

  // ---------- strings ----------

  function HexDigit(d: int): char
    requires 0 <= d < 16
  {
    if d < 10 then DigitChar(d) else ('a' as int + d - 10) as char
  }

  function HexValue(c: char): (r: Option<int>)
    ensures r.Some? ==> 0 <= r.value < 16
  {
    if IsDigit(c) then Some(c as int - '0' as int)
    else if 'a' <= c <= 'f' then Some(c as int - 'a' as int + 10)
    else if 'A' <= c <= 'F' then Some(c as int - 'A' as int + 10)
    else None
  }

  /** The value of four hexadecimal digits at the front of `s`. */
  function HexQuad(s: string): (r: Option<int>)
    ensures r.Some? ==> |s| >= 4 && 0 <= r.value < 0x10000
  {
    if |s| < 4 then None
    else
      var a, b, c, d := HexValue(s[0]), HexValue(s[1]), HexValue(s[2]), HexValue(s[3]);
      if a.None? || b.None? || c.None? || d.None? then None
      else Some(a.value * 0x1000 + b.value * 0x100 + c.value * 0x10 + d.value)
  }

  function EscapeChar(c: char): string
  {
    if c == '"' then "\\\""
    else if c == '\\' then "\\\\"
    else if c == '\n' then "\\n"
    else if c == '\r' then "\\r"
    else if c == '\t' then "\\t"
    else if c as int == 8 then "\\b"
    else if c as int == 12 then "\\f"
    else if c as int < 32 then "\\u00" + [HexDigit(c as int / 16), HexDigit(c as int % 16)]
    else [c]
  }

  function Escape(s: string): string
  {
    if s == "" then "" else EscapeChar(s[0]) + Escape(s[1..])
  }

  function SimpleEscape(c: char): Option<char>
  {
    if c == '"' || c == '\\' || c == '/' then Some(c)
    else if c == 'b' then Some(8 as char)
    else if c == 'f' then Some(12 as char)
    else if c == 'n' then Some('\n')
    else if c == 'r' then Some('\r')
    else if c == 't' then Some('\t')
    else None
  }

  /** One possibly escaped character. A `\u` escape that leaves a lone surrogate fails:
      no caller accepts a text that UTF-8 cannot carry. */
  function ParseChar(s: string): (p: Parsed<char>)
    ensures p.Done? ==> |p.rest| < |s|
  {
    if s == "" || s[0] as int < 32 then Fail
    else if s[0] != '\\' then Done(s[0], s[1..])
    else if |s| < 2 then Fail
    else if s[1] != 'u' then
      match SimpleEscape(s[1])
      case None => Fail
      case Some(c) => Done(c, s[2..])
    else
      match HexQuad(s[2..])
      case None => Fail
      case Some(u) =>
        if 0xD800 <= u < 0xDC00 then
          if |s| < 8 || s[6] != '\\' || s[7] != 'u' then Fail
          else
            match HexQuad(s[8..])
            case None => Fail
            case Some(low) =>
              if !(0xDC00 <= low < 0xE000) then Fail
              else Done((0x10000 + (u - 0xD800) * 0x400 + (low - 0xDC00)) as char, s[12..])
        else if 0xDC00 <= u < 0xE000 then Fail
        else Done(u as char, s[6..])
  }

  /** The text after an opening quote, up to its closing quote. */
  function ParseString(s: string): (p: Parsed<string>)
    ensures p.Done? ==> |p.rest| < |s|
    decreases |s|
  {
    if s != "" && s[0] == '"' then Done("", s[1..])
    else
      match ParseChar(s)
      case Fail => Fail
      case Done(c, rest) =>
        match ParseString(rest)
        case Fail => Fail
        case Done(t, tail) => Done([c] + t, tail)
  }

  function PrintString(s: string): string
  {
    "\"" + Escape(s) + "\""
  }

  // ---------- values ----------

  function Print(v: Json): string
  {
    match v
    case Null => "null"
    case Bool(b) => if b then "true" else "false"
    case Int(n) => IntText(n)
    case Float(d) => DecimalText(d)
    case Str(s) => PrintString(s)
    case Arr(items) => "[" + PrintItems(items) + "]"
    case Obj(members) => "{" + PrintMembers(members) + "}"
  }

  function PrintItems(items: seq<Json>): string
  {
    if items == [] then ""
    else if |items| == 1 then Print(items[0])
    else Print(items[0]) + "," + PrintItems(items[1..])
  }

  function PrintMember(m: Member): string
  {
    PrintString(m.key) + ":" + Print(m.value)
  }

  function PrintMembers(members: seq<Member>): string
  {
    if members == [] then ""
    else if |members| == 1 then PrintMember(members[0])
    else PrintMember(members[0]) + "," + PrintMembers(members[1..])
  }

  predicate IsSpace(c: char)
  {
    c == ' ' || c == '\t' || c == '\n' || c == '\r'
  }

  function SkipSpace(s: string): (r: string)
    ensures |r| <= |s|
  {
    if s != "" && IsSpace(s[0]) then SkipSpace(s[1..]) else s
  }

  predicate StartsWith(s: string, prefix: string)
  {
    |prefix| <= |s| && s[..|prefix|] == prefix
  }

  /** One value at the front of `s`. Objects keep their pairs in source order. */
  function ParseValue(s: string): (p: Parsed<Json>)
    ensures p.Done? ==> |p.rest| < |s|
    decreases |s|, 1
  {
    if s == "" then Fail
    else if s[0] == '"' then
      match ParseString(s[1..])
      case Fail => Fail
      case Done(t, rest) => Done(Str(t), rest)
    else if s[0] == '[' then
      var inner := SkipSpace(s[1..]);
      if inner != "" && inner[0] == ']' then Done(Arr([]), inner[1..])
      else
        match ParseItems(inner)
        case Fail => Fail
        case Done(items, rest) => Done(Arr(items), rest)
    else if s[0] == '{' then
      var inner := SkipSpace(s[1..]);
      if inner != "" && inner[0] == '}' then Done(Obj([]), inner[1..])
      else
        match ParseMembers(inner)
        case Fail => Fail
        case Done(members, rest) => Done(Obj(members), rest)
    else if StartsWith(s, "null") then Done(Null, s[4..])
    else if StartsWith(s, "true") then Done(Bool(true), s[4..])
    else if StartsWith(s, "false") then Done(Bool(false), s[5..])
    else ParseNumber(s)
  }

  function ParseItems(s: string): (p: Parsed<seq<Json>>)
    ensures p.Done? ==> |p.rest| < |s|
    decreases |s|, 2
  {
    match ParseValue(s)
    case Fail => Fail
    case Done(v, rest) =>
      var next := SkipSpace(rest);
      if next == "" then Fail
      else if next[0] == ']' then Done([v], next[1..])
      else if next[0] != ',' then Fail
      else
        match ParseItems(SkipSpace(next[1..]))
        case Fail => Fail
        case Done(vs, tail) => Done([v] + vs, tail)
  }

  function ParseMember(s: string): (p: Parsed<Member>)
    ensures p.Done? ==> |p.rest| < |s|
    decreases |s|, 2
  {
    if s == "" || s[0] != '"' then Fail
    else
      match ParseString(s[1..])
      case Fail => Fail
      case Done(key, rest) =>
        var colon := SkipSpace(rest);
        if colon == "" || colon[0] != ':' then Fail
        else
          match ParseValue(SkipSpace(colon[1..]))
          case Fail => Fail
          case Done(v, tail) => Done(Member(key, v), tail)
  }

  function ParseMembers(s: string): (p: Parsed<seq<Member>>)
    ensures p.Done? ==> |p.rest| < |s|
    decreases |s|, 3
  {
    match ParseMember(s)
    case Fail => Fail
    case Done(m, rest) =>
      var next := SkipSpace(rest);
      if next == "" then Fail
      else if next[0] == '}' then Done([m], next[1..])
      else if next[0] != ',' then Fail
      else
        match ParseMembers(SkipSpace(next[1..]))
        case Fail => Fail
        case Done(ms, tail) => Done([m] + ms, tail)
  }

  /** The syntax tree of a whole JSON document. */
  function ParseText(s: string): Option<Json>
  {
    match ParseValue(SkipSpace(s))
    case Fail => None
    case Done(v, rest) => if SkipSpace(rest) == "" then Some(v) else None
  }

  // ---------- from syntax tree to Python value ----------

  /** How `float` reads a decimal token: the token its `repr` prints, or None for an
      overflow to infinity, which no caller accepts. */
  type FloatReader = Decimal -> Option<Decimal>

  /** `d[key] = value` on a dict kept in key order. */
  function Insert(members: seq<Member>, m: Member): seq<Member>
  {
    if members == [] then [m]
    else if members[0].key == m.key then [m] + members[1..]
    else if TextLess(members[0].key, m.key) then [members[0]] + Insert(members[1..], m)
    else [m] + members
  }

  /** `dict(pairs)`: a later pair replaces an earlier one with the same key. */
  function FromPairs(pairs: seq<Member>): seq<Member>
  {
    if pairs == [] then []
    else Insert(FromPairs(pairs[..|pairs| - 1]), pairs[|pairs| - 1])
  }

  /** The Python value of a syntax tree under `json.loads` with its default hooks. */
  function Load(v: Json, floats: FloatReader): Option<Json>
  {
    match v
    case Float(d) => (match floats(d) case None => None case Some(r) => Some(Float(r)))
    case Arr(items) => (match LoadItems(items, floats) case None => None case Some(vs) => Some(Arr(vs)))
    case Obj(ms) => (match LoadMembers(ms, floats) case None => None case Some(vs) => Some(Obj(FromPairs(vs))))
    case _ => Some(v)
  }

  function LoadItems(items: seq<Json>, floats: FloatReader): Option<seq<Json>>
  {
    if items == [] then Some([])
    else
      match (Load(items[0], floats), LoadItems(items[1..], floats))
      case (Some(v), Some(vs)) => Some([v] + vs)
      case _ => None
  }

  function LoadMembers(members: seq<Member>, floats: FloatReader): Option<seq<Member>>
  {
    if members == [] then Some([])
    else
      match (Load(members[0].value, floats), LoadMembers(members[1..], floats))
      case (Some(v), Some(vs)) => Some([Member(members[0].key, v)] + vs)
      case _ => None
  }

  function Loads(s: string, floats: FloatReader): Option<Json>
  {
    match ParseText(s)
    case None => None
    case Some(v) => Load(v, floats)
  }

  ghost predicate KeysAscend(members: seq<Member>)
  {
    forall i, j :: 0 <= i < j < |members| ==> TextLess(members[i].key, members[j].key)
  }

  /** A value a Python program can hold: dict keys distinct (so ordered here) and every
      float given by the token its `repr` prints. */
  ghost predicate Canonical(v: Json, floats: FloatReader)
  {
    match v
    case Float(d) => DecimalToken(d) && floats(d) == Some(d)
    case Arr(items) => forall i :: 0 <= i < |items| ==> Canonical(items[i], floats)
    case Obj(ms) => KeysAscend(ms) && forall i :: 0 <= i < |ms| ==> Canonical(ms[i].value, floats)
    case _ => true
  }

  // ---------- reading what was printed ----------

  lemma {:induction false} DigitsShape(n: nat)
    ensures AllDigits(Digits(n)) && Digits(n) != "" && DigitsValue(Digits(n)) == n
    ensures Digits(n)[0] == '0' ==> n == 0
    ensures |Digits(n)| > 1 ==> Digits(n)[0] != '0'
  {
    if n < 10 {
      assert Digits(n)[..0] == "";
    } else {
      DigitsShape(n / 10);
      var s := Digits(n);
      assert s[..|s| - 1] == Digits(n / 10);
    }
  }

  lemma {:induction false} DigitSpanExact(s: string, rest: string)
    requires AllDigits(s)
    requires rest == "" || !IsDigit(rest[0])
    ensures DigitSpan(s + rest) == |s|
  {
    if s == "" {
      assert s + rest == rest;
    } else {
      assert (s + rest)[1..] == s[1..] + rest;
      DigitSpanExact(s[1..], rest);
    }
  }

  /** What may follow a printed value. */
  predicate Boundary(rest: string)
  {
    rest == "" || rest[0] == ',' || rest[0] == ']' || rest[0] == '}'
  }

  lemma ReadWhole(w: string, tail: string)
    requires WholeToken(w)
    requires tail == "" || !IsDigit(tail[0])
    ensures w != "" && WholeSpan(w + tail) == |w|
  {
    var s := w + tail;
    var sign := if w[0] == '-' then 1 else 0;
    assert s[0] == w[0] && s[sign] == w[sign];
    assert s[sign..] == w[sign..] + tail;
    DigitSpanExact(w[sign..], tail);
  }

  lemma IntTextShape(n: int)
    ensures WholeToken(IntText(n)) && WholeValue(IntText(n)) == n
  {
    DigitsShape(if n < 0 then -n else n);
    if n < 0 {
      assert IntText(n)[1..] == Digits(-n);
    }
  }

  lemma ReadInt(n: int, rest: string)
    requires Boundary(rest)
    ensures ParseNumber(IntText(n) + rest) == Done(Int(n), rest)
  {
    hide WholeSpan, DigitSpan, Digits, DigitsValue, WholeValue, WholeToken;
    var w := IntText(n);
    IntTextShape(n);
    ReadWhole(w, rest);
    assert (w + rest)[..|w|] == w && (w + rest)[|w|..] == rest;
    assert rest[0..] == rest;
  }

  lemma ReadExponent(e: string, rest: string)
    requires e == "" || ExponentToken(e)
    requires Boundary(rest)
    ensures ExponentSpan(e + rest) == |e|
  {
    if e == "" {
      assert e + rest == rest;
    } else {
      var s := e + rest;
      var sign := if |e| > 1 && (e[1] == '+' || e[1] == '-') then 1 else 0;
      assert s[1 + sign..] == e[1 + sign..] + rest;
      DigitSpanExact(e[1 + sign..], rest);
    }
  }

  lemma ReadFraction(f: string, tail: string)
    requires AllDigits(f)
    requires tail == "" || (!IsDigit(tail[0]) && tail[0] != '.')
    ensures FractionSpan((if f == "" then "" else "." + f) + tail) == if f == "" then 0 else 1 + |f|
  {
    if f == "" {
      assert "" + tail == tail;
    } else {
      var s := "." + f + tail;
      assert s[1..] == f + tail;
      DigitSpanExact(f, tail);
    }
  }

  lemma ReadDecimalTail(d: Decimal, rest: string)
    requires DecimalToken(d) && Boundary(rest)
    ensures ParseAfterWhole(d.whole, DotText(d) + (d.exponent + rest)) == Done(Float(d), rest)
  {
    hide ExponentSpan, FractionSpan, DigitSpan, WholeToken, WholeValue;
    var dot, end := DotText(d), d.exponent + rest;
    var tail := dot + end;
    assert end == "" || (!IsDigit(end[0]) && end[0] != '.') by {
      assert d.exponent == "" ==> end == rest;
    }
    ReadFraction(d.fraction, end);
    assert tail[|dot|..] == end;
    ReadExponent(d.exponent, rest);
    assert end[..|d.exponent|] == d.exponent && end[|d.exponent|..] == rest;
    if d.fraction != "" {
      assert tail[1..|dot|] == d.fraction;
    }
  }

  lemma ReadDecimal(d: Decimal, rest: string)
    requires DecimalToken(d) && Boundary(rest)
    ensures ParseNumber(DecimalText(d) + rest) == Done(Float(d), rest)
  {
    hide ParseAfterWhole, WholeSpan, ExponentToken, WholeToken, AllDigits, DotText, Boundary, IsDigit;
    var tail := DotText(d) + (d.exponent + rest);
    var s := d.whole + tail;
    assert DecimalText(d) + rest == s;
    TailStart(d, rest);
    ReadWhole(d.whole, tail);
    assert s[..|d.whole|] == d.whole && s[|d.whole|..] == tail;
    ReadDecimalTail(d, rest);
  }

  lemma TailStart(d: Decimal, rest: string)
    requires DecimalToken(d)
    ensures var tail := DotText(d) + (d.exponent + rest); tail != "" && !IsDigit(tail[0])
  {
    hide ExponentToken, WholeToken, AllDigits;
    var tail := DotText(d) + (d.exponent + rest);
    if d.fraction != "" {
      assert tail[0] == '.';
    } else {
      assert tail[0] == d.exponent[0];
      ExponentStart(d.exponent);
    }
  }

  lemma ExponentStart(e: string)
    requires ExponentToken(e)
    ensures !IsDigit(e[0])
  {
  }

  lemma HexDigitValue(d: int)
    requires 0 <= d < 16
    ensures HexValue(HexDigit(d)) == Some(d)
  {
  }

  lemma ReadHexQuad(n: int, rest: string)
    requires 0 <= n < 32
    ensures HexQuad("00" + [HexDigit(n / 16), HexDigit(n % 16)] + rest) == Some(n)
  {
    hide HexDigit, HexValue;
    HexDigitValue(n / 16);
    HexDigitValue(n % 16);
    ZeroValue();
  }

  lemma ZeroValue()
    ensures HexValue('0') == Some(0)
  {
  }

  lemma ReadUnicodeEscape(n: int, rest: string)
    requires 0 <= n < 32
    ensures ParseChar("\\u00" + [HexDigit(n / 16), HexDigit(n % 16)] + rest) == Done(n as char, rest)
  {
    hide HexQuad, HexDigit;
    var s := "\\u00" + [HexDigit(n / 16), HexDigit(n % 16)] + rest;
    ReadHexQuad(n, rest);
    assert s[2..] == "00" + [HexDigit(n / 16), HexDigit(n % 16)] + rest && s[6..] == rest;
  }

  lemma ReadShortEscape(c: char, rest: string)
    requires |EscapeChar(c)| <= 2
    ensures ParseChar(EscapeChar(c) + rest) == Done(c, rest)
  {
    hide HexQuad, HexDigit;
    var e := EscapeChar(c);
    assert (e + rest)[|e|..] == rest;
  }

  lemma ReadEscapedChar(c: char, rest: string)
    ensures ParseChar(EscapeChar(c) + rest) == Done(c, rest)
    ensures EscapeChar(c)[0] != '"'
  {
    hide ParseChar, HexDigit;
    if |EscapeChar(c)| <= 2 {
      ReadShortEscape(c, rest);
    } else {
      ReadUnicodeEscape(c as int, rest);
    }
  }

  lemma {:induction false} ReadString(t: string, rest: string)
    ensures ParseString(Escape(t) + "\"" + rest) == Done(t, rest)
  {
    hide ParseChar, EscapeChar;
    if t == "" {
      assert (Escape(t) + "\"" + rest)[1..] == rest;
    } else {
      var tail := Escape(t[1..]) + "\"" + rest;
      assert Escape(t) + "\"" + rest == EscapeChar(t[0]) + tail;
      ReadEscapedChar(t[0], tail);
      ReadString(t[1..], rest);
      assert t == [t[0]] + t[1..];
    }
  }

  lemma PrintedStart(v: Json, floats: FloatReader)
    requires Canonical(v, floats)
    ensures Print(v) != "" && !IsSpace(Print(v)[0]) && Print(v)[0] != ']' && Print(v)[0] != '}'
    ensures v.Int? || v.Float? ==> Print(v)[0] == '-' || IsDigit(Print(v)[0])
  {
    if v.Int? {
      DigitsShape(if v.n < 0 then -v.n else v.n);
    }
  }

  lemma FirstDiffers(s: string, prefix: string)
    requires s != "" && prefix != "" && s[0] != prefix[0]
    ensures !StartsWith(s, prefix)
  {
  }

  lemma ReadLiteral(v: Json, rest: string)
    requires v.Null? || v.Bool?
    ensures ParseValue(Print(v) + rest) == Done(v, rest)
  {
    var w := Print(v);
    assert (w + rest)[..|w|] == w && (w + rest)[|w|..] == rest && (w + rest)[0] == w[0];
    if !v.Null? {
      FirstDiffers(w + rest, "null");
      if !v.b {
        FirstDiffers(w + rest, "true");
      }
    }
  }

  lemma NumberDispatch(s: string)
    requires s != "" && (s[0] == '-' || IsDigit(s[0]))
    ensures ParseValue(s) == ParseNumber(s)
  {
    hide ParseNumber, ParseString, ParseItems, ParseMembers, SkipSpace, StartsWith;
    FirstDiffers(s, "null");
    FirstDiffers(s, "true");
    FirstDiffers(s, "false");
  }

  lemma ItemsStart(items: seq<Json>)
    requires items != []
    ensures Print(items[0]) <= PrintItems(items)
  {
  }

  lemma MembersStart(members: seq<Member>)
    requires members != []
    ensures PrintMembers(members) != "" && PrintMembers(members)[0] == '"'
  {
  }

  /** A printed value is read back whole, whatever may follow a value in a document. */
  lemma {:induction false} ReadValue(v: Json, floats: FloatReader, rest: string)
    requires Canonical(v, floats) && Boundary(rest)
    ensures ParseValue(Print(v) + rest) == Done(v, rest)
    decreases v, 0
  {
    hide ParseNumber, ParseString, ParseItems, ParseMembers, IntText, DecimalText, PrintItems, PrintMembers, Escape;
    PrintedStart(v, floats);
    match v {
      case Null => ReadLiteral(v, rest);
      case Bool(_) => ReadLiteral(v, rest);
      case Int(n) =>
        ReadInt(n, rest);
        NumberDispatch(Print(v) + rest);
      case Float(d) =>
        ReadDecimal(d, rest);
        NumberDispatch(Print(v) + rest);
      case Str(t) =>
        assert (Print(v) + rest)[1..] == Escape(t) + "\"" + rest;
        ReadString(t, rest);
      case Arr(items) => ReadArray(items, floats, rest);
      case Obj(members) => ReadObject(members, floats, rest);
    }
  }

  lemma {:induction false} ReadArray(items: seq<Json>, floats: FloatReader, rest: string)
    requires forall i :: 0 <= i < |items| ==> Canonical(items[i], floats)
    ensures ParseValue(Print(Arr(items)) + rest) == Done(Arr(items), rest)
    decreases items, 1
  {
    hide ParseString, ParseItems, ParseNumber, Escape;
    var s := Print(Arr(items)) + rest;
    var inner := PrintItems(items) + "]" + rest;
    assert s[0] == '[' && s[1..] == inner;
    if items == [] {
      assert inner[1..] == rest;
    } else {
      PrintedStart(items[0], floats);
      ItemsStart(items);
      assert inner[0] == Print(items[0])[0];
      ReadItems(items, floats, rest);
    }
  }

  lemma {:induction false} ReadObject(members: seq<Member>, floats: FloatReader, rest: string)
    requires forall i :: 0 <= i < |members| ==> Canonical(members[i].value, floats)
    ensures ParseValue(Print(Obj(members)) + rest) == Done(Obj(members), rest)
    decreases members, 1
  {
    hide ParseString, ParseMembers, ParseNumber, Escape;
    var s := Print(Obj(members)) + rest;
    var inner := PrintMembers(members) + "}" + rest;
    assert s[0] == '{' && s[1..] == inner;
    if members == [] {
      assert inner[1..] == rest;
    } else {
      MembersStart(members);
      ReadMembers(members, floats, rest);
    }
  }

  lemma {:induction false} ReadItems(items: seq<Json>, floats: FloatReader, rest: string)
    requires items != [] && forall i :: 0 <= i < |items| ==> Canonical(items[i], floats)
    ensures ParseItems(PrintItems(items) + "]" + rest) == Done(items, rest)
    decreases items, 0
  {
    hide ParseValue, Print;
    var v, vs := items[0], items[1..];
    assert items == [v] + vs;
    if vs == [] {
      var tail := "]" + rest;
      assert PrintItems(items) + "]" + rest == Print(v) + tail;
      ReadValue(v, floats, tail);
      assert SkipSpace(tail) == tail && tail[1..] == rest;
      assert items == [v];
    } else {
      var next := PrintItems(vs) + "]" + rest;
      var tail := "," + next;
      assert PrintItems(items) + "]" + rest == Print(v) + tail;
      ReadValue(v, floats, tail);
      PrintedStart(vs[0], floats);
      ItemsStart(vs);
      assert next[0] == Print(vs[0])[0];
      assert SkipSpace(tail) == tail && tail[1..] == next && SkipSpace(next) == next;
      ReadItems(vs, floats, rest);
    }
  }

  lemma MemberText(m: Member, rest: string)
    ensures PrintMember(m) + rest != "" && (PrintMember(m) + rest)[0] == '"'
    ensures (PrintMember(m) + rest)[1..] == Escape(m.key) + "\"" + (":" + (Print(m.value) + rest))
  {
    var e, p := Escape(m.key), Print(m.value);
    assert "\"" + e + "\"" + ":" + p + rest == "\"" + (e + "\"" + (":" + (p + rest)));
  }

  lemma {:induction false} ReadMember(m: Member, floats: FloatReader, rest: string)
    requires Canonical(m.value, floats) && Boundary(rest)
    ensures ParseMember(PrintMember(m) + rest) == Done(m, rest)
    decreases m, 0
  {
    hide ParseValue, ParseString, Print, Escape;
    var value := Print(m.value) + rest;
    var colon := ":" + value;
    MemberText(m, rest);
    ReadString(m.key, colon);
    assert SkipSpace(colon) == colon && colon[1..] == value;
    PrintedStart(m.value, floats);
    assert value[0] == Print(m.value)[0] && SkipSpace(value) == value;
    ReadValue(m.value, floats, rest);
    assert m == Member(m.key, m.value);
  }

  lemma {:induction false} ReadMembers(members: seq<Member>, floats: FloatReader, rest: string)
    requires members != [] && forall i :: 0 <= i < |members| ==> Canonical(members[i].value, floats)
    ensures ParseMembers(PrintMembers(members) + "}" + rest) == Done(members, rest)
    decreases members, 0
  {
    hide ParseMember, Print, Escape;
    var m, ms := members[0], members[1..];
    assert members == [m] + ms;
    if ms == [] {
      var tail := "}" + rest;
      assert PrintMembers(members) + "}" + rest == PrintMember(m) + tail;
      ReadMember(m, floats, tail);
      assert SkipSpace(tail) == tail && tail[1..] == rest;
      assert members == [m];
    } else {
      var next := PrintMembers(ms) + "}" + rest;
      var tail := "," + next;
      assert PrintMembers(members) + "}" + rest == PrintMember(m) + tail;
      ReadMember(m, floats, tail);
      MembersStart(ms);
      assert next[0] == '"';
      assert SkipSpace(tail) == tail && tail[1..] == next && SkipSpace(next) == next;
      ReadMembers(ms, floats, rest);
    }
  }

  // ---------- loaded objects keep their keys in order ----------

  ghost predicate WellKeyed(v: Json)
  {
    match v
    case Arr(items) => forall i :: 0 <= i < |items| ==> WellKeyed(items[i])
    case Obj(ms) => KeysAscend(ms) && forall i :: 0 <= i < |ms| ==> WellKeyed(ms[i].value)
    case _ => true
  }

  ghost predicate MembersWellKeyed(ms: seq<Member>)
  {
    forall i :: 0 <= i < |ms| ==> WellKeyed(ms[i].value)
  }

  lemma {:induction false} InsertAscends(members: seq<Member>, m: Member)
    requires KeysAscend(members)
    ensures KeysAscend(Insert(members, m))
    ensures forall x :: x in Insert(members, m) ==> x == m || x in members
  {
    if members != [] && members[0].key != m.key {
      TextTotal(members[0].key, m.key);
      if TextLess(members[0].key, m.key) {
        InsertAscends(members[1..], m);
        var rest := Insert(members[1..], m);
        forall x | x in rest ensures TextLess(members[0].key, x.key) {
          assert x == m || x in members[1..];
        }
      } else {
        forall i | 0 <= i < |members| ensures TextLess(m.key, members[i].key) {
          if i > 0 {
            TextTransitive(m.key, members[0].key, members[i].key);
          }
        }
      }
    }
  }

  lemma {:induction false} FromPairsAscends(pairs: seq<Member>)
    ensures KeysAscend(FromPairs(pairs))
    ensures forall x :: x in FromPairs(pairs) ==> x in pairs
  {
    if pairs != [] {
      FromPairsAscends(pairs[..|pairs| - 1]);
      InsertAscends(FromPairs(pairs[..|pairs| - 1]), pairs[|pairs| - 1]);
    }
  }

  /** Inserting replaces the member with the same key, if there is one, and no other. */
  lemma {:induction false} InsertMeans(members: seq<Member>, m: Member)
    requires KeysAscend(members)
    ensures forall x :: x in Insert(members, m) <==> x == m || (x in members && x.key != m.key)
  {
    hide TextLess;
    if members != [] {
      var first, rest := members[0], members[1..];
      assert members == [first] + rest;
      assert forall x :: x in rest ==> TextLess(first.key, x.key);
      TextAsymmetricAll(first.key);
      TextTotal(first.key, m.key);
      if first.key != m.key {
        if TextLess(first.key, m.key) {
          InsertMeans(rest, m);
        } else {
          forall x | x in members ensures x.key != m.key {
            if x in rest {
              TextTransitive(m.key, first.key, x.key);
            }
          }
        }
      }
    }
  }

  lemma TextAsymmetricAll(a: string)
    ensures forall b :: TextLess(a, b) ==> a != b && !TextLess(b, a)
    ensures !TextLess(a, a)
  {
    forall b | TextLess(a, b) ensures a != b && !TextLess(b, a) {
      TextAsymmetric(a, b);
    }
  }

  /** `dict(pairs)`: of several pairs with one key the last is kept. */
  lemma FromPairsMeans(pairs: seq<Member>, m: Member)
    ensures FromPairs([]) == []
    ensures forall x :: x in FromPairs(pairs + [m]) <==> x == m || (x in FromPairs(pairs) && x.key != m.key)
  {
    assert (pairs + [m])[..|pairs|] == pairs;
    FromPairsAscends(pairs);
    InsertMeans(FromPairs(pairs), m);
  }

  lemma {:induction false} LoadWellKeyed(v: Json, floats: FloatReader)
    requires Load(v, floats).Some?
    ensures WellKeyed(Load(v, floats).value)
    decreases v, 0
  {
    match v {
      case Arr(items) => LoadItemsWellKeyed(items, floats);
      case Obj(ms) =>
        LoadMembersWellKeyed(ms, floats);
        var pairs := LoadMembers(ms, floats).value;
        FromPairsAscends(pairs);
        forall i | 0 <= i < |FromPairs(pairs)| ensures WellKeyed(FromPairs(pairs)[i].value) {
          assert FromPairs(pairs)[i] in pairs;
        }
      case _ =>
    }
  }

  lemma {:induction false} LoadItemsWellKeyed(items: seq<Json>, floats: FloatReader)
    requires LoadItems(items, floats).Some?
    ensures forall i :: 0 <= i < |LoadItems(items, floats).value| ==> WellKeyed(LoadItems(items, floats).value[i])
    decreases items, 0
  {
    if items != [] {
      LoadWellKeyed(items[0], floats);
      LoadItemsWellKeyed(items[1..], floats);
    }
  }

  lemma {:induction false} LoadMembersWellKeyed(ms: seq<Member>, floats: FloatReader)
    requires LoadMembers(ms, floats).Some?
    ensures MembersWellKeyed(LoadMembers(ms, floats).value)
    decreases ms, 0
  {
    if ms != [] {
      LoadWellKeyed(ms[0].value, floats);
      LoadMembersWellKeyed(ms[1..], floats);
    }
  }

  // ---------- loading a canonical tree changes nothing ----------

  lemma {:induction false} InsertLast(members: seq<Member>, m: Member)
    requires forall i :: 0 <= i < |members| ==> TextLess(members[i].key, m.key)
    ensures Insert(members, m) == members + [m]
  {
    if members != [] {
      TextAsymmetric(members[0].key, m.key);
      InsertLast(members[1..], m);
    }
  }

  lemma {:induction false} FromAscendingPairs(pairs: seq<Member>)
    requires KeysAscend(pairs)
    ensures FromPairs(pairs) == pairs
  {
    if pairs != [] {
      var front := pairs[..|pairs| - 1];
      FromAscendingPairs(front);
      InsertLast(front, pairs[|pairs| - 1]);
    }
  }

  lemma {:induction false} LoadCanonical(v: Json, floats: FloatReader)
    requires Canonical(v, floats)
    ensures Load(v, floats) == Some(v)
    decreases v, 0
  {
    match v {
      case Arr(items) => LoadCanonicalItems(items, floats);
      case Obj(members) =>
        LoadCanonicalMembers(members, floats);
        FromAscendingPairs(members);
      case _ =>
    }
  }

  lemma {:induction false} LoadCanonicalItems(items: seq<Json>, floats: FloatReader)
    requires forall i :: 0 <= i < |items| ==> Canonical(items[i], floats)
    ensures LoadItems(items, floats) == Some(items)
    decreases items, 0
  {
    if items != [] {
      LoadCanonical(items[0], floats);
      LoadCanonicalItems(items[1..], floats);
      assert items == [items[0]] + items[1..];
    }
  }

  lemma {:induction false} LoadCanonicalMembers(members: seq<Member>, floats: FloatReader)
    requires forall i :: 0 <= i < |members| ==> Canonical(members[i].value, floats)
    ensures LoadMembers(members, floats) == Some(members)
    decreases members, 0
  {
    if members != [] {
      LoadCanonical(members[0].value, floats);
      LoadCanonicalMembers(members[1..], floats);
      assert members == [members[0]] + members[1..];
    }
  }

  /** `json.loads(json.dumps(v)) == v` for every value a program can hold. */
  lemma LoadsPrinted(v: Json, floats: FloatReader)
    requires Canonical(v, floats)
    ensures ParseText(Print(v)) == Some(v)
    ensures Loads(Print(v), floats) == Some(v)
  {
    PrintedStart(v, floats);
    ReadValue(v, floats, "");
    assert Print(v) + "" == Print(v);
    LoadCanonical(v, floats);
  }

  /** Printing is injective, so a stored text determines the value. */
  lemma PrintInjective(v: Json, w: Json, floats: FloatReader)
    requires Canonical(v, floats) && Canonical(w, floats) && Print(v) == Print(w)
    ensures v == w
  {
    LoadsPrinted(v, floats);
    LoadsPrinted(w, floats);
  }
}
