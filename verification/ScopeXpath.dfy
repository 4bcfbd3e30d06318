/** `_scope_xpath`: make absolute path expressions inside a selector relative by writing a
    dot before every path slash that stands in operand position. */
module ScopeXpath {

  /** The character tables and the case-insensitive operator test the scanner consults. */
  datatype Chars = Chars(
    isSpace: char -> bool,
    isDigit: char -> bool,
    isAlpha: char -> bool,
    isAlnum: char -> bool,
    isWordOperator: string -> bool)

  /** The tables classify the five punctuation marks the scanner dispatches on as Python
      does, and no word operator ends in a dot. */
  ghost predicate Lawful(t: Chars)
  {
    && (forall c :: c == '/' || c == '.' || c == ':' || c == '"' || c == '\'' ==>
          !t.isSpace(c) && !t.isDigit(c) && !t.isAlpha(c) && !t.isAlnum(c))
    && (forall w :: !t.isWordOperator(w + "."))
  }

  datatype Kind = Space | Literal | Axis | Slash | Dot | Number | Name | Other

  // ---------- tokens ----------

  function KindOf(t: Chars, s: string): Kind
    requires s != ""
  {
    var c := s[0];
    if t.isSpace(c) then Space
    else if c == '"' || c == '\'' then Literal
    else if c == ':' && |s| > 1 && s[1] == ':' then Axis
    else if c == '/' then Slash
    else if c == '.' then Dot
    else if t.isDigit(c) then Number
    else if t.isAlpha(c) || c == '_' then Name
    else Other
  }

  /** Characters up to and including the closing quote, or all that are left. */
  function QuoteRun(s: string, quote: char): (n: nat)
    ensures n <= |s|
  {
    if s == "" then 0 else if s[0] == quote then 1 else 1 + QuoteRun(s[1..], quote)
  }

  predicate NumberChar(t: Chars, c: char)
  {
    t.isDigit(c) || c == '.'
  }

  function NumberRun(t: Chars, s: string): (n: nat)
    ensures n <= |s|
  {
    if s != "" && NumberChar(t, s[0]) then 1 + NumberRun(t, s[1..]) else 0
  }

  /** The character at the front of `s` continues a name. */
  predicate NameChar(t: Chars, s: string)
    requires s != ""
  {
    || t.isAlnum(s[0]) || s[0] == '_' || s[0] == '-' || s[0] == '.'
    || (s[0] == ':' && !(|s| > 1 && s[1] == ':'))
  }

  function NameRun(t: Chars, s: string): (n: nat)
    ensures n <= |s|
  {
    if s != "" && NameChar(t, s) then 1 + NameRun(t, s[1..]) else 0
  }

  function SizeOf(t: Chars, s: string): (n: nat)
    requires s != ""
    ensures 1 <= n <= |s|
  {
    match KindOf(t, s)
    case Literal => 1 + QuoteRun(s[1..], s[0])
    case Axis => 2
    case Slash => if |s| > 1 && s[1] == '/' then 2 else 1
    case Dot => if |s| > 1 && s[1] == '.' then 2 else 1
    case Number => 1 + NumberRun(t, s[1..])
    case Name => 1 + NameRun(t, s[1..])
    case _ => 1
  }

  /** `expects_operand` after a token. */
  function Next(t: Chars, kind: Kind, token: string, expects: bool): bool
    requires token != ""
  {
    match kind
    case Space => expects
    case Axis => true
    case Slash => true
    case Name => !expects && t.isWordOperator(token)
    case Other =>
      var c := token[0];
      if c == '(' || c == '[' || c == '|' || c == ',' || c == '=' || c == '!'
         || c == '<' || c == '>' || c == '+' || c == '-' || c == '@' then true
      else if c == ')' || c == ']' then false
      else if c == '*' then !expects
      else expects
    case _ => false
  }

  function After(t: Chars, s: string, expects: bool): bool
    requires s != ""
  {
    Next(t, KindOf(t, s), s[..SizeOf(t, s)], expects)
  }

  /** The rewritten selector. */
  function Scope(t: Chars, s: string, expects: bool): string
    decreases |s|
  {
    if s == "" then ""
    else
      var n := SizeOf(t, s);
      (if KindOf(t, s) == Slash && expects then "." else "") + s[..n] + Scope(t, s[n..], After(t, s, expects))
  }

  /** `_scope_xpath`. */
  method ScopeSelector(t: Chars, selector: string) returns (r: string)
    ensures r == Scope(t, selector, true)
  {
    hide Scope, SizeOf, Next, KindOf, After;
    r := "";
    var index, expects := 0, true;
    assert selector[0..] == selector;
    assert "" + Scope(t, selector, true) == Scope(t, selector, true);
    while index < |selector|
      invariant 0 <= index <= |selector|
      invariant r + Scope(t, selector[index..], expects) == Scope(t, selector, true)
    {
      var rest := selector[index..];
      var kind := KindOf(t, rest);
      var size := TokenSize(t, selector, index);
      ScopeAt(t, selector, index, expects, r);
      var token := selector[index..index + size];
      var dot := if kind == Slash && expects then "." else "";
      r := r + dot + token;
      expects := Next(t, kind, token, expects);
      index := index + size;
    }
    ScopeNothing(t, expects);
    assert selector[index..] == "" && r + "" == r;
  }

  /** The end of the token at `index`, by the scanner's inner loops. */
  method TokenSize(t: Chars, selector: string, index: nat) returns (size: nat)
    requires index < |selector|
    ensures size == SizeOf(t, selector[index..]) && index + size <= |selector|
  {
    hide KindOf, QuoteRun, NumberRun, NameRun;
    var s := selector[index..];
    var kind := KindOf(t, s);
    if kind == Literal {
      size := LiteralSize(selector, index);
    } else if kind == Number {
      size := NumberSize(t, selector, index);
    } else if kind == Name {
      size := NameSize(t, selector, index);
    } else {
      size := SizeOf(t, s);
    }
    assert s[1..] == selector[index + 1..];
  }

  method LiteralSize(selector: string, index: nat) returns (size: nat)
    requires index < |selector|
    ensures size == 1 + QuoteRun(selector[index + 1..], selector[index])
  {
    var quote, end := selector[index], index + 1;
    while end < |selector| && selector[end] != quote
      invariant index < end <= |selector|
      invariant end - index + QuoteRun(selector[end..], quote) == 1 + QuoteRun(selector[index + 1..], quote)
    {
      assert selector[end..][1..] == selector[end + 1..];
      end := end + 1;
    }
    return (if end < |selector| then end + 1 else end) - index;
  }

  method NumberSize(t: Chars, selector: string, index: nat) returns (size: nat)
    requires index < |selector|
    ensures size == 1 + NumberRun(t, selector[index + 1..])
  {
    hide NumberChar;
    var end := index + 1;
    while end < |selector| && NumberChar(t, selector[end])
      invariant index < end <= |selector|
      invariant end - index + NumberRun(t, selector[end..]) == 1 + NumberRun(t, selector[index + 1..])
    {
      assert selector[end..][1..] == selector[end + 1..];
      end := end + 1;
    }
    return end - index;
  }

  method NameSize(t: Chars, selector: string, index: nat) returns (size: nat)
    requires index < |selector|
    ensures size == 1 + NameRun(t, selector[index + 1..])
  {
    hide NameChar;
    var end := index + 1;
    while end < |selector| && NameChar(t, selector[end..])
      invariant index < end <= |selector|
      invariant end - index + NameRun(t, selector[end..]) == 1 + NameRun(t, selector[index + 1..])
    {
      assert selector[end..][1..] == selector[end + 1..];
      end := end + 1;
    }
    return end - index;
  }

  /** What the loop appends for the token at `index`, and the state it goes on in. */
  lemma ScopeAt(t: Chars, selector: string, index: nat, expects: bool, r: string)
    requires index < |selector|
    ensures var rest := selector[index..];
      var size, kind := SizeOf(t, rest), KindOf(t, rest);
      var token := selector[index..index + size];
      r + Scope(t, rest, expects) ==
      r + (if kind == Slash && expects then "." else "") + token + Scope(t, selector[index + size..], Next(t, kind, token, expects))
  {
    hide Scope, SizeOf, Next, KindOf;
    var rest := selector[index..];
    var size := SizeOf(t, rest);
    ScopeStep(t, rest, expects);
    assert selector[index..index + size] == rest[..size] && selector[index + size..] == rest[size..];
  }

  lemma ScopeStep(t: Chars, s: string, expects: bool)
    requires s != ""
    ensures var n := SizeOf(t, s);
      Scope(t, s, expects) ==
      (if KindOf(t, s) == Slash && expects then "." else "") + s[..n] + Scope(t, s[n..], After(t, s, expects))
  {
    hide SizeOf, KindOf, After;
  }

  lemma ScopeNothing(t: Chars, expects: bool)
    ensures Scope(t, "", expects) == ""
  {
  }

  // ---------- only dots are inserted, each directly before a slash ----------

  /** `out` is `s` with a dot written before some of its slashes. */
  ghost predicate DotsBeforeSlashes(s: string, out: string)
    decreases |out|
  {
    if s == "" then out == ""
    else
      || (out != "" && out[0] == s[0] && DotsBeforeSlashes(s[1..], out[1..]))
      || (|out| > 1 && s[0] == '/' && out[0] == '.' && out[1] == '/' && DotsBeforeSlashes(s[1..], out[2..]))
  }

  lemma {:induction false} CopyKeeps(prefix: string, s: string, out: string)
    requires DotsBeforeSlashes(s, out)
    ensures DotsBeforeSlashes(prefix + s, prefix + out)
  {
    if prefix == "" {
      assert prefix + s == s && prefix + out == out;
    } else {
      CopyKeeps(prefix[1..], s, out);
      assert (prefix + s)[1..] == prefix[1..] + s && (prefix + out)[1..] == prefix[1..] + out;
    }
  }

  lemma DotThenSlash(s: string, n: nat, rest: string)
    requires 1 <= n <= |s| && s[0] == '/' && DotsBeforeSlashes(s[1..n] + s[n..], s[1..n] + rest)
    ensures DotsBeforeSlashes(s, "." + s[..n] + rest)
  {
    var out := "." + s[..n] + rest;
    assert s[1..] == s[1..n] + s[n..] && out[2..] == s[1..n] + rest && out[1] == s[0];
  }

  /** Erasing the inserted dots gives the selector back; nothing else changes. */
  lemma {:induction false} ScopeInsertsDots(t: Chars, s: string, expects: bool)
    ensures DotsBeforeSlashes(s, Scope(t, s, expects))
    decreases |s|
  {
    hide SizeOf, After;
    if s != "" {
      var n := SizeOf(t, s);
      var rest := Scope(t, s[n..], After(t, s, expects));
      ScopeInsertsDots(t, s[n..], After(t, s, expects));
      ScopeStep(t, s, expects);
      hide Scope, DotsBeforeSlashes;
      if KindOf(t, s) == Slash && expects {
        CopyKeeps(s[1..n], s[n..], rest);
        DotThenSlash(s, n, rest);
      } else {
        CopyKeeps(s[..n], s[n..], rest);
        Undotted(s, n);
      }
    }
  }

  lemma Undotted(s: string, n: nat)
    requires n <= |s|
    ensures s == s[..n] + s[n..] && "" + s[..n] == s[..n]
  {
  }

  // ---------- the output has no slash in operand position ----------

  /** The scanner, started on `s` in state `expects`, meets no slash where it expects an operand. */
  ghost predicate Settled(t: Chars, s: string, expects: bool)
    decreases |s|
  {
    s == "" || (!(KindOf(t, s) == Slash && expects) && Settled(t, s[SizeOf(t, s)..], After(t, s, expects)))
  }

  /** The literal tokens, in order. */
  function Literals(t: Chars, s: string): seq<string>
    decreases |s|
  {
    if s == "" then []
    else
      var n := SizeOf(t, s);
      (if KindOf(t, s) == Literal then [s[..n]] else []) + Literals(t, s[n..])
  }

  lemma ScopeFirst(t: Chars, s: string, expects: bool)
    requires s != ""
    ensures Scope(t, s, expects) != ""
    ensures Scope(t, s, expects)[0] == if KindOf(t, s) == Slash && expects then '.' else s[0]
    ensures KindOf(t, s) == Slash && expects ==> |Scope(t, s, expects)| > 1 && Scope(t, s, expects)[1] == '/'
    ensures KindOf(t, s) == Axis ==> |Scope(t, s, expects)| > 1 && Scope(t, s, expects)[1] == ':'
  {
  }

  lemma {:induction false} QuoteRunCopied(body: string, rest: string, quote: char)
    requires QuoteRun(body, quote) == |body| && body != "" && body[|body| - 1] == quote
    ensures QuoteRun(body + rest, quote) == |body|
  {
    assert (body + rest)[1..] == body[1..] + rest;
    if body[0] != quote {
      QuoteRunCopied(body[1..], rest, quote);
    }
  }

  lemma {:induction false} QuoteRunShape(s: string, quote: char)
    ensures var n := QuoteRun(s, quote); QuoteRun(s[..n], quote) == n
    ensures var n := QuoteRun(s, quote); n == |s| || (n > 0 && s[n - 1] == quote)
  {
    if s != "" && s[0] != quote {
      QuoteRunShape(s[1..], quote);
      var n := QuoteRun(s, quote);
      assert s[..n][1..] == s[1..][..n - 1];
    }
  }

  lemma {:induction false} NumberRunCopied(t: Chars, s: string, rest: string)
    requires rest == "" || !NumberChar(t, rest[0])
    ensures var n := NumberRun(t, s); NumberRun(t, s[..n] + rest) == n
  {
    var n := NumberRun(t, s);
    if n == 0 {
      assert s[..0] + rest == rest;
    } else {
      NumberRunCopied(t, s[1..], rest);
      assert (s[..n] + rest)[1..] == s[1..][..n - 1] + rest;
    }
  }

  lemma {:induction false} NumberRunStops(t: Chars, s: string)
    ensures var n := NumberRun(t, s); n < |s| ==> !NumberChar(t, s[n])
  {
    if s != "" && NumberChar(t, s[0]) {
      NumberRunStops(t, s[1..]);
    }
  }

  /** A name keeps its characters when only what follows it changes. */
  lemma {:induction false} NameRunCopied(t: Chars, s: string, rest: string)
    requires rest != "" && rest[0] == ':' ==> NameRun(t, s) < |s| && s[NameRun(t, s)] == ':'
    ensures var n := NameRun(t, s); NameRun(t, s[..n] + rest) == n + NameRun(t, rest)
  {
    var n := NameRun(t, s);
    if n == 0 {
      assert s[..0] + rest == rest;
    } else {
      NameRunCopied(t, s[1..], rest);
      var copy := s[..n] + rest;
      assert copy[1..] == s[1..][..n - 1] + rest;
      assert copy[0] == s[0];
      if s[0] == ':' {
        assert n > 1 ==> copy[1] == s[1];
        assert n == 1 && rest != "" ==> copy[1] == rest[0];
      }
    }
  }

  lemma {:induction false} NameRunStops(t: Chars, s: string)
    ensures var n := NameRun(t, s); n < |s| ==> !NameChar(t, s[n..])
  {
    if s != "" && NameChar(t, s) {
      NameRunStops(t, s[1..]);
    }
  }

  /** What follows a copied token cannot extend or shorten it. */
  ghost predicate SameToken(t: Chars, s: string, rest: string)
    requires s != ""
  {
    var n := SizeOf(t, s);
    KindOf(t, s[..n] + rest) == KindOf(t, s) && SizeOf(t, s[..n] + rest) == n
  }

  lemma SameLiteral(t: Chars, s: string, rest: string)
    requires s != "" && KindOf(t, s) == Literal && (SizeOf(t, s) == |s| ==> rest == "")
    ensures SameToken(t, s, rest)
  {
    var n := SizeOf(t, s);
    var copy := s[..n] + rest;
    QuoteRunShape(s[1..], s[0]);
    assert copy[0] == s[0];
    if n == |s| {
      assert copy == s;
    } else {
      assert copy[1..] == s[1..][..n - 1] + rest;
      QuoteRunCopied(s[1..][..n - 1], rest, s[0]);
    }
  }

  lemma SameNumber(t: Chars, s: string, rest: string)
    requires s != "" && KindOf(t, s) == Number
    requires rest != "" ==> SizeOf(t, s) < |s| && rest[0] == s[SizeOf(t, s)]
    ensures SameToken(t, s, rest)
  {
    hide NameRun, NumberRun, QuoteRun;
    var n := SizeOf(t, s);
    var copy, tail := s[..n] + rest, s[1..];
    NumberRunStops(t, tail);
    assert rest != "" ==> tail[n - 1] == rest[0];
    NumberRunCopied(t, tail, rest);
    assert copy[0] == s[0] && copy[1..] == tail[..n - 1] + rest;
    assert |copy| > 1 && |s| > 1 && n > 1 ==> copy[1] == s[1];
    assert |copy| > 1 && n == 1 ==> copy[1] == rest[0] == s[1];
  }

  lemma NameRunZero(t: Chars, tail: string, rest: string)
    requires rest != "" ==>
      var n := NameRun(t, tail);
      n < |tail| && !NameChar(t, tail[n..]) && rest[0] == tail[n] && (rest[0] == ':' ==> |rest| > 1 && rest[1] == ':')
    ensures NameRun(t, rest) == 0
  {
  }

  lemma SameName(t: Chars, s: string, rest: string)
    requires s != "" && KindOf(t, s) == Name
    requires rest != "" ==> SizeOf(t, s) < |s| && rest[0] == s[SizeOf(t, s)]
    requires rest != "" && rest[0] == ':' ==> |rest| > 1 && rest[1] == ':'
    ensures SameToken(t, s, rest)
  {
    hide NameRun, NumberRun, QuoteRun;
    var n := SizeOf(t, s);
    var copy, tail := s[..n] + rest, s[1..];
    NameRunStops(t, tail);
    assert rest != "" ==> tail[n - 1..][0] == tail[n - 1] == rest[0];
    NameRunCopied(t, tail, rest);
    NameRunZero(t, tail, rest);
    assert copy[0] == s[0] && copy[1..] == tail[..n - 1] + rest;
    assert KindOf(t, copy) == Name by {
      assert s[0] != ':' || n > 1 || rest == "" || rest[0] == s[1];
      assert n > 1 ==> copy[1] == s[1];
    }
  }

  lemma SameShort(t: Chars, s: string, rest: string)
    requires s != "" && !KindOf(t, s).Literal? && !KindOf(t, s).Number? && !KindOf(t, s).Name?
    requires SizeOf(t, s) == 1 && rest != "" ==>
      (rest[0] == '/' ==> s[0] != '/') && (rest[0] == '.' ==> s[0] != '.') && (rest[0] == ':' ==> s[0] != ':')
    ensures SameToken(t, s, rest)
  {
    var n := SizeOf(t, s);
    var copy := s[..n] + rest;
    assert copy[0] == s[0];
    assert n == 2 ==> copy[1] == s[1];
    assert n == 1 && rest != "" ==> copy[1] == rest[0];
  }

  /** Every token of the input, except a slash that gets a dot or a word operator directly
      before one, is found again in the output. */
  lemma TokenFoundAgain(t: Chars, s: string, expects: bool)
    requires Lawful(t) && s != "" && !(KindOf(t, s) == Slash && expects)
    requires var n := SizeOf(t, s); n < |s| && s[n] == '/' ==> !(KindOf(t, s) == Name && After(t, s, expects))
    ensures SameToken(t, s, Scope(t, s[SizeOf(t, s)..], After(t, s, expects)))
  {
    hide Lawful, Scope, SizeOf, NameRun, NumberRun, QuoteRun;
    var n := SizeOf(t, s);
    var next := s[n..];
    var after := After(t, s, expects);
    var rest := Scope(t, next, after);
    ScopeNothing(t, after);
    TokenEnds(t, s);
    if next != "" {
      ScopeFirst(t, next, after);
      assert next[0] == s[n];
      MarkKinds(t, next);
      assert n + 1 < |s| ==> next[1] == s[n + 1];
    }
    match KindOf(t, s) {
      case Literal => SameLiteral(t, s, rest);
      case Number => SameNumber(t, s, rest);
      case Name => SameName(t, s, rest);
      case _ => SameShort(t, s, rest);
    }
  }

  lemma MarkKinds(t: Chars, s: string)
    requires Lawful(t) && s != ""
    ensures KindOf(t, s) == Slash <==> s[0] == '/'
    ensures KindOf(t, s) == Axis ==> s[0] == ':'
    ensures KindOf(t, s) == Dot <==> s[0] == '.'
  {
  }

  /** Where tokens stop. */
  lemma TokenEnds(t: Chars, s: string)
    requires Lawful(t) && s != ""
    ensures var n := SizeOf(t, s);
      n < |s| ==>
        && (KindOf(t, s) == Name && s[n] == ':' ==> KindOf(t, s[n..]) == Axis)
        && (KindOf(t, s) == Slash && n == 1 ==> s[1] != '/')
        && (KindOf(t, s) == Dot && n == 1 ==> s[1] != '.')
        && (KindOf(t, s) == Other && s[0] == ':' ==> s[1] != ':')
    ensures KindOf(t, s) == Slash ==> s[0] == '/'
    ensures KindOf(t, s) == Dot ==> s[0] == '.'
    ensures KindOf(t, s) == Space ==> s[0] != '/' && s[0] != '.' && s[0] != ':'
    ensures KindOf(t, s) == Axis ==> SizeOf(t, s) == 2
    ensures KindOf(t, s) == Other ==> s[0] != '/' && s[0] != '.'
  {
    if KindOf(t, s) == Name {
      NameRunStops(t, s[1..]);
      var n := SizeOf(t, s);
      assert s[1..][n - 1..] == s[n..];
    }
  }

  lemma SlashAgain(t: Chars, s: string, rest: string)
    requires Lawful(t) && s != "" && KindOf(t, s) == Slash
    requires SizeOf(t, s) == 1 && rest != "" ==> rest[0] != '/'
    ensures SameToken(t, s, rest)
  {
    hide Lawful;
    TokenEnds(t, s);
    SameShort(t, s, rest);
  }

  /** After a token that is copied, both scans are in step. */
  lemma InStep(t: Chars, s: string, rest: string, expects: bool)
    requires s != "" && SameToken(t, s, rest)
    ensures var out := s[..SizeOf(t, s)] + rest;
      && out != "" && KindOf(t, out) == KindOf(t, s)
      && out[..SizeOf(t, out)] == s[..SizeOf(t, s)] && out[SizeOf(t, out)..] == rest
      && After(t, out, expects) == After(t, s, expects)
  {
    var out := s[..SizeOf(t, s)] + rest;
    assert out[..SizeOf(t, out)] == s[..SizeOf(t, s)];
  }

  /** A dot in front of slashes is a token of its own and leaves no operand expected. */
  lemma DotToken(t: Chars, rest: string, expects: bool)
    requires Lawful(t) && rest != "" && rest[0] == '/'
    ensures KindOf(t, "." + rest) == Dot && SizeOf(t, "." + rest) == 1
    ensures ("." + rest)[1..] == rest && !After(t, "." + rest, expects)
  {
    assert ("." + rest)[1] == rest[0];
  }

  /** A word operator takes a dot written right behind it into its name and stops being an
      operator, which leaves the following slash outside operand position too. */
  lemma OperatorTakesDot(t: Chars, s: string, rest: string, expects: bool)
    requires Lawful(t) && s != "" && KindOf(t, s) == Name && rest != "" && rest[0] == '/'
    ensures var n := SizeOf(t, s);
      var out := s[..n] + ("." + rest);
      KindOf(t, out) == Name && SizeOf(t, out) == n + 1 && out[n + 1..] == rest && !After(t, out, expects)
  {
    hide NumberRun, QuoteRun, NameRun, NameChar, Lawful;
    var n := SizeOf(t, s);
    var out := s[..n] + ("." + rest);
    assert out[0] == s[0];
    assert out[1..] == s[1..][..n - 1] + ("." + rest);
    NameRunCopied(t, s[1..], "." + rest);
    DotRun(t, rest);
    NameAgain(t, s, out);
    assert out[..n + 1] == s[..n] + ".";
    NoOperator(t, s[..n]);
  }

  /** In a name a dot goes on, a slash does not. */
  lemma DotRun(t: Chars, rest: string)
    requires Lawful(t) && rest != "" && rest[0] == '/'
    ensures NameRun(t, "." + rest) == 1
  {
    assert ("." + rest)[1..] == rest;
  }

  lemma NameAgain(t: Chars, s: string, out: string)
    requires s != "" && out != "" && out[0] == s[0] && KindOf(t, s) == Name && Lawful(t)
    ensures KindOf(t, out) == Name
  {
  }

  lemma NoOperator(t: Chars, w: string)
    requires Lawful(t)
    ensures !t.isWordOperator(w + ".")
  {
  }

  lemma SettledStep(t: Chars, s: string, expects: bool)
    requires s != ""
    ensures Settled(t, s, expects) <==>
      !(KindOf(t, s) == Slash && expects) && Settled(t, s[SizeOf(t, s)..], After(t, s, expects))
    ensures Literals(t, s) ==
      (if KindOf(t, s) == Literal then [s[..SizeOf(t, s)]] else []) + Literals(t, s[SizeOf(t, s)..])
  {
  }

  /** The slash at the front of `s`, with the output behind it, is read back as that slash. */
  lemma SlashReadBack(t: Chars, s: string)
    requires Lawful(t) && s != "" && KindOf(t, s) == Slash
    ensures SameToken(t, s, Scope(t, s[SizeOf(t, s)..], true))
  {
    hide Lawful, Scope;
    var next := s[SizeOf(t, s)..];
    TokenEnds(t, s);
    ScopeNothing(t, true);
    if next != "" {
      ScopeFirst(t, next, true);
      MarkKinds(t, next);
    }
    SlashAgain(t, s, Scope(t, next, true));
  }

  /** The rewritten selector has no slash in operand position and the same literals. */
  lemma {:induction false} ScopeSettles(t: Chars, s: string, expects: bool)
    requires Lawful(t)
    ensures Settled(t, Scope(t, s, expects), expects)
    ensures Literals(t, Scope(t, s, expects)) == Literals(t, s)
    decreases |s|
  {
    hide Lawful, Scope, SizeOf, Settled, Literals, SameToken;
    ScopeNothing(t, expects);
    if s == "" {
      NothingSettled(t, expects);
    } else {
      var n := SizeOf(t, s);
      var after := After(t, s, expects);
      var rest := Scope(t, s[n..], after);
      ScopeStep(t, s, expects);
      SettledStep(t, s, expects);
      ScopeSettles(t, s[n..], after);
      if KindOf(t, s) == Slash && expects {
        var out := s[..n] + rest;
        assert Scope(t, s, expects) == "." + out;
        SlashReadBack(t, s);
        InStep(t, s, rest, false);
        TokenEnds(t, s);
        DotToken(t, out, expects);
        SettledStep(t, "." + out, expects);
        SettledStep(t, out, false);
        assert After(t, s, false) == after;
      } else if n < |s| && s[n] == '/' && KindOf(t, s) == Name && after {
        var next := s[n..];
        ScopeSettles(t, next[SizeOf(t, next)..], true);
        OperatorBeforeSlash(t, s, expects);
      } else {
        var out := s[..n] + rest;
        assert Scope(t, s, expects) == out by {
          assert "" + s[..n] == s[..n];
        }
        TokenFoundAgain(t, s, expects);
        InStep(t, s, rest, expects);
        SettledStep(t, out, expects);
      }
    }
  }

  lemma NothingSettled(t: Chars, expects: bool)
    ensures Settled(t, "", expects) && Literals(t, "") == []
  {
  }

  lemma {:induction false} OperatorBeforeSlash(t: Chars, s: string, expects: bool)
    requires Lawful(t) && s != "" && KindOf(t, s) == Name && After(t, s, expects)
    requires SizeOf(t, s) < |s| && s[SizeOf(t, s)] == '/'
    requires var next := s[SizeOf(t, s)..];
      Settled(t, Scope(t, next[SizeOf(t, next)..], true), true)
      && Literals(t, Scope(t, next[SizeOf(t, next)..], true)) == Literals(t, next[SizeOf(t, next)..])
    ensures Settled(t, Scope(t, s, expects), expects)
    ensures Literals(t, Scope(t, s, expects)) == Literals(t, s)
  {
    hide Lawful, Scope, SizeOf, Settled, Literals, SameToken;
    var n := SizeOf(t, s);
    var next := s[n..];
    var m := SizeOf(t, next);
    var rest := Scope(t, next[m..], true);
    MarkKinds(t, next);
    ScopeStep(t, s, expects);
    ScopeStep(t, next, true);
    var slashes := next[..m] + rest;
    var out := s[..n] + ("." + slashes);
    assert Scope(t, s, expects) == out by {
      assert "" + s[..n] == s[..n];
      assert "." + next[..m] + rest == "." + slashes;
    }
    SlashReadBack(t, next);
    InStep(t, next, rest, false);
    OperatorTakesDot(t, s, slashes, expects);
    SettledStep(t, out, expects);
    SettledStep(t, slashes, false);
    SettledStep(t, s, expects);
    SettledStep(t, next, true);
  }

  /** A selector without a slash in operand position is left as it is. */
  lemma {:induction false} SettledUnchanged(t: Chars, s: string, expects: bool)
    requires Settled(t, s, expects)
    ensures Scope(t, s, expects) == s
    decreases |s|
  {
    hide SizeOf, After, Scope, Settled, KindOf;
    if s == "" {
      ScopeNothing(t, expects);
    } else {
      var n := SizeOf(t, s);
      SettledStep(t, s, expects);
      ScopeStep(t, s, expects);
      SettledUnchanged(t, s[n..], After(t, s, expects));
      assert "" + s[..n] + s[n..] == s;
    }
  }

  /** Scoping twice is scoping once, and the result is a fixed point exactly because its own
      scan finds no slash where an operand is expected. */
  lemma ScopeIdempotent(t: Chars, s: string)
    requires Lawful(t)
    ensures Scope(t, Scope(t, s, true), true) == Scope(t, s, true)
  {
    ScopeSettles(t, s, true);
    SettledUnchanged(t, Scope(t, s, true), true);
  }

  // ---------- the scan, token by token ----------

  lemma TokenStep(t: Chars, token: string, rest: string, expects: bool)
    requires token != "" && SizeOf(t, token + rest) == |token|
    ensures Scope(t, token + rest, expects) ==
            (if KindOf(t, token + rest) == Slash && expects then "." else "") + token
            + Scope(t, rest, Next(t, KindOf(t, token + rest), token, expects))
  {
    hide SizeOf, KindOf, Next, Scope;
    var s := token + rest;
    ScopeStep(t, s, expects);
    AfterIs(t, s, expects);
    assert s[..|token|] == token && s[|token|..] == rest;
  }

  lemma AfterIs(t: Chars, s: string, expects: bool)
    requires s != ""
    ensures After(t, s, expects) == Next(t, KindOf(t, s), s[..SizeOf(t, s)], expects)
  {
  }

  /** The slashes: a dot goes in front of one, single or double, exactly where an operand is
      expected, and after it one is. An axis expects one too; a dot or two is one. */
  lemma MarksScoped(t: Chars, rest: string, expects: bool)
    requires Lawful(t)
    ensures Scope(t, "", expects) == ""
    ensures Scope(t, "//" + rest, expects) == (if expects then "." else "") + "//" + Scope(t, rest, true)
    ensures (rest == "" || rest[0] != '/') ==>
              Scope(t, "/" + rest, expects) == (if expects then "." else "") + "/" + Scope(t, rest, true)
    ensures Scope(t, "::" + rest, expects) == "::" + Scope(t, rest, true)
    ensures (rest == "" || rest[0] != ':') ==> Scope(t, ":" + rest, expects) == ":" + Scope(t, rest, expects)
    ensures Scope(t, ".." + rest, expects) == ".." + Scope(t, rest, false)
    ensures (rest == "" || rest[0] != '.') ==> Scope(t, "." + rest, expects) == "." + Scope(t, rest, false)
  {
    hide Scope;
    ScopeNothing(t, expects);
    TokenStep(t, "//", rest, expects);
    TokenStep(t, "::", rest, expects);
    TokenStep(t, "..", rest, expects);
    if rest == "" || rest[0] != '/' {
      TokenStep(t, "/", rest, expects);
    }
    if rest == "" || rest[0] != '.' {
      TokenStep(t, ".", rest, expects);
    }
    if rest == "" || rest[0] != ':' {
      TokenStep(t, ":", rest, expects);
    }
    assert forall x: string, y: string :: "" + x + y == x + y;
  }

  /** Any other single character: a space changes nothing, an opening bracket, a separator, a
      comparison, a sign or an at-sign expects an operand, a closing bracket does not, a star is
      an operator exactly where no operand is expected, and anything else changes nothing. */
  lemma CharacterScoped(t: Chars, c: char, rest: string, expects: bool)
    requires c !in {'"', '\'', '/', '.', '_', ':'} && !t.isDigit(c) && !t.isAlpha(c)
    ensures Scope(t, [c] + rest, expects) == [c] + Scope(t, rest,
              if t.isSpace(c) then expects
              else if c in {'(', '[', '|', ',', '=', '!', '<', '>', '+', '-', '@'} then true
              else if c in {')', ']'} then false
              else if c == '*' then !expects
              else expects)
  {
    hide Scope;
    TokenStep(t, [c], rest, expects);
    assert forall x: string, y: string :: "" + x + y == x + y;
  }

  lemma {:induction false} QuoteRunBody(body: string, quote: char, rest: string)
    requires quote !in body
    ensures QuoteRun(body, quote) == |body| && QuoteRun(body + [quote] + rest, quote) == |body| + 1
  {
    var all := body + [quote] + rest;
    if body == "" {
      assert all[0] == quote;
    } else {
      QuoteRunBody(body[1..], quote, rest);
      assert all[0] == body[0] && all[1..] == body[1..] + [quote] + rest;
    }
  }

  /** A quoted literal is copied up to its closing quote, or to the end, and is an operand. */
  lemma LiteralScoped(t: Chars, quote: char, body: string, rest: string, expects: bool)
    requires Lawful(t) && quote in {'"', '\''} && quote !in body
    ensures Scope(t, [quote] + body + [quote] + rest, expects) == [quote] + body + [quote] + Scope(t, rest, false)
    ensures Scope(t, [quote] + body, expects) == [quote] + body
  {
    hide Scope, QuoteRun;
    QuoteRunBody(body, quote, rest);
    var token := [quote] + body + [quote];
    assert (token + rest)[1..] == body + [quote] + rest && (token + rest)[0] == quote;
    TokenStep(t, token, rest, expects);
    var open := [quote] + body;
    assert open + "" == open && open[1..] == body;
    TokenStep(t, open, "", expects);
    ScopeNothing(t, false);
    assert "" + token + Scope(t, rest, false) == token + Scope(t, rest, false);
    assert "" + open + "" == open;
  }

  lemma {:induction false} NumberRunBody(t: Chars, body: string, rest: string)
    requires forall i :: 0 <= i < |body| ==> t.isDigit(body[i]) || body[i] == '.'
    requires rest == "" || !(t.isDigit(rest[0]) || rest[0] == '.')
    ensures NumberRun(t, body + rest) == |body|
  {
    if body == "" {
      assert body + rest == rest;
    } else {
      assert (body + rest)[1..] == body[1..] + rest;
      NumberRunBody(t, body[1..], rest);
    }
  }

  /** A number is the longest run of digits and dots after a digit, and is an operand. */
  lemma NumberScoped(t: Chars, d: char, body: string, rest: string, expects: bool)
    requires Lawful(t) && t.isDigit(d) && !t.isSpace(d)
    requires forall i :: 0 <= i < |body| ==> t.isDigit(body[i]) || body[i] == '.'
    requires rest == "" || !(t.isDigit(rest[0]) || rest[0] == '.')
    ensures Scope(t, [d] + body + rest, expects) == [d] + body + Scope(t, rest, false)
  {
    hide Scope, NumberRun;
    NumberRunBody(t, body, rest);
    var token := [d] + body;
    assert (token + rest)[1..] == body + rest && (token + rest)[0] == d;
    TokenStep(t, token, rest, expects);
    assert "" + token + Scope(t, rest, false) == token + Scope(t, rest, false);
  }

  /** The character at the front of a text continues a name: a letter, a digit, one of three
      marks, or a colon that does not start an axis. */
  ghost predicate Continues(t: Chars, s: string)
  {
    && s != ""
    && (t.isAlnum(s[0]) || s[0] in {'_', '-', '.'} || (s[0] == ':' && (|s| == 1 || s[1] != ':')))
  }

  lemma {:induction false} NameRunBody(t: Chars, body: string, rest: string)
    requires forall i :: 0 <= i < |body| ==> Continues(t, body[i..] + rest)
    requires !Continues(t, rest)
    ensures NameRun(t, body + rest) == |body|
  {
    if body == "" {
      assert body + rest == rest;
    } else {
      assert body[0..] + rest == body + rest;
      assert (body + rest)[1..] == body[1..] + rest;
      forall i | 0 <= i < |body[1..]| ensures Continues(t, body[1..][i..] + rest) {
        assert body[1..][i..] == body[i + 1..];
      }
      NameRunBody(t, body[1..], rest);
    }
  }

  /** A name is the longest run that continues it. It is an operator, and expects an operand,
      exactly when none is expected before it and it is one of the operator words. */
  lemma NameScoped(t: Chars, c: char, body: string, rest: string, expects: bool)
    requires Lawful(t) && (t.isAlpha(c) || c == '_') && !t.isSpace(c) && !t.isDigit(c)
    requires forall i :: 0 <= i < |body| ==> Continues(t, body[i..] + rest)
    requires !Continues(t, rest)
    ensures Scope(t, [c] + body + rest, expects) ==
            [c] + body + Scope(t, rest, !expects && t.isWordOperator([c] + body))
  {
    hide Scope, NameRun;
    NameRunBody(t, body, rest);
    var token := [c] + body;
    assert (token + rest)[1..] == body + rest && (token + rest)[0] == c;
    TokenStep(t, token, rest, expects);
    var next := !expects && t.isWordOperator(token);
    assert "" + token + Scope(t, rest, next) == token + Scope(t, rest, next);
  }
}
