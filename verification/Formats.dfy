/** The bytes and texts themselves, written out: UTF-8, printed JSON, timestamps and the
    profile archive, as another program that reads them would have to know them. */
module Formats {
  import opened Order
  import opened Utf8
  import J = JsonText
  import T = Timestamps
  import opened ProfilePath
  import opened ProfileArchive

  // ---------- UTF-8 ----------

  /** The layout of section 3 of RFC 3629. */
  lemma Utf8Means(c: char)
    ensures var n, b := c as int, Encode([c]);
            && (n < 0x80 ==> b == [n])
            && (0x80 <= n < 0x800 ==>
                  |b| == 2 && 0xC2 <= b[0] < 0xE0 && 0x80 <= b[1] < 0xC0
                  && n == (b[0] as int - 0xC0) * 0x40 + (b[1] as int - 0x80))
            && (0x800 <= n < 0x1_0000 ==>
                  |b| == 3 && 0xE0 <= b[0] < 0xF0 && 0x80 <= b[1] < 0xC0 && 0x80 <= b[2] < 0xC0
                  && n == (b[0] as int - 0xE0) * 0x1000 + (b[1] as int - 0x80) * 0x40 + (b[2] as int - 0x80))
            && (0x1_0000 <= n ==>
                  |b| == 4 && 0xF0 <= b[0] < 0xF5 && 0x80 <= b[1] < 0xC0 && 0x80 <= b[2] < 0xC0 && 0x80 <= b[3] < 0xC0
                  && n == (b[0] as int - 0xF0) * 0x4_0000 + (b[1] as int - 0x80) * 0x1000
                          + (b[2] as int - 0x80) * 0x40 + (b[3] as int - 0x80))
  {
    var n := c as int;
    assert [c][1..] == "" && Encode("") == [];
    assert Encode([c]) == EncodeScalar(n) + [];
    assert EncodeScalar(n) + [] == EncodeScalar(n);
    assert n == n / 64 * 64 + n % 64;
    assert n / 64 == n / 64 / 64 * 64 + n / 64 % 64;
    assert n / 64 / 64 == n / 64 / 64 / 64 * 64 + n / 64 / 64 % 64;
  }

  // ---------- JSON ----------

  const DIGITS := "0123456789"

  lemma DigitIs(d: int)
    requires 0 <= d < 10
    ensures J.DigitChar(d) == DIGITS[d]
  {
  }

  /** Numbers are printed in base ten, without a leading zero. */
  lemma IntMeans(n: int)
    requires n >= 0
    ensures J.Print(J.Int(n)) == (if n < 10 then [DIGITS[n]] else J.Print(J.Int(n / 10)) + [DIGITS[n % 10]])
    ensures n > 0 ==> J.Print(J.Int(-n)) == "-" + J.Print(J.Int(n))
  {
    DigitIs(n % 10);
  }

  const HEX := "0123456789abcdef"

  lemma HexIs(d: int)
    requires 0 <= d < 16
    ensures J.HexDigit(d) == HEX[d]
  {
    if d < 10 {
      DigitIs(d);
      assert HEX[d] == DIGITS[d];
    }
  }

  /** How a character stands in a printed string. */
  function Escaped(c: char): string
  {
    match c
    case '"' => "\\\""
    case '\\' => "\\\\"
    case '\n' => "\\n"
    case '\r' => "\\r"
    case '\t' => "\\t"
    case _ =>
      if c as int == 8 then "\\b"
      else if c as int == 12 then "\\f"
      else if c as int < 32 then "\\u00" + [HEX[c as int / 16], HEX[c as int % 16]]
      else [c]
  }

  lemma EscapedIs(c: char)
    ensures J.EscapeChar(c) == Escaped(c)
  {
    hide J.HexDigit;
    if c as int < 32 {
      HexIs(c as int / 16);
      HexIs(c as int % 16);
    }
  }

  /** Strings keep every character but the quote, the backslash and the controls, which are
      escaped by letter where JSON has one and else as four lower-case hexadecimal digits. */
  lemma StringMeans(s: string, c: char)
    ensures J.Print(J.Str("")) == "\"\""
    ensures J.Print(J.Str([c] + s)) == "\"" + Escaped(c) + J.Print(J.Str(s))[1..]
  {
    hide Escaped, J.EscapeChar, J.Escape, J.Print;
    EscapedIs(c);
    QuotedIs("");
    QuotedIs(s);
    QuotedIs([c] + s);
    EscapeMore(s, c);
    assert J.Print(J.Str(s))[1..] == J.Escape(s) + "\"";
    assert "\"" + (Escaped(c) + J.Escape(s)) + "\"" == "\"" + Escaped(c) + (J.Escape(s) + "\"");
  }

  lemma QuotedIs(s: string)
    ensures J.Print(J.Str(s)) == "\"" + J.Escape(s) + "\""
    ensures J.Escape("") == ""
  {
  }

  lemma EscapeMore(s: string, c: char)
    ensures J.Escape([c] + s) == J.EscapeChar(c) + J.Escape(s)
  {
    hide J.EscapeChar;
    assert ([c] + s)[0] == c && ([c] + s)[1..] == s;
  }

  /** Lists and objects are printed without spaces. */
  lemma ListMeans(items: seq<J.Json>, v: J.Json)
    ensures J.Print(J.Arr([])) == "[]" && J.Print(J.Arr([v])) == "[" + J.Print(v) + "]"
    ensures items != [] ==> J.Print(J.Arr([v] + items)) == "[" + J.Print(v) + "," + J.Print(J.Arr(items))[1..]
  {
    hide J.IntText, J.DecimalText, J.PrintString, J.PrintMembers;
    if items != [] {
      var all := [v] + items;
      assert all[0] == v && all[1..] == items;
      assert J.Print(J.Arr(items))[1..] == J.PrintItems(items) + "]";
      assert J.PrintItems(all) == J.Print(v) + "," + J.PrintItems(items);
    }
  }

  lemma ObjectMeans(members: seq<J.Member>, m: J.Member)
    ensures J.Print(J.Obj([])) == "{}"
    ensures J.Print(J.Obj([m])) == "{" + J.Print(J.Str(m.key)) + ":" + J.Print(m.value) + "}"
    ensures members != [] ==>
              J.Print(J.Obj([m] + members)) ==
              "{" + J.Print(J.Str(m.key)) + ":" + J.Print(m.value) + "," + J.Print(J.Obj(members))[1..]
  {
    hide J.IntText, J.DecimalText, J.PrintString, J.PrintItems, J.Print;
    var one := J.Print(J.Str(m.key)) + ":" + J.Print(m.value);
    ObjectIs([]);
    ObjectIs([m]);
    KeyIs(m);
    assert "{" + one + "}" == "{" + J.Print(J.Str(m.key)) + ":" + J.Print(m.value) + "}";
    if members != [] {
      var all, rest := [m] + members, J.PrintMembers(members);
      ObjectIs(members);
      ObjectIs(all);
      assert all[0] == m && all[1..] == members;
      assert J.Print(J.Obj(members))[1..] == rest + "}";
      assert "{" + (one + "," + rest) + "}" == "{" + J.Print(J.Str(m.key)) + ":" + J.Print(m.value) + "," + (rest + "}");
    }
  }

  lemma ObjectIs(members: seq<J.Member>)
    ensures J.Print(J.Obj(members)) == "{" + J.PrintMembers(members) + "}"
  {
  }

  lemma KeyIs(m: J.Member)
    ensures J.PrintMember(m) == J.Print(J.Str(m.key)) + ":" + J.Print(m.value)
  {
  }

  lemma ConstantMeans()
    ensures J.Print(J.Null) == "null" && J.Print(J.Bool(true)) == "true" && J.Print(J.Bool(false)) == "false"
  {
  }

  // ---------- what is read as a number ----------

  /** What a number takes off the text is a number token; nothing else is a number. */
  lemma NumberRead(s: string)
    ensures match J.ParseNumber(s)
            case Done(v, rest) => IsNumber(v, s, rest)
            case Fail => forall k :: 0 <= k <= |s| ==> !J.WholeToken(s[..k])
  {
    hide J.WholeToken, J.ParseAfterWhole, IsNumber;
    var whole := J.WholeSpan(s);
    if whole == 0 {
      forall k | 0 <= k <= |s| ensures !J.WholeToken(s[..k]) {
        if J.WholeToken(s[..k]) {
          WholeStarts(s, k);
        }
      }
    } else {
      assert s == s[..whole] + s[whole..];
      AfterWhole(s[..whole], s[whole..]);
    }
  }

  /** The value `v` is spelled by the text between `s` and `rest`. */
  ghost predicate IsNumber(v: J.Json, s: string, rest: string)
  {
    if v.Int? then exists w :: J.WholeToken(w) && s == w + rest && J.WholeValue(w) == v.n
    else v.Float? && J.DecimalToken(v.d) && s == J.DecimalText(v.d) + rest
  }

  lemma AfterWhole(whole: string, tail: string)
    requires J.WholeToken(whole)
    ensures match J.ParseAfterWhole(whole, tail)
            case Done(v, rest) => IsNumber(v, whole + tail, rest)
            case Fail => false
  {
    hide J.WholeToken, J.ExponentToken, J.AllDigits, J.FractionSpan, J.ExponentSpan, J.WholeValue;
    var fraction := J.FractionSpan(tail);
    var back := tail[fraction..];
    var exponent := J.ExponentSpan(back);
    FractionRead(tail);
    ExponentRead(back);
    if fraction == 0 && exponent == 0 {
      assert J.WholeToken(whole) && whole + tail == whole + tail;
    } else {
      var d := J.Decimal(whole, if fraction == 0 then "" else tail[1..fraction], back[..exponent]);
      NoDigits();
      assert J.DotText(d) == tail[..fraction];
      Pieces(whole, tail, fraction, exponent);
    }
  }

  lemma NoDigits()
    ensures J.AllDigits("")
  {
  }

  lemma Pieces(whole: string, tail: string, fraction: nat, exponent: nat)
    requires fraction <= |tail| && exponent <= |tail| - fraction
    ensures var back := tail[fraction..];
            whole + tail == whole + tail[..fraction] + back[..exponent] + back[exponent..]
  {
    assert tail == tail[..fraction] + tail[fraction..];
  }

  lemma FractionRead(s: string)
    ensures var n := J.FractionSpan(s);
            n > 0 ==> 2 <= n <= |s| && s[..n] == "." + s[1..n] && J.AllDigits(s[1..n])
  {
    var n := J.FractionSpan(s);
    if n > 0 {
      J.SpanIsDigits(s[1..]);
      assert s[1..n] == s[1..][..n - 1];
    }
  }

  lemma ExponentRead(s: string)
    ensures J.ExponentSpan(s) > 0 ==> J.ExponentToken(s[..J.ExponentSpan(s)])
  {
    var n := J.ExponentSpan(s);
    if n > 0 {
      var sign := if |s| > 1 && (s[1] == '+' || s[1] == '-') then 1 else 0;
      J.SpanIsDigits(s[1 + sign..]);
      assert s[..n][1 + sign..] == s[1 + sign..][..n - 1 - sign];
    }
  }

  lemma WholeStarts(s: string, k: nat)
    requires k <= |s| && J.WholeToken(s[..k])
    ensures J.WholeSpan(s) > 0
  {
    var sign := if s[0] == '-' then 1 else 0;
    assert s[sign] == s[..k][sign..][0];
    assert s[sign..][0] == s[sign];
  }

  /** A character of a string is read as itself, unless it is a control, which is refused, or a
      backslash, which one of nine letters must follow. */
  lemma CharacterRead(c: char, rest: string)
    ensures c as int < 32 ==> J.ParseChar([c] + rest) == J.Fail
    ensures c as int >= 32 && c != '\\' ==> J.ParseChar([c] + rest) == J.Done(c, rest)
    ensures c in {'"', '\\', '/'} ==> J.ParseChar(['\\', c] + rest) == J.Done(c, rest)
    ensures c == 'b' ==> J.ParseChar(['\\', c] + rest) == J.Done(8 as char, rest)
    ensures c == 'f' ==> J.ParseChar(['\\', c] + rest) == J.Done(12 as char, rest)
    ensures c == 'n' ==> J.ParseChar(['\\', c] + rest) == J.Done('\n', rest)
    ensures c == 'r' ==> J.ParseChar(['\\', c] + rest) == J.Done('\r', rest)
    ensures c == 't' ==> J.ParseChar(['\\', c] + rest) == J.Done('\t', rest)
    ensures c !in {'"', '\\', '/', 'b', 'f', 'n', 'r', 't', 'u'} ==> J.ParseChar(['\\', c] + rest) == J.Fail
  {
    assert ([c] + rest)[1..] == rest && (['\\', c] + rest)[2..] == rest;
  }

  /** Four hexadecimal digits, and the code unit they spell. */
  datatype Unit = Unit(a: int, b: int, c: int, d: int) {
    predicate Valid()
    {
      0 <= a < 16 && 0 <= b < 16 && 0 <= c < 16 && 0 <= d < 16
    }

    function Text(): string
      requires Valid()
    {
      [HEX[a], HEX[b], HEX[c], HEX[d]]
    }

    function Value(): int
    {
      a * 0x1000 + b * 0x100 + c * 0x10 + d
    }
  }

  lemma HexRead(d: int)
    requires 0 <= d < 16
    ensures J.HexValue(HEX[d]) == Some(d)
    ensures d >= 10 ==> J.HexValue("ABCDEF"[d - 10]) == Some(d)
  {
    HexIs(d);
    if d >= 10 {
      assert "ABCDEF"[d - 10] as int == 'A' as int + d - 10;
    }
  }

  lemma UnitRead(u: Unit, rest: string)
    requires u.Valid()
    ensures J.HexQuad(u.Text() + rest) == Some(u.Value()) && (u.Text() + rest)[4..] == rest
  {
    hide J.HexValue;
    HexRead(u.a);
    HexRead(u.b);
    HexRead(u.c);
    HexRead(u.d);
    var s := u.Text() + rest;
    assert s[0] == HEX[u.a] && s[1] == HEX[u.b] && s[2] == HEX[u.c] && s[3] == HEX[u.d];
  }

  lemma EscapeAt(u: Unit, rest: string)
    requires u.Valid()
    ensures var s := "\\u" + u.Text() + rest;
            |s| >= 6 && s[0] == '\\' && s[1] == 'u' && J.HexQuad(s[2..]) == Some(u.Value()) && s[6..] == rest
  {
    hide J.HexQuad;
    UnitRead(u, rest);
    var s := "\\u" + u.Text() + rest;
    assert s[2..] == u.Text() + rest && s[6..] == (u.Text() + rest)[4..];
  }

  /** A `\u` escape is its code unit. */
  lemma UnicodeRead(u: Unit, rest: string)
    requires u.Valid() && !(0xD800 <= u.Value() < 0xE000)
    ensures J.ParseChar("\\u" + u.Text() + rest) == J.Done(u.Value() as char, rest)
  {
    EscapeAt(u, rest);
    hide *;
    UnitChar("\\u" + u.Text() + rest, u.Value());
  }

  lemma UnitChar(s: string, n: int)
    requires |s| >= 6 && s[0] == '\\' && s[1] == 'u' && J.HexQuad(s[2..]) == Some(n) && !(0xD800 <= n < 0xE000)
    ensures 0 <= n < 0x1_0000 && J.ParseChar(s) == J.Done(n as char, s[6..])
  {
    hide J.HexQuad;
  }

  /** Two that form a surrogate pair are one character; a surrogate alone is refused. */
  lemma SurrogatesRead(u: Unit, v: Unit, rest: string)
    requires u.Valid() && v.Valid()
    requires 0xD800 <= u.Value() < 0xDC00 && 0xDC00 <= v.Value() < 0xE000
    ensures J.ParseChar("\\u" + u.Text() + ("\\u" + v.Text() + rest)) ==
            J.Done((0x1_0000 + (u.Value() - 0xD800) * 0x400 + (v.Value() - 0xDC00)) as char, rest)
    ensures J.ParseChar("\\u" + v.Text() + rest) == J.Fail
  {
    hide J.HexQuad;
    var tail := "\\u" + v.Text() + rest;
    UnitRead(u, tail);
    UnitRead(v, rest);
    var p := "\\u" + u.Text() + tail;
    assert tail[2..] == v.Text() + rest && tail[6..] == rest;
    assert p[2..] == u.Text() + tail && p[6..] == tail;
    assert p[6] == tail[0] && p[7] == tail[1] && p[8..] == tail[2..] && p[12..] == tail[6..];
  }

  // ---------- timestamps ----------

  function Two(n: int): string
    requires 0 <= n < 100
  {
    [DIGITS[n / 10], DIGITS[n % 10]]
  }

  lemma TwoIs(n: nat)
    requires n < 100
    ensures T.Padded(2, n) == Two(n)
  {
    DigitIs(n % 10);
    DigitIs(n / 10);
    assert T.Padded(1, n / 10) == T.Padded(0, n / 10 / 10) + [J.DigitChar(n / 10 % 10)];
  }

  lemma MoreDigits(width: nat, n: nat)
    ensures T.Padded(width + 2, n) == T.Padded(width, n / 100) + Two(n % 100)
  {
    DigitIs(n % 10);
    DigitIs(n / 10 % 10);
    assert n / 10 / 10 == n / 100 && n % 100 / 10 == n / 10 % 10 && n % 100 % 10 == n % 10;
    assert T.Padded(width + 1, n / 10) == T.Padded(width, n / 10 / 10) + [J.DigitChar(n / 10 % 10)];
  }

  /** `YYYY-MM-DDThh:mm:ss`, six digits of microseconds only if there are any, and `+00:00`. */
  lemma IsoTextMeans(m: T.Instant)
    ensures var micros := if m.micro == 0 then "" else "." + (Two(m.micro / 10000) + Two(m.micro / 100 % 100) + Two(m.micro % 100));
            var time := Two(m.hour) + (":" + (Two(m.minute) + (":" + (Two(m.second) + (micros + "+00:00")))));
            T.IsoText(m) == Two(m.year / 100) + Two(m.year % 100) + ("-" + (Two(m.month) + ("-" + (Two(m.day) + ("T" + time)))))
  {
    hide T.Padded, Two, T.FractionText;
    MoreDigits(2, m.year);
    TwoIs(m.year / 100);
    TwoIs(m.month);
    TwoIs(m.day);
    TwoIs(m.hour);
    TwoIs(m.minute);
    TwoIs(m.second);
    FractionMeans(m.micro);
  }

  lemma FractionMeans(micro: nat)
    requires micro < 1000000
    ensures T.FractionText(micro) ==
            (if micro == 0 then "" else "." + (Two(micro / 10000) + Two(micro / 100 % 100) + Two(micro % 100))) + "+00:00"
  {
    hide T.Padded, Two;
    MoreDigits(4, micro);
    MoreDigits(2, micro / 100);
    TwoIs(micro / 10000);
    assert micro / 100 / 100 == micro / 10000;
    if micro != 0 {
      var digits := Two(micro / 10000) + Two(micro / 100 % 100) + Two(micro % 100);
      assert "." + (digits + "+00:00") == "." + digits + "+00:00";
    } else {
      assert "" + "+00:00" == "+00:00";
    }
  }

  // ---------- the archive ----------

  /** The archive of a list: the magic bytes, the manifest's length in four bytes, the most
      significant first, the manifest as printed JSON, and the files' contents in its order. */
  lemma ArchiveMeans(u: Unicode, entries: seq<Entry>)
    requires Archive(u, entries).Some?
    ensures var b := Archive(u, entries).value;
            var items := seq(|entries|, i requires 0 <= i < |entries| => J.Obj([
              J.Member("kind", J.Str(entries[i].kind)), J.Member("path", J.Str(entries[i].path)),
              J.Member("size", J.Int(|entries[i].content|))]));
            var manifest := Encode(J.Print(J.Arr(items)));
            && |b| >= 9 && b[..5] == [0x50, 0x4D, 0x50, 0x41, 0x31]
            && b[5] as int * 0x100_0000 + b[6] as int * 0x1_0000 + b[7] as int * 0x100 + b[8] as int == |manifest|
            && b[9..] == manifest + Payload(entries)
  {
    hide Encode, J.Print, Payload, ValidEntries;
    var items := seq(|entries|, i requires 0 <= i < |entries| => J.Obj([
        J.Member("kind", J.Str(entries[i].kind)), J.Member("path", J.Str(entries[i].path)),
        J.Member("size", J.Int(|entries[i].content|))]));
    assert ManifestItems(entries) == items;
    var b, n := Archive(u, entries).value, |Manifest(entries)|;
    BigEndianRoundTrip(n);
    assert b[..5] == MAGIC && b[5..9] == BigEndian(n);
    assert b[9..] == Manifest(entries) + Payload(entries);
  }

  /** The payload is the contents of the files, one after the other. */
  lemma PayloadMeans(entries: seq<Entry>, e: Entry)
    ensures Payload([]) == []
    ensures Payload([e] + entries) == (if e.kind == "f" then e.content else []) + Payload(entries)
  {
    var all := [e] + entries;
    assert all[0] == e && all[1..] == entries;
  }

  /** Which lists have an archive, in numbers. */
  lemma ArchiveExists(u: Unicode, entries: seq<Entry>)
    ensures Archive(u, entries).Some? <==>
            && |entries| <= 2048 && Ordered(entries) && NoCollision(u, entries) && ParentsFirst(entries)
            && (forall i :: 0 <= i < |entries| ==>
                  && ValidPath(u, entries[i].path) && entries[i].kind in {"d", "f"}
                  && |entries[i].content| <= if entries[i].kind == "d" then 0 else 8_388_608)
            && FileBytes(entries) <= 25_165_824 && |Manifest(entries)| <= 2_097_152
            && 9 + |Manifest(entries)| + |Payload(entries)| <= 33_554_432
  {
    hide ValidPath, Manifest, Payload, FileBytes, Ordered, NoCollision, ParentsFirst;
    if forall i :: 0 <= i < |entries| ==>
         && ValidPath(u, entries[i].path) && entries[i].kind in {"d", "f"}
         && |entries[i].content| <= (if entries[i].kind == "d" then 0 else 8_388_608) {
      forall i | 0 <= i < |entries| ensures ValidEntry(u, entries[i]) {
      }
    }
  }

  /** Which paths an archive may hold. */
  lemma PathMeans(u: Unicode, value: string)
    ensures ValidPath(u, value) <==>
            && value != "" && value == u.nfc(value) && value[0] != '/' && '\\' !in value && |Encode(value)| <= 512
            && (forall c :: c in value ==> !u.isOther(c))
            && Join(Parts(value)) == value && 1 <= |Parts(value)| <= 32
            && forall part :: part in Parts(value) ==>
                 part !in {"", ".", ".."} && |Encode(part)| <= 255 && part[|part| - 1] !in {' ', '.'}
  {
    hide Encode, Parts, Join;
  }

  /** The parts of a path are what stands between its slashes, but for empty parts and dots. */
  lemma PartsMean(name: string, rest: string)
    requires '/' !in name
    ensures Parts("") == []
    ensures Parts(name) == if name == "" || name == "." then [] else [name]
    ensures Parts(name + "/" + rest) == Parts(name) + Parts(rest)
  {
    SplitName(name, "");
    SplitName(name, "/" + rest);
    assert name + "" == name && name + ("/" + rest) == name + "/" + rest && ("/" + rest)[1..] == rest;
    assert ([name] + SplitSlash(rest))[1..] == SplitSlash(rest);
    assert [name][1..] == [] && SplitSlash("") == [""] && [""][1..] == [];
  }

  /** The parent of a path is the path of all its names but the last, and `.` for a single one. */
  lemma ParentMeans(above: seq<string>, name: string)
    requires FileNames(above) && FileName(name)
    ensures Parent(Join(above + [name])) == if above == [] then "." else Join(above)
  {
    var parts := above + [name];
    assert FileNames(parts);
    PartsJoin(parts);
    assert parts[..|parts| - 1] == above;
  }
}
