/** Archive paths: `PurePosixPath` on relative paths and `_validate_archive_path`. */
module ProfilePath {
  import opened Order
  import opened Utf8

  const MAX_PATH_BYTES := 512
  const MAX_PATH_DEPTH := 32

  /** The parts of the Unicode database the path rules consult: NFC normalisation, case
      folding, and membership in a general category starting with C. Every result below
      holds for any such tables. */
  datatype Unicode = Unicode(nfc: string -> string, fold: string -> string, isOther: char -> bool)

  function SplitSlash(s: string): (r: seq<string>)
    ensures r != []
  {
    if s == "" then [""]
    else
      var rest := SplitSlash(s[1..]);
      if s[0] == '/' then [""] + rest else [[s[0]] + rest[0]] + rest[1..]
  }

  function Join(parts: seq<string>): string
  {
    if parts == [] then ""
    else if |parts| == 1 then parts[0]
    else parts[0] + "/" + Join(parts[1..])
  }

  function DropDots(parts: seq<string>): seq<string>
  {
    if parts == [] then []
    else (if parts[0] == "" || parts[0] == "." then [] else [parts[0]]) + DropDots(parts[1..])
  }

  /** `PurePosixPath(value).parts` of a value that does not start with a slash. */
  function Parts(value: string): seq<string>
  {
    DropDots(SplitSlash(value))
  }

  /** `PurePosixPath(value).parent.as_posix()`. */
  function Parent(value: string): string
  {
    var parts := Parts(value);
    if |parts| <= 1 then "." else Join(parts[..|parts| - 1])
  }

  predicate ValidPart(part: string)
  {
    && part != "" && part != "." && part != ".."
    && |Encode(part)| <= 255
    && part[|part| - 1] != ' ' && part[|part| - 1] != '.'
  }

  /** `_validate_archive_path` accepts `value`. */
  predicate ValidPath(u: Unicode, value: string)
  {
    && value != "" && value == u.nfc(value)
    && value[0] != '/' && '\\' !in value
    && |Encode(value)| <= MAX_PATH_BYTES
    && (forall c :: c in value ==> !u.isOther(c))
    && var parts := Parts(value);
    && 1 <= |parts| <= MAX_PATH_DEPTH
    && (forall part :: part in parts ==> ValidPart(part))
    && Join(parts) == value
  }

  /** A name a directory can hold. */
  predicate FileName(name: string)
  {
    name != "" && name != "." && name != ".." && '/' !in name
  }

  predicate FileNames(parts: seq<string>)
  {
    forall i :: 0 <= i < |parts| ==> FileName(parts[i])
  }

  lemma {:induction false} SplitName(name: string, rest: string)
    requires '/' !in name
    ensures rest == "" ==> SplitSlash(name + rest) == [name]
    ensures rest != "" && rest[0] == '/' ==> SplitSlash(name + rest) == [name] + SplitSlash(rest[1..])
  {
    if name == "" {
      assert name + rest == rest;
    } else {
      assert (name + rest)[1..] == name[1..] + rest;
      SplitName(name[1..], rest);
      assert name == [name[0]] + name[1..];
    }
  }

  lemma {:induction false} SplitJoin(parts: seq<string>)
    requires parts != [] && FileNames(parts)
    ensures SplitSlash(Join(parts)) == parts
  {
    if |parts| == 1 {
      SplitName(parts[0], "");
      assert parts[0] + "" == parts[0];
    } else {
      var rest := "/" + Join(parts[1..]);
      assert Join(parts) == parts[0] + rest;
      SplitName(parts[0], rest);
      assert rest[1..] == Join(parts[1..]);
      SplitJoin(parts[1..]);
    }
  }

  lemma {:induction false} DropNothing(parts: seq<string>)
    requires FileNames(parts)
    ensures DropDots(parts) == parts
  {
    if parts != [] {
      DropNothing(parts[1..]);
    }
  }

  /** Joining names and taking the parts again gives the names back. */
  lemma PartsJoin(parts: seq<string>)
    requires parts != [] && FileNames(parts)
    ensures Parts(Join(parts)) == parts
  {
    SplitJoin(parts);
    DropNothing(parts);
  }

  lemma {:induction false} SplitHasNoSlash(s: string)
    ensures forall part :: part in SplitSlash(s) ==> '/' !in part
  {
    if s != "" {
      SplitHasNoSlash(s[1..]);
    }
  }

  lemma {:induction false} DropDotsKeeps(parts: seq<string>)
    ensures forall part :: part in DropDots(parts) ==> part in parts
  {
    if parts != [] {
      DropDotsKeeps(parts[1..]);
    }
  }

  /** A valid path is its parts joined, and each part is a file name. */
  lemma ValidPathNames(u: Unicode, value: string)
    requires ValidPath(u, value)
    ensures Parts(value) != [] && FileNames(Parts(value)) && Join(Parts(value)) == value
  {
    SplitHasNoSlash(value);
    DropDotsKeeps(SplitSlash(value));
    forall i | 0 <= i < |Parts(value)| ensures FileName(Parts(value)[i]) {
      var part := Parts(value)[i];
      assert part in Parts(value) && ValidPart(part) && part in SplitSlash(value);
    }
  }

  lemma {:induction false} JoinConcat(a: seq<string>, b: seq<string>)
    requires a != [] && b != []
    ensures Join(a + b) == Join(a) + "/" + Join(b)
  {
    if |a| == 1 {
      assert (a + b)[1..] == b;
    } else {
      assert (a + b)[1..] == a[1..] + b;
      JoinConcat(a[1..], b);
    }
  }

  /** A directory sorts before everything below it. */
  lemma AncestorLess(a: seq<string>, b: seq<string>)
    requires a != [] && b != []
    ensures Less(Encode(Join(a)), Encode(Join(a + b)))
  {
    JoinConcat(a, b);
    var tail := "/" + Join(b);
    assert Join(a + b) == Join(a) + tail;
    EncodeConcat(Join(a), tail);
    assert Encode(tail) != [];
    PrefixLess(Encode(Join(a)), Encode(tail));
  }

  lemma JoinDiffers(a: seq<string>, b: seq<string>)
    requires a != [] && b != [] && FileNames(a) && FileNames(b) && a != b
    ensures Join(a) != Join(b)
  {
    PartsJoin(a);
    PartsJoin(b);
  }

  /** No path spells the root. */
  lemma JoinIsNotDot(parts: seq<string>)
    requires parts != [] && FileNames(parts)
    ensures Join(parts) != "."
  {
    assert SplitSlash(".") == ["."];
    assert Parts(".") == [];
    PartsJoin(parts);
  }
}
