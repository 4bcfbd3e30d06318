/** The browser-profile archive: magic bytes, a four-byte manifest length, a canonical JSON
    manifest in UTF-8, then the file contents in manifest order. */
module ProfileArchive {
  import opened Order
  import opened Utf8
  import opened JsonText
  import opened ProfilePath

  type Bytes = seq<byte>

  const MAGIC: Bytes := [0x50, 0x4D, 0x50, 0x41, 0x31]
  const PREFIX := 9
  const MAX_ARCHIVE_BYTES := 32 * 1024 * 1024
  const MAX_MANIFEST_BYTES := 2 * 1024 * 1024
  const MAX_ENTRIES := 2048
  const MAX_TOTAL_UNPACKED_BYTES := 24 * 1024 * 1024
  const MAX_FILE_BYTES := 8 * 1024 * 1024

  datatype Entry = Entry(path: string, kind: string, content: Bytes)

  // ---------- what a valid entry list is ----------

  function FileBytes(entries: seq<Entry>): nat
  {
    if entries == [] then 0
    else FileBytes(entries[..|entries| - 1]) + FileSize(entries[|entries| - 1])
  }

  function FileSize(e: Entry): nat
  {
    if e.kind == "f" then |e.content| else 0
  }

  function Key(e: Entry): Bytes
  {
    Encode(e.path)
  }

  function Collision(u: Unicode, path: string): string
  {
    u.fold(u.nfc(path))
  }

  ghost predicate HasDirectory(entries: seq<Entry>, path: string)
  {
    exists i :: 0 <= i < |entries| && entries[i].path == path && entries[i].kind == "d"
  }

  ghost predicate ValidEntry(u: Unicode, e: Entry)
  {
    && ValidPath(u, e.path)
    && (e.kind == "d" || e.kind == "f")
    && (e.kind == "d" ==> e.content == [])
    && (e.kind == "f" ==> |e.content| <= MAX_FILE_BYTES)
  }

  /** The list is in strict byte order of its paths. */
  ghost predicate Ordered(entries: seq<Entry>)
  {
    forall i, j :: 0 <= i < j < |entries| ==> Less(Key(entries[i]), Key(entries[j]))
  }

  ghost predicate NoCollision(u: Unicode, entries: seq<Entry>)
  {
    forall i, j :: 0 <= i < j < |entries| ==> Collision(u, entries[i].path) != Collision(u, entries[j].path)
  }

  /** Every parent is an earlier directory of the list, or the root. */
  ghost predicate ParentsFirst(entries: seq<Entry>)
  {
    forall i :: 0 <= i < |entries| ==>
      Parent(entries[i].path) == "." || HasDirectory(entries[..i], Parent(entries[i].path))
  }

  ghost predicate ValidEntries(u: Unicode, entries: seq<Entry>)
  {
    && (forall i :: 0 <= i < |entries| ==> ValidEntry(u, entries[i]))
    && Ordered(entries)
    && NoCollision(u, entries)
    && ParentsFirst(entries)
    && FileBytes(entries) <= MAX_TOTAL_UNPACKED_BYTES
  }

  // ---------- the loop both directions run ----------

  /** `seen`, `types`, `previous` and `total` of the validation loop. */
  datatype Ledger = Ledger(seen: set<string>, types: map<string, string>, previous: Option<Bytes>, total: nat)

  const EMPTY_LEDGER := Ledger({}, map[], None, 0)

  /** One round of the checks on a path, its kind and its content size. */
  function Admit(u: Unicode, l: Ledger, path: string, kind: string, size: int): Option<Ledger>
  {
    if !ValidPath(u, path) || (kind != "d" && kind != "f") then None
    else
      var key := Encode(path);
      var collision := Collision(u, path);
      if collision in l.seen || (l.previous.Some? && !Less(l.previous.value, key)) then None
      else
        var parent := Parent(path);
        if parent != "." && (parent !in l.types || l.types[parent] != "d") then None
        else if kind == "d" && size != 0 then None
        else if kind == "f" && (size < 0 || size > MAX_FILE_BYTES || l.total + size > MAX_TOTAL_UNPACKED_BYTES) then None
        else Some(Ledger(l.seen + {collision}, l.types[path := kind], Some(key), l.total + if kind == "f" then size else 0))
  }

  /** `l` is the loop state after `entries`. */
  ghost predicate Tracks(u: Unicode, l: Ledger, entries: seq<Entry>)
  {
    && (forall c :: c in l.seen <==> exists i :: 0 <= i < |entries| && Collision(u, entries[i].path) == c)
    && (forall p :: p in l.types <==> exists i :: 0 <= i < |entries| && entries[i].path == p)
    && (forall i :: 0 <= i < |entries| ==> l.types[entries[i].path] == entries[i].kind)
    && l.previous == (if entries == [] then None else Some(Key(entries[|entries| - 1])))
    && l.total == FileBytes(entries)
  }

  lemma TracksEmpty(u: Unicode)
    ensures Tracks(u, EMPTY_LEDGER, []) && ValidEntries(u, [])
  {
  }

  lemma OrderedLast(entries: seq<Entry>, e: Entry)
    requires Ordered(entries)
    ensures Ordered(entries + [e]) <==> entries == [] || Less(Key(entries[|entries| - 1]), Key(e))
  {
    var more := entries + [e];
    if entries != [] {
      var last := entries[|entries| - 1];
      assert more[|entries| - 1] == last && more[|entries|] == e;
      if Less(Key(last), Key(e)) {
        forall i, j | 0 <= i < j < |more| ensures Less(Key(more[i]), Key(more[j])) {
          if j == |entries| && i < |entries| - 1 {
            LessTransitive(Key(entries[i]), Key(last), Key(e));
          }
        }
      }
    }
  }

  lemma ParentsFirstLast(entries: seq<Entry>, e: Entry)
    requires ParentsFirst(entries)
    ensures ParentsFirst(entries + [e]) <==> Parent(e.path) == "." || HasDirectory(entries, Parent(e.path))
  {
    var more := entries + [e];
    assert more[..|entries|] == entries && more[|entries|] == e;
    forall i | 0 <= i < |entries| ensures more[..i] == entries[..i] && more[i] == entries[i] {
    }
  }

  lemma NoCollisionLast(u: Unicode, entries: seq<Entry>, e: Entry)
    requires NoCollision(u, entries)
    ensures NoCollision(u, entries + [e])
      <==> forall i :: 0 <= i < |entries| ==> Collision(u, entries[i].path) != Collision(u, e.path)
  {
    var more := entries + [e];
    assert more[|entries|] == e;
    assert forall i :: 0 <= i < |entries| ==> more[i] == entries[i];
  }

  lemma OrderedDistinct(entries: seq<Entry>, i: nat, j: nat)
    requires Ordered(entries) && i < |entries| && j < |entries| && entries[i].path == entries[j].path
    ensures i == j
  {
    if i < j {
      LessIrreflexive(Key(entries[i]));
    } else if j < i {
      LessIrreflexive(Key(entries[i]));
    }
  }

  lemma FileBytesLast(entries: seq<Entry>, e: Entry)
    ensures FileBytes(entries + [e]) == FileBytes(entries) + FileSize(e)
  {
    var more := entries + [e];
    assert more[..|more| - 1] == entries;
  }

  lemma {:induction false} FileBytesPrefix(a: seq<Entry>, b: seq<Entry>)
    ensures FileBytes(a) <= FileBytes(a + b)
  {
    if b == [] {
      assert a + b == a;
    } else {
      FileBytesPrefix(a, b[..|b| - 1]);
      FileBytesLast(a + b[..|b| - 1], b[|b| - 1]);
      assert a + b[..|b| - 1] + [b[|b| - 1]] == a + b;
    }
  }

  lemma PrefixValid(u: Unicode, a: seq<Entry>, b: seq<Entry>)
    requires ValidEntries(u, a + b)
    ensures ValidEntries(u, a)
  {
    hide ValidPath, Parent, Encode, Less, HasDirectory;
    var all := a + b;
    assert forall i :: 0 <= i < |a| ==> all[i] == a[i] && all[..i] == a[..i];
    FileBytesPrefix(a, b);
  }

  lemma ValidOrdered(u: Unicode, entries: seq<Entry>)
    requires ValidEntries(u, entries)
    ensures Ordered(entries) && FileBytes(entries) <= MAX_TOTAL_UNPACKED_BYTES
  {
  }

  lemma ExtendValid(u: Unicode, entries: seq<Entry>, e: Entry)
    requires ValidEntries(u, entries)
    ensures ValidEntries(u, entries + [e]) <==>
      && ValidEntry(u, e)
      && (entries == [] || Less(Key(entries[|entries| - 1]), Key(e)))
      && (forall i :: 0 <= i < |entries| ==> Collision(u, entries[i].path) != Collision(u, e.path))
      && (Parent(e.path) == "." || HasDirectory(entries, Parent(e.path)))
      && FileBytes(entries) + FileSize(e) <= MAX_TOTAL_UNPACKED_BYTES
  {
    hide ValidPath, Parent, Encode, Less, HasDirectory, FileBytes;
    OrderedLast(entries, e);
    NoCollisionLast(u, entries, e);
    ParentsFirstLast(entries, e);
    FileBytesLast(entries, e);
    var more := entries + [e];
    assert more[|entries|] == e;
    assert forall i :: 0 <= i < |entries| ==> more[i] == entries[i];
  }

  lemma TracksParent(u: Unicode, l: Ledger, entries: seq<Entry>, path: string)
    requires Tracks(u, l, entries) && Ordered(entries)
    ensures (path in l.types && l.types[path] == "d") <==> HasDirectory(entries, path)
  {
    if path in l.types && l.types[path] == "d" {
      var i :| 0 <= i < |entries| && entries[i].path == path;
      assert l.types[entries[i].path] == entries[i].kind;
    }
  }

  lemma TracksExtend(u: Unicode, l: Ledger, entries: seq<Entry>, e: Entry)
    requires Tracks(u, l, entries) && Ordered(entries + [e])
    ensures Tracks(u, Ledger(l.seen + {Collision(u, e.path)}, l.types[e.path := e.kind], Some(Key(e)), l.total + FileSize(e)),
                   entries + [e])
  {
    hide ValidPath, Parent, Encode, Less, HasDirectory, FileBytes;
    var more := entries + [e];
    var l' := Ledger(l.seen + {Collision(u, e.path)}, l.types[e.path := e.kind], Some(Key(e)), l.total + FileSize(e));
    assert more[|entries|] == e;
    assert forall i :: 0 <= i < |entries| ==> more[i] == entries[i];
    forall c ensures c in l'.seen <==> exists i :: 0 <= i < |more| && Collision(u, more[i].path) == c {
      if c in l.seen {
        var i :| 0 <= i < |entries| && Collision(u, entries[i].path) == c;
        assert Collision(u, more[i].path) == c;
      }
    }
    forall p ensures p in l'.types <==> exists i :: 0 <= i < |more| && more[i].path == p {
      if p in l.types {
        var i :| 0 <= i < |entries| && entries[i].path == p;
        assert more[i].path == p;
      }
    }
    forall i | 0 <= i < |more| ensures l'.types[more[i].path] == more[i].kind {
      if i < |entries| && more[i].path == e.path {
        OrderedDistinct(more, i, |entries|);
      }
    }
    FileBytesLast(entries, e);
  }

  /** The loop's running checks decide exactly whether one more entry keeps the list valid. */
  lemma AdmitExact(u: Unicode, l: Ledger, entries: seq<Entry>, e: Entry)
    requires Tracks(u, l, entries) && ValidEntries(u, entries)
    ensures Admit(u, l, e.path, e.kind, |e.content|).Some? <==> ValidEntries(u, entries + [e])
    ensures ValidEntries(u, entries + [e]) ==> Tracks(u, Admit(u, l, e.path, e.kind, |e.content|).value, entries + [e])
  {
    hide ValidPath, Parent, Encode, Less, HasDirectory, ValidEntries, Ordered, FileBytes;
    ExtendValid(u, entries, e);
    ValidOrdered(u, entries);
    if ValidPath(u, e.path) {
      TracksParent(u, l, entries, Parent(e.path));
    }
    if ValidEntries(u, entries + [e]) {
      ValidOrdered(u, entries + [e]);
      TracksExtend(u, l, entries, e);
      assert Admit(u, l, e.path, e.kind, |e.content|) ==
        Some(Ledger(l.seen + {Collision(u, e.path)}, l.types[e.path := e.kind], Some(Key(e)), l.total + FileSize(e)));
    }
  }

  /** `_validate_archive_entries`: accepts exactly the valid lists. */
  method ValidateEntries(u: Unicode, entries: seq<Entry>) returns (ok: bool)
    ensures ok <==> ValidEntries(u, entries)
  {
    hide ValidEntries, Tracks, Admit;
    var l := EMPTY_LEDGER;
    TracksEmpty(u);
    assert entries[..0] == [];
    for i := 0 to |entries|
      invariant ValidEntries(u, entries[..i]) && Tracks(u, l, entries[..i])
    {
      var e := entries[i];
      assert entries[..i] + [e] == entries[..i + 1];
      AdmitExact(u, l, entries[..i], e);
      var next := Admit(u, l, e.path, e.kind, |e.content|);
      if next.None? {
        if ValidEntries(u, entries) {
          assert entries[..i + 1] + entries[i + 1..] == entries;
          PrefixValid(u, entries[..i + 1], entries[i + 1..]);
        }
        return false;
      }
      l := next.value;
    }
    assert entries[..|entries|] == entries;
    return true;
  }

  // ---------- building ----------

  function ManifestItem(e: Entry): Json
  {
    Obj([Member("kind", Str(e.kind)), Member("path", Str(e.path)), Member("size", Int(|e.content|))])
  }

  function ManifestItems(entries: seq<Entry>): (r: seq<Json>)
    ensures |r| == |entries|
  {
    seq(|entries|, i requires 0 <= i < |entries| => ManifestItem(entries[i]))
  }

  function Manifest(entries: seq<Entry>): Bytes
  {
    Encode(Print(Arr(ManifestItems(entries))))
  }

  function BigEndian(n: nat): Bytes
    requires n < 0x1_0000_0000
  {
    [n / 0x100_0000, n / 0x1_0000 % 0x100, n / 0x100 % 0x100, n % 0x100]
  }

  function FromBigEndian(b: Bytes): nat
    requires |b| == 4
  {
    ((b[0] as int * 0x100 + b[1] as int) * 0x100 + b[2] as int) * 0x100 + b[3] as int
  }

  function Payload(entries: seq<Entry>): Bytes
  {
    if entries == [] then []
    else (if entries[0].kind == "f" then entries[0].content else []) + Payload(entries[1..])
  }

  function Layout(manifest: Bytes, payload: Bytes): Bytes
    requires |manifest| <= MAX_MANIFEST_BYTES
  {
    MAGIC + BigEndian(|manifest|) + manifest + payload
  }

  ghost predicate Buildable(u: Unicode, entries: seq<Entry>)
  {
    && |entries| <= MAX_ENTRIES
    && ValidEntries(u, entries)
    && |Manifest(entries)| <= MAX_MANIFEST_BYTES
    && |Layout(Manifest(entries), Payload(entries))| <= MAX_ARCHIVE_BYTES
  }

  /** The archive of an entry list, when it has one. */
  ghost function Archive(u: Unicode, entries: seq<Entry>): Option<Bytes>
  {
    if Buildable(u, entries) then Some(Layout(Manifest(entries), Payload(entries))) else None
  }

  /** `_build_archive`. */
  method Build(u: Unicode, entries: seq<Entry>) returns (r: Option<Bytes>)
    ensures r == Archive(u, entries)
  {
    if |entries| > MAX_ENTRIES {
      return None;
    }
    var valid := ValidateEntries(u, entries);
    if !valid {
      return None;
    }
    var manifest := Manifest(entries);
    if |manifest| > MAX_MANIFEST_BYTES {
      return None;
    }
    var archive := Layout(manifest, Payload(entries));
    if |archive| > MAX_ARCHIVE_BYTES {
      return None;
    }
    return Some(archive);
  }

  // ---------- decoding ----------

  /** `raw["kind"], raw["path"], raw["size"]` of a manifest item of the accepted shape. */
  function ReadItem(raw: Json): Option<(string, string, int)>
  {
    if raw.Obj? && |raw.members| == 3
       && raw.members[0].key == "kind" && raw.members[1].key == "path" && raw.members[2].key == "size"
       && raw.members[0].value.Str? && raw.members[1].value.Str? && raw.members[2].value.Int?
    then Some((raw.members[0].value.s, raw.members[1].value.s, raw.members[2].value.n))
    else None
  }

  /** One round of the decoding loop: the entry and the payload left after it. */
  function DecodeItem(u: Unicode, l: Ledger, raw: Json, payload: Bytes): Option<(Entry, Ledger, Bytes)>
  {
    match ReadItem(raw)
    case None => None
    case Some((kind, path, size)) =>
      match Admit(u, l, path, kind, size)
      case None => None
      case Some(l') =>
        if kind == "d" then Some((Entry(path, kind, []), l', payload))
        else if size < 0 || size > |payload| then None
        else Some((Entry(path, kind, payload[..size]), l', payload[size..]))
  }

  function DecodeItems(u: Unicode, l: Ledger, items: seq<Json>, payload: Bytes): Option<seq<Entry>>
    decreases items
  {
    if items == [] then (if payload == [] then Some([]) else None)
    else
      match DecodeItem(u, l, items[0], payload)
      case None => None
      case Some((e, l', rest)) =>
        match DecodeItems(u, l', items[1..], rest)
        case None => None
        case Some(es) => Some([e] + es)
  }

  /** The manifest and the payload of an archive whose header is well formed. */
  function SplitArchive(archive: Bytes): Option<(Bytes, Bytes)>
  {
    if |archive| > MAX_ARCHIVE_BYTES || |archive| < PREFIX || archive[..5] != MAGIC then None
    else
      var size := FromBigEndian(archive[5..PREFIX]);
      if size > MAX_MANIFEST_BYTES || PREFIX + size > |archive| then None
      else Some((archive[PREFIX..PREFIX + size], archive[PREFIX + size..]))
  }

  /** The items of a manifest that `json.loads` reads and `json.dumps` writes back unchanged. */
  function ReadManifest(manifest: Bytes, floats: FloatReader): Option<seq<Json>>
  {
    match Decode(manifest)
    case None => None
    case Some(text) =>
      match Loads(text, floats)
      case None => None
      case Some(v) =>
        if Encode(Print(v)) == manifest && v.Arr? && |v.items| <= MAX_ENTRIES then Some(v.items) else None
  }

  /** Every check of the decoder before the final rebuild comparison. */
  function Structure(u: Unicode, archive: Bytes, floats: FloatReader): Option<seq<Entry>>
  {
    match SplitArchive(archive)
    case None => None
    case Some((manifest, payload)) =>
      match ReadManifest(manifest, floats)
      case None => None
      case Some(items) => DecodeItems(u, EMPTY_LEDGER, items, payload)
  }

  // ---------- reading back what was built ----------

  lemma BigEndianRoundTrip(n: nat)
    requires n < 0x1_0000_0000
    ensures FromBigEndian(BigEndian(n)) == n
  {
    assert n / 0x1_0000 == n / 0x100 / 0x100 && n / 0x100_0000 == n / 0x100 / 0x100 / 0x100;
  }

  lemma FromBigEndianRoundTrip(b: Bytes)
    requires |b| == 4
    ensures FromBigEndian(b) < 0x1_0000_0000 && BigEndian(FromBigEndian(b)) == b
  {
    var n := FromBigEndian(b);
    assert n / 0x100 == (b[0] as int * 0x100 + b[1] as int) * 0x100 + b[2] as int;
    assert n / 0x1_0000 == b[0] as int * 0x100 + b[1] as int;
    assert n / 0x100_0000 == b[0];
  }

  lemma ManifestCanonical(entries: seq<Entry>, floats: FloatReader)
    ensures Canonical(Arr(ManifestItems(entries)), floats)
  {
    assert TextLess("kind", "path") && TextLess("path", "size") by {
      assert Codes("kind")[0] == 'k' as int && Codes("path")[0] == 'p' as int && Codes("size")[0] == 's' as int;
    }
    forall i | 0 <= i < |entries| ensures Canonical(ManifestItems(entries)[i], floats) {
      TextTransitive("kind", "path", "size");
    }
  }

  lemma SplitLayout(manifest: Bytes, payload: Bytes)
    requires |manifest| <= MAX_MANIFEST_BYTES
    requires |Layout(manifest, payload)| <= MAX_ARCHIVE_BYTES
    ensures SplitArchive(Layout(manifest, payload)) == Some((manifest, payload))
  {
    var a := Layout(manifest, payload);
    assert a[..5] == MAGIC && a[5..PREFIX] == BigEndian(|manifest|);
    BigEndianRoundTrip(|manifest|);
    assert a[PREFIX..PREFIX + |manifest|] == manifest && a[PREFIX + |manifest|..] == payload;
  }

  lemma LayoutSplit(archive: Bytes)
    requires SplitArchive(archive).Some?
    ensures var (manifest, payload) := SplitArchive(archive).value;
      |manifest| <= MAX_MANIFEST_BYTES && |archive| <= MAX_ARCHIVE_BYTES && Layout(manifest, payload) == archive
  {
    var (manifest, payload) := SplitArchive(archive).value;
    FromBigEndianRoundTrip(archive[5..PREFIX]);
    assert archive == archive[..5] + archive[5..PREFIX] + archive[PREFIX..PREFIX + |manifest|] + archive[PREFIX + |manifest|..];
  }

  lemma ReadManifestItem(e: Entry)
    ensures ReadItem(ManifestItem(e)) == Some((e.kind, e.path, |e.content|))
  {
  }

  lemma {:induction false} DecodeValidItems(u: Unicode, l: Ledger, before: seq<Entry>, entries: seq<Entry>)
    requires Tracks(u, l, before) && ValidEntries(u, before + entries)
    ensures DecodeItems(u, l, ManifestItems(entries), Payload(entries)) == Some(entries)
    decreases |entries|
  {
    hide ValidEntries, Tracks, Admit, ManifestItem;
    if entries != [] {
      var e, es := entries[0], entries[1..];
      assert before + entries == before + [e] + es;
      PrefixValid(u, before + [e], es);
      PrefixValid(u, before, [e]);
      AdmitExact(u, l, before, e);
      ReadManifestItem(e);
      assert ManifestItems(entries)[1..] == ManifestItems(es);
      var content := if e.kind == "f" then e.content else [];
      var payload := Payload(entries);
      assert payload[..|content|] == content && payload[|content|..] == Payload(es);
      ExtendValid(u, before, e);
      DecodeValidItems(u, Admit(u, l, e.path, e.kind, |e.content|).value, before + [e], es);
      assert entries == [e] + es;
    }
  }

  /** Decoding a built archive returns exactly its entries. */
  lemma DecodeBuilt(u: Unicode, entries: seq<Entry>, floats: FloatReader)
    requires Archive(u, entries).Some?
    ensures Structure(u, Archive(u, entries).value, floats) == Some(entries)
  {
    hide ValidEntries, Tracks, Admit, DecodeItems, Print, Encode, Decode, Loads, Layout, SplitArchive, Canonical;
    var v := Arr(ManifestItems(entries));
    SplitLayout(Manifest(entries), Payload(entries));
    DecodeEncode(Print(v));
    ManifestCanonical(entries, floats);
    LoadsPrinted(v, floats);
    TracksEmpty(u);
    assert [] + entries == entries;
    DecodeValidItems(u, EMPTY_LEDGER, [], entries);
  }

  // ---------- the rebuild comparison never rejects ----------

  lemma ReadItemExact(raw: Json, e: Entry)
    requires ReadItem(raw) == Some((e.kind, e.path, |e.content|))
    ensures raw == ManifestItem(e)
  {
    assert raw.members == [raw.members[0], raw.members[1], raw.members[2]];
    assert raw.members[0] == Member("kind", Str(e.kind));
  }

  lemma DecodedItem(u: Unicode, l: Ledger, raw: Json, payload: Bytes)
    requires DecodeItem(u, l, raw, payload).Some?
    ensures var (e, l', rest) := DecodeItem(u, l, raw, payload).value;
      && raw == ManifestItem(e)
      && Admit(u, l, e.path, e.kind, |e.content|) == Some(l')
      && payload == (if e.kind == "f" then e.content else []) + rest
  {
    hide ValidPath, Parent, Collision;
    var (e, l', rest) := DecodeItem(u, l, raw, payload).value;
    ReadItemExact(raw, e);
  }

  lemma {:induction false} DecodedItemsValid(u: Unicode, l: Ledger, before: seq<Entry>, items: seq<Json>, payload: Bytes)
    requires Tracks(u, l, before) && ValidEntries(u, before)
    requires DecodeItems(u, l, items, payload).Some?
    ensures var entries := DecodeItems(u, l, items, payload).value;
      && ValidEntries(u, before + entries)
      && items == ManifestItems(entries)
      && payload == Payload(entries)
    decreases items
  {
    hide ValidEntries, Tracks, Admit, ManifestItem, ReadItem, DecodeItem;
    if items == [] {
      assert before + [] == before;
    } else {
      var (e, l', rest) := DecodeItem(u, l, items[0], payload).value;
      DecodedItem(u, l, items[0], payload);
      AdmitExact(u, l, before, e);
      DecodedItemsValid(u, l', before + [e], items[1..], rest);
      var es := DecodeItems(u, l', items[1..], rest).value;
      assert before + [e] + es == before + ([e] + es);
      assert ([e] + es)[1..] == es;
      assert items == [items[0]] + items[1..];
      assert items == ManifestItems([e] + es);
    }
  }

  /** An archive that passes the structural checks is the one its entries build. */
  lemma RebuildAgrees(u: Unicode, archive: Bytes, floats: FloatReader)
    requires Structure(u, archive, floats).Some?
    ensures Archive(u, Structure(u, archive, floats).value) == Some(archive)
  {
    hide ValidEntries, Tracks, DecodeItems, SplitArchive, Layout, Print, Encode, Loads, Decode;
    var (manifest, payload) := SplitArchive(archive).value;
    var items := ReadManifest(manifest, floats).value;
    LayoutSplit(archive);
    TracksEmpty(u);
    DecodedItemsValid(u, EMPTY_LEDGER, [], items, payload);
    var entries := DecodeItems(u, EMPTY_LEDGER, items, payload).value;
    assert [] + entries == entries;
    assert Loads(Decode(manifest).value, floats) == Some(Arr(items));
  }

  /** Accepted archives are exactly the built ones, and each is accepted for one list. */
  lemma AcceptedIffBuilt(u: Unicode, archive: Bytes, entries: seq<Entry>, floats: FloatReader)
    ensures Structure(u, archive, floats) == Some(entries) <==> Archive(u, entries) == Some(archive)
  {
    if Structure(u, archive, floats) == Some(entries) {
      RebuildAgrees(u, archive, floats);
    }
    if Archive(u, entries) == Some(archive) {
      DecodeBuilt(u, entries, floats);
    }
  }

  /** `_decode_profile_archive`, loops and final comparison included. */
  method DecodeArchive(u: Unicode, archive: Bytes, floats: FloatReader) returns (r: Option<seq<Entry>>)
    ensures r.Some? ==> Archive(u, r.value) == Some(archive)
    ensures forall entries :: Archive(u, entries) == Some(archive) ==> r == Some(entries)
  {
    hide ValidEntries, Tracks, Admit, Buildable, Archive, SplitArchive, ReadManifest, DecodeItem, ManifestItem;
    forall entries ensures Structure(u, archive, floats) == Some(entries) <==> Archive(u, entries) == Some(archive) {
      AcceptedIffBuilt(u, archive, entries, floats);
    }
    var split := SplitArchive(archive);
    if split.None? {
      return None;
    }
    var (manifest, payload) := split.value;
    var items := ReadManifest(manifest, floats);
    if items.None? {
      return None;
    }
    var entries: seq<Entry> := [];
    var l, offset, i := EMPTY_LEDGER, 0, 0;
    assert items.value[0..] == items.value && payload[0..] == payload;
    ghost var whole := DecodeItems(u, EMPTY_LEDGER, items.value, payload);
    assert whole.Some? ==> [] + whole.value == whole.value;
    while i < |items.value|
      invariant 0 <= i <= |items.value| && 0 <= offset <= |payload|
      invariant match DecodeItems(u, l, items.value[i..], payload[offset..])
        case None => whole == None
        case Some(es) => whole == Some(entries + es)
    {
      var item := DecodeItem(u, l, items.value[i], payload[offset..]);
      assert items.value[i..][1..] == items.value[i + 1..];
      if item.None? {
        return None;
      }
      var e := item.value.0;
      DecodedItem(u, l, items.value[i], payload[offset..]);
      if e.kind == "f" {
        assert payload[offset..][|e.content|..] == item.value.2;
        offset := offset + |e.content|;
      }
      assert payload[offset..] == item.value.2;
      ghost var after := DecodeItems(u, item.value.1, items.value[i + 1..], item.value.2);
      if after.Some? {
        assert entries + ([e] + after.value) == entries + [e] + after.value;
      }
      entries := entries + [e];
      l := item.value.1;
      i := i + 1;
    }
    if offset != |payload| {
      return None;
    }
    assert entries + [] == entries;
    var rebuilt := Build(u, entries);
    if rebuilt != Some(archive) {
      return None;
    }
    return Some(entries);
  }
}
