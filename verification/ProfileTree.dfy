/** The directory scanner and the extractor. A directory is its children in the byte order
    of their names, the order in which the scanner visits `os.listdir`. */
module ProfileTree {
  import opened Order
  import opened Utf8
  import opened JsonText
  import opened ProfilePath
  import opened ProfileArchive

  datatype Node = File(content: Bytes) | Dir(children: seq<Child>)

  datatype Child = Child(name: string, node: Node)

  /** What one path of a tree holds. */
  datatype Shape = IsDir | IsFile(content: Bytes)

  predicate NameLess(a: string, b: string)
  {
    Less(Encode(a), Encode(b))
  }

  /** A directory the operating system can hold: distinct proper names at every level. */
  ghost predicate ValidTree(cs: seq<Child>)
  {
    && (forall i, j :: 0 <= i < j < |cs| ==> NameLess(cs[i].name, cs[j].name))
    && (forall i :: 0 <= i < |cs| ==> FileName(cs[i].name))
    && (forall i :: 0 <= i < |cs| && cs[i].node.Dir? ==> ValidTree(cs[i].node.children))
  }

  function ShapeOf(n: Node): Shape
  {
    if n.Dir? then IsDir else IsFile(n.content)
  }

  /** The entry of a tree at a path, found by walking down its parts. */
  function Find(cs: seq<Child>, parts: seq<string>): Option<Shape>
    decreases cs
  {
    if cs == [] || parts == [] then None
    else if cs[0].name != parts[0] then Find(cs[1..], parts)
    else if |parts| == 1 then Some(ShapeOf(cs[0].node))
    else if cs[0].node.Dir? then Find(cs[0].node.children, parts[1..])
    else None
  }

  lemma ValidTreeStep(cs: seq<Child>)
    requires ValidTree(cs) && cs != []
    ensures ValidTree(cs[1..]) && FileName(cs[0].name)
    ensures cs[0].node.Dir? ==> ValidTree(cs[0].node.children)
    ensures forall i :: 0 <= i < |cs[1..]| ==> cs[1..][i].name != cs[0].name
  {
    forall i | 0 <= i < |cs[1..]| ensures cs[1..][i].name != cs[0].name {
      LessAsymmetric(Encode(cs[0].name), Encode(cs[i + 1].name));
    }
  }

  // ---------- scanning ----------

  function NodeEntry(path: string, n: Node): Entry
  {
    if n.Dir? then Entry(path, "d", []) else Entry(path, "f", n.content)
  }

  predicate WithinCapacity(entries: seq<Entry>)
  {
    |entries| <= MAX_ENTRIES && FileBytes(entries) <= MAX_TOTAL_UNPACKED_BYTES
  }

  /** `_scan_directory`: the shared list after visiting `cs`, or None when a check fails. */
  function Scan(u: Unicode, above: seq<string>, cs: seq<Child>, entries: seq<Entry>): Option<seq<Entry>>
    decreases cs
  {
    if cs == [] then Some(entries)
    else
      var here := above + [cs[0].name];
      var e := NodeEntry(Join(here), cs[0].node);
      if !ValidPath(u, e.path) || |e.content| > MAX_FILE_BYTES || !WithinCapacity(entries + [e]) then None
      else
        var inner := if cs[0].node.Dir? then Scan(u, here, cs[0].node.children, entries + [e]) else Some(entries + [e]);
        match inner
        case None => None
        case Some(more) => Scan(u, above, cs[1..], more)
  }

  /** The depth-first listing without any check. */
  function Listing(above: seq<string>, cs: seq<Child>): seq<Entry>
    decreases cs
  {
    if cs == [] then []
    else
      var here := above + [cs[0].name];
      [NodeEntry(Join(here), cs[0].node)]
      + (if cs[0].node.Dir? then Listing(here, cs[0].node.children) else [])
      + Listing(above, cs[1..])
  }

  /** `entries.sort(key=lambda item: item[0].encode("utf-8"))`. */
  function InsertSorted(e: Entry, entries: seq<Entry>): seq<Entry>
  {
    if entries == [] || Less(Key(e), Key(entries[0])) then [e] + entries
    else [entries[0]] + InsertSorted(e, entries[1..])
  }

  function SortEntries(entries: seq<Entry>): seq<Entry>
  {
    if entries == [] then []
    else InsertSorted(entries[|entries| - 1], SortEntries(entries[..|entries| - 1]))
  }

  /** `_encode_profile_archive_fd` of a tree. */
  ghost function EncodeTree(u: Unicode, tree: seq<Child>): Option<Bytes>
  {
    match Scan(u, [], tree, [])
    case None => None
    case Some(entries) => Archive(u, SortEntries(entries))
  }

  // ---------- extracting ----------

  /** Create a node in a directory; None when the name is taken. */
  function Create(cs: seq<Child>, c: Child): Option<seq<Child>>
  {
    if cs == [] then Some([c])
    else if cs[0].name == c.name then None
    else if NameLess(c.name, cs[0].name) then Some([c] + cs)
    else
      match Create(cs[1..], c)
      case None => None
      case Some(rest) => Some([cs[0]] + rest)
  }

  /** `os.mkdir` or an exclusive create at a path; None when the parent directory is missing
      or the name is taken. */
  function Put(cs: seq<Child>, parts: seq<string>, n: Node): Option<seq<Child>>
    decreases cs
  {
    if parts == [] then None
    else if |parts| == 1 then Create(cs, Child(parts[0], n))
    else if cs == [] then None
    else if cs[0].name == parts[0] then
      if cs[0].node.File? then None
      else
        match Put(cs[0].node.children, parts[1..], n)
        case None => None
        case Some(below) => Some([Child(cs[0].name, Dir(below))] + cs[1..])
    else
      match Put(cs[1..], parts, n)
      case None => None
      case Some(rest) => Some([cs[0]] + rest)
  }

  function NodeOf(e: Entry): Node
  {
    if e.kind == "d" then Dir([]) else File(e.content)
  }

  /** The extraction loop from a workspace that holds `tree`. */
  function Materialize(tree: seq<Child>, entries: seq<Entry>): Option<seq<Child>>
    decreases |entries|
  {
    if entries == [] then Some(tree)
    else
      match Put(tree, Parts(entries[0].path), NodeOf(entries[0]))
      case None => None
      case Some(next) => Materialize(next, entries[1..])
  }

  // ---------- looking up after creating ----------

  ghost predicate Leaf(n: Node)
  {
    n.Dir? ==> n.children == []
  }

  lemma {:induction false} AbsentName(cs: seq<Child>, q: seq<string>)
    requires q != [] && forall i :: 0 <= i < |cs| ==> cs[i].name != q[0]
    ensures Find(cs, q) == None
  {
    if cs != [] {
      AbsentName(cs[1..], q);
    }
  }

  lemma NamesBelow(cs: seq<Child>, name: string)
    requires ValidTree(cs) && cs != [] && NameLess(name, cs[0].name)
    ensures forall i :: 0 <= i < |cs| ==> NameLess(name, cs[i].name) && name != cs[i].name
  {
    forall i | 0 <= i < |cs| ensures NameLess(name, cs[i].name) && name != cs[i].name {
      if i > 0 {
        LessTransitive(Encode(name), Encode(cs[0].name), Encode(cs[i].name));
      }
      LessAsymmetric(Encode(name), Encode(cs[i].name));
    }
  }

  lemma NameTotal(a: string, b: string)
    ensures NameLess(a, b) || a == b || NameLess(b, a)
  {
    LessTotal(Encode(a), Encode(b));
    if Encode(a) == Encode(b) {
      EncodeInjective(a, b);
    }
  }

  lemma {:induction false} CreateValid(cs: seq<Child>, c: Child)
    requires ValidTree(cs) && Create(cs, c).Some? && FileName(c.name) && Leaf(c.node)
    ensures ValidTree(Create(cs, c).value)
    ensures forall x :: x in Create(cs, c).value ==> x == c || x in cs
  {
    hide Encode, Less;
    if cs != [] {
      NameTotal(c.name, cs[0].name);
      if NameLess(c.name, cs[0].name) {
        NamesBelow(cs, c.name);
      } else {
        CreateValid(cs[1..], c);
        var rest := Create(cs[1..], c).value;
        forall i | 0 <= i < |rest| ensures NameLess(cs[0].name, rest[i].name) {
          assert rest[i] == c || rest[i] in cs[1..];
        }
      }
    }
  }

  lemma {:induction false} CreateFind(cs: seq<Child>, c: Child, q: seq<string>)
    requires ValidTree(cs) && Create(cs, c).Some? && Leaf(c.node) && q != []
    ensures Find(Create(cs, c).value, q) == if q == [c.name] then Some(ShapeOf(c.node)) else Find(cs, q)
  {
    hide Encode, Less;
    if cs != [] {
      if NameLess(c.name, cs[0].name) {
        NamesBelow(cs, c.name);
        assert ([c] + cs)[1..] == cs;
        if q[0] == c.name {
          AbsentName(cs, q);
        }
      } else {
        CreateFind(cs[1..], c, q);
        assert ([cs[0]] + Create(cs[1..], c).value)[1..] == Create(cs[1..], c).value;
      }
    }
  }

  lemma {:induction false} CreateSucceeds(cs: seq<Child>, c: Child)
    requires Find(cs, [c.name]) == None
    ensures Create(cs, c).Some?
  {
    if cs != [] && cs[0].name != c.name {
      CreateSucceeds(cs[1..], c);
    }
  }

  ghost predicate SameNames(a: seq<Child>, b: seq<Child>)
  {
    |a| == |b| && forall i :: 0 <= i < |a| ==> a[i].name == b[i].name
  }

  lemma ReplaceNodeValid(cs: seq<Child>, n: Node)
    requires ValidTree(cs) && cs != [] && (n.Dir? ==> ValidTree(n.children))
    ensures ValidTree([Child(cs[0].name, n)] + cs[1..])
  {
  }

  lemma ReplaceTailValid(cs: seq<Child>, tail: seq<Child>)
    requires ValidTree(cs) && cs != [] && ValidTree(tail) && SameNames(cs[1..], tail)
    ensures ValidTree([cs[0]] + tail)
  {
    forall i | 0 <= i < |tail| ensures NameLess(cs[0].name, tail[i].name) {
      assert tail[i].name == cs[1..][i].name;
    }
  }

  lemma {:induction false} PutValid(cs: seq<Child>, p: seq<string>, n: Node)
    requires ValidTree(cs) && FileNames(p) && Leaf(n) && Put(cs, p, n).Some?
    ensures ValidTree(Put(cs, p, n).value)
    ensures |p| > 1 ==> SameNames(cs, Put(cs, p, n).value)
    decreases cs
  {
    hide ValidTree;
    if |p| == 1 {
      CreateValid(cs, Child(p[0], n));
    } else {
      ValidTreeStep(cs);
      if cs[0].name == p[0] {
        PutValid(cs[0].node.children, p[1..], n);
        ReplaceNodeValid(cs, Dir(Put(cs[0].node.children, p[1..], n).value));
      } else {
        PutValid(cs[1..], p, n);
        ReplaceTailValid(cs, Put(cs[1..], p, n).value);
      }
    }
  }

  /** Creating a node changes the tree at its own path only. */
  lemma {:induction false} PutFind(cs: seq<Child>, p: seq<string>, n: Node, q: seq<string>)
    requires ValidTree(cs) && Leaf(n) && Put(cs, p, n).Some? && q != []
    ensures Find(Put(cs, p, n).value, q) == if q == p then Some(ShapeOf(n)) else Find(cs, q)
    decreases cs
  {
    hide ValidTree, NameLess;
    if cs != [] {
      ValidTreeStep(cs);
    }
    if |p| == 1 {
      CreateFind(cs, Child(p[0], n), q);
      assert p == [p[0]];
    } else if cs[0].name == p[0] {
      var below := Put(cs[0].node.children, p[1..], n).value;
      assert ([Child(cs[0].name, Dir(below))] + cs[1..])[1..] == cs[1..];
      assert q == [q[0]] + q[1..] && p == [p[0]] + p[1..];
      if q[0] == p[0] && |q| > 1 {
        PutFind(cs[0].node.children, p[1..], n, q[1..]);
      }
    } else {
      PutFind(cs[1..], p, n, q);
      assert ([cs[0]] + Put(cs[1..], p, n).value)[1..] == Put(cs[1..], p, n).value;
    }
  }

  /** Creating succeeds at a free path whose parent is the root or a directory. */
  lemma {:induction false} PutSucceeds(cs: seq<Child>, p: seq<string>, n: Node)
    requires p != [] && Find(cs, p) == None
    requires |p| > 1 ==> Find(cs, p[..|p| - 1]) == Some(IsDir)
    ensures Put(cs, p, n).Some?
    decreases cs
  {
    if |p| == 1 {
      assert p == [p[0]];
      CreateSucceeds(cs, Child(p[0], n));
    } else {
      var above := p[..|p| - 1];
      assert above[0] == p[0];
      if cs[0].name == p[0] {
        if |above| > 1 {
          assert above[1..] == p[1..][..|p| - 2];
        }
        PutSucceeds(cs[0].node.children, p[1..], n);
      } else {
        PutSucceeds(cs[1..], p, n);
      }
    }
  }

  /** Trees that answer every lookup alike are equal. */
  lemma {:induction false} SameFindsSameTree(a: seq<Child>, b: seq<Child>)
    requires ValidTree(a) && ValidTree(b)
    requires forall q :: q != [] ==> Find(a, q) == Find(b, q)
    ensures a == b
    decreases a
  {
    hide Encode, Less;
    if a == [] {
      assert b == [] || Find(a, [b[0].name]) == Find(b, [b[0].name]);
    } else {
      var x := a[0];
      assert Find(a, [x.name]) == Find(b, [x.name]) == Some(ShapeOf(x.node));
      assert b != [];
      var y := b[0];
      assert Find(b, [y.name]) == Find(a, [y.name]) == Some(ShapeOf(y.node));
      NameTotal(x.name, y.name);
      if NameLess(x.name, y.name) {
        NamesBelow(b, x.name);
        AbsentName(b, [x.name]);
      }
      if NameLess(y.name, x.name) {
        NamesBelow(a, y.name);
        AbsentName(a, [y.name]);
      }
      if x.node.Dir? {
        forall q | q != [] ensures Find(x.node.children, q) == Find(y.node.children, q) {
          assert ([x.name] + q)[1..] == q;
          assert Find(a, [x.name] + q) == Find(b, [x.name] + q);
        }
        SameFindsSameTree(x.node.children, y.node.children);
      }
      forall q | q != [] ensures Find(a[1..], q) == Find(b[1..], q) {
        if q[0] == x.name {
          AbsentAfterHead(a, q);
          AbsentAfterHead(b, q);
        } else {
          assert Find(a, q) == Find(b, q);
        }
      }
      SameFindsSameTree(a[1..], b[1..]);
      assert a == [x] + a[1..] && b == [y] + b[1..];
    }
  }

  lemma AbsentAfterHead(cs: seq<Child>, q: seq<string>)
    requires ValidTree(cs) && cs != [] && q != [] && q[0] == cs[0].name
    ensures Find(cs[1..], q) == None
  {
    forall i | 0 <= i < |cs[1..]| ensures cs[1..][i].name != q[0] {
      LessAsymmetric(Encode(cs[0].name), Encode(cs[i + 1].name));
    }
    AbsentName(cs[1..], q);
  }

  // ---------- the listing is the graph of the lookup ----------

  function EntryAt(parts: seq<string>, s: Shape): Entry
  {
    if s.IsDir? then Entry(Join(parts), "d", []) else Entry(Join(parts), "f", s.content)
  }

  lemma FindHead(cs: seq<Child>, q: seq<string>)
    requires cs != [] && q != []
    ensures Find(cs, [cs[0].name]) == Some(ShapeOf(cs[0].node))
    ensures cs[0].node.Dir? ==> Find(cs, [cs[0].name] + q) == Find(cs[0].node.children, q)
    ensures q[0] != cs[0].name ==> Find(cs, q) == Find(cs[1..], q)
  {
    assert ([cs[0].name] + q)[1..] == q;
  }

  lemma ListingStep(above: seq<string>, cs: seq<Child>, e: Entry)
    requires cs != []
    ensures var c := cs[0];
      e in Listing(above, cs) <==>
        || e == NodeEntry(Join(above + [c.name]), c.node)
        || (c.node.Dir? && e in Listing(above + [c.name], c.node.children))
        || e in Listing(above, cs[1..])
  {
  }

  lemma {:induction false} ListingHas(above: seq<string>, cs: seq<Child>, q: seq<string>)
    requires ValidTree(cs) && q != [] && Find(cs, q).Some?
    ensures EntryAt(above + q, Find(cs, q).value) in Listing(above, cs)
    ensures FileNames(q)
    decreases cs
  {
    hide ValidTree, FileName, Join, Listing;
    assert cs != [];
    var c := cs[0];
    var here := above + [c.name];
    ValidTreeStep(cs);
    ListingStep(above, cs, EntryAt(above + q, Find(cs, q).value));
    if c.name != q[0] {
      ListingHas(above, cs[1..], q);
    } else if |q| == 1 {
      assert above + q == here;
    } else {
      ListingHas(here, c.node.children, q[1..]);
      assert here + q[1..] == above + q;
    }
  }

  ghost predicate HasName(cs: seq<Child>, name: string)
  {
    exists c :: c in cs && c.name == name
  }

  lemma {:induction false} ListingOnly(above: seq<string>, cs: seq<Child>, e: Entry) returns (q: seq<string>)
    requires ValidTree(cs) && e in Listing(above, cs)
    ensures q != [] && FileNames(q) && Find(cs, q).Some? && e == EntryAt(above + q, Find(cs, q).value)
    ensures HasName(cs, q[0])
    decreases cs
  {
    hide ValidTree, FileName, Join, Find, Listing;
    assert cs != [] by {
      ListingNonempty(above, cs, e);
    }
    var c := cs[0];
    var here := above + [c.name];
    ValidTreeStep(cs);
    ListingStep(above, cs, e);
    if e == NodeEntry(Join(here), c.node) {
      q := [c.name];
      FindHead(cs, q);
    } else if c.node.Dir? && e in Listing(here, c.node.children) {
      var below := ListingOnly(here, c.node.children, e);
      q := [c.name] + below;
      FindHead(cs, below);
      assert here + below == above + q;
    } else {
      q := ListingOnly(above, cs[1..], e);
      assert forall x :: x in cs[1..] ==> x in cs;
      FindHead(cs, q);
    }
  }

  lemma ListingNonempty(above: seq<string>, cs: seq<Child>, e: Entry)
    requires e in Listing(above, cs)
    ensures cs != []
  {
  }

  ghost predicate DistinctPaths(entries: seq<Entry>)
  {
    forall i, j :: 0 <= i < j < |entries| ==> entries[i].path != entries[j].path
  }

  lemma DistinctConcat(a: seq<Entry>, b: seq<Entry>)
    requires DistinctPaths(a) && DistinctPaths(b)
    requires forall x, y :: x in a && y in b ==> x.path != y.path
    ensures DistinctPaths(a + b)
  {
  }

  /** Entries below one child and entries of its siblings have different paths. */
  lemma SiblingsDiffer(above: seq<string>, cs: seq<Child>, e: Entry, name: string, q: seq<string>)
    requires ValidTree(cs) && FileNames(above) && FileName(name) && FileNames(q)
    requires e in Listing(above, cs) && forall i :: 0 <= i < |cs| ==> cs[i].name != name
    ensures e.path != Join(above + [name] + q)
  {
    hide ValidTree, FileName, Listing, Find, Join;
    var r := ListingOnly(above, cs, e);
    assert (above + r)[|above|] == r[0] && (above + [name] + q)[|above|] == name;
    JoinDiffers(above + r, above + [name] + q);
  }

  lemma {:induction false} ListingDistinct(above: seq<string>, cs: seq<Child>)
    requires ValidTree(cs) && FileNames(above)
    ensures DistinctPaths(Listing(above, cs))
    decreases cs
  {
    hide ValidTree, FileName;
    if cs != [] {
      var c := cs[0];
      var here := above + [c.name];
      ValidTreeStep(cs);
      var first, rest := NodeEntry(Join(here), c.node), Listing(above, cs[1..]);
      var sub := if c.node.Dir? then Listing(here, c.node.children) else [];
      ListingDistinct(above, cs[1..]);
      if c.node.Dir? {
        ListingDistinct(here, c.node.children);
      }
      forall e | e in sub ensures e.path != first.path {
        var q := ListingOnly(here, c.node.children, e);
        assert |here + q| > |here|;
        JoinDiffers(here + q, here);
      }
      DistinctConcat([first], sub);
      forall x, e | x in [first] + sub && e in rest ensures x.path != e.path {
        if x == first {
          SiblingsDiffer(above, cs[1..], e, c.name, []);
          assert here + [] == here;
        } else {
          var q := ListingOnly(here, c.node.children, x);
          SiblingsDiffer(above, cs[1..], e, c.name, q);
        }
      }
      DistinctConcat([first] + sub, rest);
    }
  }

  // ---------- sorting ----------

  lemma {:induction false} InsertSortedMembers(e: Entry, entries: seq<Entry>)
    ensures forall x :: x in InsertSorted(e, entries) <==> x == e || x in entries
    ensures |InsertSorted(e, entries)| == |entries| + 1
    ensures FileBytes(InsertSorted(e, entries)) == FileSize(e) + FileBytes(entries)
  {
    if entries == [] || Less(Key(e), Key(entries[0])) {
      FileBytesFirst(e, entries);
    } else {
      InsertSortedMembers(e, entries[1..]);
      FileBytesFirst(entries[0], entries[1..]);
      FileBytesFirst(entries[0], InsertSorted(e, entries[1..]));
      assert [entries[0]] + entries[1..] == entries;
    }
  }

  lemma {:induction false} FileBytesFirst(e: Entry, entries: seq<Entry>)
    ensures FileBytes([e] + entries) == FileSize(e) + FileBytes(entries)
    decreases |entries|
  {
    if entries == [] {
      assert [e] + entries == [] + [e];
      FileBytesLast([], e);
    } else {
      var front, last := entries[..|entries| - 1], entries[|entries| - 1];
      FileBytesFirst(e, front);
      assert [e] + entries == ([e] + front) + [last];
      FileBytesLast([e] + front, last);
    }
  }

  lemma {:induction false} SortMembers(entries: seq<Entry>)
    ensures forall x :: x in SortEntries(entries) <==> x in entries
    ensures |SortEntries(entries)| == |entries|
    ensures FileBytes(SortEntries(entries)) == FileBytes(entries)
  {
    if entries != [] {
      var front, last := entries[..|entries| - 1], entries[|entries| - 1];
      SortMembers(front);
      InsertSortedMembers(last, SortEntries(front));
      assert entries == front + [last];
    }
  }

  lemma {:induction false} InsertSortedOrdered(e: Entry, entries: seq<Entry>)
    requires Ordered(entries) && forall x :: x in entries ==> x.path != e.path
    ensures Ordered(InsertSorted(e, entries))
  {
    if entries != [] {
      if Less(Key(e), Key(entries[0])) {
        forall i | 0 <= i < |entries| ensures Less(Key(e), Key(entries[i])) {
          if i > 0 {
            LessTransitive(Key(e), Key(entries[0]), Key(entries[i]));
          }
        }
      } else {
        InsertSortedOrdered(e, entries[1..]);
        InsertSortedMembers(e, entries[1..]);
        NameTotal(e.path, entries[0].path);
        assert entries[0] in entries;
        var rest := InsertSorted(e, entries[1..]);
        forall i | 0 <= i < |rest| ensures Less(Key(entries[0]), Key(rest[i])) {
          assert rest[i] == e || rest[i] in entries[1..];
        }
      }
    }
  }

  lemma {:induction false} SortOrdered(entries: seq<Entry>)
    requires DistinctPaths(entries)
    ensures Ordered(SortEntries(entries))
  {
    if entries != [] {
      var front, last := entries[..|entries| - 1], entries[|entries| - 1];
      SortOrdered(front);
      SortMembers(front);
      InsertSortedOrdered(last, SortEntries(front));
    }
  }

  lemma SameHead(a: seq<Entry>, b: seq<Entry>)
    requires Ordered(a) && Ordered(b) && a != [] && b != [] && a[0] in b && b[0] in a
    ensures a[0] == b[0]
  {
    hide Less;
    var k :| 0 <= k < |b| && b[k] == a[0];
    var m :| 0 <= m < |a| && a[m] == b[0];
    if k > 0 {
      LessAsymmetric(Key(b[0]), Key(a[0]));
    }
  }

  /** Two ordered lists with the same members are the same list. */
  lemma {:induction false} OrderedUnique(a: seq<Entry>, b: seq<Entry>)
    requires Ordered(a) && Ordered(b) && forall e :: e in a <==> e in b
    ensures a == b
  {
    assert b == [] || b[0] in b;
    if a != [] {
      assert a[0] in b;
      assert b[0] in a;
      SameHead(a, b);
      forall e ensures e in a[1..] <==> e in b[1..] {
        if e in a[1..] {
          LessIrreflexive(Key(e));
          assert e in b;
        }
        if e in b[1..] {
          LessIrreflexive(Key(e));
          assert e in a;
        }
      }
      OrderedUnique(a[1..], b[1..]);
      assert a == [a[0]] + a[1..] && b == [b[0]] + b[1..];
    }
  }

  // ---------- what the scanner returns ----------

  ghost predicate Scannable(u: Unicode, e: Entry)
  {
    ValidPath(u, e.path) && |e.content| <= MAX_FILE_BYTES
  }

  lemma {:induction false} CapacityPrefix(a: seq<Entry>, b: seq<Entry>)
    requires WithinCapacity(a + b)
    ensures WithinCapacity(a)
  {
    FileBytesPrefix(a, b);
  }

  /** The scan is the unchecked listing, provided every listed entry passes its own checks
      and the whole list fits; checking the capacity after each append adds nothing. */
  lemma {:induction false} ScanIsListing(u: Unicode, above: seq<string>, cs: seq<Child>, entries: seq<Entry>)
    ensures Scan(u, above, cs, entries).Some? ==> Scan(u, above, cs, entries).value == entries + Listing(above, cs)
    ensures WithinCapacity(entries) ==> (Scan(u, above, cs, entries).Some? <==>
      WithinCapacity(entries + Listing(above, cs)) && forall e :: e in Listing(above, cs) ==> Scannable(u, e))
    decreases cs
  {
    hide ValidPath, Join, WithinCapacity;
    if cs == [] {
      assert entries + [] == entries;
    } else {
      var here := above + [cs[0].name];
      var e := NodeEntry(Join(here), cs[0].node);
      var sub := if cs[0].node.Dir? then Listing(here, cs[0].node.children) else [];
      var rest := Listing(above, cs[1..]);
      var inner := if cs[0].node.Dir? then Scan(u, here, cs[0].node.children, entries + [e]) else Some(entries + [e]);
      if cs[0].node.Dir? {
        ScanIsListing(u, here, cs[0].node.children, entries + [e]);
      } else {
        assert entries + [e] + sub == entries + [e];
      }
      ScanIsListing(u, above, cs[1..], entries + [e] + sub);
      ScanFirst(u, above, cs, entries, e, inner);
      ListingFirst(above, cs, e, sub, entries);
      hide Scan, Listing;
      if WithinCapacity(entries + Listing(above, cs)) {
        CapacityPrefix(entries + [e], sub + rest);
        CapacityPrefix(entries + [e] + sub, rest);
      }
    }
  }

  lemma ScanFirst(u: Unicode, above: seq<string>, cs: seq<Child>, entries: seq<Entry>, e: Entry, inner: Option<seq<Entry>>)
    requires cs != [] && e == NodeEntry(Join(above + [cs[0].name]), cs[0].node)
    requires inner == if cs[0].node.Dir? then Scan(u, above + [cs[0].name], cs[0].node.children, entries + [e]) else Some(entries + [e])
    ensures Scan(u, above, cs, entries) ==
            if Scannable(u, e) && WithinCapacity(entries + [e]) && inner.Some? then Scan(u, above, cs[1..], inner.value) else None
  {
    hide ValidPath, Join, WithinCapacity;
  }

  lemma ListingFirst(above: seq<string>, cs: seq<Child>, e: Entry, sub: seq<Entry>, entries: seq<Entry>)
    requires cs != [] && e == NodeEntry(Join(above + [cs[0].name]), cs[0].node)
    requires sub == if cs[0].node.Dir? then Listing(above + [cs[0].name], cs[0].node.children) else []
    ensures var all, rest := Listing(above, cs), Listing(above, cs[1..]);
            && (forall x :: x in all <==> x == e || x in sub || x in rest)
            && entries + all == entries + [e] + sub + rest == entries + [e] + (sub + rest)
  {
    var all, rest := Listing(above, cs), Listing(above, cs[1..]);
    assert all == [e] + sub + rest by {
      hide Join;
    }
    hide Listing;
    PartsTogether(entries, e, sub, rest);
  }

  lemma PartsTogether(entries: seq<Entry>, e: Entry, sub: seq<Entry>, rest: seq<Entry>)
    ensures forall x :: x in [e] + sub + rest <==> x == e || x in sub || x in rest
    ensures entries + ([e] + sub + rest) == entries + [e] + sub + rest == entries + [e] + (sub + rest)
  {
  }

  /** `_scan_directory`, which appends to one shared list. */
  method ScanDirectory(u: Unicode, above: seq<string>, cs: seq<Child>, before: seq<Entry>)
    returns (r: Option<seq<Entry>>)
    ensures r == Scan(u, above, cs, before)
    decreases cs
  {
    hide Scan, ValidPath, Join, WithinCapacity;
    var entries := before;
    var i := 0;
    assert cs[0..] == cs;
    while i < |cs|
      invariant 0 <= i <= |cs|
      invariant Scan(u, above, cs, before) == Scan(u, above, cs[i..], entries)
    {
      var here := above + [cs[i].name];
      var e := NodeEntry(Join(here), cs[i].node);
      ScanStep(u, above, cs, i, entries);
      if !ValidPath(u, e.path) || |e.content| > MAX_FILE_BYTES {
        return None;
      }
      entries := entries + [e];
      if !WithinCapacity(entries) {
        return None;
      }
      if cs[i].node.Dir? {
        var inner := ScanDirectory(u, here, cs[i].node.children, entries);
        if inner.None? {
          return None;
        }
        entries := inner.value;
      }
      i := i + 1;
    }
    ScanNothing(u, above, entries);
    assert cs[i..] == [];
    return Some(entries);
  }

  lemma ScanNothing(u: Unicode, above: seq<string>, entries: seq<Entry>)
    ensures Scan(u, above, [], entries) == Some(entries)
  {
  }

  /** What the scan of the children from `i` on is, by the outcome of the child at `i`. */
  lemma ScanStep(u: Unicode, above: seq<string>, cs: seq<Child>, i: nat, entries: seq<Entry>)
    requires i < |cs|
    ensures var here := above + [cs[i].name];
      var e := NodeEntry(Join(here), cs[i].node);
      Scan(u, above, cs[i..], entries) ==
      if !ValidPath(u, e.path) || |e.content| > MAX_FILE_BYTES || !WithinCapacity(entries + [e]) then None
      else if cs[i].node.Dir? then
        match Scan(u, here, cs[i].node.children, entries + [e])
        case None => None
        case Some(inner) => Scan(u, above, cs[i + 1..], inner)
      else Scan(u, above, cs[i + 1..], entries + [e])
  {
    hide ValidPath, Join, WithinCapacity;
    assert cs[i..][0] == cs[i] && cs[i..][1..] == cs[i + 1..];
  }

  // ---------- what the extractor leaves ----------

  /** The last entry recorded for a path. */
  function Recorded(entries: seq<Entry>, q: seq<string>): Option<Shape>
  {
    if entries == [] then None
    else
      var last := entries[|entries| - 1];
      if Parts(last.path) == q then Some(ShapeOf(NodeOf(last))) else Recorded(entries[..|entries| - 1], q)
  }

  ghost predicate Represents(tree: seq<Child>, entries: seq<Entry>)
  {
    forall q :: q != [] ==> Find(tree, q) == Recorded(entries, q)
  }

  lemma {:induction false} RecordedFound(entries: seq<Entry>, q: seq<string>) returns (i: nat)
    requires Recorded(entries, q).Some?
    ensures i < |entries| && Parts(entries[i].path) == q && Recorded(entries, q) == Some(ShapeOf(NodeOf(entries[i])))
  {
    if Parts(entries[|entries| - 1].path) == q {
      i := |entries| - 1;
    } else {
      i := RecordedFound(entries[..|entries| - 1], q);
    }
  }

  lemma {:induction false} RecordedAt(u: Unicode, entries: seq<Entry>, i: nat)
    requires i < |entries| && DistinctPaths(entries) && forall e :: e in entries ==> ValidPath(u, e.path)
    ensures Recorded(entries, Parts(entries[i].path)) == Some(ShapeOf(NodeOf(entries[i])))
  {
    hide ValidPath, Parts, NodeOf;
    var last := |entries| - 1;
    if i < last {
      assert entries[last] in entries && entries[i] in entries;
      ValidPathNames(u, entries[i].path);
      ValidPathNames(u, entries[last].path);
      RecordedAt(u, entries[..last], i);
    }
  }

  lemma OrderedIsDistinct(entries: seq<Entry>)
    requires Ordered(entries)
    ensures DistinctPaths(entries)
  {
    forall i, j | 0 <= i < j < |entries| ensures entries[i].path != entries[j].path {
      LessIrreflexive(Key(entries[i]));
    }
  }

  lemma {:induction false} NotRecorded(entries: seq<Entry>, q: seq<string>)
    requires forall i :: 0 <= i < |entries| ==> Parts(entries[i].path) != q
    ensures Recorded(entries, q) == None
  {
    if entries != [] {
      NotRecorded(entries[..|entries| - 1], q);
    }
  }

  lemma DistinctFromLast(before: seq<Entry>, e: Entry, i: nat)
    requires DistinctPaths(before + [e]) && i < |before|
    ensures before[i].path != e.path
  {
    assert (before + [e])[i] == before[i] && (before + [e])[|before|] == e;
  }

  lemma ParentRecorded(u: Unicode, before: seq<Entry>, e: Entry)
    requires ValidEntries(u, before + [e])
    ensures var p := Parts(e.path);
      p != [] && FileNames(p) && Recorded(before, p) == None
      && (|p| > 1 ==> Recorded(before, p[..|p| - 1]) == Some(IsDir))
  {
    hide ValidPath, Recorded, Join, Parts, Encode, Less, FileBytes, FileName;
    var p := Parts(e.path);
    PrefixValid(u, before, [e]);
    ExtendValid(u, before, e);
    OrderedIsDistinct(before + [e]);
    OrderedIsDistinct(before);
    ValidPathNames(u, e.path);
    assert forall x :: x in before ==> ValidEntry(u, x);
    forall i | 0 <= i < |before| ensures Parts(before[i].path) != p {
      assert before[i] in before;
      ValidPathNames(u, before[i].path);
      DistinctFromLast(before, e, i);
    }
    NotRecorded(before, p);
    if |p| > 1 {
      var above := p[..|p| - 1];
      JoinIsNotDot(above);
      var i :| 0 <= i < |before| && before[i].path == Parent(e.path) && before[i].kind == "d";
      PartsJoin(above);
      RecordedAt(u, before, i);
    }
  }

  lemma RecordedExtend(before: seq<Entry>, e: Entry, q: seq<string>)
    ensures Recorded(before + [e], q) == if Parts(e.path) == q then Some(ShapeOf(NodeOf(e))) else Recorded(before, q)
  {
    assert (before + [e])[..|before|] == before;
  }

  /** Extracting a valid list never meets a missing parent or a taken name, and leaves
      exactly the recorded entries. */
  lemma {:induction false} MaterializeValid(u: Unicode, tree: seq<Child>, before: seq<Entry>, entries: seq<Entry>)
    requires ValidTree(tree) && Represents(tree, before) && ValidEntries(u, before + entries)
    ensures Materialize(tree, entries).Some?
    ensures ValidTree(Materialize(tree, entries).value) && Represents(Materialize(tree, entries).value, before + entries)
    decreases |entries|
  {
    hide ValidEntries, ValidTree, Find, Put, Parts, Recorded, FileName;
    if entries == [] {
      assert before + entries == before;
    } else {
      var e, es := entries[0], entries[1..];
      assert before + entries == before + [e] + es;
      PrefixValid(u, before + [e], es);
      ParentRecorded(u, before, e);
      var p, n := Parts(e.path), NodeOf(e);
      PutSucceeds(tree, p, n);
      PutValid(tree, p, n);
      var next := Put(tree, p, n).value;
      forall q | q != [] ensures Find(next, q) == Recorded(before + [e], q) {
        PutFind(tree, p, n, q);
        RecordedExtend(before, e, q);
      }
      MaterializeValid(u, next, before + [e], es);
    }
  }

  lemma MaterializeFromEmpty(u: Unicode, entries: seq<Entry>)
    requires ValidEntries(u, entries)
    ensures Materialize([], entries).Some?
    ensures ValidTree(Materialize([], entries).value) && Represents(Materialize([], entries).value, entries)
  {
    assert [] + entries == entries;
    MaterializeValid(u, [], [], entries);
  }

  /** `_extract_profile_archive_fd` into an empty workspace. */
  method ExtractArchive(u: Unicode, archive: Bytes, floats: FloatReader) returns (r: Option<seq<Child>>)
    ensures forall entries :: Archive(u, entries) == Some(archive) ==> r.Some? && r == Materialize([], entries)
    ensures r.Some? ==> exists entries :: Archive(u, entries) == Some(archive)
  {
    hide ValidTree, Put, Parts, Find, Recorded, Represents, ValidEntries;
    var decoded := DecodeArchive(u, archive, floats);
    if decoded.None? {
      return None;
    }
    var entries := decoded.value;
    assert ValidEntries(u, entries) by {
      assert Buildable(u, entries);
    }
    MaterializeFromEmpty(u, entries);
    var tree: seq<Child> := [];
    var i := 0;
    assert entries[0..] == entries;
    while i < |entries|
      invariant 0 <= i <= |entries|
      invariant Materialize([], entries) == Materialize(tree, entries[i..])
    {
      var next := Put(tree, Parts(entries[i].path), NodeOf(entries[i]));
      assert entries[i..][1..] == entries[i + 1..];
      tree := next.value;
      i := i + 1;
    }
    return Some(tree);
  }

  // ---------- round trips ----------

  lemma ScanFromRoot(u: Unicode, tree: seq<Child>)
    ensures Scan(u, [], tree, []).Some? ==> Scan(u, [], tree, []).value == Listing([], tree)
    ensures Scan(u, [], tree, []).Some? <==>
      WithinCapacity(Listing([], tree)) && forall e :: e in Listing([], tree) ==> Scannable(u, e)
  {
    ScanIsListing(u, [], tree, []);
    assert [] + Listing([], tree) == Listing([], tree);
  }

  lemma ListedValid(u: Unicode, tree: seq<Child>, e: Entry)
    requires ValidTree(tree) && e in Listing([], tree) && Scannable(u, e)
    ensures ValidEntry(u, e) && Parts(e.path) != [] && FileNames(Parts(e.path))
    ensures Find(tree, Parts(e.path)) == Some(ShapeOf(NodeOf(e)))
  {
    hide ValidTree, ValidPath, FileName, Find, Listing;
    var q := ListingOnly([], tree, e);
    assert [] + q == q;
    PartsJoin(q);
  }

  lemma {:induction false} FoundBelowDirectory(cs: seq<Child>, q: seq<string>)
    requires |q| > 1 && Find(cs, q).Some?
    ensures Find(cs, q[..|q| - 1]) == Some(IsDir)
    decreases cs
  {
    if cs[0].name != q[0] {
      FoundBelowDirectory(cs[1..], q);
    } else if |q| > 2 {
      FoundBelowDirectory(cs[0].node.children, q[1..]);
      assert q[..|q| - 1][1..] == q[1..][..|q| - 2];
    }
  }

  /** Sorting a scanned tree by path puts every parent before its children and every path
      once, so on a scanned tree only a case-folding collision or the two size limits can
      make the archive fail. */
  lemma ScannedTreeSorts(u: Unicode, tree: seq<Child>)
    requires ValidTree(tree) && Scan(u, [], tree, []).Some?
    ensures var entries := SortEntries(Scan(u, [], tree, []).value);
      && (forall i :: 0 <= i < |entries| ==> ValidEntry(u, entries[i]))
      && Ordered(entries) && ParentsFirst(entries) && WithinCapacity(entries)
  {
    hide ValidTree, ValidPath, Find, Listing, Scan, SortEntries, FileName, Scannable, Parts, Less, Join, Encode;
    var listing := Listing([], tree);
    var entries := SortEntries(listing);
    ScanFromRoot(u, tree);
    ListingDistinct([], tree);
    SortMembers(listing);
    SortOrdered(listing);
    forall i | 0 <= i < |entries| ensures ValidEntry(u, entries[i])
      && (Parent(entries[i].path) == "." || HasDirectory(entries[..i], Parent(entries[i].path))) {
      var e := entries[i];
      assert e in listing;
      ListedValid(u, tree, e);
      var p := Parts(e.path);
      ValidPathNames(u, e.path);
      if |p| > 1 {
        var above := p[..|p| - 1];
        FoundBelowDirectory(tree, p);
        ListingHas([], tree, above);
        assert [] + above == above;
        var d := EntryAt(above, IsDir);
        assert d in entries;
        assert above + [p[|p| - 1]] == p;
        AncestorLess(above, [p[|p| - 1]]);
        SmallerIsEarlier(entries, d, i);
      }
    }
  }

  lemma SmallerIsEarlier(entries: seq<Entry>, d: Entry, i: nat)
    requires Ordered(entries) && d in entries && i < |entries| && Less(Key(d), Key(entries[i]))
    ensures d in entries[..i]
  {
    hide Less;
    var j :| 0 <= j < |entries| && entries[j] == d;
    LessAsymmetric(Key(d), Key(entries[i]));
    assert j < i;
    assert entries[..i][j] == d;
  }

  /** The entries of a scanned tree answer every lookup as the tree does. */
  lemma ScannedTreeRecorded(u: Unicode, tree: seq<Child>, q: seq<string>)
    requires ValidTree(tree) && Scan(u, [], tree, []).Some? && q != []
    ensures Recorded(SortEntries(Scan(u, [], tree, []).value), q) == Find(tree, q)
  {
    hide ValidTree, ValidPath, Find, Listing, Scan, SortEntries, FileName, Scannable, Recorded, Less, Encode, Parts, Join, WithinCapacity, ParentsFirst, Ordered;
    var listing := Listing([], tree);
    var entries := SortEntries(listing);
    ScanFromRoot(u, tree);
    ScannedTreeSorts(u, tree);
    SortMembers(listing);
    OrderedIsDistinct(entries);
    assert forall e :: e in entries ==> ValidEntry(u, e);
    if Find(tree, q).Some? {
      ListingHas([], tree, q);
      assert [] + q == q;
      PartsJoin(q);
      var e := EntryAt(q, Find(tree, q).value);
      var i :| 0 <= i < |entries| && entries[i] == e;
      RecordedAt(u, entries, i);
    } else if Recorded(entries, q).Some? {
      var i := RecordedFound(entries, q);
      assert entries[i] in listing;
      ListedValid(u, tree, entries[i]);
    }
  }

  /** Extracting the archive of a tree restores the tree. */
  lemma ExtractEncoded(u: Unicode, tree: seq<Child>)
    requires ValidTree(tree) && EncodeTree(u, tree).Some?
    ensures Materialize([], SortEntries(Scan(u, [], tree, []).value)) == Some(tree)
  {
    hide ValidTree, Find, Scan, SortEntries, Recorded, Materialize, ValidEntries;
    var entries := SortEntries(Scan(u, [], tree, []).value);
    MaterializeFromEmpty(u, entries);
    var t := Materialize([], entries).value;
    forall q | q != [] ensures Find(t, q) == Find(tree, q) {
      ScannedTreeRecorded(u, tree, q);
    }
    SameFindsSameTree(t, tree);
  }

  /** Scanning an extracted archive again gives back the same bytes. */
  lemma EncodeExtracted(u: Unicode, entries: seq<Entry>)
    requires Archive(u, entries).Some?
    ensures Materialize([], entries).Some? && ValidTree(Materialize([], entries).value)
    ensures EncodeTree(u, Materialize([], entries).value) == Archive(u, entries)
  {
    hide ValidTree, ValidPath, Find, Listing, SortEntries, FileName, Materialize, Recorded, Less, Encode, Parts, Join, Manifest, Payload;
    MaterializeFromEmpty(u, entries);
    var t := Materialize([], entries).value;
    var listing := Listing([], t);
    OrderedIsDistinct(entries);
    assert forall e :: e in entries ==> ValidEntry(u, e);
    forall e ensures e in listing <==> e in entries {
      if e in listing {
        var q := ListingOnly([], t, e);
        assert [] + q == q;
        var i := RecordedFound(entries, q);
        ValidPathNames(u, entries[i].path);
      }
      if e in entries {
        var i :| 0 <= i < |entries| && entries[i] == e;
        RecordedAt(u, entries, i);
        ValidPathNames(u, e.path);
        ListingHas([], t, Parts(e.path));
        assert [] + Parts(e.path) == Parts(e.path);
      }
    }
    ListingDistinct([], t);
    SortMembers(listing);
    SortOrdered(listing);
    OrderedUnique(SortEntries(listing), entries);
    ScanFromRoot(u, t);
  }
}
