/** The size check on a decoded JSON value: an explicit stack in place of recursion. */
module JsonWalk {
  import opened Order
  import Utf8
  import opened JsonText

  const MAX_FRAME_BYTES := 256 * 1024
  const MAX_JSON_DEPTH := 64
  const MAX_JSON_NODES := 10000
  const MAX_JSON_STRING_CHARS := 40000
  const MAX_JSON_ARRAY_ITEMS := 1000
  const MAX_JSON_KEY_CHARS := 256

  // ---------- the recursive meaning ----------

  /** Nodes of a value, object keys included. */
  function Nodes(v: Json): nat
  {
    1 + match v
        case Arr(items) => ItemNodes(items)
        case Obj(members) => MemberNodes(members)
        case _ => 0
  }

  function ItemNodes(items: seq<Json>): nat
  {
    if items == [] then 0 else Nodes(items[0]) + ItemNodes(items[1..])
  }

  function MemberNodes(members: seq<Member>): nat
  {
    if members == [] then 0 else 1 + Nodes(members[0].value) + MemberNodes(members[1..])
  }

  predicate TextFits(s: string)
  {
    |s| <= MAX_JSON_STRING_CHARS && |Utf8.Encode(s)| <= MAX_FRAME_BYTES
  }

  /** Every node below depth `depth` is within its own bounds. */
  predicate Within(v: Json, depth: nat)
  {
    depth <= MAX_JSON_DEPTH &&
    match v
    case Str(s) => TextFits(s)
    case Arr(items) => |items| <= MAX_JSON_ARRAY_ITEMS && forall i :: 0 <= i < |items| ==> Within(items[i], depth + 1)
    case Obj(members) =>
      && |members| <= MAX_JSON_ARRAY_ITEMS
      && forall i :: 0 <= i < |members| ==>
           && |members[i].key| <= MAX_JSON_KEY_CHARS
           && depth + 1 <= MAX_JSON_DEPTH && TextFits(members[i].key)
           && Within(members[i].value, depth + 1)
    case _ => true
  }

  predicate Acceptable(v: Json)
  {
    Nodes(v) <= MAX_JSON_NODES && Within(v, 1)
  }

  /** The bounds in numbers: at most 10000 nodes, keys among them, at most 64 deep, lists and
      objects of at most 1000 entries, texts of at most 40000 characters and 256 kilobytes, and
      keys of at most 256 characters. */
  lemma BoundsMean(v: Json, depth: nat)
    ensures Acceptable(v) <==> Nodes(v) <= 10000 && Within(v, 1)
    ensures Within(v, depth) <==>
            && depth <= 64
            && match v
               case Str(s) => |s| <= 40000 && |Utf8.Encode(s)| <= 262144
               case Arr(items) => |items| <= 1000 && forall i :: 0 <= i < |items| ==> Within(items[i], depth + 1)
               case Obj(members) =>
                 && |members| <= 1000
                 && forall i :: 0 <= i < |members| ==>
                      |members[i].key| <= 256 && Within(Str(members[i].key), depth + 1) && Within(members[i].value, depth + 1)
               case _ => true
  {
  }

  /** Every value counts one, and so does every key. */
  lemma NodesMean(items: seq<Json>, v: Json, members: seq<Member>, m: Member)
    ensures !v.Arr? && !v.Obj? ==> Nodes(v) == 1
    ensures Nodes(Arr([])) == 1 && Nodes(Arr([v] + items)) == Nodes(v) + Nodes(Arr(items))
    ensures Nodes(Obj([])) == 1 && Nodes(Obj([m] + members)) == 1 + Nodes(m.value) + Nodes(Obj(members))
  {
    assert ([v] + items)[1..] == items && ([m] + members)[1..] == members;
  }

  // ---------- the stack ----------

  datatype Frame = Frame(v: Json, depth: nat)

  function StackNodes(stack: seq<Frame>): nat
  {
    if stack == [] then 0 else StackNodes(stack[..|stack| - 1]) + Nodes(stack[|stack| - 1].v)
  }

  ghost predicate StackWithin(stack: seq<Frame>)
  {
    forall i :: 0 <= i < |stack| ==> Within(stack[i].v, stack[i].depth)
  }

  function ItemFrames(items: seq<Json>, depth: nat): seq<Frame>
  {
    if items == [] then [] else ItemFrames(items[..|items| - 1], depth) + [Frame(items[|items| - 1], depth)]
  }

  /** The frames of an object's keys and values, in the order the loop pushes them. */
  function MemberFrames(members: seq<Member>, depth: nat): seq<Frame>
  {
    if members == [] then []
    else
      var last := members[|members| - 1];
      MemberFrames(members[..|members| - 1], depth) + [Frame(Str(last.key), depth), Frame(last.value, depth)]
  }

  lemma StackPush(stack: seq<Frame>, f: Frame)
    ensures StackNodes(stack + [f]) == StackNodes(stack) + Nodes(f.v)
    ensures StackWithin(stack + [f]) <==> StackWithin(stack) && Within(f.v, f.depth)
  {
    var more := stack + [f];
    assert more[..|more| - 1] == stack && more[|stack|] == f;
    assert forall i :: 0 <= i < |stack| ==> more[i] == stack[i];
  }

  lemma {:induction false} StackConcat(a: seq<Frame>, b: seq<Frame>)
    ensures StackNodes(a + b) == StackNodes(a) + StackNodes(b)
    ensures StackWithin(a + b) <==> StackWithin(a) && StackWithin(b)
  {
    hide Within, Nodes;
    if b == [] {
      assert a + b == a;
    } else {
      var front, last := b[..|b| - 1], b[|b| - 1];
      StackConcat(a, front);
      assert a + b == a + front + [last] && b == front + [last];
      StackPush(a + front, last);
      StackPush(front, last);
    }
  }

  lemma {:induction false} ItemNodesLast(items: seq<Json>, last: Json)
    ensures ItemNodes(items + [last]) == ItemNodes(items) + Nodes(last)
  {
    hide Nodes;
    if items == [] {
      assert ([] + [last])[1..] == [];
      assert ItemNodes([last]) == Nodes(last) + ItemNodes([]);
    } else {
      assert (items + [last])[1..] == items[1..] + [last];
      ItemNodesLast(items[1..], last);
    }
  }

  lemma {:induction false} MemberNodesLast(members: seq<Member>, last: Member)
    ensures MemberNodes(members + [last]) == MemberNodes(members) + 1 + Nodes(last.value)
  {
    hide Nodes;
    if members == [] {
      assert ([] + [last])[1..] == [];
      assert MemberNodes([last]) == 1 + Nodes(last.value) + MemberNodes([]);
    } else {
      assert (members + [last])[1..] == members[1..] + [last];
      MemberNodesLast(members[1..], last);
    }
  }

  lemma {:induction false} ItemFramesMean(items: seq<Json>, depth: nat)
    ensures StackNodes(ItemFrames(items, depth)) == ItemNodes(items)
    ensures StackWithin(ItemFrames(items, depth)) <==> forall i :: 0 <= i < |items| ==> Within(items[i], depth)
  {
    hide Within, Nodes, ItemNodes;
    if items == [] {
      assert ItemNodes([]) == 0 by {
        NoNodes();
      }
    } else {
      var front, last := items[..|items| - 1], items[|items| - 1];
      ItemFramesMean(front, depth);
      StackPush(ItemFrames(front, depth), Frame(last, depth));
      assert items == front + [last];
      ItemNodesLast(front, last);
    }
  }

  lemma NoNodes()
    ensures ItemNodes([]) == 0 && MemberNodes([]) == 0
  {
  }

  ghost predicate MembersWithin(members: seq<Member>, depth: nat)
  {
    forall i :: 0 <= i < |members| ==> Within(Str(members[i].key), depth) && Within(members[i].value, depth)
  }

  lemma {:induction false} MemberFramesMean(members: seq<Member>, depth: nat)
    ensures StackNodes(MemberFrames(members, depth)) == MemberNodes(members)
    ensures StackWithin(MemberFrames(members, depth)) <==> MembersWithin(members, depth)
  {
    hide Within, Nodes, MemberNodes;
    if members == [] {
      NoNodes();
    } else {
      hide StackNodes, StackWithin, MembersWithin, MemberFrames;
      var front, last := members[..|members| - 1], members[|members| - 1];
      var frames := MemberFrames(front, depth);
      MemberFramesMean(front, depth);
      var key, value := Frame(Str(last.key), depth), Frame(last.value, depth);
      StackPush(frames, key);
      StackPush(frames + [key], value);
      MemberFramesLast(front, last, depth);
      assert members == front + [last];
      MemberNodesLast(front, last);
      KeyIsOneNode(last.key);
      MembersWithinLast(front, last, depth);
    }
  }

  lemma MemberFramesLast(front: seq<Member>, last: Member, depth: nat)
    ensures MemberFrames(front + [last], depth) ==
            MemberFrames(front, depth) + [Frame(Str(last.key), depth)] + [Frame(last.value, depth)]
  {
    assert (front + [last])[..|front|] == front;
  }

  lemma MembersWithinLast(front: seq<Member>, last: Member, depth: nat)
    ensures MembersWithin(front + [last], depth) <==>
            MembersWithin(front, depth) && Within(Str(last.key), depth) && Within(last.value, depth)
  {
    hide Within;
    var members := front + [last];
    assert forall i :: 0 <= i < |front| ==> members[i] == front[i];
    assert members[|front|] == last;
  }

  lemma KeyIsOneNode(key: string)
    ensures Nodes(Str(key)) == 1
  {
  }

  /** `_walk_json`: the loop accepts exactly the acceptable values. */
  method Walk(v: Json) returns (ok: bool)
    ensures ok <==> Acceptable(v)
  {
    hide Within, Nodes, StackNodes, StackWithin, TextFits;
    var nodes := 0;
    var stack := [Frame(v, 1)];
    StackStart(v);
    while stack != []
      invariant nodes + StackNodes(stack) == Nodes(v)
      invariant nodes <= MAX_JSON_NODES
      invariant StackWithin(stack) <==> Within(v, 1)
      decreases StackNodes(stack)
    {
      var f := stack[|stack| - 1];
      var rest := stack[..|stack| - 1];
      assert stack == rest + [f];
      StackPush(rest, f);
      StackConcat(rest, ItemFrames(if f.v.Arr? then f.v.items else [], f.depth + 1));
      StackConcat(rest, MemberFrames(if f.v.Obj? then f.v.members else [], f.depth + 1));
      NodeStep(f);
      stack := rest;
      nodes := nodes + 1;
      if nodes > MAX_JSON_NODES || f.depth > MAX_JSON_DEPTH {
        return false;
      }
      if f.v.Str? {
        if !TextFits(f.v.s) {
          return false;
        }
      } else if f.v.Arr? {
        if |f.v.items| > MAX_JSON_ARRAY_ITEMS {
          return false;
        }
        stack := stack + ItemFrames(f.v.items, f.depth + 1);
      } else if f.v.Obj? {
        if |f.v.members| > MAX_JSON_ARRAY_ITEMS || !KeysFit(f.v.members) {
          return false;
        }
        stack := stack + MemberFrames(f.v.members, f.depth + 1);
      }
    }
    assert StackWithin([]) && StackNodes([]) == 0 by {
      EmptyStack();
    }
    return true;
  }

  predicate KeysFit(members: seq<Member>)
  {
    forall i :: 0 <= i < |members| ==> |members[i].key| <= MAX_JSON_KEY_CHARS
  }

  lemma EmptyStack()
    ensures StackWithin([]) && StackNodes([]) == 0
  {
  }

  lemma StackStart(v: Json)
    ensures StackNodes([Frame(v, 1)]) == Nodes(v)
    ensures StackWithin([Frame(v, 1)]) <==> Within(v, 1)
  {
    hide Within, Nodes;
    assert [Frame(v, 1)] == [] + [Frame(v, 1)];
    StackPush([], Frame(v, 1));
  }

  /** What popping one frame leaves to check. */
  lemma NodeStep(f: Frame)
    ensures Nodes(f.v) == 1
      + (if f.v.Arr? then StackNodes(ItemFrames(f.v.items, f.depth + 1)) else 0)
      + (if f.v.Obj? then StackNodes(MemberFrames(f.v.members, f.depth + 1)) else 0)
    ensures Within(f.v, f.depth) <==>
      && f.depth <= MAX_JSON_DEPTH
      && (f.v.Str? ==> TextFits(f.v.s))
      && (f.v.Arr? ==> |f.v.items| <= MAX_JSON_ARRAY_ITEMS && StackWithin(ItemFrames(f.v.items, f.depth + 1)))
      && (f.v.Obj? ==> |f.v.members| <= MAX_JSON_ARRAY_ITEMS && KeysFit(f.v.members)
                       && StackWithin(MemberFrames(f.v.members, f.depth + 1)))
  {
    hide TextFits, ItemFrames, MemberFrames, StackNodes, StackWithin, ItemNodes, MemberNodes;
    if f.v.Arr? {
      ItemFramesMean(f.v.items, f.depth + 1);
    } else if f.v.Obj? {
      MemberFramesMean(f.v.members, f.depth + 1);
    }
  }
}
