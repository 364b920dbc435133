/** What the redactor returns.  A mark for a circular reference appears exactly when the walk can
    reach one plain object along two paths; otherwise the result is the value itself, as a tree,
    with its sensitive fields masked. */
module RedactionTrees {
  import opened Options
  import opened Redaction

  predicate Compound(j: Json) { j.List? || j.Dict? }

  // ------------------------------------------------- when a mark appears

  predicate HasMark(j: Json)
    decreases j
  {
    j.Circular? || (Compound(j) && MarkIn(j.items))
  }

  predicate MarkIn(items: seq<Member>)
    decreases items
  {
    items != [] && (MarkIn(items[..|items| - 1]) || HasMark(items[|items| - 1].json))
  }

  lemma {:induction false} MarkInAppend(a: seq<Member>, b: seq<Member>)
    ensures MarkIn(a + b) <==> MarkIn(a) || MarkIn(b)
    decreases b
  {
    if b == [] {
      assert a + b == a;
    } else {
      assert (a + b)[..|a + b| - 1] == a + b[..|b| - 1];
      MarkInAppend(a, b[..|b| - 1]);
    }
  }

  lemma BuildMark(kind: Kind, items: seq<Member>)
    ensures HasMark(Build(kind, items)) <==> MarkIn(items)
  {
    var head := Head(kind);
    MarkInAppend(head, items);
    if head != [] {
      assert head == [head[0]] + [head[1]] + [head[2]];
      MarkInAppend([head[0]], [head[1]]);
      MarkInAppend([head[0]] + [head[1]], [head[2]]);
    }
  }

  /** A reference that is walked into. */
  lemma Opened(h: Heap, v: Value, seen: set<nat>, depth: nat)
    requires v.Ref? && v.id in h && !(h[v.id].kind.Object? && v.id in seen) && Redact(h, v, seen, depth).Some?
    ensures depth > 0
    ensures var o := Redact(h, v, seen, depth).value;
      var r := RedactFields(h, h[v.id].kind, h[v.id].fields, Entered(h, v.id, seen), depth - 1);
      && r.Some? && r.value.seen == o.seen && o.json == Build(h[v.id].kind, r.value.items)
      && (HasMark(o.json) <==> MarkIn(r.value.items))
  {
    BuildMark(h[v.id].kind,
        RedactFields(h, h[v.id].kind, h[v.id].fields, Entered(h, v.id, seen), depth - 1).value.items);
  }

  /** Along p, a path of unmasked fields, the walk gets from v to the plain object id. */
  predicate Reaches(h: Heap, v: Value, p: seq<nat>, id: nat)
    decreases |p|, 1
  {
    if p == [] then v == Ref(id) && id in h && h[id].kind.Object?
    else v.Ref? && v.id in h && ReachesIn(h, h[v.id].kind, h[v.id].fields, p, id)
  }

  predicate ReachesIn(h: Heap, kind: Kind, fields: seq<Field>, p: seq<nat>, id: nat)
    decreases |p|, 0
  {
    p != [] && p[0] < |fields| && !Masks(kind, fields[p[0]].key) && Reaches(h, fields[p[0]].value, p[1..], id)
  }

  /** No two paths lead to the same plain object; in particular none leads round a cycle. */
  ghost predicate Unshared(h: Heap, v: Value) {
    forall p, q, id :: Reaches(h, v, p, id) && Reaches(h, v, q, id) ==> p == q
  }

  lemma ReachesPrefix(h: Heap, kind: Kind, fields: seq<Field>, k: nat, p: seq<nat>, id: nat)
    requires k <= |fields|
    ensures ReachesIn(h, kind, fields[..k], p, id) <==> ReachesIn(h, kind, fields, p, id) && p[0] < k
  {
  }

  /** What a call adds to `seen` it has reached. */
  lemma {:induction false} SeenIsReached(h: Heap, v: Value, seen: set<nat>, depth: nat, id: nat)
      returns (p: seq<nat>)
    requires Redact(h, v, seen, depth).Some? && id in Redact(h, v, seen, depth).value.seen && id !in seen
    ensures Reaches(h, v, p, id)
    decreases depth, 0
  {
    if h[v.id].kind.Object? && id == v.id {
      p := [];
    } else {
      p := SeenIsReachedIn(h, h[v.id].kind, h[v.id].fields, Entered(h, v.id, seen), depth - 1, id);
    }
  }

  lemma {:induction false} SeenIsReachedIn(h: Heap, kind: Kind, fields: seq<Field>, seen: set<nat>, depth: nat, id: nat)
      returns (p: seq<nat>)
    requires RedactFields(h, kind, fields, seen, depth).Some?
    requires id in RedactFields(h, kind, fields, seen, depth).value.seen && id !in seen
    ensures ReachesIn(h, kind, fields, p, id)
    decreases depth, |fields|
  {
    var k := |fields| - 1;
    var mid := RedactFields(h, kind, fields[..k], seen, depth).value.seen;
    if id in mid {
      p := SeenIsReachedIn(h, kind, fields[..k], seen, depth, id);
      ReachesPrefix(h, kind, fields, k, p, id);
    } else {
      var q := SeenIsReached(h, fields[k].value, mid, depth, id);
      p := [k] + q;
      assert p[1..] == q;
    }
  }

  lemma {:induction false} SeenGrows(h: Heap, v: Value, seen: set<nat>, depth: nat)
    requires Redact(h, v, seen, depth).Some?
    ensures seen <= Redact(h, v, seen, depth).value.seen
    decreases depth, 0
  {
    if v.Ref? && v.id in h && !(h[v.id].kind.Object? && v.id in seen) {
      SeenGrowsIn(h, h[v.id].kind, h[v.id].fields, Entered(h, v.id, seen), depth - 1);
    }
  }

  lemma {:induction false} SeenGrowsIn(h: Heap, kind: Kind, fields: seq<Field>, seen: set<nat>, depth: nat)
    requires RedactFields(h, kind, fields, seen, depth).Some?
    ensures seen <= RedactFields(h, kind, fields, seen, depth).value.seen
    decreases depth, |fields|
  {
    if fields != [] {
      var k := |fields| - 1;
      SeenGrowsIn(h, kind, fields[..k], seen, depth);
      if !Masks(kind, fields[k].key) {
        SeenGrows(h, fields[k].value, RedactFields(h, kind, fields[..k], seen, depth).value.seen, depth);
      }
    }
  }

  lemma CleanIsOpened(h: Heap, v: Value, seen: set<nat>, depth: nat)
    requires v.Ref? && v.id in h
    requires Redact(h, v, seen, depth).Some? && !HasMark(Redact(h, v, seen, depth).value.json)
    ensures depth > 0 && !(h[v.id].kind.Object? && v.id in seen)
    ensures var r := RedactFields(h, h[v.id].kind, h[v.id].fields, Entered(h, v.id, seen), depth - 1);
      && r.Some? && !MarkIn(r.value.items) && r.value.seen == Redact(h, v, seen, depth).value.seen
      && Redact(h, v, seen, depth).value.json == Build(h[v.id].kind, r.value.items)
  {
    Opened(h, v, seen, depth);
  }

  /** Without a mark, the objects reached are met for the first time. */
  lemma {:induction false} CleanIsNew(h: Heap, v: Value, seen: set<nat>, depth: nat, p: seq<nat>, id: nat)
    requires Redact(h, v, seen, depth).Some? && !HasMark(Redact(h, v, seen, depth).value.json)
    requires Reaches(h, v, p, id)
    ensures id !in seen && id in Redact(h, v, seen, depth).value.seen
    decreases depth, 0
  {
    var node, inner := h[v.id], Entered(h, v.id, seen);
    CleanIsOpened(h, v, seen, depth);
    if p == [] {
      SeenGrowsIn(h, node.kind, node.fields, inner, depth - 1);
    } else {
      CleanIsNewIn(h, node.kind, node.fields, inner, depth - 1, p, id);
    }
  }

  lemma {:induction false} CleanIsNewIn(h: Heap, kind: Kind, fields: seq<Field>, seen: set<nat>, depth: nat,
                                        p: seq<nat>, id: nat)
    requires RedactFields(h, kind, fields, seen, depth).Some?
    requires !MarkIn(RedactFields(h, kind, fields, seen, depth).value.items)
    requires ReachesIn(h, kind, fields, p, id)
    ensures id !in seen && id in RedactFields(h, kind, fields, seen, depth).value.seen
    decreases depth, |fields|
  {
    var k := |fields| - 1;
    var mid := RedactFields(h, kind, fields[..k], seen, depth).value;
    FrontIsClean(h, kind, fields, seen, depth);
    if p[0] < k {
      ReachesPrefix(h, kind, fields, k, p, id);
      CleanIsNewIn(h, kind, fields[..k], seen, depth, p, id);
    } else {
      CleanIsNew(h, fields[k].value, mid.seen, depth, p[1..], id);
    }
  }

  /** The last field and the ones before it. */
  lemma FrontIsClean(h: Heap, kind: Kind, fields: seq<Field>, seen: set<nat>, depth: nat)
    requires fields != [] && RedactFields(h, kind, fields, seen, depth).Some?
    requires !MarkIn(RedactFields(h, kind, fields, seen, depth).value.items)
    ensures var k := |fields| - 1;
      var front := RedactFields(h, kind, fields[..k], seen, depth);
      && front.Some? && !MarkIn(front.value.items)
      && seen <= front.value.seen <= RedactFields(h, kind, fields, seen, depth).value.seen
      && (!Masks(kind, fields[k].key) ==>
            var last := Redact(h, fields[k].value, front.value.seen, depth);
            last.Some? && !HasMark(last.value.json)
            && last.value.seen == RedactFields(h, kind, fields, seen, depth).value.seen)
  {
    var k := |fields| - 1;
    var front, r := RedactFields(h, kind, fields[..k], seen, depth), RedactFields(h, kind, fields, seen, depth).value;
    assert r.items[..k] == front.value.items;
    SeenGrowsIn(h, kind, fields[..k], seen, depth);
    if !Masks(kind, fields[k].key) { SeenGrows(h, fields[k].value, front.value.seen, depth); }
  }

  /** Nor does any other path reach them. */
  lemma {:induction false} CleanIsLinear(h: Heap, v: Value, seen: set<nat>, depth: nat,
                                         p: seq<nat>, q: seq<nat>, id: nat)
    requires Redact(h, v, seen, depth).Some? && !HasMark(Redact(h, v, seen, depth).value.json)
    requires Reaches(h, v, p, id) && Reaches(h, v, q, id)
    ensures p == q
    decreases depth, 0
  {
    var node, inner := h[v.id], Entered(h, v.id, seen);
    CleanIsOpened(h, v, seen, depth);
    if p != [] && q != [] {
      CleanIsLinearIn(h, node.kind, node.fields, inner, depth - 1, p, q, id);
    } else if p != [] || q != [] {
      CleanIsNewIn(h, node.kind, node.fields, inner, depth - 1, if p == [] then q else p, id);
    }
  }

  lemma SamePath(p: seq<nat>, q: seq<nat>)
    requires p != [] && q != [] && p[0] == q[0] && p[1..] == q[1..]
    ensures p == q
  {
    assert p == [p[0]] + p[1..] && q == [q[0]] + q[1..];
  }

  lemma {:induction false} CleanIsLinearIn(h: Heap, kind: Kind, fields: seq<Field>, seen: set<nat>, depth: nat,
                                           p: seq<nat>, q: seq<nat>, id: nat)
    requires RedactFields(h, kind, fields, seen, depth).Some?
    requires !MarkIn(RedactFields(h, kind, fields, seen, depth).value.items)
    requires ReachesIn(h, kind, fields, p, id) && ReachesIn(h, kind, fields, q, id)
    ensures p == q
    decreases depth, |fields|
  {
    var k := |fields| - 1;
    var mid := RedactFields(h, kind, fields[..k], seen, depth).value;
    FrontIsClean(h, kind, fields, seen, depth);
    ReachesPrefix(h, kind, fields, k, p, id);
    ReachesPrefix(h, kind, fields, k, q, id);
    if p[0] < k && q[0] < k {
      CleanIsLinearIn(h, kind, fields[..k], seen, depth, p, q, id);
    } else if p[0] == q[0] {
      assert p[1..] == q[1..] by { CleanIsLinear(h, fields[k].value, mid.seen, depth, p[1..], q[1..], id); }
      SamePath(p, q);
    } else {
      EarlierExcludesLast(h, kind, fields, seen, depth, if p[0] < k then p else q, if p[0] < k then q else p, id);
    }
  }

  /** Without a mark, what an earlier field reaches the last one does not. */
  lemma EarlierExcludesLast(h: Heap, kind: Kind, fields: seq<Field>, seen: set<nat>, depth: nat,
                            early: seq<nat>, late: seq<nat>, id: nat)
    requires RedactFields(h, kind, fields, seen, depth).Some?
    requires !MarkIn(RedactFields(h, kind, fields, seen, depth).value.items)
    requires ReachesIn(h, kind, fields, early, id) && ReachesIn(h, kind, fields, late, id)
    ensures !(early[0] < |fields| - 1 && late[0] == |fields| - 1)
  {
    var k := |fields| - 1;
    if early[0] < k && late[0] == k {
      var mid := RedactFields(h, kind, fields[..k], seen, depth).value;
      FrontIsClean(h, kind, fields, seen, depth);
      ReachesPrefix(h, kind, fields, k, early, id);
      CleanIsNewIn(h, kind, fields[..k], seen, depth, early, id);
      CleanIsNew(h, fields[k].value, mid.seen, depth, late[1..], id);
    }
  }

  /** A mark stands for an object that was in `seen` before, or that another path reaches too. */
  lemma {:induction false} MarkIsShared(h: Heap, v: Value, seen: set<nat>, depth: nat)
      returns (p: seq<nat>, q: seq<nat>, id: nat)
    requires Redact(h, v, seen, depth).Some? && HasMark(Redact(h, v, seen, depth).value.json)
    ensures Reaches(h, v, p, id) && (id in seen || (p != q && Reaches(h, v, q, id)))
    decreases depth, 0
  {
    if h[v.id].kind.Object? && v.id in seen {
      p, q, id := [], [], v.id;
    } else {
      var node, inner := h[v.id], Entered(h, v.id, seen);
      Opened(h, v, seen, depth);
      p, q, id := MarkIsSharedIn(h, node.kind, node.fields, inner, depth - 1);
      if id in inner && id !in seen { q := []; }
    }
  }

  lemma {:induction false} MarkIsSharedIn(h: Heap, kind: Kind, fields: seq<Field>, seen: set<nat>, depth: nat)
      returns (p: seq<nat>, q: seq<nat>, id: nat)
    requires RedactFields(h, kind, fields, seen, depth).Some?
    requires MarkIn(RedactFields(h, kind, fields, seen, depth).value.items)
    ensures ReachesIn(h, kind, fields, p, id) && (id in seen || (p != q && ReachesIn(h, kind, fields, q, id)))
    decreases depth, |fields|
  {
    var k := |fields| - 1;
    var mid := RedactFields(h, kind, fields[..k], seen, depth).value;
    var r := RedactFields(h, kind, fields, seen, depth).value;
    assert r.items[..k] == mid.items;
    if MarkIn(mid.items) {
      p, q, id := MarkIsSharedIn(h, kind, fields[..k], seen, depth);
      ReachesPrefix(h, kind, fields, k, p, id);
      ReachesPrefix(h, kind, fields, k, q, id);
    } else {
      p, q, id := MarkIsShared(h, fields[k].value, mid.seen, depth);
      var inLast := q;
      p, q := [k] + p, [k] + q;
      assert p[1..] == p[1..] && q[1..] == inLast;
      if id in mid.seen && id !in seen {
        q := SeenIsReachedIn(h, kind, fields[..k], seen, depth, id);
        ReachesPrefix(h, kind, fields, k, q, id);
      }
    }
  }

  /** The result holds a circular mark exactly when two different paths of unmasked fields lead
      to the same plain object, whether round a cycle or not. */
  lemma MarkIff(h: Heap, v: Value, depth: nat)
    requires Redact(h, v, {}, depth).Some?
    ensures HasMark(Redact(h, v, {}, depth).value.json) <==> !Unshared(h, v)
  {
    if HasMark(Redact(h, v, {}, depth).value.json) {
      var p, q, id := MarkIsShared(h, v, {}, depth);
      assert Reaches(h, v, p, id) && Reaches(h, v, q, id) && p != q;
    } else {
      forall p, q, id | Reaches(h, v, p, id) && Reaches(h, v, q, id) ensures p == q {
        CleanIsLinear(h, v, {}, depth, p, q, id);
      }
    }
  }

  /** Sharing is not a cycle, but the second place of a shared object is reported as one. */
  lemma SharedObjectLooksCircular(h: Heap, root: nat, shared: nat, a: string, b: string, depth: nat)
    requires root in h && shared in h && root != shared && depth > 2
    requires h[root] == Node(Object, [Field(a, Ref(shared)), Field(b, Ref(shared))])
    requires h[shared] == Node(Object, []) && !Sensitive(a) && !Sensitive(b)
    ensures Redact(h, Ref(root), {}, depth).Some?
    ensures Redact(h, Ref(root), {}, depth).value.json == Dict([Member(a, Dict([])), Member(b, Circular)])
  {
    var fields, inner := h[root].fields, Entered(h, root, {});
    var both := [Member(a, Dict([])), Member(b, Circular)];
    assert Head(Object) + [] == [] && Head(Object) + both == both;
    assert [] + [both[0]] == [both[0]] && [both[0]] + [both[1]] == both;
    assert fields[..1] == [Field(a, Ref(shared))] && fields[..1][..0] == [];
    assert RedactFields(h, Object, fields[..1][..0], inner, depth - 1) == Some(Outcomes([], inner));
    assert Redact(h, Ref(shared), inner, depth - 1) == Some(Outcome(Dict([]), inner + {shared}));
    assert RedactFields(h, Object, fields[..1], inner, depth - 1)
        == Some(Outcomes([Member(a, Dict([]))], inner + {shared}));
    assert Redact(h, Ref(shared), inner + {shared}, depth - 1) == Some(Outcome(Circular, inner + {shared}));
    assert RedactFields(h, Object, fields, inner, depth - 1) == Some(Outcomes(both, inner + {shared}));
  }

  // -------------------------------------------------- as a tree

  /** What redaction of a tree should be. */
  function Mask(j: Json): Json
    decreases j
  {
    match j
    case Leaf(_) => j
    case Circular => j
    case List(items) => List(MaskAll(false, items))
    case Dict(items) => Dict(MaskAll(true, items))
  }

  function MaskAll(keyed: bool, items: seq<Member>): (r: seq<Member>)
    ensures |r| == |items|
    decreases items
  {
    if items == [] then []
    else
      var last := items[|items| - 1];
      MaskAll(keyed, items[..|items| - 1])
      + [Member(last.key, if keyed && Sensitive(last.key) then REDACTED else Mask(last.json))]
  }

  lemma {:induction false} MaskAllAt(keyed: bool, items: seq<Member>, i: nat)
    requires i < |items|
    ensures MaskAll(keyed, items)[i] ==
      Member(items[i].key, if keyed && Sensitive(items[i].key) then REDACTED else Mask(items[i].json))
    decreases items
  {
    if i < |items| - 1 {
      MaskAllAt(keyed, items[..|items| - 1], i);
    }
  }

  /** Read as a tree, the value is j; of masked fields only the keys count. */
  predicate Spells(h: Heap, v: Value, j: Json)
    decreases j
  {
    match j
    case Leaf(p) => v == Plainly(p) || (v.Ref? && v.id !in h && j == UNDEFINED)
    case Circular => false
    case List(items) =>
      v.Ref? && v.id in h && h[v.id].kind.Array? && SpellsAll(h, Array, h[v.id].fields, items)
    case Dict(items) =>
      v.Ref? && v.id in h && !h[v.id].kind.Array?
      && |items| >= |Head(h[v.id].kind)| && items[..|Head(h[v.id].kind)|] == Head(h[v.id].kind)
      && SpellsAll(h, h[v.id].kind, h[v.id].fields, items[|Head(h[v.id].kind)|..])
  }

  predicate SpellsAll(h: Heap, kind: Kind, fields: seq<Field>, items: seq<Member>)
    decreases items
  {
    |fields| == |items| &&
    (items != [] ==>
       var k := |items| - 1;
       && SpellsAll(h, kind, fields[..k], items[..k])
       && fields[k].key == items[k].key
       && (Masks(kind, fields[k].key) || Spells(h, fields[k].value, items[k].json)))
  }

  function Levels(j: Json): nat
    decreases j
  {
    if Compound(j) then LevelsIn(j.items) + 1 else 1
  }

  function LevelsIn(items: seq<Member>): nat
    decreases items
  {
    if items == [] then 0
    else
      var k := |items| - 1;
      var front, last := LevelsIn(items[..k]), Levels(items[k].json);
      if front < last then last else front
  }

  lemma {:induction false} MaskAllAppend(a: seq<Member>, b: seq<Member>)
    ensures MaskAll(true, a + b) == MaskAll(true, a) + MaskAll(true, b)
    decreases b
  {
    if b == [] {
      assert a + b == a;
    } else {
      var k := |b| - 1;
      assert (a + b)[..|a + b| - 1] == a + b[..k];
      MaskAllAppend(a, b[..k]);
    }
  }

  lemma HeadIsKept(kind: Kind)
    ensures MaskAll(true, Head(kind)) == Head(kind)
  {
    HeadIsHarmless(kind);
    forall i | 0 <= i < |Head(kind)| ensures MaskAll(true, Head(kind))[i] == Head(kind)[i] {
      MaskAllAt(true, Head(kind), i);
    }
  }

  lemma {:induction false} LevelsFall(items: seq<Member>)
    requires items != []
    ensures var k := |items| - 1;
      LevelsIn(items[..k]) <= LevelsIn(items) && Levels(items[k].json) <= LevelsIn(items)
  {
  }

  lemma {:induction false} LevelsOfTail(items: seq<Member>, i: nat)
    requires i <= |items|
    ensures LevelsIn(items[i..]) <= LevelsIn(items)
    decreases |items|
  {
    if i < |items| {
      var k := |items| - 1;
      assert items[i..][..k - i] == items[..k][i..];
      LevelsOfTail(items[..k], i);
    }
  }

  lemma BuildIsMask(kind: Kind, j: Json, rest: seq<Member>)
    requires match kind
      case Array => j == List(rest)
      case Object => j == Dict(rest)
      case Error(_, _, _) => j == Dict(Head(kind) + rest)
    ensures Build(kind, MaskAll(!kind.Array?, rest)) == Mask(j)
  {
    HeadIsKept(kind);
    MaskAllAppend(Head(kind), rest);
    assert kind.Object? ==> Head(kind) + rest == rest;
  }

  function Rest(kind: Kind, j: Json): seq<Member>
    requires Compound(j) && |j.items| >= |Head(kind)|
  {
    j.items[|Head(kind)|..]
  }

  lemma NodeShape(h: Heap, v: Value, j: Json)
    requires Spells(h, v, j) && Compound(j)
    ensures var kind, rest := h[v.id].kind, Rest(h[v.id].kind, j);
      && SpellsAll(h, kind, h[v.id].fields, rest) && LevelsIn(rest) < Levels(j)
      && Mask(j) == Build(kind, MaskAll(!kind.Array?, rest))
  {
    var kind := h[v.id].kind;
    LevelsOfTail(j.items, |Head(kind)|);
    assert j.items == Head(kind) + Rest(kind, j) && j.items[0..] == j.items;
    BuildIsMask(kind, j, Rest(kind, j));
  }

  /** A value that is a tree is walked to its end. */
  lemma {:induction false} TreeReturns(h: Heap, v: Value, j: Json, seen: set<nat>, depth: nat)
    requires Spells(h, v, j) && depth >= Levels(j)
    ensures Redact(h, v, seen, depth).Some?
    decreases depth, 0
  {
    if Compound(j) && !(h[v.id].kind.Object? && v.id in seen) {
      NodeShape(h, v, j);
      FieldsReturn(h, h[v.id].kind, h[v.id].fields, Rest(h[v.id].kind, j), Entered(h, v.id, seen), depth - 1);
    }
  }

  lemma {:induction false} FieldsReturn(h: Heap, kind: Kind, fields: seq<Field>, items: seq<Member>,
                                        seen: set<nat>, depth: nat)
    requires SpellsAll(h, kind, fields, items) && depth >= LevelsIn(items)
    ensures RedactFields(h, kind, fields, seen, depth).Some?
    decreases depth, |fields|
  {
    if items != [] {
      var k := |items| - 1;
      LevelsFall(items);
      FieldsReturn(h, kind, fields[..k], items[..k], seen, depth);
      if !Masks(kind, fields[k].key) {
        TreeReturns(h, fields[k].value, items[k].json,
          RedactFields(h, kind, fields[..k], seen, depth).value.seen, depth);
      }
    }
  }

  lemma PlainIsMask(h: Heap, v: Value, j: Json, seen: set<nat>, depth: nat)
    requires Spells(h, v, j) && !Compound(j) && Redact(h, v, seen, depth).Some?
    ensures Redact(h, v, seen, depth).value.json == Mask(j)
  {
  }

  lemma {:induction false} CleanIsMask(h: Heap, v: Value, j: Json, seen: set<nat>, depth: nat)
    requires Spells(h, v, j) && Redact(h, v, seen, depth).Some? && !HasMark(Redact(h, v, seen, depth).value.json)
    ensures Redact(h, v, seen, depth).value.json == Mask(j)
    decreases depth, 0
  {
    if !Compound(j) {
      PlainIsMask(h, v, j, seen, depth);
    } else {
      var node := h[v.id];
      NodeShape(h, v, j);
      CleanIsOpened(h, v, seen, depth);
      CleanFieldsAreMask(h, node.kind, node.fields, Rest(node.kind, j), Entered(h, v.id, seen), depth - 1);
    }
  }

  lemma {:induction false} CleanFieldsAreMask(h: Heap, kind: Kind, fields: seq<Field>, items: seq<Member>,
                                              seen: set<nat>, depth: nat)
    requires SpellsAll(h, kind, fields, items) && RedactFields(h, kind, fields, seen, depth).Some?
    requires !MarkIn(RedactFields(h, kind, fields, seen, depth).value.items)
    ensures RedactFields(h, kind, fields, seen, depth).value.items == MaskAll(!kind.Array?, items)
    decreases depth, |fields|
  {
    if items != [] {
      var k := |items| - 1;
      var mid := RedactFields(h, kind, fields[..k], seen, depth).value;
      assert RedactFields(h, kind, fields, seen, depth).value.items[..k] == mid.items;
      CleanFieldsAreMask(h, kind, fields[..k], items[..k], seen, depth);
      if !Masks(kind, fields[k].key) {
        CleanIsMask(h, fields[k].value, items[k].json, mid.seen, depth);
      }
    }
  }

  lemma {:induction false} MaskHasNoMark(h: Heap, v: Value, j: Json)
    requires Spells(h, v, j)
    ensures !HasMark(Mask(j))
    decreases Levels(j), 0
  {
    if Compound(j) {
      var kind := h[v.id].kind;
      NodeShape(h, v, j);
      MaskedFieldsHaveNoMark(h, kind, h[v.id].fields, Rest(kind, j));
      BuildMark(kind, MaskAll(!kind.Array?, Rest(kind, j)));
    }
  }

  lemma {:induction false} MaskedFieldsHaveNoMark(h: Heap, kind: Kind, fields: seq<Field>, items: seq<Member>)
    requires SpellsAll(h, kind, fields, items)
    ensures !MarkIn(MaskAll(!kind.Array?, items))
    decreases LevelsIn(items), 1, |items|
  {
    if items != [] {
      var k := |items| - 1;
      var all := MaskAll(!kind.Array?, items);
      LevelsFall(items);
      assert all[..k] == MaskAll(!kind.Array?, items[..k]);
      MaskedFieldsHaveNoMark(h, kind, fields[..k], items[..k]);
      if !Masks(kind, fields[k].key) { MaskHasNoMark(h, fields[k].value, items[k].json); }
    }
  }

  /** A value that can be read as a tree is returned as that tree with its sensitive fields
      masked, exactly when no plain object is shared between unmasked places of it. */
  lemma RedactMasksTree(h: Heap, v: Value, j: Json, depth: nat)
    requires Spells(h, v, j) && depth >= Levels(j)
    ensures Redact(h, v, {}, depth).Some?
    ensures Redact(h, v, {}, depth).value.json == Mask(j) <==> Unshared(h, v)
  {
    TreeReturns(h, v, j, {}, depth);
    MarkIff(h, v, depth);
    MaskHasNoMark(h, v, j);
    if Unshared(h, v) { CleanIsMask(h, v, j, {}, depth); }
  }

  lemma {:induction false} MaskIsMasked(j: Json)
    ensures Masked(Mask(j))
    decreases j
  {
    if Compound(j) {
      forall i | 0 <= i < |j.items|
        ensures Masked(Mask(j).items[i].json)
        ensures j.Dict? && Sensitive(Mask(j).items[i].key) ==> Mask(j).items[i].json == REDACTED
      {
        MaskAllAt(j.Dict?, j.items, i);
        MaskIsMasked(j.items[i].json);
      }
    }
  }

  predicate MemberMasked(keyed: bool, m: Member) {
    Masked(m.json) && (keyed && Sensitive(m.key) ==> m.json == REDACTED)
  }

  /** Masking leaves a tree alone exactly when it is masked already. */
  lemma {:induction false} MaskFixesIff(j: Json)
    ensures Mask(j) == j <==> Masked(j)
    decreases j
  {
    if Compound(j) {
      forall i | 0 <= i < |j.items| ensures Mask(j).items[i] == j.items[i] <==> MemberMasked(j.Dict?, j.items[i]) {
        MaskAllAt(j.Dict?, j.items, i);
        MaskFixesIff(j.items[i].json);
      }
      assert Masked(j) <==> forall i :: 0 <= i < |j.items| ==> MemberMasked(j.Dict?, j.items[i]);
      assert Mask(j).items == j.items <==> forall i :: 0 <= i < |j.items| ==> Mask(j).items[i] == j.items[i];
    }
  }

  /** Redacting what was redacted changes nothing. */
  lemma RedactTwice(h: Heap, v: Value, j: Json, g: Heap, w: Value, depth: nat)
    requires Spells(h, v, j) && Unshared(h, v) && depth >= Levels(j)
    requires Spells(g, w, Mask(j)) && Unshared(g, w) && depth >= Levels(Mask(j))
    ensures Redact(h, v, {}, depth).Some? && Redact(g, w, {}, depth).Some?
    ensures Redact(g, w, {}, depth).value.json == Redact(h, v, {}, depth).value.json == Mask(j)
  {
    RedactMasksTree(h, v, j, depth);
    RedactMasksTree(g, w, Mask(j), depth);
    MaskIsMasked(j);
    MaskFixesIff(Mask(j));
  }

  /** The subtree at a path of positions. */
  function Lookup(j: Json, path: seq<nat>): Option<Json>
    decreases |path|
  {
    if path == [] then Some(j)
    else if !Compound(j) || path[0] >= |j.items| then None
    else Lookup(j.items[path[0]].json, path[1..])
  }

  predicate CrossesSensitive(j: Json, path: seq<nat>)
    decreases |path|
  {
    path != [] && Compound(j) && path[0] < |j.items| &&
    ((j.Dict? && Sensitive(j.items[path[0]].key)) || CrossesSensitive(j.items[path[0]].json, path[1..]))
  }

  /** Off the sensitive keys every subtree stays where it was, every leaf unchanged; beyond one
      there is the mask and nothing else. */
  lemma {:induction false} MaskKeepsTheRest(j: Json, path: seq<nat>)
    ensures !CrossesSensitive(j, path) ==>
      var there := Lookup(Mask(j), path);
      && (there.Some? <==> Lookup(j, path).Some?)
      && (there.Some? ==> there.value == Mask(Lookup(j, path).value))
    ensures CrossesSensitive(j, path) ==> Lookup(Mask(j), path) in {None, Some(REDACTED)}
    decreases |path|
  {
    if path != [] && Compound(j) && path[0] < |j.items| {
      MaskAllAt(j.Dict?, j.items, path[0]);
      MaskKeepsTheRest(j.items[path[0]].json, path[1..]);
    }
  }
}
