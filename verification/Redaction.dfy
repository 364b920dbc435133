/** The log redactor.  It walks an object graph that may be shared or cyclic, remembers plain
    objects in a mutable `seen` set but not arrays or errors, and masks values by key name. */
module Redaction {
  import opened Options

  datatype Prim = Text(text: string) | Other(code: nat)

  /** A value is a primitive or a reference into the heap. */
  datatype Value = Plainly(prim: Prim) | Ref(id: nat)

  datatype Field = Field(key: string, value: Value)

  /** An array's items are its fields and their keys mean nothing.  An error's fields are its
      own enumerable properties other than name, message and stack. */
  datatype Kind = Array | Error(name: string, message: string, stack: string) | Object

  datatype Node = Node(kind: Kind, fields: seq<Field>)

  type Heap = map<nat, Node>

  /** What the redactor returns: a tree.  `Circular` is the mark it puts in place of an object it
      has met before; it reads "[CIRCULAR]", but is not confused with such a text in the input. */
  datatype Json = Leaf(prim: Prim) | Circular | List(items: seq<Member>) | Dict(items: seq<Member>)
  datatype Member = Member(key: string, json: Json)

  const REDACTED := Leaf(Text("[REDACTED]"))
  const UNDEFINED := Leaf(Other(0))

  const WORDS := ["password", "passwordhash", "token", "otp", "otpcode", "secret",
                  "authorization", "cardnumber", "cvv", "stripesecretkey"]

  function Lower(s: string): (r: string)
    ensures |r| == |s|
    ensures forall i :: 0 <= i < |s| ==>
      r[i] == if 65 <= s[i] as int <= 90 then (s[i] as int + 32) as char else s[i]
  {
    seq(|s|, i requires 0 <= i < |s| => if 'A' <= s[i] <= 'Z' then s[i] - 'A' + 'a' else s[i])
  }

  predicate OccursAt(s: string, i: nat, word: string) {
    i + |word| <= |s| && s[i..i + |word|] == word
  }

  predicate Contains(s: string, word: string) {
    exists i :: 0 <= i <= |s| && OccursAt(s, i, word)
  }

  /** The pattern matches anywhere in the key, in either case. */
  predicate Sensitive(key: string) {
    exists w :: 0 <= w < |WORDS| && Contains(Lower(key), WORDS[w])
  }

  predicate Masks(kind: Kind, key: string) {
    kind != Array && Sensitive(key)
  }

  // ------------------------------------------------------------- redact

  datatype Outcome = Outcome(json: Json, seen: set<nat>)
  datatype Outcomes = Outcomes(items: seq<Member>, seen: set<nat>)

  function Head(kind: Kind): seq<Member> {
    if kind.Error?
    then [Member("name", Leaf(Text(kind.name))), Member("message", Leaf(Text(kind.message))),
          Member("stack", Leaf(Text(kind.stack)))]
    else []
  }

  function Build(kind: Kind, items: seq<Member>): Json {
    if kind.Array? then List(items) else Dict(Head(kind) + items)
  }

  /** The recursion with a bound on the depth of the call stack; None when it is exhausted. */
  function Redact(h: Heap, v: Value, seen: set<nat>, depth: nat): Option<Outcome>
    decreases depth, 0
  {
    if depth == 0 then None
    else if v.Plainly? then Some(Outcome(Leaf(v.prim), seen))
    else if v.id !in h then Some(Outcome(UNDEFINED, seen))
    else if h[v.id].kind.Object? && v.id in seen then Some(Outcome(Circular, seen))
    else
      var node := h[v.id];
      match RedactFields(h, node.kind, node.fields, Entered(h, v.id, seen), depth - 1)
      case None => None
      case Some(r) => Some(Outcome(Build(node.kind, r.items), r.seen))
  }

  function RedactFields(h: Heap, kind: Kind, fields: seq<Field>, seen: set<nat>, depth: nat): (r: Option<Outcomes>)
    ensures r.Some? ==> |r.value.items| == |fields|
    decreases depth, |fields|
  {
    if fields == [] then Some(Outcomes([], seen))
    else
      var last := fields[|fields| - 1];
      match RedactFields(h, kind, fields[..|fields| - 1], seen, depth)
      case None => None
      case Some(r) =>
        if Masks(kind, last.key) then Some(Outcomes(r.items + [Member(last.key, REDACTED)], r.seen))
        else
          match Redact(h, last.value, r.seen, depth)
          case None => None
          case Some(o) => Some(Outcomes(r.items + [Member(last.key, o.json)], o.seen))
  }

  /** Only plain objects are remembered. */
  function Entered(h: Heap, id: nat, seen: set<nat>): set<nat>
    requires id in h
  {
    if h[id].kind.Object? then seen + {id} else seen
  }

  // ----------------------------------------------------- nothing leaks

  /** Under every sensitive key, at every depth, there is only the mask. */
  predicate Masked(j: Json) {
    match j
    case Leaf(_) => true
    case Circular => true
    case List(items) => forall i :: 0 <= i < |items| ==> Masked(items[i].json)
    case Dict(items) => forall i :: 0 <= i < |items| ==>
      Masked(items[i].json) && (Sensitive(items[i].key) ==> items[i].json == REDACTED)
  }

  predicate AllMasked(kind: Kind, items: seq<Member>) {
    forall i :: 0 <= i < |items| ==>
      Masked(items[i].json) && (Masks(kind, items[i].key) ==> items[i].json == REDACTED)
  }

  lemma NotIn(s: string, w: nat)
    requires s in {"name", "message", "stack"} && w < |WORDS|
    ensures !Contains(s, WORDS[w])
  {
    forall i | 0 <= i <= |s| ensures !OccursAt(s, i, WORDS[w]) {
      if i + |WORDS[w]| <= |s| {
        var t := s[i..i + |WORDS[w]|];
        assert t[0] == s[i] && t[1] == s[i + 1] && t[2] == s[i + 2];
      }
    }
  }

  lemma HeadIsLower(s: string)
    requires s in {"name", "message", "stack"}
    ensures Lower(s) == s
  {
  }

  lemma HeadIsHarmless(kind: Kind)
    ensures AllMasked(kind, Head(kind))
  {
    forall s | s in {"name", "message", "stack"} ensures !Sensitive(s) {
      HeadIsLower(s);
      forall w | 0 <= w < |WORDS| ensures !Contains(s, WORDS[w]) { NotIn(s, w); }
    }
  }

  lemma {:induction false} RedactMasks(h: Heap, v: Value, seen: set<nat>, depth: nat)
    ensures var r := Redact(h, v, seen, depth); r.Some? ==> Masked(r.value.json)
    decreases depth, 0
  {
    if depth > 0 && v.Ref? && v.id in h && !(h[v.id].kind.Object? && v.id in seen) {
      var node := h[v.id];
      FieldsMask(h, node.kind, node.fields, Entered(h, v.id, seen), depth - 1);
      HeadIsHarmless(node.kind);
    }
  }

  lemma {:induction false} FieldsMask(h: Heap, kind: Kind, fields: seq<Field>, seen: set<nat>, depth: nat)
    ensures var r := RedactFields(h, kind, fields, seen, depth); r.Some? ==> AllMasked(kind, r.value.items)
    decreases depth, |fields|
  {
    if fields != [] {
      var k := |fields| - 1;
      FieldsMask(h, kind, fields[..k], seen, depth);
      var r := RedactFields(h, kind, fields[..k], seen, depth);
      if r.Some? && !Masks(kind, fields[k].key) {
        RedactMasks(h, fields[k].value, r.value.seen, depth);
      }
    }
  }
}
