/** The redactor in its own form: a recursion with one mutable `seen`, and the format step that
    overwrites a log record in place. */
module Logger {
  import opened Options
  import opened Redaction
  import opened RedactionTermination
  import K = RedactionKeys

  class WeakSet {
    var members: set<nat>

    constructor ()
      ensures members == {}
    {
      members := {};
    }
  }

  /** The walk over the first i fields has produced these items and this set. */
  predicate Walked(h: Heap, v: Value, i: nat, inner: set<nat>, depth: nat, items: seq<Member>, now: set<nat>) {
    v.Ref? && v.id in h && i <= |h[v.id].fields|
    && RedactFields(h, h[v.id].kind, h[v.id].fields[..i], inner, depth) == Some(Outcomes(items, now))
  }

  lemma NextField(h: Heap, v: Value, i: nat, inner: set<nat>, depth: nat, items: seq<Member>, now: set<nat>,
                  masked: Json, after: set<nat>)
    requires Walked(h, v, i, inner, depth, items, now) && i < |h[v.id].fields|
    requires if Masks(h[v.id].kind, h[v.id].fields[i].key) then masked == REDACTED && after == now
             else Redact(h, h[v.id].fields[i].value, now, depth) == Some(Outcome(masked, after))
    ensures Walked(h, v, i + 1, inner, depth, items + [Member(h[v.id].fields[i].key, masked)], after)
  {
    assert h[v.id].fields[..i + 1][..i] == h[v.id].fields[..i];
  }

  /** A field still to be walked fits into what is left of the stack. */
  lemma ChildFits(h: Heap, v: Value, i: nat, before: set<nat>, now: set<nat>, depth: nat)
    requires CyclesAreTracked(h, v) && v.Ref? && v.id in h && i < |h[v.id].fields|
    requires !Masks(h[v.id].kind, h[v.id].fields[i].key)
    requires h[v.id].kind.Object? ==> v.id !in before
    requires depth >= Enough(h, before, v) && Entered(h, v.id, before) <= now
    ensures CyclesAreTracked(h, h[v.id].fields[i].value) && depth - 1 >= Enough(h, now, h[v.id].fields[i].value)
  {
    FieldsFit(h, v, before, depth);
    SeenMoreNeedsLess(h, Entered(h, v.id, before), now, h[v.id].fields[i].value);
  }

  /** The recursion as written, with one mutable set. */
  method RedactValue(h: Heap, v: Value, seen: WeakSet, ghost depth: nat) returns (json: Json)
    requires CyclesAreTracked(h, v) && depth >= Enough(h, seen.members, v)
    modifies seen
    ensures Redact(h, v, old(seen.members), depth) == Some(Outcome(json, seen.members))
    ensures old(seen.members) <= seen.members
    ensures v.Ref? && v.id in h && h[v.id].kind.Object? && v.id !in old(seen.members) ==>
      && json.Dict? && |json.items| == |h[v.id].fields|
      && forall k :: 0 <= k < |json.items| && K.Matches(h[v.id].fields[k].key) ==>
           json.items[k] == Member(h[v.id].fields[k].key, Leaf(Text("[REDACTED]")))
    decreases depth
  {
    if v.Plainly? { return Leaf(v.prim); }
    if v.id !in h { return UNDEFINED; }
    var node := h[v.id];
    if node.kind.Object? {
      if v.id in seen.members { return Circular; }
      seen.members := seen.members + {v.id};
    }
    var items := RedactEach(h, v, seen, old(seen.members), depth);
    assert node.fields[..|node.fields|] == node.fields;
    json := Build(node.kind, items);
    if node.kind.Object? {
      forall k | 0 <= k < |json.items| && K.Matches(node.fields[k].key)
        ensures json.items[k] == Member(node.fields[k].key, Leaf(Text("[REDACTED]")))
      {
        K.RedactShape(h, v, old(seen.members), depth);
      }
    }
  }

  /** The loop that fills the result. */
  method RedactEach(h: Heap, v: Value, seen: WeakSet, ghost before: set<nat>, ghost depth: nat)
      returns (items: seq<Member>)
    requires CyclesAreTracked(h, v) && v.Ref? && v.id in h && depth >= Enough(h, before, v)
    requires h[v.id].kind.Object? ==> v.id !in before
    requires seen.members == Entered(h, v.id, before)
    modifies seen
    ensures Walked(h, v, |h[v.id].fields|, old(seen.members), depth - 1, items, seen.members)
    ensures old(seen.members) <= seen.members
    decreases depth, 0
  {
    var kind, fields := h[v.id].kind, h[v.id].fields;
    ghost var inner := seen.members;
    items := [];
    for i := 0 to |fields|
      invariant inner <= seen.members
      invariant Walked(h, v, i, inner, depth - 1, items, seen.members)
    {
      ghost var now := seen.members;
      var masked: Json;
      if !kind.Array? && Sensitive(fields[i].key) {
        masked := REDACTED;
      } else {
        ChildFits(h, v, i, before, now, depth);
        masked := RedactValue(h, fields[i].value, seen, depth - 1);
      }
      NextField(h, v, i, inner, depth - 1, items, now, masked, seen.members);
      items := items + [Member(fields[i].key, masked)];
    }
  }

  datatype Content = Raw(value: Value) | Clean(json: Json)
  datatype Entry = Entry(key: string, content: Content)

  predicate Skipped(key: string) {
    key == "level" || key == "message"
  }

  /** The record's fields that are handed to the redactor. */
  predicate Walks(key: string) {
    !Skipped(key) && !Sensitive(key)
  }

  /** The format step: overwrites the fields of `info` in place, each with its own `seen`. */
  method RedactFormat(h: Heap, info: array<Entry>)
    requires forall i :: 0 <= i < info.Length ==> info[i].content.Raw?
    requires forall i :: 0 <= i < info.Length && Walks(info[i].key) ==> CyclesAreTracked(h, info[i].content.value)
    modifies info
    ensures forall i :: 0 <= i < info.Length ==> info[i].key == old(info[i].key)
    ensures forall i :: 0 <= i < info.Length && (info[i].key == "level" || info[i].key == "message") ==>
      info[i] == old(info[i])
    ensures forall i :: 0 <= i < info.Length && info[i].key != "level" && info[i].key != "message"
                        && K.Matches(info[i].key) ==>
      info[i].content == Clean(Leaf(Text("[REDACTED]")))
    ensures forall i :: 0 <= i < info.Length && !Skipped(info[i].key) ==>
      && info[i].content.Clean?
      && Masked(info[i].content.json)
      && if Sensitive(info[i].key) then info[i].content.json == REDACTED
         else exists depth: nat, after :: Redact(h, old(info[i].content.value), {}, depth)
                == Some(Outcome(info[i].content.json, after))
  {
    var i := 0;
    while i < info.Length
      invariant 0 <= i <= info.Length
      invariant forall k :: i <= k < info.Length ==> info[k] == old(info[k])
      invariant forall k :: 0 <= k < i ==> info[k].key == old(info[k].key)
      invariant forall k :: 0 <= k < i && Skipped(info[k].key) ==> info[k] == old(info[k])
      invariant forall k :: 0 <= k < i && !Skipped(info[k].key) ==>
        && info[k].content.Clean?
        && Masked(info[k].content.json)
        && if Sensitive(info[k].key) then info[k].content.json == REDACTED
           else exists depth: nat, after :: Redact(h, old(info[k].content.value), {}, depth)
                  == Some(Outcome(info[k].content.json, after))
    {
      var key := info[i].key;
      if !Skipped(key) {
        if Sensitive(key) {
          info[i] := Entry(key, Clean(REDACTED));
        } else {
          var seen := new WeakSet();
          ghost var depth := Enough(h, {}, info[i].content.value);
          RedactMasks(h, info[i].content.value, {}, depth);
          var json := RedactValue(h, info[i].content.value, seen, depth);
          info[i] := Entry(key, Clean(json));
        }
      }
      i := i + 1;
    }
    forall k | 0 <= k < info.Length && K.Matches(info[k].key) ensures Sensitive(info[k].key) {
      K.SensitiveIff(info[k].key);
    }
  }
}
