/** Which keys the redactor masks: those in which a literal of the pattern occurs, in any case. */
module RedactionKeys {
  import opened Options
  import opened Redaction

  /** The pattern's alternatives as they are written. */
  const PATTERN := ["password", "passwordHash", "token", "otp", "otpCode", "secret",
                    "authorization", "cardNumber", "cvv", "stripeSecretKey"]

  /** Equal, or the two cases of one letter. */
  predicate SameLetter(c: char, d: char) {
    || c == d
    || ('A' <= c <= 'Z' && d as int == c as int + 32)
    || ('A' <= d <= 'Z' && c as int == d as int + 32)
  }

  predicate SameText(s: string, t: string) {
    |s| == |t| && forall i :: 0 <= i < |s| ==> SameLetter(s[i], t[i])
  }

  lemma SameTextIff(s: string, t: string)
    ensures SameText(s, t) <==> Lower(s) == Lower(t)
  {
    if Lower(s) == Lower(t) {
      forall i | 0 <= i < |s| ensures SameLetter(s[i], t[i]) { assert Lower(s)[i] == Lower(t)[i]; }
    }
  }

  lemma WordsAreLower(w: nat)
    requires w < |PATTERN|
    ensures |WORDS| == |PATTERN| && Lower(PATTERN[w]) == WORDS[w]
  {
  }

  /** The literal stands at some place in the key, in any case. */
  predicate Occurs(key: string, literal: string, i: nat) {
    i + |literal| <= |key| && SameText(key[i..i + |literal|], literal)
  }

  predicate OccursIn(key: string, literal: string) {
    exists i: nat :: i <= |key| && Occurs(key, literal, i)
  }

  predicate Matches(key: string) {
    exists w :: 0 <= w < |PATTERN| && OccursIn(key, PATTERN[w])
  }

  lemma OccursIff(key: string, literal: string)
    ensures OccursIn(key, literal) <==> Contains(Lower(key), Lower(literal))
  {
    forall i: nat | i <= |key| ensures Occurs(key, literal, i) <==> OccursAt(Lower(key), i, Lower(literal)) {
      if i + |literal| <= |key| {
        SameTextIff(key[i..i + |literal|], literal);
        assert Lower(key)[i..i + |literal|] == Lower(key[i..i + |literal|]);
      }
    }
  }

  /** A key is sensitive exactly when a literal of the pattern occurs in it, in any case. */
  lemma SensitiveIff(key: string)
    ensures Sensitive(key) <==> Matches(key)
  {
    forall w | 0 <= w < |PATTERN|
      ensures |WORDS| == |PATTERN| && (OccursIn(key, PATTERN[w]) <==> Contains(Lower(key), WORDS[w]))
    {
      WordsAreLower(w);
      OccursIff(key, PATTERN[w]);
    }
    WordsAreLower(0);
  }

  /** Keys that differ only in the case of letters are masked alike. */
  lemma CaseIsIrrelevant(a: string, b: string)
    requires SameText(a, b)
    ensures Sensitive(a) <==> Sensitive(b)
  {
    SameTextIff(a, b);
  }

  /** What the redactor makes of a value when it has met some objects already. */
  ghost predicate Made(h: Heap, v: Value, depth: nat, json: Json) {
    exists now: set<nat> :: Redact(h, v, now, depth).Some? && Redact(h, v, now, depth).value.json == json
  }

  lemma {:induction false} FieldsByKey(h: Heap, kind: Kind, fields: seq<Field>, seen: set<nat>, depth: nat, k: nat)
    requires k < |fields| && RedactFields(h, kind, fields, seen, depth).Some?
    ensures var items := RedactFields(h, kind, fields, seen, depth).value.items;
      && items[k].key == fields[k].key
      && if !kind.Array? && Matches(fields[k].key) then items[k].json == Leaf(Text("[REDACTED]"))
         else Made(h, fields[k].value, depth, items[k].json)
    decreases |fields|
  {
    var n := |fields| - 1;
    SensitiveIff(fields[n].key);
    if k < n {
      FieldsByKey(h, kind, fields[..n], seen, depth, k);
      assert fields[..n][k] == fields[k];
    }
  }

  /** The fields in their order; under a matching key of an object or error there is the mask, and
      anywhere else what the redactor makes of the value. */
  ghost predicate ByKey(h: Heap, node: Node, depth: nat, items: seq<Member>) {
    && |items| == |node.fields|
    && forall k :: 0 <= k < |items| ==>
         && items[k].key == node.fields[k].key
         && if !node.kind.Array? && Matches(node.fields[k].key) then items[k].json == Leaf(Text("[REDACTED]"))
            else Made(h, node.fields[k].value, depth, items[k].json)
  }

  /** What comes out: a primitive as it is, an object met before as the mark, an array as a list, an
      object as its fields, and an error as its name, message and stack before its other fields. */
  lemma {:induction false} RedactShape(h: Heap, v: Value, seen: set<nat>, depth: nat)
    requires Redact(h, v, seen, depth).Some? && (v.Ref? ==> v.id in h)
    ensures var json := Redact(h, v, seen, depth).value.json;
      if v.Plainly? then json == Leaf(v.prim)
      else
        var node := h[v.id];
        match node.kind
        case Array => json.List? && ByKey(h, node, depth - 1, json.items)
        case Object =>
          if v.id in seen then json == Circular else json.Dict? && ByKey(h, node, depth - 1, json.items)
        case Error(name, message, stack) =>
          && json.Dict? && |json.items| >= 3
          && json.items[0] == Member("name", Leaf(Text(name)))
          && json.items[1] == Member("message", Leaf(Text(message)))
          && json.items[2] == Member("stack", Leaf(Text(stack)))
          && ByKey(h, node, depth - 1, json.items[3..])
  {
    if v.Ref? && !(h[v.id].kind.Object? && v.id in seen) {
      var node, inner := h[v.id], Entered(h, v.id, seen);
      var items := RedactFields(h, node.kind, node.fields, inner, depth - 1).value.items;
      forall k | 0 <= k < |items|
        ensures items[k].key == node.fields[k].key
        ensures if !node.kind.Array? && Matches(node.fields[k].key) then items[k].json == Leaf(Text("[REDACTED]"))
                else Made(h, node.fields[k].value, depth - 1, items[k].json)
      {
        FieldsByKey(h, node.kind, node.fields, inner, depth - 1, k);
      }
      if node.kind.Error? {
        assert Build(node.kind, items).items[3..] == items;
      }
    }
  }
}
