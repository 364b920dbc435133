/** When the redactor returns.  It remembers plain objects but not arrays or errors, so it is lost
    on a cycle of those alone; the condition is exact for every single call. */
module RedactionTermination {
  import opened Options
  import opened Redaction

  predicate Untracked(h: Heap, v: Value) {
    v.Ref? && v.id in h && !h[v.id].kind.Object?
  }

  /** The walk goes from v to w: w is a field of v that is not masked. */
  predicate Follows(h: Heap, v: Value, w: Value) {
    v.Ref? && v.id in h &&
    exists i :: 0 <= i < |h[v.id].fields| && !Masks(h[v.id].kind, h[v.id].fields[i].key) && h[v.id].fields[i].value == w
  }

  predicate UntrackedPath(h: Heap, p: seq<Value>) {
    && (forall i :: 0 <= i < |p| ==> Untracked(h, p[i]))
    && (forall i :: 0 < i < |p| ==> Follows(h, p[i - 1], p[i]))
  }

  predicate FollowPath(h: Heap, p: seq<Value>) {
    |p| > 0 && forall i :: 0 < i < |p| ==> Follows(h, p[i - 1], p[i])
  }

  /** A cycle of arrays and errors only. */
  predicate UntrackedCycle(h: Heap, p: seq<Value>) {
    |p| > 1 && p[0] == p[|p| - 1] && UntrackedPath(h, p)
  }

  /** The walk can go along p from v into the cycle c. */
  predicate LeadsInto(h: Heap, v: Value, p: seq<Value>, c: seq<Value>) {
    FollowPath(h, p) && p[0] == v && UntrackedCycle(h, c) && p[|p| - 1] == c[0]
  }

  /** Every cycle that the walk can reach from v passes through a plain object. */
  ghost predicate CyclesAreTracked(h: Heap, v: Value) {
    forall p, c :: !LeadsInto(h, v, p, c)
  }

  lemma StepThenPath(h: Heap, v: Value, p: seq<Value>)
    requires FollowPath(h, p) && Follows(h, v, p[0])
    ensures FollowPath(h, [v] + p)
  {
    var q := [v] + p;
    forall i | 0 < i < |q| ensures Follows(h, q[i - 1], q[i]) {
      assert q[i] == p[i - 1] && (i > 1 ==> q[i - 1] == p[i - 2]);
    }
  }

  lemma ChildIsTracked(h: Heap, v: Value, w: Value)
    requires CyclesAreTracked(h, v) && Follows(h, v, w)
    ensures CyclesAreTracked(h, w)
  {
    forall p, c | LeadsInto(h, w, p, c) ensures LeadsInto(h, v, [v] + p, c) {
      StepThenPath(h, v, p);
    }
  }

  // ------------------------------------------ an untracked cycle is not survived

  /** A path of k steps through arrays and errors starts at v. */
  ghost predicate Deep(h: Heap, v: Value, k: nat)
    decreases k
  {
    Untracked(h, v) && (k == 0 || exists w :: Follows(h, v, w) && Deep(h, w, k - 1))
  }

  lemma {:induction false} DeepOverflows(h: Heap, v: Value, seen: set<nat>, depth: nat)
    requires Deep(h, v, depth)
    ensures Redact(h, v, seen, depth) == None
    decreases depth, 0
  {
    if depth > 0 {
      var w :| Follows(h, v, w) && Deep(h, w, depth - 1);
      var node := h[v.id];
      var i :| 0 <= i < |node.fields| && !Masks(node.kind, node.fields[i].key) && node.fields[i].value == w;
      FieldOverflows(h, node.kind, node.fields, i, Entered(h, v.id, seen), depth - 1);
    }
  }

  lemma {:induction false} FieldOverflows(h: Heap, kind: Kind, fields: seq<Field>, i: nat, seen: set<nat>, depth: nat)
    requires i < |fields| && !Masks(kind, fields[i].key) && Deep(h, fields[i].value, depth)
    ensures RedactFields(h, kind, fields, seen, depth) == None
    decreases depth, |fields|
  {
    var k := |fields| - 1;
    var r := RedactFields(h, kind, fields[..k], seen, depth);
    if i < k {
      FieldOverflows(h, kind, fields[..k], i, seen, depth);
    } else if r.Some? {
      DeepOverflows(h, fields[k].value, r.value.seen, depth);
    }
  }

  lemma {:induction false} CycleIsDeep(h: Heap, p: seq<Value>, i: nat, k: nat)
    requires UntrackedCycle(h, p) && i < |p|
    ensures Deep(h, p[i], k)
    decreases k
  {
    if k > 0 {
      var j := if i == |p| - 1 then 0 else i;
      CycleIsDeep(h, p, j + 1, k - 1);
      assert Follows(h, p[j + 1 - 1], p[j + 1]);
    }
  }

  lemma {:induction false} DeepHasPath(h: Heap, v: Value, k: nat) returns (p: seq<Value>)
    requires Deep(h, v, k)
    ensures |p| == k + 1 && p[0] == v && UntrackedPath(h, p)
    decreases k
  {
    if k == 0 {
      p := [v];
    } else {
      var w :| Follows(h, v, w) && Deep(h, w, k - 1);
      var rest := DeepHasPath(h, w, k - 1);
      p := [v] + rest;
      forall i | 0 < i < |p| ensures Follows(h, p[i - 1], p[i]) {
        assert i > 1 ==> p[i - 1] == rest[i - 2] && p[i] == rest[i - 1];
      }
    }
  }

  lemma {:induction false} DistinctFit(p: seq<Value>, ids: set<nat>)
    requires forall i :: 0 <= i < |p| ==> p[i].Ref? && p[i].id in ids
    requires forall i, j :: 0 <= i < j < |p| ==> p[i] != p[j]
    ensures |p| <= |ids|
  {
    if p != [] {
      var k := |p| - 1;
      forall i | 0 <= i < k ensures p[..k][i].id in ids - {p[k].id} {
        assert p[i] != p[k];
      }
      DistinctFit(p[..k], ids - {p[k].id});
    }
  }

  // --------------------------------------- without one, a depth that suffices

  lemma TrackedIsShallow(h: Heap, v: Value)
    requires CyclesAreTracked(h, v)
    ensures !Deep(h, v, |h|)
  {
    if Deep(h, v, |h|) {
      var p := DeepHasPath(h, v, |h|);
      if forall i, j :: 0 <= i < j < |p| ==> p[i] != p[j] {
        DistinctFit(p, h.Keys);
      } else {
        var i, j :| 0 <= i < j < |p| && p[i] == p[j];
        LoopIsUntracked(h, p, i, j);
      }
    }
  }

  lemma SliceIsPath(h: Heap, p: seq<Value>, i: nat, j: nat)
    requires UntrackedPath(h, p) && i < j <= |p|
    ensures UntrackedPath(h, p[i..j]) && FollowPath(h, p[i..j])
  {
    forall k | 0 < k < j - i ensures Follows(h, p[i..j][k - 1], p[i..j][k]) {
      assert p[i..j][k - 1] == p[i + k - 1] && p[i..j][k] == p[i + k];
    }
  }

  lemma LoopIsUntracked(h: Heap, p: seq<Value>, i: nat, j: nat)
    requires UntrackedPath(h, p) && i < j < |p| && p[i] == p[j]
    ensures !CyclesAreTracked(h, p[0])
  {
    SliceIsPath(h, p, 0, i + 1);
    SliceIsPath(h, p, i, j + 1);
    assert LeadsInto(h, p[0], p[0..i + 1], p[i..j + 1]);
  }

  /** The longest path, up to k steps, through arrays and errors from v. */
  ghost function Height(h: Heap, v: Value, k: nat): (r: nat)
    ensures r <= k
    ensures Untracked(h, v) ==> Deep(h, v, r)
  {
    if k == 0 || Deep(h, v, k) then k else Height(h, v, k - 1)
  }

  lemma {:induction false} HeightIsMost(h: Heap, v: Value, k: nat, j: nat)
    requires Deep(h, v, j) && j <= k
    ensures Height(h, v, k) >= j
  {
    if k > j {
      HeightIsMost(h, v, k - 1, j);
    }
  }

  lemma HeightFalls(h: Heap, v: Value, w: Value)
    requires CyclesAreTracked(h, v) && Untracked(h, v) && Untracked(h, w) && Follows(h, v, w)
    ensures Height(h, w, |h|) < Height(h, v, |h|)
  {
    var j := Height(h, w, |h|);
    ChildIsTracked(h, v, w);
    TrackedIsShallow(h, w);
    assert Deep(h, v, j + 1);
    HeightIsMost(h, v, |h|, j + 1);
  }

  ghost function Weight(h: Heap, v: Value): (r: nat)
    ensures r <= |h| + 1
  {
    if Untracked(h, v) then Height(h, v, |h|) + 1 else 0
  }

  /** A stack depth that suffices: a block per plain object not yet seen. */
  ghost function Enough(h: Heap, seen: set<nat>, v: Value): (r: nat)
    ensures r > 0
  {
    |h.Keys - seen| * (|h| + 2) + Weight(h, v) + 1
  }

  lemma SeenMoreNeedsLess(h: Heap, s: set<nat>, t: set<nat>, v: Value)
    requires s <= t
    ensures Enough(h, t, v) <= Enough(h, s, v)
  {
    SmallerSet(h.Keys - t, h.Keys - s);
    Times(|h.Keys - t|, |h.Keys - s|, |h| + 2);
  }

  lemma {:induction false} SmallerSet(a: set<nat>, b: set<nat>)
    requires a <= b
    ensures |a| <= |b|
  {
    assert b == a + (b - a) && a !! (b - a);
  }

  lemma {:induction false} Times(a: nat, b: nat, k: nat)
    requires a <= b
    ensures a * k <= b * k
    ensures a < b ==> a * k + k <= b * k
  {
    assert b * k == a * k + (b - a) * k;
    if a < b {
      assert (b - a) * k == k + (b - a - 1) * k;
    }
  }

  lemma ChildNeedsLess(h: Heap, v: Value, w: Value, seen: set<nat>)
    requires CyclesAreTracked(h, v) && Follows(h, v, w)
    requires h[v.id].kind.Object? ==> v.id !in seen
    ensures Enough(h, Entered(h, v.id, seen), w) < Enough(h, seen, v)
  {
    if h[v.id].kind.Object? {
      var fewer := h.Keys - (seen + {v.id});
      assert h.Keys - seen == fewer + {v.id};
      Times(|fewer|, |h.Keys - seen|, |h| + 2);
    } else if Untracked(h, w) {
      HeightFalls(h, v, w);
    }
  }

  /** All fields still to be walked fit into the stack. */
  ghost predicate Fits(h: Heap, kind: Kind, fields: seq<Field>, seen: set<nat>, depth: nat) {
    forall i :: 0 <= i < |fields| && !Masks(kind, fields[i].key) ==>
      CyclesAreTracked(h, fields[i].value) && depth >= Enough(h, seen, fields[i].value)
  }

  lemma FieldsFit(h: Heap, v: Value, seen: set<nat>, depth: nat)
    requires CyclesAreTracked(h, v) && depth >= Enough(h, seen, v)
    requires v.Ref? && v.id in h && (h[v.id].kind.Object? ==> v.id !in seen)
    ensures depth > 0 && Fits(h, h[v.id].kind, h[v.id].fields, Entered(h, v.id, seen), depth - 1)
  {
    var node := h[v.id];
    forall i | 0 <= i < |node.fields| && !Masks(node.kind, node.fields[i].key)
      ensures CyclesAreTracked(h, node.fields[i].value)
      ensures depth - 1 >= Enough(h, Entered(h, v.id, seen), node.fields[i].value)
    {
      assert Follows(h, v, node.fields[i].value);
      ChildIsTracked(h, v, node.fields[i].value);
      ChildNeedsLess(h, v, node.fields[i].value, seen);
    }
  }

  lemma NodeReturns(h: Heap, v: Value, seen: set<nat>, depth: nat)
    requires depth > 0
    requires v.Ref? && v.id in h && !(h[v.id].kind.Object? && v.id in seen) ==>
      var r := RedactFields(h, h[v.id].kind, h[v.id].fields, Entered(h, v.id, seen), depth - 1);
      r.Some? && Entered(h, v.id, seen) <= r.value.seen
    ensures Redact(h, v, seen, depth).Some? && seen <= Redact(h, v, seen, depth).value.seen
  {
  }

  /** Where every reachable cycle is tracked, this much stack is enough. */
  lemma {:induction false} Finishes(h: Heap, v: Value, seen: set<nat>, depth: nat)
    requires CyclesAreTracked(h, v) && depth >= Enough(h, seen, v)
    ensures Redact(h, v, seen, depth).Some? && seen <= Redact(h, v, seen, depth).value.seen
    decreases depth, 0
  {
    if v.Ref? && v.id in h && !(h[v.id].kind.Object? && v.id in seen) {
      FieldsFit(h, v, seen, depth);
      FieldsFinish(h, h[v.id].kind, h[v.id].fields, Entered(h, v.id, seen), depth - 1);
    }
    NodeReturns(h, v, seen, depth);
  }

  lemma {:induction false} FieldsFinish(h: Heap, kind: Kind, fields: seq<Field>, seen: set<nat>, depth: nat)
    requires Fits(h, kind, fields, seen, depth)
    ensures var r := RedactFields(h, kind, fields, seen, depth); r.Some? && seen <= r.value.seen
    decreases depth, |fields|
  {
    if fields != [] {
      var k := |fields| - 1;
      assert Fits(h, kind, fields[..k], seen, depth);
      FieldsFinish(h, kind, fields[..k], seen, depth);
      var after := RedactFields(h, kind, fields[..k], seen, depth).value.seen;
      if !Masks(kind, fields[k].key) {
        SeenMoreNeedsLess(h, seen, after, fields[k].value);
        Finishes(h, fields[k].value, after, depth);
      }
    }
  }

  // ------------------------------- a call that returned has looked everywhere

  /** The walk is done with w: an object has been entered, and from an array or error there is
      nothing but such values within k steps. */
  ghost predicate Covered(h: Heap, w: Value, seen: set<nat>, k: nat)
    decreases k
  {
    w.Plainly? || w.id !in h ||
    if h[w.id].kind.Object? then w.id in seen
    else k > 0 && forall x :: Follows(h, w, x) ==> Covered(h, x, seen, k - 1)
  }

  ghost predicate ChildrenCovered(h: Heap, id: nat, seen: set<nat>, k: nat) {
    forall x :: Follows(h, Ref(id), x) ==> Covered(h, x, seen, k)
  }

  /** Every object entered between two moments has all its children done. */
  ghost predicate NewOnesCovered(h: Heap, before: set<nat>, seen: set<nat>, k: nat) {
    forall id :: id in seen && id !in before ==> ChildrenCovered(h, id, seen, k)
  }

  lemma {:induction false} CoveredMore(h: Heap, w: Value, s: set<nat>, t: set<nat>, k: nat, m: nat)
    requires Covered(h, w, s, k) && s <= t && k <= m
    ensures Covered(h, w, t, m)
    decreases k
  {
    if Untracked(h, w) {
      forall x | Follows(h, w, x) ensures Covered(h, x, t, m - 1) { CoveredMore(h, x, s, t, k - 1, m - 1); }
    }
  }

  lemma NewOnesMore(h: Heap, before: set<nat>, s: set<nat>, t: set<nat>, k: nat, m: nat)
    requires NewOnesCovered(h, before, s, k) && s <= t && k <= m
    ensures forall id :: id in s && id !in before ==> ChildrenCovered(h, id, t, m)
  {
    forall id | id in s && id !in before ensures ChildrenCovered(h, id, t, m) {
      assert ChildrenCovered(h, id, s, k);
      forall x | Follows(h, Ref(id), x) ensures Covered(h, x, t, m) { CoveredMore(h, x, s, t, k, m); }
    }
  }

  ghost predicate FieldsCovered(h: Heap, kind: Kind, fields: seq<Field>, seen: set<nat>, k: nat) {
    forall i :: 0 <= i < |fields| && !Masks(kind, fields[i].key) ==> Covered(h, fields[i].value, seen, k)
  }

  lemma {:induction false} RedactCovers(h: Heap, v: Value, seen: set<nat>, depth: nat)
    requires Redact(h, v, seen, depth).Some?
    ensures var after := Redact(h, v, seen, depth).value.seen;
      seen <= after && Covered(h, v, after, depth) && NewOnesCovered(h, seen, after, depth)
    decreases depth, 0
  {
    if v.Ref? && v.id in h && !(h[v.id].kind.Object? && v.id in seen) {
      var node, inner := h[v.id], Entered(h, v.id, seen);
      FieldsCover(h, node.kind, node.fields, inner, depth - 1);
      var after := Redact(h, v, seen, depth).value.seen;
      forall x | Follows(h, v, x) ensures Covered(h, x, after, depth - 1) && Covered(h, x, after, depth) {
        CoveredMore(h, x, after, after, depth - 1, depth);
      }
      NewOnesMore(h, inner, after, after, depth - 1, depth);
    }
  }

  lemma {:induction false} FieldsCover(h: Heap, kind: Kind, fields: seq<Field>, seen: set<nat>, depth: nat)
    requires RedactFields(h, kind, fields, seen, depth).Some?
    ensures var after := RedactFields(h, kind, fields, seen, depth).value.seen;
      seen <= after && FieldsCovered(h, kind, fields, after, depth) && NewOnesCovered(h, seen, after, depth)
    decreases depth, |fields|
  {
    if fields != [] {
      var k := |fields| - 1;
      FieldsCover(h, kind, fields[..k], seen, depth);
      var mid := RedactFields(h, kind, fields[..k], seen, depth).value.seen;
      if !Masks(kind, fields[k].key) {
        RedactCovers(h, fields[k].value, mid, depth);
        var after := RedactFields(h, kind, fields, seen, depth).value.seen;
        NewOnesMore(h, seen, mid, after, depth, depth);
        forall i | 0 <= i < k && !Masks(kind, fields[i].key) ensures Covered(h, fields[i].value, after, depth) {
          assert fields[..k][i] == fields[i];
          CoveredMore(h, fields[i].value, mid, after, depth, depth);
        }
      }
    }
  }

  lemma {:induction false} CoveredAlong(h: Heap, p: seq<Value>, seen: set<nat>, k: nat)
    requires FollowPath(h, p) && Covered(h, p[0], seen, k) && NewOnesCovered(h, {}, seen, k)
    ensures Covered(h, p[|p| - 1], seen, k)
  {
    if |p| > 1 {
      var q := p[..|p| - 1];
      CoveredAlong(h, q, seen, k);
      var w, x := q[|q| - 1], p[|p| - 1];
      assert Follows(h, w, x);
      if h[w.id].kind.Object? {
        assert ChildrenCovered(h, w.id, seen, k);
      } else {
        CoveredMore(h, x, seen, seen, k - 1, k);
      }
    }
  }

  lemma {:induction false} CoveredIsShallow(h: Heap, w: Value, seen: set<nat>, k: nat)
    requires Covered(h, w, seen, k)
    ensures !Deep(h, w, k)
    decreases k
  {
    if Untracked(h, w) {
      forall x | Follows(h, w, x) ensures !Deep(h, x, k - 1) { CoveredIsShallow(h, x, seen, k - 1); }
    }
  }

  /** A call with an empty `seen` returns within this stack depth. */
  predicate Returns(h: Heap, v: Value, depth: nat) {
    Redact(h, v, {}, depth).Some?
  }

  ghost predicate Terminates(h: Heap, v: Value) {
    exists depth: nat :: Returns(h, v, depth)
  }

  lemma ReturnedIsTracked(h: Heap, v: Value, depth: nat)
    requires Returns(h, v, depth)
    ensures CyclesAreTracked(h, v)
  {
    RedactCovers(h, v, {}, depth);
    var after := Redact(h, v, {}, depth).value.seen;
    forall p, c | FollowPath(h, p) && p[0] == v && UntrackedCycle(h, c) ensures p[|p| - 1] != c[0] {
      CoveredAlong(h, p, after, depth);
      CoveredIsShallow(h, p[|p| - 1], after, depth);
      CycleIsDeep(h, c, 0, depth);
    }
  }

  /** The redactor returns on a value exactly when every cycle the walk can reach from it passes
      through a plain object; what lies behind a masked key does not matter. */
  lemma TerminatesIff(h: Heap, v: Value)
    ensures Terminates(h, v) <==> CyclesAreTracked(h, v)
  {
    if CyclesAreTracked(h, v) {
      Finishes(h, v, {}, Enough(h, {}, v));
      assert Returns(h, v, Enough(h, {}, v));
    } else if Terminates(h, v) {
      var depth: nat :| Returns(h, v, depth);
      ReturnedIsTracked(h, v, depth);
    }
  }

  /** An array that contains itself is never finished, whatever the stack. */
  lemma SelfContainingArrayOverflows(depth: nat)
    ensures Redact(map[0 := Node(Array, [Field("", Ref(0))])], Ref(0), {}, depth) == None
  {
    var h := map[0 := Node(Array, [Field("", Ref(0))])];
    assert Follows(h, Ref(0), h[0].fields[0].value);
    assert UntrackedCycle(h, [Ref(0), Ref(0)]);
    CycleIsDeep(h, [Ref(0), Ref(0)], 0, depth);
    DeepOverflows(h, Ref(0), {}, depth);
  }
}
