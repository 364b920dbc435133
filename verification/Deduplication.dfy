/** The migration that makes (wallet, reason, reference) unique: rank the rows of each group by
    creation time and append the row's own id to every reference but the first. */
module Deduplication {
  import opened Options

  datatype Row = Row(id: string, wallet: nat, reason: nat, reference: Option<string>, createdAt: int, amount: int)

  predicate Marked(s: string) { '#' in s }

  predicate SameGroup(r: Row, s: Row) {
    r.reference.Some? && r.wallet == s.wallet && r.reason == s.reason && r.reference == s.reference
  }

  /** The window's order.  `tie` is whatever order the database gives rows created together. */
  predicate Before(rows: seq<Row>, tie: seq<nat>, j: nat, i: nat)
    requires i < |rows| && j < |rows| && |tie| == |rows|
  {
    rows[j].createdAt < rows[i].createdAt || (rows[j].createdAt == rows[i].createdAt && tie[j] < tie[i])
  }

  function Earlier(rows: seq<Row>, tie: seq<nat>, i: nat): set<nat>
    requires i < |rows| && |tie| == |rows|
  {
    set j: nat | j < |rows| && SameGroup(rows[j], rows[i]) && Before(rows, tie, j, i)
  }

  function RowNumber(rows: seq<Row>, tie: seq<nat>, i: nat): nat
    requires i < |rows| && |tie| == |rows|
  {
    1 + |Earlier(rows, tie, i)|
  }

  function Disambiguated(r: Row): Row
    requires r.reference.Some?
  {
    r.(reference := Some(r.reference.value + "#" + r.id))
  }

  function NewRow(r: Row, rank: nat): Row {
    if r.reference.Some? && rank > 1 then Disambiguated(r) else r
  }

  /** The table after the UPDATE, whose ranking reads the table before it. */
  function Migrated(rows: seq<Row>, tie: seq<nat>): (r: seq<Row>)
    requires |tie| == |rows|
    ensures |r| == |rows|
  {
    seq(|rows|, i requires 0 <= i < |rows| => NewRow(rows[i], RowNumber(rows, tie, i)))
  }

  /** The unique index can be created; null references never clash. */
  predicate Unique(rows: seq<Row>) {
    forall i, j :: 0 <= i < |rows| && 0 <= j < |rows| && i != j ==> !SameGroup(rows[i], rows[j])
  }

  predicate Table(rows: seq<Row>, tie: seq<nat>) {
    && |tie| == |rows|
    && (forall i, j :: 0 <= i < |rows| && 0 <= j < |rows| && i != j ==> rows[i].id != rows[j].id)
    && (forall i, j :: 0 <= i < |rows| && 0 <= j < |rows| && i != j ==> tie[i] != tie[j])
    && (forall i :: 0 <= i < |rows| ==> !Marked(rows[i].id))
  }

  // ------------------------------------------------------------ ranking

  lemma LaterIff(rows: seq<Row>, tie: seq<nat>, i: nat)
    requires i < |rows| && |tie| == |rows|
    ensures RowNumber(rows, tie, i) > 1 <==>
      exists j: nat :: j < |rows| && SameGroup(rows[j], rows[i]) && Before(rows, tie, j, i)
  {
    if j: nat :| j < |rows| && SameGroup(rows[j], rows[i]) && Before(rows, tie, j, i) {
      assert j in Earlier(rows, tie, i);
    }
    if RowNumber(rows, tie, i) > 1 {
      var j :| j in Earlier(rows, tie, i);
    }
  }

  /** Every group has a row that keeps its reference. */
  lemma {:induction false} GroupHasFirst(rows: seq<Row>, tie: seq<nat>, i: nat) returns (f: nat)
    requires Table(rows, tie) && i < |rows| && rows[i].reference.Some?
    ensures f < |rows| && SameGroup(rows[f], rows[i]) && RowNumber(rows, tie, f) == 1
    decreases |Earlier(rows, tie, i)|
  {
    if Earlier(rows, tie, i) == {} {
      f := i;
    } else {
      var j :| j in Earlier(rows, tie, i);
      Smaller(Earlier(rows, tie, j), Earlier(rows, tie, i), j);
      f := GroupHasFirst(rows, tie, j);
    }
  }

  lemma Smaller(a: set<nat>, b: set<nat>, x: nat)
    requires a <= b && x in b && x !in a
    ensures |a| < |b|
  {
    assert b == a + (b - a) && x in b - a;
  }

  lemma {:induction false} FirstIsUnique(rows: seq<Row>, tie: seq<nat>, i: nat, j: nat)
    requires Table(rows, tie) && i < |rows| && j < |rows| && i != j && SameGroup(rows[i], rows[j])
    ensures RowNumber(rows, tie, i) > 1 || RowNumber(rows, tie, j) > 1
  {
    assert Before(rows, tie, i, j) || Before(rows, tie, j, i);
    LaterIff(rows, tie, i);
    LaterIff(rows, tie, j);
  }

  /** The rows of i's group, i included. */
  function Group(rows: seq<Row>, i: nat): set<nat>
    requires i < |rows|
  {
    set j: nat | j < |rows| && SameGroup(rows[j], rows[i])
  }

  function NumbersOf(rows: seq<Row>, tie: seq<nat>, s: set<nat>): set<nat>
    requires |tie| == |rows| && forall i :: i in s ==> i < |rows|
  {
    set i | i in s :: RowNumber(rows, tie, i)
  }

  predicate Within(m: nat, n: nat) { 1 <= m <= n }

  function OneTo(n: nat): set<nat> {
    set m: nat | m <= n && Within(m, n)
  }

  lemma {:induction false} OneToSize(n: nat)
    ensures |OneTo(n)| == n
  {
    if n > 0 {
      assert OneTo(n) == OneTo(n - 1) + {n};
      OneToSize(n - 1);
    }
  }

  lemma Inside(a: set<nat>, b: set<nat>)
    requires a <= b && |a| >= |b|
    ensures a == b
  {
    if x :| x in b && x !in a { Smaller(a, b, x); }
  }

  /** Numbers follow the window's order within a group. */
  lemma NumbersFollowOrder(rows: seq<Row>, tie: seq<nat>, i: nat, j: nat)
    requires i < |rows| && j < |rows| && |tie| == |rows| && SameGroup(rows[i], rows[j]) && Before(rows, tie, i, j)
    ensures RowNumber(rows, tie, i) < RowNumber(rows, tie, j)
  {
    Smaller(Earlier(rows, tie, i), Earlier(rows, tie, j), i);
  }

  lemma NumberFits(rows: seq<Row>, tie: seq<nat>, i: nat)
    requires i < |rows| && |tie| == |rows| && rows[i].reference.Some?
    ensures RowNumber(rows, tie, i) in OneTo(|Group(rows, i)|)
  {
    Smaller(Earlier(rows, tie, i), Group(rows, i), i);
  }

  lemma {:induction false} NumbersCount(rows: seq<Row>, tie: seq<nat>, s: set<nat>)
    requires |tie| == |rows| && forall i :: i in s ==> i < |rows|
    requires forall i, j :: i in s && j in s && i != j ==> RowNumber(rows, tie, i) != RowNumber(rows, tie, j)
    ensures |NumbersOf(rows, tie, s)| == |s|
    decreases |s|
  {
    if s != {} {
      var i :| i in s;
      NumbersCount(rows, tie, s - {i});
      assert NumbersOf(rows, tie, s) == NumbersOf(rows, tie, s - {i}) + {RowNumber(rows, tie, i)};
    }
  }

  /** The numbers of a group of n rows are exactly 1 to n, each given once. */
  lemma NumbersAreOneToN(rows: seq<Row>, tie: seq<nat>, i: nat)
    requires Table(rows, tie) && i < |rows| && rows[i].reference.Some?
    ensures NumbersOf(rows, tie, Group(rows, i)) == OneTo(|Group(rows, i)|)
    ensures forall j, k :: j in Group(rows, i) && k in Group(rows, i) && j != k ==>
      RowNumber(rows, tie, j) != RowNumber(rows, tie, k)
  {
    var g := Group(rows, i);
    forall j, k | j in g && k in g && j != k ensures RowNumber(rows, tie, j) != RowNumber(rows, tie, k) {
      if Before(rows, tie, j, k) { NumbersFollowOrder(rows, tie, j, k); } else { NumbersFollowOrder(rows, tie, k, j); }
    }
    NumbersCount(rows, tie, g);
    forall j | j in g ensures RowNumber(rows, tie, j) in OneTo(|g|) {
      NumberFits(rows, tie, j);
      assert Group(rows, j) == g;
    }
    OneToSize(|g|);
    Inside(NumbersOf(rows, tie, g), OneTo(|g|));
  }

  /** A row's reference gets '#' and the row's id appended iff an earlier row has the same wallet,
      reason and reference; nothing else changes. */
  lemma ReferenceAfter(rows: seq<Row>, tie: seq<nat>, i: nat)
    requires |tie| == |rows| && i < |rows|
    ensures Migrated(rows, tie)[i] ==
      if rows[i].reference.Some? && exists j | 0 <= j < |rows| ::
           && rows[j].wallet == rows[i].wallet && rows[j].reason == rows[i].reason
           && rows[j].reference == rows[i].reference
           && (rows[j].createdAt < rows[i].createdAt || (rows[j].createdAt == rows[i].createdAt && tie[j] < tie[i]))
      then rows[i].(reference := Some(rows[i].reference.value + "#" + rows[i].id))
      else rows[i]
  {
    LaterIff(rows, tie, i);
    if j :| 0 <= j < |rows| && rows[j].wallet == rows[i].wallet && rows[j].reason == rows[i].reason
            && rows[j].reference == rows[i].reference && rows[i].reference.Some?
            && (rows[j].createdAt < rows[i].createdAt || (rows[j].createdAt == rows[i].createdAt && tie[j] < tie[i]))
    {
      assert SameGroup(rows[j], rows[i]) && Before(rows, tie, j, i);
    }
  }

  // --------------------------------------------------------- uniqueness

  /** A reference ends in a '#' and an id in one way only. */
  lemma SuffixIsUnique(a: string, x: string, b: string, y: string)
    requires !Marked(x) && !Marked(y) && a + "#" + x == b + "#" + y
    ensures a == b && x == y
  {
    var s := a + "#" + x;
    assert s[|a|] == '#' && s[|b|] == '#';
    forall k | |a| < k < |s| ensures s[k] != '#' { assert s[k] == x[k - |a| - 1]; }
    forall k | |b| < k < |s| ensures s[k] != '#' { assert s[k] == y[k - |b| - 1]; }
    assert |a| == |b|;
    assert a == s[..|a|] && b == s[..|b|] && x == s[|a| + 1..] && y == s[|b| + 1..];
  }

  /** A later duplicate's new reference is one that another row already has. */
  predicate Clash(rows: seq<Row>, tie: seq<nat>, i: nat, j: nat)
    requires |tie| == |rows|
  {
    && i < |rows| && j < |rows|
    && rows[i].reference.Some? && RowNumber(rows, tie, i) > 1
    && SameGroup(Disambiguated(rows[i]), rows[j])
  }

  lemma ClashBreaksIndex(rows: seq<Row>, tie: seq<nat>, i: nat, j: nat)
    requires Table(rows, tie) && Clash(rows, tie, i, j)
    ensures !Unique(Migrated(rows, tie))
  {
    var f := GroupHasFirst(rows, tie, j);
    var m := Migrated(rows, tie);
    assert m[f] == rows[f] && m[i] == Disambiguated(rows[i]);
    assert SameGroup(m[f], m[i]) && f != i;
  }

  lemma DuplicateMeansClash(rows: seq<Row>, tie: seq<nat>, i: nat, j: nat)
    requires Table(rows, tie) && i < |rows| && j < |rows| && i != j
    requires SameGroup(Migrated(rows, tie)[i], Migrated(rows, tie)[j])
    ensures Clash(rows, tie, i, j) || Clash(rows, tie, j, i)
  {
    var late_i, late_j := RowNumber(rows, tie, i) > 1, RowNumber(rows, tie, j) > 1;
    if !late_i && !late_j {
      FirstIsUnique(rows, tie, i, j);
    } else if late_i && late_j {
      SuffixIsUnique(rows[i].reference.value, rows[i].id, rows[j].reference.value, rows[j].id);
    }
  }

  /** The migration makes the triple unique exactly when no later duplicate's reference, with
      '#' and its id appended, is already some row's reference for that wallet and reason. */
  lemma {:induction false} UniqueIff(rows: seq<Row>, tie: seq<nat>)
    requires Table(rows, tie)
    ensures Unique(Migrated(rows, tie)) <==> forall i: nat, j: nat :: !Clash(rows, tie, i, j)
  {
    forall i: nat, j: nat | Clash(rows, tie, i, j) ensures !Unique(Migrated(rows, tie)) {
      ClashBreaksIndex(rows, tie, i, j);
    }
    if !Unique(Migrated(rows, tie)) {
      var i, j :| 0 <= i < |rows| && 0 <= j < |rows| && i != j &&
        SameGroup(Migrated(rows, tie)[i], Migrated(rows, tie)[j]);
      DuplicateMeansClash(rows, tie, i, j);
    }
  }

  /** No reference with a '#', as before the migration: the index can be created. */
  lemma {:induction false} UniqueWithoutMarks(rows: seq<Row>, tie: seq<nat>)
    requires Table(rows, tie)
    requires forall i :: 0 <= i < |rows| && rows[i].reference.Some? ==> !Marked(rows[i].reference.value)
    ensures Unique(Migrated(rows, tie))
  {
    UniqueIff(rows, tie);
    forall i: nat, j: nat | i < |rows| && rows[i].reference.Some? ensures !Clash(rows, tie, i, j) {
      var s := rows[i].reference.value + "#" + rows[i].id;
      assert s[|rows[i].reference.value|] == '#';
    }
  }

  /** One reference that already looks disambiguated makes the index creation fail. */
  lemma MarkedReferenceCanClash()
    ensures var rows := [Row("a", 1, 1, Some("p"), 1, 5), Row("b", 1, 1, Some("p"), 2, 5),
                         Row("c", 1, 1, Some("p#b"), 3, 5)];
      Table(rows, [0, 1, 2]) && !Unique(Migrated(rows, [0, 1, 2]))
  {
    var rows := [Row("a", 1, 1, Some("p"), 1, 5), Row("b", 1, 1, Some("p"), 2, 5), Row("c", 1, 1, Some("p#b"), 3, 5)];
    LaterIff(rows, [0, 1, 2], 1);
    assert SameGroup(rows[0], rows[1]) && Before(rows, [0, 1, 2], 0, 1);
    assert "p" + "#" + "b" == "p#b";
    assert Clash(rows, [0, 1, 2], 1, 2);
    ClashBreaksIndex(rows, [0, 1, 2], 1, 2);
  }

  // ------------------------------------------------------- conservation

  function SumOf(rows: seq<Row>, wallet: nat): int {
    if rows == [] then 0
    else SumOf(rows[..|rows| - 1], wallet)
         + if rows[|rows| - 1].wallet == wallet then rows[|rows| - 1].amount else 0
  }

  lemma {:induction false} SameMoneySameSum(a: seq<Row>, b: seq<Row>, wallet: nat)
    requires |a| == |b| && forall i :: 0 <= i < |a| ==> a[i].wallet == b[i].wallet && a[i].amount == b[i].amount
    ensures SumOf(a, wallet) == SumOf(b, wallet)
  {
    if a != [] {
      SameMoneySameSum(a[..|a| - 1], b[..|b| - 1], wallet);
    }
  }

  /** Nothing but later duplicates' references changes: the earliest row of each group, rows
      without a reference, every amount and every wallet's sum stay. */
  lemma {:induction false} MoneyIsConserved(rows: seq<Row>, tie: seq<nat>, wallet: nat, i: nat)
    requires Table(rows, tie) && i < |rows|
    ensures |Migrated(rows, tie)| == |rows| && SumOf(Migrated(rows, tie), wallet) == SumOf(rows, wallet)
    ensures Migrated(rows, tie)[i].(reference := None) == rows[i].(reference := None)
    ensures Migrated(rows, tie)[i] != rows[i] <==>
      exists j: nat :: j < |rows| && SameGroup(rows[j], rows[i]) && Before(rows, tie, j, i)
  {
    LaterIff(rows, tie, i);
    SameMoneySameSum(Migrated(rows, tie), rows, wallet);
    assert rows[i].reference.Some? ==> |Disambiguated(rows[i]).reference.value| > |rows[i].reference.value|;
  }

  /** It changes nothing exactly when there was nothing to do. */
  lemma {:induction false} NoOpIff(rows: seq<Row>, tie: seq<nat>)
    requires Table(rows, tie)
    ensures Migrated(rows, tie) == rows <==> Unique(rows)
  {
    if !Unique(rows) {
      var i, j :| 0 <= i < |rows| && 0 <= j < |rows| && i != j && SameGroup(rows[i], rows[j]);
      FirstIsUnique(rows, tie, i, j);
      var late := if RowNumber(rows, tie, i) > 1 then i else j;
      MoneyIsConserved(rows, tie, 0, late);
      LaterIff(rows, tie, late);
    } else {
      forall i | 0 <= i < |rows| ensures Migrated(rows, tie)[i] == rows[i] {
        MoneyIsConserved(rows, tie, 0, i);
        forall j: nat | j < |rows| && SameGroup(rows[j], rows[i]) ensures !Before(rows, tie, j, i) {
          assert j == i;
        }
      }
    }
  }

  // -------------------------------------------------------- in its own form

  /** The window: every row with a reference counts the rows of its group that come before it. */
  method Rank(rows: seq<Row>, tie: seq<nat>) returns (ranked: seq<nat>)
    requires |tie| == |rows|
    ensures |ranked| == |rows|
    ensures forall k :: 0 <= k < |rows| ==> ranked[k] == RowNumber(rows, tie, k)
    ensures forall j, k | 0 <= j < |rows| && 0 <= k < |rows| ::
      SameGroup(rows[j], rows[k]) && Before(rows, tie, j, k) ==> ranked[j] < ranked[k]
    ensures forall k :: 0 <= k < |rows| && rows[k].reference.Some? ==> 1 <= ranked[k] <= |Group(rows, k)|
  {
    ranked := [];
    for i := 0 to |rows|
      invariant |ranked| == i
      invariant forall k :: 0 <= k < i ==> ranked[k] == RowNumber(rows, tie, k)
    {
      var rank := 1;
      assert EarlierAmong(rows, tie, i, 0) == {};
      for j := 0 to |rows|
        invariant rank == 1 + |EarlierAmong(rows, tie, i, j)|
      {
        EarlierNext(rows, tie, i, j);
        if SameGroup(rows[j], rows[i]) && Before(rows, tie, j, i) { rank := rank + 1; }
      }
      assert EarlierAmong(rows, tie, i, |rows|) == Earlier(rows, tie, i);
      ranked := ranked + [rank];
    }
    RankProperties(rows, tie);
  }

  ghost function EarlierAmong(rows: seq<Row>, tie: seq<nat>, i: nat, n: nat): set<nat>
    requires i < |rows| && |tie| == |rows| && n <= |rows|
  {
    set j: nat | j < n && SameGroup(rows[j], rows[i]) && Before(rows, tie, j, i)
  }

  lemma EarlierNext(rows: seq<Row>, tie: seq<nat>, i: nat, j: nat)
    requires i < |rows| && |tie| == |rows| && j < |rows|
    ensures |EarlierAmong(rows, tie, i, j + 1)| == |EarlierAmong(rows, tie, i, j)|
      + if SameGroup(rows[j], rows[i]) && Before(rows, tie, j, i) then 1 else 0
  {
    assert EarlierAmong(rows, tie, i, j + 1) == EarlierAmong(rows, tie, i, j)
      + if SameGroup(rows[j], rows[i]) && Before(rows, tie, j, i) then {j} else {};
  }

  lemma RankProperties(rows: seq<Row>, tie: seq<nat>)
    requires |tie| == |rows|
    ensures forall j: nat, k: nat | j < |rows| && k < |rows| ::
      SameGroup(rows[j], rows[k]) && Before(rows, tie, j, k) ==> RowNumber(rows, tie, j) < RowNumber(rows, tie, k)
    ensures forall k: nat :: k < |rows| && rows[k].reference.Some? ==>
      1 <= RowNumber(rows, tie, k) <= |Group(rows, k)|
  {
    forall j: nat, k: nat | j < |rows| && k < |rows| && SameGroup(rows[j], rows[k]) && Before(rows, tie, j, k)
      ensures RowNumber(rows, tie, j) < RowNumber(rows, tie, k)
    {
      NumbersFollowOrder(rows, tie, j, k);
    }
    forall k: nat | k < |rows| && rows[k].reference.Some? ensures 1 <= RowNumber(rows, tie, k) <= |Group(rows, k)| {
      NumberFits(rows, tie, k);
    }
  }

  method Rename(rows: array<Row>, ranked: seq<nat>)
    requires |ranked| == rows.Length
    modifies rows
    ensures forall k :: 0 <= k < rows.Length ==> rows[k] == NewRow(old(rows[k]), ranked[k])
  {
    for i := 0 to rows.Length
      invariant forall k :: 0 <= k < i ==> rows[k] == NewRow(old(rows[k]), ranked[k])
      invariant forall k :: i <= k < rows.Length ==> rows[k] == old(rows[k])
    {
      var row := rows[i];
      if row.reference.Some? && ranked[i] > 1 {
        rows[i] := row.(reference := Some(row.reference.value + "#" + row.id));
      }
    }
  }

  /** The statement: the ranking is read off the whole table, then the rows are rewritten. */
  method Migrate(rows: array<Row>, tie: seq<nat>)
    requires |tie| == rows.Length
    modifies rows
    ensures rows[..] == Migrated(old(rows[..]), tie)
  {
    var snapshot := rows[..];
    var ranked := Rank(snapshot, tie);
    Rename(rows, ranked);
    forall k | 0 <= k < |snapshot| ensures rows[..][k] == Migrated(snapshot, tie)[k] {
      assert rows[k] == NewRow(snapshot[k], ranked[k]);
    }
  }
}
