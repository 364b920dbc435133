/** Driver discovery: the geo search over the pending set and the filter, map and sort chain
    of listNearby.  Distance is an abstract function of the pickup point. */
module Nearby {
  import opened Options
  import opened Rides
  import R = RideRecovery
  import RideRuns

  /** A member of the geo set with its distance from the searched point. */
  datatype Near = Near(id: nat, distance: nat)

  datatype Offer = Offer(ride: nat, distance: nat)

  /** What GEOSEARCH BYRADIUS ASC WITHDIST returns. */
  predicate GeoReply(found: seq<Near>, pending: map<nat, Place>, dist: Place -> nat, radius: nat) {
    && (forall n :: n in found ==> n.id in pending && n.distance == dist(pending[n.id]) <= radius)
    && (forall id :: id in pending && dist(pending[id]) <= radius ==> Near(id, dist(pending[id])) in found)
    && Distinct(found)
    && (forall i, j :: 0 <= i < j < |found| ==> found[i].distance <= found[j].distance)
  }

  predicate Distinct(found: seq<Near>) {
    forall i, j :: 0 <= i < j < |found| ==> found[i].id != found[j].id
  }

  predicate MayDiscover(w: World, user: nat) {
    user in w.drivers && w.drivers[user].online && w.drivers[user].available && w.drivers[user].approved
  }

  /** isRejectedByDriver answers "not rejected" when Redis cannot be asked. */
  predicate ShownAsRejected(w: World, ride: nat, user: nat, unreadable: set<nat>) {
    ride !in unreadable && (ride, user) in w.rejected
  }

  /** The two filters: a candidate row, not rejected by this driver. */
  predicate Offered(w: World, user: nat, unreadable: set<nat>, ride: nat)
    requires user in w.drivers
  {
    && ride < |w.rides| && w.rides[ride].status == REQUESTED && w.rides[ride].driver == None
    && w.rides[ride].vehicleType in w.drivers[user].vehicles
    && !ShownAsRejected(w, ride, user, unreadable)
  }

  /** distanceById over the search reply. */
  function DistanceOf(found: seq<Near>, ride: nat): Option<nat> {
    if found == [] then None
    else if found[|found| - 1].id == ride then Some(found[|found| - 1].distance)
    else DistanceOf(found[..|found| - 1], ride)
  }

  /** findManyByIds on the reply's ids, filtered and mapped: rows come in table order. */
  function Chosen(w: World, user: nat, found: seq<Near>, unreadable: set<nat>, upTo: nat): seq<Offer>
    requires user in w.drivers
  {
    if upTo == 0 then []
    else
      var r := upTo - 1;
      Chosen(w, user, found, unreadable, r)
      + (if DistanceOf(found, r).Some? && Offered(w, user, unreadable, r)
         then [Offer(r, DistanceOf(found, r).value)] else [])
  }

  /** Array.prototype.sort by distance: stable. */
  function Inserted(x: Offer, s: seq<Offer>): seq<Offer> {
    if s == [] || s[|s| - 1].distance <= x.distance then s + [x]
    else Inserted(x, s[..|s| - 1]) + [s[|s| - 1]]
  }

  function Sorted(s: seq<Offer>): seq<Offer> {
    if s == [] then [] else Inserted(s[|s| - 1], Sorted(s[..|s| - 1]))
  }

  /** `found` is the search reply, or empty when Redis is down; `unreadable` are the rides
      whose rejection set could not be read. */
  function ListNearby(w: World, user: nat, found: seq<Near>, unreadable: set<nat>): seq<Offer> {
    if !MayDiscover(w, user) || w.drivers[user].vehicles == map[] || found == [] then []
    else Sorted(Chosen(w, user, found, unreadable, |w.rides|))
  }

  // ---------------------------------------------------------------- results

  predicate Ascending(s: seq<Offer>) {
    forall i, j :: 0 <= i < j < |s| ==> s[i].distance <= s[j].distance
  }

  lemma {:induction false} InsertedMembers(x: Offer, s: seq<Offer>)
    ensures multiset(Inserted(x, s)) == multiset(s) + multiset{x}
    ensures forall y :: y in Inserted(x, s) ==> y == x || y in s
  {
    if s != [] {
      InsertedMembers(x, s[..|s| - 1]);
      assert s == s[..|s| - 1] + [s[|s| - 1]];
    }
  }

  lemma {:induction false} InsertedAscends(x: Offer, s: seq<Offer>)
    requires Ascending(s)
    ensures Ascending(Inserted(x, s))
  {
    if s != [] && s[|s| - 1].distance > x.distance {
      var front, last := s[..|s| - 1], s[|s| - 1];
      InsertedAscends(x, front);
      InsertedMembers(x, front);
      var t := Inserted(x, front);
      forall i | 0 <= i < |t| ensures t[i].distance <= last.distance {
        assert t[i] in t;
      }
    }
  }

  lemma {:induction false} SortedIs(s: seq<Offer>)
    ensures Ascending(Sorted(s)) && multiset(Sorted(s)) == multiset(s)
  {
    if s != [] {
      assert s == s[..|s| - 1] + [s[|s| - 1]];
      SortedIs(s[..|s| - 1]);
      InsertedAscends(s[|s| - 1], Sorted(s[..|s| - 1]));
      InsertedMembers(s[|s| - 1], Sorted(s[..|s| - 1]));
    }
  }

  lemma {:induction false} ChosenIs(w: World, user: nat, found: seq<Near>, unreadable: set<nat>,
      upTo: nat, r: nat, d: nat)
    requires user in w.drivers
    ensures Offer(r, d) in Chosen(w, user, found, unreadable, upTo) <==>
      r < upTo && DistanceOf(found, r) == Some(d) && Offered(w, user, unreadable, r)
  {
    if upTo > 0 { ChosenIs(w, user, found, unreadable, upTo - 1, r, d); }
  }

  predicate TableOrder(s: seq<Offer>) {
    forall i, j :: 0 <= i < j < |s| ==> s[i].ride < s[j].ride
  }

  lemma {:induction false} ChosenOnce(w: World, user: nat, found: seq<Near>, unreadable: set<nat>, upTo: nat)
    requires user in w.drivers
    ensures TableOrder(Chosen(w, user, found, unreadable, upTo))
  {
    if upTo > 0 {
      ChosenOnce(w, user, found, unreadable, upTo - 1);
      var front := Chosen(w, user, found, unreadable, upTo - 1);
      forall i | 0 <= i < |front| ensures front[i].ride < upTo - 1 {
        ChosenIs(w, user, found, unreadable, upTo - 1, front[i].ride, front[i].distance);
        assert front[i] in front;
      }
    }
  }

  lemma {:induction false} DistanceIs(found: seq<Near>, ride: nat, d: nat)
    requires Distinct(found)
    ensures DistanceOf(found, ride) == Some(d) <==> Near(ride, d) in found
  {
    if found != [] {
      var front, last := found[..|found| - 1], found[|found| - 1];
      assert found == front + [last];
      forall i | 0 <= i < |front| ensures front[i].id != last.id {
        assert found[i] == front[i];
      }
      DistanceIs(front, ride, d);
    }
  }

  lemma {:induction false} NearbyMembers(w: World, user: nat, found: seq<Near>, unreadable: set<nat>, r: nat, d: nat)
    ensures Offer(r, d) in ListNearby(w, user, found, unreadable) <==>
      && user in w.drivers && w.drivers[user].online && w.drivers[user].available && w.drivers[user].approved
      && r < |w.rides| && w.rides[r].status == REQUESTED && w.rides[r].driver == None
      && w.rides[r].vehicleType in w.drivers[user].vehicles
      && DistanceOf(found, r) == Some(d)
      && (r in unreadable || (r, user) !in w.rejected)
  {
    if MayDiscover(w, user) {
      var c := Chosen(w, user, found, unreadable, |w.rides|);
      ChosenIs(w, user, found, unreadable, |w.rides|, r, d);
      SortedIs(c);
      assert Offer(r, d) in Sorted(c) <==> Offer(r, d) in multiset(Sorted(c));
      assert Offer(r, d) in c <==> Offer(r, d) in multiset(c);
    }
  }

  /** Whatever Redis answers, the list is sorted, is the candidate rows each once, and offers
      only REQUESTED rides of an eligible type. */
  lemma {:induction false} NearbyIsSound(w: World, user: nat, found: seq<Near>, unreadable: set<nat>)
    ensures var s := ListNearby(w, user, found, unreadable);
      && Ascending(s)
      && (s != [] ==> user in w.drivers && TableOrder(Chosen(w, user, found, unreadable, |w.rides|)))
      && (s != [] ==> multiset(s) == multiset(Chosen(w, user, found, unreadable, |w.rides|)))
      && (forall x :: x in s ==>
            x.ride < |w.rides| && w.rides[x.ride].status == REQUESTED && user in w.drivers
            && w.rides[x.ride].vehicleType in w.drivers[user].vehicles)
  {
    var s := ListNearby(w, user, found, unreadable);
    if s != [] {
      SortedIs(Chosen(w, user, found, unreadable, |w.rides|));
      ChosenOnce(w, user, found, unreadable, |w.rides|);
      forall x | x in s ensures Offered(w, user, unreadable, x.ride) {
        NearbyMembers(w, user, found, unreadable, x.ride, x.distance);
      }
    }
  }

  /** In any state reached without Redis failures, the list is exactly the naive scan of the
      ride table: every REQUESTED ride in radius, of an eligible type, that this driver has not
      rejected, with its distance. */
  lemma {:induction false} NearbyIsTheScan(w0: World, steps: seq<RideRuns.Timed>, user: nat, found: seq<Near>,
                        dist: Place -> nat, radius: nat, ride: nat, d: nat)
    requires RideRuns.Fresh(w0)
    requires GeoReply(found, RideRuns.WholeRun(w0, steps).pending, dist, radius)
    ensures var w := RideRuns.WholeRun(w0, steps);
      Offer(ride, d) in ListNearby(w, user, found, {}) <==>
        && user in w.drivers && w.drivers[user].online && w.drivers[user].available && w.drivers[user].approved
        && ride < |w.rides| && w.rides[ride].status == REQUESTED
        && d == dist(w.rides[ride].pickup) <= radius
        && w.rides[ride].vehicleType in w.drivers[user].vehicles
        && (ride, user) !in w.rejected
  {
    var w := RideRuns.WholeRun(w0, steps);
    NearbyMembers(w, user, found, {}, ride, d);
    DistanceIs(found, ride, d);
    assert Near(ride, d) in found <==> ride in w.pending && d == dist(w.pending[ride]) <= radius;
    ReachedRow(w0, steps, ride);
  }

  lemma ReachedRow(w0: World, steps: seq<RideRuns.Timed>, ride: nat)
    requires RideRuns.Fresh(w0)
    ensures var w := RideRuns.WholeRun(w0, steps);
      && (ride in w.pending <==> ride < |w.rides| && w.rides[ride].status == REQUESTED)
      && (ride in w.pending ==> w.pending[ride] == w.rides[ride].pickup && w.rides[ride].driver == None)
  {
    var w := RideRuns.WholeRun(w0, steps);
    RideRuns.RunAgrees(w0, steps);
    RideRuns.IndexAndTrailAgree(w0, steps, ride);
    assert ride < |w.rides| ==> R.RowConsistent(w, w.rides[ride]);
  }
}
