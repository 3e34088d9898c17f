/**
 * The route table: a dictionary from the key "origin-destination" to the
 * flights of that route, built once from a list of registered routes.
 */
module FlightRoutes {
  import opened Flights

  /** One registered route: its origin and destination codes and its flight. */
  datatype Route = Route(origin: string, destination: string, flight: Flight)

  const PekSha := Route("PEK", "SHA", Flight("PEK", "SHA", "北京首都", "上海虹桥", "07:00 AM", "09:20 AM",
                                             "2h20m", "直飞", "¥1280", "国航", false))
  const PekCan := Route("PEK", "CAN", Flight("PEK", "CAN", "北京首都", "广州白云", "08:00 AM", "11:15 AM",
                                             "3h15m", "直飞", "¥1580", "南航", false))
  const ShaSzx := Route("SHA", "SZX", Flight("SHA", "SZX", "上海虹桥", "深圳宝安", "09:30 AM", "12:00 PM",
                                             "2h30m", "直飞", "¥1380", "东航", false))

  /** The catalogue, in registration order. */
  const Catalogue: seq<Route> := [PekSha, PekCan, ShaSzx]

  /** The dictionary key of a pair, `"\(origin)-\(destination)"`. */
  function Key(origin: string, destination: string): (k: string)
    ensures |k| == |origin| + 1 + |destination| && k[|origin|] == '-'
    ensures k[..|origin|] == origin && k[|origin| + 1..] == destination
  {
    origin + "-" + destination
  }

  function RouteKey(r: Route): (key: string)
  {
    Key(r.origin, r.destination)
  }

  predicate HyphenFree(s: string)
  {
    '-' !in s
  }

  /** Airport codes without hyphens: a key then names exactly one pair. */
  predicate HyphenFreeCodes(routes: seq<Route>)
  {
    forall i :: 0 <= i < |routes| ==> HyphenFree(routes[i].origin) && HyphenFree(routes[i].destination)
  }

  /** Every registered flight departs from its route's origin and lands at its destination. */
  predicate Consistent(routes: seq<Route>)
  {
    forall i :: 0 <= i < |routes| ==>
      routes[i].flight.departure == routes[i].origin && routes[i].flight.arrival == routes[i].destination
  }

  /** At most one route per key. */
  predicate DistinctKeys(routes: seq<Route>)
  {
    forall i, j :: 0 <= i < j < |routes| ==> RouteKey(routes[i]) != RouteKey(routes[j])
  }

  /**
   * A key built from hyphen-free codes is built from no other pair, whatever
   * the other pair's codes contain.
   */
  lemma KeyInjective(o1: string, d1: string, o2: string, d2: string)
    requires HyphenFree(o1) && HyphenFree(d1)
    requires Key(o1, d1) == Key(o2, d2)
    ensures o1 == o2 && d1 == d2
  {
    var k := Key(o1, d1);
    assert k[|o2|] == '-';
  }

  /**
   * The dictionary the registration loop leaves behind: every key of the
   * routes, each holding the one flight of the last route with that key.
   */
  function RouteMapOf(routes: seq<Route>): (table: map<string, seq<Flight>>)
  {
    if routes == [] then map[]
    else
      var last := routes[|routes| - 1];
      RouteMapOf(routes[..|routes| - 1])[RouteKey(last) := [last.flight]]
  }

  /**
   * The map's keys are exactly the routes' keys, and each key holds a
   * one-element list with the flight of a route of that key.
   */
  lemma {:induction false} RouteMapOfSpec(routes: seq<Route>)
    ensures forall k :: k in RouteMapOf(routes) <==> exists i :: 0 <= i < |routes| && RouteKey(routes[i]) == k
    ensures forall k :: k in RouteMapOf(routes) ==> |RouteMapOf(routes)[k]| == 1
    ensures forall k :: k in RouteMapOf(routes) ==>
              exists i :: 0 <= i < |routes| && RouteKey(routes[i]) == k && RouteMapOf(routes)[k] == [routes[i].flight]
  {
    if routes != [] {
      var init := routes[..|routes| - 1];
      var last := routes[|routes| - 1];
      RouteMapOfSpec(init);
      assert forall i :: 0 <= i < |init| ==> init[i] == routes[i];
      var m := RouteMapOf(routes);
      forall k | k in m
        ensures exists i :: 0 <= i < |routes| && RouteKey(routes[i]) == k && m[k] == [routes[i].flight]
      {
        if k == RouteKey(last) {
          assert RouteKey(routes[|routes| - 1]) == k && m[k] == [routes[|routes| - 1].flight];
        } else {
          assert m == RouteMapOf(init)[RouteKey(last) := [last.flight]];
          assert k in RouteMapOf(init) && m[k] == RouteMapOf(init)[k];
          var i :| 0 <= i < |init| && RouteKey(init[i]) == k && RouteMapOf(init)[k] == [init[i].flight];
          assert RouteKey(routes[i]) == k && m[k] == [routes[i].flight];
        }
      }
    }
  }

  /** The static `routeMap` initializer: one assignment `map[key] = [flight]` per route. */
  method BuildRouteMap(routes: seq<Route>) returns (m: map<string, seq<Flight>>)
    ensures m == RouteMapOf(routes)
  {
    m := map[];
    for i := 0 to |routes|
      invariant m == RouteMapOf(routes[..i])
    {
      var key := Key(routes[i].origin, routes[i].destination);
      m := m[key := [routes[i].flight]];
      assert routes[..i + 1][..i] == routes[..i];
    }
    assert routes[..|routes|] == routes;
  }

  /** `routeMap[key] ?? []`. */
  function Lookup(m: map<string, seq<Flight>>, departure: string, arrival: string): (r: seq<Flight>)
  {
    var key := Key(departure, arrival);
    if key in m then m[key] else []
  }

  /** The static `routeMap`. */
  const RouteMap: map<string, seq<Flight>> := RouteMapOf(Catalogue)

  /** `FlightRoutes.flights(from:to:)`. */
  function FlightsBetween(departure: string, arrival: string): (r: seq<Flight>)
  {
    Lookup(RouteMap, departure, arrival)
  }

  /** A route registered after every other route with its key is found by that pair. */
  lemma {:induction false} RegisteredPairFound(routes: seq<Route>, i: nat)
    requires i < |routes|
    requires forall j :: i < j < |routes| ==> RouteKey(routes[j]) != RouteKey(routes[i])
    ensures Lookup(RouteMapOf(routes), routes[i].origin, routes[i].destination) == [routes[i].flight]
  {
    var init := routes[..|routes| - 1];
    if i < |routes| - 1 {
      assert forall j :: 0 <= j < |init| ==> init[j] == routes[j];
      RegisteredPairFound(init, i);
    }
  }

  /** A pair no route registers (with hyphen-free codes) yields the empty list, not an error. */
  lemma UnregisteredPairIsEmpty(routes: seq<Route>, departure: string, arrival: string)
    requires HyphenFreeCodes(routes)
    requires forall i :: 0 <= i < |routes| ==> !(routes[i].origin == departure && routes[i].destination == arrival)
    ensures Lookup(RouteMapOf(routes), departure, arrival) == []
  {
    RouteMapOfSpec(routes);
    forall i | 0 <= i < |routes| ensures RouteKey(routes[i]) != Key(departure, arrival) {
      if RouteKey(routes[i]) == Key(departure, arrival) {
        KeyInjective(routes[i].origin, routes[i].destination, departure, arrival);
      }
    }
  }

  /** Every looked-up flight serves exactly the pair that was asked for; there is at most one. */
  lemma LookupMatchesQuery(routes: seq<Route>, departure: string, arrival: string)
    requires HyphenFreeCodes(routes) && Consistent(routes)
    ensures |Lookup(RouteMapOf(routes), departure, arrival)| <= 1
    ensures forall f :: f in Lookup(RouteMapOf(routes), departure, arrival) ==>
              f.departure == departure && f.arrival == arrival
  {
    RouteMapOfSpec(routes);
    var m := RouteMapOf(routes);
    var key := Key(departure, arrival);
    if key in m {
      var i :| 0 <= i < |routes| && RouteKey(routes[i]) == key && m[key] == [routes[i].flight];
      KeyInjective(routes[i].origin, routes[i].destination, departure, arrival);
    }
  }

  lemma CatalogueWellFormed()
    ensures HyphenFreeCodes(Catalogue) && Consistent(Catalogue) && DistinctKeys(Catalogue)
  {
    CatalogueHyphenFree();
    CatalogueDistinct();
  }

  lemma CatalogueHyphenFree()
    ensures HyphenFreeCodes(Catalogue) && Consistent(Catalogue)
  {
    assert HyphenFree("PEK") && HyphenFree("SHA") && HyphenFree("CAN") && HyphenFree("SZX");
  }

  lemma CatalogueDistinct()
    ensures DistinctKeys(Catalogue)
  {
    var k0, k1, k2 := RouteKey(PekSha), RouteKey(PekCan), RouteKey(ShaSzx);
    assert k0[4] == 'S' && k1[4] == 'C';
    assert k0[0] == 'P' && k1[0] == 'P' && k2[0] == 'S';
    forall i, j | 0 <= i < j < |Catalogue| ensures RouteKey(Catalogue[i]) != RouteKey(Catalogue[j]) {
      if i == 0 && j == 1 {
        assert k0[4] != k1[4];
      } else if i == 0 {
        assert k0[0] != k2[0];
      } else {
        assert k1[0] != k2[0];
      }
    }
  }

  /** Every catalogue route is found by its own pair. */
  lemma CatalogueRoutesFound(i: nat)
    requires i < |Catalogue|
    ensures FlightsBetween(Catalogue[i].origin, Catalogue[i].destination) == [Catalogue[i].flight]
  {
    CatalogueWellFormed();
    RegisteredPairFound(Catalogue, i);
  }

  /** Looking up PEK to SHA gives the one 07:00 AM Air China flight at ¥1280; the reverse pair has none. */
  lemma PekShaExample(from: string, to: string)
    requires from == "PEK" && to == "SHA"
    ensures |FlightsBetween(from, to)| == 1
    ensures FlightsBetween(from, to)[0].departureTime == "07:00 AM"
    ensures FlightsBetween(from, to)[0].price == "¥1280"
    ensures FlightsBetween(from, to)[0].airline == "国航"
    ensures FlightsBetween(to, from) == []
  {
    CatalogueRoutesFound(0);
    assert Catalogue[0] == PekSha && PekSha.origin == from && PekSha.destination == to;
    assert FlightsBetween(from, to) == [PekSha.flight];
    CatalogueHyphenFree();
    forall i | 0 <= i < |Catalogue| ensures !(Catalogue[i].origin == to && Catalogue[i].destination == from) {
      assert Catalogue[i] == PekSha || Catalogue[i] == PekCan || Catalogue[i] == ShaSzx;
    }
    UnregisteredPairIsEmpty(Catalogue, to, from);
  }

  /**
   * `routeMap.values.flatMap { $0 }`. A dictionary's iteration order is not
   * specified, so the order in which the keys are visited is a parameter.
   */
  function AllRoutes(m: map<string, seq<Flight>>, order: seq<string>): (r: seq<Flight>)
    requires forall k :: k in order ==> k in m
  {
    if order == [] then [] else m[order[0]] + AllRoutes(m, order[1..])
  }

  /** order visits every key of m exactly once. */
  ghost predicate Enumerates(m: map<string, seq<Flight>>, order: seq<string>)
  {
    && (forall k :: k in order <==> k in m)
    && (forall i, j :: 0 <= i < j < |order| ==> order[i] != order[j])
  }

  /** The flattening holds the flights of the visited keys and nothing else. */
  lemma {:induction false} AllRoutesContents(m: map<string, seq<Flight>>, order: seq<string>)
    requires forall k :: k in order ==> k in m
    ensures forall f :: f in AllRoutes(m, order) <==> exists k :: k in order && f in m[k]
  {
    if order != [] {
      AllRoutesContents(m, order[1..]);
      forall f | f in AllRoutes(m, order) ensures exists k :: k in order && f in m[k] {
        if f !in m[order[0]] {
          assert f in AllRoutes(m, order[1..]);
          var k :| k in order[1..] && f in m[k];
          assert k in order;
        }
      }
      forall f | exists k :: k in order && f in m[k] ensures f in AllRoutes(m, order) {
        var k :| k in order && f in m[k];
        if k != order[0] {
          assert k in order[1..];
        }
      }
    }
  }

  lemma {:induction false} AllRoutesLengthIsOrderLength(m: map<string, seq<Flight>>, order: seq<string>)
    requires forall k :: k in order ==> k in m
    requires forall k :: k in m ==> |m[k]| == 1
    ensures |AllRoutes(m, order)| == |order|
  {
    if order != [] {
      AllRoutesLengthIsOrderLength(m, order[1..]);
    }
  }

  lemma {:induction false} DistinctCardinality(order: seq<string>)
    requires forall i, j :: 0 <= i < j < |order| ==> order[i] != order[j]
    ensures |set k | k in order| == |order|
  {
    if order != [] {
      var rest := order[1..];
      DistinctCardinality(rest);
      assert (set k | k in order) == {order[0]} + (set k | k in rest);
      assert order[0] !in rest by {
        forall j | 0 <= j < |rest| ensures rest[j] != order[0] {
          assert rest[j] == order[j + 1];
        }
      }
    }
  }

  /** With one flight per key, `allRoutes` has exactly one entry per key. */
  lemma AllRoutesOnePerKey(m: map<string, seq<Flight>>, order: seq<string>)
    requires Enumerates(m, order)
    requires forall k :: k in m ==> |m[k]| == 1
    ensures |AllRoutes(m, order)| == |m|
  {
    AllRoutesLengthIsOrderLength(m, order);
    DistinctCardinality(order);
    assert m.Keys == set k | k in order;
  }

  /** The catalogue's dictionary written out: three keys, one flight each. */
  lemma RouteMapContents()
    ensures RouteMap == map[RouteKey(Catalogue[0]) := [Catalogue[0].flight],
                            RouteKey(Catalogue[1]) := [Catalogue[1].flight],
                            RouteKey(Catalogue[2]) := [Catalogue[2].flight]]
  {
    var r0, r1, r2 := Catalogue[0], Catalogue[1], Catalogue[2];
    assert Catalogue[..2][..1] == [r0];
    assert [r0][..0] == [];
    assert RouteMapOf([r0]) == map[RouteKey(r0) := [r0.flight]];
    assert Catalogue[..2] == [r0, r1];
    assert [r0, r1][..1] == [r0];
    assert RouteMapOf([r0, r1]) == map[RouteKey(r0) := [r0.flight], RouteKey(r1) := [r1.flight]];
    assert Catalogue == [r0, r1, r2];
    assert [r0, r1, r2][..2] == [r0, r1];
  }

  /** The flattening of a three-key dictionary with one flight per key. */
  lemma AllRoutesOfThree(m: map<string, seq<Flight>>, order: seq<string>,
                         k0: string, k1: string, k2: string, f0: Flight, f1: Flight, f2: Flight)
    requires k0 != k1 && k0 != k2 && k1 != k2
    requires m == map[k0 := [f0], k1 := [f1], k2 := [f2]]
    requires Enumerates(m, order)
    ensures |AllRoutes(m, order)| == 3
    ensures forall f :: f in AllRoutes(m, order) <==> f == f0 || f == f1 || f == f2
  {
    assert forall k :: k in m <==> k == k0 || k == k1 || k == k2;
    ThreeKeysLength(m, order, k0, k1, k2);
    AllRoutesContents(m, order);
    forall f ensures f in AllRoutes(m, order) <==> f == f0 || f == f1 || f == f2 {
      if f in AllRoutes(m, order) {
        var k :| k in order && f in m[k];
        assert k == k0 || k == k1 || k == k2;
      } else {
        assert k0 in order && k1 in order && k2 in order;
        assert f0 in m[k0] && f1 in m[k1] && f2 in m[k2];
      }
    }
  }

  lemma ThreeKeysLength(m: map<string, seq<Flight>>, order: seq<string>, k0: string, k1: string, k2: string)
    requires k0 != k1 && k0 != k2 && k1 != k2
    requires forall k :: k in m <==> k == k0 || k == k1 || k == k2
    requires forall k :: k in m ==> |m[k]| == 1
    requires Enumerates(m, order)
    ensures |AllRoutes(m, order)| == 3
  {
    DistinctCardinality(order);
    SetOfOrder(order, {k0, k1, k2});
    assert |{k0, k1, k2}| == 3;
    AllRoutesLengthIsOrderLength(m, order);
  }

  lemma SetOfOrder(order: seq<string>, keys: set<string>)
    requires forall k :: k in order <==> k in keys
    ensures (set k | k in order) == keys
  {
  }

  /** Whatever the iteration order, the catalogue's `allRoutes` is its three flights. */
  lemma CatalogueAllRoutes(order: seq<string>)
    requires Enumerates(RouteMap, order)
    ensures |AllRoutes(RouteMap, order)| == 3
    ensures forall f :: f in AllRoutes(RouteMap, order) <==>
              f == Catalogue[0].flight || f == Catalogue[1].flight || f == Catalogue[2].flight
  {
    var k0, k1, k2 := RouteKey(Catalogue[0]), RouteKey(Catalogue[1]), RouteKey(Catalogue[2]);
    RouteMapContents();
    assert k0 == "PEK-SHA" && k1 == "PEK-CAN" && k2 == "SHA-SZX";
    assert k0[4] != k1[4] && k0[0] != k2[0] && k1[0] != k2[0];
    AllRoutesOfThree(RouteMap, order, k0, k1, k2, Catalogue[0].flight, Catalogue[1].flight, Catalogue[2].flight);
  }
}
