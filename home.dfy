/**
 * The home page's grouping of the car list by category (src/pages/Home.tsx): a loop
 * that creates a key on first sight of a category and appends each car to its group.
 */
module Home {
  import Seqs
  import opened Js

  /** A car as the Supabase-backed listing hook returns it (the fields the home page uses). */
  datatype Listing = Listing(id: string, title: string, category: string, year: int)

  function InCategory(k: string): Listing -> bool {
    (car: Listing) => car.category == k
  }

  /** The cars of category `k`, in list order. */
  function CarsIn(cars: seq<Listing>, k: string): seq<Listing> {
    Seqs.Filter(cars, InCategory(k))
  }

  function Categories(cars: seq<Listing>): set<string> {
    set car | car in cars :: car.category
  }

  /** Reference definition of the grouping: one group per category present, holding its cars. */
  function Grouping(cars: seq<Listing>): map<string, seq<Listing>> {
    map k | k in Categories(cars) :: CarsIn(cars, k)
  }

  /**
   * The property names a plain `{}` inherits from `Object.prototype`. Reading any of
   * them gives a truthy value (a function, or the prototype itself for '__proto__')
   * that has no `push`.
   */
  const InheritedKeys: set<string> := {
    "constructor", "hasOwnProperty", "isPrototypeOf", "propertyIsEnumerable",
    "toString", "toLocaleString", "valueOf", "__proto__",
    "__defineGetter__", "__defineSetter__", "__lookupGetter__", "__lookupSetter__"}

  /** Some car's category names an inherited property. */
  predicate HasInheritedCategory(cars: seq<Listing>) {
    exists i :: 0 <= i < |cars| && cars[i].category in InheritedKeys
  }

  /**
   * `carsByCategory`: the `forEach` loop over the cars. A category named after an
   * inherited property makes the loop throw a TypeError (and the render with it);
   * otherwise the loop builds the reference grouping.
   */
  method GroupByCategory(cars: seq<Listing>) returns (grouped: Completion<map<string, seq<Listing>>>)
    ensures grouped.Thrown? <==> HasInheritedCategory(cars)
    ensures grouped.Thrown? ==> grouped.error == TypeError
    ensures grouped.Normal? ==> grouped.value == Grouping(cars)
  {
    var g := map[];
    var i := 0;
    while i < |cars|
      invariant 0 <= i <= |cars|
      invariant !HasInheritedCategory(cars[..i])
      invariant g == Grouping(cars[..i])
    {
      var car := cars[i];
      assert cars[..i + 1] == cars[..i] + [car];
      GroupingSnoc(cars[..i], car);
      InheritedKeysNeverGrouped(cars[..i]);
      var step := AddToGroup(g, car);
      if step.Thrown? {
        assert cars[i].category in InheritedKeys;
        return step;
      }
      g := step.value;
      i := i + 1;
      assert !HasInheritedCategory(cars[..i]) by {
        forall j | 0 <= j < i ensures cars[..i][j].category !in InheritedKeys {
          if j < i - 1 {
            assert cars[..i][j] == cars[..i - 1][j];
          }
        }
      }
    }
    assert cars[..|cars|] == cars;
    grouped := Normal(g);
  }

  /**
   * The loop body: `grouped[car.category]` is falsy only for a category with no
   * group of its own and no inherited property; such a category gets its empty
   * group. Then `push` appends the car, and throws when the value read is inherited.
   */
  method AddToGroup(grouped: map<string, seq<Listing>>, car: Listing) returns (r: Completion<map<string, seq<Listing>>>)
    ensures r.Thrown? <==> car.category !in grouped && car.category in InheritedKeys
    ensures r.Thrown? ==> r.error == TypeError
    ensures r.Normal? ==>
      r.value == grouped[car.category := (if car.category in grouped then grouped[car.category] else []) + [car]]
  {
    var g := grouped;
    var present := car.category in g || car.category in InheritedKeys;
    if !present {
      g := g[car.category := []];
    }
    if car.category !in g {
      return Thrown(TypeError);
    }
    r := Normal(g[car.category := g[car.category] + [car]]);
  }

  /** Without an inherited category among the cars, no group is keyed by one. */
  lemma InheritedKeysNeverGrouped(cars: seq<Listing>)
    requires !HasInheritedCategory(cars)
    ensures forall k :: k in InheritedKeys ==> k !in Grouping(cars)
  {
  }

  lemma CarsInAbsent(cars: seq<Listing>, k: string)
    requires k !in Categories(cars)
    ensures CarsIn(cars, k) == []
  {
    forall i | 0 <= i < |cars| ensures !InCategory(k)(cars[i]) {
      assert cars[i] in cars;
    }
    Seqs.FilterKeepsNone(cars, InCategory(k));
  }

  /** One more car extends its own group, creating it when the category is new. */
  lemma GroupingSnoc(cars: seq<Listing>, car: Listing)
    ensures var g := Grouping(cars);
            Grouping(cars + [car]) == g[car.category := (if car.category in g then g[car.category] else []) + [car]]
  {
    var g := Grouping(cars);
    var g' := Grouping(cars + [car]);
    var h := g[car.category := (if car.category in g then g[car.category] else []) + [car]];
    assert Categories(cars + [car]) == Categories(cars) + {car.category};
    forall k | k in g'
      ensures g'[k] == h[k]
    {
      Seqs.FilterSnoc(cars, car, InCategory(k));
      if k == car.category && k !in g {
        CarsInAbsent(cars, k);
      }
    }
    assert g'.Keys == h.Keys;
  }

  // ---------------------------------------------------------------------------
  // Properties of the grouping

  /** Each car is in the group of its own category and in no other group. */
  lemma EveryCarInItsOwnGroup(cars: seq<Listing>)
    ensures forall car :: car in cars ==> car.category in Grouping(cars) && car in Grouping(cars)[car.category]
    ensures forall k, car :: k in Grouping(cars) && car in Grouping(cars)[k] ==> car in cars && car.category == k
  {
    forall k | k in Categories(cars) {
      Seqs.FilterMembers(cars, InCategory(k));
    }
  }

  /** Within a group, cars keep their relative order from the input. */
  lemma GroupsKeepInputOrder(cars: seq<Listing>)
    ensures forall k :: k in Grouping(cars) ==> Seqs.Subsequence(Grouping(cars)[k], cars)
  {
    forall k | k in Grouping(cars) {
      Seqs.FilterIsSubsequence(cars, InCategory(k));
    }
  }

  /** The keys are exactly the categories present, and no group is empty. */
  lemma KeysAreCategoriesAndGroupsNonEmpty(cars: seq<Listing>)
    ensures Grouping(cars).Keys == Categories(cars)
    ensures forall k :: k in Grouping(cars) ==> Grouping(cars)[k] != []
  {
    forall k | k in Grouping(cars) ensures Grouping(cars)[k] != [] {
      var car :| car in cars && car.category == k;
      Seqs.FilterMembers(cars, InCategory(k));
    }
  }

  /** No groups exactly when there are no cars: the condition for the empty-state message. */
  lemma NoGroupsIffNoCars(cars: seq<Listing>)
    ensures |Grouping(cars)| == 0 <==> cars == []
  {
    if cars != [] {
      assert cars[0].category in Grouping(cars);
    }
  }

  /** Some key of a non-empty map. */
  ghost function Pick<V>(m: map<string, V>): (k: string)
    requires |m| > 0
    ensures k in m
  {
    var k :| k in m; k
  }

  lemma RemoveShrinks<V>(m: map<string, V>, k: string)
    requires k in m
    ensures |m - {k}| == |m| - 1
  {
    assert (m - {k}).Keys == m.Keys - {k};
  }

  /** Sum of the lengths of the groups of a map. */
  ghost function TotalSize<V>(m: map<string, seq<V>>): nat
    decreases |m|
  {
    if |m| == 0 then 0
    else
      var k := Pick(m);
      RemoveShrinks(m, k);
      |m[k]| + TotalSize(m - {k})
  }

  lemma {:induction false} TotalSizeRemove<V>(m: map<string, seq<V>>, k: string)
    requires k in m
    ensures TotalSize(m) == |m[k]| + TotalSize(m - {k})
    decreases |m|
  {
    var j := Pick(m);
    if j != k {
      RemoveShrinks(m, j);
      RemoveShrinks(m, k);
      TotalSizeRemove(m - {j}, k);
      TotalSizeRemove(m - {k}, j);
      assert m - {j} - {k} == m - {k} - {j};
    }
  }

  lemma TotalSizeUpdate<V>(m: map<string, seq<V>>, k: string, v: seq<V>)
    ensures TotalSize(m[k := v]) == TotalSize(m) - (if k in m then |m[k]| else 0) + |v|
  {
    TotalSizeRemove(m[k := v], k);
    UpdateThenRemove(m, k, v);
    if k in m {
      TotalSizeRemove(m, k);
    } else {
      RemoveAbsent(m, k);
    }
  }

  lemma UpdateThenRemove<V>(m: map<string, V>, k: string, v: V)
    ensures m[k := v] - {k} == m - {k}
  {
  }

  lemma RemoveAbsent<V>(m: map<string, V>, k: string)
    requires k !in m
    ensures m - {k} == m
  {
  }

  /** The group sizes add up to the number of cars: the groups partition the list. */
  lemma {:induction false} GroupSizesSumToLength(cars: seq<Listing>)
    ensures TotalSize(Grouping(cars)) == |cars|
    decreases |cars|
  {
    if cars == [] {
      NoGroupsIffNoCars(cars);
    } else {
      var rest, car := cars[..|cars| - 1], cars[|cars| - 1];
      assert cars == rest + [car];
      GroupSizesSumToLength(rest);
      GroupingSnocSize(rest, car);
    }
  }

  /** One more car adds one to the total size of the groups. */
  lemma GroupingSnocSize(cars: seq<Listing>, car: Listing)
    ensures TotalSize(Grouping(cars + [car])) == TotalSize(Grouping(cars)) + 1
  {
    var g := Grouping(cars);
    var v := (if car.category in g then g[car.category] else []) + [car];
    GroupingSnoc(cars, car);
    TotalSizeUpdate(g, car.category, v);
  }
}
