/**
 * Consensus voting over the completions of one chunk: every fact is counted
 * once per completion whose mapped output contains it, and only facts whose
 * count reaches the threshold are kept.
 */
module Voting {
  import opened JsonValue
  import opened JsonAdapter

  /** A `Counter`: fact -> number of completions seen containing it. */
  type Counter<T> = map<T, nat>

  /** name -> Counter, one per kind of fact. */
  type Counts<T> = map<Json, Counter<T>>

  /** The `counter_dict` of `process_chunk`. */
  datatype Counters = Counters(
    objects: Counts<Entity>,
    objectProperties: Counts<Pair>,
    dataProperties: Counts<Pair>)

  const NoCounts: Counters := Counters(map[], map[], map[])

  /** `counter[x]`: a Counter answers 0 for a fact it has never seen. */
  function CountOf<T>(c: Counter<T>, x: T): nat {
    if x in c then c[x] else 0
  }

  /** The Counter under a name, empty when the name was never seen. */
  function CounterAt<T>(c: Counts<T>, k: Json): Counter<T> {
    if k in c then c[k] else map[]
  }

  /** `counter.update(facts)` for a set of facts: each of them is counted once more. */
  function Bump<T>(c: Counter<T>, facts: set<T>): (r: Counter<T>)
    ensures r.Keys == c.Keys + facts
    ensures forall x :: x in r ==> r[x] == CountOf(c, x) + (if x in facts then 1 else 0)
  {
    map x | x in c.Keys + facts :: CountOf(c, x) + (if x in facts then 1 else 0)
  }

  /** The Counter under name `k` once grouping `g` has been counted. */
  function Bumped<T>(c: Counts<T>, g: Grouping<T>, k: Json): Counter<T>
    requires k in c || k in g
  {
    if k in g then Bump(CounterAt(c, k), g[k]) else c[k]
  }

  /** `add_choice_to_counter` for one kind of fact. */
  function AddGrouping<T>(c: Counts<T>, g: Grouping<T>): (r: Counts<T>)
    ensures r.Keys == c.Keys + g.Keys
    ensures forall k :: k in r ==> r[k] == Bumped(c, g, k)
  {
    map k | k in c.Keys + g.Keys :: Bumped(c, g, k)
  }

  /** `add_choice_to_counter` for all three kinds. */
  function AddChoice(c: Counters, m: Mapped): Counters {
    Counters(
      AddGrouping(c.objects, m.objects),
      AddGrouping(c.objectProperties, m.objectProperties),
      AddGrouping(c.dataProperties, m.dataProperties))
  }

  /** The counts after adding a sequence of groupings, in order, to empty counters. */
  function Fold<T>(gs: seq<Grouping<T>>): Counts<T> {
    if gs == [] then map[] else AddGrouping(Fold(gs[..|gs| - 1]), gs[|gs| - 1])
  }

  /** In how many of the groupings fact `x` is filed under name `k`. */
  function Occurrences<T>(gs: seq<Grouping<T>>, k: Json, x: T): (n: nat)
    ensures n <= |gs|
  {
    if gs == [] then 0
    else Occurrences(gs[..|gs| - 1], k, x) + (if k in gs[|gs| - 1] && x in gs[|gs| - 1][k] then 1 else 0)
  }

  /** A fact's count is the number of groupings filing it under the name. */
  lemma {:induction false} FoldCountsOccurrences<T>(gs: seq<Grouping<T>>, k: Json, x: T)
    ensures CountOf(CounterAt(Fold(gs), k), x) == Occurrences(gs, k, x)
    ensures x in CounterAt(Fold(gs), k) <==> Occurrences(gs, k, x) > 0
  {
    if gs != [] {
      FoldCountsOccurrences(gs[..|gs| - 1], k, x);
    }
  }

  /** A name has a Counter iff some grouping used it. */
  lemma {:induction false} FoldKeys<T>(gs: seq<Grouping<T>>, k: Json)
    ensures (k in Fold(gs)) <==> exists i :: 0 <= i < |gs| && k in gs[i]
  {
    if gs != [] {
      var init := gs[..|gs| - 1];
      FoldKeys(init, k);
      if k in Fold(gs) && k !in gs[|gs| - 1] {
        var i :| 0 <= i < |init| && k in init[i];
        assert gs[i] == init[i];
      }
      if exists i :: 0 <= i < |gs| && k in gs[i] {
        var i :| 0 <= i < |gs| && k in gs[i];
        if i < |init| { assert init[i] == gs[i]; }
      }
    }
  }

  /**
   * After counting, a fact's count is the number of completions whose mapped
   * output contains it, and a name has a Counter iff some completion used it.
   */
  lemma FoldCounts<T>(gs: seq<Grouping<T>>, k: Json, x: T)
    ensures CountOf(CounterAt(Fold(gs), k), x) == Occurrences(gs, k, x)
    ensures (k in Fold(gs)) <==> exists i :: 0 <= i < |gs| && k in gs[i]
    ensures x in CounterAt(Fold(gs), k) <==> Occurrences(gs, k, x) > 0
  {
    FoldCountsOccurrences(gs, k, x);
    FoldKeys(gs, k);
  }

  function ObjectsOf(ms: seq<Mapped>): seq<Grouping<Entity>> {
    seq(|ms|, i requires 0 <= i < |ms| => ms[i].objects)
  }

  function RelationsOf(ms: seq<Mapped>): seq<Grouping<Pair>> {
    seq(|ms|, i requires 0 <= i < |ms| => ms[i].objectProperties)
  }

  function ValuesOf(ms: seq<Mapped>): seq<Grouping<Pair>> {
    seq(|ms|, i requires 0 <= i < |ms| => ms[i].dataProperties)
  }

  /** The counters after every mapped completion of a chunk has been added. */
  function Tally(ms: seq<Mapped>): Counters {
    Counters(Fold(ObjectsOf(ms)), Fold(RelationsOf(ms)), Fold(ValuesOf(ms)))
  }

  lemma TallySnoc(ms: seq<Mapped>, m: Mapped)
    ensures Tally(ms + [m]) == AddChoice(Tally(ms), m)
  {
    assert ObjectsOf(ms + [m])[..|ms|] == ObjectsOf(ms);
    assert RelationsOf(ms + [m])[..|ms|] == RelationsOf(ms);
    assert ValuesOf(ms + [m])[..|ms|] == ValuesOf(ms);
  }

  // ---------------------------------------------------------------------
  // make_consistent
  // ---------------------------------------------------------------------

  /** The facts of one Counter whose count reaches the threshold. */
  function Survivors<T>(c: Counter<T>, threshold: int): set<T> {
    set x | x in c && c[x] >= threshold
  }

  /**
   * `make_consistent` for one kind: a name is kept iff at least one of its
   * facts reaches the threshold, and it keeps exactly those facts.
   */
  function Keep<T>(c: Counts<T>, threshold: int): (r: Grouping<T>)
    ensures forall k :: k in r <==> k in c && Survivors(c[k], threshold) != {}
    ensures forall k :: k in r ==> r[k] == Survivors(c[k], threshold)
  {
    map k | k in c && Survivors(c[k], threshold) != {} :: Survivors(c[k], threshold)
  }

  /** The result of `make_consistent`. */
  function Consensus(c: Counters, threshold: int): Mapped {
    Mapped(Keep(c.objects, threshold), Keep(c.objectProperties, threshold), Keep(c.dataProperties, threshold))
  }

  /**
   * A fact survives the vote iff it was filed under its name by at least
   * `threshold` of the completions (and by at least one).
   */
  lemma KeptIffEnoughVotes<T>(gs: seq<Grouping<T>>, threshold: int, k: Json, x: T)
    ensures (k in Keep(Fold(gs), threshold) && x in Keep(Fold(gs), threshold)[k])
        <==> Occurrences(gs, k, x) >= threshold && Occurrences(gs, k, x) > 0
  {
    FoldCounts(gs, k, x);
    if Occurrences(gs, k, x) >= threshold && Occurrences(gs, k, x) > 0 {
      assert x in Survivors(Fold(gs)[k], threshold);
    }
  }

  /** With a threshold above the number of completions, nothing is kept. */
  lemma ThresholdAboveCompletionsKeepsNothing(ms: seq<Mapped>, threshold: int)
    requires threshold > |ms|
    ensures Consensus(Tally(ms), threshold) == NoFacts
  {
    forall k | k in Tally(ms).objects ensures Survivors(Tally(ms).objects[k], threshold) == {} {
      forall x | x in Tally(ms).objects[k] ensures Tally(ms).objects[k][x] < threshold {
        FoldCounts(ObjectsOf(ms), k, x);
      }
    }
    forall k | k in Tally(ms).objectProperties ensures Survivors(Tally(ms).objectProperties[k], threshold) == {} {
      forall x | x in Tally(ms).objectProperties[k] ensures Tally(ms).objectProperties[k][x] < threshold {
        FoldCounts(RelationsOf(ms), k, x);
      }
    }
    forall k | k in Tally(ms).dataProperties ensures Survivors(Tally(ms).dataProperties[k], threshold) == {} {
      forall x | x in Tally(ms).dataProperties[k] ensures Tally(ms).dataProperties[k][x] < threshold {
        FoldCounts(ValuesOf(ms), k, x);
      }
    }
  }

  // ---------------------------------------------------------------------
  // The loops
  // ---------------------------------------------------------------------

  /** The loop of `add_choice_to_counter` over the names of one kind. */
  method AddGroupingToCounts<T>(g: Grouping<T>, c: Counts<T>) returns (r: Counts<T>)
    ensures r == AddGrouping(c, g)
  {
    r := c;
    var pending := g.Keys;
    while pending != {}
      invariant pending <= g.Keys
      invariant r.Keys == c.Keys + (g.Keys - pending)
      invariant forall k :: k in r ==> r[k] == if k in g && k !in pending then Bump(CounterAt(c, k), g[k]) else c[k]
      decreases pending
    {
      var name :| name in pending;
      var entities := g[name];
      ghost var counted := Bump(CounterAt(c, name), entities);
      if name !in r {
        assert CounterAt(c, name) == map[];
        r := r[name := Bump(map[], entities)];
      } else {
        assert r[name] == CounterAt(c, name);
        r := r[name := Bump(r[name], entities)];
      }
      assert r[name] == counted;
      pending := pending - {name};
    }
    AddGroupingPointwise(c, g, r);
  }

  /** Counts that agree with `AddGrouping` name by name are `AddGrouping`. */
  lemma AddGroupingPointwise<T>(c: Counts<T>, g: Grouping<T>, r: Counts<T>)
    requires r.Keys == c.Keys + g.Keys
    requires forall k :: k in r ==> r[k] == if k in g then Bump(CounterAt(c, k), g[k]) else c[k]
    ensures r == AddGrouping(c, g)
  {
    var expected := AddGrouping(c, g);
    assert r.Keys == expected.Keys;
    forall k | k in r ensures r[k] == expected[k] {
      assert expected[k] == Bumped(c, g, k);
    }
  }

  /** `add_choice_to_counter`: one mapped completion is added to the counters. */
  method AddChoiceToCounter(choice: Mapped, counters: Counters) returns (r: Counters)
    ensures r == AddChoice(counters, choice)
  {
    var objects := AddGroupingToCounts(choice.objects, counters.objects);
    var relations := AddGroupingToCounts(choice.objectProperties, counters.objectProperties);
    var values := AddGroupingToCounts(choice.dataProperties, counters.dataProperties);
    r := Counters(objects, relations, values);
  }

  /** The facts among `facts` that reach the threshold in Counter `c`. */
  function SurvivorsAmong<T>(c: Counter<T>, facts: set<T>, threshold: int): set<T> {
    set x | x in facts && x in c && c[x] >= threshold
  }

  /** The nested loops of `make_consistent` for one kind. */
  method KeepAtLeast<T>(c: Counts<T>, threshold: int) returns (r: Grouping<T>)
    ensures r == Keep(c, threshold)
  {
    r := map[];
    var names := c.Keys;
    while names != {}
      invariant names <= c.Keys
      invariant forall k :: k in r <==> k in c && k !in names && Survivors(c[k], threshold) != {}
      invariant forall k :: k in r ==> r[k] == Survivors(c[k], threshold)
      decreases names
    {
      var name :| name in names;
      var entities := c[name].Keys;
      assert SurvivorsAmong(c[name], c[name].Keys - entities, threshold) == {};
      while entities != {}
        invariant entities <= c[name].Keys
        invariant forall k :: k != name ==> (k in r <==> k in c && k !in names && Survivors(c[k], threshold) != {})
        invariant forall k :: k in r && k != name ==> r[k] == Survivors(c[k], threshold)
        invariant name in r <==> SurvivorsAmong(c[name], c[name].Keys - entities, threshold) != {}
        invariant name in r ==> r[name] == SurvivorsAmong(c[name], c[name].Keys - entities, threshold)
        decreases entities
      {
        var entity :| entity in entities;
        ghost var before := c[name].Keys - entities;
        assert SurvivorsAmong(c[name], before + {entity}, threshold)
            == SurvivorsAmong(c[name], before, threshold) + (if c[name][entity] >= threshold then {entity} else {});
        if c[name][entity] >= threshold {
          if name !in r {
            r := r[name := {entity}];
          }
          r := r[name := r[name] + {entity}];
        }
        assert before + {entity} == c[name].Keys - (entities - {entity});
        entities := entities - {entity};
      }
      assert c[name].Keys - entities == c[name].Keys;
      assert SurvivorsAmong(c[name], c[name].Keys, threshold) == Survivors(c[name], threshold);
      names := names - {name};
    }
    var expected := Keep(c, threshold);
    assert r.Keys == expected.Keys;
    assert forall k :: k in r ==> r[k] == expected[k];
  }

  /** `make_consistent`: keeps every fact counted at least `threshold` times. */
  method MakeConsistent(counters: Counters, threshold: int) returns (r: Mapped)
    ensures r == Consensus(counters, threshold)
  {
    var objects := KeepAtLeast(counters.objects, threshold);
    var relations := KeepAtLeast(counters.objectProperties, threshold);
    var values := KeepAtLeast(counters.dataProperties, threshold);
    r := Mapped(objects, relations, values);
  }
}
