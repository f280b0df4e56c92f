/**
 * The default JSON adapter: turns one parsed completion into three
 * groupings (class or property name -> set of facts). Exact repeats collapse
 * because each grouping holds sets.
 */
module JsonAdapter {
  import opened Wrappers
  import opened JsonValue
  import opened Errors

  /** An individual: its identifier and its label tuples. */
  datatype Entity = Entity(id: Json, labels: seq<seq<Json>>)

  /** A relation (subject, object) or an attribute value (subject, value). */
  datatype Pair = Pair(subject: Json, target: Json)

  /** A name -> set-of-facts dictionary. */
  type Grouping<T> = map<Json, set<T>>

  /** The three dictionaries `map_json` always returns. */
  datatype Mapped = Mapped(
    objects: Grouping<Entity>,
    objectProperties: Grouping<Pair>,
    dataProperties: Grouping<Pair>)

  const NoFacts: Mapped := Mapped(map[], map[], map[])

  // ---------------------------------------------------------------------
  // Reading one entry of a section, as the Python expressions do
  // ---------------------------------------------------------------------

  /** `tuple(tuple(label) for label in ls)`, given the iterated labels. */
  function LabelTuples(ls: seq<Json>): (r: Option<seq<seq<Json>>>)
    ensures r.Some? <==> forall i :: 0 <= i < |ls| ==> Iterate(ls[i]).Some? && AllHashable(Iterate(ls[i]).value)
    ensures r.Some? ==> |r.value| == |ls| && forall i :: 0 <= i < |ls| ==> r.value[i] == Iterate(ls[i]).value
  {
    if ls == [] then Some([])
    else
      match LabelTuples(ls[..|ls| - 1])
      case None => None
      case Some(init) =>
        var last := Iterate(ls[|ls| - 1]);
        if last.Some? && AllHashable(last.value) then Some(init + [last.value]) else None
  }

  /**
   * One element of `objects`: `obj[0]` is the class name, `obj[1]` the
   * identifier, `obj[2]` the labels; None where Python would raise.
   */
  function EntityOf(obj: Json): (r: Option<(Json, Entity)>)
    ensures r.Some? ==> Index(obj, 0) == Some(r.value.0) && Hashable(r.value.0)
    ensures r.Some? ==> Index(obj, 1) == Some(r.value.1.id) && Hashable(r.value.1.id)
    ensures r.Some? ==>
              && Index(obj, 2).Some? && Iterate(Index(obj, 2).value).Some?
              && LabelTuples(Iterate(Index(obj, 2).value).value) == Some(r.value.1.labels)
    ensures r.Some? <==>
              && Index(obj, 0).Some? && Hashable(Index(obj, 0).value)
              && Index(obj, 1).Some? && Hashable(Index(obj, 1).value)
              && Index(obj, 2).Some? && Iterate(Index(obj, 2).value).Some?
              && LabelTuples(Iterate(Index(obj, 2).value).value).Some?
    ensures Index(obj, 2).None? ==> r.None?
  {
    var name, id, labels := Index(obj, 0), Index(obj, 1), Index(obj, 2);
    if name.None? || !Hashable(name.value) || id.None? || labels.None? then None
    else
      match Iterate(labels.value)
      case None => None
      case Some(ls) =>
        match LabelTuples(ls)
        case None => None
        case Some(ts) => if Hashable(id.value) then Some((name.value, Entity(id.value, ts))) else None
  }

  /**
   * One element of `object_properties`: `[name, [subject, object, ...]]`;
   * only the first two members of the pair are read.
   */
  function RelationOf(prop: Json): (r: Option<(Json, Pair)>)
    ensures r.Some? ==> Index(prop, 0) == Some(r.value.0) && Hashable(r.value.0)
    ensures r.Some? ==>
              && Index(prop, 1).Some?
              && Index(Index(prop, 1).value, 0) == Some(r.value.1.subject)
              && Index(Index(prop, 1).value, 1) == Some(r.value.1.target)
    ensures r.Some? <==>
              && Index(prop, 0).Some? && Hashable(Index(prop, 0).value)
              && Index(prop, 1).Some?
              && Index(Index(prop, 1).value, 0).Some? && Hashable(Index(Index(prop, 1).value, 0).value)
              && Index(Index(prop, 1).value, 1).Some? && Hashable(Index(Index(prop, 1).value, 1).value)
  {
    var ends := Index(prop, 1);
    if ends.None? then None
    else
      var subject, target, name := Index(ends.value, 0), Index(ends.value, 1), Index(prop, 0);
      if subject.None? || target.None? || name.None? || !Hashable(name.value) then None
      else if Hashable(subject.value) && Hashable(target.value) then Some((name.value, Pair(subject.value, target.value)))
      else None
  }

  /**
   * One element of `data_properties`: `[name, [subject, value]]`, where
   * `subject, value = data_prop[1]` demands exactly two members.
   */
  function DataValueOf(prop: Json): (r: Option<(Json, Pair)>)
    ensures r.Some? ==> Index(prop, 0) == Some(r.value.0) && Hashable(r.value.0)
    ensures r.Some? ==> Index(prop, 1).Some? && Iterate(Index(prop, 1).value) == Some([r.value.1.subject, r.value.1.target])
    ensures Index(prop, 1).Some? && Iterate(Index(prop, 1).value).Some? && |Iterate(Index(prop, 1).value).value| != 2 ==> r.None?
    ensures r.Some? <==>
              && Index(prop, 0).Some? && Hashable(Index(prop, 0).value)
              && Index(prop, 1).Some? && Iterate(Index(prop, 1).value).Some?
              && |Iterate(Index(prop, 1).value).value| == 2
              && AllHashable(Iterate(Index(prop, 1).value).value)
  {
    var ends := Index(prop, 1);
    if ends.None? then None
    else
      match Iterate(ends.value)
      case None => None
      case Some(xs) =>
        if |xs| != 2 then None
        else
          var name := Index(prop, 0);
          if name.None? || !Hashable(name.value) then None
          else if Hashable(xs[0]) && Hashable(xs[1]) then
            assert xs == [xs[0], xs[1]];
            Some((name.value, Pair(xs[0], xs[1])))
          else None
  }

  // ---------------------------------------------------------------------
  // Grouping
  // ---------------------------------------------------------------------

  /** Reads every element of a section; None as soon as one element raises. */
  function Entries<T>(xs: seq<Json>, read: Json -> Option<(Json, T)>): (r: Option<seq<(Json, T)>>)
    ensures r.Some? <==> forall i :: 0 <= i < |xs| ==> read(xs[i]).Some?
    ensures r.Some? ==> |r.value| == |xs| && forall i :: 0 <= i < |xs| ==> r.value[i] == read(xs[i]).value
  {
    if xs == [] then Some([])
    else
      match Entries(xs[..|xs| - 1], read)
      case None => None
      case Some(init) =>
        match read(xs[|xs| - 1])
        case None => None
        case Some(e) => Some(init + [e])
  }

  /** The names the entries carry. */
  function Names<T>(entries: seq<(Json, T)>): set<Json> {
    set i | 0 <= i < |entries| :: entries[i].0
  }

  /** The facts of the entries carrying name `k`. */
  function Members<T(!new)>(entries: seq<(Json, T)>, k: Json): set<T> {
    set i | 0 <= i < |entries| && entries[i].0 == k :: entries[i].1
  }

  /**
   * The dictionary of sets the mapping loops build from the entries:
   * a name is a key iff some entry carries it, and its set holds exactly the
   * facts of the entries carrying it.
   */
  function Group<T(!new)>(entries: seq<(Json, T)>): (g: Grouping<T>)
    ensures g.Keys == Names(entries)
    ensures forall k :: k in g ==> g[k] == Members(entries, k) && g[k] != {}
  {
    assert forall k :: k in Names(entries) ==> Members(entries, k) != {} by {
      forall k | k in Names(entries) ensures Members(entries, k) != {} {
        var i :| 0 <= i < |entries| && entries[i].0 == k;
        assert entries[i].1 in Members(entries, k);
      }
    }
    map k | k in Names(entries) :: Members(entries, k)
  }

  /** Adding one fact under a name, as `result[name] = {x}` / `result[name].add(x)` do. */
  function Insert<T>(g: Grouping<T>, k: Json, x: T): Grouping<T> {
    if k !in g then g[k := {x}] else g[k := g[k] + {x}]
  }

  lemma NamesSnoc<T>(entries: seq<(Json, T)>, k: Json, x: T)
    ensures Names(entries + [(k, x)]) == Names(entries) + {k}
  {
    var e := entries + [(k, x)];
    assert e[|entries|].0 == k;
    forall n | n in Names(entries) ensures n in Names(e) {
      var i :| 0 <= i < |entries| && entries[i].0 == n;
      assert e[i].0 == n;
    }
  }

  lemma MembersSnoc<T(!new)>(entries: seq<(Json, T)>, k: Json, x: T, n: Json)
    ensures Members(entries + [(k, x)], n) == Members(entries, n) + (if n == k then {x} else {})
  {
    var e := entries + [(k, x)];
    assert e[|entries|] == (k, x);
    forall y | y in Members(entries, n) ensures y in Members(e, n) {
      var i :| 0 <= i < |entries| && entries[i].0 == n && entries[i].1 == y;
      assert e[i] == entries[i];
    }
  }

  lemma GroupSnoc<T(!new)>(entries: seq<(Json, T)>, k: Json, x: T)
    ensures Group(entries + [(k, x)]) == Insert(Group(entries), k, x)
  {
    var lhs, rhs := Group(entries + [(k, x)]), Insert(Group(entries), k, x);
    NamesSnoc(entries, k, x);
    assert lhs.Keys == rhs.Keys;
    forall n | n in lhs ensures lhs[n] == rhs[n] {
      MembersSnoc(entries, k, x, n);
    }
  }

  /**
   * The grouping depends only on WHICH entries occur, not on how often or in
   * what order: repeats inside one completion collapse.
   */
  lemma GroupIgnoresRepeatsAndOrder<T(!new)>(e1: seq<(Json, T)>, e2: seq<(Json, T)>)
    requires forall p :: p in e1 <==> p in e2
    ensures Group(e1) == Group(e2)
  {
    forall k | k in Names(e1) ensures k in Names(e2) {
      var i :| 0 <= i < |e1| && e1[i].0 == k;
      assert e1[i] in e2;
    }
    forall k | k in Names(e2) ensures k in Names(e1) {
      var i :| 0 <= i < |e2| && e2[i].0 == k;
      assert e2[i] in e1;
    }
    forall k | k in Names(e1) ensures Members(e1, k) == Members(e2, k) {
      forall x | x in Members(e1, k) ensures x in Members(e2, k) {
        var i :| 0 <= i < |e1| && e1[i].0 == k && e1[i].1 == x;
        assert e1[i] in e2;
      }
      forall x | x in Members(e2, k) ensures x in Members(e1, k) {
        var i :| 0 <= i < |e2| && e2[i].0 == k && e2[i].1 == x;
        assert e2[i] in e1;
      }
    }
  }

  /** A section's grouping, or None when Python would raise while mapping it. */
  function GroupSection<T(!new)>(section: Json, read: Json -> Option<(Json, T)>): Option<Grouping<T>> {
    match Iterate(section)
    case None => None
    case Some(xs) =>
      match Entries(xs, read)
      case None => None
      case Some(es) => Some(Group(es))
  }

  /** `key in choice and choice[key]`. */
  predicate Present(choice: map<string, Json>, key: string) {
    key in choice && Truthy(choice[key])
  }

  /**
   * What `map_json` computes, with a structural failure reported as
   * WrongJsonStructure (the behaviour its handler is written for).
   */
  function Normalize(choice: map<string, Json>): (r: Result<Mapped, Error>)
    ensures !Present(choice, "objects") ==> r == Ok(NoFacts)
    ensures r.Err? ==> r.error == WrongJsonStructure
    ensures r.Ok? && Present(choice, "objects") ==> Some(r.value.objects) == GroupSection(choice["objects"], EntityOf)
    ensures r.Ok? && Present(choice, "objects") ==>
      Some(r.value.objectProperties) == (if Present(choice, "object_properties") then GroupSection(choice["object_properties"], RelationOf) else Some(map[]))
    ensures r.Ok? && Present(choice, "objects") ==>
      Some(r.value.dataProperties) == (if Present(choice, "data_properties") then GroupSection(choice["data_properties"], DataValueOf) else Some(map[]))
    ensures r.Err? <==>
              && Present(choice, "objects")
              && (|| GroupSection(choice["objects"], EntityOf).None?
                  || (Present(choice, "object_properties") && GroupSection(choice["object_properties"], RelationOf).None?)
                  || (Present(choice, "data_properties") && GroupSection(choice["data_properties"], DataValueOf).None?))
  {
    if !Present(choice, "objects") then Ok(NoFacts)
    else
      var objects := GroupSection(choice["objects"], EntityOf);
      var relations := if Present(choice, "object_properties") then GroupSection(choice["object_properties"], RelationOf) else Some(map[]);
      var values := if Present(choice, "data_properties") then GroupSection(choice["data_properties"], DataValueOf) else Some(map[]);
      if objects.None? || relations.None? || values.None? then Err(WrongJsonStructure)
      else Ok(Mapped(objects.value, relations.value, values.value))
  }

  /**
   * `map_json` as written: its handler executes `raise WrongJsonStructureError`
   * with no argument, but that class's constructor requires one, so the
   * exception that actually leaves `map_json` is a TypeError.
   */
  function NormalizeAsWritten(choice: map<string, Json>): (r: Result<Mapped, Error>)
    ensures r.Err? <==> Normalize(choice).Err?
    ensures r.Err? ==> r.error == TypeErrorRaised
    ensures r.Ok? ==> r == Normalize(choice)
  {
    match Normalize(choice)
    case Ok(m) => Ok(m)
    case Err(_) => Err(TypeErrorRaised)
  }

  // ---------------------------------------------------------------------
  // The mapping loops
  // ---------------------------------------------------------------------

  /** The loop shared by `map_objects`, `map_object_properties` and `map_data_properties`. */
  method MapSection<T(!new)>(section: Json, read: Json -> Option<(Json, T)>) returns (r: Option<Grouping<T>>)
    ensures r == GroupSection(section, read)
  {
    var items := Iterate(section);
    if items.None? {
      return None;
    }
    var xs := items.value;
    var result: Grouping<T> := map[];
    ghost var entries: seq<(Json, T)> := [];
    for i := 0 to |xs|
      invariant Entries(xs[..i], read) == Some(entries)
      invariant result == Group(entries)
    {
      assert xs[..i + 1][..i] == xs[..i];
      var entry := read(xs[i]);
      if entry.None? {
        assert forall j :: 0 <= j < |xs[..i + 1]| ==> xs[..i + 1][j] == xs[j];
        assert Entries(xs, read).None?;
        return None;
      }
      var (name, fact) := entry.value;
      GroupSnoc(entries, name, fact);
      if name !in result {
        result := result[name := {fact}];
      } else {
        result := result[name := result[name] + {fact}];
      }
      entries := entries + [(name, fact)];
    }
    assert xs[..|xs|] == xs;
    r := Some(result);
  }

  method MapObjects(objects: Json) returns (r: Option<Grouping<Entity>>)
    ensures r == GroupSection(objects, EntityOf)
  {
    r := MapSection(objects, EntityOf);
  }

  method MapObjectProperties(properties: Json) returns (r: Option<Grouping<Pair>>)
    ensures r == GroupSection(properties, RelationOf)
  {
    r := MapSection(properties, RelationOf);
  }

  method MapDataProperties(properties: Json) returns (r: Option<Grouping<Pair>>)
    ensures r == GroupSection(properties, DataValueOf)
  {
    r := MapSection(properties, DataValueOf);
  }

  /**
   * `map_json` with its failure reported as WrongJsonStructure. Relations and
   * values are only mapped when `objects` is present and non-empty.
   */
  method MapJson(choice: map<string, Json>) returns (r: Result<Mapped, Error>)
    ensures r == Normalize(choice)
  {
    if !Present(choice, "objects") {
      return Ok(NoFacts);
    }
    var objects := MapObjects(choice["objects"]);
    if objects.None? {
      return Err(WrongJsonStructure);
    }
    var relations: Option<Grouping<Pair>> := Some(map[]);
    if Present(choice, "object_properties") {
      relations := MapObjectProperties(choice["object_properties"]);
      if relations.None? {
        return Err(WrongJsonStructure);
      }
    }
    var values: Option<Grouping<Pair>> := Some(map[]);
    if Present(choice, "data_properties") {
      values := MapDataProperties(choice["data_properties"]);
      if values.None? {
        return Err(WrongJsonStructure);
      }
    }
    r := Ok(Mapped(objects.value, relations.value, values.value));
  }
}
