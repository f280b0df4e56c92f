/**
 * The fact writer: it turns the kept facts of one chunk into individuals of
 * the ontology. Individuals created during one write are registered under
 * their identifier; relations and data values are attached only between
 * registered individuals; saving reports what was written and clears the
 * registry.
 *
 * Every operation is described as a sequence of primitive steps (`Op`) run
 * by `Run`, which stops at the first step that raises; the repository's
 * methods are proved to leave the state `Run` describes.
 */
module OntologyRepository {
  import opened Wrappers
  import opened JsonValue
  import opened JsonAdapter

  /** A label with its language tag (`locstr(text, lang=lang)`). */
  datatype LangLabel = LangLabel(text: Json, lang: Json)

  /** An individual: its class, its labels, its relations (property, target id) and its data values. */
  datatype Individual = Individual(cls: string, labels: seq<LangLabel>, relations: seq<(string, Json)>, values: map<string, Json>)

  /** What the errors tab is told. */
  datatype Problem =
    | UnknownObjectProperty(property: string)
    | SubjectNotFound(subject: Json, property: string)
    | ObjectNotFound(object: Json, property: string)
    | TypeValidation(object: Json)

  /** The GUI callbacks the writer triggers, in order. */
  datatype Callback =
    | ErrorsTab(problem: Problem)
    | ObjPropsCount
    | DataPropsCount
    | AddedIndividualsTab(individual: Individual)
    | IndividualsCount(count: nat)

  /** The exceptions that escape a write. */
  datatype Crash =
    | NameNotString(name: Json)       // `getattr` with a name that is not a string
    | LabelTooShort(parts: seq<Json>) // `label[1]` on a label with fewer than two members
    | PropertyIsNone(property: string) // indexing the `None` an unknown object property resolved to

  /**
   * The writer's state: the registry of this write (its ids in insertion
   * order, and the records), the callbacks triggered so far and the number
   * of saves.
   */
  datatype Store = Store(order: seq<Json>, individuals: map<Json, Individual>, triggered: seq<Callback>, saves: nat)

  datatype Outcome = Outcome(store: Store, crash: Option<Crash>)

  /** The primitive steps of a write. */
  datatype Op =
    | Lookup(name: Json)                                // `getattr(self.onto, name, None)`
    | Create(cls: string, id: Json)                     // `obj_class(id)` and `self.individuals[id] = ...`
    | Label(id: Json, parts: seq<Json>)                 // one round of `set_labels`
    | ReportUnknown(property: string)                   // the errors-tab report of an unknown object property
    | Relate(property: string, known: bool, pair: Pair) // one round of `add_object_properties`
    | SetValue(property: string, pair: Pair, valid: bool) // one round of `add_data_properties`
    | Save                                              // `save_ontology`

  // ---------------------------------------------------------------------
  // One step
  // ---------------------------------------------------------------------

  function Notify(s: Store, c: Callback): Store {
    s.(triggered := s.triggered + [c])
  }

  /** Registers a fresh individual; a known id keeps its place in the order. */
  function Register(s: Store, cls: string, id: Json): Store {
    s.(order := if id in s.individuals then s.order else s.order + [id],
       individuals := s.individuals[id := Individual(cls, [], [], map[])])
  }

  /** The added-individuals callbacks for the registry, in insertion order. */
  function Shown(order: seq<Json>, individuals: map<Json, Individual>): seq<Callback> {
    if order == [] then []
    else
      var last := order[|order| - 1];
      Shown(order[..|order| - 1], individuals) + (if last in individuals then [AddedIndividualsTab(individuals[last])] else [])
  }

  function Apply(s: Store, op: Op): Outcome {
    match op
    case Lookup(name) =>
      if name.JStr? then Outcome(s, None) else Outcome(s, Some(NameNotString(name)))
    case Create(cls, id) =>
      Outcome(Register(s, cls, id), None)
    case Label(id, parts) =>
      if |parts| < 2 then Outcome(s, Some(LabelTooShort(parts)))
      else if id in s.individuals then
        var rec := s.individuals[id];
        Outcome(s.(individuals := s.individuals[id := rec.(labels := rec.labels + [LangLabel(parts[0], parts[1])])]), None)
      else Outcome(s, None)
    case ReportUnknown(p) =>
      Outcome(Notify(s, ErrorsTab(UnknownObjectProperty(p))), None)
    case Relate(p, known, pair) =>
      if pair.subject !in s.individuals then Outcome(Notify(s, ErrorsTab(SubjectNotFound(pair.subject, p))), None)
      else if pair.target !in s.individuals then Outcome(Notify(s, ErrorsTab(ObjectNotFound(pair.target, p))), None)
      else if !known then Outcome(s, Some(PropertyIsNone(p)))
      else
        var rec := s.individuals[pair.subject];
        var s' := s.(individuals := s.individuals[pair.subject := rec.(relations := rec.relations + [(p, pair.target)])]);
        Outcome(Notify(s', ObjPropsCount), None)
    case SetValue(p, pair, valid) =>
      if pair.subject !in s.individuals then Outcome(Notify(s, ErrorsTab(ObjectNotFound(pair.subject, p))), None)
      else if !valid then Outcome(Notify(s, ErrorsTab(TypeValidation(pair.subject))), None)
      else
        var rec := s.individuals[pair.subject];
        var s' := s.(individuals := s.individuals[pair.subject := rec.(values := rec.values[p := pair.target])]);
        Outcome(Notify(s', DataPropsCount), None)
    case Save =>
      Outcome(Store([], map[], s.triggered + Shown(s.order, s.individuals) + [IndividualsCount(|s.individuals|)], s.saves + 1), None)
  }

  /** Runs steps in order; the first one that raises ends the run, with the state it left. */
  function Run(s: Store, ops: seq<Op>): Outcome {
    if ops == [] then Outcome(s, None)
    else
      var o := Run(s, ops[..|ops| - 1]);
      if o.crash.Some? then o else Apply(o.store, ops[|ops| - 1])
  }

  /** Running `a + b` is running `a`, then, unless it raised, `b` from where `a` left off. */
  lemma {:induction false} RunAppend(s: Store, a: seq<Op>, b: seq<Op>)
    ensures Run(s, a + b) == if Run(s, a).crash.Some? then Run(s, a) else Run(Run(s, a).store, b)
  {
    if b == [] {
      assert a + b == a;
    } else {
      assert (a + b)[..|a + b| - 1] == a + b[..|b| - 1];
      RunAppend(s, a, b[..|b| - 1]);
    }
  }

  /** The concatenation of a list of step lists. */
  function Flat(xss: seq<seq<Op>>): seq<Op> {
    if xss == [] then [] else Flat(xss[..|xss| - 1]) + xss[|xss| - 1]
  }

  lemma {:induction false} FlatSplit(xss: seq<seq<Op>>, k: nat)
    requires k <= |xss|
    ensures Flat(xss) == Flat(xss[..k]) + Flat(xss[k..])
  {
    if k < |xss| {
      var init := xss[..|xss| - 1];
      FlatSplit(init, k);
      assert init[..k] == xss[..k];
      assert xss[k..] == init[k..] + [xss[|xss| - 1]];
      assert xss[k..][..|xss[k..]| - 1] == init[k..];
    } else {
      assert xss[..k] == xss;
      assert xss[k..] == [];
    }
  }

  /** A run that raised within the first `k` steps is the run of all of them. */
  lemma RunStopsAtCrash(s: Store, ops: seq<Op>, k: nat)
    requires k <= |ops| && Run(s, ops[..k]).crash.Some?
    ensures Run(s, ops) == Run(s, ops[..k])
  {
    assert ops == ops[..k] + ops[k..];
    RunAppend(s, ops[..k], ops[k..]);
  }

  // ---------------------------------------------------------------------
  // The steps of each operation
  // ---------------------------------------------------------------------

  /** `set_labels`: one step per label. */
  function LabelOps(id: Json, labels: seq<seq<Json>>): (r: seq<Op>)
    ensures |r| == |labels| && forall i :: 0 <= i < |labels| ==> r[i] == Label(id, labels[i])
  {
    seq(|labels|, i requires 0 <= i < |labels| => Label(id, labels[i]))
  }

  /** One individual of a known class: it is created and registered, then labelled. */
  function EntityOps(cls: string, e: Entity): seq<Op> {
    [Create(cls, e.id)] + LabelOps(e.id, e.labels)
  }

  function EntityOpsList(cls: string, es: seq<Entity>): (r: seq<seq<Op>>)
    ensures |r| == |es| && forall i :: 0 <= i < |es| ==> r[i] == EntityOps(cls, es[i])
  {
    seq(|es|, i requires 0 <= i < |es| => EntityOps(cls, es[i]))
  }

  /** One entry of `objects`: the class is looked up, and an unknown class is skipped. */
  function ClassGroupOps(classes: set<string>, group: (Json, seq<Entity>)): seq<Op> {
    var name := group.0;
    [Lookup(name)] + (if name.JStr? && name.s in classes then Flat(EntityOpsList(name.s, group.1)) else [])
  }

  function ClassGroupOpsList(classes: set<string>, groups: seq<(Json, seq<Entity>)>): (r: seq<seq<Op>>)
    ensures |r| == |groups| && forall i :: 0 <= i < |groups| ==> r[i] == ClassGroupOps(classes, groups[i])
  {
    seq(|groups|, i requires 0 <= i < |groups| => ClassGroupOps(classes, groups[i]))
  }

  /** `create_individuals`. */
  function CreateOps(classes: set<string>, groups: seq<(Json, seq<Entity>)>): seq<Op> {
    Flat(ClassGroupOpsList(classes, groups))
  }

  function RelateOps(property: string, known: bool, pairs: seq<Pair>): (r: seq<Op>)
    ensures |r| == |pairs| && forall i :: 0 <= i < |pairs| ==> r[i] == Relate(property, known, pairs[i])
  {
    seq(|pairs|, i requires 0 <= i < |pairs| => Relate(property, known, pairs[i]))
  }

  /**
   * One entry of `object_properties`: the property is looked up; an unknown
   * one is reported and its pairs are still processed.
   */
  function RelationGroupOps(objectProperties: set<string>, group: (Json, seq<Pair>)): seq<Op> {
    var name := group.0;
    [Lookup(name)]
      + if name.JStr? then
          (if name.s in objectProperties then [] else [ReportUnknown(name.s)])
            + RelateOps(name.s, name.s in objectProperties, group.1)
        else []
  }

  function RelationGroupOpsList(objectProperties: set<string>, groups: seq<(Json, seq<Pair>)>): (r: seq<seq<Op>>)
    ensures |r| == |groups| && forall i :: 0 <= i < |groups| ==> r[i] == RelationGroupOps(objectProperties, groups[i])
  {
    seq(|groups|, i requires 0 <= i < |groups| => RelationGroupOps(objectProperties, groups[i]))
  }

  /** `add_object_properties`. */
  function ObjectPropertyOps(objectProperties: set<string>, groups: seq<(Json, seq<Pair>)>): seq<Op> {
    Flat(RelationGroupOpsList(objectProperties, groups))
  }

  /** `accepts(property, value)`: whether the ontology's type check lets the value through. */
  type Validator = (string, Json) -> bool

  function SetValueOps(property: string, pairs: seq<Pair>, accepts: Validator): (r: seq<Op>)
    ensures |r| == |pairs| && forall i :: 0 <= i < |pairs| ==> r[i] == SetValue(property, pairs[i], accepts(property, pairs[i].target))
  {
    seq(|pairs|, i requires 0 <= i < |pairs| => SetValue(property, pairs[i], accepts(property, pairs[i].target)))
  }

  /** One entry of `data_properties`: the property is looked up, and an unknown one is skipped. */
  function DataGroupOps(dataProperties: set<string>, group: (Json, seq<Pair>), accepts: Validator): seq<Op> {
    var name := group.0;
    [Lookup(name)] + (if name.JStr? && name.s in dataProperties then SetValueOps(name.s, group.1, accepts) else [])
  }

  function DataGroupOpsList(dataProperties: set<string>, groups: seq<(Json, seq<Pair>)>, accepts: Validator): (r: seq<seq<Op>>)
    ensures |r| == |groups| && forall i :: 0 <= i < |groups| ==> r[i] == DataGroupOps(dataProperties, groups[i], accepts)
  {
    seq(|groups|, i requires 0 <= i < |groups| => DataGroupOps(dataProperties, groups[i], accepts))
  }

  /** `add_data_properties`. */
  function DataPropertyOps(dataProperties: set<string>, groups: seq<(Json, seq<Pair>)>, accepts: Validator): seq<Op> {
    Flat(DataGroupOpsList(dataProperties, groups, accepts))
  }

  /** The names the ontology defines, by kind. */
  datatype Vocabulary = Vocabulary(classes: set<string>, objectProperties: set<string>, dataProperties: set<string>)

  /**
   * The dictionary `add_individuals` receives, each section in the order its
   * dictionary (and each set of facts) is iterated; `None` for a missing section.
   */
  datatype Write = Write(
    objects: Option<seq<(Json, seq<Entity>)>>,
    objectProperties: Option<seq<(Json, seq<Pair>)>>,
    dataProperties: Option<seq<(Json, seq<Pair>)>>)

  /** `add_individuals`: nothing without objects; otherwise create, relate, set values, save. */
  function WriteOps(v: Vocabulary, w: Write, accepts: Validator): seq<Op> {
    if w.objects.None? then []
    else
      CreateOps(v.classes, w.objects.value)
        + (if w.objectProperties.Some? then ObjectPropertyOps(v.objectProperties, w.objectProperties.value) else [])
        + (if w.dataProperties.Some? then DataPropertyOps(v.dataProperties, w.dataProperties.value, accepts) else [])
        + [Save]
  }

  /** Stepping through a list of step lists: the next list runs from where the previous ones left off. */
  lemma FlatStep(s0: Store, xss: seq<seq<Op>>, i: nat, before: Store)
    requires i < |xss| && Run(s0, Flat(xss[..i])) == Outcome(before, None)
    ensures Run(s0, Flat(xss[..i + 1])) == Run(before, xss[i])
  {
    assert xss[..i + 1][..i] == xss[..i];
    RunAppend(s0, Flat(xss[..i]), xss[i]);
  }

  /** A run over a list of step lists that raised within the first `k` lists is the run of all of them. */
  lemma FlatStop(s0: Store, xss: seq<seq<Op>>, k: nat)
    requires k <= |xss| && Run(s0, Flat(xss[..k])).crash.Some?
    ensures Run(s0, Flat(xss)) == Run(s0, Flat(xss[..k]))
  {
    FlatSplit(xss, k);
    RunAppend(s0, Flat(xss[..k]), Flat(xss[k..]));
  }

  lemma LookupThen(s: Store, name: Json, rest: seq<Op>)
    ensures Run(s, [Lookup(name)] + rest) == if name.JStr? then Run(s, rest) else Outcome(s, Some(NameNotString(name)))
  {
    RunAppend(s, [Lookup(name)], rest);
    assert [Lookup(name)][..0] == [];
  }

  /** How one entry of `object_properties` runs: the lookup, the report of an unknown property, then its pairs. */
  lemma RelationGroupRun(s: Store, objectProperties: set<string>, group: (Json, seq<Pair>))
    ensures var name := group.0;
            Run(s, RelationGroupOps(objectProperties, group)) ==
              if !name.JStr? then Outcome(s, Some(NameNotString(name)))
              else
                var known := name.s in objectProperties;
                var reported := if known then s else Notify(s, ErrorsTab(UnknownObjectProperty(name.s)));
                Run(reported, RelateOps(name.s, known, group.1))
  {
    var name := group.0;
    if name.JStr? {
      var known := name.s in objectProperties;
      var report := if known then [] else [ReportUnknown(name.s)];
      LookupThen(s, name, report + RelateOps(name.s, known, group.1));
      RunAppend(s, report, RelateOps(name.s, known, group.1));
      assert report[..0] == [];
    } else {
      LookupThen(s, name, []);
    }
  }

  /** A step list's prefix grows by one step at a time. */
  lemma RunSnoc(s: Store, ops: seq<Op>, i: nat)
    requires i < |ops|
    ensures Run(s, ops[..i + 1]) == if Run(s, ops[..i]).crash.Some? then Run(s, ops[..i]) else Apply(Run(s, ops[..i]).store, ops[i])
  {
    assert ops[..i + 1][..i] == ops[..i];
  }

  // ---------------------------------------------------------------------
  // What a write does
  // ---------------------------------------------------------------------

  /** Both ends of a pair are registered individuals. */
  predicate Resolves(s: Store, pair: Pair) {
    pair.subject in s.individuals && pair.target in s.individuals
  }

  /** Two states with the same registered ids, in the same order. */
  predicate SameRegistry(s: Store, t: Store) {
    s.order == t.order && s.individuals.Keys == t.individuals.Keys
  }

  /**
   * One pair of `add_object_properties`: the relation is attached (and
   * counted once) iff both ends are registered and the property is known;
   * a pair with an unregistered end is reported and changes nothing else;
   * a resolved pair of an unknown property raises.
   */
  lemma RelateOutcome(s: Store, p: string, known: bool, pair: Pair)
    ensures var o := Apply(s, Relate(p, known, pair));
            && (o.crash.Some? <==> Resolves(s, pair) && !known)
            && SameRegistry(s, o.store)
            && (o.crash.None? && Resolves(s, pair) ==>
                  && o.store.individuals == s.individuals[pair.subject := s.individuals[pair.subject].(relations := s.individuals[pair.subject].relations + [(p, pair.target)])]
                  && o.store.triggered == s.triggered + [ObjPropsCount])
            && (!Resolves(s, pair) ==>
                  && o.store.individuals == s.individuals
                  && |o.store.triggered| == |s.triggered| + 1 && o.store.triggered[|s.triggered|].ErrorsTab?)
  {
  }

  /**
   * The pairs of one object property: the registry is never changed, each
   * pair triggers exactly one callback, and the run raises iff the
   * property is unknown and some pair has both ends registered.
   */
  lemma {:induction false} RelationPass(s: Store, p: string, known: bool, pairs: seq<Pair>)
    ensures var o := Run(s, RelateOps(p, known, pairs));
            && SameRegistry(s, o.store)
            && (o.crash.Some? <==> !known && exists i :: 0 <= i < |pairs| && Resolves(s, pairs[i]))
            && (o.crash.None? ==> |o.store.triggered| == |s.triggered| + |pairs|)
  {
    var ops := RelateOps(p, known, pairs);
    if pairs != [] {
      var n := |pairs| - 1;
      var init := pairs[..n];
      assert ops[..n] == RelateOps(p, known, init);
      RelationPass(s, p, known, init);
      var o1 := Run(s, RelateOps(p, known, init));
      assert forall i :: 0 <= i < n ==> init[i] == pairs[i];
      if o1.crash.None? {
        RelateOutcome(o1.store, p, known, pairs[n]);
        assert Resolves(o1.store, pairs[n]) == Resolves(s, pairs[n]);
      }
    }
  }

  /**
   * An unknown object property is reported and its pairs are still
   * processed: the write raises exactly when one of them has both ends
   * registered.
   */
  lemma UnknownPropertyRaisesOnResolvedPair(s: Store, objectProperties: set<string>, group: (Json, seq<Pair>))
    requires group.0.JStr? && group.0.s !in objectProperties
    ensures var o := Run(s, RelationGroupOps(objectProperties, group));
            o.crash == (if exists i :: 0 <= i < |group.1| && Resolves(s, group.1[i]) then Some(PropertyIsNone(group.0.s)) else None)
  {
    RelationGroupRun(s, objectProperties, group);
    var reported := Notify(s, ErrorsTab(UnknownObjectProperty(group.0.s)));
    RelationPass(reported, group.0.s, false, group.1);
    assert forall i :: 0 <= i < |group.1| ==> Resolves(reported, group.1[i]) == Resolves(s, group.1[i]);
    var o := Run(reported, RelateOps(group.0.s, false, group.1));
    if o.crash.Some? {
      RelateFailureIsNone(reported, group.0.s, group.1);
    }
  }

  /** The only exception a pass over one property's pairs raises is the `None` property's. */
  lemma {:induction false} RelateFailureIsNone(s: Store, p: string, pairs: seq<Pair>)
    ensures var o := Run(s, RelateOps(p, false, pairs));
            o.crash.Some? ==> o.crash.value == PropertyIsNone(p)
  {
    if pairs != [] {
      var n := |pairs| - 1;
      assert RelateOps(p, false, pairs)[..n] == RelateOps(p, false, pairs[..n]);
      RelateFailureIsNone(s, p, pairs[..n]);
    }
  }

  /**
   * One value of `add_data_properties`: it replaces the property's value
   * (and is counted once) iff its subject is registered and the type check
   * accepts it; otherwise it is reported and nothing else changes. It never
   * raises.
   */
  lemma SetValueOutcome(s: Store, p: string, pair: Pair, valid: bool)
    ensures var o := Apply(s, SetValue(p, pair, valid));
            && o.crash.None?
            && SameRegistry(s, o.store)
            && (pair.subject in s.individuals && valid ==>
                  && o.store.individuals[pair.subject].values[p] == pair.target
                  && o.store.individuals == s.individuals[pair.subject := s.individuals[pair.subject].(values := s.individuals[pair.subject].values[p := pair.target])]
                  && o.store.triggered == s.triggered + [DataPropsCount])
            && (!(pair.subject in s.individuals && valid) ==>
                  && o.store.individuals == s.individuals
                  && |o.store.triggered| == |s.triggered| + 1 && o.store.triggered[|s.triggered|].ErrorsTab?)
  {
  }

  /** The values of one data property: never raises, never changes the registry, one callback per value. */
  lemma {:induction false} DataPass(s: Store, p: string, pairs: seq<Pair>, accepts: Validator)
    ensures var o := Run(s, SetValueOps(p, pairs, accepts));
            && o.crash.None?
            && SameRegistry(s, o.store)
            && |o.store.triggered| == |s.triggered| + |pairs|
  {
    if pairs != [] {
      var n := |pairs| - 1;
      assert SetValueOps(p, pairs, accepts)[..n] == SetValueOps(p, pairs[..n], accepts);
      DataPass(s, p, pairs[..n], accepts);
      SetValueOutcome(Run(s, SetValueOps(p, pairs[..n], accepts)).store, p, pairs[n], accepts(p, pairs[n].target));
    }
  }

  /** The language-tagged labels `set_labels` appends. */
  function Tagged(labels: seq<seq<Json>>): (r: seq<LangLabel>)
    requires forall i :: 0 <= i < |labels| ==> |labels[i]| >= 2
    ensures |r| == |labels| && forall i :: 0 <= i < |labels| ==> r[i] == LangLabel(labels[i][0], labels[i][1])
  {
    seq(|labels|, i requires 0 <= i < |labels| => LangLabel(labels[i][0], labels[i][1]))
  }

  /**
   * `set_labels` succeeds iff every label has at least two members; it then
   * appends each label, tagged with its language, to that individual's
   * labels and changes nothing else.
   */
  lemma {:induction false} LabelPass(s: Store, id: Json, labels: seq<seq<Json>>)
    requires id in s.individuals
    ensures var o := Run(s, LabelOps(id, labels));
            && (o.crash.None? <==> forall i :: 0 <= i < |labels| ==> |labels[i]| >= 2)
            && (o.crash.None? ==>
                  o.store == s.(individuals := s.individuals[id := s.individuals[id].(labels := s.individuals[id].labels + Tagged(labels))]))
  {
    var rec := s.individuals[id];
    if labels == [] {
      assert rec.labels + Tagged(labels) == rec.labels;
      assert s.individuals[id := rec] == s.individuals;
    } else {
      var n := |labels| - 1;
      var init := labels[..n];
      assert LabelOps(id, labels)[..n] == LabelOps(id, init);
      LabelPass(s, id, init);
      assert forall i :: 0 <= i < n ==> init[i] == labels[i];
      assert init + [labels[n]] == labels;
      if Run(s, LabelOps(id, init)).crash.None? {
        LabelStep(s, id, init, labels[n]);
      }
    }
  }

  /** One more label on top of some already appended. */
  lemma LabelStep(s: Store, id: Json, init: seq<seq<Json>>, parts: seq<Json>)
    requires id in s.individuals && forall i :: 0 <= i < |init| ==> |init[i]| >= 2
    ensures var rec := s.individuals[id];
            var t := s.(individuals := s.individuals[id := rec.(labels := rec.labels + Tagged(init))]);
            Apply(t, Label(id, parts)) ==
              if |parts| < 2 then Outcome(t, Some(LabelTooShort(parts)))
              else Outcome(s.(individuals := s.individuals[id := rec.(labels := rec.labels + Tagged(init + [parts]))]), None)
  {
    var rec := s.individuals[id];
    if |parts| >= 2 {
      assert Tagged(init + [parts]) == Tagged(init) + [LangLabel(parts[0], parts[1])];
      assert rec.labels + Tagged(init) + [LangLabel(parts[0], parts[1])] == rec.labels + Tagged(init + [parts]);
    }
  }

  /**
   * Creating one individual of a known class registers a fresh record under
   * its id, replacing any earlier record with that id, and labels it.
   */
  lemma EntityCreated(s: Store, cls: string, e: Entity)
    ensures var o := Run(s, EntityOps(cls, e));
            && (o.crash.None? <==> forall i :: 0 <= i < |e.labels| ==> |e.labels[i]| >= 2)
            && (o.crash.None? ==>
                  && (forall k :: k in o.store.individuals <==> k in s.individuals || k == e.id)
                  && o.store.individuals[e.id] == Individual(cls, Tagged(e.labels), [], map[]))
  {
    var created := Register(s, cls, e.id);
    CreateThenLabel(s, cls, e);
    LabelPass(created, e.id, e.labels);
    if Run(created, LabelOps(e.id, e.labels)).crash.None? {
      LabelledBlank(created, cls, e);
    }
  }

  /** Running an entry's steps is labelling the freshly registered record. */
  lemma CreateThenLabel(s: Store, cls: string, e: Entity)
    ensures Run(s, EntityOps(cls, e)) == Run(Register(s, cls, e.id), LabelOps(e.id, e.labels))
  {
    assert Run(s, [Create(cls, e.id)]) == Outcome(Register(s, cls, e.id), None) by {
      assert [Create(cls, e.id)][..0] == [];
    }
    RunAppend(s, [Create(cls, e.id)], LabelOps(e.id, e.labels));
  }

  /** Labelling a fresh record gives a record holding just those labels. */
  lemma LabelledBlank(created: Store, cls: string, e: Entity)
    requires created.individuals == created.individuals[e.id := Individual(cls, [], [], map[])]
    requires e.id in created.individuals
    requires forall i :: 0 <= i < |e.labels| ==> |e.labels[i]| >= 2
    ensures var rec := created.individuals[e.id];
            var m := created.individuals[e.id := rec.(labels := rec.labels + Tagged(e.labels))];
            m[e.id] == Individual(cls, Tagged(e.labels), [], map[]) && m.Keys == created.individuals.Keys
  {
    var blank := Individual(cls, [], [], map[]);
    assert created.individuals[e.id] == blank;
    assert blank.labels + Tagged(e.labels) == Tagged(e.labels);
  }

  /** The ids of some entries, in order. */
  function Ids(es: seq<Entity>): seq<Json> {
    if es == [] then [] else Ids(es[..|es| - 1]) + [es[|es| - 1].id]
  }

  /** The ids `create_individuals` registers: those of the entries of known classes. */
  function CreatedIds(classes: set<string>, groups: seq<(Json, seq<Entity>)>): seq<Json> {
    if groups == [] then []
    else
      var g := groups[|groups| - 1];
      CreatedIds(classes, groups[..|groups| - 1]) + (if g.0.JStr? && g.0.s in classes then Ids(g.1) else [])
  }

  /** The ids a step list creates, in order. */
  function Adds(ops: seq<Op>): seq<Json> {
    if ops == [] then []
    else
      var last := ops[|ops| - 1];
      Adds(ops[..|ops| - 1]) + (if last.Create? then [last.id] else [])
  }

  predicate NoSave(ops: seq<Op>) {
    forall i :: 0 <= i < |ops| ==> !ops[i].Save?
  }

  /** Without a save, a completed run registers exactly the ids its steps create. */
  lemma {:induction false} RunRegisters(s: Store, ops: seq<Op>)
    requires NoSave(ops)
    ensures var o := Run(s, ops);
            o.crash.None? ==> forall k :: k in o.store.individuals <==> k in s.individuals || k in Adds(ops)
  {
    if ops != [] {
      var n := |ops| - 1;
      assert NoSave(ops[..n]);
      RunRegisters(s, ops[..n]);
    }
  }

  lemma {:induction false} AddsAppend(a: seq<Op>, b: seq<Op>)
    ensures Adds(a + b) == Adds(a) + Adds(b)
    ensures NoSave(a) && NoSave(b) ==> NoSave(a + b)
  {
    if b == [] {
      assert a + b == a;
    } else {
      assert (a + b)[..|a + b| - 1] == a + b[..|b| - 1];
      AddsAppend(a, b[..|b| - 1]);
    }
  }

  lemma {:induction false} AddsLabels(id: Json, labels: seq<seq<Json>>)
    ensures Adds(LabelOps(id, labels)) == [] && NoSave(LabelOps(id, labels))
  {
    if labels != [] {
      assert LabelOps(id, labels)[..|labels| - 1] == LabelOps(id, labels[..|labels| - 1]);
      AddsLabels(id, labels[..|labels| - 1]);
    }
  }

  lemma {:induction false} AddsClass(cls: string, es: seq<Entity>)
    ensures Adds(Flat(EntityOpsList(cls, es))) == Ids(es) && NoSave(Flat(EntityOpsList(cls, es)))
  {
    var xss := EntityOpsList(cls, es);
    if es != [] {
      var n := |es| - 1;
      assert xss[..n] == EntityOpsList(cls, es[..n]);
      AddsClass(cls, es[..n]);
      AddsEntity(cls, es[n]);
      assert Flat(xss) == Flat(xss[..n]) + xss[n];
      AddsAppend(Flat(xss[..n]), xss[n]);
    }
  }

  lemma AddsEntity(cls: string, e: Entity)
    ensures Adds(EntityOps(cls, e)) == [e.id] && NoSave(EntityOps(cls, e))
  {
    AddsLabels(e.id, e.labels);
    AddsAppend([Create(cls, e.id)], LabelOps(e.id, e.labels));
    assert Adds([Create(cls, e.id)]) == [e.id] by {
      assert [Create(cls, e.id)][..0] == [];
    }
  }

  lemma {:induction false} AddsCreate(classes: set<string>, groups: seq<(Json, seq<Entity>)>)
    ensures Adds(CreateOps(classes, groups)) == CreatedIds(classes, groups) && NoSave(CreateOps(classes, groups))
  {
    var xss := ClassGroupOpsList(classes, groups);
    if groups != [] {
      var n := |groups| - 1;
      var g := groups[n];
      assert xss[..n] == ClassGroupOpsList(classes, groups[..n]);
      AddsCreate(classes, groups[..n]);
      AddsGroup(classes, g);
      assert Flat(xss) == Flat(xss[..n]) + xss[n];
      AddsAppend(Flat(xss[..n]), xss[n]);
    }
  }

  lemma AddsGroup(classes: set<string>, g: (Json, seq<Entity>))
    ensures Adds(ClassGroupOps(classes, g)) == (if g.0.JStr? && g.0.s in classes then Ids(g.1) else [])
    ensures NoSave(ClassGroupOps(classes, g))
  {
    var known := g.0.JStr? && g.0.s in classes;
    var rest := if known then Flat(EntityOpsList(g.0.s, g.1)) else [];
    if known {
      AddsClass(g.0.s, g.1);
    }
    AddsAppend([Lookup(g.0)], rest);
    assert Adds([Lookup(g.0)]) == [] by {
      assert [Lookup(g.0)][..0] == [];
    }
  }

  /**
   * A completed `create_individuals` registers exactly the ids of the
   * entries of known classes, on top of what was registered before.
   */
  lemma CreateRegistersKnownClasses(s: Store, classes: set<string>, groups: seq<(Json, seq<Entity>)>)
    ensures var o := Run(s, CreateOps(classes, groups));
            o.crash.None? ==> forall k :: k in o.store.individuals <==> k in s.individuals || k in CreatedIds(classes, groups)
  {
    AddsCreate(classes, groups);
    RunRegisters(s, CreateOps(classes, groups));
  }

  /**
   * Saving reports every registered record in insertion order and then
   * their number, and leaves the registry empty.
   */
  lemma SaveClearsRegistry(s: Store)
    ensures var o := Apply(s, Save);
            && o.crash.None? && o.store.order == [] && o.store.individuals == map[]
            && o.store.saves == s.saves + 1
            && o.store.triggered == s.triggered + Shown(s.order, s.individuals) + [IndividualsCount(|s.individuals|)]
    ensures (forall id :: id in s.individuals <==> id in s.order) ==>
              Shown(s.order, s.individuals) == seq(|s.order|, i requires 0 <= i < |s.order| => AddedIndividualsTab(s.individuals[s.order[i]]))
  {
    if forall id :: id in s.individuals <==> id in s.order {
      ShownAll(s.order, s.individuals);
    }
  }

  lemma {:induction false} ShownAll(order: seq<Json>, individuals: map<Json, Individual>)
    requires forall k :: 0 <= k < |order| ==> order[k] in individuals
    ensures Shown(order, individuals) == seq(|order|, i requires 0 <= i < |order| => AddedIndividualsTab(individuals[order[i]]))
  {
    if order != [] {
      ShownAll(order[..|order| - 1], individuals);
    }
  }

  /** A write without objects does nothing at all. */
  lemma NoObjectsNoWrite(s: Store, v: Vocabulary, w: Write, accepts: Validator)
    requires w.objects.None?
    ensures Run(s, WriteOps(v, w, accepts)) == Outcome(s, None)
  {
  }

  /** A write that completes ends with the save: the registry is empty and the count comes last. */
  lemma CompletedWriteIsSaved(s: Store, v: Vocabulary, w: Write, accepts: Validator)
    requires w.objects.Some?
    ensures var o := Run(s, WriteOps(v, w, accepts));
            o.crash.None? ==>
              && o.store.individuals == map[] && o.store.order == []
              && o.store.triggered != [] && o.store.triggered[|o.store.triggered| - 1].IndividualsCount?
  {
    var ops := WriteOps(v, w, accepts);
    var body := ops[..|ops| - 1];
    assert ops == body + [Save];
    RunAppend(s, body, [Save]);
    assert [Save][..0] == [];
    var before := Run(s, body);
    if before.crash.None? {
      SaveClearsRegistry(before.store);
    }
  }

  /**
   * The registry's bookkeeping: `order` lists each registered id exactly
   * once, and every relation of a registered individual points at a
   * registered individual.
   */
  ghost predicate WellFormed(s: Store) {
    && (forall k :: k in s.individuals <==> k in s.order)
    && (forall i, j :: 0 <= i < j < |s.order| ==> s.order[i] != s.order[j])
    && (forall k, r :: k in s.individuals && r in s.individuals[k].relations ==> r.1 in s.individuals)
  }

  /** Every step keeps the bookkeeping: relations are only ever attached between registered individuals. */
  lemma ApplyKeepsWellFormed(s: Store, op: Op)
    requires WellFormed(s)
    ensures WellFormed(Apply(s, op).store)
  {
    match op {
      case Create(cls, id) => RegisterKeepsWellFormed(s, cls, id);
      case Relate(p, known, pair) => RelateKeepsWellFormed(s, p, known, pair);
      case _ =>
    }
  }

  lemma RegisterKeepsWellFormed(s: Store, cls: string, id: Json)
    requires WellFormed(s)
    ensures WellFormed(Register(s, cls, id))
  {
    if id !in s.individuals {
      assert forall i :: 0 <= i < |s.order| ==> s.order[i] != id;
    }
  }

  lemma RelateKeepsWellFormed(s: Store, p: string, known: bool, pair: Pair)
    requires WellFormed(s)
    ensures WellFormed(Apply(s, Relate(p, known, pair)).store)
  {
    if Resolves(s, pair) && known {
      var t := Apply(s, Relate(p, known, pair)).store;
      assert t.individuals[pair.subject].relations == s.individuals[pair.subject].relations + [(p, pair.target)];
    }
  }

  lemma {:induction false} RunKeepsWellFormed(s: Store, ops: seq<Op>)
    requires WellFormed(s)
    ensures WellFormed(Run(s, ops).store)
  {
    if ops != [] {
      RunKeepsWellFormed(s, ops[..|ops| - 1]);
      ApplyKeepsWellFormed(Run(s, ops[..|ops| - 1]).store, ops[|ops| - 1]);
    }
  }

  /**
   * From a fresh repository, every sequence of writes keeps the bookkeeping,
   * so each save reports every registered individual exactly once, in
   * insertion order.
   */
  lemma WritesKeepWellFormed(ops: seq<Op>)
    ensures WellFormed(Run(Store([], map[], [], 0), ops).store)
    ensures var s := Run(Store([], map[], [], 0), ops).store;
            Shown(s.order, s.individuals) == seq(|s.order|, i requires 0 <= i < |s.order| => AddedIndividualsTab(s.individuals[s.order[i]]))
  {
    RunKeepsWellFormed(Store([], map[], [], 0), ops);
    var s := Run(Store([], map[], [], 0), ops).store;
    ShownAll(s.order, s.individuals);
  }

  // ---------------------------------------------------------------------
  // The repository
  // ---------------------------------------------------------------------

  /** `OntologyOwlready2Repository`: the ontology's vocabulary and the state of the current write. */
  class Repository {
    const vocabulary: Vocabulary
    var order: seq<Json>
    var individuals: map<Json, Individual>
    var triggered: seq<Callback>
    var saves: nat

    function Snapshot(): Store
      reads this
    {
      Store(order, individuals, triggered, saves)
    }

    constructor (vocabulary: Vocabulary)
      ensures this.vocabulary == vocabulary && Snapshot() == Store([], map[], [], 0)
    {
      this.vocabulary := vocabulary;
      order, individuals, triggered, saves := [], map[], [], 0;
    }

    /** `set_labels`, on the individual registered under `id`. */
    method SetLabels(id: Json, labels: seq<seq<Json>>) returns (crash: Option<Crash>)
      modifies this
      ensures Outcome(Snapshot(), crash) == Run(old(Snapshot()), LabelOps(id, labels))
    {
      ghost var ops := LabelOps(id, labels);
      for i := 0 to |labels|
        invariant Run(old(Snapshot()), ops[..i]) == Outcome(Snapshot(), None)
      {
        RunSnoc(old(Snapshot()), ops, i);
        var parts := labels[i];
        if |parts| < 2 {
          RunStopsAtCrash(old(Snapshot()), ops, i + 1);
          return Some(LabelTooShort(parts));
        }
        ghost var before := Snapshot();
        if id in individuals {
          var rec := individuals[id];
          individuals := individuals[id := rec.(labels := rec.labels + [LangLabel(parts[0], parts[1])])];
        }
        assert Apply(before, ops[i]) == Outcome(Snapshot(), None);
      }
      assert ops[..|labels|] == ops;
      return None;
    }

    /** The inner loop of `create_individuals`: the individuals of one known class. */
    method CreateOfClass(cls: string, entities: seq<Entity>) returns (crash: Option<Crash>)
      modifies this
      ensures Outcome(Snapshot(), crash) == Run(old(Snapshot()), Flat(EntityOpsList(cls, entities)))
    {
      ghost var s0 := Snapshot();
      ghost var xss := EntityOpsList(cls, entities);
      for i := 0 to |entities|
        invariant Run(s0, Flat(xss[..i])) == Outcome(Snapshot(), None)
      {
        ghost var before := Snapshot();
        FlatStep(s0, xss, i, before);
        var e := entities[i];
        if e.id !in individuals {
          order := order + [e.id];
        }
        individuals := individuals[e.id := Individual(cls, [], [], map[])];
        ghost var created := Snapshot();
        assert Run(before, [Create(cls, e.id)]) == Outcome(created, None) by {
          assert [Create(cls, e.id)][..0] == [];
        }
        crash := SetLabels(e.id, e.labels);
        RunAppend(before, [Create(cls, e.id)], LabelOps(e.id, e.labels));
        if crash.Some? {
          FlatStop(s0, xss, i + 1);
          return;
        }
      }
      assert xss[..|entities|] == xss;
      return None;
    }

    /** `create_individuals`. */
    method CreateIndividuals(groups: seq<(Json, seq<Entity>)>) returns (crash: Option<Crash>)
      modifies this
      ensures Outcome(Snapshot(), crash) == Run(old(Snapshot()), CreateOps(vocabulary.classes, groups))
    {
      ghost var s0 := Snapshot();
      ghost var xss := ClassGroupOpsList(vocabulary.classes, groups);
      for i := 0 to |groups|
        invariant Run(s0, Flat(xss[..i])) == Outcome(Snapshot(), None)
      {
        ghost var before := Snapshot();
        FlatStep(s0, xss, i, before);
        var (className, entities) := groups[i];
        ghost var rest := if className.JStr? && className.s in vocabulary.classes then Flat(EntityOpsList(className.s, entities)) else [];
        LookupThen(before, className, rest);
        if !className.JStr? {
          FlatStop(s0, xss, i + 1);
          return Some(NameNotString(className));
        }
        if className.s !in vocabulary.classes {
          continue;
        }
        crash := CreateOfClass(className.s, entities);
        if crash.Some? {
          FlatStop(s0, xss, i + 1);
          return;
        }
      }
      assert xss[..|groups|] == xss;
      return None;
    }

    /** The inner loop of `add_object_properties`: the pairs of one property. */
    method RelatePairs(property: string, known: bool, pairs: seq<Pair>) returns (crash: Option<Crash>)
      modifies this
      ensures Outcome(Snapshot(), crash) == Run(old(Snapshot()), RelateOps(property, known, pairs))
    {
      ghost var ops := RelateOps(property, known, pairs);
      for i := 0 to |pairs|
        invariant Run(old(Snapshot()), ops[..i]) == Outcome(Snapshot(), None)
      {
        RunSnoc(old(Snapshot()), ops, i);
        var Pair(subjectName, objectName) := pairs[i];
        if subjectName !in individuals {
          triggered := triggered + [ErrorsTab(SubjectNotFound(subjectName, property))];
          continue;
        }
        if objectName !in individuals {
          triggered := triggered + [ErrorsTab(ObjectNotFound(objectName, property))];
          continue;
        }
        if !known {
          RunStopsAtCrash(old(Snapshot()), ops, i + 1);
          return Some(PropertyIsNone(property));
        }
        var subject := individuals[subjectName];
        individuals := individuals[subjectName := subject.(relations := subject.relations + [(property, objectName)])];
        triggered := triggered + [ObjPropsCount];
      }
      assert ops[..|pairs|] == ops;
      return None;
    }

    /** `add_object_properties`. */
    method AddObjectProperties(groups: seq<(Json, seq<Pair>)>) returns (crash: Option<Crash>)
      modifies this
      ensures Outcome(Snapshot(), crash) == Run(old(Snapshot()), ObjectPropertyOps(vocabulary.objectProperties, groups))
    {
      ghost var s0 := Snapshot();
      ghost var xss := RelationGroupOpsList(vocabulary.objectProperties, groups);
      for i := 0 to |groups|
        invariant Run(s0, Flat(xss[..i])) == Outcome(Snapshot(), None)
      {
        ghost var before := Snapshot();
        FlatStep(s0, xss, i, before);
        var (propertyName, pairs) := groups[i];
        RelationGroupRun(before, vocabulary.objectProperties, groups[i]);
        if !propertyName.JStr? {
          FlatStop(s0, xss, i + 1);
          return Some(NameNotString(propertyName));
        }
        var known := propertyName.s in vocabulary.objectProperties;
        if !known {
          triggered := triggered + [ErrorsTab(UnknownObjectProperty(propertyName.s))];
        }
        crash := RelatePairs(propertyName.s, known, pairs);
        if crash.Some? {
          FlatStop(s0, xss, i + 1);
          return;
        }
      }
      assert xss[..|groups|] == xss;
      return None;
    }

    /** The inner loop of `add_data_properties`: the values of one property. */
    method SetValues(property: string, pairs: seq<Pair>, accepts: Validator)
      modifies this
      ensures Outcome(Snapshot(), None) == Run(old(Snapshot()), SetValueOps(property, pairs, accepts))
    {
      ghost var ops := SetValueOps(property, pairs, accepts);
      for i := 0 to |pairs|
        invariant Run(old(Snapshot()), ops[..i]) == Outcome(Snapshot(), None)
      {
        RunSnoc(old(Snapshot()), ops, i);
        var Pair(objectName, value) := pairs[i];
        if objectName !in individuals {
          triggered := triggered + [ErrorsTab(ObjectNotFound(objectName, property))];
          continue;
        }
        if !accepts(property, value) {
          triggered := triggered + [ErrorsTab(TypeValidation(objectName))];
          continue;
        }
        var subject := individuals[objectName];
        individuals := individuals[objectName := subject.(values := subject.values[property := value])];
        triggered := triggered + [DataPropsCount];
      }
      assert ops[..|pairs|] == ops;
    }

    /** `add_data_properties`. */
    method AddDataProperties(groups: seq<(Json, seq<Pair>)>, accepts: Validator) returns (crash: Option<Crash>)
      modifies this
      ensures Outcome(Snapshot(), crash) == Run(old(Snapshot()), DataPropertyOps(vocabulary.dataProperties, groups, accepts))
    {
      ghost var s0 := Snapshot();
      ghost var xss := DataGroupOpsList(vocabulary.dataProperties, groups, accepts);
      for i := 0 to |groups|
        invariant Run(s0, Flat(xss[..i])) == Outcome(Snapshot(), None)
      {
        ghost var before := Snapshot();
        FlatStep(s0, xss, i, before);
        var (propertyName, pairs) := groups[i];
        ghost var rest := if propertyName.JStr? && propertyName.s in vocabulary.dataProperties then SetValueOps(propertyName.s, pairs, accepts) else [];
        LookupThen(before, propertyName, rest);
        if !propertyName.JStr? {
          FlatStop(s0, xss, i + 1);
          return Some(NameNotString(propertyName));
        }
        if propertyName.s !in vocabulary.dataProperties {
          continue;
        }
        SetValues(propertyName.s, pairs, accepts);
      }
      assert xss[..|groups|] == xss;
      return None;
    }

    /** `save_ontology`: the file write itself is counted in `saves`. */
    method SaveOntology()
      modifies this
      ensures Outcome(Snapshot(), None) == Apply(old(Snapshot()), Save)
    {
      var ids, records, count := order, individuals, saves;
      for i := 0 to |ids|
        invariant triggered == old(triggered) + Shown(ids[..i], records)
      {
        assert ids[..i + 1][..i] == ids[..i];
        if ids[i] in records {
          triggered := triggered + [AddedIndividualsTab(records[ids[i]])];
        }
      }
      assert ids[..|ids|] == ids;
      saves := count + 1;
      triggered := triggered + [IndividualsCount(|records|)];
      individuals := map[];
      order := [];
    }

    /** `add_individuals`. */
    method AddIndividuals(w: Write, accepts: Validator) returns (crash: Option<Crash>)
      modifies this
      ensures Outcome(Snapshot(), crash) == Run(old(Snapshot()), WriteOps(vocabulary, w, accepts))
    {
      ghost var s0 := Snapshot();
      if w.objects.None? {
        return None;
      }
      ghost var a := CreateOps(vocabulary.classes, w.objects.value);
      ghost var b := if w.objectProperties.Some? then ObjectPropertyOps(vocabulary.objectProperties, w.objectProperties.value) else [];
      ghost var c := if w.dataProperties.Some? then DataPropertyOps(vocabulary.dataProperties, w.dataProperties.value, accepts) else [];
      RunAppend(s0, a + b + c, [Save]);
      RunAppend(s0, a + b, c);
      RunAppend(s0, a, b);
      crash := CreateIndividuals(w.objects.value);
      if crash.Some? {
        return;
      }
      if w.objectProperties.Some? {
        crash := AddObjectProperties(w.objectProperties.value);
        if crash.Some? {
          return;
        }
      }
      ghost var s2 := Snapshot();
      assert Run(s0, a + b) == Outcome(s2, None);
      if w.dataProperties.Some? {
        crash := AddDataProperties(w.dataProperties.value, accepts);
        if crash.Some? {
          return;
        }
      }
      ghost var s3 := Snapshot();
      assert Run(s0, a + b + c) == Outcome(s3, None);
      SaveOntology();
      assert [Save][..0] == [];
      return None;
    }
  }
}
