/**
 * Building the extraction prompt from an ontology. Classes and properties
 * take part only when one of their comments starts with `!`; the text after
 * the `!` is appended to their name. Relations and data properties are
 * described by the kept classes that descend from their domain and range.
 */
module PromptGenerator {
  import opened Wrappers

  /** A class: its name, its comments and the names of its ancestors (itself included). */
  datatype OntClass = OntClass(name: string, comments: seq<string>, ancestors: set<string>)

  /** An object property, with the class names of its domain and range. */
  datatype ObjectProperty = ObjectProperty(name: string, comments: seq<string>, domain: seq<string>, range: seq<string>)

  /** A data property, with the class names of its domain and the names of its value types. */
  datatype DataProperty = DataProperty(name: string, comments: seq<string>, domain: seq<string>, range: seq<string>)

  /** The parts of an ontology the prompt reads, each in the ontology's order. */
  datatype Ontology = Ontology(classes: seq<OntClass>, objectProperties: seq<ObjectProperty>, dataProperties: seq<DataProperty>)

  // ---------------------------------------------------------------------
  // Strings
  // ---------------------------------------------------------------------

  /** `str.isspace` for one character. */
  predicate IsSpace(c: char) {
    var n := c as int;
    || 9 <= n <= 13 || 28 <= n <= 32 || n == 0x85 || n == 0xA0 || n == 0x1680
    || 0x2000 <= n <= 0x200A || n == 0x2028 || n == 0x2029 || n == 0x202F || n == 0x205F || n == 0x3000
  }

  predicate AllSpace(s: string) {
    forall i :: 0 <= i < |s| ==> IsSpace(s[i])
  }

  /** The text without its leading whitespace. */
  function TrimStart(s: string): (r: string)
    ensures |r| <= |s|
  {
    if s != [] && IsSpace(s[0]) then TrimStart(s[1..]) else s
  }

  /** The text without its trailing whitespace. */
  function TrimEnd(s: string): (r: string)
    ensures |r| <= |s|
  {
    if s != [] && IsSpace(s[|s| - 1]) then TrimEnd(s[..|s| - 1]) else s
  }

  lemma {:induction false} TrimStartShape(s: string)
    ensures var r := TrimStart(s);
            r == s[|s| - |r|..] && AllSpace(s[..|s| - |r|]) && (r != [] ==> !IsSpace(r[0]))
  {
    if s != [] && IsSpace(s[0]) {
      var r := TrimStart(s[1..]);
      TrimStartShape(s[1..]);
      assert s[1..][|s[1..]| - |r|..] == s[|s| - |r|..];
      var cut, inner := s[..|s| - |r|], s[1..][..|s[1..]| - |r|];
      forall i | 1 <= i < |cut|
        ensures IsSpace(cut[i])
      {
        assert cut[i] == inner[i - 1];
      }
    }
  }

  lemma {:induction false} TrimEndShape(s: string)
    ensures var r := TrimEnd(s);
            r == s[..|r|] && AllSpace(s[|r|..]) && (r != [] ==> !IsSpace(r[|r| - 1]))
  {
    if s != [] && IsSpace(s[|s| - 1]) {
      var r := TrimEnd(s[..|s| - 1]);
      TrimEndShape(s[..|s| - 1]);
      var cut, inner := s[|r|..], s[..|s| - 1][|r|..];
      forall i | 0 <= i < |inner|
        ensures IsSpace(cut[i])
      {
        assert cut[i] == inner[i];
      }
    }
  }

  /** `str.strip()`: the text without its leading and trailing whitespace. */
  function Strip(s: string): (r: string)
    ensures |r| <= |s|
  {
    TrimEnd(TrimStart(s))
  }

  /**
   * Stripping keeps one slice of the text: whitespace is cut from both ends,
   * the result neither starts nor ends with whitespace, and it is empty
   * exactly when the text is blank.
   */
  lemma StripShape(s: string)
    ensures var r := Strip(s);
            && (exists i, j :: 0 <= i <= j <= |s| && r == s[i..j] && AllSpace(s[..i]) && AllSpace(s[j..]))
            && (r != [] ==> !IsSpace(r[0]) && !IsSpace(r[|r| - 1]))
            && (r == [] <==> AllSpace(s))
  {
    var front := TrimStart(s);
    var r := TrimEnd(front);
    TrimStartShape(s);
    TrimEndShape(front);
    var i := |s| - |front|;
    var j := i + |r|;
    assert r == s[i..j];
    assert s[j..] == front[|r|..];
    if r == [] {
      forall k | 0 <= k < |s|
        ensures IsSpace(s[k])
      {
        assert s[k] == s[..i][k];
      }
    } else {
      assert r[0] == s[i] == front[0];
    }
  }

  /** `", ".join(xs)` and its kin. */
  function Join(sep: string, xs: seq<string>): (r: string)
    ensures xs == [] ==> r == ""
    ensures |xs| == 1 ==> r == xs[0]
  {
    if xs == [] then "" else if |xs| == 1 then xs[0] else Join(sep, xs[..|xs| - 1]) + sep + xs[|xs| - 1]
  }

  /** A join is empty only when every piece and every separator it uses is. */
  lemma {:induction false} JoinNonEmpty(sep: string, xs: seq<string>, i: nat)
    requires i < |xs| && xs[i] != ""
    ensures Join(sep, xs) != ""
  {
    if |xs| > 1 && i < |xs| - 1 {
      JoinNonEmpty(sep, xs[..|xs| - 1], i);
    }
  }

  // ---------------------------------------------------------------------
  // process_comments
  // ---------------------------------------------------------------------

  predicate IsMarked(comment: string) {
    |comment| > 0 && comment[0] == '!'
  }

  /** The position of the first comment starting with `!`. */
  function FirstMarked(comments: seq<string>): (r: Option<nat>)
    ensures r.None? <==> forall i :: 0 <= i < |comments| ==> !IsMarked(comments[i])
    ensures r.Some? ==> r.value < |comments| && IsMarked(comments[r.value])
                        && forall i :: 0 <= i < r.value ==> !IsMarked(comments[i])
  {
    if comments == [] then None
    else if IsMarked(comments[0]) then Some(0)
    else
      match FirstMarked(comments[1..])
      case None =>
        assert forall i :: 1 <= i < |comments| ==> comments[i] == comments[1..][i - 1];
        None
      case Some(i) =>
        assert forall k :: 1 <= k < i + 1 ==> comments[k] == comments[1..][k - 1];
        Some(i + 1)
  }

  /** The text a marked comment adds: what follows `!`, stripped, if not blank. */
  function Extra(comment: string): Option<string>
    requires IsMarked(comment)
  {
    var text := Strip(comment[1..]);
    if text != "" then Some(text) else None
  }

  /** What `process_comments` returns. */
  function Annotation(comments: seq<string>): (r: (bool, Option<string>))
    ensures r.0 ==> r.1 == None
  {
    match FirstMarked(comments)
    case None => (true, None)
    case Some(i) => (false, Extra(comments[i]))
  }

  /**
   * `process_comments` ignores an entity iff none of its comments starts
   * with `!`; otherwise its extra text comes from the first such comment,
   * is stripped, and is absent when blank.
   */
  lemma AnnotationMeaning(comments: seq<string>)
    ensures Annotation(comments).0 <==> forall i :: 0 <= i < |comments| ==> !IsMarked(comments[i])
    ensures !Annotation(comments).0 ==>
              exists i :: && 0 <= i < |comments| && IsMarked(comments[i])
                          && (forall k :: 0 <= k < i ==> !IsMarked(comments[k]))
                          && Annotation(comments).1 == Extra(comments[i])
    ensures var extra := Annotation(comments).1;
            extra.Some? ==> extra.value != "" && !IsSpace(extra.value[0]) && !IsSpace(extra.value[|extra.value| - 1])
  {
    var m := FirstMarked(comments);
    if m.Some? {
      StripShape(comments[m.value][1..]);
    }
  }

  /** `process_comments`. */
  method ProcessComments(comments: seq<string>) returns (ignore: bool, additionalText: Option<string>)
    ensures (ignore, additionalText) == Annotation(comments)
  {
    ignore := true;
    additionalText := None;
    for i := 0 to |comments|
      invariant forall k :: 0 <= k < i ==> !IsMarked(comments[k])
    {
      var comment := comments[i];
      if |comment| > 0 && comment[0] == '!' {
        additionalText := if Strip(comment[1..]) != "" then Some(Strip(comment[1..])) else None;
        ignore := false;
        assert FirstMarked(comments) == Some(i);
        return;
      }
    }
  }

  /** A name followed by ` (extra text)` when its comments carry some. */
  function Label(name: string, comments: seq<string>): string {
    var extra := Annotation(comments).1;
    if extra.Some? then name + " (" + extra.value + ")" else name
  }

  // ---------------------------------------------------------------------
  // class_is_subclass_of, get_class_list
  // ---------------------------------------------------------------------

  /** Some of `targets` is an ancestor of `c`. */
  predicate DescendsFrom(c: OntClass, targets: seq<string>) {
    exists i :: 0 <= i < |targets| && targets[i] in c.ancestors
  }

  /** `class_is_subclass_of`. */
  method ClassIsSubclassOf(c: OntClass, targets: seq<string>) returns (b: bool)
    ensures b <==> DescendsFrom(c, targets)
  {
    for i := 0 to |targets|
      invariant forall k :: 0 <= k < i ==> targets[k] !in c.ancestors
    {
      if targets[i] in c.ancestors {
        return true;
      }
    }
    return false;
  }

  predicate Ignored(c: OntClass) {
    Annotation(c.comments).0
  }

  /** The classes not ignored, in ontology order. */
  function KeptClasses(classes: seq<OntClass>): (r: seq<OntClass>)
    ensures |r| <= |classes|
    ensures forall c :: c in r <==> c in classes && !Ignored(c)
  {
    if classes == [] then []
    else
      var init := KeptClasses(classes[..|classes| - 1]);
      var last := classes[|classes| - 1];
      assert classes == classes[..|classes| - 1] + [last];
      if Ignored(last) then init else init + [last]
  }

  /** Keeping classes commutes with concatenation, so the ontology's order is kept. */
  lemma {:induction false} KeptClassesAppend(xs: seq<OntClass>, ys: seq<OntClass>)
    ensures KeptClasses(xs + ys) == KeptClasses(xs) + KeptClasses(ys)
  {
    if ys == [] {
      assert xs + ys == xs;
    } else {
      var init := ys[..|ys| - 1];
      assert (xs + ys)[..|xs + ys| - 1] == xs + init;
      KeptClassesAppend(xs, init);
    }
  }

  /** A class's entry in the class list. */
  function Describe(c: OntClass): string {
    Label(c.name, c.comments)
  }

  function Descriptions(cs: seq<OntClass>): (r: seq<string>)
    ensures |r| == |cs| && forall i :: 0 <= i < |cs| ==> r[i] == Describe(cs[i])
  {
    if cs == [] then [] else Descriptions(cs[..|cs| - 1]) + [Describe(cs[|cs| - 1])]
  }

  /** `get_class_list`: the descriptions and the kept classes, aligned index by index. */
  method GetClassList(onto: Ontology) returns (descriptions: seq<string>, kept: seq<OntClass>)
    ensures kept == KeptClasses(onto.classes)
    ensures descriptions == Descriptions(kept)
  {
    descriptions, kept := [], [];
    var classes := onto.classes;
    for i := 0 to |classes|
      invariant kept == KeptClasses(classes[..i])
      invariant descriptions == Descriptions(kept)
    {
      assert classes[..i + 1][..i] == classes[..i];
      var c := classes[i];
      var ignore, additionalText := ProcessComments(c.comments);
      if ignore {
        continue;
      }
      var className := c.name;
      ghost var old_kept := kept;
      kept := kept + [c];
      if additionalText.Some? {
        className := className + " (" + additionalText.value + ")";
      }
      descriptions := descriptions + [className];
      assert kept[..|kept| - 1] == old_kept;
    }
    assert classes[..|classes|] == classes;
  }

  // ---------------------------------------------------------------------
  // get_relation_list, get_data_property_list
  // ---------------------------------------------------------------------

  /** The kept classes descending from one of `targets`, in kept order. */
  function DescendantsOf(kept: seq<OntClass>, targets: seq<string>): (r: seq<OntClass>)
    ensures forall c :: c in r <==> c in kept && DescendsFrom(c, targets)
  {
    if kept == [] then []
    else
      var init := DescendantsOf(kept[..|kept| - 1], targets);
      var last := kept[|kept| - 1];
      assert kept == kept[..|kept| - 1] + [last];
      if DescendsFrom(last, targets) then init + [last] else init
  }

  /** Selecting descendants commutes with concatenation, so the kept order is kept. */
  lemma {:induction false} DescendantsOfAppend(xs: seq<OntClass>, ys: seq<OntClass>, targets: seq<string>)
    ensures DescendantsOf(xs + ys, targets) == DescendantsOf(xs, targets) + DescendantsOf(ys, targets)
  {
    if ys == [] {
      assert xs + ys == xs;
    } else {
      var init := ys[..|ys| - 1];
      assert (xs + ys)[..|xs + ys| - 1] == xs + init;
      DescendantsOfAppend(xs, init, targets);
    }
  }

  /** The loop collecting `prop_domain_classes` or `prop_range_classes`. */
  method CollectDescendants(kept: seq<OntClass>, targets: seq<string>) returns (r: seq<OntClass>)
    ensures r == DescendantsOf(kept, targets)
  {
    r := [];
    for i := 0 to |kept|
      invariant r == DescendantsOf(kept[..i], targets)
    {
      assert kept[..i + 1][..i] == kept[..i];
      var b := ClassIsSubclassOf(kept[i], targets);
      if b {
        r := r + [kept[i]];
      }
    }
    assert kept[..|kept|] == kept;
  }

  function ClassNames(cs: seq<OntClass>): (r: seq<string>)
    ensures |r| == |cs| && forall i :: 0 <= i < |cs| ==> r[i] == cs[i].name
  {
    seq(|cs|, i requires 0 <= i < |cs| => cs[i].name)
  }

  /** `", ".join(names) if classes else ""`. */
  function NameList(cs: seq<OntClass>): string {
    if cs != [] then Join(", ", ClassNames(cs)) else ""
  }

  /** The line for one object property, if it gets one. */
  function RelationLine(p: ObjectProperty, kept: seq<OntClass>): Option<string> {
    if Annotation(p.comments).0 then None
    else
      var domainStr := NameList(DescendantsOf(kept, p.domain));
      var rangeStr := NameList(DescendantsOf(kept, p.range));
      if domainStr != "" && rangeStr != "" then
        Some(Label(p.name, p.comments) + ": relates individuals of " + domainStr + " to individuals of " + rangeStr)
      else None
  }

  /** The lines of all object properties that get one, in ontology order. */
  function RelationLines(props: seq<ObjectProperty>, kept: seq<OntClass>): seq<string> {
    if props == [] then []
    else
      var init := RelationLines(props[..|props| - 1], kept);
      match RelationLine(props[|props| - 1], kept)
      case Some(line) => init + [line]
      case None => init
  }

  /**
   * A relation line is emitted only for a marked property with at least one
   * kept descendant of its domain and one of its range; with class names
   * non-empty, that is also enough.
   */
  lemma RelationLineNeedsBothSides(p: ObjectProperty, kept: seq<OntClass>)
    ensures RelationLine(p, kept).Some? ==>
              && !Annotation(p.comments).0
              && DescendantsOf(kept, p.domain) != [] && DescendantsOf(kept, p.range) != []
    ensures (forall i :: 0 <= i < |kept| ==> kept[i].name != "") ==>
              (RelationLine(p, kept).Some? <==>
                 !Annotation(p.comments).0 && DescendantsOf(kept, p.domain) != [] && DescendantsOf(kept, p.range) != [])
  {
    var ds, rs := DescendantsOf(kept, p.domain), DescendantsOf(kept, p.range);
    if forall i :: 0 <= i < |kept| ==> kept[i].name != "" {
      if ds != [] {
        assert ds[0] in kept;
        JoinNonEmpty(", ", ClassNames(ds), 0);
      }
      if rs != [] {
        assert rs[0] in kept;
        JoinNonEmpty(", ", ClassNames(rs), 0);
      }
    }
  }

  /** `get_relation_list`. */
  method GetRelationList(onto: Ontology, kept: seq<OntClass>) returns (relations: seq<string>)
    ensures relations == RelationLines(onto.objectProperties, kept)
  {
    relations := [];
    var props := onto.objectProperties;
    for i := 0 to |props|
      invariant relations == RelationLines(props[..i], kept)
    {
      assert props[..i + 1][..i] == props[..i];
      var p := props[i];
      var ignore, additionalText := ProcessComments(p.comments);
      if ignore {
        continue;
      }
      var relationName := p.name;
      if additionalText.Some? {
        relationName := relationName + " (" + additionalText.value + ")";
      }
      var domainClasses := CollectDescendants(kept, p.domain);
      var rangeClasses := CollectDescendants(kept, p.range);
      var domainStr := if domainClasses != [] then Join(", ", ClassNames(domainClasses)) else "";
      var rangeStr := if rangeClasses != [] then Join(", ", ClassNames(rangeClasses)) else "";
      if domainStr != "" && rangeStr != "" {
        relations := relations + [relationName + ": relates individuals of " + domainStr + " to individuals of " + rangeStr];
      }
    }
    assert props[..|props|] == props;
  }

  /** The line for one data property, if it gets one. */
  function DataPropertyLine(p: DataProperty, kept: seq<OntClass>): Option<string> {
    if Annotation(p.comments).0 then None
    else
      var domainStr := NameList(DescendantsOf(kept, p.domain));
      var typeStr := if p.range != [] then Join(", ", p.range) else "";
      if domainStr != "" && typeStr != "" then
        Some(Label(p.name, p.comments) + ": applies to individuals of " + domainStr + ", values must be of type " + typeStr)
      else None
  }

  function DataPropertyLines(props: seq<DataProperty>, kept: seq<OntClass>): seq<string> {
    if props == [] then []
    else
      var init := DataPropertyLines(props[..|props| - 1], kept);
      match DataPropertyLine(props[|props| - 1], kept)
      case Some(line) => init + [line]
      case None => init
  }

  /**
   * A data-property line is emitted only for a marked property with a kept
   * descendant of its domain and at least one value type; with class and
   * type names non-empty, that is also enough.
   */
  lemma DataPropertyLineNeedsDomainAndType(p: DataProperty, kept: seq<OntClass>)
    ensures DataPropertyLine(p, kept).Some? ==>
              !Annotation(p.comments).0 && DescendantsOf(kept, p.domain) != [] && p.range != []
    ensures (forall i :: 0 <= i < |kept| ==> kept[i].name != "") && (forall i :: 0 <= i < |p.range| ==> p.range[i] != "") ==>
              (DataPropertyLine(p, kept).Some? <==>
                 !Annotation(p.comments).0 && DescendantsOf(kept, p.domain) != [] && p.range != [])
  {
    var ds := DescendantsOf(kept, p.domain);
    if (forall i :: 0 <= i < |kept| ==> kept[i].name != "") && (forall i :: 0 <= i < |p.range| ==> p.range[i] != "") {
      if ds != [] {
        assert ds[0] in kept;
        JoinNonEmpty(", ", ClassNames(ds), 0);
      }
      if p.range != [] {
        JoinNonEmpty(", ", p.range, 0);
      }
    }
  }

  /** `get_data_property_list`. */
  method GetDataPropertyList(onto: Ontology, kept: seq<OntClass>) returns (properties: seq<string>)
    ensures properties == DataPropertyLines(onto.dataProperties, kept)
  {
    properties := [];
    var props := onto.dataProperties;
    for i := 0 to |props|
      invariant properties == DataPropertyLines(props[..i], kept)
    {
      assert props[..i + 1][..i] == props[..i];
      var p := props[i];
      var ignore, additionalText := ProcessComments(p.comments);
      if ignore {
        continue;
      }
      var propertyName := p.name;
      if additionalText.Some? {
        propertyName := propertyName + " (" + additionalText.value + ")";
      }
      var domainClasses := CollectDescendants(kept, p.domain);
      var domainStr := if domainClasses != [] then Join(", ", ClassNames(domainClasses)) else "";
      var typeStr := if p.range != [] then Join(", ", p.range) else "";
      if domainStr != "" && typeStr != "" {
        properties := properties + [propertyName + ": applies to individuals of " + domainStr + ", values must be of type " + typeStr];
      }
    }
    assert props[..|props|] == props;
  }

  // ---------------------------------------------------------------------
  // generate_prompt
  // ---------------------------------------------------------------------

  // Each heading is written as its first word plus the rest, which lets the
  // verifier see the words that tell the sections apart.
  const ClassHeading := "Select " + "all individuals of the following classes mentioned in the text:\n"
  const ObjectsFormat := "Return them in three languages (Kazakh, English, Russian) as a list according to this format:\n"
    + "\"objects\": [[\"class name\", \"individual name in en\", [[\"individual name in kz\", \"kz\"], [\"individual name in en\", \"en\"], [\"individual name in ru\", \"ru\"]]],]\n\n"
  const RelationHeading := "Additionally, " + "identify any relationships between the found individuals mentioned in the text, using only the following possible relations:\n"
  const RelationFormat := "Return them as a list in this format:\n"
    + "\"object_properties\": [[\"relationship name\", [\"subject individual name in english\", \"object individual name in english\"]],]\n\n"
  const DataHeading := "Finally, " + "based on the text, identify any data properties for the found individuals mentioned in the text, using only the following possible data properties:\n"
  const DataFormat := "Return them as a list in this format:\n"
    + "\"data_properties\": [[\"data property name\", [\"individual name in english\", \"value\"]],]\n"
  const Closing := "Important: " + "Do not include any information from that instruction in your response. Your response should contain **only** the data explicitly extracted from the text and formatted as described above."

  /** The class part every prompt starts with. */
  function ClassSection(descriptions: seq<string>): string {
    ClassHeading + Join(", ", descriptions) + "\n" + ObjectsFormat
  }

  /**
   * `prompt` followed by a section: its heading, the lines joined by `sep`,
   * a newline and the format it asks for, or nothing when there are no lines.
   */
  function Section(prompt: string, heading: string, lines: seq<string>, sep: string, format: string): string {
    if lines != [] then prompt + heading + Join(sep, lines) + "\n" + format else prompt
  }

  function WithRelations(prompt: string, relations: seq<string>): string {
    Section(prompt, RelationHeading, relations, "\n", RelationFormat)
  }

  function WithDataProperties(prompt: string, properties: seq<string>): string {
    Section(prompt, DataHeading, properties, ", ", DataFormat)
  }

  /** The prompt assembled from the class descriptions, relation lines and data-property lines. */
  function Prompt(descriptions: seq<string>, relations: seq<string>, properties: seq<string>): string {
    WithDataProperties(WithRelations(ClassSection(descriptions), relations), properties) + Closing
  }

  /** The prompt `generate_prompt` builds for an ontology. */
  function PromptText(onto: Ontology): string {
    var kept := KeptClasses(onto.classes);
    Prompt(Descriptions(kept), RelationLines(onto.objectProperties, kept), DataPropertyLines(onto.dataProperties, kept))
  }

  /** `generate_prompt`. */
  method GeneratePrompt(onto: Ontology) returns (prompt: string)
    ensures prompt == PromptText(onto)
  {
    var descriptions, kept := GetClassList(onto);
    var relations := GetRelationList(onto, kept);
    var properties := GetDataPropertyList(onto, kept);
    prompt := ClassHeading;
    prompt := prompt + Join(", ", descriptions) + "\n";
    prompt := prompt + ObjectsFormat;
    if relations != [] {
      prompt := prompt + RelationHeading;
      prompt := prompt + Join("\n", relations) + "\n";
      prompt := prompt + RelationFormat;
    }
    if properties != [] {
      prompt := prompt + DataHeading;
      prompt := prompt + Join(", ", properties) + "\n";
      prompt := prompt + DataFormat;
    }
    prompt := prompt + Closing;
  }

  predicate IsPrefixOf(p: string, s: string) {
    |p| <= |s| && s[..|p|] == p
  }

  lemma PrefixOfAppend(a: string, b: string)
    ensures IsPrefixOf(a, a + b)
  {
    assert (a + b)[..|a|] == a;
  }

  lemma PrefixTransitive(a: string, b: string, c: string)
    requires IsPrefixOf(a, b) && IsPrefixOf(b, c)
    ensures IsPrefixOf(a, c)
  {
    assert c[..|a|] == c[..|b|][..|a|];
  }

  /** What follows a prefix `a + b` of `s`, after `a`, starts with `b`. */
  lemma PrefixAfter(a: string, b: string, s: string)
    requires IsPrefixOf(a + b, s)
    ensures |a| <= |s| && IsPrefixOf(b, s[|a|..])
  {
    assert s[|a|..][..|b|] == s[..|a + b|][|a|..];
  }

  /** A section never rewrites the text before it, and starts with its heading. */
  lemma SectionExtends(prompt: string, heading: string, lines: seq<string>, sep: string, format: string)
    ensures IsPrefixOf(prompt, Section(prompt, heading, lines, sep, format))
    ensures lines != [] ==> IsPrefixOf(prompt + heading, Section(prompt, heading, lines, sep, format))
  {
    if lines != [] {
      var rest := Join(sep, lines) + "\n" + format;
      assert Section(prompt, heading, lines, sep, format) == (prompt + heading) + rest;
      PrefixOfAppend(prompt + heading, rest);
      PrefixOfAppend(prompt, heading);
      PrefixTransitive(prompt, prompt + heading, Section(prompt, heading, lines, sep, format));
    } else {
      assert prompt[..|prompt|] == prompt;
    }
  }

  /**
   * For any article built like the prompt (a start, two optional sections
   * and a closing text, all three starting with different characters),
   * each section's heading stands at its place iff the section has lines.
   */
  lemma TwoSectionsIffLines(start: string, h1: string, lines1: seq<string>, sep1: string, f1: string,
                            h2: string, lines2: seq<string>, sep2: string, f2: string, closing: string)
    requires h1 != [] && h2 != [] && closing != []
    requires h1[0] != h2[0] && h1[0] != closing[0] && h2[0] != closing[0]
    ensures var mid := Section(start, h1, lines1, sep1, f1);
            var p := Section(mid, h2, lines2, sep2, f2) + closing;
            && |start| <= |mid| <= |p|
            && (IsPrefixOf(h1, p[|start|..]) <==> lines1 != [])
            && (IsPrefixOf(h2, p[|mid|..]) <==> lines2 != [])
  {
    var mid := Section(start, h1, lines1, sep1, f1);
    var body := Section(mid, h2, lines2, sep2, f2);
    var p := body + closing;
    PrefixOfAppend(body, closing);
    SectionExtends(start, h1, lines1, sep1, f1);
    SectionExtends(mid, h2, lines2, sep2, f2);
    var next := if lines2 != [] then h2 else closing;
    if lines2 != [] {
      PrefixTransitive(mid + h2, body, p);
    } else {
      assert p == mid + closing;
      PrefixOfAppend(mid + closing, []);
    }
    PrefixAfter(mid, next, p);
    if lines1 != [] {
      PrefixTransitive(start + h1, mid, body);
      PrefixTransitive(start + h1, body, p);
      PrefixAfter(start, h1, p);
    } else {
      assert p[|start|..][0] == next[0];
    }
  }

  /**
   * The prompt begins with the class heading and the comma-joined class
   * descriptions, and ends with the closing sentence.
   */
  lemma PromptFrame(descriptions: seq<string>, relations: seq<string>, properties: seq<string>)
    ensures var p := Prompt(descriptions, relations, properties);
            && IsPrefixOf(ClassHeading + Join(", ", descriptions) + "\n", p)
            && |Closing| <= |p| && p[|p| - |Closing|..] == Closing
  {
    var head := ClassHeading + Join(", ", descriptions) + "\n";
    var cs := ClassSection(descriptions);
    var withRelations := WithRelations(cs, relations);
    var body := WithDataProperties(withRelations, properties);
    PrefixOfAppend(head, ObjectsFormat);
    SectionExtends(cs, RelationHeading, relations, "\n", RelationFormat);
    SectionExtends(withRelations, DataHeading, properties, ", ", DataFormat);
    PrefixTransitive(head, cs, withRelations);
    PrefixTransitive(head, withRelations, body);
    PrefixOfAppend(body, Closing);
    PrefixTransitive(head, body, body + Closing);
  }

  lemma HeadingsDiffer()
    ensures RelationHeading != [] && DataHeading != [] && Closing != []
    ensures RelationHeading[0] == 'A' && DataHeading[0] == 'F' && Closing[0] == 'I'
  {
  }

  /**
   * Right after the class section, the relation section begins iff there
   * are relation lines; right after that, the data-property section begins
   * iff there are data-property lines. (The sections and the closing
   * sentence start with different words, so each position tells.)
   */
  lemma PromptSectionsIffLines(descriptions: seq<string>, relations: seq<string>, properties: seq<string>)
    ensures var at := |ClassSection(descriptions)|;
            var p := Prompt(descriptions, relations, properties);
            && at <= |p|
            && (IsPrefixOf(RelationHeading, p[at..]) <==> relations != [])
    ensures var at := |WithRelations(ClassSection(descriptions), relations)|;
            var p := Prompt(descriptions, relations, properties);
            && at <= |p|
            && (IsPrefixOf(DataHeading, p[at..]) <==> properties != [])
  {
    HeadingsDiffer();
    TwoSectionsIffLines(ClassSection(descriptions), RelationHeading, relations, "\n", RelationFormat,
                        DataHeading, properties, ", ", DataFormat, Closing);
  }
}
