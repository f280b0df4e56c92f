/**
 * Turning the completions of one chunk into facts: each completion's JSON
 * span is extracted and parsed, mapped by the JSON adapter and counted; the
 * facts that enough completions agree on are the chunk's result.
 */
module TextProcessor {
  import opened Wrappers
  import opened JsonValue
  import opened Errors
  import opened JsonAdapter
  import opened Voting

  // ---------------------------------------------------------------------
  // extract_json
  // ---------------------------------------------------------------------

  /** The position of the first `c` in `s`. */
  function FirstIndexOf(s: string, c: char): (r: Option<nat>)
    ensures r.None? <==> c !in s
    ensures r.Some? ==> r.value < |s| && s[r.value] == c && c !in s[..r.value]
  {
    if s == [] then None
    else if s[0] == c then Some(0)
    else
      match FirstIndexOf(s[1..], c)
      case None => None
      case Some(i) =>
        assert s[..i + 1] == [s[0]] + s[1..][..i];
        Some(i + 1)
  }

  /** The position of the last `c` in `s`. */
  function LastIndexOf(s: string, c: char): (r: Option<nat>)
    ensures r.None? <==> c !in s
    ensures r.Some? ==> r.value < |s| && s[r.value] == c && c !in s[r.value + 1..]
  {
    if s == [] then None
    else if s[|s| - 1] == c then Some(|s| - 1)
    else
      var init := s[..|s| - 1];
      match LastIndexOf(init, c)
      case None =>
        assert s == init + [s[|s| - 1]];
        None
      case Some(i) =>
        assert s[i + 1..] == init[i + 1..] + [s[|s| - 1]];
        Some(i)
  }

  /**
   * What `re.search(r'(\{.*\})', choice, re.DOTALL)` matches: the greedy span
   * from the first `{` to the last `}`, provided the first comes before the
   * last. A later `{` cannot start a match the first one could not, so this
   * is the leftmost match.
   */
  function FindJsonSpan(s: string): (r: Option<string>)
    ensures r.Some? <==> exists i, j :: 0 <= i < j < |s| && s[i] == '{' && s[j] == '}'
    ensures r.Some? ==> exists i, j :: && 0 <= i < j < |s| && r.value == s[i..j + 1]
                                      && s[i] == '{' && s[j] == '}' && '{' !in s[..i] && '}' !in s[j + 1..]
  {
    var first, last := FirstIndexOf(s, '{'), LastIndexOf(s, '}');
    BracesBoundAll(s);
    if first.Some? && last.Some? && first.value < last.value then
      Some(s[first.value..last.value + 1])
    else
      None
  }

  /** The first `{` comes no later, and the last `}` no earlier, than any pair of them. */
  lemma BracesBoundAll(s: string)
    ensures forall i, j :: 0 <= i < j < |s| && s[i] == '{' && s[j] == '}' ==>
              && FirstIndexOf(s, '{').Some? && LastIndexOf(s, '}').Some?
              && FirstIndexOf(s, '{').value <= i && j <= LastIndexOf(s, '}').value
  {
    forall i, j | 0 <= i < j < |s| && s[i] == '{' && s[j] == '}'
      ensures FirstIndexOf(s, '{').Some? && LastIndexOf(s, '}').Some?
      ensures FirstIndexOf(s, '{').value <= i && j <= LastIndexOf(s, '}').value
    {
      BracesBound(s, i, j);
    }
  }


  lemma BracesBound(s: string, i: nat, j: nat)
    requires i < j < |s| && s[i] == '{' && s[j] == '}'
    ensures FirstIndexOf(s, '{').Some? && FirstIndexOf(s, '{').value <= i
    ensures LastIndexOf(s, '}').Some? && j <= LastIndexOf(s, '}').value
  {
    assert '{' in s && '}' in s;
  }

  /**
   * A completion holding exactly one object in surrounding prose (no `{`
   * before it, no `}` after it) yields that object's text.
   */
  lemma ObjectInProseIsFound(pre: string, obj: string, post: string)
    requires '{' !in pre && '}' !in post
    requires |obj| >= 2 && obj[0] == '{' && obj[|obj| - 1] == '}'
    ensures FindJsonSpan(pre + obj + post) == Some(obj)
  {
    var s := pre + obj + post;
    var i, j := |pre|, |pre| + |obj| - 1;
    assert s[i] == '{' && s[j] == '}';
    var r := FindJsonSpan(s);
    var i', j' :| && 0 <= i' < j' < |s| && r.value == s[i'..j' + 1]
                  && s[i'] == '{' && s[j'] == '}' && '{' !in s[..i'] && '}' !in s[j' + 1..];
    assert s[i..j + 1] == obj;
  }

  /** `json.loads` of a `{...}` span: the object, or None for a decode error. */
  type Parser = string -> Option<map<string, Json>>

  /** `extract_json`. */
  function ExtractJson(choice: string, parse: Parser): (r: Result<map<string, Json>, Error>)
    ensures r == Err(JsonNotFound(choice)) <==> FindJsonSpan(choice).None?
    ensures r.Err? && r.error.JsonDecode? <==>
              FindJsonSpan(choice).Some? && parse(FindJsonSpan(choice).value).None?
    ensures r.Err? ==> r.error.JsonNotFound? || r.error.JsonDecode?
    ensures r.Ok? ==> FindJsonSpan(choice).Some? && parse(FindJsonSpan(choice).value) == Some(r.value)
  {
    match FindJsonSpan(choice)
    case None => Err(JsonNotFound(choice))
    case Some(span) =>
      match parse(span)
      case None => Err(JsonDecode(span))
      case Some(obj) => Ok(obj)
  }

  // ---------------------------------------------------------------------
  // process_chunk, after the completions have arrived
  // ---------------------------------------------------------------------

  const DecodeHeading := "Wrong Chat GPT response structure:\n"
  const StructureHeading := "Wrong JSON structure in Chat GPT response:\n"

  /** A callback triggered through the state manager. */
  datatype Event =
    | ErrorsTab(message: string)      // 'update_errors_tab'
    | ResponseTab(result: Mapped)     // 'update_ChatGPT_response_tab'

  /** The adapter: a payload to its three groupings, or the exception it raises. */
  type Normalizer = map<string, Json> -> Result<Mapped, Error>

  /** What the loop body does with one completion. */
  datatype Verdict =
    | Facts(mapped: Mapped)      // counted
    | Skip(message: string)      // reported, then `continue`
    | Abort(error: Error)        // an exception no handler catches

  function Classify(choice: string, parse: Parser, normalize: Normalizer): (v: Verdict)
    ensures v.Facts? <==> ExtractJson(choice, parse).Ok? && normalize(ExtractJson(choice, parse).value).Ok?
    ensures v.Abort? <==> || FindJsonSpan(choice).None?
                          || (&& ExtractJson(choice, parse).Ok?
                              && normalize(ExtractJson(choice, parse).value).Err?
                              && normalize(ExtractJson(choice, parse).value).error != WrongJsonStructure)
  {
    match ExtractJson(choice, parse)
    case Err(e) =>
      if e.JsonNotFound? then Abort(e) else Skip(DecodeHeading + choice)
    case Ok(obj) =>
      match normalize(obj)
      case Ok(m) => Facts(m)
      case Err(e) =>
        if e == WrongJsonStructure then Skip(StructureHeading + FindJsonSpan(choice).value)
        else Abort(e)
  }

  /** The loop variables: the counters, the events so far, and an escaped exception. */
  datatype Run = Run(counters: Counters, events: seq<Event>, escaped: Option<Error>)

  function Absorb(r: Run, choice: string, parse: Parser, normalize: Normalizer): Run {
    if r.escaped.Some? then r
    else
      match Classify(choice, parse, normalize)
      case Facts(m) => Run(AddChoice(r.counters, m), r.events, None)
      case Skip(msg) => Run(r.counters, r.events + [ErrorsTab(msg)], None)
      case Abort(e) => Run(r.counters, r.events, Some(e))
  }

  /** The state after the completions, in order. */
  function RunAll(rs: seq<string>, parse: Parser, normalize: Normalizer): Run {
    if rs == [] then Run(NoCounts, [], None)
    else Absorb(RunAll(rs[..|rs| - 1], parse, normalize), rs[|rs| - 1], parse, normalize)
  }

  /** `None`, a facts dictionary, or an exception leaving `process_chunk`. */
  datatype Outcome = NoResult | Found(facts: Mapped) | Escaped(error: Error)

  datatype Report = Report(outcome: Outcome, events: seq<Event>)

  /** What `process_chunk` returns and the callbacks it triggers. */
  function ChunkReport(rs: seq<string>, parse: Parser, normalize: Normalizer, threshold: int): Report {
    var r := RunAll(rs, parse, normalize);
    if r.escaped.Some? then Report(Escaped(r.escaped.value), r.events)
    else if r.counters.objects == map[] then Report(NoResult, r.events)
    else
      var result := Consensus(r.counters, threshold);
      Report(Found(result), r.events + [ResponseTab(result)])
  }

  /** `process_chunk` on the completions received, with the adapter's failure reported. */
  method ProcessChunk(responses: seq<string>, parse: Parser, threshold: int) returns (report: Report)
    ensures report == ChunkReport(responses, parse, Normalize, threshold)
  {
    var counters := NoCounts;
    var events: seq<Event> := [];
    for i := 0 to |responses|
      invariant RunAll(responses[..i], parse, Normalize) == Run(counters, events, None)
    {
      var choice := responses[i];
      assert responses[..i + 1][..i] == responses[..i] && responses[..i + 1][i] == choice;
      var extracted := ExtractJson(choice, parse);
      if extracted.Err? {
        if extracted.error.JsonNotFound? {
          EscapeIsFinal(responses, i + 1, parse, Normalize);
          return Report(Escaped(extracted.error), events);
        }
        events := events + [ErrorsTab(DecodeHeading + choice)];
        continue;
      }
      var mapped := MapJson(extracted.value);
      if mapped.Err? {
        events := events + [ErrorsTab(StructureHeading + FindJsonSpan(choice).value)];
        continue;
      }
      counters := AddChoiceToCounter(mapped.value, counters);
    }
    assert responses[..|responses|] == responses;
    if counters.objects != map[] {
      var result := MakeConsistent(counters, threshold);
      events := events + [ResponseTab(result)];
      return Report(Found(result), events);
    }
    return Report(NoResult, events);
  }

  /** Once an exception has escaped, later completions change nothing. */
  lemma {:induction false} EscapeIsFinal(rs: seq<string>, n: nat, parse: Parser, normalize: Normalizer)
    requires n <= |rs| && RunAll(rs[..n], parse, normalize).escaped.Some?
    ensures RunAll(rs, parse, normalize) == RunAll(rs[..n], parse, normalize)
    decreases |rs|
  {
    if n < |rs| {
      var init := rs[..|rs| - 1];
      assert init[..n] == rs[..n];
      EscapeIsFinal(init, n, parse, normalize);
    } else {
      assert rs[..n] == rs;
    }
  }

  // ---------------------------------------------------------------------
  // What a chunk's completions add up to
  // ---------------------------------------------------------------------

  /** The mapped outputs of the completions that are counted, in order. */
  function Counted(rs: seq<string>, parse: Parser, normalize: Normalizer): seq<Mapped> {
    if rs == [] then []
    else
      var init := Counted(rs[..|rs| - 1], parse, normalize);
      match Classify(rs[|rs| - 1], parse, normalize)
      case Facts(m) => init + [m]
      case _ => init
  }

  /** The error reports of the completions that are skipped, in order. */
  function Skipped(rs: seq<string>, parse: Parser, normalize: Normalizer): seq<Event> {
    if rs == [] then []
    else
      var init := Skipped(rs[..|rs| - 1], parse, normalize);
      match Classify(rs[|rs| - 1], parse, normalize)
      case Skip(msg) => init + [ErrorsTab(msg)]
      case _ => init
  }

  predicate NoneAborts(rs: seq<string>, parse: Parser, normalize: Normalizer) {
    forall i :: 0 <= i < |rs| ==> !Classify(rs[i], parse, normalize).Abort?
  }

  /** What the run over `rs` amounts to; see `RunTalliesCountedCompletions`. */
  predicate Accounts(rs: seq<string>, parse: Parser, normalize: Normalizer) {
    var r := RunAll(rs, parse, normalize);
    && (r.escaped.None? <==> NoneAborts(rs, parse, normalize))
    && (r.escaped.None? ==> r.counters == Tally(Counted(rs, parse, normalize)) && r.events == Skipped(rs, parse, normalize))
    && (r.escaped.Some? ==> exists i :: 0 <= i < |rs| && Classify(rs[i], parse, normalize) == Abort(r.escaped.value))
  }

  lemma AccountsSnoc(rs: seq<string>, parse: Parser, normalize: Normalizer)
    requires rs != [] && Accounts(rs[..|rs| - 1], parse, normalize)
    ensures Accounts(rs, parse, normalize)
  {
    var init := rs[..|rs| - 1];
    var last := rs[|rs| - 1];
    assert forall i :: 0 <= i < |init| ==> init[i] == rs[i];
    var r := RunAll(init, parse, normalize);
    var v := Classify(last, parse, normalize);
    assert RunAll(rs, parse, normalize) == Absorb(r, last, parse, normalize);
    if r.escaped.Some? {
      var i :| 0 <= i < |init| && Classify(init[i], parse, normalize) == Abort(r.escaped.value);
      assert Classify(rs[i], parse, normalize).Abort?;
    } else if v.Abort? {
      assert RunAll(rs, parse, normalize).escaped == Some(v.error);
      assert Classify(rs[|rs| - 1], parse, normalize) == v;
    } else {
      assert NoneAborts(rs, parse, normalize) by {
        forall i | 0 <= i < |rs| ensures !Classify(rs[i], parse, normalize).Abort? {
          if i < |init| { assert rs[i] == init[i]; }
        }
      }
      if v.Facts? {
        assert Counted(rs, parse, normalize) == Counted(init, parse, normalize) + [v.mapped];
        TallySnoc(Counted(init, parse, normalize), v.mapped);
        assert RunAll(rs, parse, normalize) == Run(AddChoice(r.counters, v.mapped), r.events, None);
      } else {
        assert Counted(rs, parse, normalize) == Counted(init, parse, normalize);
        assert Skipped(rs, parse, normalize) == Skipped(init, parse, normalize) + [ErrorsTab(v.message)];
        assert RunAll(rs, parse, normalize) == Run(r.counters, r.events + [ErrorsTab(v.message)], None);
      }
    }
  }

  /**
   * Nothing escapes iff no completion raises an uncaught exception; then
   * the counters are those of exactly the counted completions and the error
   * events are those of exactly the skipped ones. An escaped exception is
   * the one some completion raised.
   */
  lemma {:induction false} RunTalliesCountedCompletions(rs: seq<string>, parse: Parser, normalize: Normalizer)
    ensures RunAll(rs, parse, normalize).escaped.None? <==> NoneAborts(rs, parse, normalize)
    ensures RunAll(rs, parse, normalize).escaped.None? ==>
              && RunAll(rs, parse, normalize).counters == Tally(Counted(rs, parse, normalize))
              && RunAll(rs, parse, normalize).events == Skipped(rs, parse, normalize)
    ensures RunAll(rs, parse, normalize).escaped.Some? ==>
              exists i :: 0 <= i < |rs| && Classify(rs[i], parse, normalize) == Abort(RunAll(rs, parse, normalize).escaped.value)
  {
    if rs == [] {
      assert Tally([]) == NoCounts;
    } else {
      RunTalliesCountedCompletions(rs[..|rs| - 1], parse, normalize);
      AccountsSnoc(rs, parse, normalize);
    }
  }

  lemma TallyHasNoEntityIff(ms: seq<Mapped>)
    ensures Tally(ms).objects == map[] <==> forall i :: 0 <= i < |ms| ==> ms[i].objects == map[]
  {
    if Tally(ms).objects != map[] {
      TalliedEntityWasFiled(ms);
    }
    if exists i :: 0 <= i < |ms| && ms[i].objects != map[] {
      var i :| 0 <= i < |ms| && ms[i].objects != map[];
      FiledEntityIsTallied(ms, i);
    }
  }

  lemma TalliedEntityWasFiled(ms: seq<Mapped>)
    requires Tally(ms).objects != map[]
    ensures exists i :: 0 <= i < |ms| && ms[i].objects != map[]
  {
    var k :| k in Fold(ObjectsOf(ms));
    FoldKeys(ObjectsOf(ms), k);
    var i :| 0 <= i < |ms| && k in ObjectsOf(ms)[i];
    assert k in ms[i].objects;
  }

  lemma FiledEntityIsTallied(ms: seq<Mapped>, i: nat)
    requires i < |ms| && ms[i].objects != map[]
    ensures Tally(ms).objects != map[]
  {
    var k :| k in ms[i].objects;
    assert k in ObjectsOf(ms)[i];
    FoldKeys(ObjectsOf(ms), k);
  }

  /**
   * When nothing escapes, the result is None iff no counted completion filed
   * any entity; otherwise it is the vote over the counted completions, and
   * the last event shows it.
   */
  lemma ChunkResultIsTheVote(rs: seq<string>, parse: Parser, normalize: Normalizer, threshold: int)
    requires NoneAborts(rs, parse, normalize)
    ensures var report := ChunkReport(rs, parse, normalize, threshold);
            var ms := Counted(rs, parse, normalize);
            && (report.outcome == NoResult <==> forall i :: 0 <= i < |ms| ==> ms[i].objects == map[])
            && (report.outcome.Found? ==>
                  && report.outcome.facts == Consensus(Tally(ms), threshold)
                  && report.events == Skipped(rs, parse, normalize) + [ResponseTab(report.outcome.facts)])
            && !report.outcome.Escaped?
  {
    RunTalliesCountedCompletions(rs, parse, normalize);
    TallyHasNoEntityIff(Counted(rs, parse, normalize));
  }

  /** One counted completion filing an entity is enough for a result. */
  lemma CountedEntityGivesResult(rs: seq<string>, parse: Parser, normalize: Normalizer, threshold: int, i: nat)
    requires NoneAborts(rs, parse, normalize)
    requires i < |Counted(rs, parse, normalize)| && Counted(rs, parse, normalize)[i].objects != map[]
    ensures ChunkReport(rs, parse, normalize, threshold).outcome.Found?
  {
    ChunkResultIsTheVote(rs, parse, normalize, threshold);
  }

  /**
   * An entity is in the chunk's result iff at least `threshold` of the
   * counted completions (and at least one) filed it under its class.
   */
  lemma EntityKeptIffEnoughCompletions(rs: seq<string>, parse: Parser, normalize: Normalizer, threshold: int, k: Json, x: Entity)
    requires NoneAborts(rs, parse, normalize)
    requires ChunkReport(rs, parse, normalize, threshold).outcome.Found?
    ensures var facts := ChunkReport(rs, parse, normalize, threshold).outcome.facts;
            var n := Occurrences(ObjectsOf(Counted(rs, parse, normalize)), k, x);
            (k in facts.objects && x in facts.objects[k]) <==> n >= threshold && n > 0
  {
    RunTalliesCountedCompletions(rs, parse, normalize);
    KeptIffEnoughVotes(ObjectsOf(Counted(rs, parse, normalize)), threshold, k, x);
  }

  /** A completion whose JSON span does not parse is skipped with a report. */
  lemma DecodeErrorIsSkipped(choice: string, parse: Parser, normalize: Normalizer)
    requires FindJsonSpan(choice).Some? && parse(FindJsonSpan(choice).value).None?
    ensures Classify(choice, parse, normalize) == Skip(DecodeHeading + choice)
  {
  }

  /** A completion with no JSON span makes the whole chunk fail. */
  lemma MissingJsonEscapes(rs: seq<string>, parse: Parser, normalize: Normalizer, threshold: int, i: nat)
    requires i < |rs| && FindJsonSpan(rs[i]).None?
    ensures ChunkReport(rs, parse, normalize, threshold).outcome.Escaped?
  {
    RunTalliesCountedCompletions(rs, parse, normalize);
  }

  // ---------------------------------------------------------------------
  // The adapter's bare `raise`
  // ---------------------------------------------------------------------

  /** A completion whose JSON parses but does not have the expected structure. */
  predicate Malformed(choice: string, parse: Parser) {
    ExtractJson(choice, parse).Ok? && Normalize(ExtractJson(choice, parse).value).Err?
  }

  /** As written, one malformed completion makes the whole chunk fail. */
  lemma AsWrittenMalformedCompletionAbortsChunk(rs: seq<string>, parse: Parser, threshold: int, i: nat)
    requires i < |rs| && Malformed(rs[i], parse)
    ensures ChunkReport(rs, parse, NormalizeAsWritten, threshold).outcome.Escaped?
  {
    assert Classify(rs[i], parse, NormalizeAsWritten).Abort?;
    RunTalliesCountedCompletions(rs, parse, NormalizeAsWritten);
  }

  /** With the adapter's error raised properly, a malformed completion is only reported. */
  lemma MalformedCompletionIsSkipped(choice: string, parse: Parser)
    requires Malformed(choice, parse)
    ensures Classify(choice, parse, Normalize) == Skip(StructureHeading + FindJsonSpan(choice).value)
  {
  }

  const GoodPayload: map<string, Json> := map["objects" := JArr([JArr([JStr("Country"), JStr("Kazakhstan"), JArr([])])])]
  const BadPayload: map<string, Json> := map["objects" := JNum(1)]

  /** Two completions for a demonstration: one well-formed, one whose `objects` is a number. */
  function DemoParse(span: string): Option<map<string, Json>> {
    if span == "{good}" then Some(GoodPayload)
    else if span == "{bad}" then Some(BadPayload)
    else None
  }

  lemma DemoSpans()
    ensures FindJsonSpan("{good}") == Some("{good}")
    ensures FindJsonSpan("{bad}") == Some("{bad}")
  {
    ObjectInProseIsFound("", "{good}", "");
    ObjectInProseIsFound("", "{bad}", "");
    assert "" + "{good}" + "" == "{good}";
    assert "" + "{bad}" + "" == "{bad}";
  }

  lemma DemoGoodIsWellFormed()
    ensures Normalize(GoodPayload).Ok? && JStr("Country") in Normalize(GoodPayload).value.objects
  {
    var obj := JArr([JStr("Country"), JStr("Kazakhstan"), JArr([])]);
    assert LabelTuples([]) == Some([]);
    assert EntityOf(obj) == Some((JStr("Country"), Entity(JStr("Kazakhstan"), [])));
    var e := (JStr("Country"), Entity(JStr("Kazakhstan"), []));
    var es := Entries([obj], EntityOf);
    assert [obj][0] == obj;
    assert es.Some? && |es.value| == 1 && es.value[0] == e;
    assert es.value == [e];
    assert Names([e]) == {JStr("Country")};
    assert GroupSection(GoodPayload["objects"], EntityOf).Some?;
  }

  lemma DemoBadIsMalformed()
    ensures Normalize(BadPayload).Err?
  {
    assert Iterate(JNum(1)).None?;
  }

  const DemoCompletions: seq<string> := ["{good}", "{bad}"]

  lemma DemoVerdicts()
    ensures Normalize(GoodPayload).Ok?
    ensures Classify(DemoCompletions[0], DemoParse, NormalizeAsWritten) == Facts(Normalize(GoodPayload).value)
    ensures Classify(DemoCompletions[1], DemoParse, NormalizeAsWritten) == Abort(TypeErrorRaised)
    ensures Classify(DemoCompletions[0], DemoParse, Normalize) == Facts(Normalize(GoodPayload).value)
    ensures Classify(DemoCompletions[1], DemoParse, Normalize).Skip?
  {
    DemoSpans();
    DemoGoodIsWellFormed();
    DemoBadIsMalformed();
  }

  /** As written, the malformed second completion makes the chunk fail with a TypeError. */
  lemma AsWrittenDemoEscapes()
    ensures ChunkReport(DemoCompletions, DemoParse, NormalizeAsWritten, 1).outcome == Escaped(TypeErrorRaised)
  {
    var rs := DemoCompletions;
    DemoVerdicts();
    RunTalliesCountedCompletions(rs, DemoParse, NormalizeAsWritten);
    assert !NoneAborts(rs, DemoParse, NormalizeAsWritten);
  }

  lemma CorrectedDemoNoneAborts(rs: seq<string>)
    requires rs == DemoCompletions
    ensures NoneAborts(rs, DemoParse, Normalize)
  {
    DemoVerdicts();
    assert rs == [DemoCompletions[0], DemoCompletions[1]];
    NoneAbortsOfTwo(DemoCompletions[0], DemoCompletions[1], DemoParse, Normalize);
  }

  lemma NoneAbortsOfTwo(a: string, b: string, parse: Parser, normalize: Normalizer)
    requires !Classify(a, parse, normalize).Abort? && !Classify(b, parse, normalize).Abort?
    ensures NoneAborts([a, b], parse, normalize)
  {
  }

  lemma CorrectedDemoCounts(rs: seq<string>)
    requires rs == DemoCompletions
    ensures Counted(rs, DemoParse, Normalize) == [Normalize(GoodPayload).value]
  {
    DemoVerdicts();
    assert rs[..1] == [rs[0]] && rs[..1][..0] == [];
    assert Counted(rs[..1], DemoParse, Normalize) == [Normalize(GoodPayload).value];
  }

  /** Corrected, the malformed completion is reported and the other one's entity is the result. */
  lemma CorrectedDemoFindsTheEntity(rs: seq<string>, threshold: int)
    requires rs == DemoCompletions
    ensures ChunkReport(rs, DemoParse, Normalize, threshold).outcome.Found?
  {
    CorrectedDemoNoneAborts(rs);
    CorrectedDemoCounts(rs);
    DemoGoodIsWellFormed();
    CountedEntityGivesResult(rs, DemoParse, Normalize, threshold, 0);
  }
}
