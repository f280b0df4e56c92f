/**
 * Splitting a text into model-sized chunks: the text is cut into sentences
 * at a configurable set of separators, and sentences are packed greedily
 * into chunks whose token count stays within the budget, each new chunk
 * seeded with the last sentences of the chunk before it.
 */
module Chunker {
  import opened Wrappers

  predicate IsPrefix<T(==)>(p: seq<T>, s: seq<T>) {
    |p| <= |s| && s[..|p|] == p
  }

  /** The separators the configuration supplies; none of them is empty. */
  predicate NonEmptySeparators(seps: seq<string>) {
    |seps| > 0 && forall i :: 0 <= i < |seps| ==> seps[i] != ""
  }

  /** `''.join(pieces)`. */
  function Concat(pieces: seq<string>): string {
    if pieces == [] then "" else Concat(pieces[..|pieces| - 1]) + pieces[|pieces| - 1]
  }

  lemma ConcatAppend(xs: seq<string>, ys: seq<string>)
    ensures Concat(xs + ys) == Concat(xs) + Concat(ys)
  {
    if ys != [] {
      assert (xs + ys)[..|xs + ys| - 1] == xs + ys[..|ys| - 1];
      ConcatAppend(xs, ys[..|ys| - 1]);
    } else {
      assert xs + ys == xs;
    }
  }

  // ---------------------------------------------------------------------
  // split_into_sentences
  // ---------------------------------------------------------------------

  /**
   * The separator the alternation `(s1|s2|...)` matches at the start of
   * `rest`: the FIRST separator in list order that is a prefix of it.
   */
  function MatchAt(seps: seq<string>, rest: string): (r: Option<string>)
    ensures r.None? <==> forall i :: 0 <= i < |seps| ==> !IsPrefix(seps[i], rest)
    ensures r.Some? ==> r.value in seps && IsPrefix(r.value, rest)
  {
    if seps == [] then None
    else if IsPrefix(seps[0], rest) then Some(seps[0])
    else
      assert forall i :: 1 <= i < |seps| ==> seps[i] == seps[1..][i - 1];
      MatchAt(seps[1..], rest)
  }

  /** The alternation prefers the earliest separator in the list, not the longest. */
  lemma {:induction false} MatchAtIsFirst(seps: seq<string>, rest: string)
    requires MatchAt(seps, rest).Some?
    ensures exists i :: 0 <= i < |seps| && seps[i] == MatchAt(seps, rest).value
                        && forall j :: 0 <= j < i ==> !IsPrefix(seps[j], rest)
  {
    if !IsPrefix(seps[0], rest) {
      MatchAtIsFirst(seps[1..], rest);
      var i :| 0 <= i < |seps[1..]| && seps[1..][i] == MatchAt(seps, rest).value
               && forall j :: 0 <= j < i ==> !IsPrefix(seps[1..][j], rest);
      forall j | 0 <= j < i + 1 ensures !IsPrefix(seps[j], rest) {
        if j > 0 { assert seps[j] == seps[1..][j - 1]; }
      }
      assert seps[i + 1] == MatchAt(seps, rest).value;
    } else {
      assert seps[0] == MatchAt(seps, rest).value;
    }
  }

  /** A span of text and the separator that ends it, one pair of the `zip`. */
  datatype Piece = Piece(body: string, sep: string)

  /**
   * The pairs `(span, separator)` that `re.split` with a capturing group
   * yields for `text` from position `pos` on, the current span having
   * started at `start`. A trailing span with no separator after it has no
   * partner in the `zip` and is dropped.
   */
  function Scan(seps: seq<string>, text: string, start: nat, pos: nat): seq<Piece>
    requires NonEmptySeparators(seps)
    requires start <= pos <= |text|
    decreases |text| - pos
  {
    if pos == |text| then []
    else
      match MatchAt(seps, text[pos..])
      case Some(sep) =>
        assert |sep| > 0 && pos + |sep| <= |text|;
        [Piece(text[start..pos], sep)] + Scan(seps, text, pos + |sep|, pos + |sep|)
      case None => Scan(seps, text, start, pos + 1)
  }

  function Pieces(seps: seq<string>, text: string): seq<Piece>
    requires NonEmptySeparators(seps)
  {
    Scan(seps, text, 0, 0)
  }

  function Joined(ps: seq<Piece>): (r: seq<string>)
    ensures |r| == |ps| && forall n :: 0 <= n < |ps| ==> r[n] == ps[n].body + ps[n].sep
  {
    seq(|ps|, n requires 0 <= n < |ps| => ps[n].body + ps[n].sep)
  }

  /** `split_into_sentences`: each pair joined. */
  function SplitIntoSentences(seps: seq<string>, text: string): seq<string>
    requires NonEmptySeparators(seps)
  {
    Joined(Pieces(seps, text))
  }

  /** No separator occurs anywhere inside `s`. */
  predicate SeparatorFree(seps: seq<string>, s: string) {
    forall i, j :: 0 <= i < |seps| && 0 <= j < |s| ==> !IsPrefix(seps[i], s[j..])
  }

  /** A separator-free span followed by one of the separators. */
  predicate WellSplit(seps: seq<string>, ps: seq<Piece>) {
    forall n :: 0 <= n < |ps| ==> ps[n].sep in seps && SeparatorFree(seps, ps[n].body)
  }

  lemma PrefixOfSlice(a: string, text: string, from: nat, to: nat, j: nat)
    requires from + j <= to <= |text|
    ensures IsPrefix(a, text[from..to][j..]) ==> IsPrefix(a, text[from + j..])
  {
    assert text[from..to][j..] == text[from + j..to];
    if |a| <= to - from - j {
      assert text[from + j..][..|a|] == text[from + j..to][..|a|];
    }
  }

  /** No separator matches at any position in `[from, to)`. */
  predicate NoMatchIn(seps: seq<string>, text: string, from: nat, to: nat) {
    forall j :: from <= j < to <= |text| ==> MatchAt(seps, text[j..]).None?
  }

  /** A span in which no separator matches is separator-free. */
  lemma BodyIsSeparatorFree(seps: seq<string>, text: string, start: nat, pos: nat)
    requires start <= pos <= |text| && NoMatchIn(seps, text, start, pos)
    ensures SeparatorFree(seps, text[start..pos])
  {
    var body := text[start..pos];
    forall i, j | 0 <= i < |seps| && 0 <= j < |body|
      ensures !IsPrefix(seps[i], body[j..])
    {
      PrefixOfSlice(seps[i], text, start, pos, j);
      assert MatchAt(seps, text[start + j..]).None?;
    }
  }

  /** The shape a scan's result has; see `ScanShape`. */
  predicate Scanned(seps: seq<string>, text: string, start: nat, ps: seq<Piece>) {
    && start + |Concat(Joined(ps))| <= |text|
    && Concat(Joined(ps)) == text[start..start + |Concat(Joined(ps))|]
    && NoMatchIn(seps, text, start + |Concat(Joined(ps))|, |text|)
    && WellSplit(seps, ps)
  }

  lemma JoinedCons(p: Piece, rest: seq<Piece>)
    ensures Concat(Joined([p] + rest)) == p.body + p.sep + Concat(Joined(rest))
  {
    assert Joined([p] + rest) == [p.body + p.sep] + Joined(rest);
    ConcatAppend([p.body + p.sep], Joined(rest));
    assert Concat([p.body + p.sep]) == p.body + p.sep;
  }

  /** A span and its separator followed by a scanned rest is scanned from the span's start. */
  lemma ScannedCons(seps: seq<string>, text: string, start: nat, pos: nat, sep: string, rest: seq<Piece>)
    requires start <= pos <= |text| && NoMatchIn(seps, text, start, pos)
    requires sep in seps && IsPrefix(sep, text[pos..])
    requires Scanned(seps, text, pos + |sep|, rest)
    ensures Scanned(seps, text, start, [Piece(text[start..pos], sep)] + rest)
  {
    var next := pos + |sep|;
    var p := Piece(text[start..pos], sep);
    var tail := Concat(Joined(rest));
    var k := next + |tail|;
    PrefixSlice(sep, text, pos);
    JoinedCons(p, rest);
    SliceJoin(text, start, pos, next, k);
    BodyIsSeparatorFree(seps, text, start, pos);
    WellSplitCons(seps, p, rest);
    ScannedIntro(seps, text, start, [p] + rest, k);
  }

  /** A prefix of `text[pos..]` is the slice of `text` it covers. */
  lemma PrefixSlice(a: string, text: string, pos: nat)
    requires pos <= |text| && IsPrefix(a, text[pos..])
    ensures pos + |a| <= |text| && text[pos..pos + |a|] == a
  {
    assert text[pos..][..|a|] == text[pos..pos + |a|];
  }

  /** The four facts `Scanned` collects. */
  lemma ScannedIntro(seps: seq<string>, text: string, start: nat, ps: seq<Piece>, k: nat)
    requires start <= k <= |text| && Concat(Joined(ps)) == text[start..k]
    requires NoMatchIn(seps, text, k, |text|) && WellSplit(seps, ps)
    ensures Scanned(seps, text, start, ps)
  {
  }

  lemma SliceJoin(text: string, a: nat, b: nat, c: nat, d: nat)
    requires a <= b <= c <= d <= |text|
    ensures text[a..d] == text[a..b] + text[b..c] + text[c..d]
  {
  }

  lemma WellSplitCons(seps: seq<string>, p: Piece, rest: seq<Piece>)
    requires p.sep in seps && SeparatorFree(seps, p.body) && WellSplit(seps, rest)
    ensures WellSplit(seps, [p] + rest)
  {
    var ps := [p] + rest;
    forall n | 0 <= n < |ps| ensures ps[n].sep in seps && SeparatorFree(seps, ps[n].body) {
      if n > 0 {
        assert ps[n] == rest[n - 1];
      }
    }
  }

  /**
   * What a scan produces: separator-free spans each followed by a
   * separator, which joined give the text from `start` up to some
   * position, after which no separator matches.
   */
  lemma {:induction false} ScanShape(seps: seq<string>, text: string, start: nat, pos: nat)
    requires NonEmptySeparators(seps)
    requires start <= pos <= |text| && NoMatchIn(seps, text, start, pos)
    ensures Scanned(seps, text, start, Scan(seps, text, start, pos))
    decreases |text| - pos
  {
    if pos == |text| {
      ScannedEmpty(seps, text, start);
    } else {
      var m := MatchAt(seps, text[pos..]);
      if m.Some? {
        var next := pos + |m.value|;
        ScanShape(seps, text, next, next);
        ScannedAtMatch(seps, text, start, pos);
      } else {
        NoMatchExtends(seps, text, start, pos);
        ScanShape(seps, text, start, pos + 1);
        ScannedPastNoMatch(seps, text, start, pos);
      }
    }
  }

  /** Where a separator matches, the scan closes the current span with it. */
  lemma ScannedAtMatch(seps: seq<string>, text: string, start: nat, pos: nat)
    requires NonEmptySeparators(seps)
    requires start <= pos < |text| && NoMatchIn(seps, text, start, pos) && MatchAt(seps, text[pos..]).Some?
    requires var next := pos + |MatchAt(seps, text[pos..]).value|;
             next <= |text| && Scanned(seps, text, next, Scan(seps, text, next, next))
    ensures Scanned(seps, text, start, Scan(seps, text, start, pos))
  {
    var sep := MatchAt(seps, text[pos..]).value;
    var next := pos + |sep|;
    ScanAtMatch(seps, text, start, pos);
    ScannedCons(seps, text, start, pos, sep, Scan(seps, text, next, next));
  }

  lemma ScanAtMatch(seps: seq<string>, text: string, start: nat, pos: nat)
    requires NonEmptySeparators(seps)
    requires start <= pos < |text| && MatchAt(seps, text[pos..]).Some?
    ensures var sep := MatchAt(seps, text[pos..]).value;
            && pos + |sep| <= |text|
            && Scan(seps, text, start, pos) == [Piece(text[start..pos], sep)] + Scan(seps, text, pos + |sep|, pos + |sep|)
  {
  }

  /** Where no separator matches, the scan moves on by one character. */
  lemma ScannedPastNoMatch(seps: seq<string>, text: string, start: nat, pos: nat)
    requires NonEmptySeparators(seps)
    requires start <= pos < |text| && MatchAt(seps, text[pos..]).None?
    requires Scanned(seps, text, start, Scan(seps, text, start, pos + 1))
    ensures Scanned(seps, text, start, Scan(seps, text, start, pos))
  {
    assert Scan(seps, text, start, pos) == Scan(seps, text, start, pos + 1);
  }

  /** Nothing scanned from `start`, where no separator matches up to the end. */
  lemma ScannedEmpty(seps: seq<string>, text: string, start: nat)
    requires start <= |text| && NoMatchIn(seps, text, start, |text|)
    ensures Scanned(seps, text, start, [])
  {
    assert Concat(Joined([])) == "";
  }

  /** A position where no separator matches extends a match-free range by one. */
  lemma NoMatchExtends(seps: seq<string>, text: string, start: nat, pos: nat)
    requires start <= pos < |text| && NoMatchIn(seps, text, start, pos)
    requires MatchAt(seps, text[pos..]).None?
    ensures NoMatchIn(seps, text, start, pos + 1)
  {
  }

  /**
   * The sentences are separator-free spans each ending in one separator;
   * joined they are a prefix of the text, and the dropped rest holds no
   * separator.
   */
  lemma SentencesCoverText(seps: seq<string>, text: string)
    requires NonEmptySeparators(seps)
    ensures |Concat(SplitIntoSentences(seps, text))| <= |text|
    ensures Concat(SplitIntoSentences(seps, text)) == text[..|Concat(SplitIntoSentences(seps, text))|]
    ensures SeparatorFree(seps, text[|Concat(SplitIntoSentences(seps, text))|..])
    ensures WellSplit(seps, Pieces(seps, text))
  {
    ScanShape(seps, text, 0, 0);
    var k := |Concat(SplitIntoSentences(seps, text))|;
    BodyIsSeparatorFree(seps, text, k, |text|);
    assert text[k..|text|] == text[k..];
  }

  /** A text yields no sentence at all iff no separator occurs in it. */
  lemma NoSentencesIffNoSeparator(seps: seq<string>, text: string)
    requires NonEmptySeparators(seps)
    ensures SplitIntoSentences(seps, text) == [] <==> SeparatorFree(seps, text)
  {
    var ps := Pieces(seps, text);
    ScanShape(seps, text, 0, 0);
    if ps == [] {
      assert Concat(Joined(ps)) == "";
      BodyIsSeparatorFree(seps, text, 0, |text|);
      assert text[0..|text|] == text;
    } else {
      SeparatorEndsFirstPiece(seps, text, ps);
    }
  }

  /** The separator that ends the first piece occurs in the text. */
  lemma SeparatorEndsFirstPiece(seps: seq<string>, text: string, ps: seq<Piece>)
    requires NonEmptySeparators(seps) && Scanned(seps, text, 0, ps) && ps != []
    ensures !SeparatorFree(seps, text)
  {
    var first := ps[0];
    assert [first] + ps[1..] == ps;
    JoinedCons(first, ps[1..]);
    var whole := Concat(Joined(ps));
    var j := |first.body|;
    var sep := first.sep;
    assert whole == first.body + sep + Concat(Joined(ps[1..]));
    assert |whole| <= |text| && whole == text[..|whole|];
    forall k | 0 <= k < |sep| ensures text[j + k] == sep[k] {
      assert whole[j + k] == sep[k];
      assert text[..|whole|][j + k] == text[j + k];
    }
    assert text[j..][..|sep|] == sep;
    assert sep in seps;
    var i :| 0 <= i < |seps| && seps[i] == sep;
    assert 0 <= j < |text|;
    assert IsPrefix(seps[i], text[j..]);
  }

  /** Every sentence is non-empty: it ends with a non-empty separator. */
  lemma SentencesAreNonEmpty(seps: seq<string>, text: string)
    requires NonEmptySeparators(seps)
    ensures forall n :: 0 <= n < |SplitIntoSentences(seps, text)| ==> SplitIntoSentences(seps, text)[n] != ""
  {
    SentencesCoverText(seps, text);
    var ps := Pieces(seps, text);
    forall n | 0 <= n < |ps| ensures ps[n].body + ps[n].sep != "" {
      var i :| 0 <= i < |seps| && seps[i] == ps[n].sep;
    }
  }

  // ---------------------------------------------------------------------
  // split_text_into_chunks
  // ---------------------------------------------------------------------

  /** `current_chunk[-k:] if k else []`, with Python's slicing for any k. */
  function Overlap(current: seq<string>, k: int): (r: seq<string>)
    ensures k > 0 ==> r == current[|current| - (if k < |current| then k else |current|)..]
    ensures k == 0 ==> r == []
  {
    if k == 0 then []
    else if k > 0 then (if k >= |current| then current else current[|current| - k..])
    else (if -k >= |current| then [] else current[-k..])
  }

  /** The loop variables of `split_text_into_chunks`, chunks kept as lists of sentences. */
  datatype Packing = Packing(closed: seq<seq<string>>, current: seq<string>, tokens: int)

  /** One iteration of the loop, for one sentence. */
  function Step(p: Packing, sentence: string, limit: int, overlap: int, count: string -> nat): Packing {
    var n := count(sentence);
    if p.tokens + n > limit then
      var closed := if p.current != [] then p.closed + [p.current] else p.closed;
      var seed := Overlap(p.current, overlap);
      Packing(closed, seed + [sentence], count(Concat(seed)) + n)
    else
      Packing(p.closed, p.current + [sentence], p.tokens + n)
  }

  /** The loop variables after the given sentences. */
  function Pack(ss: seq<string>, limit: int, overlap: int, count: string -> nat): Packing {
    if ss == [] then Packing([], [], 0)
    else Step(Pack(ss[..|ss| - 1], limit, overlap, count), ss[|ss| - 1], limit, overlap, count)
  }

  /** The chunks as lists of sentences, including the final one the loop leaves open. */
  function Groups(ss: seq<string>, limit: int, overlap: int, count: string -> nat): seq<seq<string>> {
    var p := Pack(ss, limit, overlap, count);
    if p.current != [] then p.closed + [p.current] else p.closed
  }

  function JoinAll(groups: seq<seq<string>>): (r: seq<string>)
    ensures |r| == |groups| && forall i :: 0 <= i < |groups| ==> r[i] == Concat(groups[i])
  {
    seq(|groups|, i requires 0 <= i < |groups| => Concat(groups[i]))
  }

  /** `is_within_limit`. */
  predicate IsWithinLimit(text: string, limit: int, count: string -> nat) {
    count(text) <= limit
  }

  /**
   * What `split_text_into_chunks` returns: a text within the budget is its
   * own single chunk; otherwise the packed sentences, each chunk joined.
   */
  function Chunks(seps: seq<string>, text: string, limit: int, overlap: int, count: string -> nat): (r: seq<string>)
    requires NonEmptySeparators(seps)
    ensures IsWithinLimit(text, limit, count) ==> r == [text]
  {
    if IsWithinLimit(text, limit, count) then [text]
    else JoinAll(Groups(SplitIntoSentences(seps, text), limit, overlap, count))
  }

  /** `split_text_into_chunks`. */
  method SplitTextIntoChunks(seps: seq<string>, text: string, limit: int, overlap: int, count: string -> nat)
    returns (chunks: seq<string>)
    requires NonEmptySeparators(seps)
    ensures chunks == Chunks(seps, text, limit, overlap, count)
  {
    if IsWithinLimit(text, limit, count) {
      return [text];
    }
    var sentences := SplitIntoSentences(seps, text);
    chunks := PackSentences(sentences, limit, overlap, count);
  }

  /** The loop of `split_text_into_chunks` over the sentences. */
  method PackSentences(sentences: seq<string>, limit: int, overlap: int, count: string -> nat)
    returns (chunks: seq<string>)
    ensures chunks == JoinAll(Groups(sentences, limit, overlap, count))
  {
    chunks := [];
    var current: seq<string> := [];
    var tokens := 0;
    ghost var closed: seq<seq<string>> := [];
    for i := 0 to |sentences|
      invariant Pack(sentences[..i], limit, overlap, count) == Packing(closed, current, tokens)
      invariant chunks == JoinAll(closed)
    {
      PackSnoc(sentences, i, limit, overlap, count);
      var sentence := sentences[i];
      var n := count(sentence);
      if tokens + n > limit {
        if current != [] {
          JoinAllSnoc(closed, current);
          chunks := chunks + [Concat(current)];
          closed := closed + [current];
        }
        current := Overlap(current, overlap);
        tokens := count(Concat(current));
      }
      current := current + [sentence];
      tokens := tokens + n;
    }
    assert sentences[..|sentences|] == sentences;
    if current != [] {
      JoinAllSnoc(closed, current);
      chunks := chunks + [Concat(current)];
    }
  }

  lemma PackSnoc(ss: seq<string>, i: nat, limit: int, overlap: int, count: string -> nat)
    requires i < |ss|
    ensures Pack(ss[..i + 1], limit, overlap, count) == Step(Pack(ss[..i], limit, overlap, count), ss[i], limit, overlap, count)
  {
    assert ss[..i + 1][..i] == ss[..i];
  }

  lemma JoinAllSnoc(groups: seq<seq<string>>, last: seq<string>)
    ensures JoinAll(groups + [last]) == JoinAll(groups) + [Concat(last)]
  {
  }

  // ---------------------------------------------------------------------
  // What the packing promises
  // ---------------------------------------------------------------------

  function Flatten(groups: seq<seq<string>>): seq<string> {
    if groups == [] then [] else Flatten(groups[..|groups| - 1]) + groups[|groups| - 1]
  }

  lemma {:induction false} ConcatFlatten(groups: seq<seq<string>>)
    ensures Concat(JoinAll(groups)) == Concat(Flatten(groups))
  {
    if groups != [] {
      var init := groups[..|groups| - 1];
      ConcatFlatten(init);
      assert JoinAll(groups) == JoinAll(init) + [Concat(groups[|groups| - 1])];
      ConcatAppend(JoinAll(init), [Concat(groups[|groups| - 1])]);
      ConcatAppend(Flatten(init), groups[|groups| - 1]);
      assert Concat([Concat(groups[|groups| - 1])]) == Concat(groups[|groups| - 1]);
    }
  }

  /** Without overlap, the chunks closed so far and the open one hold exactly the sentences `ss`, in order. */
  predicate HoldsInOrder(p: Packing, ss: seq<string>) {
    Flatten(p.closed) + p.current == ss
  }

  lemma {:induction false} PackZeroOverlap(ss: seq<string>, limit: int, count: string -> nat)
    ensures HoldsInOrder(Pack(ss, limit, 0, count), ss)
  {
    if ss != [] {
      var init, last := ss[..|ss| - 1], ss[|ss| - 1];
      PackZeroOverlap(init, limit, count);
      StepZeroOverlap(Pack(init, limit, 0, count), init, last, limit, count);
      assert init + [last] == ss;
    }
  }

  /** Without overlap, a step moves sentences between the chunks and adds the new one at the end. */
  lemma StepZeroOverlap(p: Packing, init: seq<string>, s: string, limit: int, count: string -> nat)
    requires HoldsInOrder(p, init)
    ensures HoldsInOrder(Step(p, s, limit, 0, count), init + [s])
  {
    if p.tokens + count(s) > limit {
      var closed := if p.current != [] then p.closed + [p.current] else p.closed;
      assert Step(p, s, limit, 0, count).current == [s] by {
        assert Overlap(p.current, 0) == [];
        assert [] + [s] == [s];
      }
      if p.current != [] {
        assert Flatten(closed) == Flatten(p.closed) + p.current by {
          assert closed[..|closed| - 1] == p.closed;
        }
      } else {
        assert Flatten(p.closed) == init;
      }
    } else {
      assert Flatten(p.closed) + (p.current + [s]) == init + [s];
    }
  }

  /** Without overlap, the chunks hold every sentence exactly once, in order. */
  lemma ZeroOverlapKeepsEverySentence(ss: seq<string>, limit: int, count: string -> nat)
    ensures Flatten(Groups(ss, limit, 0, count)) == ss
    ensures Concat(JoinAll(Groups(ss, limit, 0, count))) == Concat(ss)
  {
    PackZeroOverlap(ss, limit, count);
    var p := Pack(ss, limit, 0, count);
    if p.current != [] {
      assert Flatten(p.closed + [p.current]) == Flatten(p.closed) + p.current;
    }
    ConcatFlatten(Groups(ss, limit, 0, count));
  }

  /**
   * Without overlap, an over-budget text's chunks join back to the text up
   * to the end of its last separator, and what is cut off holds no separator.
   */
  lemma ZeroOverlapChunksJoinToText(seps: seq<string>, text: string, limit: int, count: string -> nat)
    requires NonEmptySeparators(seps)
    requires !IsWithinLimit(text, limit, count)
    ensures |Concat(Chunks(seps, text, limit, 0, count))| <= |text|
    ensures Concat(Chunks(seps, text, limit, 0, count)) == text[..|Concat(Chunks(seps, text, limit, 0, count))|]
    ensures SeparatorFree(seps, text[|Concat(Chunks(seps, text, limit, 0, count))|..])
  {
    ZeroOverlapKeepsEverySentence(SplitIntoSentences(seps, text), limit, count);
    SentencesCoverText(seps, text);
  }

  /** An over-budget text with no separator in it produces no chunk at all. */
  lemma NoSeparatorNoChunks(seps: seq<string>, text: string, limit: int, overlap: int, count: string -> nat)
    requires NonEmptySeparators(seps)
    requires !IsWithinLimit(text, limit, count) && SeparatorFree(seps, text)
    ensures Chunks(seps, text, limit, overlap, count) == []
  {
    NoSentencesIffNoSeparator(seps, text);
  }

  /** The tokens of a list of sentences counted one by one. */
  function SumTokens(ss: seq<string>, count: string -> nat): nat {
    if ss == [] then 0 else SumTokens(ss[..|ss| - 1], count) + count(ss[|ss| - 1])
  }

  /** A chunk within the budget, or a single sentence that alone exceeds it. */
  predicate Fits(g: seq<string>, limit: int, count: string -> nat) {
    |g| <= 1 || SumTokens(g, count) <= limit
  }

  /** The bookkeeping and budget facts the zero-overlap loop keeps. */
  predicate WithinBudget(p: Packing, limit: int, count: string -> nat) {
    && p.tokens == SumTokens(p.current, count)
    && Fits(p.current, limit, count)
    && forall i :: 0 <= i < |p.closed| ==> Fits(p.closed[i], limit, count)
  }

  lemma StepWithinBudget(p: Packing, s: string, limit: int, count: string -> nat)
    requires count("") == 0 && WithinBudget(p, limit, count)
    ensures WithinBudget(Step(p, s, limit, 0, count), limit, count)
  {
    if p.tokens + count(s) > limit {
      CloseWithinBudget(p, s, limit, count);
    } else {
      ExtendWithinBudget(p, s, limit, count);
    }
  }

  /** A sentence that does not fit closes the chunk and starts a new one of its own. */
  lemma CloseWithinBudget(p: Packing, s: string, limit: int, count: string -> nat)
    requires count("") == 0 && WithinBudget(p, limit, count) && p.tokens + count(s) > limit
    ensures WithinBudget(Step(p, s, limit, 0, count), limit, count)
  {
    CloseStep(p, s, limit, count);
    assert SumTokens([s], count) == count(s) by {
      assert [s][..0] == [];
    }
    ClosedFit(p.closed, p.current, limit, count);
  }

  /** Without overlap, an over-budget sentence closes the current chunk and starts a new one. */
  lemma CloseStep(p: Packing, s: string, limit: int, count: string -> nat)
    requires count("") == 0 && p.tokens + count(s) > limit
    ensures Step(p, s, limit, 0, count) == Packing(if p.current != [] then p.closed + [p.current] else p.closed, [s], count(s))
  {
    assert Overlap(p.current, 0) == [];
    assert Concat([]) == "";
    assert [] + [s] == [s];
  }

  /** Closing a chunk that fits keeps every closed chunk fitting. */
  lemma ClosedFit(closed: seq<seq<string>>, current: seq<string>, limit: int, count: string -> nat)
    requires Fits(current, limit, count) && forall i :: 0 <= i < |closed| ==> Fits(closed[i], limit, count)
    ensures var c := if current != [] then closed + [current] else closed;
            forall i :: 0 <= i < |c| ==> Fits(c[i], limit, count)
  {
    var c := if current != [] then closed + [current] else closed;
    forall i | 0 <= i < |c| ensures Fits(c[i], limit, count) {
      if i < |closed| {
        assert c[i] == closed[i];
      }
    }
  }

  /** A sentence that fits joins the current chunk. */
  lemma ExtendWithinBudget(p: Packing, s: string, limit: int, count: string -> nat)
    requires WithinBudget(p, limit, count) && p.tokens + count(s) <= limit
    ensures WithinBudget(Step(p, s, limit, 0, count), limit, count)
  {
    var current := p.current + [s];
    assert Step(p, s, limit, 0, count) == Packing(p.closed, current, p.tokens + count(s));
    assert current[..|p.current|] == p.current;
    assert SumTokens(current, count) == SumTokens(p.current, count) + count(s);
  }

  lemma {:induction false} PackWithinBudget(ss: seq<string>, limit: int, count: string -> nat)
    requires count("") == 0
    ensures WithinBudget(Pack(ss, limit, 0, count), limit, count)
  {
    if ss != [] {
      PackWithinBudget(ss[..|ss| - 1], limit, count);
      StepWithinBudget(Pack(ss[..|ss| - 1], limit, 0, count), ss[|ss| - 1], limit, count);
    }
  }

  /**
   * Without overlap, every chunk's sentences add up to at most the budget,
   * unless the chunk is a single sentence that alone exceeds it.
   */
  lemma ZeroOverlapChunksFitBudget(ss: seq<string>, limit: int, count: string -> nat)
    requires count("") == 0
    ensures forall i :: 0 <= i < |Groups(ss, limit, 0, count)| ==> Fits(Groups(ss, limit, 0, count)[i], limit, count)
  {
    PackWithinBudget(ss, limit, count);
  }

  /** Chunk `next` begins with the overlap taken from chunk `prev`. */
  predicate Seeded(prev: seq<string>, next: seq<string>, overlap: int) {
    IsPrefix(Overlap(prev, overlap), next)
  }

  /** The structure the loop keeps whatever the overlap. */
  predicate SeedsKept(p: Packing, overlap: int) {
    && (p.closed != [] ==> p.current != [])
    && Chained(p.closed, overlap)
    && (p.closed != [] ==> Seeded(p.closed[|p.closed| - 1], p.current, overlap))
  }

  /** Closed chunks that are non-empty, each seeded by the one before it. */
  predicate Chained(closed: seq<seq<string>>, overlap: int) {
    && (forall i :: 0 <= i < |closed| ==> closed[i] != [])
    && (forall i :: 0 < i < |closed| ==> Seeded(closed[i - 1], closed[i], overlap))
  }

  lemma StepSeeds(p: Packing, s: string, limit: int, overlap: int, count: string -> nat)
    requires SeedsKept(p, overlap)
    ensures SeedsKept(Step(p, s, limit, overlap, count), overlap)
    ensures Step(p, s, limit, overlap, count).current != []
  {
    if p.tokens + count(s) > limit {
      CloseSeeds(p, s, limit, overlap, count);
    } else {
      ExtendSeeds(p, s, limit, overlap, count);
    }
  }

  /** Closing a chunk seeds the new one with its overlap. */
  lemma CloseSeeds(p: Packing, s: string, limit: int, overlap: int, count: string -> nat)
    requires SeedsKept(p, overlap) && p.tokens + count(s) > limit
    ensures SeedsKept(Step(p, s, limit, overlap, count), overlap)
    ensures Step(p, s, limit, overlap, count).current != []
  {
    var q := Step(p, s, limit, overlap, count);
    var seed := Overlap(p.current, overlap);
    var next := seed + [s];
    assert q.current == next;
    if p.current != [] {
      assert q.closed == p.closed + [p.current];
      assert next[..|seed|] == seed;
      ChainedSnoc(p.closed, p.current, overlap);
    } else {
      assert q.closed == p.closed == [];
    }
  }

  lemma ChainedSnoc(closed: seq<seq<string>>, last: seq<string>, overlap: int)
    requires Chained(closed, overlap) && last != []
    requires closed != [] ==> Seeded(closed[|closed| - 1], last, overlap)
    ensures Chained(closed + [last], overlap)
  {
    var longer := closed + [last];
    forall i | 0 < i < |longer| ensures Seeded(longer[i - 1], longer[i], overlap) {
      if i < |closed| {
        assert longer[i - 1] == closed[i - 1] && longer[i] == closed[i];
      } else {
        assert longer[i - 1] == closed[|closed| - 1] && longer[i] == last;
      }
    }
    forall i | 0 <= i < |longer| ensures longer[i] != [] {
      if i < |closed| {
        assert longer[i] == closed[i];
      }
    }
  }

  /** Extending the current chunk keeps its seed at its front. */
  lemma ExtendSeeds(p: Packing, s: string, limit: int, overlap: int, count: string -> nat)
    requires SeedsKept(p, overlap) && p.tokens + count(s) <= limit
    ensures SeedsKept(Step(p, s, limit, overlap, count), overlap)
    ensures Step(p, s, limit, overlap, count).current != []
  {
    var next := p.current + [s];
    assert Step(p, s, limit, overlap, count) == Packing(p.closed, next, p.tokens + count(s));
    if p.closed != [] {
      var prev := Overlap(p.closed[|p.closed| - 1], overlap);
      assert next[..|prev|] == p.current[..|prev|];
    }
  }

  lemma {:induction false} PackSeeds(ss: seq<string>, limit: int, overlap: int, count: string -> nat)
    ensures SeedsKept(Pack(ss, limit, overlap, count), overlap)
  {
    if ss != [] {
      PackSeeds(ss[..|ss| - 1], limit, overlap, count);
      StepSeeds(Pack(ss[..|ss| - 1], limit, overlap, count), ss[|ss| - 1], limit, overlap, count);
    }
  }

  /**
   * Every chunk after the first begins with the overlap (for k > 0, the last
   * min(k, n) sentences) of the chunk emitted just before it, and no chunk is
   * empty.
   */
  lemma OverlapSeedsNextChunk(ss: seq<string>, limit: int, overlap: int, count: string -> nat)
    ensures forall i :: 0 <= i < |Groups(ss, limit, overlap, count)| ==> Groups(ss, limit, overlap, count)[i] != []
    ensures forall i :: 0 < i < |Groups(ss, limit, overlap, count)| ==>
              Seeded(Groups(ss, limit, overlap, count)[i - 1], Groups(ss, limit, overlap, count)[i], overlap)
  {
    PackSeeds(ss, limit, overlap, count);
  }

  lemma ConcatNonEmpty(g: seq<string>)
    requires g != [] && forall i :: 0 <= i < |g| ==> g[i] != ""
    ensures Concat(g) != ""
  {
  }

  /** An over-budget text never yields an empty chunk. */
  lemma NoEmptyChunk(seps: seq<string>, text: string, limit: int, overlap: int, count: string -> nat)
    requires NonEmptySeparators(seps)
    ensures forall i :: 0 <= i < |Chunks(seps, text, limit, overlap, count)| ==>
              Chunks(seps, text, limit, overlap, count)[i] != "" || text == ""
  {
    if !IsWithinLimit(text, limit, count) {
      var ss := SplitIntoSentences(seps, text);
      var gs := Groups(ss, limit, overlap, count);
      OverlapSeedsNextChunk(ss, limit, overlap, count);
      SentencesAreNonEmpty(seps, text);
      GroupsHoldSentences(ss, limit, overlap, count);
      forall i | 0 <= i < |gs| ensures Concat(gs[i]) != "" {
        ConcatNonEmpty(gs[i]);
      }
    }
  }

  /** Every sentence the loop variables hold is in `ss`. */
  predicate HoldsOnly(p: Packing, ss: seq<string>) {
    && (forall j :: 0 <= j < |p.current| ==> p.current[j] in ss)
    && (forall i, j :: 0 <= i < |p.closed| && 0 <= j < |p.closed[i]| ==> p.closed[i][j] in ss)
  }

  lemma StepHolds(p: Packing, init: seq<string>, s: string, limit: int, overlap: int, count: string -> nat)
    requires HoldsOnly(p, init)
    ensures HoldsOnly(Step(p, s, limit, overlap, count), init + [s])
  {
    var ss := init + [s];
    var q := Step(p, s, limit, overlap, count);
    assert forall x :: x in init ==> x in ss;
    if p.tokens + count(s) > limit {
      var seed := Overlap(p.current, overlap);
      var closed := if p.current != [] then p.closed + [p.current] else p.closed;
      assert q == Packing(closed, seed + [s], count(Concat(seed)) + count(s));
      assert forall j :: 0 <= j < |seed| ==> seed[j] in p.current;
      forall i, j | 0 <= i < |closed| && 0 <= j < |closed[i]| ensures closed[i][j] in ss {
        if i < |p.closed| { assert closed[i] == p.closed[i]; }
      }
      forall j | 0 <= j < |q.current| ensures q.current[j] in ss {
        if j < |seed| { assert q.current[j] == seed[j]; }
      }
    } else {
      assert q == Packing(p.closed, p.current + [s], p.tokens + count(s));
      forall j | 0 <= j < |q.current| ensures q.current[j] in ss {
        if j < |p.current| { assert q.current[j] == p.current[j]; }
      }
    }
  }

  lemma {:induction false} PackHoldsSentences(ss: seq<string>, limit: int, overlap: int, count: string -> nat)
    ensures HoldsOnly(Pack(ss, limit, overlap, count), ss)
  {
    if ss != [] {
      var init := ss[..|ss| - 1];
      PackHoldsSentences(init, limit, overlap, count);
      assert init + [ss[|ss| - 1]] == ss;
      StepHolds(Pack(init, limit, overlap, count), init, ss[|ss| - 1], limit, overlap, count);
    }
  }

  /** Every chunk consists of sentences of the text. */
  lemma GroupsHoldSentences(ss: seq<string>, limit: int, overlap: int, count: string -> nat)
    ensures forall i, j :: 0 <= i < |Groups(ss, limit, overlap, count)| && 0 <= j < |Groups(ss, limit, overlap, count)[i]|
              ==> Groups(ss, limit, overlap, count)[i][j] in ss
  {
    PackHoldsSentences(ss, limit, overlap, count);
  }

  // ---------------------------------------------------------------------
  // No sentence is lost, whatever the overlap
  // ---------------------------------------------------------------------

  /** Each chunk after the first begins with the overlap of the chunk before it. */
  predicate SeedChain(groups: seq<seq<string>>, overlap: int) {
    forall i :: 0 < i < |groups| ==> Seeded(groups[i - 1], groups[i], overlap)
  }

  /** The sentences chunk `next` adds after the seed it takes from `prev`. */
  function Fresh(prev: seq<string>, next: seq<string>, overlap: int): (r: seq<string>)
    requires Seeded(prev, next, overlap)
    ensures Overlap(prev, overlap) + r == next
  {
    next[|Overlap(prev, overlap)|..]
  }

  /** The first chunk, then what every later chunk adds after its seed. */
  function NewSentences(groups: seq<seq<string>>, overlap: int): seq<string>
    requires SeedChain(groups, overlap)
  {
    if |groups| <= 1 then Flatten(groups)
    else
      var init := groups[..|groups| - 1];
      assert SeedChain(init, overlap) by {
        forall i | 0 < i < |init| ensures Seeded(init[i - 1], init[i], overlap) {
          assert init[i - 1] == groups[i - 1] && init[i] == groups[i];
        }
      }
      NewSentences(init, overlap) + Fresh(groups[|groups| - 2], groups[|groups| - 1], overlap)
  }

  /** The chunks the loop variables stand for: the closed ones and the open one, if any. */
  function AllGroups(p: Packing): seq<seq<string>> {
    if p.current != [] then p.closed + [p.current] else p.closed
  }

  lemma SeedsKeptChain(p: Packing, overlap: int)
    requires SeedsKept(p, overlap)
    ensures SeedChain(AllGroups(p), overlap)
  {
    var gs := AllGroups(p);
    forall i | 0 < i < |gs| ensures Seeded(gs[i - 1], gs[i], overlap) {
      if i < |p.closed| {
        assert gs[i - 1] == p.closed[i - 1] && gs[i] == p.closed[i];
      } else {
        assert gs[i - 1] == p.closed[|p.closed| - 1] && gs[i] == p.current;
      }
    }
  }

  /** The loop variables hold the sentences `ss`: each once, in order, after the seeds. */
  predicate HoldsFresh(p: Packing, ss: seq<string>, overlap: int) {
    && SeedsKept(p, overlap)
    && (p.current == [] ==> p.closed == [] && ss == [])
    && SeedChain(AllGroups(p), overlap)
    && NewSentences(AllGroups(p), overlap) == ss
  }

  lemma SeedChainSnoc(init: seq<seq<string>>, g: seq<string>, overlap: int)
    ensures SeedChain(init + [g], overlap) <==>
              SeedChain(init, overlap) && (init != [] ==> Seeded(init[|init| - 1], g, overlap))
  {
    var gs := init + [g];
    if SeedChain(gs, overlap) {
      forall i | 0 < i < |init| ensures Seeded(init[i - 1], init[i], overlap) {
        assert gs[i - 1] == init[i - 1] && gs[i] == init[i];
      }
      if init != [] {
        assert gs[|init| - 1] == init[|init| - 1] && gs[|init|] == g;
      }
    }
    if SeedChain(init, overlap) && (init != [] ==> Seeded(init[|init| - 1], g, overlap)) {
      forall i | 0 < i < |gs| ensures Seeded(gs[i - 1], gs[i], overlap) {
        if i < |init| {
          assert gs[i - 1] == init[i - 1] && gs[i] == init[i];
        } else {
          assert gs[i - 1] == init[|init| - 1] && gs[i] == g;
        }
      }
    }
  }

  /** One more chunk adds what it holds after its seed. */
  lemma NewSentencesSnoc(init: seq<seq<string>>, g: seq<string>, overlap: int)
    requires init != [] && SeedChain(init + [g], overlap)
    ensures SeedChain(init, overlap) && Seeded(init[|init| - 1], g, overlap)
    ensures NewSentences(init + [g], overlap) == NewSentences(init, overlap) + Fresh(init[|init| - 1], g, overlap)
  {
    SeedChainSnoc(init, g, overlap);
    var gs := init + [g];
    assert gs[..|gs| - 1] == init;
    assert gs[|gs| - 2] == init[|init| - 1];
  }

  /** A chunk that grows by one sentence adds that sentence after what it added before. */
  lemma NewSentencesExtend(closed: seq<seq<string>>, current: seq<string>, s: string, overlap: int)
    requires SeedChain(closed + [current], overlap)
    ensures SeedChain(closed + [current + [s]], overlap)
    ensures NewSentences(closed + [current + [s]], overlap) == NewSentences(closed + [current], overlap) + [s]
  {
    SeedChainSnoc(closed, current, overlap);
    if closed == [] {
      assert closed + [current] == [current] && closed + [current + [s]] == [current + [s]];
      assert Flatten([current]) == current;
      assert Flatten([current + [s]]) == current + [s];
    } else {
      var prev := closed[|closed| - 1];
      FreshExtend(prev, current, s, overlap);
      SeedChainSnoc(closed, current + [s], overlap);
      NewSentencesSnoc(closed, current, overlap);
      NewSentencesSnoc(closed, current + [s], overlap);
    }
  }

  lemma FreshExtend(prev: seq<string>, current: seq<string>, s: string, overlap: int)
    requires Seeded(prev, current, overlap)
    ensures Seeded(prev, current + [s], overlap)
    ensures Fresh(prev, current + [s], overlap) == Fresh(prev, current, overlap) + [s]
  {
    var n := |Overlap(prev, overlap)|;
    assert (current + [s])[..n] == current[..n];
  }

  /** A new chunk seeded from the last one adds exactly its new sentence. */
  lemma NewSentencesClose(closed: seq<seq<string>>, current: seq<string>, s: string, overlap: int)
    requires SeedChain(closed + [current] + [Overlap(current, overlap) + [s]], overlap)
    ensures SeedChain(closed + [current], overlap)
    ensures NewSentences(closed + [current] + [Overlap(current, overlap) + [s]], overlap) == NewSentences(closed + [current], overlap) + [s]
  {
    NewSentencesSnoc(closed + [current], Overlap(current, overlap) + [s], overlap);
    assert (closed + [current])[|closed|] == current;
  }

  lemma StepHoldsFresh(p: Packing, init: seq<string>, s: string, limit: int, overlap: int, count: string -> nat)
    requires HoldsFresh(p, init, overlap)
    ensures HoldsFresh(Step(p, s, limit, overlap, count), init + [s], overlap)
  {
    var q := Step(p, s, limit, overlap, count);
    StepSeeds(p, s, limit, overlap, count);
    SeedsKeptChain(q, overlap);
    assert AllGroups(q) == q.closed + [q.current];
    if p.current == [] {
      var seed := Overlap(p.current, overlap);
      assert q.closed == [] && q.current == seed + [s] == [s];
      assert NewSentences([[s]], overlap) == Flatten([[s]]) == [s];
    } else if p.tokens + count(s) > limit {
      assert q.closed == p.closed + [p.current];
      NewSentencesClose(p.closed, p.current, s, overlap);
    } else {
      assert q.closed == p.closed && q.current == p.current + [s];
      NewSentencesExtend(p.closed, p.current, s, overlap);
    }
  }

  lemma {:induction false} PackHoldsFresh(ss: seq<string>, limit: int, overlap: int, count: string -> nat)
    ensures HoldsFresh(Pack(ss, limit, overlap, count), ss, overlap)
  {
    if ss == [] {
      assert AllGroups(Pack(ss, limit, overlap, count)) == [];
    } else {
      var init := ss[..|ss| - 1];
      PackHoldsFresh(init, limit, overlap, count);
      assert init + [ss[|ss| - 1]] == ss;
      StepHoldsFresh(Pack(init, limit, overlap, count), init, ss[|ss| - 1], limit, overlap, count);
    }
  }

  /**
   * Whatever the overlap, no sentence is lost: there are chunks iff there
   * are sentences, and the first chunk followed by what each later chunk
   * adds after its seed is exactly `ss`, in order.
   */
  lemma EverySentenceReachesAChunk(ss: seq<string>, limit: int, overlap: int, count: string -> nat)
    ensures SeedChain(Groups(ss, limit, overlap, count), overlap)
    ensures ss == [] <==> Groups(ss, limit, overlap, count) == []
    ensures NewSentences(Groups(ss, limit, overlap, count), overlap) == ss
  {
    PackHoldsFresh(ss, limit, overlap, count);
    var p := Pack(ss, limit, overlap, count);
    assert Groups(ss, limit, overlap, count) == AllGroups(p);
  }

  /**
   * Whatever the overlap, an over-budget text's first chunk followed by the
   * non-overlapping part of every later chunk is the text up to the end of
   * its last separator, and what is cut off holds no separator.
   */
  lemma NewPartsRebuildText(seps: seq<string>, text: string, limit: int, overlap: int, count: string -> nat)
    requires NonEmptySeparators(seps)
    ensures SeedChain(Groups(SplitIntoSentences(seps, text), limit, overlap, count), overlap)
    ensures var rebuilt := Concat(NewSentences(Groups(SplitIntoSentences(seps, text), limit, overlap, count), overlap));
            && |rebuilt| <= |text|
            && rebuilt == text[..|rebuilt|]
            && SeparatorFree(seps, text[|rebuilt|..])
  {
    EverySentenceReachesAChunk(SplitIntoSentences(seps, text), limit, overlap, count);
    SentencesCoverText(seps, text);
  }
}
