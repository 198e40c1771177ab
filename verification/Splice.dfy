/** Ingest surgery on a journal's text: spans replaced from the end, against one left-to-right splice. */
module Splice {
  import opened Ast
  import opened Sorting

  /** File text as bytes. */
  type Bytes = string

  /** A directive of the file with its ingest id ("" for none) and its source span. */
  datatype Existing = Existing(id: string, start: int, end: int)

  /** An incoming directive with its formatted text, if it can be formatted. */
  datatype Incoming = Incoming(id: string, text: Option<Bytes>)

  datatype Span = Span(start: int, end: int)

  datatype Replacement = Replacement(start: int, end: int, text: Bytes)

  datatype Error = ParseFailed | MissingSourceSpan(id: string) | Unformatted | InvalidSpan

  datatype Result<+T> = Ok(value: T) | Err(error: Error)

  /** The spans by id: the last directive with an id wins. */
  function IdSpans(existing: seq<Existing>): Result<map<string, Span>> {
    if existing == [] then Ok(map[])
    else
      var last := existing[|existing| - 1];
      var before := IdSpans(existing[..|existing| - 1]);
      if before.Err? || last.id == "" then before
      else if last.end <= last.start then Err(MissingSourceSpan(last.id))
      else Ok(before.value[last.id := Span(last.start, last.end)])
  }

  /** What the incoming directives replace, and the texts of the others. */
  function Planned(incoming: seq<Incoming>, spans: map<string, Span>): Result<(seq<Replacement>, seq<Bytes>)> {
    if incoming == [] then Ok(([], []))
    else
      var last := incoming[|incoming| - 1];
      var before := Planned(incoming[..|incoming| - 1], spans);
      if before.Err? then before
      else if last.text.None? then Err(Unformatted)
      else if last.id != "" && last.id in spans then
        var span := spans[last.id];
        Ok((before.value.0 + [Replacement(span.start, span.end, last.text.value)], before.value.1))
      else Ok((before.value.0, before.value.1 + [last.text.value]))
  }

  predicate LaterFirst(a: Replacement, b: Replacement) {
    a.start > b.start
  }

  predicate NewlineAt(text: Bytes, i: int) {
    0 <= i < |text| && text[i] == '\n'
  }

  predicate EndsLine(text: Bytes) {
    NewlineAt(text, |text| - 1)
  }

  /** A text with a newline at its end. */
  function Line(text: Bytes): Bytes {
    if EndsLine(text) then text else text + "\n"
  }

  /** The text put in place of a span. */
  function Rendered(r: Replacement): Bytes {
    Line(r.text)
  }

  /** Where a replaced span ends in the text: past its newline, if one follows. */
  function Cut(text: Bytes, end: int): int {
    if NewlineAt(text, end) then end + 1 else end
  }

  function SpliceOne(out: Bytes, r: Replacement): Result<Bytes> {
    if r.start < 0 || r.end > |out| || r.start > r.end then Err(InvalidSpan)
    else Ok(out[..r.start] + Rendered(r) + out[Cut(out, r.end)..])
  }

  function SpliceAll(out: Bytes, rs: seq<Replacement>): Result<Bytes>
    decreases |rs|
  {
    if rs == [] then Ok(out)
    else
      var next := SpliceOne(out, rs[0]);
      if next.Err? then next else SpliceAll(next.value, rs[1..])
  }

  function Concat(texts: seq<Bytes>): Bytes {
    if texts == [] then "" else Concat(texts[..|texts| - 1]) + texts[|texts| - 1]
  }

  function Appended(out: Bytes, texts: seq<Bytes>): Bytes {
    if texts == [] then out
    else if out != "" && !EndsLine(out) then out + "\n" + Concat(texts)
    else out + Concat(texts)
  }

  /** The whole merge; existing is what the parser finds, or None when it reports errors. */
  function Merged(file: Bytes, existing: Option<seq<Existing>>, incoming: seq<Incoming>): Result<Bytes> {
    if !Blank(file) && existing.None? then Err(ParseFailed)
    else
      var spans := IdSpans(if Blank(file) then [] else existing.value);
      if spans.Err? then Err(spans.error)
      else
        var plan := Planned(incoming, spans.value);
        if plan.Err? then Err(plan.error)
        else
          var out := SpliceAll(file, Sort(plan.value.0, LaterFirst));
          if out.Err? then out else Ok(Appended(out.value, plan.value.1))
  }

  /* The reference: the file cut into gaps and spans, read from left to right. */

  /** Replacements in file order: nonempty spans inside the file, apart, each starting on a byte that
      is not a newline, with texts that do not start with one. */
  predicate Laid(file: Bytes, rs: seq<Replacement>) {
    (forall i | 0 <= i < |rs| :: Fits(file, rs[i])) && forall i, j | 0 <= i < j < |rs| :: rs[i].end <= rs[j].start
  }

  predicate Fits(file: Bytes, r: Replacement) {
    && 0 <= r.start < r.end <= |file| && file[r.start] != '\n'
    && r.text != "" && r.text[0] != '\n'
  }

  /** The file from a position on, every span replaced at once. */
  function Render(file: Bytes, rs: seq<Replacement>, from: int): Bytes
    requires Laid(file, rs) && 0 <= from <= |file|
    requires rs != [] ==> from <= rs[0].start
  {
    if rs == [] then file[from..]
    else
      CutBefore(file, rs);
      file[from..rs[0].start] + Rendered(rs[0]) + Render(file, rs[1..], Cut(file, rs[0].end))
  }

  lemma CutBefore(file: Bytes, rs: seq<Replacement>)
    requires rs != [] && Laid(file, rs)
    ensures Laid(file, rs[1..]) && rs[0].end <= Cut(file, rs[0].end) <= |file|
    ensures |rs| > 1 ==> Cut(file, rs[0].end) <= rs[1].start
  {
    if |rs| > 1 {
      assert Fits(file, rs[1]) && rs[0].end <= rs[1].start;
    }
  }

  lemma StartBefore(file: Bytes, rs: seq<Replacement>)
    requires rs != [] && Laid(file, rs)
    ensures 0 <= rs[0].start < rs[0].end <= |file|
  {
    assert Fits(file, rs[0]);
  }

  lemma CatSplit(a: Bytes, b: Bytes, x: Bytes, y: Bytes)
    ensures a + b + x + y == a + (b + x + y)
  {
  }

  lemma RenderFrom(file: Bytes, rs: seq<Replacement>, p: int, q: int)
    requires Laid(file, rs) && 0 <= p <= q <= |file| && (rs != [] ==> q <= rs[0].start)
    ensures Render(file, rs, p) == file[p..q] + Render(file, rs, q)
  {
    hide Laid, Rendered, Cut;
    if rs == [] {
      assert file[p..] == file[p..q] + file[q..];
    } else {
      StartBefore(file, rs);
      CutBefore(file, rs);
      var s := rs[0].start;
      assert file[p..s] == file[p..q] + file[q..s];
      CatSplit(file[p..q], file[q..s], Rendered(rs[0]), Render(file, rs[1..], Cut(file, rs[0].end)));
    }
  }

  /** One splice before those already done extends the simultaneous one. */
  lemma SpliceBefore(file: Bytes, r: Replacement, done: seq<Replacement>)
    requires Laid(file, [r] + done) && Laid(file, done)
    ensures SpliceOne(Render(file, done, 0), r) == Ok(Render(file, [r] + done, 0))
  {
    var rs := [r] + done;
    assert rs[1..] == done;
    assert Fits(file, rs[0]);
    CutBefore(file, rs);
    var out := Render(file, done, 0);
    var cut := Cut(file, r.end);
    RenderFrom(file, done, 0, r.end);
    RenderFrom(file, done, 0, cut);
    RenderFrom(file, done, r.end, cut);
    RenderStart(file, done, r.end);
    assert out[..r.start] == file[..r.start];
    assert out[cut..] == Render(file, done, cut);
  }

  /** After a span's end the splice done so far starts with a newline exactly when the file does. */
  lemma RenderStart(file: Bytes, rs: seq<Replacement>, p: int)
    requires Laid(file, rs) && 0 <= p <= |file| && (rs != [] ==> p <= rs[0].start)
    ensures NewlineAt(Render(file, rs, p), 0) <==> NewlineAt(file, p)
  {
    if rs != [] {
      assert Fits(file, rs[0]);
    }
  }

  function Reversed(rs: seq<Replacement>): (r: seq<Replacement>)
    ensures |r| == |rs|
  {
    if rs == [] then [] else Reversed(rs[1..]) + [rs[0]]
  }

  lemma {:induction false} ReversedAt(rs: seq<Replacement>, k: nat)
    requires k < |rs|
    ensures Reversed(rs)[k] == rs[|rs| - 1 - k]
  {
    if k < |rs| - 1 {
      ReversedAt(rs[1..], k);
    }
  }

  /** Replacing from the end to the start is the simultaneous splice. */
  lemma {:induction false} SpliceAllIsRender(file: Bytes, rs: seq<Replacement>, done: seq<Replacement>)
    requires Laid(file, Reversed(rs) + done)
    ensures Laid(file, done)
    ensures SpliceAll(Render(file, done, 0), rs) == Ok(Render(file, Reversed(rs) + done, 0))
    decreases |rs|
  {
    hide Render, SpliceOne;
    LaidTail(file, Reversed(rs), done);
    if rs == [] {
      assert Reversed(rs) + done == done;
    } else {
      var more := [rs[0]] + done;
      assert Reversed(rs) + done == Reversed(rs[1..]) + more;
      LaidTail(file, Reversed(rs[1..]), more);
      SpliceBefore(file, rs[0], done);
      SpliceAllIsRender(file, rs[1..], more);
    }
  }

  lemma LaidTail(file: Bytes, head: seq<Replacement>, tail: seq<Replacement>)
    requires Laid(file, head + tail)
    ensures Laid(file, tail)
  {
    var all := head + tail;
    forall i | 0 <= i < |tail| ensures Fits(file, tail[i]) {
      assert Fits(file, all[|head| + i]);
    }
    forall i, j | 0 <= i < j < |tail| ensures tail[i].end <= tail[j].start {
      assert all[|head| + i].end <= all[|head| + j].start;
    }
  }

  /* Gaps and parts: what the splice keeps. */

  /** The pieces of the file between the replaced spans. */
  function Gaps(file: Bytes, rs: seq<Replacement>, from: int): (g: seq<Bytes>)
    requires Laid(file, rs) && 0 <= from <= |file|
    requires rs != [] ==> from <= rs[0].start
    ensures |g| == |rs| + 1
  {
    if rs == [] then [file[from..]]
    else
      CutBefore(file, rs);
      [file[from..rs[0].start]] + Gaps(file, rs[1..], Cut(file, rs[0].end))
  }

  /** The replaced pieces: each span, with the newline after it if there is one. */
  function OldParts(file: Bytes, rs: seq<Replacement>): (parts: seq<Bytes>)
    requires Laid(file, rs)
    ensures |parts| == |rs|
  {
    if rs == [] then []
    else
      CutBefore(file, rs);
      [file[rs[0].start..Cut(file, rs[0].end)]] + OldParts(file, rs[1..])
  }

  function NewParts(rs: seq<Replacement>): (parts: seq<Bytes>)
    ensures |parts| == |rs|
  {
    if rs == [] then [] else [Rendered(rs[0])] + NewParts(rs[1..])
  }

  /** Gaps and parts alternating. */
  function Weave(gaps: seq<Bytes>, parts: seq<Bytes>): Bytes
    requires |gaps| == |parts| + 1
    decreases |parts|
  {
    if parts == [] then gaps[0] else gaps[0] + parts[0] + Weave(gaps[1..], parts[1..])
  }

  /** The file and the splice share every gap; only the parts between differ. */
  lemma {:induction false} SharedGaps(file: Bytes, rs: seq<Replacement>, from: int)
    requires Laid(file, rs) && 0 <= from <= |file|
    requires rs != [] ==> from <= rs[0].start
    ensures file[from..] == Weave(Gaps(file, rs, from), OldParts(file, rs))
    ensures Render(file, rs, from) == Weave(Gaps(file, rs, from), NewParts(rs))
    decreases |rs|
  {
    hide Laid, Rendered;
    if rs != [] {
      StartBefore(file, rs);
      CutBefore(file, rs);
      var cut := Cut(file, rs[0].end);
      SharedGaps(file, rs[1..], cut);
      assert file[from..] == file[from..rs[0].start] + file[rs[0].start..cut] + file[cut..];
    }
  }

  /* The merge, under the conditions its inputs meet. */

  predicate ApartSpans(aStart: int, aEnd: int, bStart: int, bEnd: int) {
    aEnd <= bStart || bEnd <= aStart
  }

  /** The directives with an id have nonempty spans in the file that start on a directive's first byte. */
  predicate SpansFit(file: Bytes, existing: seq<Existing>) {
    forall i | 0 <= i < |existing| && existing[i].id != "" ::
      0 <= existing[i].start < existing[i].end <= |file| && file[existing[i].start] != '\n'
  }

  predicate SpansApart(existing: seq<Existing>) {
    forall i, j | 0 <= i < j < |existing| && existing[i].id != "" && existing[j].id != "" ::
      ApartSpans(existing[i].start, existing[i].end, existing[j].start, existing[j].end)
  }

  /** Some directive of the file has the id. */
  predicate Knows(existing: seq<Existing>, id: string) {
    id != "" && exists i | 0 <= i < |existing| :: existing[i].id == id
  }

  /** No two incoming directives share an id that the file has. */
  predicate KnownOnce(existing: seq<Existing>, incoming: seq<Incoming>) {
    forall i, j | 0 <= i < j < |incoming| && Knows(existing, incoming[i].id) :: incoming[i].id != incoming[j].id
  }

  /** Formatted texts start with a date. */
  predicate TextsStart(incoming: seq<Incoming>) {
    forall i | 0 <= i < |incoming| && incoming[i].text.Some? ::
      incoming[i].text.value != "" && incoming[i].text.value[0] != '\n'
  }

  /** Every span of the index is one of a directive with that id, and every id has one. */
  predicate Indexed(spans: map<string, Span>, existing: seq<Existing>) {
    && (forall id | id in spans :: id != "" && Existing(id, spans[id].start, spans[id].end) in existing)
    && forall i | 0 <= i < |existing| && existing[i].id != "" :: existing[i].id in spans
  }

  lemma {:induction false} IdSpansIndex(file: Bytes, existing: seq<Existing>)
    requires SpansFit(file, existing)
    ensures IdSpans(existing).Ok? && Indexed(IdSpans(existing).value, existing)
  {
    if existing != [] {
      var n := |existing| - 1;
      IdSpansIndex(file, existing[..n]);
      var before := IdSpans(existing[..n]).value;
      var spans := IdSpans(existing).value;
      forall id | id in spans
        ensures id != "" && Existing(id, spans[id].start, spans[id].end) in existing
      {
        if id == existing[n].id {
          assert existing[n] == Existing(id, spans[id].start, spans[id].end);
        } else {
          assert Existing(id, before[id].start, before[id].end) in existing[..n];
        }
      }
      forall i | 0 <= i < |existing| && existing[i].id != "" ensures existing[i].id in spans {
        assert i < n ==> existing[..n][i] == existing[i];
      }
    }
  }

  /** The place of the incoming directive behind each replacement. */
  predicate PlannedFrom(rs: seq<Replacement>, from: seq<nat>, incoming: seq<Incoming>, spans: map<string, Span>) {
    && |from| == |rs|
    && (forall k | 0 <= k < |rs| :: Replaces(rs[k], from[k], incoming, spans))
    && Covered(from, incoming, spans)
    && forall k, l | 0 <= k < l < |rs| :: from[k] < from[l]
  }

  /** Every incoming directive with a known id is among the places. */
  predicate Covered(from: seq<nat>, incoming: seq<Incoming>, spans: map<string, Span>) {
    forall i: nat | i < |incoming| && incoming[i].id != "" && incoming[i].id in spans :: i in from
  }

  predicate Replaces(r: Replacement, i: nat, incoming: seq<Incoming>, spans: map<string, Span>) {
    && i < |incoming| && incoming[i].id != "" && incoming[i].id in spans
    && incoming[i].text == Some(r.text) && spans[incoming[i].id] == Span(r.start, r.end)
  }

  lemma {:induction false} PlannedOrigin(incoming: seq<Incoming>, spans: map<string, Span>) returns (from: seq<nat>)
    requires Planned(incoming, spans).Ok?
    ensures PlannedFrom(Planned(incoming, spans).value.0, from, incoming, spans)
  {
    from := [];
    if incoming != [] {
      var n := |incoming| - 1;
      var before := PlannedOrigin(incoming[..n], spans);
      OriginMore(incoming, spans, Planned(incoming[..n], spans).value.0, before);
      CoveredMore(incoming, spans, before);
      from := if incoming[n].id != "" && incoming[n].id in spans then before + [n] else before;
    }
  }

  lemma OriginMore(incoming: seq<Incoming>, spans: map<string, Span>, rs: seq<Replacement>, before: seq<nat>)
    requires incoming != [] && PlannedFrom(rs, before, incoming[..|incoming| - 1], spans)
    ensures forall k | 0 <= k < |rs| :: before[k] < |incoming| - 1 && Replaces(rs[k], before[k], incoming, spans)
  {
    hide Covered;
    forall k | 0 <= k < |rs| ensures before[k] < |incoming| - 1 && Replaces(rs[k], before[k], incoming, spans) {
      assert Replaces(rs[k], before[k], incoming[..|incoming| - 1], spans);
    }
  }

  lemma CoveredMore(incoming: seq<Incoming>, spans: map<string, Span>, before: seq<nat>)
    requires incoming != [] && Covered(before, incoming[..|incoming| - 1], spans)
    ensures var n := |incoming| - 1;
            Covered(if incoming[n].id != "" && incoming[n].id in spans then before + [n] else before, incoming, spans)
  {
    var n := |incoming| - 1;
    forall i: nat | i < n && incoming[i].id != "" && incoming[i].id in spans ensures i in before {
      assert incoming[..n][i] == incoming[i];
    }
  }

  predicate ApartReplacements(a: Replacement, b: Replacement) {
    a.end <= b.start || b.end <= a.start
  }

  /** Distinct ids name disjoint spans. */
  lemma SpansOfIdsApart(spans: map<string, Span>, existing: seq<Existing>, a: string, b: string)
    requires SpansApart(existing) && Indexed(spans, existing) && a in spans && b in spans && a != b
    ensures ApartSpans(spans[a].start, spans[a].end, spans[b].start, spans[b].end)
  {
    var i :| 0 <= i < |existing| && existing[i] == Existing(a, spans[a].start, spans[a].end);
    var j :| 0 <= j < |existing| && existing[j] == Existing(b, spans[b].start, spans[b].end);
    assert ApartSpans(existing[i].start, existing[i].end, existing[j].start, existing[j].end);
  }

  lemma SpanOfIdFits(file: Bytes, spans: map<string, Span>, existing: seq<Existing>, a: string)
    requires SpansFit(file, existing) && Indexed(spans, existing) && a in spans
    ensures 0 <= spans[a].start < spans[a].end <= |file| && file[spans[a].start] != '\n'
  {
    var i :| 0 <= i < |existing| && existing[i] == Existing(a, spans[a].start, spans[a].end);
  }

  /** Replacements that fit the file and pairwise do not overlap. */
  predicate Separate(file: Bytes, rs: seq<Replacement>) {
    && (forall k | 0 <= k < |rs| :: Fits(file, rs[k]))
    && forall k, l | 0 <= k < l < |rs| :: ApartReplacements(rs[k], rs[l])
  }

  /** When every text can be formatted, the planned replacements do not overlap exactly when no two
      incoming directives share an id that the file has. */
  lemma PlanSeparate(file: Bytes, existing: seq<Existing>, incoming: seq<Incoming>)
    requires SpansFit(file, existing) && SpansApart(existing) && TextsStart(incoming)
    ensures IdSpans(existing).Ok?
    ensures var plan := Planned(incoming, IdSpans(existing).value);
            plan.Ok? ==> (Separate(file, plan.value.0) <==> KnownOnce(existing, incoming))
  {
    hide IdSpans, Planned, SpansFit, SpansApart, Indexed, Separate, KnownOnce;
    IdSpansIndex(file, existing);
    var spans := IdSpans(existing).value;
    if Planned(incoming, spans).Ok? {
      var from := PlannedOrigin(incoming, spans);
      if KnownOnce(existing, incoming) {
        OnceIsSeparate(file, existing, incoming, spans, Planned(incoming, spans).value.0, from);
      } else {
        TwiceOverlaps(file, existing, incoming, spans, Planned(incoming, spans).value.0, from);
      }
    }
  }

  lemma OnceIsSeparate(file: Bytes, existing: seq<Existing>, incoming: seq<Incoming>, spans: map<string, Span>,
                       rs: seq<Replacement>, from: seq<nat>)
    requires SpansFit(file, existing) && SpansApart(existing) && TextsStart(incoming)
    requires Indexed(spans, existing) && PlannedFrom(rs, from, incoming, spans) && KnownOnce(existing, incoming)
    ensures Separate(file, rs)
  {
    hide SpansFit, SpansApart, Indexed;
    forall k | 0 <= k < |rs| ensures Fits(file, rs[k]) {
      assert Replaces(rs[k], from[k], incoming, spans);
      SpanOfIdFits(file, spans, existing, incoming[from[k]].id);
    }
    forall k, l | 0 <= k < l < |rs| ensures ApartReplacements(rs[k], rs[l]) {
      assert Replaces(rs[k], from[k], incoming, spans) && Replaces(rs[l], from[l], incoming, spans);
      IndexedKnows(spans, existing, incoming[from[k]].id);
      SpansOfIdsApart(spans, existing, incoming[from[k]].id, incoming[from[l]].id);
    }
  }

  lemma IndexedKnows(spans: map<string, Span>, existing: seq<Existing>, id: string)
    requires Indexed(spans, existing)
    ensures id in spans <==> Knows(existing, id)
  {
    if id in spans {
      var i :| 0 <= i < |existing| && existing[i] == Existing(id, spans[id].start, spans[id].end);
      assert existing[i].id == id;
    }
  }

  lemma TwiceOverlaps(file: Bytes, existing: seq<Existing>, incoming: seq<Incoming>, spans: map<string, Span>,
                      rs: seq<Replacement>, from: seq<nat>)
    requires Indexed(spans, existing) && PlannedFrom(rs, from, incoming, spans) && !KnownOnce(existing, incoming)
    ensures !Separate(file, rs)
  {
    hide Indexed;
    var i: nat, j: nat :| i < j < |incoming| && Knows(existing, incoming[i].id) && incoming[i].id == incoming[j].id;
    IndexedKnows(spans, existing, incoming[i].id);
    assert i in from && j in from;
    var k :| 0 <= k < |from| && from[k] == i;
    var l :| 0 <= l < |from| && from[l] == j;
    assert Replaces(rs[k], from[k], incoming, spans) && Replaces(rs[l], from[l], incoming, spans);
    assert k < l;
    assert !(Fits(file, rs[k]) && ApartReplacements(rs[k], rs[l]));
  }

  /** Sorted from the end, separate replacements are in file order when reversed. */
  lemma SortedLaid(file: Bytes, rs: seq<Replacement>)
    requires Separate(file, rs)
    ensures Laid(file, Reversed(Sort(rs, LaterFirst)))
  {
    hide Sort;
    var r := Sort(rs, LaterFirst);
    SortElements(rs, LaterFirst);
    assert WeakOrder(rs, LaterFirst);
    SortSorted(rs, LaterFirst, rs);
    SeparateDistinct(file, rs);
    SortDistinct(rs, LaterFirst);
    forall i | 0 <= i < |r| ensures Fits(file, Reversed(r)[i]) {
      ReversedAt(r, i);
      assert r[|r| - 1 - i] in rs;
    }
    forall i, j | 0 <= i < j < |r| ensures Reversed(r)[i].end <= Reversed(r)[j].start {
      ReversedAt(r, i);
      ReversedAt(r, j);
      SortedPair(file, rs, r[|r| - 1 - j], r[|r| - 1 - i]);
    }
  }

  lemma SeparateDistinct(file: Bytes, rs: seq<Replacement>)
    requires Separate(file, rs)
    ensures Distinct(rs)
  {
    forall k, l | 0 <= k < l < |rs| ensures rs[k] != rs[l] {
      assert Fits(file, rs[k]) && ApartReplacements(rs[k], rs[l]);
    }
  }

  lemma SortedPair(file: Bytes, rs: seq<Replacement>, later: Replacement, earlier: Replacement)
    requires Separate(file, rs) && later in rs && earlier in rs && later != earlier && !LaterFirst(earlier, later)
    ensures earlier.end <= later.start
  {
    var k :| 0 <= k < |rs| && rs[k] == later;
    var l :| 0 <= l < |rs| && rs[l] == earlier;
    assert Fits(file, rs[k]) && Fits(file, rs[l]);
    assert k < l ==> ApartReplacements(rs[k], rs[l]);
    assert l < k ==> ApartReplacements(rs[l], rs[k]);
  }

  /** The replacements in file order. */
  function InFileOrder(rs: seq<Replacement>): seq<Replacement> {
    Reversed(Sort(rs, LaterFirst))
  }

  /** For disjoint spans in the file that start on a directive's first byte, and no id of the file twice
      among the incoming, the merge is the simultaneous splice followed by the other texts. */
  lemma MergeIsSplice(file: Bytes, existing: seq<Existing>, incoming: seq<Incoming>)
    requires !Blank(file)
    requires SpansFit(file, existing) && SpansApart(existing) && KnownOnce(existing, incoming) && TextsStart(incoming)
    ensures IdSpans(existing).Ok?
    ensures var plan := Planned(incoming, IdSpans(existing).value);
            if plan.Err? then Merged(file, Some(existing), incoming) == Err(plan.error)
            else
              && Laid(file, InFileOrder(plan.value.0))
              && Merged(file, Some(existing), incoming) ==
                 Ok(Appended(Render(file, InFileOrder(plan.value.0), 0), plan.value.1))
  {
    hide Sort, Render, Planned, IdSpans, Blank, SpliceAll, Laid;
    PlanSeparate(file, existing, incoming);
    var plan := Planned(incoming, IdSpans(existing).value);
    if plan.Ok? {
      var rs := Sort(plan.value.0, LaterFirst);
      SortedLaid(file, plan.value.0);
      assert Reversed(rs) + [] == Reversed(rs);
      SpliceAllIsRender(file, rs, []);
      RenderNone(file);
    }
  }

  lemma RenderNone(file: Bytes)
    ensures Laid(file, []) && Render(file, [], 0) == file
  {
  }

  /** Such a merge fails exactly when an incoming directive cannot be formatted. */
  lemma MergeFailsExactly(file: Bytes, existing: seq<Existing>, incoming: seq<Incoming>)
    requires !Blank(file)
    requires SpansFit(file, existing) && SpansApart(existing) && KnownOnce(existing, incoming) && TextsStart(incoming)
    ensures Merged(file, Some(existing), incoming).Err? <==> exists i | 0 <= i < |incoming| :: incoming[i].text.None?
    ensures Merged(file, Some(existing), incoming).Err? ==> Merged(file, Some(existing), incoming).error == Unformatted
  {
    hide Merged, Appended, Render, Blank, SpansFit, SpansApart, KnownOnce, TextsStart;
    MergeIsSplice(file, existing, incoming);
    PlannedFails(incoming, IdSpans(existing).value);
  }

  lemma {:induction false} PlannedFails(incoming: seq<Incoming>, spans: map<string, Span>)
    ensures Planned(incoming, spans).Err? <==> exists i | 0 <= i < |incoming| :: incoming[i].text.None?
    ensures Planned(incoming, spans).Err? ==> Planned(incoming, spans).error == Unformatted
  {
    if incoming != [] {
      var n := |incoming| - 1;
      PlannedFails(incoming[..n], spans);
      assert forall i | 0 <= i < n :: incoming[..n][i] == incoming[i];
      assert incoming[n] == incoming[|incoming| - 1];
    }
  }

  /* What the index, the plan and the appended texts are. */

  /** The directive has an id and no span. */
  predicate Spanless(e: Existing) {
    e.id != "" && e.end <= e.start
  }

  /** The last directive with the id. */
  predicate LastWith(existing: seq<Existing>, i: int, id: string) {
    0 <= i < |existing| && existing[i].id == id && forall j | i < j < |existing| :: existing[j].id != id
  }

  /** The first directive with an id and no span. */
  predicate FirstSpanless(existing: seq<Existing>, i: int) {
    0 <= i < |existing| && Spanless(existing[i]) && forall j | 0 <= j < i :: !Spanless(existing[j])
  }

  /** The index fails exactly when a directive with an id has no span, and names the first such. */
  lemma {:induction false} IndexFailsAtFirst(existing: seq<Existing>)
    ensures IdSpans(existing).Err? <==> exists i | 0 <= i < |existing| :: Spanless(existing[i])
    ensures forall i | FirstSpanless(existing, i) :: IdSpans(existing) == Err(MissingSourceSpan(existing[i].id))
  {
    if existing != [] {
      var n := |existing| - 1;
      IndexFailsAtFirst(existing[..n]);
      IndexFails(existing);
      forall i | FirstSpanless(existing, i) ensures IdSpans(existing) == Err(MissingSourceSpan(existing[i].id)) {
        assert forall j | 0 <= j < n :: existing[..n][j] == existing[j];
        assert i < n ==> FirstSpanless(existing[..n], i);
      }
    }
  }

  /** Otherwise it has every id of the file, with the span of the last directive that has it. */
  lemma {:induction false} IndexIsLast(existing: seq<Existing>, id: string)
    requires IdSpans(existing).Ok?
    ensures id in IdSpans(existing).value <==> Knows(existing, id)
    ensures id != "" ==> forall i | LastWith(existing, i, id) ::
              id in IdSpans(existing).value && IdSpans(existing).value[id] == Span(existing[i].start, existing[i].end)
  {
    hide Knows;
    if existing == [] {
      assert !Knows([], id) by { NothingKnown(id); }
    } else {
      var n := |existing| - 1;
      IndexIsLast(existing[..n], id);
      KnowsMore(existing, id);
      forall i | LastWith(existing, i, id) && i < n ensures LastWith(existing[..n], i, id) && existing[n].id != id {}
    }
  }

  lemma NothingKnown(id: string)
    ensures !Knows([], id)
  {
  }

  lemma IndexFails(existing: seq<Existing>)
    requires existing != []
    ensures var n := |existing| - 1;
            (exists i | 0 <= i < |existing| :: Spanless(existing[i])) <==>
            Spanless(existing[n]) || exists i | 0 <= i < n :: Spanless(existing[..n][i])
  {
    var n := |existing| - 1;
    assert forall i | 0 <= i < n :: existing[..n][i] == existing[i];
  }

  lemma KnowsMore(existing: seq<Existing>, id: string)
    requires existing != []
    ensures Knows(existing, id) <==>
            Knows(existing[..|existing| - 1], id) || (id != "" && existing[|existing| - 1].id == id)
  {
    assert forall i | 0 <= i < |existing| - 1 :: existing[..|existing| - 1][i] == existing[i];
  }

  /** The texts of the incoming directives whose id the file does not have, in order. */
  ghost function Others(existing: seq<Existing>, incoming: seq<Incoming>): seq<Bytes>
    requires forall i | 0 <= i < |incoming| :: incoming[i].text.Some?
  {
    if incoming == [] then []
    else
      var last := incoming[|incoming| - 1];
      Others(existing, incoming[..|incoming| - 1]) + if Knows(existing, last.id) then [] else [last.text.value]
  }

  lemma {:induction false} AppendsAreOthers(existing: seq<Existing>, incoming: seq<Incoming>)
    requires IdSpans(existing).Ok? && forall i | 0 <= i < |incoming| :: incoming[i].text.Some?
    ensures Planned(incoming, IdSpans(existing).value).Ok?
    ensures Planned(incoming, IdSpans(existing).value).value.1 == Others(existing, incoming)
  {
    if incoming != [] {
      var last := incoming[|incoming| - 1];
      AppendsAreOthers(existing, incoming[..|incoming| - 1]);
      IndexIsLast(existing, last.id);
    }
  }

  /** Texts are appended at the start of a line: after the file, or after the file and the newline it lacks. */
  lemma {:induction false} AppendedAtLine(out: Bytes, texts: seq<Bytes>)
    requires texts != []
    ensures exists head :: Appended(out, texts) == head + Concat(texts)
              && (head == "" || head[|head| - 1] == '\n')
              && (if out == "" || out[|out| - 1] == '\n' then head == out else head == out + "\n")
  {
    hide Concat;
    var rest := Concat(texts);
    if out != "" && !EndsLine(out) {
      var head := out + "\n";
      assert head[|head| - 1] == '\n' && Appended(out, texts) == head + rest;
    } else {
      assert Appended(out, texts) == out + rest;
    }
  }

  /** The texts are appended in order. */
  lemma {:induction false} ConcatInOrder(texts: seq<Bytes>, more: seq<Bytes>)
    ensures Concat(texts + more) == Concat(texts) + Concat(more)
    ensures |more| == 1 ==> Concat(more) == more[0]
  {
    if more == [] {
      assert texts + more == texts;
    } else {
      assert (texts + more)[..|texts + more| - 1] == texts + more[..|more| - 1];
      ConcatInOrder(texts, more[..|more| - 1]);
    }
    if |more| == 1 { assert more[..0] == []; }
  }

  /** A file of blanks has no directives: every text is appended, whatever its id. A file that is not blank and
      cannot be parsed is left alone. */
  lemma BlankFileAppends(file: Bytes, existing: Option<seq<Existing>>, incoming: seq<Incoming>)
    requires forall i | 0 <= i < |incoming| :: incoming[i].text.Some?
    ensures (forall i | 0 <= i < |file| :: IsSpace(file[i])) ==>
              |Others([], incoming)| == |incoming|
              && (forall i | 0 <= i < |incoming| :: Others([], incoming)[i] == incoming[i].text.value)
              && Merged(file, existing, incoming) == Ok(Appended(file, Others([], incoming)))
    ensures (exists i | 0 <= i < |file| :: !IsSpace(file[i])) ==> Merged(file, None, incoming) == Err(ParseFailed)
  {
    hide Appended;
    if Blank(file) {
      AppendsAreOthers([], incoming);
      AllOthers(incoming);
      NothingReplaced(incoming);
      assert Sort<Replacement>([], LaterFirst) == [];
    }
  }

  lemma {:induction false} AllOthers(incoming: seq<Incoming>)
    requires forall i | 0 <= i < |incoming| :: incoming[i].text.Some?
    ensures |Others([], incoming)| == |incoming|
    ensures forall i | 0 <= i < |incoming| :: Others([], incoming)[i] == incoming[i].text.value
  {
    if incoming != [] { AllOthers(incoming[..|incoming| - 1]); }
  }

  lemma {:induction false} NothingReplaced(incoming: seq<Incoming>)
    requires forall i | 0 <= i < |incoming| :: incoming[i].text.Some?
    ensures Planned(incoming, map[]).Ok? && Planned(incoming, map[]).value.0 == []
  {
    if incoming != [] { NothingReplaced(incoming[..|incoming| - 1]); }
  }

  /* One known id twice. */

  function Twice(id: string, x: Bytes, y: Bytes): seq<Incoming> {
    [Incoming(id, Some(x)), Incoming(id, Some(y))]
  }

  /** One more incoming directive with a known id is one more replacement. */
  lemma PlannedMore(incoming: seq<Incoming>, d: Incoming, spans: map<string, Span>)
    requires Planned(incoming, spans).Ok? && d.text.Some? && d.id != "" && d.id in spans
    ensures var plan, span := Planned(incoming, spans).value, spans[d.id];
            Planned(incoming + [d], spans) ==
            Ok((plan.0 + [Replacement(span.start, span.end, d.text.value)], plan.1))
  {
    assert (incoming + [d])[..|incoming|] == incoming;
  }

  lemma TwicePlanned(id: string, x: Bytes, y: Bytes, spans: map<string, Span>)
    requires id != "" && id in spans
    ensures var first, second := Replacement(spans[id].start, spans[id].end, x),
                                 Replacement(spans[id].start, spans[id].end, y);
            && Planned(Twice(id, x, y), spans) == Ok(([first, second], []))
            && Planned([Incoming(id, Some(y))], spans) == Ok(([second], []))
  {
    var first, second := Incoming(id, Some(x)), Incoming(id, Some(y));
    assert Planned([], spans) == Ok(([], []));
    PlannedMore([], first, spans);
    PlannedMore([], second, spans);
    PlannedMore([first], second, spans);
    assert [] + [first] == [first] && [] + [second] == [second] && [first] + [second] == Twice(id, x, y);
    var r, q := Replacement(spans[id].start, spans[id].end, x), Replacement(spans[id].start, spans[id].end, y);
    assert [] + [r] == [r] && [] + [q] == [q] && [r] + [q] == [r, q];
  }

  /** What a splice of one span leaves after the place where the span started. */
  function RestAfter(file: Bytes, span: Span, x: Bytes): Bytes
    requires 0 <= span.end <= |file|
  {
    Line(x) + file[Cut(file, span.end)..]
  }

  /** A second splice of the same span cuts the first text where the old directive ended. */
  lemma SecondSplice(file: Bytes, span: Span, x: Bytes, y: Bytes)
    requires 0 <= span.start < span.end <= |file|
    ensures var rest, n := RestAfter(file, span, x), span.end - span.start;
            && SpliceOne(file, Replacement(span.start, span.end, x)) == Ok(file[..span.start] + rest)
            && SpliceOne(file[..span.start] + rest, Replacement(span.start, span.end, y))
               == if |rest| < n then Err(InvalidSpan) else Ok(file[..span.start] + Line(y) + rest[Cut(rest, n)..])
  {
    hide Line;
    var rest, n := RestAfter(file, span, x), span.end - span.start;
    var out := file[..span.start] + rest;
    assert file[..span.start] + Line(x) + file[Cut(file, span.end)..] == out;
    assert out[..span.start] == file[..span.start];
    if |rest| >= n {
      assert Cut(out, span.end) == span.start + Cut(rest, n);
      assert out[Cut(out, span.end)..] == rest[Cut(rest, n)..];
    }
  }

  lemma SortTwo(a: Replacement, b: Replacement)
    requires a.start == b.start
    ensures Sort([a, b], LaterFirst) == [a, b] && Sort([b], LaterFirst) == [b]
  {
    assert [a, b][..1] == [a] && [a][..0] == [] && [b][..0] == [];
    assert Sort([a], LaterFirst) == [a];
  }

  lemma SpliceTwo(out: Bytes, a: Replacement, b: Replacement)
    ensures SpliceAll(out, [a, b]) ==
            if SpliceOne(out, a).Err? then SpliceOne(out, a) else SpliceOne(SpliceOne(out, a).value, b)
    ensures SpliceAll(out, [b]) == SpliceOne(out, b)
  {
    hide SpliceOne;
    assert [a, b][1..] == [b] && [b][1..] == [];
    assert forall v :: SpliceAll(v, []) == Ok(v);
    assert forall v :: SpliceAll(v, [b]) == SpliceOne(v, b);
  }

  /** The first text is as long as the span it replaced, with the newline after it if one follows. */
  predicate SameLength(file: Bytes, span: Span, x: Bytes)
    requires 0 <= span.end <= |file|
  {
    var n := span.end - span.start;
    |Line(x)| == n + 1 || (|Line(x)| == n && !NewlineAt(file, Cut(file, span.end)))
  }

  /** Two incoming texts for one id of the file: the second is put where the first starts, and what the
      first has beyond the length of the old directive stays behind it; if the first and all that
      follows are shorter, the merge fails. The second simply wins exactly when the lengths agree. */
  lemma RepeatedIdGarbles(file: Bytes, existing: seq<Existing>, id: string, x: Bytes, y: Bytes)
    requires !Blank(file) && id != "" && IdSpans(existing).Ok? && id in IdSpans(existing).value
    requires var span := IdSpans(existing).value[id]; 0 <= span.start < span.end <= |file|
    ensures var span := IdSpans(existing).value[id];
            var rest, n := RestAfter(file, span, x), span.end - span.start;
            && Merged(file, Some(existing), Twice(id, x, y))
               == (if |rest| < n then Err(InvalidSpan) else Ok(file[..span.start] + Line(y) + rest[Cut(rest, n)..]))
            && (Merged(file, Some(existing), Twice(id, x, y)) == Merged(file, Some(existing), [Incoming(id, Some(y))])
                <==> SameLength(file, span, x))
  {
    hide IdSpans, Planned, SpliceAll, SpliceOne, Sort, Blank, SameLength;
    var spans := IdSpans(existing).value;
    var span := spans[id];
    var first, second := Replacement(span.start, span.end, x), Replacement(span.start, span.end, y);
    TwicePlanned(id, x, y, spans);
    SortTwo(first, second);
    SpliceTwo(file, first, second);
    SecondSplice(file, span, x, y);
    SecondSplice(file, span, y, x);
    SecondWins(file, span, x, y);
  }

  lemma SecondWins(file: Bytes, span: Span, x: Bytes, y: Bytes)
    requires 0 <= span.start < span.end <= |file|
    ensures var rest, n := RestAfter(file, span, x), span.end - span.start;
            SameLength(file, span, x) <==>
            |rest| >= n
            && file[..span.start] + Line(y) + rest[Cut(rest, n)..] == file[..span.start] + RestAfter(file, span, y)
  {
    var rest, n := RestAfter(file, span, x), span.end - span.start;
    var head, tail := file[..span.start] + Line(y), file[Cut(file, span.end)..];
    assert file[..span.start] + RestAfter(file, span, y) == head + tail;
    assert rest[|Line(x)|..] == tail;
    assert Line(x)[|Line(x)| - 1] == '\n';
    if |rest| >= n {
      var cut := Cut(rest, n);
      if cut == |Line(x)| {
        assert head + rest[cut..] == head + tail;
      } else {
        assert |head + rest[cut..]| != |head + tail|;
      }
    }
  }

  const OLD_RATE: Bytes := "2025" + "-04-03 custom \"index\" \"CDI\" 0.1\n  ingest_id: \"x\"\n"
  const LONG_HEAD: Bytes := "2025-04-03 custom \"index\" \"CDI\" 0.000451\n  ingest_id:"
  const LONG_TAIL: Bytes := " \"x\"\n"
  const NEW_RATE: Bytes := "2025-04-03 custom \"index\" \"CDI\" 0.2\n  ingest_id: \"x\"\n"

  /** One rate in the file and two incoming with its id: the end of the longer first one stays as a line. */
  lemma TwoRatesGarble()
    ensures Merged(OLD_RATE, Some([Existing("x", 0, |OLD_RATE|)]), Twice("x", LONG_HEAD + LONG_TAIL, NEW_RATE))
         == Ok(NEW_RATE + LONG_TAIL)
  {
    hide Merged;
    var existing := [Existing("x", 0, |OLD_RATE|)];
    var span := Span(0, |OLD_RATE|);
    assert existing[..0] == [];
    assert IdSpans(existing) == Ok(map["x" := span]);
    assert "2025"[0] == '2' && OLD_RATE[0] == '2';
    assert !Blank(OLD_RATE);
    var x := LONG_HEAD + LONG_TAIL;
    assert EndsLine(x) && EndsLine(NEW_RATE);
    assert |LONG_HEAD| == |OLD_RATE|;
    RepeatedIdGarbles(OLD_RATE, existing, "x", x, NEW_RATE);
    assert RestAfter(OLD_RATE, span, x) == x;
    assert x[|OLD_RATE|..] == LONG_TAIL;
    assert OLD_RATE[..0] + NEW_RATE == NEW_RATE;
  }

  /* Reading the incoming lines: of the lines that name one id, the last is kept. */

  /** A line with its id field ("" for none) and its directive, whose id may also be in the metadata. */
  datatype Entry = Entry(id: string, d: Incoming)

  function PlaceOf(kept: seq<Entry>, id: string): (k: nat)
    ensures k <= |kept|
    ensures k < |kept| ==> kept[k].id == id
    ensures forall i | 0 <= i < k :: kept[i].id != id
  {
    if kept == [] || kept[0].id == id then 0 else 1 + PlaceOf(kept[1..], id)
  }

  /** A line replaces the kept one of its id in place. */
  function Kept(entries: seq<Entry>): seq<Entry> {
    if entries == [] then []
    else
      var last := entries[|entries| - 1];
      var before := Kept(entries[..|entries| - 1]);
      var k := PlaceOf(before, last.id);
      if last.id != "" && k < |before| then before[k := last] else before + [last]
  }

  function Directives(entries: seq<Entry>): (ds: seq<Incoming>)
    ensures |ds| == |entries| && forall i | 0 <= i < |ds| :: ds[i] == entries[i].d
  {
    if entries == [] then [] else Directives(entries[..|entries| - 1]) + [entries[|entries| - 1].d]
  }

  /** No later line has the id of the line. */
  predicate LastOfId(entries: seq<Entry>, k: int)
    requires 0 <= k < |entries|
  {
    entries[k].id == "" || forall j | k < j < |entries| :: entries[j].id != entries[k].id
  }

  /** Whether the entry stands somewhere as the last line of its id. */
  predicate StandsLast(entries: seq<Entry>, e: Entry) {
    exists k | 0 <= k < |entries| :: entries[k] == e && LastOfId(entries, k)
  }

  predicate FieldsOnce(kept: seq<Entry>) {
    forall i, j | 0 <= i < j < |kept| && kept[i].id != "" :: kept[i].id != kept[j].id
  }

  lemma {:induction false} KeptFieldsOnce(entries: seq<Entry>)
    ensures FieldsOnce(Kept(entries))
  {
    if entries != [] {
      KeptFieldsOnce(entries[..|entries| - 1]);
    }
  }

  /** Exactly the last line of every id is kept, and every line without one. */
  lemma {:induction false} KeptAreLast(entries: seq<Entry>, e: Entry)
    ensures e in Kept(entries) <==> StandsLast(entries, e)
  {
    if entries != [] {
      var before := entries[..|entries| - 1];
      KeptAreLast(before, e);
      KeptFieldsOnce(before);
      KeptStep(Kept(before), entries[|entries| - 1], e);
      LastStep(entries, e);
    }
  }

  lemma LastStep(entries: seq<Entry>, e: Entry)
    requires entries != []
    ensures var last := entries[|entries| - 1];
            StandsLast(entries, e)
            <==> e == last || (StandsLast(entries[..|entries| - 1], e) && (e.id == "" || e.id != last.id))
  {
    hide LastOfId;
    var n := |entries| - 1;
    LastAt(entries, n);
    forall k | 0 <= k < n
      ensures LastOfId(entries, k)
              <==> LastOfId(entries[..n], k) && (entries[k].id == "" || entries[k].id != entries[n].id)
    {
      LastAt(entries, k);
    }
  }

  lemma LastAt(entries: seq<Entry>, k: nat)
    requires k < |entries|
    ensures k == |entries| - 1 ==> LastOfId(entries, k)
    ensures k < |entries| - 1 ==>
              (LastOfId(entries, k) <==> LastOfId(entries[..|entries| - 1], k)
                                         && (entries[k].id == "" || entries[k].id != entries[|entries| - 1].id))
  {
  }

  lemma KeptStep(before: seq<Entry>, last: Entry, e: Entry)
    requires FieldsOnce(before)
    ensures var k := PlaceOf(before, last.id);
            var after := if last.id != "" && k < |before| then before[k := last] else before + [last];
            e in after <==> e == last || (e in before && (e.id == "" || e.id != last.id))
  {
    var k := PlaceOf(before, last.id);
    var after := if last.id != "" && k < |before| then before[k := last] else before + [last];
    if last.id != "" && k < |before| {
      assert after[k] == last;
      if e in before && e.id != last.id {
        var i :| 0 <= i < |before| && before[i] == e;
        assert after[i] == e;
      }
    }
  }

  /** A directive's id, if it has one, is the id field of its line. */
  predicate NamedByField(entries: seq<Entry>) {
    forall i | 0 <= i < |entries| :: entries[i].d.id in {"", entries[i].id}
  }

  /** When ids are given by the id field, no known id reaches the merge twice. */
  lemma ReadIdsOnce(existing: seq<Existing>, entries: seq<Entry>)
    requires NamedByField(entries)
    ensures KnownOnce(existing, Directives(Kept(entries)))
  {
    hide Kept;
    KeptFieldsOnce(entries);
    var kept := Kept(entries);
    forall i | 0 <= i < |kept| ensures kept[i].d.id in {"", kept[i].id} {
      KeptAreLast(entries, kept[i]);
    }
  }

  lemma PlaceIs(kept: seq<Entry>, id: string, k: nat)
    requires FieldsOnce(kept) && id != "" && k < |kept| && kept[k].id == id
    ensures PlaceOf(kept, id) == k
  {
  }

  /** The index leads from every id to its kept place. */
  predicate Places(byId: map<string, nat>, kept: seq<Entry>) {
    && (forall id | id in byId :: id != "" && byId[id] < |kept| && kept[byId[id]].id == id)
    && forall k | 0 <= k < |kept| && kept[k].id != "" :: kept[k].id in byId
  }

  /** One more line on the kept ones, found by the index. */
  lemma KeepNext(entries: seq<Entry>, i: nat, kept: seq<Entry>, byId: map<string, nat>)
    requires i < |entries| && kept == Kept(entries[..i]) && Places(byId, kept)
    ensures var e := entries[i];
            Kept(entries[..i + 1]) == if e.id != "" && e.id in byId then kept[byId[e.id] := e] else kept + [e]
  {
    hide FieldsOnce, Kept, PlaceOf;
    KeptFieldsOnce(entries[..i]);
    var e := entries[i];
    assert entries[..i + 1][..i] == entries[..i];
    KeptMore(entries[..i + 1]);
    if e.id != "" && e.id in byId {
      PlaceIs(kept, e.id, byId[e.id]);
    }
  }

  lemma KeptMore(entries: seq<Entry>)
    requires entries != []
    ensures var before, last := Kept(entries[..|entries| - 1]), entries[|entries| - 1];
            var k := PlaceOf(before, last.id);
            Kept(entries) == if last.id != "" && k < |before| then before[k := last] else before + [last]
  {
  }

  lemma PlacesNext(byId: map<string, nat>, kept: seq<Entry>, e: Entry)
    requires Places(byId, kept)
    ensures e.id in byId ==> byId[e.id] < |kept|
    ensures if e.id != "" && e.id in byId then Places(byId, kept[byId[e.id] := e])
            else Places(if e.id != "" then byId[e.id := |kept|] else byId, kept + [e])
  {
  }

  /** The reading loop: an index from ids to kept places. */
  method ReadEntries(entries: seq<Entry>) returns (kept: seq<Entry>)
    ensures kept == Kept(entries)
  {
    hide Kept, Places;
    var byId: map<string, nat> := map[];
    kept := [];
    KeptNone();
    var i := 0;
    while i < |entries|
      invariant i <= |entries| && kept == Kept(entries[..i]) && Places(byId, kept)
    {
      var e := entries[i];
      KeepNext(entries, i, kept, byId);
      PlacesNext(byId, kept, e);
      if e.id != "" && e.id in byId {
        kept := kept[byId[e.id] := e];
      } else {
        if e.id != "" {
          byId := byId[e.id := |kept|];
        }
        kept := kept + [e];
      }
      i := i + 1;
    }
    assert entries[..i] == entries;
  }

  lemma KeptNone()
    ensures Kept([]) == [] && Places(map[], [])
  {
  }

  /** The first loop: the index of spans by id. */
  method IndexSpans(existing: seq<Existing>) returns (r: Result<map<string, Span>>)
    ensures r == IdSpans(existing)
  {
    var spans: map<string, Span> := map[];
    var i := 0;
    while i < |existing|
      invariant i <= |existing| && IdSpans(existing[..i]) == Ok(spans)
    {
      var d := existing[i];
      assert existing[..i + 1][..i] == existing[..i];
      if d.id != "" {
        if d.end <= d.start {
          SpansStop(existing, i);
          return Err(MissingSourceSpan(d.id));
        }
        spans := spans[d.id := Span(d.start, d.end)];
      }
      i := i + 1;
    }
    assert existing[..i] == existing;
    return Ok(spans);
  }

  lemma {:induction false} SpansStop(existing: seq<Existing>, i: nat)
    requires i < |existing| && IdSpans(existing[..i + 1]).Err?
    ensures IdSpans(existing) == IdSpans(existing[..i + 1])
  {
    var n := |existing| - 1;
    if i == n {
      assert existing[..i + 1] == existing;
    } else {
      assert existing[..n][..i + 1] == existing[..i + 1];
      SpansStop(existing[..n], i);
    }
  }

  /** The second loop: replacements and appends. */
  method Plan(incoming: seq<Incoming>, spans: map<string, Span>) returns (r: Result<(seq<Replacement>, seq<Bytes>)>)
    ensures r == Planned(incoming, spans)
  {
    var replacements: seq<Replacement>, appends: seq<Bytes> := [], [];
    var i := 0;
    while i < |incoming|
      invariant i <= |incoming| && Planned(incoming[..i], spans) == Ok((replacements, appends))
    {
      var d := incoming[i];
      assert incoming[..i + 1][..i] == incoming[..i];
      if d.text.None? {
        PlanStop(incoming, spans, i);
        return Err(Unformatted);
      }
      if d.id != "" && d.id in spans {
        var span := spans[d.id];
        replacements := replacements + [Replacement(span.start, span.end, d.text.value)];
      } else {
        appends := appends + [d.text.value];
      }
      i := i + 1;
    }
    assert incoming[..i] == incoming;
    return Ok((replacements, appends));
  }

  lemma {:induction false} PlanStop(incoming: seq<Incoming>, spans: map<string, Span>, i: nat)
    requires i < |incoming| && Planned(incoming[..i + 1], spans).Err?
    ensures Planned(incoming, spans) == Planned(incoming[..i + 1], spans)
  {
    var n := |incoming| - 1;
    if i == n {
      assert incoming[..i + 1] == incoming;
    } else {
      assert incoming[..n][..i + 1] == incoming[..i + 1];
      PlanStop(incoming[..n], spans, i);
    }
  }

  /** One round of the third loop. */
  method SpliceSpan(out: Bytes, rep: Replacement) returns (r: Result<Bytes>)
    ensures r == SpliceOne(out, rep)
  {
    if rep.start < 0 || rep.end > |out| || rep.start > rep.end {
      return Err(InvalidSpan);
    }
    var end := rep.end;
    if end < |out| && out[end] == '\n' {
      end := end + 1;
    }
    var text := rep.text;
    if !EndsLine(text) {
      text := text + "\n";
    }
    return Ok(out[..rep.start] + text + out[end..]);
  }

  /** The third loop: out is spliced from its end to its start. */
  method SpliceSorted(file: Bytes, rs: seq<Replacement>) returns (r: Result<Bytes>)
    ensures r == SpliceAll(file, rs)
  {
    hide SpliceOne;
    var out := file;
    var i := 0;
    while i < |rs|
      invariant i <= |rs| && SpliceAll(file, rs) == SpliceAll(out, rs[i..])
    {
      assert rs[i..][1..] == rs[i + 1..];
      r := SpliceSpan(out, rs[i]);
      if r.Err? {
        return;
      }
      out := r.value;
      i := i + 1;
    }
    return Ok(out);
  }

  method AppendTexts(out: Bytes, texts: seq<Bytes>) returns (r: Bytes)
    ensures r == Appended(out, texts)
  {
    r := out;
    if |texts| > 0 {
      if |out| > 0 && !EndsLine(out) {
        r := r + "\n";
      }
      ghost var start := r;
      var i := 0;
      while i < |texts|
        invariant i <= |texts| && r == start + Concat(texts[..i])
      {
        assert texts[..i + 1][..i] == texts[..i];
        r := r + texts[i];
        i := i + 1;
      }
      assert texts[..i] == texts;
    }
  }

  /** The merge of incoming directives into the file. */
  method Apply(file: Bytes, existing: Option<seq<Existing>>, incoming: seq<Incoming>) returns (r: Result<Bytes>)
    ensures r == Merged(file, existing, incoming)
  {
    hide IdSpans, Planned, SpliceAll, Appended, Blank;
    var known: seq<Existing> := [];
    if !Blank(file) {
      if existing.None? {
        return Err(ParseFailed);
      }
      known := existing.value;
    }
    var spans := IndexSpans(known);
    if spans.Err? {
      return Err(spans.error);
    }
    var plan := Plan(incoming, spans.value);
    if plan.Err? {
      return Err(plan.error);
    }
    var sorted := SortedCopy(plan.value.0, LaterFirst);
    var out := SpliceSorted(file, sorted);
    if out.Err? {
      return out;
    }
    var text := AppendTexts(out.value, plan.value.1);
    return Ok(text);
  }
}
