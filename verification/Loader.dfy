/** Include expansion: depth-first loading with a seen set, against full inlining. */
module Loader {
  import opened Ast

  /** A canonical path: absolute, symbolic links resolved. */
  type FileId = nat

  /** A glob hit, as stat and the ignore rules see it. */
  datatype Hit = Gone | Subdirectory | Ignored(file: FileId) | Readable(file: FileId)

  /** What an include's pattern resolves to in its file's directory. */
  datatype Target =
    | Blank
    | Absent
    | StatFailed
    | Directory
    | Named(file: FileId)
    | BadGlob
    | Glob(hits: seq<Hit>)

  datatype Item = Plain | Include(target: Target)

  /** The files that can be read and parsed. */
  type Disk = map<FileId, seq<Item>>

  datatype Error =
    | IncludeCycle(file: FileId)
    | Unreadable(file: FileId)
    | IncludePathEmpty
    | IncludeMissing
    | IncludeIsDir
    | BadPattern
    | NoStat

  /** A directive passed on, or a glob that matched no file; both named by their place. */
  datatype Event = Emitted(file: FileId, index: nat) | MatchedNothing(file: FileId, index: nat)

  /** What a file asks of its loader, in order. */
  datatype Step = Put(event: Event) | Visit(file: FileId) | Fail(error: Error)

  function HitSteps(hits: seq<Hit>): seq<Step> {
    if hits == [] then []
    else
      match hits[0]
      case Gone => [Fail(NoStat)] + HitSteps(hits[1..])
      case Readable(g) => [Visit(g)] + HitSteps(hits[1..])
      case _ => HitSteps(hits[1..])
  }

  /** The step is what the hit asks for. */
  predicate Asks(hit: Hit, step: Step) {
    match hit
    case Readable(g) => step == Visit(g)
    case Gone => step == Fail(NoStat)
    case _ => false
  }

  /** The steps are asked for by the hits at the places in from, in order. */
  ghost predicate AskedBy(hits: seq<Hit>, steps: seq<Step>, from: seq<nat>) {
    && |from| == |steps| && (forall k, l | 0 <= k < l < |from| :: from[k] < from[l])
    && forall k | 0 <= k < |from| :: from[k] < |hits| && Asks(hits[from[k]], steps[k])
  }

  lemma {:induction false} HitStepsSnoc(hits: seq<Hit>, h: Hit)
    ensures HitSteps(hits + [h]) == HitSteps(hits) + HitSteps([h])
  {
    if hits == [] {
      assert [] + [h] == [h] && [] + HitSteps([h]) == HitSteps([h]);
    } else {
      assert (hits + [h])[1..] == hits[1..] + [h];
      HitStepsSnoc(hits[1..], h);
    }
  }

  /** What a glob asks for: from the hits in order, every readable file is visited and a hit that is gone is
      an error; directories and files that the ignore rules drop ask for nothing. */
  lemma {:induction false} GlobVisits(hits: seq<Hit>) returns (from: seq<nat>)
    ensures AskedBy(hits, HitSteps(hits), from)
    ensures forall i: nat | i < |hits| && (hits[i].Readable? || hits[i].Gone?) :: i in from
  {
    from := [];
    if hits != [] {
      var n := |hits| - 1;
      var before := GlobVisits(hits[..n]);
      assert hits == hits[..n] + [hits[n]];
      HitStepsSnoc(hits[..n], hits[n]);
      var asks := hits[n].Readable? || hits[n].Gone?;
      from := if asks then before + [n] else before;
      AskedMore(hits, HitSteps(hits[..n]), HitSteps([hits[n]]), before, from);
      forall i: nat | i < |hits| && (hits[i].Readable? || hits[i].Gone?) ensures i in from {
        if i < n { assert hits[..n][i] == hits[i]; }
      }
    }
  }

  lemma AskedMore(hits: seq<Hit>, steps: seq<Step>, last: seq<Step>, before: seq<nat>, from: seq<nat>)
    requires hits != [] && AskedBy(hits[..|hits| - 1], steps, before)
    requires (last == [] && from == before)
             || (|last| == 1 && Asks(hits[|hits| - 1], last[0]) && from == before + [|hits| - 1])
    ensures AskedBy(hits, steps + last, from)
  {
    hide Asks;
    forall k | 0 <= k < |before| ensures before[k] < |hits| - 1 && Asks(hits[before[k]], steps[k]) {
      assert hits[..|hits| - 1][before[k]] == hits[before[k]];
    }
  }

  predicate AllIgnored(hits: seq<Hit>) {
    (exists i | 0 <= i < |hits| :: hits[i].Ignored?) && forall i | 0 <= i < |hits| :: !hits[i].Readable?
  }

  function TargetSteps(f: FileId, i: nat, t: Target): seq<Step> {
    match t
    case Blank => [Fail(IncludePathEmpty)]
    case Absent => [Fail(IncludeMissing)]
    case StatFailed => [Fail(NoStat)]
    case Directory => [Fail(IncludeIsDir)]
    case BadGlob => [Fail(BadPattern)]
    case Named(g) => [Visit(g)]
    case Glob(hits) =>
      HitSteps(hits) + if hits == [] || AllIgnored(hits) then [Put(MatchedNothing(f, i))] else []
  }

  function ItemSteps(f: FileId, i: nat, item: Item): seq<Step> {
    match item
    case Plain => [Put(Emitted(f, i))]
    case Include(t) => TargetSteps(f, i, t)
  }

  /** The steps of file f from item i on. */
  function StepsFrom(f: FileId, items: seq<Item>, i: nat): seq<Step>
    requires i <= |items|
    decreases |items| - i
  {
    if i == |items| then [] else ItemSteps(f, i, items[i]) + StepsFrom(f, items, i + 1)
  }

  function Program(disk: Disk, f: FileId): seq<Step>
    requires f in disk
  {
    StepsFrom(f, disk[f], 0)
  }

  /* Loading, with each file expanded at most once. */

  /** The output so far, and the finished files in the order they finished. */
  datatype State = State(trace: seq<Event>, done: seq<FileId>)

  function Expand(disk: Disk, g: FileId, stack: set<FileId>, st: State): (State, Option<Error>)
    decreases |disk.Keys - stack|, 0
  {
    if g in stack then (st, Some(IncludeCycle(g)))
    else if g in st.done then (st, None)
    else if g !in disk then (st, Some(Unreadable(g)))
    else
      assert disk.Keys - (stack + {g}) == disk.Keys - stack - {g};
      var (after, err) := Walk(disk, Program(disk, g), stack + {g}, st);
      if err.Some? then (after, err) else (after.(done := after.done + [g]), None)
  }

  function Walk(disk: Disk, steps: seq<Step>, stack: set<FileId>, st: State): (State, Option<Error>)
    decreases |disk.Keys - stack|, |steps|
  {
    if steps == [] then (st, None)
    else
      match steps[0]
      case Put(e) => Walk(disk, steps[1..], stack, st.(trace := st.trace + [e]))
      case Fail(e) => (st, Some(e))
      case Visit(g) =>
        var (after, err) := Expand(disk, g, stack, st);
        if err.Some? then (after, err) else Walk(disk, steps[1..], stack, after)
  }

  lemma {:induction false} WalkConcat(disk: Disk, a: seq<Step>, b: seq<Step>, stack: set<FileId>, st: State)
    ensures var (after, err) := Walk(disk, a, stack, st);
            Walk(disk, a + b, stack, st) == if err.Some? then (after, err) else Walk(disk, b, stack, after)
    decreases |a|
  {
    if a == [] {
      assert a + b == b;
    } else {
      assert (a + b)[1..] == a[1..] + b;
      match a[0]
      case Put(e) => WalkConcat(disk, a[1..], b, stack, st.(trace := st.trace + [e]));
      case Fail(e) =>
      case Visit(g) => WalkConcat(disk, a[1..], b, stack, Expand(disk, g, stack, st).0);
    }
  }

  /* The reference: every include replaced by its file's full expansion. */

  function Inline(disk: Disk, g: FileId, path: set<FileId>): (seq<Event>, Option<Error>)
    decreases |disk.Keys - path|, 0
  {
    if g in path then ([], Some(IncludeCycle(g)))
    else if g !in disk then ([], Some(Unreadable(g)))
    else
      assert disk.Keys - (path + {g}) == disk.Keys - path - {g};
      InlineSteps(disk, Program(disk, g), path + {g})
  }

  function InlineSteps(disk: Disk, steps: seq<Step>, path: set<FileId>): (seq<Event>, Option<Error>)
    decreases |disk.Keys - path|, |steps|
  {
    if steps == [] then ([], None)
    else
      match steps[0]
      case Put(e) =>
        var (rest, err) := InlineSteps(disk, steps[1..], path);
        ([e] + rest, err)
      case Fail(e) => ([], Some(e))
      case Visit(g) =>
        var (first, err) := Inline(disk, g, path);
        if err.Some? then (first, err)
        else
          var (rest, err') := InlineSteps(disk, steps[1..], path);
          (first + rest, err')
  }

  /** The events of more not yet in base, each at its first place. */
  function Merge(base: seq<Event>, more: seq<Event>): seq<Event>
    decreases |more|
  {
    if more == [] then base
    else Merge(if more[0] in base then base else base + [more[0]], more[1..])
  }

  lemma {:induction false} MergeConcat(base: seq<Event>, a: seq<Event>, b: seq<Event>)
    ensures Merge(base, a + b) == Merge(Merge(base, a), b)
    decreases |a|
  {
    if a == [] {
      assert a + b == b;
    } else {
      assert (a + b)[1..] == a[1..] + b;
      MergeConcat(if a[0] in base then base else base + [a[0]], a[1..], b);
    }
  }

  lemma {:induction false} MergeKnown(base: seq<Event>, more: seq<Event>)
    requires forall e | e in more :: e in base
    ensures Merge(base, more) == base
    decreases |more|
  {
    if more != [] {
      assert more[0] in more;
      MergeKnown(base, more[1..]);
    }
  }

  /* Steps of one file carry its own name. */

  lemma {:induction false} HitStepsPutNothing(hits: seq<Hit>, s: Step)
    requires s in HitSteps(hits)
    ensures !s.Put?
  {
    if !(hits[0].Gone? && s == Fail(NoStat)) && !(hits[0].Readable? && s == Visit(hits[0].file)) {
      HitStepsPutNothing(hits[1..], s);
    }
  }

  /** No event is put twice. */
  predicate PutsOnce(steps: seq<Step>) {
    forall i, j | 0 <= i < j < |steps| && steps[i].Put? :: steps[i] != steps[j]
  }

  /** Every put of the steps belongs to file f, at item i or later. */
  predicate PutsFrom(steps: seq<Step>, f: FileId, i: nat) {
    forall k | 0 <= k < |steps| && steps[k].Put? :: steps[k].event.file == f && i <= steps[k].event.index
  }

  lemma HitStepsPut(hits: seq<Hit>, f: FileId, i: nat, tail: seq<Step>)
    requires tail == [] || tail == [Put(MatchedNothing(f, i))]
    ensures var steps := HitSteps(hits) + tail;
            forall k | 0 <= k < |steps| && steps[k].Put? :: k == |steps| - 1 && steps[k].event == MatchedNothing(f, i)
  {
    forall k | 0 <= k < |HitSteps(hits)| ensures !HitSteps(hits)[k].Put? {
      HitStepsPutNothing(hits, HitSteps(hits)[k]);
    }
  }

  lemma ItemStepsPut(f: FileId, i: nat, item: Item)
    ensures var steps := ItemSteps(f, i, item);
            forall k | 0 <= k < |steps| && steps[k].Put? ::
              k == |steps| - 1 && steps[k].event.file == f && steps[k].event.index == i
  {
    match item
    case Include(Glob(hits)) =>
      var tail := if hits == [] || AllIgnored(hits) then [Put(MatchedNothing(f, i))] else [];
      HitStepsPut(hits, f, i, tail);
      assert ItemSteps(f, i, item) == HitSteps(hits) + tail;
    case _ =>
  }

  lemma {:induction false} StepsPutOwn(f: FileId, items: seq<Item>, i: nat)
    requires i <= |items|
    ensures PutsFrom(StepsFrom(f, items, i), f, i) && PutsOnce(StepsFrom(f, items, i))
    decreases |items| - i
  {
    hide ItemSteps;
    if i < |items| {
      var here := ItemSteps(f, i, items[i]);
      ItemStepsPut(f, i, items[i]);
      StepsPutOwn(f, items, i + 1);
      PutsConcat(here, StepsFrom(f, items, i + 1), f, i);
    }
  }

  lemma PutsConcat(here: seq<Step>, rest: seq<Step>, f: FileId, i: nat)
    requires forall k | 0 <= k < |here| && here[k].Put? ::
               k == |here| - 1 && here[k].event.file == f && here[k].event.index == i
    requires PutsFrom(rest, f, i + 1) && PutsOnce(rest)
    ensures PutsFrom(here + rest, f, i) && PutsOnce(here + rest)
  {
    var all := here + rest;
    forall a, b | 0 <= a < b < |all| && all[a].Put? ensures all[a] != all[b] {
      assert a >= |here| ==> rest[a - |here|] == all[a];
      assert b >= |here| ==> rest[b - |here|] == all[b];
    }
  }

  lemma {:induction false} MergeMembers(base: seq<Event>, more: seq<Event>, e: Event)
    ensures e in Merge(base, more) <==> e in base || e in more
    decreases |more|
  {
    if more != [] {
      MergeMembers(if more[0] in base then base else base + [more[0]], more[1..], e);
    }
  }

  /* What loading keeps: finished files are in an order that puts includes first. */

  predicate StepMet(s: Step, before: seq<FileId>, trace: seq<Event>) {
    match s
    case Put(e) => e in trace
    case Visit(h) => h in before
    case Fail(_) => false
  }

  predicate StepsMet(steps: seq<Step>, before: seq<FileId>, trace: seq<Event>) {
    forall i | 0 <= i < |steps| :: StepMet(steps[i], before, trace)
  }

  predicate NoRepeat(fs: seq<FileId>) {
    forall i, j | 0 <= i < j < |fs| :: fs[i] != fs[j]
  }

  predicate FileMet(disk: Disk, done: seq<FileId>, i: nat, trace: seq<Event>)
    requires i < |done|
  {
    done[i] in disk && StepsMet(Program(disk, done[i]), done[..i], trace)
  }

  predicate Finished(disk: Disk, st: State) {
    NoRepeat(st.done) && forall i | 0 <= i < |st.done| :: FileMet(disk, st.done, i, st.trace)
  }

  predicate Apart(fs: seq<FileId>, path: set<FileId>) {
    forall i | 0 <= i < |fs| :: fs[i] !in path
  }

  /** Expanding a finished file again meets no error and nothing new. */
  lemma {:induction false} DoneInline(disk: Disk, st: State, k: nat, path: set<FileId>)
    requires Finished(disk, st) && k < |st.done| && Apart(st.done[..k + 1], path)
    ensures Inline(disk, st.done[k], path).1.None?
    ensures forall e | e in Inline(disk, st.done[k], path).0 :: e in st.trace
    decreases k, 1, 0
  {
    var g := st.done[k];
    assert FileMet(disk, st.done, k, st.trace);
    assert st.done[..k + 1][k] == g;
    forall i | 0 <= i < k ensures st.done[..k][i] !in path + {g} {
      assert st.done[..k + 1][i] == st.done[i];
    }
    MetInline(disk, st, Program(disk, g), k, path + {g});
  }

  lemma {:induction false} MetInline(disk: Disk, st: State, steps: seq<Step>, k: nat, path: set<FileId>)
    requires Finished(disk, st) && k <= |st.done| && Apart(st.done[..k], path)
    requires StepsMet(steps, st.done[..k], st.trace)
    ensures InlineSteps(disk, steps, path).1.None?
    ensures forall e | e in InlineSteps(disk, steps, path).0 :: e in st.trace
    decreases k, 0, |steps|
  {
    if steps != [] {
      assert StepMet(steps[0], st.done[..k], st.trace);
      MetInline(disk, st, steps[1..], k, path);
      if steps[0].Visit? {
        var j :| 0 <= j < k && st.done[..k][j] == steps[0].file;
        assert st.done[..k][..j + 1] == st.done[..j + 1];
        DoneInline(disk, st, j, path);
      }
    }
  }

  /** Whatever was put belongs to a file that is finished or being loaded. */
  predicate Owned(trace: seq<Event>, done: seq<FileId>, stack: set<FileId>) {
    forall e | e in trace :: e.file in done || e.file in stack
  }

  /** The steps put events of file f only, none of them said before. */
  predicate Unsaid(steps: seq<Step>, f: FileId, trace: seq<Event>) {
    && PutsOnce(steps)
    && forall k | 0 <= k < |steps| && steps[k].Put? :: steps[k].event.file == f && steps[k].event !in trace
  }

  /** What a successful load keeps. */
  predicate Keeps(disk: Disk, st: State, after: State, stack: set<FileId>) {
    && Finished(disk, after) && Apart(after.done, stack)
    && st.done <= after.done && Owned(after.trace, after.done, stack)
    && forall e | e in st.trace :: e in after.trace
  }

  /** Loading a file yields its inlined expansion without what is already there, or the same error. */
  lemma {:induction false} ExpandIsInline(disk: Disk, g: FileId, stack: set<FileId>, st: State)
    requires Finished(disk, st) && Apart(st.done, stack) && Owned(st.trace, st.done, stack)
    ensures var (after, err) := Expand(disk, g, stack, st);
            var (full, err') := Inline(disk, g, stack);
            && err == err' && after.trace == Merge(st.trace, full)
            && (err.None? ==>
                  && Keeps(disk, st, after, stack) && g in after.done
                  && forall e | e in after.trace :: e in st.trace || e.file in after.done)
    decreases |disk.Keys - stack|, 0
  {
    hide Program;
    if g in stack {
    } else if g in st.done {
      var k :| 0 <= k < |st.done| && st.done[k] == g;
      DoneInline(disk, st, k, stack);
      MergeKnown(st.trace, Inline(disk, g, stack).0);
    } else if g in disk {
      assert disk.Keys - (stack + {g}) == disk.Keys - stack - {g};
      ProgramUnsaid(disk, g, st.trace);
      WalkIsInline(disk, Program(disk, g), g, stack + {g}, st);
      var (after, err) := Walk(disk, Program(disk, g), stack + {g}, st);
      if err.None? {
        FinishOne(disk, g, after);
      }
    }
  }

  lemma ProgramUnsaid(disk: Disk, g: FileId, trace: seq<Event>)
    requires g in disk && forall e | e in trace :: e.file != g
    ensures Unsaid(Program(disk, g), g, trace)
  {
    StepsPutOwn(g, disk[g], 0);
  }

  lemma FinishOne(disk: Disk, g: FileId, st: State)
    requires Finished(disk, st) && g in disk && g !in st.done
    requires StepsMet(Program(disk, g), st.done, st.trace)
    ensures Finished(disk, st.(done := st.done + [g]))
  {
    var done := st.done + [g];
    forall i | 0 <= i < |done| ensures FileMet(disk, done, i, st.trace) {
      assert done[..i] == st.done[..i];
      assert i < |st.done| ==> FileMet(disk, st.done, i, st.trace);
    }
  }

  lemma TraceGrows(disk: Disk, st: State, e: Event)
    requires Finished(disk, st)
    ensures Finished(disk, st.(trace := st.trace + [e]))
  {
    forall i | 0 <= i < |st.done| ensures FileMet(disk, st.done, i, st.trace + [e]) {
      assert FileMet(disk, st.done, i, st.trace);
    }
  }

  lemma {:induction false} WalkIsInline(disk: Disk, steps: seq<Step>, own: FileId, stack: set<FileId>, st: State)
    requires Finished(disk, st) && Apart(st.done, stack) && Owned(st.trace, st.done, stack)
    requires own in stack && Unsaid(steps, own, st.trace)
    ensures var (after, err) := Walk(disk, steps, stack, st);
            var (full, err') := InlineSteps(disk, steps, stack);
            && err == err' && after.trace == Merge(st.trace, full)
            && (err.None? ==>
                  && Keeps(disk, st, after, stack) && StepsMet(steps, after.done, after.trace)
                  && forall e | e in after.trace :: e in st.trace || e.file in after.done || e.file == own)
    decreases |disk.Keys - stack|, |steps|
  {
    hide Expand, Inline, Finished;
    if steps != [] {
      match steps[0]
      case Put(e) =>
        TraceGrows(disk, st, e);
        assert Unsaid(steps[1..], own, st.trace + [e]);
        WalkIsInline(disk, steps[1..], own, stack, st.(trace := st.trace + [e]));
      case Fail(e) =>
      case Visit(g) =>
        ExpandIsInline(disk, g, stack, st);
        var (mid, err) := Expand(disk, g, stack, st);
        if err.None? {
          assert Unsaid(steps[1..], own, mid.trace);
          WalkIsInline(disk, steps[1..], own, stack, mid);
          MergeConcat(st.trace, Inline(disk, g, stack).0, InlineSteps(disk, steps[1..], stack).0);
        }
    }
  }

  const START := State([], [])

  /** The load of an entry file. */
  function Load(disk: Disk, entry: FileId): (State, Option<Error>) {
    Expand(disk, entry, {}, START)
  }

  /** A load is the full expansion with only the first mention of every event, up to the same first error. */
  lemma LoadIsInline(disk: Disk, entry: FileId)
    ensures Load(disk, entry).1 == Inline(disk, entry, {}).1
    ensures Load(disk, entry).0.trace == Merge([], Inline(disk, entry, {}).0)
  {
    ExpandIsInline(disk, entry, {}, START);
  }

  /* Chains of includes. */

  /** The item includes file g, by name or as a readable hit of its glob. */
  predicate LeadsTo(item: Item, g: FileId) {
    match item
    case Include(Named(h)) => h == g
    case Include(Glob(hits)) => Readable(g) in hits
    case _ => false
  }

  /** The item is an include that does not resolve. */
  predicate FailsWith(item: Item, e: Error) {
    match item
    case Include(Blank) => e == IncludePathEmpty
    case Include(Absent) => e == IncludeMissing
    case Include(Directory) => e == IncludeIsDir
    case Include(BadGlob) => e == BadPattern
    case Include(StatFailed) => e == NoStat
    case Include(Glob(hits)) => e == NoStat && Gone in hits
    case _ => false
  }

  /** What the item i of file f passes on: itself, or a warning for a glob that hits no file, or only files
      that the ignore rules drop. */
  predicate PassesOn(f: FileId, i: nat, item: Item, e: Event) {
    match item
    case Plain => e == Emitted(f, i)
    case Include(Glob(hits)) =>
      && e == MatchedNothing(f, i) && (hits == [] || exists k | 0 <= k < |hits| :: hits[k].Ignored?)
      && forall k | 0 <= k < |hits| :: !hits[k].Readable?
    case _ => false
  }

  lemma {:induction false} HitStepsAsk(hits: seq<Hit>, s: Step)
    ensures s in HitSteps(hits) <==> match s { case Visit(g) => Readable(g) in hits
                                               case Fail(e) => e == NoStat && Gone in hits
                                               case Put(_) => false }
  {
    if hits != [] {
      assert hits == [hits[0]] + hits[1..];
      HitStepsAsk(hits[1..], s);
    }
  }

  lemma ItemAsks(f: FileId, i: nat, item: Item, s: Step)
    ensures s in ItemSteps(f, i, item) <==> match s { case Visit(g) => LeadsTo(item, g)
                                                      case Fail(e) => FailsWith(item, e)
                                                      case Put(e) => PassesOn(f, i, item, e) }
  {
    match item
    case Include(Glob(hits)) => HitStepsAsk(hits, s);
    case _ =>
  }

  lemma {:induction false} StepsAsk(f: FileId, items: seq<Item>, i: nat, s: Step)
    requires i <= |items|
    ensures s in StepsFrom(f, items, i) <==> exists j: nat | i <= j < |items| :: s in ItemSteps(f, j, items[j])
    decreases |items| - i
  {
    hide ItemSteps;
    if i < |items| { StepsAsk(f, items, i + 1, s); }
  }

  lemma ProgramAsks(disk: Disk, f: FileId, s: Step)
    requires f in disk
    ensures s in Program(disk, f) <==>
            exists i: nat | i < |disk[f]| :: match s { case Visit(g) => LeadsTo(disk[f][i], g)
                                                       case Fail(e) => FailsWith(disk[f][i], e)
                                                       case Put(e) => PassesOn(f, i, disk[f][i], e) }
  {
    hide ItemSteps, LeadsTo, FailsWith, PassesOn;
    StepsAsk(f, disk[f], 0, s);
    forall i: nat | i < |disk[f]|
      ensures s in ItemSteps(f, i, disk[f][i]) <==> match s { case Visit(g) => LeadsTo(disk[f][i], g)
                                                              case Fail(e) => FailsWith(disk[f][i], e)
                                                              case Put(e) => PassesOn(f, i, disk[f][i], e) }
    {
      ItemAsks(f, i, disk[f][i], s);
    }
  }

  /** Some item of file f includes file g. */
  predicate Includes(disk: Disk, f: FileId, g: FileId): (r: bool)
    ensures r <==> f in disk && Visit(g) in Program(disk, f)
  {
    if f in disk then
      ProgramAsks(disk, f, Visit(g));
      exists i | 0 <= i < |disk[f]| :: LeadsTo(disk[f][i], g)
    else false
  }

  /** Some include of file f does not resolve, with error e. */
  predicate Breaks(disk: Disk, f: FileId, e: Error): (r: bool)
    ensures r <==> f in disk && Fail(e) in Program(disk, f)
  {
    if f in disk then
      ProgramAsks(disk, f, Fail(e));
      exists i | 0 <= i < |disk[f]| :: FailsWith(disk[f][i], e)
    else false
  }

  /** Some item of file f passes on the event. */
  predicate Says(disk: Disk, f: FileId, e: Event): (r: bool)
    ensures r <==> f in disk && Put(e) in Program(disk, f)
  {
    if f in disk then
      ProgramAsks(disk, f, Put(e));
      exists i: nat | i < |disk[f]| :: PassesOn(f, i, disk[f][i], e)
    else false
  }

  /** A nonempty chain of includes that begins at the entry. */
  predicate Chain(disk: Disk, entry: FileId, w: seq<FileId>) {
    w != [] && w[0] == entry && forall i | 0 <= i < |w| - 1 :: Includes(disk, w[i], w[i + 1])
  }

  function Last(w: seq<FileId>): FileId
    requires w != []
  {
    w[|w| - 1]
  }

  /** The chain ends where error e is met: at a file it has already passed, at one that cannot be
      read, or at one with an include that does not resolve. */
  predicate Blames(disk: Disk, w: seq<FileId>, e: Error)
    requires w != []
  {
    match e
    case IncludeCycle(h) => Last(w) == h && h in w[..|w| - 1]
    case Unreadable(h) => Last(w) == h && h !in disk
    case _ => Breaks(disk, Last(w), e)
  }

  predicate Among(steps: seq<Step>, all: seq<Step>) {
    forall i | 0 <= i < |steps| :: steps[i] in all
  }

  lemma {:induction false} HitStepsFail(hits: seq<Hit>, e: Error)
    requires Fail(e) in HitSteps(hits)
    ensures e == NoStat
  {
    if !(hits[0].Gone? && e == NoStat) {
      HitStepsFail(hits[1..], e);
    }
  }

  lemma {:induction false} StepsFail(f: FileId, items: seq<Item>, i: nat, e: Error)
    requires i <= |items| && Fail(e) in StepsFrom(f, items, i)
    ensures !e.IncludeCycle? && !e.Unreadable?
    decreases |items| - i
  {
    if Fail(e) in ItemSteps(f, i, items[i]) {
      if items[i].Include? && items[i].target.Glob? {
        HitStepsFail(items[i].target.hits, e);
      }
    } else {
      StepsFail(f, items, i + 1, e);
    }
  }

  function FilesOf(w: seq<FileId>): set<FileId> {
    set f | f in w
  }

  lemma {:induction false} InlineBlames(disk: Disk, entry: FileId, w: seq<FileId>, path: set<FileId>)
      returns (blamed: seq<FileId>)
    requires Chain(disk, entry, w) && path == FilesOf(w[..|w| - 1])
    requires Inline(disk, Last(w), path).1.Some?
    ensures Chain(disk, entry, blamed) && Blames(disk, blamed, Inline(disk, Last(w), path).1.value)
    decreases |disk.Keys - path|, 0
  {
    var g := Last(w);
    if g in path || g !in disk {
      blamed := w;
    } else {
      assert disk.Keys - (path + {g}) == disk.Keys - path - {g};
      blamed := StepsBlame(disk, entry, w, path + {g}, Program(disk, g));
    }
  }

  lemma {:induction false} StepsBlame(disk: Disk, entry: FileId, w: seq<FileId>, path: set<FileId>, steps: seq<Step>)
      returns (blamed: seq<FileId>)
    requires Chain(disk, entry, w) && path == FilesOf(w)
    requires Last(w) in disk && Among(steps, Program(disk, Last(w)))
    requires InlineSteps(disk, steps, path).1.Some?
    ensures Chain(disk, entry, blamed) && Blames(disk, blamed, InlineSteps(disk, steps, path).1.value)
    decreases |disk.Keys - path|, |steps|
  {
    hide Inline;
    assert steps[0] in steps;
    match steps[0]
    case Put(e) => blamed := StepsBlame(disk, entry, w, path, steps[1..]);
    case Fail(e) =>
      StepsFail(Last(w), disk[Last(w)], 0, e);
      blamed := w;
    case Visit(g) =>
      if Inline(disk, g, path).1.Some? {
        assert (w + [g])[..|w|] == w;
        assert Includes(disk, Last(w), g);
        blamed := InlineBlames(disk, entry, w + [g], path);
      } else {
        blamed := StepsBlame(disk, entry, w, path, steps[1..]);
      }
  }

  lemma {:induction false} InlineOrigin(disk: Disk, entry: FileId, w: seq<FileId>, path: set<FileId>, e: Event)
      returns (origin: seq<FileId>)
    requires Chain(disk, entry, w) && e in Inline(disk, Last(w), path).0
    ensures Chain(disk, entry, origin) && Last(origin) in disk && Put(e) in Program(disk, Last(origin))
    decreases |disk.Keys - path|, 0
  {
    var g := Last(w);
    assert disk.Keys - (path + {g}) == disk.Keys - path - {g};
    origin := StepsOrigin(disk, entry, w, path + {g}, Program(disk, g), e);
  }

  lemma {:induction false} StepsOrigin(
      disk: Disk, entry: FileId, w: seq<FileId>, path: set<FileId>, steps: seq<Step>, e: Event)
      returns (origin: seq<FileId>)
    requires Chain(disk, entry, w) && e in InlineSteps(disk, steps, path).0
    requires Last(w) in disk && Among(steps, Program(disk, Last(w)))
    ensures Chain(disk, entry, origin) && Last(origin) in disk && Put(e) in Program(disk, Last(origin))
    decreases |disk.Keys - path|, |steps|
  {
    hide Inline;
    if steps[0] == Put(e) {
      origin := w;
    } else if steps[0].Visit? && e in Inline(disk, steps[0].file, path).0 {
      assert Includes(disk, Last(w), steps[0].file);
      origin := InlineOrigin(disk, entry, w + [steps[0].file], path, e);
    } else {
      origin := StepsOrigin(disk, entry, w, path, steps[1..], e);
    }
  }

  /** The place of a finished file in the finishing order. */
  function Rank(done: seq<FileId>, f: FileId): (k: nat)
    requires f in done
    ensures k < |done| && done[k] == f
  {
    if done[0] == f then 0 else 1 + Rank(done[1..], f)
  }

  lemma IncludeDescends(disk: Disk, st: State, f: FileId, g: FileId)
    requires Finished(disk, st) && f in st.done && Includes(disk, f, g)
    ensures g in st.done && Rank(st.done, g) < Rank(st.done, f)
  {
    var k := Rank(st.done, f);
    var steps := Program(disk, f);
    assert FileMet(disk, st.done, k, st.trace);
    var i :| 0 <= i < |steps| && steps[i] == Visit(g);
    assert StepMet(steps[i], st.done[..k], st.trace);
    var j :| 0 <= j < k && st.done[..k][j] == g;
    assert st.done[j] == g && st.done[Rank(st.done, g)] == g;
  }

  /** Along a chain, finished files only get earlier ones. */
  lemma {:induction false} ChainDescends(disk: Disk, entry: FileId, st: State, w: seq<FileId>)
    requires Finished(disk, st) && entry in st.done && Chain(disk, entry, w)
    ensures Last(w) in st.done
    ensures forall i | 0 <= i < |w| :: w[i] in st.done && Rank(st.done, Last(w)) <= Rank(st.done, w[i])
    ensures Last(w) !in w[..|w| - 1]
  {
    if |w| > 1 {
      var v := w[..|w| - 1];
      ChainDescends(disk, entry, st, v);
      assert Includes(disk, w[|w| - 2], w[|w| - 1]);
      IncludeDescends(disk, st, Last(v), Last(w));
      forall i | 0 <= i < |v| ensures w[i] in st.done && Rank(st.done, Last(w)) < Rank(st.done, w[i]) {
        assert v[i] == w[i];
      }
    }
  }

  /** A load fails with an error exactly when some chain of includes from the entry meets an error:
      a cycle, an unreadable file or an include that does not resolve. The error it reports is met. */
  lemma LoadFailsExactly(disk: Disk, entry: FileId)
    ensures Load(disk, entry).1.Some? ==>
              exists w :: Chain(disk, entry, w) && Blames(disk, w, Load(disk, entry).1.value)
    ensures Load(disk, entry).1.None? ==> forall w, e :: Chain(disk, entry, w) ==> !Blames(disk, w, e)
  {
    hide Expand, Inline, Program;
    ExpandIsInline(disk, entry, {}, START);
    var (after, err) := Load(disk, entry);
    if err.Some? {
      var w := InlineBlames(disk, entry, [entry], {});
    } else {
      forall w, e | Chain(disk, entry, w) ensures !Blames(disk, w, e) {
        ChainDescends(disk, entry, after, w);
        NoBlame(disk, after, w, e);
      }
    }
  }

  lemma NoBlame(disk: Disk, st: State, w: seq<FileId>, e: Error)
    requires Finished(disk, st) && w != [] && Last(w) in st.done && Last(w) !in w[..|w| - 1]
    ensures !Blames(disk, w, e)
  {
    hide Program;
    var f := Last(w);
    var k := Rank(st.done, f);
    assert FileMet(disk, st.done, k, st.trace);
    forall i | 0 <= i < |Program(disk, f)| ensures Program(disk, f)[i] != Fail(e) {
      assert StepMet(Program(disk, f)[i], st.done[..k], st.trace);
    }
  }

  /** Every include of every readable file resolves to a readable file. */
  ghost predicate Resolves(disk: Disk) {
    && (forall f, e :: !Breaks(disk, f, e))
    && forall f, g | Includes(disk, f, g) :: g in disk
  }

  lemma ResolvesSteps(disk: Disk, f: FileId)
    requires Resolves(disk) && f in disk
    ensures StepsResolve(disk, Program(disk, f))
  {
    var steps := Program(disk, f);
    forall i | 0 <= i < |steps| ensures !steps[i].Fail? && (steps[i].Visit? ==> steps[i].file in disk) {
      assert steps[i] in steps;
      assert !Breaks(disk, f, if steps[i].Fail? then steps[i].error else NoStat);
      if steps[i].Visit? { assert Includes(disk, f, steps[i].file); }
    }
  }

  predicate StepsResolve(disk: Disk, steps: seq<Step>) {
    forall i | 0 <= i < |steps| :: !steps[i].Fail? && (steps[i].Visit? ==> steps[i].file in disk)
  }

  /** A chain that comes back to a file it has passed. */
  ghost predicate Cyclic(disk: Disk, entry: FileId) {
    exists w :: Chain(disk, entry, w) && Last(w) in w[..|w| - 1]
  }

  /** When every include resolves, loading fails exactly when an include cycle is reachable, and
      then with the cycle error. */
  lemma CycleExactly(disk: Disk, entry: FileId)
    requires entry in disk && Resolves(disk)
    ensures Load(disk, entry).1.Some? <==> Cyclic(disk, entry)
    ensures Load(disk, entry).1.Some? ==> Load(disk, entry).1.value.IncludeCycle?
  {
    hide Load, Program;
    LoadFailsExactly(disk, entry);
    var err := Load(disk, entry).1;
    if err.Some? {
      var w :| Chain(disk, entry, w) && Blames(disk, w, err.value);
      ChainStays(disk, entry, w);
      ResolvesSteps(disk, Last(w));
    } else {
      forall w | Chain(disk, entry, w) ensures Last(w) !in w[..|w| - 1] {
        assert !Blames(disk, w, IncludeCycle(Last(w)));
      }
    }
  }

  lemma ChainStays(disk: Disk, entry: FileId, w: seq<FileId>)
    requires entry in disk && Resolves(disk) && Chain(disk, entry, w)
    ensures Last(w) in disk
  {
    hide Program;
    if |w| > 1 {
      var f := w[|w| - 2];
      assert Includes(disk, f, w[|w| - 2 + 1]);
      ResolvesSteps(disk, f);
    }
  }

  lemma {:induction false} MergeOnce(base: seq<Event>, more: seq<Event>)
    requires Once(base)
    ensures Once(Merge(base, more))
    decreases |more|
  {
    if more != [] {
      MergeOnce(if more[0] in base then base else base + [more[0]], more[1..]);
    }
  }

  predicate Once(trace: seq<Event>) {
    forall i, j | 0 <= i < j < |trace| :: trace[i] != trace[j]
  }

  ghost predicate Reachable(disk: Disk, entry: FileId, f: FileId) {
    exists w :: Chain(disk, entry, w) && Last(w) == f
  }

  /** A successful load emits the directives of the reachable files, each exactly once. */
  lemma EachReachableOnce(disk: Disk, entry: FileId)
    requires Load(disk, entry).1.None?
    ensures Once(Load(disk, entry).0.trace)
    ensures forall e ::
              e in Load(disk, entry).0.trace <==>
              exists f :: Reachable(disk, entry, f) && Says(disk, f, e)
  {
    hide Expand, Inline, Program, Merge;
    ExpandIsInline(disk, entry, {}, START);
    var after := Load(disk, entry).0;
    var full := Inline(disk, entry, {}).0;
    MergeOnce([], full);
    forall e
      ensures e in after.trace <==>
              exists f :: Reachable(disk, entry, f) && Says(disk, f, e)
    {
      MergeMembers([], full, e);
      if e in full {
        var w := InlineOrigin(disk, entry, [entry], {}, e);
        assert Reachable(disk, entry, Last(w));
      }
      forall f | Reachable(disk, entry, f) && Says(disk, f, e) ensures e in after.trace {
        var w :| Chain(disk, entry, w) && Last(w) == f;
        ChainDescends(disk, entry, after, w);
        FinishedSays(disk, after, f, e);
      }
    }
  }

  // Within a file, what is passed on keeps its order.

  /** Events of one file come in the order of its items. */
  ghost predicate InFileOrder(trace: seq<Event>) {
    forall a, b | 0 <= a < b < |trace| && trace[a].file == trace[b].file :: trace[a].index < trace[b].index
  }

  /** The steps put events of file f in order, all after those already put. */
  predicate Ahead(steps: seq<Step>, f: FileId, trace: seq<Event>) {
    && (forall j, k | 0 <= j < k < |steps| && steps[j].Put? && steps[k].Put? ::
          steps[j].event.index < steps[k].event.index)
    && forall k | 0 <= k < |steps| && steps[k].Put? ::
         steps[k].event.file == f && forall e | e in trace && e.file == f :: e.index < steps[k].event.index
  }

  lemma {:induction false} StepsOrdered(f: FileId, items: seq<Item>, i: nat)
    requires i <= |items|
    ensures PutsFrom(StepsFrom(f, items, i), f, i)
    ensures Ahead(StepsFrom(f, items, i), f, [])
    decreases |items| - i
  {
    hide ItemSteps;
    StepsPutOwn(f, items, i);
    if i < |items| {
      var here, rest := ItemSteps(f, i, items[i]), StepsFrom(f, items, i + 1);
      ItemStepsPut(f, i, items[i]);
      StepsOrdered(f, items, i + 1);
      StepsPutOwn(f, items, i + 1);
      var all := here + rest;
      forall j, k | 0 <= j < k < |all| && all[j].Put? && all[k].Put? ensures all[j].event.index < all[k].event.index {
        assert j >= |here| ==> rest[j - |here|] == all[j];
        assert k >= |here| ==> rest[k - |here|] == all[k];
      }
    }
  }

  lemma {:induction false} ExpandOrdered(disk: Disk, g: FileId, stack: set<FileId>, st: State)
    requires Finished(disk, st) && Apart(st.done, stack) && Owned(st.trace, st.done, stack) && InFileOrder(st.trace)
    ensures Expand(disk, g, stack, st).1.None? ==> InFileOrder(Expand(disk, g, stack, st).0.trace)
    decreases |disk.Keys - stack|, 0
  {
    hide Finished, Apart;
    if g !in stack && g !in st.done && g in disk {
      assert disk.Keys - (stack + {g}) == disk.Keys - stack - {g};
      StepsOrdered(g, disk[g], 0);
      assert Ahead(Program(disk, g), g, st.trace);
      assert Apart(st.done, stack + {g}) by { ApartMore(st.done, stack, g); }
      WalkOrdered(disk, Program(disk, g), g, stack + {g}, st);
    }
  }

  lemma ApartMore(done: seq<FileId>, stack: set<FileId>, g: FileId)
    requires Apart(done, stack) && g !in done
    ensures Apart(done, stack + {g})
  {
  }

  lemma {:induction false} WalkOrdered(disk: Disk, steps: seq<Step>, own: FileId, stack: set<FileId>, st: State)
    requires Finished(disk, st) && Apart(st.done, stack) && Owned(st.trace, st.done, stack) && InFileOrder(st.trace)
    requires own in stack && Ahead(steps, own, st.trace) && Unsaid(steps, own, st.trace)
    ensures Walk(disk, steps, stack, st).1.None? ==> InFileOrder(Walk(disk, steps, stack, st).0.trace)
    decreases |disk.Keys - stack|, |steps|
  {
    hide Expand, Finished;
    if steps != [] {
      match steps[0]
      case Put(e) =>
        TraceGrows(disk, st, e);
        assert forall k | 0 <= k < |steps| - 1 :: steps[1..][k] == steps[k + 1];
        WalkOrdered(disk, steps[1..], own, stack, st.(trace := st.trace + [e]));
      case Fail(e) =>
      case Visit(g) =>
        ExpandOrdered(disk, g, stack, st);
        ExpandIsInline(disk, g, stack, st);
        var (mid, err) := Expand(disk, g, stack, st);
        if err.None? {
          OwnUnchanged(st, mid, own, stack);
          WalkOrdered(disk, steps[1..], own, stack, mid);
        }
    }
  }

  /** A file on the stack says nothing while another is loaded. */
  lemma OwnUnchanged(st: State, mid: State, own: FileId, stack: set<FileId>)
    requires own in stack && Apart(mid.done, stack)
    requires forall e | e in mid.trace :: e in st.trace || e.file in mid.done
    ensures forall e | e in mid.trace && e.file == own :: e in st.trace
  {
  }

  /** A successful load keeps the directives of every file in order. */
  lemma LoadKeepsOrder(disk: Disk, entry: FileId)
    requires Load(disk, entry).1.None?
    ensures var trace := Load(disk, entry).0.trace;
            forall a, b | 0 <= a < b < |trace| && trace[a].file == trace[b].file :: trace[a].index < trace[b].index
  {
    hide Expand;
    ExpandOrdered(disk, entry, {}, START);
  }

  lemma FinishedSays(disk: Disk, st: State, f: FileId, e: Event)
    requires Finished(disk, st) && f in st.done && f in disk && Put(e) in Program(disk, f)
    ensures e in st.trace
  {
    hide Program;
    var k := Rank(st.done, f);
    assert FileMet(disk, st.done, k, st.trace);
    var i :| 0 <= i < |Program(disk, f)| && Program(disk, f)[i] == Put(e);
    assert StepMet(Program(disk, f)[i], st.done[..k], st.trace);
  }

  /* The loader itself. */

  datatype Diag = Warning(event: Event) | Failure(error: Error)

  function Emissions(trace: seq<Event>): seq<Event> {
    if trace == [] then []
    else
      var e := trace[|trace| - 1];
      Emissions(trace[..|trace| - 1]) + if e.Emitted? then [e] else []
  }

  function Warnings(trace: seq<Event>): seq<Diag> {
    if trace == [] then []
    else
      var e := trace[|trace| - 1];
      Warnings(trace[..|trace| - 1]) + if e.Emitted? then [] else [Warning(e)]
  }

  /** Read, parse and stat failures are returned without a diagnostic. */
  function Reported(err: Option<Error>): seq<Diag> {
    if err.Some? && (err.value.IncludeCycle? || err.value.IncludePathEmpty? || err.value.IncludeMissing?
        || err.value.IncludeIsDir?)
    then [Failure(err.value)]
    else []
  }

  lemma SeenSplit(stack: set<FileId>, done: seq<FileId>, f: FileId)
    ensures f in stack + FilesOf(done) <==> f in stack || f in done
    ensures stack + {f} + FilesOf(done) == stack + FilesOf(done) + {f}
    ensures stack + {f} + FilesOf(done) == stack + FilesOf(done + [f])
    ensures f !in stack ==> stack + {f} - {f} == stack
  {
    assert FilesOf(done + [f]) == FilesOf(done) + {f};
  }

  lemma ExpandCases(disk: Disk, g: FileId, stack: set<FileId>, st: State)
    ensures g in stack ==> Expand(disk, g, stack, st) == (st, Some(IncludeCycle(g)))
    ensures g !in stack && g in st.done ==> Expand(disk, g, stack, st) == (st, None)
    ensures g !in stack && g !in st.done && g !in disk ==> Expand(disk, g, stack, st) == (st, Some(Unreadable(g)))
    ensures g !in stack && g !in st.done && g in disk ==>
              && |disk.Keys - (stack + {g})| < |disk.Keys - stack|
              && Expand(disk, g, stack, st) ==
                 var (after, err) := Walk(disk, Program(disk, g), stack + {g}, st);
                 if err.Some? then (after, err) else (after.(done := after.done + [g]), None)
  {
    hide Walk, Program;
    if g !in stack && g in disk {
      assert disk.Keys - (stack + {g}) == disk.Keys - stack - {g};
    }
  }

  predicate SawFile(hits: seq<Hit>, k: nat)
    requires k <= |hits|
  {
    exists j | 0 <= j < k :: hits[j].Ignored? || hits[j].Readable?
  }

  predicate NoneReadable(hits: seq<Hit>, k: nat)
    requires k <= |hits|
  {
    forall j | 0 <= j < k :: !hits[j].Readable?
  }

  lemma SawNothing(hits: seq<Hit>)
    ensures !SawFile(hits, 0) && NoneReadable(hits, 0)
    ensures AllIgnored(hits) <==> SawFile(hits, |hits|) && NoneReadable(hits, |hits|)
  {
  }

  lemma SawNext(hits: seq<Hit>, k: nat)
    requires k < |hits|
    ensures SawFile(hits, k + 1) <==> SawFile(hits, k) || hits[k].Ignored? || hits[k].Readable?
    ensures NoneReadable(hits, k + 1) <==> NoneReadable(hits, k) && !hits[k].Readable?
  {
  }

  class IncludeLoader {
    const disk: Disk
    var out: seq<Event>
    var diags: seq<Diag>
    var seen: set<FileId>
    var stack: set<FileId>
    ghost var st: State

    ghost predicate Valid()
      reads this
    {
      out == Emissions(st.trace) && diags == Warnings(st.trace) && seen == stack + FilesOf(st.done)
    }

    /** The fields after a step that ended with err: a failure leaves seen unspecified. */
    ghost predicate Ended(err: Option<Error>)
      reads this
    {
      && out == Emissions(st.trace) && diags == Warnings(st.trace) + Reported(err)
      && (err.None? ==> seen == stack + FilesOf(st.done))
    }

    constructor (disk: Disk)
      ensures this.disk == disk && Valid() && st == START && stack == {}
    {
      this.disk := disk;
      out, diags, seen, stack := [], [], {}, {};
      st := START;
    }

    method Record(e: Event)
      requires Valid()
      modifies this`out, this`diags, this`st
      ensures Valid() && st == old(st).(trace := old(st).trace + [e])
    {
      assert (st.trace + [e])[..|st.trace|] == st.trace;
      if e.Emitted? {
        out := out + [e];
      } else {
        diags := diags + [Warning(e)];
      }
      st := st.(trace := st.trace + [e]);
    }

    method LoadOne(path: FileId) returns (err: Option<Error>)
      requires Valid()
      modifies this
      ensures (st, err) == Expand(disk, path, old(stack), old(st))
      ensures stack == old(stack) && Ended(err)
      decreases |disk.Keys - stack|, 1
    {
      hide Expand, Emissions, Warnings, FilesOf;
      ExpandCases(disk, path, stack, st);
      SeenSplit(stack, st.done, path);
      if path in stack {
        diags := diags + [Failure(IncludeCycle(path))];
        return Some(IncludeCycle(path));
      }
      if path in seen {
        return None;
      }
      if path !in disk {
        return Some(Unreadable(path));
      }
      err := LoadNew(path);
    }

    /** A readable file met for the first time: pushed, loaded and popped. */
    method LoadNew(path: FileId) returns (err: Option<Error>)
      requires Valid() && path !in stack && path !in st.done && path in disk
      modifies this
      ensures (st, err) == Expand(disk, path, old(stack), old(st))
      ensures stack == old(stack) && Ended(err)
      decreases |disk.Keys - stack|, 0
    {
      hide Expand, Walk, Emissions, Warnings, Program, FilesOf, Reported;
      ExpandCases(disk, path, stack, st);
      SeenSplit(stack, st.done, path);
      stack := stack + {path};
      seen := seen + {path};
      err := LoadItems(path);
      SeenSplit(old(stack), st.done, path);
      stack := stack - {path};
      if err.None? {
        st := st.(done := st.done + [path]);
      }
    }

    /** The loop over a file's directives. */
    method LoadItems(path: FileId) returns (err: Option<Error>)
      requires Valid() && path in disk && path in stack
      modifies this
      ensures (st, err) == Walk(disk, Program(disk, path), old(stack), old(st))
      ensures stack == old(stack) && Ended(err)
      decreases |disk.Keys - stack|, 5
    {
      hide Walk, Emissions, Warnings, TargetSteps;
      var items := disk[path];
      var i := 0;
      while i < |items|
        invariant i <= |items| && Valid() && stack == old(stack)
        invariant Walk(disk, Program(disk, path), stack, old(st)) == Walk(disk, StepsFrom(path, items, i), stack, st)
      {
        WalkConcat(disk, ItemSteps(path, i, items[i]), StepsFrom(path, items, i + 1), stack, st);
        if items[i].Plain? {
          WalkPut(disk, Emitted(path, i), stack, st);
          Record(Emitted(path, i));
        } else {
          err := ExpandInclude(path, i, items[i].target);
          if err.Some? {
            return err;
          }
        }
        i := i + 1;
      }
      WalkNothing(disk, stack, st);
      err := None;
    }

    method ExpandInclude(base: FileId, i: nat, target: Target) returns (err: Option<Error>)
      requires Valid()
      modifies this
      ensures (st, err) == Walk(disk, TargetSteps(base, i, target), old(stack), old(st))
      ensures stack == old(stack) && Ended(err)
      decreases |disk.Keys - stack|, 4
    {
      hide Emissions, Warnings, Expand;
      match target
      case Blank =>
        diags := diags + [Failure(IncludePathEmpty)];
        err := Some(IncludePathEmpty);
      case Absent =>
        diags := diags + [Failure(IncludeMissing)];
        err := Some(IncludeMissing);
      case StatFailed =>
        err := Some(NoStat);
      case Directory =>
        diags := diags + [Failure(IncludeIsDir)];
        err := Some(IncludeIsDir);
      case BadGlob =>
        err := Some(BadPattern);
      case Named(g) =>
        err := LoadOne(g);
      case Glob(hits) =>
        err := ExpandGlob(base, i, hits);
    }

    method ExpandGlob(base: FileId, i: nat, hits: seq<Hit>) returns (err: Option<Error>)
      requires Valid()
      modifies this
      ensures (st, err) == Walk(disk, TargetSteps(base, i, Glob(hits)), old(stack), old(st))
      ensures stack == old(stack) && Ended(err)
      decreases |disk.Keys - stack|, 3
    {
      hide Walk, HitSteps, Emissions, Warnings;
      ghost var tail := if hits == [] || AllIgnored(hits) then [Put(MatchedNothing(base, i))] else [];
      WalkConcat(disk, HitSteps(hits), tail, stack, st);
      WalkPut(disk, MatchedNothing(base, i), stack, st);
      if |hits| == 0 {
        WalkNoHit(disk, hits, stack, st);
        Record(MatchedNothing(base, i));
        return None;
      }
      var sawFile, loaded;
      err, sawFile, loaded := LoadHits(hits);
      if err.Some? {
        return err;
      }
      WalkPut(disk, MatchedNothing(base, i), stack, st);
      WalkNothing(disk, stack, st);
      if sawFile && loaded == 0 {
        Record(MatchedNothing(base, i));
      }
    }

    /** The loop over a glob's matches. */
    method LoadHits(hits: seq<Hit>) returns (err: Option<Error>, sawFile: bool, loaded: nat)
      requires Valid()
      modifies this
      ensures (st, err) == Walk(disk, HitSteps(hits), old(stack), old(st))
      ensures stack == old(stack) && Ended(err)
      ensures err.None? ==> (AllIgnored(hits) <==> sawFile && loaded == 0)
      decreases |disk.Keys - stack|, 2
    {
      hide Walk, Expand, HitSteps, AllIgnored, Emissions, Warnings, FilesOf, SawFile, NoneReadable;
      SawNothing(hits);
      var k := 0;
      err, sawFile, loaded := None, false, 0;
      while k < |hits|
        invariant k <= |hits| && Valid() && stack == old(stack)
        invariant sawFile <==> SawFile(hits, k)
        invariant loaded == 0 <==> NoneReadable(hits, k)
        invariant Walk(disk, HitSteps(hits), stack, old(st)) == Walk(disk, HitSteps(hits[k..]), stack, st)
      {
        assert hits[k..][1..] == hits[k + 1..];
        WalkHit(disk, hits[k..], stack, st);
        SawNext(hits, k);
        match hits[k] {
          case Gone =>
            err := Some(NoStat);
            return;
          case Subdirectory =>
          case Ignored(_) =>
            sawFile := true;
          case Readable(g) =>
            sawFile := true;
            err := LoadOne(g);
            if err.Some? {
              return;
            }
            loaded := loaded + 1;
        }
        k := k + 1;
      }
      WalkNoHit(disk, hits[k..], stack, st);
      err := None;
    }
  }

  lemma WalkNothing(disk: Disk, stack: set<FileId>, st: State)
    ensures Walk(disk, [], stack, st) == (st, None)
  {
  }

  lemma WalkNoHit(disk: Disk, hits: seq<Hit>, stack: set<FileId>, st: State)
    requires hits == []
    ensures Walk(disk, HitSteps(hits), stack, st) == (st, None)
  {
  }

  lemma WalkPut(disk: Disk, e: Event, stack: set<FileId>, st: State)
    ensures Walk(disk, [Put(e)], stack, st) == (st.(trace := st.trace + [e]), None)
  {
  }

  lemma WalkHit(disk: Disk, hits: seq<Hit>, stack: set<FileId>, st: State)
    requires hits != []
    ensures hits[0].Gone? ==> Walk(disk, HitSteps(hits), stack, st) == (st, Some(NoStat))
    ensures !hits[0].Gone? && !hits[0].Readable? ==> HitSteps(hits) == HitSteps(hits[1..])
    ensures hits[0].Readable? ==>
              Walk(disk, HitSteps(hits), stack, st) ==
              var (after, err) := Expand(disk, hits[0].file, stack, st);
              if err.Some? then (after, err) else Walk(disk, HitSteps(hits[1..]), stack, after)
  {
    hide Expand;
  }

  /** Loading an entry file from scratch: out holds the emitted directives, diags the warnings and the failure. */
  method LoadFile(disk: Disk, entry: FileId) returns (out: seq<Event>, diags: seq<Diag>, err: Option<Error>)
    ensures err == Inline(disk, entry, {}).1
    ensures out == Emissions(Merge([], Inline(disk, entry, {}).0))
    ensures diags == Warnings(Merge([], Inline(disk, entry, {}).0)) + Reported(err)
  {
    hide Expand, Inline, Emissions, Warnings, Merge, Reported;
    var loader := new IncludeLoader(disk);
    err := loader.LoadOne(entry);
    LoadIsInline(disk, entry);
    return loader.out, loader.diags, err;
  }
}
