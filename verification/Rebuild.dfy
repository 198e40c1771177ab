/** The language server's rebuild protocol: handlers, timer and rebuilds as interleaved steps. */
module Rebuild {
  import opened Ast

  type Path = nat

  type Text = nat

  /** What a rebuild saw of a path: the overlay text, or None for the file on disk. */
  datatype Seen = Seen(path: Path, text: Option<Text>)

  datatype Snapshot = Snapshot(gen: nat, looks: set<Seen>)

  /** A handler or timer callback stopped between two critical sections: about to mark the session
      dirty after writing a path, about to do so in a save, or about to schedule a rebuild. */
  datatype Thread = Marking(path: Path) | Saving(written: Option<Path>) | Scheduling

  datatype State = State(
    overlay: map<Path, Text>,
    threads: multiset<Thread>,
    dirty: bool,
    timer: bool,
    based: bool,
    gen: nat,
    builds: map<nat, set<Seen>>,
    snap: Option<Snapshot>,
      // history
    edited: bool,
    installed: seq<nat>,
    failed: set<nat>)

  datatype Step =
    | Edit(path: Path, text: Option<Text>)
    | Save(write: Option<Seen>)
    | Mark(path: Path)
    | SaveMark(written: Option<Path>)
    | Fire
    | Schedule
    | SetBase
    | Look(gen: nat, path: Path)
    | Commit(gen: nat)
    | Abandon(gen: nat)

  function Start(based: bool): State {
    State(map[], multiset{}, false, false, based, 0, map[], None, false, [], {})
  }

  function Written(overlay: map<Path, Text>, path: Path, text: Option<Text>): map<Path, Text> {
    if text.Some? then overlay[path := text.value] else overlay - {path}
  }

  function TextAt(overlay: map<Path, Text>, path: Path): Option<Text> {
    if path in overlay then Some(overlay[path]) else None
  }

  predicate Enabled(s: State, step: Step) {
    match step
    case Mark(p) => Marking(p) in s.threads
    case SaveMark(p) => Saving(p) in s.threads
    case Fire => s.timer
    case Schedule => Scheduling in s.threads
    case Look(g, _) => g in s.builds
    case Commit(g) => g in s.builds
    case Abandon(g) => g in s.builds
    case _ => true
  }

  /** One critical section or overlay access. Open, change and close handlers are Edit then Mark; a
      save is Save, SaveMark, Schedule; a timer's callback is Fire, Schedule. */
  function Next(s: State, step: Step): State
    requires Enabled(s, step)
  {
    match step
    case Edit(p, t) =>
      s.(overlay := Written(s.overlay, p, t), threads := s.threads + multiset{Marking(p)})
    case Save(None) =>
      s.(threads := s.threads + multiset{Saving(None)})
    case Save(Some(w)) =>
      s.(overlay := Written(s.overlay, w.path, w.text), threads := s.threads + multiset{Saving(Some(w.path))})
    case Mark(p) =>
      s.(dirty := true, timer := true, edited := true, threads := s.threads - multiset{Marking(p)})
    case SaveMark(p) =>
      s.(dirty := true, edited := true, threads := s.threads - multiset{Saving(p)} + multiset{Scheduling})
    case Fire =>
      s.(timer := false, threads := s.threads + multiset{Scheduling})
    case Schedule =>
      var s' := s.(threads := s.threads - multiset{Scheduling});
      if !s.dirty then s'
      else if !s.based then s'.(dirty := false)
      else s'.(dirty := false, gen := s.gen + 1, builds := s.builds[s.gen + 1 := {}])
    case SetBase =>
      s.(based := true)
    case Look(g, p) =>
      s.(builds := s.builds[g := s.builds[g] + {Seen(p, TextAt(s.overlay, p))}])
    case Commit(g) =>
      var s' := s.(builds := s.builds - {g});
      if g != s.gen then s'
      else s'.(snap := Some(Snapshot(g, s.builds[g])), installed := s.installed + [g])
    case Abandon(g) =>
      s.(builds := s.builds - {g}, failed := s.failed + {g})
  }

  /** A run of the session from its start. */
  predicate Legal(based: bool, steps: seq<Step>)
    decreases |steps|, 0
  {
    steps == [] ||
    var last := |steps| - 1;
    Legal(based, steps[..last]) && Enabled(After(based, steps[..last]), steps[last])
  }

  function After(based: bool, steps: seq<Step>): State
    requires Legal(based, steps)
    decreases |steps|, 1
  {
    if steps == [] then Start(based)
    else
      var last := |steps| - 1;
      Next(After(based, steps[..last]), steps[last])
  }

  /* What every step keeps. */

  /** A handler has written the path and not yet marked the session dirty. */
  predicate Writing(s: State, p: Path) {
    Marking(p) in s.threads || Saving(Some(p)) in s.threads
  }

  /** A read differs from the overlay only while the edit after it is still to be scheduled. */
  predicate Current(s: State, looks: set<Seen>) {
    s.dirty || forall r | r in looks :: r.text == TextAt(s.overlay, r.path) || Writing(s, r.path)
  }

  predicate Increasing(gens: seq<nat>) {
    forall i, j | 0 <= i < j < |gens| :: gens[i] < gens[j]
  }

  predicate Numbered(s: State) {
    (!s.based ==> s.gen == 0) && BuildsUpTo(s.builds, s.gen) && Installed(s.installed, s.gen, s.gen in s.builds)
        && Shown(s.snap, s.installed)
  }

  predicate BuildsUpTo(builds: map<nat, set<Seen>>, gen: nat) {
    forall g | g in builds :: 1 <= g <= gen
  }

  /** Installed generations increase; the newest is among them only when it is no longer being built. */
  predicate Installed(installed: seq<nat>, gen: nat, building: bool) {
    && Increasing(installed)
    && forall i | 0 <= i < |installed| :: 1 <= installed[i] <= gen && (building ==> installed[i] < gen)
  }

  predicate Shown(snap: Option<Snapshot>, installed: seq<nat>) {
    if installed == [] then snap.None? else snap.Some? && snap.value.gen == installed[|installed| - 1]
  }

  predicate Newest(s: State) {
    && (s.gen in s.builds ==> Current(s, s.builds[s.gen]))
    && (s.snap.Some? && s.snap.value.gen == s.gen ==> Current(s, s.snap.value.looks))
  }

  predicate Inv(s: State) {
    Numbered(s) && Newest(s) && Awaited(s) && Settled(s) && FailedUpTo(s.failed, s.gen)
  }

  lemma NextNumbered(s: State, step: Step)
    requires Numbered(s) && Enabled(s, step)
    ensures Numbered(Next(s, step))
  {
    hide Written, Installed, BuildsUpTo;
    match step
    case Schedule => ScheduleNumbered(s);
    case Look(g, p) => LookNumbered(s, g, p);
    case Commit(g) => CommitNumbered(s, g);
    case Abandon(g) => DropBuild(s, g);
    case _ =>
  }

  lemma ScheduleNumbered(s: State)
    requires Numbered(s) && Enabled(s, Schedule)
    ensures Numbered(Next(s, Schedule))
  {
  }

  lemma LookNumbered(s: State, g: nat, p: Path)
    requires Numbered(s) && g in s.builds
    ensures Numbered(Next(s, Look(g, p)))
  {
  }

  lemma DropBuild(s: State, g: nat)
    requires Numbered(s) && g in s.builds
    ensures BuildsUpTo(s.builds - {g}, s.gen)
    ensures Installed(s.installed, s.gen, s.gen in s.builds - {g})
  {
  }

  lemma CommitNumbered(s: State, g: nat)
    requires Numbered(s) && g in s.builds
    ensures Numbered(Next(s, Commit(g)))
  {
    DropBuild(s, g);
  }

  /** Until the next schedule, reads stay current: an edit is first in writing and then dirty. */
  lemma CurrentKept(s: State, step: Step, looks: set<Seen>)
    requires Current(s, looks) && Enabled(s, step) && !step.Schedule?
    ensures Current(Next(s, step), looks)
  {
    match step
    case Edit(p, t) => EditKept(s, p, t, looks);
    case Save(Some(w)) => SaveKept(s, w, looks);
    case _ =>
  }

  lemma EditKept(s: State, p: Path, t: Option<Text>, looks: set<Seen>)
    requires Current(s, looks)
    ensures Current(Next(s, Edit(p, t)), looks)
  {
    if !s.dirty {
      forall r | r in looks
          && r.path != p ensures TextAt(Written(s.overlay, p, t), r.path) == TextAt(s.overlay, r.path) {
      }
    }
  }

  lemma SaveKept(s: State, w: Seen, looks: set<Seen>)
    requires Current(s, looks)
    ensures Current(Next(s, Save(Some(w))), looks)
  {
    if !s.dirty {
      forall r | r in looks && r.path != w.path
        ensures TextAt(Written(s.overlay, w.path, w.text), r.path) == TextAt(s.overlay, r.path)
      {
      }
    }
  }

  /** The steps of handlers and of the timer. */
  predicate Outside(step: Step) {
    !step.Schedule? && !step.Look? && !step.Commit? && !step.Abandon?
  }

  lemma OutsideKeeps(s: State, step: Step)
    requires Enabled(s, step) && Outside(step)
    ensures Next(s, step).builds == s.builds && Next(s, step).gen == s.gen && Next(s, step).snap == s.snap
  {
    hide Written;
    match step
    case Save(None) =>
    case Save(Some(w)) =>
    case _ =>
  }

  lemma NextNewest(s: State, step: Step)
    requires Numbered(s) && Newest(s) && Enabled(s, step)
    ensures Newest(Next(s, step))
  {
    hide Next, Current, Numbered;
    match step
    case Schedule => ScheduleNewest(s);
    case Look(g, p) => LookNewest(s, g, p);
    case Commit(g) => CommitNewest(s, g);
    case Abandon(g) => AbandonNewest(s, g);
    case _ =>
      OutsideKeeps(s, step);
      if s.gen in s.builds {
        CurrentKept(s, step, s.builds[s.gen]);
      }
      if s.snap.Some? {
        if s.snap.value.gen == s.gen {
          CurrentKept(s, step, s.snap.value.looks);
        }
      }
  }

  lemma CommitNewest(s: State, g: nat)
    requires Newest(s) && g in s.builds
    ensures Newest(Next(s, Commit(g)))
  {
  }

  lemma AbandonNewest(s: State, g: nat)
    requires Newest(s) && g in s.builds
    ensures Newest(Next(s, Abandon(g)))
  {
  }

  lemma ScheduleNewest(s: State)
    requires Numbered(s) && Newest(s) && Enabled(s, Schedule)
    ensures Newest(Next(s, Schedule))
  {
    assert Current(Next(s, Schedule), {});
  }

  lemma LookNewest(s: State, g: nat, p: Path)
    requires Newest(s) && g in s.builds
    ensures Newest(Next(s, Look(g, p)))
  {
  }

  predicate Awaited(s: State) {
    s.dirty ==> s.timer || Scheduling in s.threads
  }

  predicate Settled(s: State) {
    s.gen > 0 ==> s.gen in s.builds || s.gen in s.failed || (s.snap.Some? && s.snap.value.gen == s.gen)
  }

  /** Only rebuilds that were started fail. */
  predicate FailedUpTo(failed: set<nat>, gen: nat) {
    forall g | g in failed :: 1 <= g <= gen
  }

  lemma NextFailed(s: State, step: Step)
    requires BuildsUpTo(s.builds, s.gen) && FailedUpTo(s.failed, s.gen) && Enabled(s, step)
    ensures FailedUpTo(Next(s, step).failed, Next(s, step).gen)
  {
    hide Written;
    match step
    case Abandon(g) => assert 1 <= g <= s.gen;
    case Schedule => GenGrows(s, step);
    case _ => assert Next(s, step).failed == s.failed && Next(s, step).gen == s.gen;
  }

  lemma NextAwaited(s: State, step: Step)
    requires Awaited(s) && Enabled(s, step)
    ensures Awaited(Next(s, step))
  {
    hide Written;
  }

  lemma NextSettled(s: State, step: Step)
    requires Settled(s) && Enabled(s, step)
    ensures Settled(Next(s, step))
  {
    hide Written;
  }

  /** A session that has a base from the start forgets no edit. */
  predicate Minded(s: State) {
    s.based && (s.edited ==> s.dirty || s.gen > 0)
  }

  lemma NextMinded(s: State, step: Step)
    requires Minded(s) && Enabled(s, step)
    ensures Minded(Next(s, step))
  {
    hide Written;
  }

  /** Every reachable state: generations in order, newest reads current, every edit on its way. */
  lemma {:induction false} RunKeeps(based: bool, steps: seq<Step>)
    requires Legal(based, steps)
    ensures Inv(After(based, steps))
    ensures based ==> Minded(After(based, steps))
    decreases |steps|
  {
    hide Next, Newest, Awaited, Settled, Minded, FailedUpTo, Installed, Shown;
    if steps == [] {
      StartHolds(based);
    } else {
      var last := |steps| - 1;
      RunKeeps(based, steps[..last]);
      var s := After(based, steps[..last]);
      NextNumbered(s, steps[last]);
      NextNewest(s, steps[last]);
      NextAwaited(s, steps[last]);
      NextSettled(s, steps[last]);
      NextFailed(s, steps[last]);
      if based {
        NextMinded(s, steps[last]);
      }
    }
  }

  lemma StartHolds(based: bool)
    ensures Inv(Start(based)) && (based ==> Minded(Start(based)))
  {
  }

  /** Installed snapshots have strictly increasing generations. */
  lemma InstalledIncrease(based: bool, steps: seq<Step>)
    requires Legal(based, steps)
    ensures Increasing(After(based, steps).installed)
  {
    RunKeeps(based, steps);
  }

  /** With nothing dirty and the newest generation installed, the snapshot holds for every path the
      overlay text of now, unless a handler has just written the path and not yet marked it. */
  lemma SnapshotIsCurrent(based: bool, steps: seq<Step>, look: Seen)
    requires Legal(based, steps)
    requires var s := After(based, steps);
             !s.dirty && s.snap.Some? && s.snap.value.gen == s.gen && look in s.snap.value.looks
                 && !Writing(s, look.path)
    ensures look.text == TextAt(After(based, steps).overlay, look.path)
  {
    hide Legal, After;
    RunKeeps(based, steps);
  }

  /** The step writes the text, or the removal, of the path to the overlay. */
  predicate Writes(step: Step, path: Path, text: Option<Text>) {
    match step
    case Edit(p, x) => p == path && x == text
    case Save(Some(w)) => w.path == path && w.text == text
    case _ => false
  }

  ghost predicate WritesAt(step: Step, path: Path) {
    exists text :: Writes(step, path, text)
  }

  /** The overlay holds, for every path, the text of the last write to it, and nothing when it was a removal or
      there was none. */
  lemma {:induction false} OverlayIsLastWrite(based: bool, steps: seq<Step>, path: Path)
    requires Legal(based, steps)
    ensures forall k, text | 0 <= k < |steps| && Writes(steps[k], path, text)
                             && (forall j | k < j < |steps| :: !WritesAt(steps[j], path)) ::
              TextAt(After(based, steps).overlay, path) == text
    ensures (forall j | 0 <= j < |steps| :: !WritesAt(steps[j], path)) ==>
              TextAt(After(based, steps).overlay, path) == None
    decreases |steps|
  {
    hide Writes, WritesAt, Next;
    if steps != [] {
      var last := |steps| - 1;
      var before := steps[..last];
      OverlayIsLastWrite(based, before, path);
      StepOverlay(After(based, before), steps[last], path);
      assert forall j | 0 <= j < last :: before[j] == steps[j];
    }
  }

  lemma StepOverlay(s: State, step: Step, path: Path)
    requires Enabled(s, step)
    ensures forall text | Writes(step, path, text) ::
              TextAt(Next(s, step).overlay, path) == text && WritesAt(step, path)
    ensures !WritesAt(step, path) ==> TextAt(Next(s, step).overlay, path) == TextAt(s.overlay, path)
  {
    match step
    case Edit(p, x) => if p == path { assert Writes(step, path, x); }
    case Save(Some(w)) => if w.path == path { assert Writes(step, path, w.text); }
    case _ =>
  }

  /** No handler, timer or rebuild is under way. */
  predicate Quiet(s: State) {
    s.threads == multiset{} && !s.timer && s.builds == map[]
  }

  lemma {:induction false} LegalPrefix(based: bool, steps: seq<Step>, k: nat)
    requires Legal(based, steps) && k <= |steps|
    ensures Legal(based, steps[..k])
    decreases |steps|
  {
    if k == |steps| {
      assert steps[..k] == steps;
    } else {
      var last := |steps| - 1;
      assert steps[..last][..k] == steps[..k];
      LegalPrefix(based, steps[..last], k);
    }
  }

  /** The step is a schedule that finds the session dirty and with a base. */
  predicate Starting(based: bool, steps: seq<Step>, k: nat)
    requires Legal(based, steps) && k < |steps|
  {
    LegalPrefix(based, steps, k);
    var s := After(based, steps[..k]);
    steps[k].Schedule? && s.dirty && s.based
  }

  /** Some schedule of the run found the session dirty and with a base. */
  predicate Started(based: bool, steps: seq<Step>)
    requires Legal(based, steps)
  {
    exists k | 0 <= k < |steps| :: Starting(based, steps, k)
  }

  lemma {:induction false} StartedExactly(based: bool, steps: seq<Step>)
    requires Legal(based, steps)
    ensures After(based, steps).gen > 0 <==> Started(based, steps)
    decreases |steps|
  {
    if steps != [] {
      hide Next, Started, Starting;
      StartedExactly(based, steps[..|steps| - 1]);
      StartingLast(based, steps);
      StartedMore(based, steps, steps[..|steps| - 1]);
    }
  }

  lemma StartedMore(based: bool, steps: seq<Step>, before: seq<Step>)
    requires Legal(based, steps) && Legal(based, before) && before <= steps && |steps| == |before| + 1
    ensures Started(based, steps) <==> Started(based, before) || Starting(based, steps, |before|)
  {
    hide Starting, Legal;
    forall k | 0 <= k < |before| ensures Starting(based, steps, k) == Starting(based, before, k) {
      StartingBefore(based, steps, before, k);
    }
  }

  lemma StartingLast(based: bool, steps: seq<Step>)
    requires Legal(based, steps) && steps != []
    ensures Legal(based, steps[..|steps| - 1])
    ensures Starting(based, steps, |steps| - 1)
            <==> After(based, steps).gen > After(based, steps[..|steps| - 1]).gen
    ensures After(based, steps).gen >= After(based, steps[..|steps| - 1]).gen
  {
    hide Next;
    GenGrows(After(based, steps[..|steps| - 1]), steps[|steps| - 1]);
  }

  lemma StartingBefore(based: bool, steps: seq<Step>, before: seq<Step>, k: nat)
    requires Legal(based, steps) && Legal(based, before) && before <= steps && k < |before|
    ensures Starting(based, steps, k) == Starting(based, before, k)
  {
    hide Legal, After;
    assert before[..k] == steps[..k];
  }

  lemma GenGrows(s: State, step: Step)
    requires Enabled(s, step)
    ensures Next(s, step).gen == if step.Schedule? && s.dirty && s.based then s.gen + 1 else s.gen
  {
    hide Written;
  }

  /** The newest rebuild has failed, or the snapshot is its own and shows the overlay as it is. */
  predicate ShowsNow(s: State) {
    || s.gen in s.failed
    || (s.snap.Some? && s.snap.value.gen == s.gen
        && forall r | r in s.snap.value.looks :: r.text == TextAt(s.overlay, r.path))
  }

  /** A session at rest shows the overlay as it is, or its newest rebuild has failed, exactly when
      some schedule found it dirty and with a base. After an edit, a base from the start is enough. */
  lemma RestsCurrent(based: bool, steps: seq<Step>)
    requires Legal(based, steps) && Quiet(After(based, steps))
    ensures ShowsNow(After(based, steps)) <==> Started(based, steps)
    ensures based && After(based, steps).edited ==> ShowsNow(After(based, steps))
  {
    hide Legal, After, Started;
    RunKeeps(based, steps);
    StartedExactly(based, steps);
  }

  /** A base that arrives before anything is scheduled is in time, too. */
  lemma LateBaseRests(steps: seq<Step>, k: nat)
    requires Legal(false, steps) && Quiet(After(false, steps)) && After(false, steps).edited
    requires k < |steps| && steps[k].SetBase? && forall i | 0 <= i < k :: !steps[i].Schedule?
    ensures ShowsNow(After(false, steps))
  {
    hide Legal, After, Next;
    RestsCurrent(false, steps);
    RunKeeps(false, steps);
    BaseInTime(steps, k);
  }

  /** Until the first schedule every edit leaves the session dirty. */
  lemma {:induction false} Unscheduled(steps: seq<Step>)
    requires Legal(false, steps) && forall i | 0 <= i < |steps| :: !steps[i].Schedule?
    ensures After(false, steps).edited ==> After(false, steps).dirty
    decreases |steps|
  {
    if steps != [] {
      Unscheduled(steps[..|steps| - 1]);
    }
  }

  lemma {:induction false} BaseInTime(steps: seq<Step>, k: nat)
    requires Legal(false, steps)
    requires k < |steps| && steps[k].SetBase? && forall i | 0 <= i < k :: !steps[i].Schedule?
    ensures Minded(After(false, steps))
    decreases |steps|
  {
    hide Minded;
    var last := |steps| - 1;
    var before := steps[..last];
    if k == last {
      assert forall i | 0 <= i < |before| :: !before[i].Schedule?;
      Unscheduled(before);
      SetBaseMinds(After(false, before));
    } else {
      BaseInTime(before, k);
      NextMinded(After(false, before), steps[last]);
    }
  }

  lemma SetBaseMinds(s: State)
    requires s.edited ==> s.dirty
    ensures Minded(Next(s, SetBase))
  {
  }

  /** An edit, marked, and the timer's callback about to schedule. */
  lemma EditFires(p: Path, t: Text)
    ensures var steps := [Edit(p, Some(t)), Mark(p), Fire];
            && Legal(false, steps)
            && After(false, steps) ==
               Start(false).(overlay := map[p := t], threads := multiset{Scheduling}, dirty := true, edited := true)
  {
    hide Legal, After;
    var one := [Edit(p, Some(t))];
    var two := one + [Mark(p)];
    StartLegal(false);
    assert [] + one == one;
    OneMore(false, [], Edit(p, Some(t)));
    OneMore(false, one, Mark(p));
    assert After(false, two).threads == multiset{};
    OneMore(false, two, Fire);
    assert two + [Fire] == [Edit(p, Some(t)), Mark(p), Fire];
  }

  /** Without a base, a schedule forgets the edit: the session rests with nothing rebuilt. Only a server
      made without a context starts so; the functions that serve give the session its base first. */
  lemma NoBaseForgets(p: Path, t: Text)
    ensures var steps := [Edit(p, Some(t)), Mark(p), Fire, Schedule, SetBase];
            && Legal(false, steps) && Quiet(After(false, steps))
            && After(false, steps).edited && After(false, steps).snap.None? && After(false, steps).failed == {}
            && !ShowsNow(After(false, steps))
  {
    hide Legal, After;
    var three := [Edit(p, Some(t)), Mark(p), Fire];
    EditFires(p, t);
    OneMore(false, three, Schedule);
    OneMore(false, three + [Schedule], SetBase);
    assert three + [Schedule] + [SetBase] == [Edit(p, Some(t)), Mark(p), Fire, Schedule, SetBase];
  }

  lemma StartLegal(based: bool)
    ensures Legal(based, []) && After(based, []) == Start(based)
  {
  }

  lemma OneMore(based: bool, steps: seq<Step>, step: Step)
    requires Legal(based, steps) && Enabled(After(based, steps), step)
    ensures Legal(based, steps + [step]) && After(based, steps + [step]) == Next(After(based, steps), step)
  {
    assert (steps + [step])[..|steps|] == steps;
  }

  /** The session's fields; each method is one critical section or overlay access. */
  class Session {
    var overlay: map<Path, Text>
    var dirty: bool
    var timer: bool
    var base: bool
    var gen: nat
    var snap: Option<Snapshot>
    ghost var threads: multiset<Thread>
    ghost var builds: map<nat, set<Seen>>
    ghost var edited: bool
    ghost var installed: seq<nat>
    ghost var failed: set<nat>

    ghost function S(): State
      reads this
    {
      State(overlay, threads, dirty, timer, base, gen, builds, snap, edited, installed, failed)
    }

    constructor (base: bool)
      ensures S() == Start(base)
    {
      overlay, dirty, timer, this.base, gen, snap := map[], false, false, base, 0, None;
      threads, builds, edited, installed, failed := multiset{}, map[], false, [], {};
    }

    method SetOverlay(path: Path, text: Option<Text>)
      modifies this`overlay, this`threads
      ensures S() == Next(old(S()), Edit(path, text))
    {
      if text.Some? {
        overlay := overlay[path := text.value];
      } else {
        overlay := overlay - {path};
      }
      threads := threads + multiset{Marking(path)};
    }

    method MarkDirty(path: Path)
      requires Enabled(S(), Mark(path))
      modifies this`dirty, this`timer, this`threads, this`edited
      ensures S() == Next(old(S()), Mark(path))
    {
      dirty := true;
      timer := true;
      edited := true;
      threads := threads - multiset{Marking(path)};
    }

    method BeginSave(write: Option<Seen>)
      modifies this`overlay, this`threads
      ensures S() == Next(old(S()), Save(write))
    {
      if write.Some? {
        overlay := Written(overlay, write.value.path, write.value.text);
        threads := threads + multiset{Saving(Some(write.value.path))};
      } else {
        threads := threads + multiset{Saving(None)};
      }
    }

    method MarkSaved(path: Option<Path>)
      requires Enabled(S(), SaveMark(path))
      modifies this`dirty, this`threads, this`edited
      ensures S() == Next(old(S()), SaveMark(path))
    {
      dirty := true;
      edited := true;
      threads := threads - multiset{Saving(path)} + multiset{Scheduling};
    }

    method FireTimer()
      requires Enabled(S(), Fire)
      modifies this`timer, this`threads
      ensures S() == Next(old(S()), Fire)
    {
      timer := false;
      threads := threads + multiset{Scheduling};
    }

    method SetSessionBase(ctx: bool)
      modifies this`base
      ensures S() == if ctx then Next(old(S()), SetBase) else old(S())
    {
      if !ctx {
        return;
      }
      base := true;
    }

    /** The generation of the rebuild it starts, if any. */
    method ScheduleRebuild() returns (started: Option<nat>)
      requires Enabled(S(), Schedule)
      modifies this`dirty, this`gen, this`threads, this`builds
      ensures S() == Next(old(S()), Schedule)
      ensures started == if old(dirty && base) then Some(gen) else None
    {
      threads := threads - multiset{Scheduling};
      if !dirty {
        return None;
      }
      dirty := false;
      if !base {
        return None;
      }
      gen := gen + 1;
      builds := builds[gen := {}];
      return Some(gen);
    }

    method ReadFile(ghost build: nat, path: Path) returns (text: Option<Text>)
      requires Enabled(S(), Look(build, path))
      modifies this`builds
      ensures S() == Next(old(S()), Look(build, path)) && text == TextAt(overlay, path)
    {
      text := if path in overlay then Some(overlay[path]) else None;
      builds := builds[build := builds[build] + {Seen(path, text)}];
    }

    /** The last section of a rebuild: the snapshot is swapped unless a newer rebuild was started. */
    method FinishRebuild(build: nat, looks: set<Seen>) returns (swapped: bool)
      requires Enabled(S(), Commit(build)) && looks == builds[build]
      modifies this`snap, this`builds, this`installed
      ensures S() == Next(old(S()), Commit(build)) && swapped == (build == gen)
    {
      builds := builds - {build};
      if build != gen {
        return false;
      }
      snap := Some(Snapshot(build, looks));
      installed := installed + [build];
      return true;
    }
  }
}
