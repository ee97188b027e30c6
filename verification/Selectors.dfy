/**
 The active pointer of the Vault secret generations, `_publish_generation` and the retention check of
 `deploy/oci/hydrate-vault-secrets.py`.

 Every rename, link swap and flag assignment is one step; a crash may follow any step, and an exception may be
 raised between any two.  Hydrations run one after the other.
 */
module VaultGenerations {
  import opened Common

  type Generation = nat

  /** Where `hydrate` is.  `Swapped` is the point between the replacement of the link and the assignment that
      records it. */
  datatype Pc =
    | Idle
    | Counted(n: nat)
    | Renamed(g: Generation)
    | Linked(g: Generation, previous: Option<Generation>)
    | Swapped(g: Generation, previous: Option<Generation>)
    | Flagged(g: Generation, previous: Option<Generation>)
    | Restoring(g: Generation, previous: Option<Generation>)
    | Restored(g: Generation)
    | Removing(g: Generation)

  /** For each generation directory, whether it is complete. */
  datatype State = State(generations: map<Generation, bool>, pointer: Option<Generation>, pc: Pc)

  datatype Step =
    | Begin
    | Leave                 // unchanged secrets, a failed validation or the retention limit
    | Rename(g: Generation)
    | Link
    | Swap
    | Flag
    | Finish
    | Raise
    | Restore
    | Sync
    | RemoveSome
    | RemoveAll
    | Crash

  const RETENTION := 16

  predicate Enabled(s: State, step: Step) {
    match step
    case Begin => s.pc.Idle?
    case Leave => s.pc.Counted?
    case Rename(g) => s.pc.Counted? && s.pc.n < RETENTION && g !in s.generations
    case Link => s.pc.Renamed?
    case Swap => s.pc.Linked?
    case Flag => s.pc.Swapped?
    case Finish => s.pc.Flagged?
    case Raise => !s.pc.Idle?
    case Restore => s.pc.Restoring?
    case Sync => s.pc.Restored?
    case RemoveSome => s.pc.Removing?
    case RemoveAll => s.pc.Removing?
    case Crash => true
  }

  /** Where an exception leads: the handler removes the new generation unless the recorded swap could not be
      undone; outside the guarded block and inside the handler it just propagates. */
  function Handler(pc: Pc): Pc {
    match pc
    case Linked(g, _) => Removing(g)
    case Swapped(g, _) => Removing(g)
    case Flagged(g, previous) => Restoring(g, previous)
    case _ => Idle
  }

  function Apply(s: State, step: Step): State
    requires Enabled(s, step)
  {
    match step
    case Begin => s.(pc := Counted(|s.generations|))
    case Leave => s.(pc := Idle)
    case Rename(g) => s.(generations := s.generations[g := true], pc := Renamed(g))
    case Link => s.(pc := Linked(s.pc.g, s.pointer))
    case Swap => s.(pointer := Some(s.pc.g), pc := Swapped(s.pc.g, s.pc.previous))
    case Flag => s.(pc := Flagged(s.pc.g, s.pc.previous))
    case Finish => s.(pc := Idle)
    case Raise => s.(pc := Handler(s.pc))
    case Restore => s.(pointer := s.pc.previous, pc := Restored(s.pc.g))
    case Sync => s.(pc := Removing(s.pc.g))
    case RemoveSome => s.(generations := s.generations[s.pc.g := false])
    case RemoveAll => s.(generations := s.generations - {s.pc.g}, pc := Idle)
    case Crash => s.(pc := Idle)
  }

  ghost predicate Run(trace: seq<State>, steps: seq<Step>) {
    && |trace| == |steps| + 1 && trace[0] == State(map[], None, Idle)
    && forall i :: 0 <= i < |steps| ==> Enabled(trace[i], steps[i]) && trace[i + 1] == Apply(trace[i], steps[i])
  }

  /** No exception arrives between the swap and its record. */
  ghost predicate Synchronous(trace: seq<State>, steps: seq<Step>)
    requires |trace| == |steps| + 1
  {
    forall i :: 0 <= i < |steps| && trace[i].pc.Swapped? ==> !steps[i].Raise?
  }

  predicate Whole(s: State, g: Option<Generation>) {
    g.Some? ==> g.value in s.generations && s.generations[g.value]
  }

  /** The pointer is absent or names an existing complete generation. */
  predicate PointerOk(s: State) { Whole(s, s.pointer) }

  predicate PcOk(s: State) {
    match s.pc
    case Idle => true
    case Counted(n) => n == |s.generations|
    case Renamed(g) => Whole(s, Some(g)) && s.pointer != Some(g)
    case Linked(g, previous) => Whole(s, Some(g)) && s.pointer != Some(g) && previous == s.pointer
    case Swapped(g, previous) => s.pointer == Some(g) && previous != Some(g) && Whole(s, previous)
    case Flagged(g, previous) => s.pointer == Some(g) && previous != Some(g) && Whole(s, previous)
    case Restoring(g, previous) => s.pointer == Some(g) && previous != Some(g) && Whole(s, previous)
    case Restored(g) => s.pointer != Some(g)
    case Removing(g) => s.pointer != Some(g)
  }

  /** Room for one more generation is counted before it is made. */
  predicate CountOk(s: State) {
    |s.generations| <= RETENTION && (s.pc.Counted? ==> s.pc.n == |s.generations|)
    && (!s.pc.Idle? && !s.pc.Counted? ==> s.pc.g in s.generations)
  }

  lemma StepKeepsCount(s: State, step: Step)
    requires CountOk(s) && Enabled(s, step)
    ensures CountOk(Apply(s, step))
  {
    if step.RemoveSome? {
      assert s.generations[s.pc.g := false].Keys == s.generations.Keys;
    } else if step.RemoveAll? {
      assert (s.generations - {s.pc.g}).Keys == s.generations.Keys - {s.pc.g};
    } else if step.Rename? {
      assert s.generations[step.g := true].Keys == s.generations.Keys + {step.g};
    }
  }

  lemma StepKeepsPointer(s: State, step: Step)
    requires PointerOk(s) && PcOk(s) && Enabled(s, step) && !(s.pc.Swapped? && step.Raise?)
    ensures PointerOk(Apply(s, step)) && PcOk(Apply(s, step))
  {
  }

  /** Never more than sixteen generations, over any run whatever. */
  lemma {:induction false} RetentionBound(trace: seq<State>, steps: seq<Step>, i: nat)
    requires Run(trace, steps) && i < |trace|
    ensures CountOk(trace[i]) && |trace[i].generations| <= RETENTION
  {
    if i > 0 {
      RetentionBound(trace, steps, i - 1);
      StepKeepsCount(trace[i - 1], steps[i - 1]);
    }
  }

  /** At every crash or exception point the pointer is absent or names an existing complete generation. */
  lemma {:induction false} PointerAtomicity(trace: seq<State>, steps: seq<Step>, i: nat)
    requires Run(trace, steps) && Synchronous(trace, steps) && i < |trace|
    ensures PointerOk(trace[i]) && PcOk(trace[i])
  {
    if i > 0 {
      PointerAtomicity(trace, steps, i - 1);
      StepKeepsPointer(trace[i - 1], steps[i - 1]);
    }
  }

  /** A publication that returns has selected its own complete generation. */
  lemma PublicationSelects(trace: seq<State>, steps: seq<Step>, i: nat)
    requires Run(trace, steps) && Synchronous(trace, steps) && i < |steps| && steps[i].Finish?
    ensures trace[i + 1].pointer == Some(trace[i].pc.g) && Whole(trace[i + 1], Some(trace[i].pc.g))
  {
    PointerAtomicity(trace, steps, i);
  }

  /** A publication that fails before or after its recorded swap, and whose handler runs to its end, leaves no trace:
      the link and the generations are those from before it. */
  lemma FailureLeavesNoTrace(s: State)
    requires PcOk(s) && (s.pc.Linked? || s.pc.Flagged?)
    ensures
      var raised := Apply(s, Raise);
      if s.pc.Linked? then
        Enabled(raised, RemoveAll) && Apply(raised, RemoveAll) == State(s.generations - {s.pc.g}, s.pc.previous, Idle)
      else
        && Enabled(raised, Restore) && var restored := Apply(raised, Restore);
        && Enabled(restored, Sync) && var synced := Apply(restored, Sync);
        && Enabled(synced, RemoveAll) && Apply(synced, RemoveAll) == State(s.generations - {s.pc.g}, s.pc.previous, Idle)
  {
  }

  function Execute(s: State, steps: seq<Step>): Option<State>
    decreases |steps|
  {
    if steps == [] then Some(s)
    else if Enabled(s, steps[0]) then Execute(Apply(s, steps[0]), steps[1..])
    else None
  }

  lemma ExecuteCons(s: State, step: Step, rest: seq<Step>)
    requires Enabled(s, step)
    ensures Execute(s, [step] + rest) == Execute(Apply(s, step), rest)
  {
    assert ([step] + rest)[1..] == rest;
  }

  /** The steps of an undisturbed hydration that publishes `g`. */
  function Hydration(g: Generation): seq<Step> {
    [Begin] + ([Rename(g)] + ([Link] + ([Swap] + ([Flag] + ([Finish] + [])))))
  }

  /** An undisturbed hydration under a fresh name publishes if and only if there are fewer than sixteen generations; it
      then adds exactly its own, complete, and selects it. */
  lemma HydrationCompletes(s: State, g: Generation)
    requires s.pc.Idle? && g !in s.generations
    ensures Execute(s, Hydration(g)).Some? <==> |s.generations| < RETENTION
    ensures |s.generations| < RETENTION ==>
      Execute(s, Hydration(g)) == Some(State(s.generations[g := true], Some(g), Idle))
  {
    var s1 := Apply(s, Begin);
    ExecuteCons(s, Begin, [Rename(g)] + ([Link] + ([Swap] + ([Flag] + ([Finish] + [])))));
    if |s.generations| < RETENTION {
      var s2 := Apply(s1, Rename(g));
      var s3 := Apply(s2, Link);
      var s4 := Apply(s3, Swap);
      var s5 := Apply(s4, Flag);
      ExecuteCons(s1, Rename(g), [Link] + ([Swap] + ([Flag] + ([Finish] + []))));
      ExecuteCons(s2, Link, [Swap] + ([Flag] + ([Finish] + [])));
      ExecuteCons(s3, Swap, [Flag] + ([Finish] + []));
      ExecuteCons(s4, Flag, [Finish] + []);
      ExecuteCons(s5, Finish, []);
    } else {
      assert ([Rename(g)] + ([Link] + ([Swap] + ([Flag] + ([Finish] + [])))))[0] == Rename(g);
    }
  }

  /** The window matters: whenever a run stands between the swap and its record, an exception there makes the
      handler delete the generation that `active` selects. */
  lemma AsynchronousExceptionDangles(trace: seq<State>, steps: seq<Step>)
    requires Run(trace, steps) && Synchronous(trace, steps) && trace[|steps|].pc.Swapped?
    ensures
      var raised := Apply(trace[|steps|], Raise);
      var removed := Apply(raised, RemoveAll);
      && Run(trace + [raised, removed], steps + [Raise, RemoveAll])
      && !PointerOk(removed)
  {
    PointerAtomicity(trace, steps, |steps|);
    var raised := Apply(trace[|steps|], Raise);
    var removed := Apply(raised, RemoveAll);
    var t, p := trace + [raised, removed], steps + [Raise, RemoveAll];
    forall i | 0 <= i < |p| ensures Enabled(t[i], p[i]) && t[i + 1] == Apply(t[i], p[i]) {
      if i < |steps| {
        assert t[i] == trace[i] && t[i + 1] == trace[i + 1] && p[i] == steps[i];
      }
    }
  }
}

/**
 The connector credential selector of `deploy/oci/cloudflare-canary-credential.py`: publication, cleaning and
 tear-down.  Creating a temporary file, renaming it, linking, swapping and each unlink are steps of their own.
 */
module ConnectorSelector {
  import opened Common

  type Generation = nat

  /** `Stray` is the temporary file of a write that a crash cut short. */
  datatype File = Token | Selection | Stray

  datatype Pc =
    | Idle
    | CleaningBefore
    | Ready
    | Made(g: Generation)
    | Writing(g: Generation, f: File)      // the temporary file of `f` exists
    | Written(g: Generation)               // the token is in place
    | Complete(g: Generation)
    | Linked(g: Generation, link: nat)
    | Swapped(g: Generation)
    | Published(g: Generation)
    | Undoing(g: Generation)
    | CleaningAfter(g: Generation)
    | TearingDown

  datatype State = State(
    generations: map<Generation, set<File>>, selector: Option<Generation>, links: set<nat>, legacy: set<File>, pc: Pc)

  datatype Step =
    | Begin
    | RemoveLink(link: nat)
    | RemoveFile(g: Generation, f: File)
    | RemoveDirectory(g: Generation)
    | CleanedBefore
    | MakeDirectory(g: Generation)
    | StartWrite(f: File)
    | EndWrite
    | Link(link: nat)
    | Swap
    | Flag
    | Raise
    | Undone
    | RemoveLegacy(f: File)
    | Return
    | TearDown
    | TornDown
    | Crash

  predicate Cleaning(pc: Pc) { pc.CleaningBefore? || pc.CleaningAfter? || pc.TearingDown? }

  /** The generation that cleaning spares. */
  function Kept(s: State): Option<Generation> {
    if s.pc.CleaningAfter? then Some(s.pc.g) else if s.pc.TearingDown? then None else s.selector
  }

  /** `_remove_generation` refuses a directory with anything else in it. */
  predicate Removable(s: State, g: Generation) {
    && g in s.generations && s.generations[g] <= {Token, Selection}
    && ((Cleaning(s.pc) && Kept(s) != Some(g)) || s.pc == Undoing(g))
  }

  predicate Enabled(s: State, step: Step) {
    match step
    case Begin => s.pc.Idle? && (s.selector.Some? ==> s.selector.value in s.generations)
    case RemoveLink(link) => Cleaning(s.pc) && link in s.links
    case RemoveFile(g, f) => Removable(s, g) && f in s.generations[g]
    case RemoveDirectory(g) => Removable(s, g) && s.generations[g] == {}
    case CleanedBefore => s.pc.CleaningBefore? && s.links == {} && forall g :: g in s.generations ==> Kept(s) == Some(g)
    case MakeDirectory(g) => s.pc.Ready? && g !in s.generations
    case StartWrite(f) => (s.pc.Made? && f.Token?) || (s.pc.Written? && f.Selection?)
    case EndWrite => s.pc.Writing?
    case Link(link) => s.pc.Complete? && link !in s.links
    case Swap => s.pc.Linked?
    case Flag => s.pc.Swapped?
    case Raise => !s.pc.Idle?
    case Undone => s.pc.Undoing? && s.pc.g !in s.generations
    case RemoveLegacy(f) => (s.pc.Published? || s.pc.TearingDown?) && f in s.legacy
    case Return =>
      || (s.pc.Published? && s.legacy == {})
      || (s.pc.CleaningAfter? && s.links == {} && forall g :: g in s.generations ==> Kept(s) == Some(g))
    case TearDown => s.pc.Idle? && (s.selector.Some? ==> s.selector.value in s.generations)
    case TornDown => s.pc.TearingDown? && s.links == {} && s.legacy == {} && s.generations == map[]
    case Crash => true
  }

  /** The handler unlinks the temporary link and, unless the swap was recorded, removes the new generation;
      an interrupted write takes its temporary file away first. */
  function Raised(s: State): State {
    match s.pc
    case Made(g) => s.(pc := Undoing(g))
    case Writing(g, _) =>
      if g in s.generations then s.(generations := s.generations[g := s.generations[g] - {Stray}], pc := Undoing(g)) else s.(pc := Undoing(g))
    case Written(g) => s.(pc := Undoing(g))
    case Complete(g) => s.(pc := Undoing(g))
    case Linked(g, link) => s.(links := s.links - {link}, pc := Undoing(g))
    case Swapped(g) => s.(pc := Undoing(g))
    case _ => s.(pc := Idle)
  }

  function Apply(s: State, step: Step): State
    requires Enabled(s, step)
  {
    match step
    case Begin => s.(pc := CleaningBefore)
    case RemoveLink(link) => s.(links := s.links - {link})
    case RemoveFile(g, f) => s.(generations := s.generations[g := s.generations[g] - {f}])
    case RemoveDirectory(g) => s.(generations := s.generations - {g})
    case CleanedBefore => s.(pc := Ready)
    case MakeDirectory(g) => s.(generations := s.generations[g := {}], pc := Made(g))
    case StartWrite(f) =>
      var files := if s.pc.g in s.generations then s.generations[s.pc.g] else {};
      s.(generations := s.generations[s.pc.g := files + {Stray}], pc := Writing(s.pc.g, f))
    case EndWrite =>
      var files := if s.pc.g in s.generations then s.generations[s.pc.g] else {};
      s.(generations := s.generations[s.pc.g := files - {Stray} + {s.pc.f}],
         pc := if s.pc.f.Token? then Written(s.pc.g) else Complete(s.pc.g))
    case Link(link) => s.(links := s.links + {link}, pc := Linked(s.pc.g, link))
    case Swap => s.(selector := Some(s.pc.g), links := s.links - {s.pc.link}, pc := Swapped(s.pc.g))
    case Flag => s.(pc := Published(s.pc.g))
    case Raise => Raised(s)
    case Undone => s.(pc := Idle)
    case RemoveLegacy(f) => s.(legacy := s.legacy - {f})
    case Return => s.(pc := if s.pc.Published? then CleaningAfter(s.pc.g) else Idle)
    case TearDown => s.(selector := None, pc := TearingDown)
    case TornDown => s.(pc := Idle)
    case Crash => s.(pc := Idle)
  }

  ghost predicate Run(trace: seq<State>, steps: seq<Step>) {
    && |trace| == |steps| + 1
    && trace[0].generations == map[] && trace[0].selector.None? && trace[0].links == {} && trace[0].legacy <= {Token, Selection} && trace[0].pc.Idle?
    && forall i :: 0 <= i < |steps| ==> Enabled(trace[i], steps[i]) && trace[i + 1] == Apply(trace[i], steps[i])
  }

  ghost predicate Synchronous(trace: seq<State>, steps: seq<Step>)
    requires |trace| == |steps| + 1
  {
    forall i :: 0 <= i < |steps| && trace[i].pc.Swapped? ==> !steps[i].Raise?
  }

  predicate Has(s: State, g: Generation, files: set<File>) { g in s.generations && s.generations[g] == files }

  /** The selector is absent or names an existing complete generation. */
  predicate SelectorOk(s: State) { s.selector.Some? ==> Has(s, s.selector.value, {Token, Selection}) }

  predicate PcOk(s: State) {
    match s.pc
    case Made(g) => Has(s, g, {}) && s.selector != Some(g)
    case Writing(g, f) => s.selector != Some(g) && ((f.Token? && Has(s, g, {Stray})) || (f.Selection? && Has(s, g, {Token, Stray})))
    case Written(g) => Has(s, g, {Token}) && s.selector != Some(g)
    case Complete(g) => Has(s, g, {Token, Selection}) && s.selector != Some(g)
    case Linked(g, _) => Has(s, g, {Token, Selection}) && s.selector != Some(g)
    case Swapped(g) => s.selector == Some(g)
    case Published(g) => s.selector == Some(g)
    case Undoing(g) => s.selector != Some(g) && (g in s.generations ==> Stray !in s.generations[g])
    case CleaningAfter(g) => s.selector == Some(g) && s.legacy == {}
    case TearingDown => s.selector == None
    case _ => true
  }

  lemma StepKeepsSelector(s: State, step: Step)
    requires SelectorOk(s) && PcOk(s) && Enabled(s, step) && !(s.pc.Swapped? && step.Raise?)
    ensures SelectorOk(Apply(s, step)) && PcOk(Apply(s, step))
  {
  }

  /** At every crash or exception point the selector is absent or names an existing complete generation. */
  lemma {:induction false} SelectorAtomicity(trace: seq<State>, steps: seq<Step>, i: nat)
    requires Run(trace, steps) && Synchronous(trace, steps) && i < |trace|
    ensures SelectorOk(trace[i]) && PcOk(trace[i])
  {
    if i > 0 {
      SelectorAtomicity(trace, steps, i - 1);
      StepKeepsSelector(trace[i - 1], steps[i - 1]);
    }
  }

  datatype Entry = Current | Directory(g: Generation) | TemporaryLink(link: nat) | LegacyFile(f: File)

  predicate Present(s: State, e: Entry) {
    match e
    case Current => s.selector.Some?
    case Directory(g) => g in s.generations
    case TemporaryLink(link) => link in s.links
    case LegacyFile(f) => f in s.legacy
  }

  /** The names in the runtime directory. */
  ghost function Entries(s: State): iset<Entry> { iset e: Entry | Present(s, e) }

  /** A completed publication leaves exactly the two entries that `verify` demands, the new generation complete. */
  lemma PublicationLeavesTwoEntries(trace: seq<State>, steps: seq<Step>, i: nat)
    requires Run(trace, steps) && Synchronous(trace, steps) && i < |steps| && steps[i].Return? && trace[i].pc.CleaningAfter?
    ensures
      var g := trace[i].pc.g;
      && trace[i + 1].selector == Some(g) && Has(trace[i + 1], g, {Token, Selection})
      && Entries(trace[i + 1]) == iset{Current, Directory(g)}
  {
    SelectorAtomicity(trace, steps, i);
  }

  /** The window matters: an exception between the swap and its record makes the handler empty the generation
      that the selector names. */
  lemma AsynchronousExceptionDangles(trace: seq<State>, steps: seq<Step>)
    requires Run(trace, steps) && Synchronous(trace, steps) && trace[|steps|].pc.Swapped?
    ensures
      var raised := Apply(trace[|steps|], Raise);
      && Enabled(raised, RemoveFile(trace[|steps|].pc.g, Token))
      && !SelectorOk(Apply(raised, RemoveFile(trace[|steps|].pc.g, Token)))
  {
    SelectorAtomicity(trace, steps, |steps|);
  }

  // ---------------------------------------------------------------- a crash inside a write

  /** An unselected generation with a temporary file in it, and nobody at work on it. */
  predicate Littered(s: State, g: Generation) {
    && g in s.generations && Stray in s.generations[g] && s.selector != Some(g)
    && (s.pc.Idle? || s.pc.CleaningBefore? || s.pc.TearingDown?)
  }

  lemma LitterStays(s: State, step: Step, g: Generation)
    requires Littered(s, g) && Enabled(s, step)
    ensures Littered(Apply(s, step), g)
  {
  }

  /** A crash between the two halves of a write leaves a generation that every later publication and tear-down
      refuses to remove, so none of them ever completes. */
  lemma {:induction false} CrashInWriteBlocks(trace: seq<State>, steps: seq<Step>, i: nat, j: nat)
    requires Run(trace, steps) && Synchronous(trace, steps) && i < j < |trace|
    requires trace[i].pc.Writing? && steps[i].Crash?
    ensures Littered(trace[j], trace[i].pc.g)
    ensures j < |steps| ==> !steps[j].CleanedBefore? && !steps[j].Swap? && !steps[j].TornDown?
  {
    var g := trace[i].pc.g;
    if j == i + 1 {
      SelectorAtomicity(trace, steps, i);
    } else {
      CrashInWriteBlocks(trace, steps, i, j - 1);
      LitterStays(trace[j - 1], steps[j - 1], g);
    }
    assert j < |steps| ==> Enabled(trace[j], steps[j]);
  }

  // ---------------------------------------------------------------- otherwise every attempt can complete

  predicate Tidy(s: State) {
    forall g :: g in s.generations ==> Stray !in s.generations[g]
  }

  /** Only a write in progress has a temporary file. */
  predicate TidyButWriting(s: State) {
    && (s.pc.Writing? ==> !s.pc.f.Stray?)
    && forall g :: g in s.generations && Stray in s.generations[g] ==> s.pc.Writing? && s.pc.g == g
  }

  lemma StepKeepsTidy(s: State, step: Step)
    requires TidyButWriting(s) && Enabled(s, step) && !(s.pc.Writing? && step.Crash?)
    ensures TidyButWriting(Apply(s, step))
  {
  }

  /** Without a crash inside a write nothing is ever left behind. */
  lemma {:induction false} RunStaysTidy(trace: seq<State>, steps: seq<Step>, i: nat)
    requires Run(trace, steps) && i < |trace|
    requires forall k :: 0 <= k < i && trace[k].pc.Writing? ==> !steps[k].Crash?
    ensures TidyButWriting(trace[i])
  {
    if i > 0 {
      RunStaysTidy(trace, steps, i - 1);
      StepKeepsTidy(trace[i - 1], steps[i - 1]);
    }
  }

  /** The state reached by undisturbed steps in order, or None when one of them cannot be taken. */
  function Execute(s: State, steps: seq<Step>): Option<State>
    decreases |steps|
  {
    if steps == [] then Some(s)
    else if Enabled(s, steps[0]) && !steps[0].Raise? && !steps[0].Crash? then Execute(Apply(s, steps[0]), steps[1..])
    else None
  }

  lemma {:induction false} ExecuteAppend(s: State, a: seq<Step>, s': State, b: seq<Step>)
    requires Execute(s, a) == Some(s')
    ensures Execute(s, a + b) == Execute(s', b)
    decreases |a|
  {
    if a == [] {
      assert a + b == b;
    } else {
      ExecuteAppend(Apply(s, a[0]), a[1..], s', b);
      assert (a + b)[1..] == a[1..] + b;
    }
  }

  lemma Then(s: State, steps: seq<Step>, s': State, step: Step)
    requires Execute(s, steps) == Some(s') && Enabled(s', step) && !step.Raise? && !step.Crash?
    ensures Execute(s, steps + [step]) == Some(Apply(s', step))
  {
    ExecuteAppend(s, steps, s', [step]);
    assert Execute(Apply(s', step), []) == Some(Apply(s', step)) && [step][1..] == [];
  }

  lemma {:induction false} CleanLinks(s: State) returns (steps: seq<Step>, s': State)
    requires Cleaning(s.pc)
    ensures Execute(s, steps) == Some(s') && s' == s.(links := {})
    decreases |s.links|
  {
    if s.links == {} {
      steps, s' := [], s;
    } else {
      var link :| link in s.links;
      var rest;
      rest, s' := CleanLinks(Apply(s, RemoveLink(link)));
      steps := [RemoveLink(link)] + rest;
      assert steps[1..] == rest;
    }
  }

  lemma {:induction false} CleanLegacy(s: State) returns (steps: seq<Step>, s': State)
    requires s.pc.Published? || s.pc.TearingDown?
    ensures Execute(s, steps) == Some(s') && s' == s.(legacy := {})
    decreases |s.legacy|
  {
    if s.legacy == {} {
      steps, s' := [], s;
    } else {
      var f :| f in s.legacy;
      var rest;
      rest, s' := CleanLegacy(Apply(s, RemoveLegacy(f)));
      steps := [RemoveLegacy(f)] + rest;
      assert steps[1..] == rest;
    }
  }

  /** File by file and then the directory. */
  lemma {:induction false} CleanGeneration(s: State, g: Generation) returns (steps: seq<Step>, s': State)
    requires Removable(s, g)
    ensures Execute(s, steps) == Some(s') && s' == s.(generations := s.generations - {g})
    decreases if g in s.generations then |s.generations[g]| else 0
  {
    var step, rest;
    if s.generations[g] == {} {
      step, rest := RemoveDirectory(g), [];
      s' := Apply(s, step);
    } else {
      var f :| f in s.generations[g];
      step := RemoveFile(g, f);
      var s1 := Apply(s, step);
      assert s1.generations - {g} == s.generations - {g};
      rest, s' := CleanGeneration(s1, g);
    }
    steps := [step] + rest;
    assert steps[1..] == rest;
  }

  /** All generations but the kept one. */
  function Others(s: State): set<Generation> {
    set g | g in s.generations && Kept(s) != Some(g)
  }

  lemma {:induction false} CleanGenerations(s: State) returns (steps: seq<Step>, s': State)
    requires Cleaning(s.pc) && Tidy(s)
    ensures Execute(s, steps) == Some(s') && s' == s.(generations := s'.generations)
    ensures forall g :: g in s'.generations <==> g in s.generations && Kept(s) == Some(g)
    ensures forall g :: g in s'.generations ==> s'.generations[g] == s.generations[g]
    decreases |Others(s)|
  {
    if Others(s) == {} {
      steps, s' := [], s;
      assert forall g :: g in s.generations ==> g !in Others(s);
    } else {
      var g :| g in Others(s);
      var s1, rest;
      forall f | f in s.generations[g] ensures f in {Token, Selection} {
        assert f.Token? || f.Selection? || f == Stray;
      }
      steps, s1 := CleanGeneration(s, g);
      assert Others(s1) == Others(s) - {g};
      rest, s' := CleanGenerations(s1);
      ExecuteAppend(s, steps, s1, rest);
      steps := steps + rest;
    }
  }

  /** Cleaning completes, and spares the kept generation. */
  lemma Clean(s: State) returns (steps: seq<Step>, s': State)
    requires Cleaning(s.pc) && Tidy(s)
    ensures Execute(s, steps) == Some(s') && s' == s.(links := {}, generations := s'.generations)
    ensures forall g :: g in s'.generations <==> g in s.generations && Kept(s) == Some(g)
    ensures forall g :: g in s'.generations ==> s'.generations[g] == s.generations[g]
  {
    var s1, rest;
    steps, s1 := CleanLinks(s);
    rest, s' := CleanGenerations(s1);
    ExecuteAppend(s, steps, s1, rest);
    steps := steps + rest;
  }

  /** An undisturbed publication can be brought to its return. */
  ghost predicate CanPublish(s: State) {
    exists steps :: Execute(s, steps).Some? && Execute(s, steps).value.pc.CleaningAfter? && Enabled(Execute(s, steps).value, Return)
  }

  /** An undisturbed tear-down can be brought to its end. */
  ghost predicate CanTearDown(s: State) {
    exists steps :: Execute(s, steps).Some? && Enabled(Execute(s, steps).value, TornDown)
  }

  /** From a clean directory to the recorded swap. */
  lemma WriteGeneration(s: State, g: Generation) returns (steps: seq<Step>, s': State)
    requires s.pc.Ready? && g !in s.generations && s.links == {} && Tidy(s)
    ensures Execute(s, steps) == Some(s') && s'.pc == Published(g) && Tidy(s') && s'.links == {}
  {
    var s1 := Apply(s, MakeDirectory(g));
    Then(s, [], s, MakeDirectory(g));
    var s2 := Apply(s1, StartWrite(Token));
    Then(s, [] + [MakeDirectory(g)], s1, StartWrite(Token));
    var s3 := Apply(s2, EndWrite);
    steps := [] + [MakeDirectory(g)] + [StartWrite(Token)];
    Then(s, steps, s2, EndWrite);
    steps := steps + [EndWrite];
    var rest;
    rest, s' := SelectGeneration(s3, g);
    ExecuteAppend(s, steps, s3, rest);
    steps := steps + rest;
  }

  lemma SelectGeneration(s: State, g: Generation) returns (steps: seq<Step>, s': State)
    requires s.pc == Written(g) && g in s.generations && s.links == {} && Tidy(s)
    ensures Execute(s, steps) == Some(s') && s'.pc == Published(g) && Tidy(s') && s'.links == {}
  {
    var s1 := Apply(s, StartWrite(Selection));
    Then(s, [], s, StartWrite(Selection));
    var s2 := Apply(s1, EndWrite);
    Then(s, [] + [StartWrite(Selection)], s1, EndWrite);
    steps := [] + [StartWrite(Selection)] + [EndWrite];
    Then(s, steps, s2, Link(0));
    var s3 := Apply(s2, Link(0));
    steps := steps + [Link(0)];
    Then(s, steps, s3, Swap);
    var s4 := Apply(s3, Swap);
    steps := steps + [Swap];
    Then(s, steps, s4, Flag);
    steps, s' := steps + [Flag], Apply(s4, Flag);
  }

  lemma Finish(s: State, g: Generation) returns (steps: seq<Step>, s': State)
    requires s.pc == Published(g) && Tidy(s)
    ensures Execute(s, steps) == Some(s') && s'.pc.CleaningAfter? && Enabled(s', Return)
  {
    var s1, rest;
    steps, s1 := CleanLegacy(s);
    Then(s, steps, s1, Return);
    var s2 := Apply(s1, Return);
    steps := steps + [Return];
    rest, s' := Clean(s2);
    ExecuteAppend(s, steps, s2, rest);
    steps := steps + rest;
  }

  lemma PublicationCompletes(s: State)
    requires s.pc.Idle? && SelectorOk(s) && Tidy(s)
    ensures CanPublish(s)
  {
    Then(s, [], s, Begin);
    var s1 := Apply(s, Begin);
    var steps, rest, s2 := [] + [Begin], [], s1;
    rest, s2 := Clean(s1);
    ExecuteAppend(s, steps, s1, rest);
    steps := steps + rest;
    Then(s, steps, s2, CleanedBefore);
    var s3 := Apply(s2, CleanedBefore);
    steps := steps + [CleanedBefore];
    var g, s4, s5 := if s.selector == Some(0) then 1 else 0, s3, s3;
    rest, s4 := WriteGeneration(s3, g);
    ExecuteAppend(s, steps, s3, rest);
    steps := steps + rest;
    rest, s5 := Finish(s4, g);
    ExecuteAppend(s, steps, s4, rest);
    steps := steps + rest;
  }

  lemma TearDownCompletes(s: State)
    requires s.pc.Idle? && SelectorOk(s) && Tidy(s)
    ensures CanTearDown(s)
  {
    Then(s, [], s, TearDown);
    var s1 := Apply(s, TearDown);
    var steps, rest, s2, s3 := [] + [TearDown], [], s1, s1;
    rest, s2 := CleanLegacy(s1);
    ExecuteAppend(s, steps, s1, rest);
    steps := steps + rest;
    rest, s3 := Clean(s2);
    ExecuteAppend(s, steps, s2, rest);
    steps := steps + rest;
    assert s3.generations == map[];
  }

  lemma {:induction false} LitterBlocks(s: State, steps: seq<Step>, g: Generation)
    requires Littered(s, g) && Execute(s, steps).Some?
    ensures Littered(Execute(s, steps).value, g)
    decreases |steps|
  {
    if steps != [] {
      LitterStays(s, steps[0], g);
      LitterBlocks(Apply(s, steps[0]), steps[1..], g);
    }
  }

  /** A publication that fails before its swap can be undone to the end: its generation is gone, and everything else is
      as the handler found it. */
  lemma FailureIsUndone(trace: seq<State>, steps: seq<Step>, i: nat) returns (more: seq<Step>, s': State)
    requires Run(trace, steps) && Synchronous(trace, steps) && i < |trace| && trace[i].pc.Undoing?
    ensures Execute(trace[i], more) == Some(s')
    ensures s' == trace[i].(generations := trace[i].generations - {trace[i].pc.g}, pc := Idle)
  {
    var s, g := trace[i], trace[i].pc.g;
    SelectorAtomicity(trace, steps, i);
    more, s' := [], s;
    if g in s.generations {
      forall f | f in s.generations[g] ensures f in {Token, Selection} {
        assert f.Token? || f.Selection? || f == Stray;
      }
      more, s' := CleanGeneration(s, g);
    }
    Then(s, more, s', Undone);
    more, s' := more + [Undone], Apply(s', Undone);
  }

  /** Exactly when a later attempt can succeed: wherever a run stands idle, an undisturbed publication, and
      likewise a tear-down, can complete if and only if no generation holds a temporary file. */
  lemma CompletesIfTidy(trace: seq<State>, steps: seq<Step>, i: nat)
    requires Run(trace, steps) && Synchronous(trace, steps) && i < |trace| && trace[i].pc.Idle?
    ensures CanPublish(trace[i]) <==> Tidy(trace[i])
    ensures CanTearDown(trace[i]) <==> Tidy(trace[i])
  {
    var s := trace[i];
    SelectorAtomicity(trace, steps, i);
    if Tidy(s) {
      PublicationCompletes(s);
      TearDownCompletes(s);
    } else {
      var g :| g in s.generations && Stray in s.generations[g];
      forall more | Execute(s, more).Some?
        ensures !Execute(s, more).value.pc.CleaningAfter? && !Enabled(Execute(s, more).value, TornDown)
      {
        LitterBlocks(s, more, g);
      }
    }
  }

  /** So a run without a crash inside a write can always publish and tear down again. */
  lemma CrashFreeRunCompletes(trace: seq<State>, steps: seq<Step>, i: nat)
    requires Run(trace, steps) && Synchronous(trace, steps) && i < |trace| && trace[i].pc.Idle?
    requires forall k :: 0 <= k < i && trace[k].pc.Writing? ==> !steps[k].Crash?
    ensures CanPublish(trace[i]) && CanTearDown(trace[i])
  {
    RunStaysTidy(trace, steps, i);
    CompletesIfTidy(trace, steps, i);
  }
}
