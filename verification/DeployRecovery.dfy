/**
 The deployment journal of `deploy/oci/runtime-reconciler.py`, the pointer commit of
 `deploy/oci/hydrate-vault-secrets.py` and the recovery of the watchdog.

 `Host` is the durable state: the release tree, the `current` pointer and the pending journal.  Each
 rename, pointer swap and journal write is one atomic step.  The deploying process may die after any
 step; from then on only the watchdog, which needs the deploy lock, acts on the transaction.
 */
module DeployRecovery {
  import opened Common

  type Release = nat

  /** The thirteen phases, by their index in PHASES. */
  type Phase = p: nat | p < 13
  const PREPARED: Phase := 0
  const PUBLISHING: Phase := 8
  const RELEASE_PUBLISHED: Phase := 9
  const POINTER_COMMITTING: Phase := 10
  const POINTER_COMMITTED: Phase := 11

  datatype Journal = Journal(release: Release, previous: Option<Release>, phase: Phase)

  /** `deploying` says that the process holding the deploy lock for the journal is still alive. */
  datatype Host = Host(
    pending: set<Release>, finals: set<Release>, quarantine: seq<Release>,
    current: Option<Release>, journal: Option<Journal>, deploying: bool)

  datatype Step =
    | Stage(r: Release)        // build a pending release; the final name is checked to be free
    | Discard(r: Release)      // quarantine a leftover from before its journal existed
    | Create(r: Release)
    | Advance
    | Publish
    | CommitPointer
    | ArchiveCommitted
    | Die                      // crash or kill of the deploying process
    | Quarantine               // first half of a rollback or recovery
    | ArchiveRecovered         // second half

  /** The release a rollback or recovery moves away: whichever of the journal's two paths exists and
      is not current. */
  function Selected(h: Host): Option<(bool, Release)>
    requires h.journal.Some?
  {
    var r := h.journal.value.release;
    if r in h.pending then Some((true, r))
    else if r in h.finals && h.current != Some(r) then Some((false, r))
    else None
  }

  /** The artifact a journal demands at a phase. */
  predicate HasArtifact(h: Host, r: Release, phase: Phase) {
    if phase < RELEASE_PUBLISHED then r in h.pending else r in h.finals
  }

  predicate Enabled(h: Host, step: Step) {
    match step
    case Stage(r) => h.journal.None? && r !in h.pending && r !in h.finals
    case Discard(r) => h.journal.None? && r in h.pending
    case Create(r) => h.journal.None? && r in h.pending && r !in h.finals
    case Advance =>
      && h.journal.Some? && h.deploying && h.journal.value.phase + 1 < 13
      // deploy.sh records pointer-committed only after it has seen the swapped pointer
      && (h.journal.value.phase == POINTER_COMMITTING ==> h.current == Some(h.journal.value.release))
      && HasArtifact(h, h.journal.value.release, h.journal.value.phase + 1)
    case Publish =>
      && h.journal.Some? && h.deploying && h.journal.value.phase == PUBLISHING
      && h.journal.value.release in h.pending && h.journal.value.release !in h.finals
    case CommitPointer =>
      h.journal.Some? && h.deploying && h.journal.value.phase == POINTER_COMMITTING && h.journal.value.release in h.finals
    case ArchiveCommitted => h.journal.Some? && h.deploying && h.journal.value.phase == POINTER_COMMITTED
    case Die => h.journal.Some?
    case Quarantine => h.journal.Some?
    case ArchiveRecovered => h.journal.Some? && !h.deploying && Selected(h).None?
  }

  function Apply(h: Host, step: Step): Host
    requires Enabled(h, step)
  {
    match step
    case Stage(r) => h.(pending := h.pending + {r})
    case Discard(r) => h.(pending := h.pending - {r}, quarantine := h.quarantine + [r])
    case Create(r) => h.(journal := Some(Journal(r, h.current, PREPARED)), deploying := true)
    case Advance => h.(journal := Some(h.journal.value.(phase := h.journal.value.phase + 1)))
    case Publish =>
      h.(pending := h.pending - {h.journal.value.release}, finals := h.finals + {h.journal.value.release})
    case CommitPointer => h.(current := Some(h.journal.value.release))
    case ArchiveCommitted => h.(journal := None, deploying := false)
    case Die => h.(deploying := false)
    case Quarantine =>
      if Selected(h).None? then h.(deploying := false)
      else
        var (inPending, r) := Selected(h).value;
        h.(deploying := false, quarantine := h.quarantine + [r],
           pending := if inPending then h.pending - {r} else h.pending,
           finals := if inPending then h.finals else h.finals - {r})
    case ArchiveRecovered => h.(journal := None)
  }

  predicate Init(h: Host) {
    h.pending !! h.finals && h.journal.None? && !h.deploying && (h.current.Some? ==> h.current.value in h.finals)
  }

  ghost predicate Run(trace: seq<Host>, steps: seq<Step>) {
    && |trace| == |steps| + 1
    && Init(trace[0])
    && forall i :: 0 <= i < |steps| ==> Enabled(trace[i], steps[i]) && trace[i + 1] == Apply(trace[i], steps[i])
  }

  // ---------------------------------------------------------------- invariant

  /** The journal's artifact is in exactly one of its two places, as its phase says; once recovery has
      begun it may also be gone. */
  predicate ArtifactOk(h: Host, j: Journal) {
    && !(j.release in h.pending && j.release in h.finals)
    && (j.release in h.pending ==> j.phase <= PUBLISHING)
    && (j.release in h.finals ==> PUBLISHING <= j.phase)
    && (h.deploying ==> j.release in h.pending || j.release in h.finals)
  }

  predicate Inv(h: Host) {
    && h.pending !! h.finals
    && (h.current.Some? ==> h.current.value in h.finals)
    && (h.journal.Some? ==>
          var j := h.journal.value;
          && ArtifactOk(h, j)
          && j.previous != Some(j.release)
          // the pointer is the previous one, or the new release after the swap
          && (h.current == j.previous || (h.current == Some(j.release) && POINTER_COMMITTING <= j.phase))
          && (POINTER_COMMITTED <= j.phase ==> h.current == Some(j.release))
          // an artifact that left both places was quarantined, never deleted
          && (j.release in h.pending || j.release in h.finals || j.release in h.quarantine))
  }

  lemma StepKeepsInvariant(h: Host, step: Step)
    requires Inv(h) && Enabled(h, step)
    ensures Inv(Apply(h, step))
  {
  }

  lemma {:induction false} RunKeepsInvariant(trace: seq<Host>, steps: seq<Step>, i: nat)
    requires Run(trace, steps) && i < |trace|
    ensures Inv(trace[i])
  {
    if i > 0 {
      RunKeepsInvariant(trace, steps, i - 1);
      StepKeepsInvariant(trace[i - 1], steps[i - 1]);
    }
  }

  // ---------------------------------------------------------------- results

  /** From its creation until recovery quarantines it, crashed or not, exactly one of the two paths holds a
      transaction's artifact. */
  lemma {:induction false} ExactlyOnePlace(trace: seq<Host>, steps: seq<Step>, i: nat, j: nat)
    requires Run(trace, steps) && i < j < |trace| && steps[i].Create?
    requires forall k :: i < k <= j ==> trace[k].journal.Some?
    requires forall k :: i < k < j ==> !steps[k].Quarantine?
    ensures trace[j].journal.value.release == steps[i].r
    ensures (steps[i].r in trace[j].pending) != (steps[i].r in trace[j].finals)
  {
    if j > i + 1 {
      ExactlyOnePlace(trace, steps, i, j - 1);
    }
  }

  /** A transaction's identity is fixed and its phase moves by single steps, over any stretch of a run
      on which it stays open. */
  lemma {:induction false} PhasesAreConsecutive(trace: seq<Host>, steps: seq<Step>, i: nat, j: nat, p: nat)
    requires Run(trace, steps) && i <= j < |trace|
    requires forall k :: i <= k <= j ==> trace[k].journal.Some?
    requires trace[i].journal.value.phase <= p <= trace[j].journal.value.phase
    ensures trace[i].journal.value.release == trace[j].journal.value.release
    ensures trace[i].journal.value.previous == trace[j].journal.value.previous
    ensures trace[i].journal.value.phase <= trace[j].journal.value.phase <= trace[i].journal.value.phase + (j - i)
    ensures exists k :: i <= k <= j && trace[k].journal.value.phase == p
  {
    if i < j {
      if p <= trace[j - 1].journal.value.phase {
        PhasesAreConsecutive(trace, steps, i, j - 1, p);
      } else {
        PhaseGrows(trace, steps, i, j - 1);
        assert trace[j].journal.value.phase == p;
      }
    } else {
      assert trace[i].journal.value.phase == p;
    }
  }

  lemma {:induction false} PhaseGrows(trace: seq<Host>, steps: seq<Step>, i: nat, j: nat)
    requires Run(trace, steps) && i <= j < |trace|
    requires forall k :: i <= k <= j ==> trace[k].journal.Some?
    ensures trace[i].journal.value.release == trace[j].journal.value.release
    ensures trace[i].journal.value.previous == trace[j].journal.value.previous
    ensures trace[i].journal.value.phase <= trace[j].journal.value.phase <= trace[i].journal.value.phase + (j - i)
  {
    if i < j {
      PhaseGrows(trace, steps, i, j - 1);
    }
  }

  /** Recovery never moves the release that `current` selects, nor any release but the journal's. */
  lemma RecoverySparesCurrent(trace: seq<Host>, steps: seq<Step>, i: nat)
    requires Run(trace, steps) && i < |steps| && (steps[i].Quarantine? || steps[i].ArchiveRecovered?)
    ensures trace[i + 1].current == trace[i].current
    ensures trace[i].current.Some? ==> trace[i + 1].current.value in trace[i + 1].finals
    ensures trace[i].finals - {trace[i].journal.value.release} <= trace[i + 1].finals <= trace[i].finals
  {
    RunKeepsInvariant(trace, steps, i);
  }

  /** A completed recovery keeps the new release exactly when the pointer had already been swapped;
      otherwise the release is in quarantine and the previous release is still selected. */
  lemma RecoveryOutcome(trace: seq<Host>, steps: seq<Step>, i: nat)
    requires Run(trace, steps) && i < |steps| && steps[i].ArchiveRecovered?
    ensures var j, h := trace[i].journal.value, trace[i + 1];
      && j.release !in h.pending
      && (j.release in h.finals <==> h.current == Some(j.release))
      && (j.release !in h.finals <==> h.current == j.previous)
      && (j.release !in h.finals ==> j.release in h.quarantine)
  {
    RunKeepsInvariant(trace, steps, i);
  }

  /** A committed archive is written only for the selected release. */
  lemma CommittedIsSelected(trace: seq<Host>, steps: seq<Step>, i: nat)
    requires Run(trace, steps) && i < |steps| && steps[i].ArchiveCommitted?
    ensures trace[i + 1].current == Some(trace[i].journal.value.release)
    ensures trace[i].journal.value.release in trace[i + 1].finals
  {
    RunKeepsInvariant(trace, steps, i);
  }

  /** From every state with an open transaction, one watchdog pass completes, and repeating its first
      half changes nothing (a power loss between the halves is harmless). */
  lemma RecoveryCompletes(h: Host)
    requires Inv(h) && h.journal.Some?
    ensures Enabled(h, Quarantine)
    ensures var q := Apply(h, Quarantine);
      Enabled(q, ArchiveRecovered) && Apply(q, Quarantine) == q && Apply(q, ArchiveRecovered).journal.None?
  {
  }

  /** Only the commit moves the pointer, and it selects the journal's release, which is in place. */
  lemma CommitMovesPointer(trace: seq<Host>, steps: seq<Step>, i: nat)
    requires Run(trace, steps) && i < |steps|
    ensures steps[i].CommitPointer? ==>
      && trace[i].journal.Some? && trace[i + 1].current == Some(trace[i].journal.value.release)
      && trace[i].journal.value.release in trace[i + 1].finals
    ensures !steps[i].CommitPointer? ==> trace[i + 1].current == trace[i].current
  {
    RunKeepsInvariant(trace, steps, i);
  }

  // ---------------------------------------------------------------- a living deployment can commit

  /** The host after the deploying process's own steps in order, or None when one of them cannot be taken. */
  function Execute(h: Host, steps: seq<Step>): Option<Host>
    decreases |steps|
  {
    if steps == [] then Some(h)
    else if Enabled(h, steps[0]) && (steps[0].Advance? || steps[0].Publish? || steps[0].CommitPointer?)
    then Execute(Apply(h, steps[0]), steps[1..])
    else None
  }

  /** What the deploying process does next. */
  function NextStep(h: Host): Step
    requires h.journal.Some?
  {
    var j := h.journal.value;
    if j.phase == PUBLISHING && j.release in h.pending then Publish
    else if j.phase == POINTER_COMMITTING && h.current != Some(j.release) then CommitPointer
    else Advance
  }

  /** The steps still to go. */
  function Distance(h: Host): nat
    requires h.journal.Some?
  {
    var j := h.journal.value;
    3 * (13 - j.phase) + (if j.release in h.pending then 1 else 0) + (if h.current != Some(j.release) then 1 else 0)
  }

  lemma NextStepAdvances(h: Host)
    requires Inv(h) && h.journal.Some? && h.deploying && h.journal.value.phase < POINTER_COMMITTED
    ensures Enabled(h, NextStep(h))
    ensures var h' := Apply(h, NextStep(h));
      && Inv(h') && h'.journal.Some? && h'.deploying && h'.journal.value.phase <= POINTER_COMMITTED
      && h'.journal.value.release == h.journal.value.release && Distance(h') < Distance(h)
  {
    StepKeepsInvariant(h, NextStep(h));
  }

  /** Completion: with its process alive and undisturbed, every open transaction that has not passed
      pointer-committed reaches a committed archive with its own release in place and selected. */
  lemma {:induction false} DeploymentCompletes(h: Host) returns (steps: seq<Step>, h': Host)
    requires Inv(h) && h.journal.Some? && h.deploying && h.journal.value.phase <= POINTER_COMMITTED
    ensures Execute(h, steps) == Some(h') && Enabled(h', ArchiveCommitted)
    ensures h'.current == Some(h.journal.value.release) && h.journal.value.release in h'.finals
    ensures Apply(h', ArchiveCommitted).journal.None? && Apply(h', ArchiveCommitted).current == Some(h.journal.value.release)
    decreases Distance(h)
  {
    if h.journal.value.phase == POINTER_COMMITTED {
      steps, h' := [], h;
    } else {
      NextStepAdvances(h);
      var rest;
      rest, h' := DeploymentCompletes(Apply(h, NextStep(h)));
      steps := [NextStep(h)] + rest;
      assert steps[1..] == rest;
    }
  }

  /** A transaction recorded as committed can no longer be archived as such: only recovery ends it. */
  lemma {:induction false} CommittedPhaseIsFinal(h: Host, steps: seq<Step>)
    requires h.journal.Some? && h.journal.value.phase > POINTER_COMMITTED && Execute(h, steps).Some?
    ensures steps == [] && !Enabled(h, ArchiveCommitted)
  {
  }

  /** Over every run: a living deployment can commit if and only if its phase has not passed pointer-committed. */
  lemma CommitReachable(trace: seq<Host>, steps: seq<Step>, i: nat)
    requires Run(trace, steps) && i < |trace| && trace[i].journal.Some? && trace[i].deploying
    ensures (exists more :: Execute(trace[i], more).Some? && Enabled(Execute(trace[i], more).value, ArchiveCommitted)) <==>
      trace[i].journal.value.phase <= POINTER_COMMITTED
  {
    RunKeepsInvariant(trace, steps, i);
    if trace[i].journal.value.phase <= POINTER_COMMITTED {
      var more, h' := DeploymentCompletes(trace[i]);
    } else {
      forall more | Execute(trace[i], more).Some? ensures !Enabled(Execute(trace[i], more).value, ArchiveCommitted) {
        CommittedPhaseIsFinal(trace[i], more);
      }
    }
  }

  function Artifacts(h: Host): nat {
    |h.pending| + |h.finals| + |h.quarantine|
  }

  /** No step deletes a release directory; only staging adds one. */
  lemma ArtifactsConserved(h: Host, step: Step)
    requires Inv(h) && Enabled(h, step)
    ensures Artifacts(Apply(h, step)) == Artifacts(h) + if step.Stage? then 1 else 0
  {
  }

  // ---------------------------------------------------------------- the controller's commands

  datatype Outcome = Quiet | Recovered | RecoveredNoCurrent

  /** The commands as the reconciler runs them.  `View` is the host they act on; a refused command
      returns Err and changes nothing. */
  class Reconciler {
    var pending: set<Release>
    var finals: set<Release>
    var quarantine: seq<Release>
    var current: Option<Release>
    var journal: Option<Journal>
    var deploying: bool

    ghost function View(): Host
      reads this
    {
      Host(pending, finals, quarantine, current, journal, deploying)
    }

    /** `create_journal`; with the final name free, as deploy.sh makes sure, it is the model's Create. */
    method CreateJournal(candidate: Release, previous: Option<Release>) returns (r: Result<Journal>)
      modifies `journal, `deploying
      ensures r.Ok? <==> old(journal).None? && candidate in pending && previous == current
      ensures r.Ok? ==> r.value == Journal(candidate, current, PREPARED) && View() == old(View()).(journal := Some(r.value), deploying := true)
      ensures r.Ok? && candidate !in finals ==> Enabled(old(View()), Create(candidate)) && View() == Apply(old(View()), Create(candidate))
      ensures r.Err? ==> View() == old(View())
    {
      if journal.Some? || candidate !in pending || previous != current {
        return Err;
      }
      var document := Journal(candidate, previous, PREPARED);
      journal, deploying := Some(document), true;
      return Ok(document);
    }

    /** `update_journal_phase`; with the pointer swapped before pointer-committed, as deploy.sh makes sure, it is
        the model's Advance. */
    method UpdateJournalPhase(phase: Phase) returns (r: Result<Journal>)
      modifies `journal
      ensures r.Ok? <==> old(journal).Some? && phase == old(journal).value.phase + 1 && HasArtifact(View(), old(journal).value.release, phase)
      ensures r.Ok? ==> r.value == old(journal).value.(phase := phase) && View() == old(View()).(journal := Some(r.value))
      ensures r.Ok? && deploying && (phase == POINTER_COMMITTED ==> current == Some(r.value.release)) ==>
        Enabled(old(View()), Advance) && View() == Apply(old(View()), Advance)
      ensures r.Err? ==> View() == old(View())
    {
      if journal.None? || phase != journal.value.phase + 1 {
        return Err;
      }
      var document := journal.value.(phase := phase);
      if (phase < RELEASE_PUBLISHED && document.release !in pending) || (phase >= RELEASE_PUBLISHED && document.release !in finals) {
        return Err;
      }
      journal := Some(document);
      return Ok(document);
    }

    method PublishPendingRelease(candidate: Release) returns (r: Result<Release>)
      requires Inv(View()) && deploying
      modifies `pending, `finals
      ensures r.Ok? <==>
        old(journal).Some? && journal.value.phase == PUBLISHING && journal.value.release == candidate
        && candidate in old(pending) && candidate !in old(finals)
      ensures r.Ok? ==> Enabled(old(View()), Publish) && View() == Apply(old(View()), Publish)
      ensures r.Err? ==> View() == old(View())
    {
      if journal.None? || journal.value.phase != PUBLISHING || journal.value.release != candidate
        || candidate !in pending || candidate in finals
      {
        return Err;
      }
      pending, finals := pending - {candidate}, finals + {candidate};
      return Ok(candidate);
    }

    /** `_quarantine_journal_artifact`: the loop over the two candidate paths. */
    method QuarantineJournalArtifact()
      requires Inv(View()) && journal.Some?
      modifies `pending, `finals, `quarantine, `deploying
      ensures View() == Apply(old(View()), Quarantine)
    {
      deploying := false;
      var release := journal.value.release;
      var selected: Option<bool> := None;
      var i := 0;
      while i < 2 && selected.None?
        invariant 0 <= i <= 2
        invariant selected.None? ==> (i > 0 ==> release !in pending) && (i > 1 ==> !(release in finals && current != Some(release)))
        invariant selected.Some? ==>
          if selected.value then release in pending else release !in pending && release in finals && current != Some(release)
      {
        var exists' := if i == 0 then release in pending else release in finals;
        var isCurrent := i == 1 && current == Some(release);
        if exists' && !isCurrent {
          selected := Some(i == 0);
        }
        i := i + 1;
      }
      if selected.Some? {
        if selected.value {
          pending := pending - {release};
        } else {
          finals := finals - {release};
        }
        quarantine := quarantine + [release];
      }
    }

    /** `archive_journal`; a committed outcome needs the pointer-committed phase, any other quarantines first. */
    method ArchiveJournal(committed: bool) returns (r: Result<Release>)
      requires Inv(View()) && (committed ==> deploying)
      modifies this
      ensures r.Ok? <==> old(journal).Some? && (committed ==> old(journal).value.phase == POINTER_COMMITTED)
      ensures r.Err? ==> View() == old(View())
      ensures r.Ok? && committed ==> View() == Apply(old(View()), ArchiveCommitted)
      ensures r.Ok? && !committed ==>
        && Enabled(Apply(old(View()), Quarantine), ArchiveRecovered)
        && View() == Apply(Apply(old(View()), Quarantine), ArchiveRecovered)
    {
      if journal.None? || (committed && journal.value.phase != POINTER_COMMITTED) {
        return Err;
      }
      var release := journal.value.release;
      if !committed {
        RecoveryCompletes(View());
        QuarantineJournalArtifact();
      }
      journal, deploying := None, false;
      return Ok(release);
    }

    /** `watchdog` with the lock free: an open transaction is recovered once the runtime of the selected
        release is reconciled (`reconciled`), or at once when nothing is selected. */
    method Watchdog(reconciled: bool) returns (r: Result<Outcome>)
      requires Inv(View()) && !deploying
      modifies this
      ensures Inv(View()) && current == old(current)
      ensures r.Err? ==> View() == old(View())
      ensures r.Err? <==> !reconciled && (old(journal).None? || current.Some?)
      ensures r.Ok? ==> r.value == if old(journal).None? then Quiet else if current.None? then RecoveredNoCurrent else Recovered
      ensures r.Ok? && old(journal).Some? ==> View() == Apply(Apply(old(View()), Quarantine), ArchiveRecovered)
    {
      if journal.None? {
        return if reconciled then Ok(Quiet) else Err;
      }
      StepKeepsInvariant(View(), Quarantine);
      RecoveryCompletes(View());
      StepKeepsInvariant(Apply(View(), Quarantine), ArchiveRecovered);
      if current.None? {
        var _ := ArchiveJournal(false);
        return Ok(RecoveredNoCurrent);
      }
      if !reconciled {
        return Err;
      }
      var _ := ArchiveJournal(false);
      return Ok(Recovered);
    }
  }
}
