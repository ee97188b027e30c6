/**
 The one-way route transfer of `deploy/oci/cloudflare-promote.py`.

 The controller is a program over remote state (firewall rule, two tunnels, two DNS records) and
 durable local state (gate marker, gate journal, topology record, promotion journal).  It is the
 sole writer of all of them.  Each remote write and each durable write is one step; a process crash
 or an exception may come between any two steps, and a DNS batch may apply any subset of its records.
 Reads, probes and their failures are folded into the next step and into the exception event.
 */
module RouteTransfer {
  import opened Common

  // ---------------------------------------------------------------- the world

  datatype Rule = Disabled | BlockAll | Exception

  datatype Config = Reviewed | Transferred

  /** A tunnel's configuration and its version.  For the old tunnel `Reviewed` still serves the
      production hosts and `Transferred` does not; for the candidate it is the other way round. */
  datatype Tunnel = Tunnel(config: Config, version: int)

  datatype Gate = Open | Closed

  /** The gate's own journal.  `bound` says that it carries this transfer's authority. */
  datatype GateJournal = Stable(gate: Gate, bound: bool) | Moving

  datatype Topology = Missing | PreCutover | OciLive

  datatype Mutation =
    | WafBlockAll | GateClose | OldRetire | CandidateLive | DnsCandidate
    | WafException | GateOpen | WafDisable | TopologyLive

  datatype Probe = BlockAllProbe | ClosedEdgeProbe | PublicValidation

  datatype Phase =
    | Prepared | Before(m: Mutation) | After(m: Mutation)
    | BeforeProbe(p: Probe) | AfterProbe(p: Probe) | Promoted

  datatype Op = BeforeOp(m: Mutation) | AfterOp(m: Mutation) | Terminal

  /** The journal's `write_history`, oldest entry innermost. */
  datatype History = Empty | Entry(earlier: History, op: Op)

  predicate Recorded(h: History, op: Op) {
    h.Entry? && (h.op == op || Recorded(h.earlier, op))
  }

  datatype Journal = Journal(phase: Phase, history: History, oldLive: Option<int>, candidateLive: Option<int>)

  datatype World = World(
    rule: Rule, oldTunnel: Tunnel, candidate: Tunnel, dns0: bool, dns1: bool,  // dns: points at the candidate
    gate: Gate, gateJournal: GateJournal, topology: Topology, journal: Option<Journal>)

  /** The config versions named in the reviewed request. */
  datatype Plan = Plan(oldVersion: nat, candidateVersion: nat)

  predicate FinalRoutes(w: World) {
    w.oldTunnel.config.Transferred? && w.candidate.config.Transferred? && w.dns0 && w.dns1
  }

  predicate OriginalRoutes(w: World) {
    w.oldTunnel.config.Reviewed? && w.candidate.config.Reviewed? && !w.dns0 && !w.dns1
  }

  // ---------------------------------------------------------------- the controller

  datatype Pc =
    | Idle | Enter | WritePrepared | Forward | Late
    | BeforeM(m: Mutation) | Effect(m: Mutation) | GateFlip(m: Mutation) | GateSettle(m: Mutation)
    | AfterM(m: Mutation) | Reconcile(m: Mutation)
    | BeforeProbing(p: Probe) | Probing(p: Probe)
    | ResumeStable | ResumeValidate
    | CloseDispatch | ClosedStable | ClosedMark
    | Transfer | RetireDispatch | LiveDispatch | DnsDispatch | RuleDispatch | GateDispatch | ValidateClosed
    | Unfreeze | WriteTerminal
    | FinishValidate | FinishMark | FinishTopology
    | Done
    | RefuseWrite | RefuseFlip | RefuseSettle
    | Handler | HandlerWrite | HandlerFlip | HandlerSettle

  /** `mem` is the in-memory copy of the journal, `resume` the local flag `gate_open_resume`. */
  datatype State = State(w: World, pc: Pc, mem: Journal, resume: bool)

  predicate AfterUnfreeze(phase: Phase) {
    (phase.Before? || phase.After?) && (phase.m.WafDisable? || phase.m.TopologyLive?)
  }

  predicate Unblocked(phase: Phase) {
    phase.Prepared? || (phase.Before? && phase.m.WafBlockAll?)
  }

  predicate LateOpen(phase: Phase) {
    || ((phase.Before? || phase.After?) && phase.m.GateOpen?)
    || ((phase.BeforeProbe? || phase.AfterProbe?) && phase.p.PublicValidation?)
    || (phase.Before? && phase.m.WafDisable?)
  }

  /** `validate_final_authority`. */
  predicate FinalAuthority(w: World, mem: Journal, rule: Rule, gate: Gate) {
    && w.rule == rule && FinalRoutes(w)
    && mem.oldLive == Some(w.oldTunnel.version) && mem.candidateLive == Some(w.candidate.version)
    && w.gate == gate && w.gateJournal == Stable(gate, true)
  }

  /** `checkpoint`: update the in-memory journal and write it. */
  function Checkpoint(s: State, phase: Phase, op: Option<Op>, next: Pc): State {
    var mem := s.mem.(phase := phase, history := if op.Some? then Entry(s.mem.history, op.value) else s.mem.history);
    s.(mem := mem, w := s.w.(journal := Some(mem)), pc := next)
  }

  /** The program point that follows a completed mutation. */
  function Following(m: Mutation): Pc {
    match m
    case WafBlockAll => Late
    case GateClose => Transfer
    case OldRetire => LiveDispatch
    case CandidateLive => DnsDispatch
    case DnsCandidate => RuleDispatch
    case WafException => GateDispatch
    case GateOpen => BeforeProbing(PublicValidation)
    case WafDisable => BeforeM(TopologyLive)
    case TopologyLive => WriteTerminal
  }

  /** The program point that follows `reconcile_completed_mutation`. */
  function AfterReconcile(m: Mutation): Pc {
    match m
    case WafBlockAll => BeforeProbing(BlockAllProbe)
    case GateClose => ClosedMark
    case GateOpen => ResumeValidate
    case WafDisable => FinishMark
    case _ => Following(m)
  }

  function AfterProbing(p: Probe): Pc {
    match p
    case BlockAllProbe => CloseDispatch
    case ClosedEdgeProbe => ValidateClosed
    case PublicValidation => Unfreeze
  }

  predicate NeedsReconcile(mem: Journal, m: Mutation) {
    Recorded(mem.history, BeforeOp(m)) && !Recorded(mem.history, AfterOp(m))
  }

  /** The write at the heart of each mutation, with the checks made on the way. */
  function ApplyEffect(s: State, m: Mutation, plan: Plan): State {
    var w := s.w;
    match m
    case WafBlockAll =>
      if w.rule.Disabled? then s.(w := w.(rule := BlockAll), pc := AfterM(m)) else s.(pc := Handler)
    case WafException =>
      if w.rule.BlockAll? then s.(w := w.(rule := Exception), pc := AfterM(m)) else s.(pc := Handler)
    case WafDisable =>
      if w.rule.Exception? then s.(w := w.(rule := Disabled), pc := AfterM(m)) else s.(pc := Handler)
    case OldRetire =>
      if w.oldTunnel.config.Reviewed? && w.oldTunnel.version != plan.oldVersion then s.(pc := Handler)
      else
        var t := if w.oldTunnel.config.Reviewed? then Tunnel(Transferred, w.oldTunnel.version + 1) else w.oldTunnel;
        s.(w := w.(oldTunnel := t), mem := s.mem.(oldLive := Some(t.version)), pc := AfterM(m))
    case CandidateLive =>
      if w.candidate.config.Reviewed? && w.candidate.version != plan.candidateVersion then s.(pc := Handler)
      else
        var t := if w.candidate.config.Reviewed? then Tunnel(Transferred, w.candidate.version + 1) else w.candidate;
        s.(w := w.(candidate := t), mem := s.mem.(candidateLive := Some(t.version)), pc := AfterM(m))
    case DnsCandidate => s.(w := w.(dns0 := true, dns1 := true), pc := AfterM(m))
    case TopologyLive =>
      if w.topology.PreCutover? then s.(w := w.(topology := OciLive), pc := AfterM(m)) else s.(pc := Handler)
    case GateClose =>
      if w.gate.Closed? then s.(pc := GateSettle(m)) else s.(w := w.(gateJournal := Moving), pc := GateFlip(m))
    case GateOpen =>
      if w.gate.Open? then s.(pc := GateSettle(m)) else s.(w := w.(gateJournal := Moving), pc := GateFlip(m))
  }

  function GateTarget(m: Mutation): Gate {
    if m.GateOpen? then Open else Closed
  }

  /** One normal step of the controller: the next write, or the exception the next check raises. */
  function Advance(s: State, plan: Plan): State {
    var w := s.w;
    match s.pc
    case Idle => s.(pc := Enter)
    case Enter =>
      if w.journal.Some? then s.(mem := w.journal.value, pc := Forward, resume := false)
      else if && w.rule.Disabled? && OriginalRoutes(w)
              && w.oldTunnel.version == plan.oldVersion && w.candidate.version == plan.candidateVersion
              && w.gateJournal.Stable? && w.gateJournal.gate == w.gate && !w.topology.OciLive?
      then s.(w := w.(topology := PreCutover), pc := WritePrepared, resume := false)
      else s.(pc := Idle)
    case WritePrepared =>
      var mem := Journal(Prepared, Empty, None, None);
      s.(mem := mem, w := w.(journal := Some(mem)), pc := Forward)
    case Forward =>
      if s.mem.phase.Promoted? then
        if w.topology.OciLive? && FinalAuthority(w, s.mem, Disabled, Open) then s.(pc := Done) else s.(pc := Handler)
      else if w.rule.Disabled? then
        if AfterUnfreeze(s.mem.phase) then s.(pc := FinishValidate)
        else if Unblocked(s.mem.phase) then s.(pc := BeforeM(WafBlockAll))
        else if w.gate.Open? then s.(pc := RefuseWrite) else s.(pc := Handler)
      else s.(pc := Late)
    case Late =>
      if w.rule.Exception? && w.gate.Open? && LateOpen(s.mem.phase) then s.(resume := true, pc := ResumeStable)
      else if w.gate.Open? && !w.rule.BlockAll? then s.(pc := RefuseWrite)
      else if w.rule.BlockAll? then s.(pc := Reconcile(WafBlockAll))
      else if w.rule.Exception? then s.(pc := Transfer)
      else s.(pc := Handler)
    case BeforeM(m) => Checkpoint(s, Before(m), Some(BeforeOp(m)), Effect(m))
    case Effect(m) => ApplyEffect(s, m, plan)
    case GateFlip(m) => s.(w := w.(gate := GateTarget(m)), pc := GateSettle(m))
    case GateSettle(m) => s.(w := w.(gateJournal := Stable(GateTarget(m), true)), pc := AfterM(m))
    case AfterM(m) => Checkpoint(s, After(m), Some(AfterOp(m)), Following(m))
    case Reconcile(m) =>
      if NeedsReconcile(s.mem, m) then Checkpoint(s, After(m), Some(AfterOp(m)), AfterReconcile(m))
      else s.(pc := AfterReconcile(m))
    case BeforeProbing(p) => Checkpoint(s, BeforeProbe(p), None, Probing(p))
    case Probing(p) => Checkpoint(s, AfterProbe(p), None, AfterProbing(p))
    case ResumeStable => s.(w := w.(gateJournal := Stable(Open, true)), pc := Reconcile(GateOpen))
    case ResumeValidate =>
      if FinalAuthority(w, s.mem, Exception, Open) then s.(pc := Transfer) else s.(pc := Handler)
    case CloseDispatch => if w.gate.Open? then s.(pc := BeforeM(GateClose)) else s.(pc := ClosedStable)
    case ClosedStable => s.(w := w.(gateJournal := Stable(Closed, true)), pc := Reconcile(GateClose))
    case ClosedMark =>
      if s.mem.phase == After(GateClose) then s.(pc := Transfer) else Checkpoint(s, After(GateClose), None, Transfer)
    case Transfer =>
      if w.gate.Open? && !s.resume then s.(pc := Handler)
      else if w.oldTunnel.config.Reviewed? && w.candidate.config.Transferred? then s.(pc := Handler)
      else s.(pc := RetireDispatch)
    case RetireDispatch =>
      if w.oldTunnel.config.Reviewed? then s.(pc := BeforeM(OldRetire))
      else if w.oldTunnel.version <= plan.oldVersion then s.(pc := Handler)
      else s.(mem := s.mem.(oldLive := Some(w.oldTunnel.version)), pc := Reconcile(OldRetire))
    case LiveDispatch =>
      if w.candidate.config.Reviewed? then s.(pc := BeforeM(CandidateLive))
      else if w.candidate.version <= plan.candidateVersion then s.(pc := Handler)
      else s.(mem := s.mem.(candidateLive := Some(w.candidate.version)), pc := Reconcile(CandidateLive))
    case DnsDispatch =>
      if w.dns0 && w.dns1 then s.(pc := Reconcile(DnsCandidate)) else s.(pc := BeforeM(DnsCandidate))
    case RuleDispatch =>
      if w.rule.BlockAll? then s.(pc := BeforeM(WafException))
      else if w.rule.Exception? then s.(pc := Reconcile(WafException))
      else s.(pc := Handler)
    case GateDispatch =>
      if !s.resume then s.(pc := BeforeProbing(ClosedEdgeProbe))
      else if FinalAuthority(w, s.mem, Exception, Open) then s.(pc := BeforeProbing(PublicValidation))
      else s.(pc := Handler)
    case ValidateClosed =>
      if FinalAuthority(w, s.mem, Exception, Closed) then s.(pc := BeforeM(GateOpen)) else s.(pc := Handler)
    case Unfreeze =>
      if FinalAuthority(w, s.mem, Exception, Open) then s.(pc := BeforeM(WafDisable)) else s.(pc := Handler)
    case WriteTerminal => Checkpoint(s, Promoted, Some(Terminal), Done)
    case FinishValidate =>
      if FinalAuthority(w, s.mem, Disabled, Open) then s.(pc := Reconcile(WafDisable)) else s.(pc := Handler)
    case FinishMark =>
      if s.mem.phase == After(WafDisable) then s.(pc := FinishTopology)
      else Checkpoint(s, After(WafDisable), None, FinishTopology)
    case FinishTopology =>
      if w.topology.PreCutover? then s.(pc := BeforeM(TopologyLive))
      else if w.topology.OciLive? then s.(pc := Reconcile(TopologyLive))
      else s.(pc := Handler)
    case Done => s.(pc := Idle)
    case RefuseWrite => s.(w := w.(gateJournal := Moving), pc := RefuseFlip)
    case RefuseFlip => s.(w := w.(gate := Closed), pc := RefuseSettle)
    case RefuseSettle => s.(w := w.(gateJournal := Stable(Closed, true)), pc := Handler)
    case Handler =>
      if AfterUnfreeze(s.mem.phase) || s.mem.phase.Promoted? || w.gate.Closed? then s.(pc := Idle)
      else s.(pc := HandlerWrite)
    case HandlerWrite => s.(w := w.(gateJournal := Moving), pc := HandlerFlip)
    case HandlerFlip => s.(w := w.(gate := Closed), pc := HandlerSettle)
    case HandlerSettle => s.(w := w.(gateJournal := Stable(Closed, true)), pc := Idle)
  }

  // ---------------------------------------------------------------- faults

  datatype Event =
    | Normal                                  // the controller goes on
    | Raise                                   // a read, probe or write fails before taking effect
    | RaiseInCheckpoint                       // the journal write fails after the in-memory update
    | PartialDns(first: bool, second: bool)   // the batch applies some records and fails
    | Crash                                   // the process dies

  predicate InHandler(pc: Pc) {
    pc.Handler? || pc.HandlerWrite? || pc.HandlerFlip? || pc.HandlerSettle?
  }

  /** Exceptions before `forward` and inside the handler end the run; all others enter the handler. */
  function Raised(s: State): State {
    if s.pc.Idle? || s.pc.Enter? || s.pc.WritePrepared? || s.pc.Done? || InHandler(s.pc) then s.(pc := Idle)
    else s.(pc := Handler)
  }

  /** The phase a checkpoint at this point would record. */
  function CheckpointPhase(s: State): Option<Phase> {
    match s.pc
    case BeforeM(m) => Some(Before(m))
    case AfterM(m) => Some(After(m))
    case Reconcile(m) => if NeedsReconcile(s.mem, m) then Some(After(m)) else None
    case BeforeProbing(p) => Some(BeforeProbe(p))
    case Probing(p) => Some(AfterProbe(p))
    case ClosedMark => Some(After(GateClose))
    case FinishMark => Some(After(WafDisable))
    case WriteTerminal => Some(Promoted)
    case _ => None
  }

  function Next(s: State, e: Event, plan: Plan): State {
    match e
    case Normal => Advance(s, plan)
    case Raise => Raised(s)
    case RaiseInCheckpoint =>
      if CheckpointPhase(s).Some? then Raised(s.(mem := s.mem.(phase := CheckpointPhase(s).value))) else Raised(s)
    case PartialDns(first, second) =>
      if s.pc == Effect(DnsCandidate) then
        Raised(s.(w := s.w.(dns0 := s.w.dns0 || first, dns1 := s.w.dns1 || second)))
      else Raised(s)
    case Crash => s.(pc := Idle)
  }

  /** Before the first run: original routes under a disabled rule, a consistent gate, no journal. */
  predicate Init(s: State, plan: Plan) {
    && s.pc.Idle? && s.w.journal.None?
    && s.w.rule.Disabled? && OriginalRoutes(s.w)
    && s.w.oldTunnel.version == plan.oldVersion && s.w.candidate.version == plan.candidateVersion
    && s.w.gateJournal.Stable? && s.w.gateJournal.gate == s.w.gate
    && !s.w.topology.OciLive?
  }

  ghost predicate Run(trace: seq<State>, events: seq<Event>, plan: Plan) {
    && |trace| == |events| + 1
    && Init(trace[0], plan)
    && forall i :: 0 <= i < |events| ==> trace[i + 1] == Next(trace[i], events[i], plan)
  }

  // ---------------------------------------------------------------- invariant

  predicate TunnelOk(t: Tunnel, reviewed: int) {
    if t.config.Reviewed? then t.version == reviewed else reviewed < t.version
  }

  predicate Began(h: History, m: Mutation) {
    Recorded(h, BeforeOp(m))
  }

  predicate Ended(h: History, m: Mutation) {
    Recorded(h, AfterOp(m))
  }

  /** Every `after:` entry has an earlier `before:` entry, and a terminal entry closes the transfer. */
  predicate HistoryOk(h: History) {
    h.Entry? ==>
      && HistoryOk(h.earlier)
      && (h.op.AfterOp? ==> Recorded(h.earlier, BeforeOp(h.op.m)))
      && (h.op.Terminal? ==> Complete(h.earlier))
  }

  predicate Complete(h: History) {
    && TransferEnded(h) && Ended(h, WafException)
    && Ended(h, GateOpen) && Ended(h, WafDisable) && Ended(h, TopologyLive)
  }

  predicate TransferEnded(h: History) {
    Ended(h, WafBlockAll) && Ended(h, OldRetire) && Ended(h, CandidateLive) && Ended(h, DnsCandidate)
  }

  predicate VersionsRecorded(w: World, j: Journal) {
    j.oldLive == Some(w.oldTunnel.version) && j.candidateLive == Some(w.candidate.version)
  }

  /** The durable facts that hold whatever the controller is doing, by the state of the rule. */
  ghost predicate WorldOk(w: World, plan: Plan) {
    && TunnelOk(w.oldTunnel, plan.oldVersion) && TunnelOk(w.candidate, plan.candidateVersion)
    && (w.journal.None? ==>
          w.rule.Disabled? && OriginalRoutes(w) && w.gateJournal.Stable? && w.gateJournal.gate == w.gate && !w.topology.OciLive?)
    && (w.journal.Some? ==> JournalOk(w, w.journal.value))
  }

  ghost predicate JournalOk(w: World, j: Journal) {
    && !w.topology.Missing?
    && (w.topology.OciLive? ==> w.rule.Disabled?)
    && (w.oldTunnel.config.Transferred? ==> Began(j.history, OldRetire))
    && (w.candidate.config.Transferred? ==> Began(j.history, CandidateLive) && w.oldTunnel.config.Transferred?)
    && (w.dns0 || w.dns1 ==> Began(j.history, DnsCandidate) && w.candidate.config.Transferred?)
    && match w.rule
       case BlockAll =>
         && Began(j.history, WafBlockAll) && !AfterUnfreeze(j.phase) && !j.phase.Promoted?
         && (w.oldTunnel.config.Transferred? ==> w.gate.Closed?)
       case Exception =>
         && FinalRoutes(w) && TransferEnded(j.history) && Began(j.history, WafException)
         && (AfterUnfreeze(j.phase) ==> j.phase == Before(WafDisable)) && !j.phase.Promoted?
         && (w.gate.Open? ==> OpenOk(w, j))
       case Disabled =>
         if FinalRoutes(w) then
           && (AfterUnfreeze(j.phase) || j.phase.Promoted?)
           && OpenOk(w, j) && w.gate.Open? && w.gateJournal == Stable(Open, true)
           && TransferEnded(j.history) && Ended(j.history, GateOpen) && Began(j.history, WafDisable)
           && (w.topology.OciLive? ==> Began(j.history, TopologyLive))
           && (j.phase.Promoted? ==> w.topology.OciLive? && Complete(j.history))
         else
           OriginalRoutes(w) && w.topology.PreCutover? && Unblocked(j.phase)
  }

  /** What an open gate over the final routes owes to the journal. */
  ghost predicate OpenOk(w: World, j: Journal) {
    && (LateOpen(j.phase) || w.rule.Disabled?)
    && VersionsRecorded(w, j) && Ended(j.history, WafException) && Began(j.history, GateOpen)
  }

  predicate Running(pc: Pc) {
    !(pc.Idle? || pc.Enter? || pc.WritePrepared? || InHandler(pc))
  }

  predicate RetiredSoFar(s: State) {
    s.w.oldTunnel.config.Transferred? && s.mem.oldLive == Some(s.w.oldTunnel.version) && Ended(s.mem.history, OldRetire)
  }

  predicate LiveSoFar(s: State) {
    && RetiredSoFar(s)
    && s.w.candidate.config.Transferred? && s.mem.candidateLive == Some(s.w.candidate.version)
    && Ended(s.mem.history, CandidateLive)
  }

  predicate RoutedSoFar(s: State) {
    LiveSoFar(s) && s.w.dns0 && s.w.dns1 && Ended(s.mem.history, DnsCandidate)
  }

  predicate LiftedSoFar(s: State) {
    RoutedSoFar(s) && s.w.rule.Exception? && Ended(s.mem.history, WafException) && Ended(s.mem.history, WafBlockAll)
  }

  /** The gate while routes are being transferred: closed, unless an open gate is being resumed. */
  predicate TransferGate(s: State) {
    if s.resume then
      s.w.rule.Exception? && s.w.gate.Open? && s.w.gateJournal == Stable(Open, true) && LateOpen(s.mem.phase)
      && Ended(s.mem.history, GateOpen)
    else
      && s.w.gate.Closed? && Ended(s.mem.history, WafBlockAll)
      && (s.w.rule.BlockAll? ==> s.w.gateJournal == Stable(Closed, true))
      && !s.w.rule.Disabled?
  }

  predicate OpenSoFar(s: State) {
    && LiftedSoFar(s) && s.w.gate.Open? && s.w.gateJournal == Stable(Open, true)
    && Ended(s.mem.history, GateOpen) && LateOpen(s.mem.phase)
  }

  predicate Unfrozen(s: State) {
    s.w.rule.Disabled? && FinalRoutes(s.w) && VersionsRecorded(s.w, s.mem)
  }

  /** Where a mutation starts from. */
  ghost predicate Ready(s: State, m: Mutation) {
    match m
    case WafBlockAll => s.w.rule.Disabled? && !FinalRoutes(s.w) && !s.resume
    case GateClose => s.w.rule.BlockAll? && !s.resume && Ended(s.mem.history, WafBlockAll) && s.w.gate.Open?
    case OldRetire => TransferGate(s) && !s.resume && s.w.rule.BlockAll? && s.w.oldTunnel.config.Reviewed?
    case CandidateLive => TransferGate(s) && !s.resume && s.w.rule.BlockAll? && RetiredSoFar(s) && s.w.candidate.config.Reviewed?
    case DnsCandidate => TransferGate(s) && !s.resume && s.w.rule.BlockAll? && LiveSoFar(s)
    case WafException => TransferGate(s) && !s.resume && s.w.rule.BlockAll? && RoutedSoFar(s)
    case GateOpen => LiftedSoFar(s) && s.w.gate.Closed?
    case WafDisable => OpenSoFar(s)
    case TopologyLive => Unfrozen(s) && Ended(s.mem.history, WafDisable) && s.w.topology.PreCutover?
  }

  /** What a mutation's write has achieved, whether in this run or in an earlier one. */
  ghost predicate Performed(s: State, m: Mutation) {
    match m
    case WafBlockAll => s.w.rule.BlockAll? && !s.resume
    case GateClose => s.w.rule.BlockAll? && !s.resume && TransferGate(s)
    case OldRetire => TransferGate(s) && s.w.oldTunnel.config.Transferred? && s.mem.oldLive == Some(s.w.oldTunnel.version)
    case CandidateLive =>
      && TransferGate(s) && RetiredSoFar(s)
      && s.w.candidate.config.Transferred? && s.mem.candidateLive == Some(s.w.candidate.version)
    case DnsCandidate => TransferGate(s) && LiveSoFar(s) && s.w.dns0 && s.w.dns1
    case WafException => TransferGate(s) && RoutedSoFar(s) && s.w.rule.Exception?
    case GateOpen =>
      && s.w.rule.Exception? && FinalRoutes(s.w) && VersionsRecorded(s.w, s.mem)
      && s.w.gate.Open? && s.w.gateJournal == Stable(Open, true) && LateOpen(s.mem.phase)
    case WafDisable => Unfrozen(s)
    case TopologyLive => Unfrozen(s) && Ended(s.mem.history, WafDisable) && s.w.topology.OciLive?
  }

  predicate Blocked(s: State) {
    s.w.rule.BlockAll? && !s.resume && Ended(s.mem.history, WafBlockAll)
  }

  ghost predicate ProbeReady(s: State, p: Probe) {
    match p
    case BlockAllProbe => Blocked(s)
    case ClosedEdgeProbe => LiftedSoFar(s) && s.w.gate.Closed?
    case PublicValidation => OpenSoFar(s)
  }

  /** What the controller knows at each program point. */
  ghost predicate PcOk(s: State) {
    match s.pc
    case Forward => !s.resume
    case Late => !s.w.rule.Disabled? && !s.resume
    case BeforeM(m) => Ready(s, m)
    case Effect(m) => Ready(s, m) && s.mem.phase == Before(m) && Began(s.mem.history, m)
    case GateFlip(m) => (m.GateOpen? || m.GateClose?) && s.w.gateJournal.Moving? && Ready(s, m) && s.mem.phase == Before(m) && Began(s.mem.history, m)
    case GateSettle(m) =>
      && s.mem.phase == Before(m) && Began(s.mem.history, m) && s.w.gate == GateTarget(m)
      && ((m.GateOpen? && LiftedSoFar(s)) || (m.GateClose? && Blocked(s)))
    case AfterM(m) =>
      && Performed(s, m) && s.mem.phase == Before(m) && Began(s.mem.history, m)
      && (!s.w.rule.Disabled? && !m.GateOpen? ==> !s.resume)
      && (m.GateOpen? ==> LiftedSoFar(s))
      && (m.WafDisable? ==> s.w.topology.PreCutover?)
    case Reconcile(m) => Performed(s, m) && (m.GateOpen? ==> s.resume)
    case BeforeProbing(p) => ProbeReady(s, p)
    case Probing(p) => ProbeReady(s, p)
    case ResumeStable => s.resume && s.w.rule.Exception? && s.w.gate.Open? && LateOpen(s.mem.phase) && VersionsRecorded(s.w, s.mem)
    case ResumeValidate => s.resume && TransferGate(s) && VersionsRecorded(s.w, s.mem)
    case CloseDispatch => Blocked(s)
    case ClosedStable => Blocked(s) && s.w.gate.Closed?
    case ClosedMark => Blocked(s) && TransferGate(s)
    case Transfer => TransferGate(s)
    case RetireDispatch => TransferGate(s)
    case LiveDispatch => TransferGate(s) && RetiredSoFar(s)
    case DnsDispatch => TransferGate(s) && LiveSoFar(s)
    case RuleDispatch => TransferGate(s) && RoutedSoFar(s)
    case GateDispatch => TransferGate(s) && LiftedSoFar(s)
    case ValidateClosed => LiftedSoFar(s) && s.w.gate.Closed?
    case Unfreeze => OpenSoFar(s)
    case FinishValidate => Unfrozen(s)
    case FinishMark => Unfrozen(s) && Ended(s.mem.history, WafDisable)
    case FinishTopology => Unfrozen(s) && Ended(s.mem.history, WafDisable)
    case WriteTerminal =>
      Unfrozen(s) && Ended(s.mem.history, WafDisable) && s.w.topology.OciLive? && Ended(s.mem.history, TopologyLive)
    case Done => s.mem.phase.Promoted?
    // the refusals of lines 979-982 and 1003-1006 are never reached
    case RefuseWrite => false
    case RefuseFlip => false
    case RefuseSettle => false
    case _ => true
  }

  /** The in-memory journal of a running controller differs from the durable one only in the versions
      it has just read. */
  ghost predicate MemoryOk(s: State) {
    && (s.pc.WritePrepared? ==> s.w.journal.None? && s.w.topology.PreCutover? && !s.resume)
    && (Running(s.pc) ==>
          s.w.journal.Some? && s.w.journal.value.phase == s.mem.phase && s.w.journal.value.history == s.mem.history)
    && (s.pc.Forward? || s.pc.Late? || s.pc.Effect? || s.pc.GateFlip? || s.pc.GateSettle? ==> s.w.journal.value == s.mem)
    // an exception after the unfreeze never closes the gate
    && (InHandler(s.pc) && s.w.rule.Disabled? && FinalRoutes(s.w) ==>
          s.pc.Handler? && (AfterUnfreeze(s.mem.phase) || s.mem.phase.Promoted?))
    && (InHandler(s.pc) ==> s.w.journal.Some?)
  }

  ghost predicate Inv(s: State, plan: Plan) {
    WorldOk(s.w, plan) && MemoryOk(s) && PcOk(s)
  }

  ghost function Safe(plan: Plan): iset<State> {
    iset s | Inv(s, plan)
  }

  /** The mutations up to the DNS switch; proofs over all mutations are done in two halves. */
  predicate EarlyMutation(m: Mutation) { m.WafBlockAll? || m.GateClose? || m.OldRetire? || m.CandidateLive? || m.DnsCandidate? }

  lemma BeforeKeeps(s: State, m: Mutation, plan: Plan)
    requires s in Safe(plan) && s.pc == BeforeM(m)
    ensures Advance(s, plan) in Safe(plan)
  {
  }

  lemma AfterEarlyKeeps(s: State, m: Mutation, plan: Plan)
    requires s in Safe(plan) && s.pc == AfterM(m) && EarlyMutation(m)
    ensures Advance(s, plan) in Safe(plan)
  {
  }

  lemma AfterLateKeeps(s: State, m: Mutation, plan: Plan)
    requires s in Safe(plan) && s.pc == AfterM(m) && !EarlyMutation(m)
    ensures Advance(s, plan) in Safe(plan)
  {
  }

  lemma AfterKeeps(s: State, m: Mutation, plan: Plan)
    requires s in Safe(plan) && s.pc == AfterM(m)
    ensures Advance(s, plan) in Safe(plan)
  {
    if EarlyMutation(m) { AfterEarlyKeeps(s, m, plan); } else { AfterLateKeeps(s, m, plan); }
  }

  lemma ReconcileWritesEarlyKeeps(s: State, m: Mutation, plan: Plan)
    requires s in Safe(plan) && s.pc == Reconcile(m) && NeedsReconcile(s.mem, m) && EarlyMutation(m)
    ensures Advance(s, plan) in Safe(plan)
  {
  }

  lemma ReconcileWritesLateKeeps(s: State, m: Mutation, plan: Plan)
    requires s in Safe(plan) && s.pc == Reconcile(m) && NeedsReconcile(s.mem, m) && !EarlyMutation(m)
    ensures Advance(s, plan) in Safe(plan)
  {
  }

  lemma ReconcileWritesKeeps(s: State, m: Mutation, plan: Plan)
    requires s in Safe(plan) && s.pc == Reconcile(m) && NeedsReconcile(s.mem, m)
    ensures Advance(s, plan) in Safe(plan)
  {
    if EarlyMutation(m) { ReconcileWritesEarlyKeeps(s, m, plan); } else { ReconcileWritesLateKeeps(s, m, plan); }
  }

  lemma ReconcileSkipsEarlyKeeps(s: State, m: Mutation, plan: Plan)
    requires s in Safe(plan) && s.pc == Reconcile(m) && !NeedsReconcile(s.mem, m) && EarlyMutation(m)
    ensures Advance(s, plan) in Safe(plan)
  {
  }

  lemma ReconcileSkipsLateKeeps(s: State, m: Mutation, plan: Plan)
    requires s in Safe(plan) && s.pc == Reconcile(m) && !NeedsReconcile(s.mem, m) && !EarlyMutation(m)
    ensures Advance(s, plan) in Safe(plan)
  {
  }

  lemma ReconcileSkipsKeeps(s: State, m: Mutation, plan: Plan)
    requires s in Safe(plan) && s.pc == Reconcile(m) && !NeedsReconcile(s.mem, m)
    ensures Advance(s, plan) in Safe(plan)
  {
    if EarlyMutation(m) { ReconcileSkipsEarlyKeeps(s, m, plan); } else { ReconcileSkipsLateKeeps(s, m, plan); }
  }

  lemma EffectKeeps(s: State, m: Mutation, plan: Plan)
    requires s in Safe(plan) && s.pc == Effect(m)
    ensures Advance(s, plan) in Safe(plan)
  {
  }

  lemma ProbeKeeps(s: State, p: Probe, plan: Plan)
    requires s in Safe(plan) && s.pc in {BeforeProbing(p), Probing(p)}
    ensures Advance(s, plan) in Safe(plan)
  {
  }

  // The remaining program points, in groups small enough for one proof each.

  predicate EntryPoint(pc: Pc) {
    pc.Idle? || pc.Enter? || pc.WritePrepared? || pc.Forward? || pc.Late? || pc.Done?
  }

  predicate FlipPoint(pc: Pc) {
    pc.GateFlip? || pc.GateSettle?
  }

  predicate ResumePoint(pc: Pc) {
    pc.ResumeStable? || pc.ResumeValidate?
  }

  predicate ClosePoint(pc: Pc) {
    pc.CloseDispatch? || pc.ClosedStable? || pc.ClosedMark?
  }

  predicate TunnelPoint(pc: Pc) {
    pc.Transfer? || pc.RetireDispatch? || pc.LiveDispatch?
  }

  predicate EdgePoint(pc: Pc) {
    pc.DnsDispatch? || pc.RuleDispatch? || pc.GateDispatch? || pc.ValidateClosed?
  }

  predicate FinishPoint(pc: Pc) {
    pc.Unfreeze? || pc.FinishValidate? || pc.FinishTopology?
  }

  lemma EntryKeeps(s: State, plan: Plan)
    requires s in Safe(plan) && EntryPoint(s.pc)
    ensures Advance(s, plan) in Safe(plan)
  {
  }

  lemma FlipKeeps(s: State, plan: Plan)
    requires s in Safe(plan) && FlipPoint(s.pc)
    ensures Advance(s, plan) in Safe(plan)
  {
  }

  lemma ResumeKeeps(s: State, plan: Plan)
    requires s in Safe(plan) && ResumePoint(s.pc)
    ensures Advance(s, plan) in Safe(plan)
  {
  }

  lemma CloseKeeps(s: State, plan: Plan)
    requires s in Safe(plan) && ClosePoint(s.pc)
    ensures Advance(s, plan) in Safe(plan)
  {
  }

  lemma TunnelKeeps(s: State, plan: Plan)
    requires s in Safe(plan) && TunnelPoint(s.pc)
    ensures Advance(s, plan) in Safe(plan)
  {
  }

  lemma SwitchKeeps(s: State, plan: Plan)
    requires s in Safe(plan) && EdgePoint(s.pc) && (s.pc.DnsDispatch? || s.pc.RuleDispatch?)
    ensures Advance(s, plan) in Safe(plan)
  {
  }

  lemma GateKeeps(s: State, plan: Plan)
    requires s in Safe(plan) && EdgePoint(s.pc) && (s.pc.GateDispatch? || s.pc.ValidateClosed?)
    ensures Advance(s, plan) in Safe(plan)
  {
  }

  lemma EdgeKeeps(s: State, plan: Plan)
    requires s in Safe(plan) && EdgePoint(s.pc)
    ensures Advance(s, plan) in Safe(plan)
  {
    if s.pc.DnsDispatch? || s.pc.RuleDispatch? { SwitchKeeps(s, plan); } else { GateKeeps(s, plan); }
  }

  lemma UnfreezeKeeps(s: State, plan: Plan)
    requires s in Safe(plan) && FinishPoint(s.pc) && s.pc.Unfreeze?
    ensures Advance(s, plan) in Safe(plan)
  {
  }

  lemma FinishingKeeps(s: State, plan: Plan)
    requires s in Safe(plan) && FinishPoint(s.pc) && !s.pc.Unfreeze?
    ensures Advance(s, plan) in Safe(plan)
  {
  }

  lemma FinishKeeps(s: State, plan: Plan)
    requires s in Safe(plan) && FinishPoint(s.pc)
    ensures Advance(s, plan) in Safe(plan)
  {
    if s.pc.Unfreeze? { UnfreezeKeeps(s, plan); } else { FinishingKeeps(s, plan); }
  }

  lemma FinishMarkKeeps(s: State, plan: Plan)
    requires s in Safe(plan) && s.pc.FinishMark?
    ensures Advance(s, plan) in Safe(plan)
  {
  }

  lemma TerminalKeeps(s: State, plan: Plan)
    requires s in Safe(plan) && s.pc.WriteTerminal?
    ensures Advance(s, plan) in Safe(plan)
  {
  }

  lemma HandlerKeeps(s: State, plan: Plan)
    requires s in Safe(plan) && s.pc.Handler?
    ensures Advance(s, plan) in Safe(plan)
  {
  }

  lemma HandlerWriteKeeps(s: State, plan: Plan)
    requires s in Safe(plan) && s.pc.HandlerWrite?
    ensures Advance(s, plan) in Safe(plan)
  {
  }

  lemma HandlerFlipKeeps(s: State, plan: Plan)
    requires s in Safe(plan) && s.pc.HandlerFlip?
    ensures Advance(s, plan) in Safe(plan)
  {
  }

  lemma HandlerSettleKeeps(s: State, plan: Plan)
    requires s in Safe(plan) && s.pc.HandlerSettle?
    ensures Advance(s, plan) in Safe(plan)
  {
  }

  lemma AdvanceKeeps(s: State, plan: Plan)
    requires s in Safe(plan)
    ensures Advance(s, plan) in Safe(plan)
  {
    if s.pc.BeforeM? { BeforeKeeps(s, s.pc.m, plan); }
    else if s.pc.AfterM? { AfterKeeps(s, s.pc.m, plan); }
    else if s.pc.Effect? { EffectKeeps(s, s.pc.m, plan); }
    else if s.pc.Reconcile? {
      if NeedsReconcile(s.mem, s.pc.m) { ReconcileWritesKeeps(s, s.pc.m, plan); }
      else { ReconcileSkipsKeeps(s, s.pc.m, plan); }
    }
    else if s.pc.BeforeProbing? || s.pc.Probing? { ProbeKeeps(s, s.pc.p, plan); }
    else if EntryPoint(s.pc) { EntryKeeps(s, plan); }
    else if FlipPoint(s.pc) { FlipKeeps(s, plan); }
    else if ResumePoint(s.pc) { ResumeKeeps(s, plan); }
    else if ClosePoint(s.pc) { CloseKeeps(s, plan); }
    else if TunnelPoint(s.pc) { TunnelKeeps(s, plan); }
    else if EdgePoint(s.pc) { EdgeKeeps(s, plan); }
    else if FinishPoint(s.pc) { FinishKeeps(s, plan); }
    else if s.pc.FinishMark? { FinishMarkKeeps(s, plan); }
    else if s.pc.WriteTerminal? { TerminalKeeps(s, plan); }
    else if s.pc.Handler? { HandlerKeeps(s, plan); }
    else if s.pc.HandlerWrite? { HandlerWriteKeeps(s, plan); }
    else if s.pc.HandlerFlip? { HandlerFlipKeeps(s, plan); }
    else { HandlerSettleKeeps(s, plan); }
  }

  lemma CrashKeeps(s: State, plan: Plan)
    requires s in Safe(plan)
    ensures s.(pc := Idle) in Safe(plan)
  {
  }

  /** Entering the handler is safe with the current phase or with one that a failing journal write
      had already put in memory. */
  lemma RaiseKeeps(s: State, phase: Phase, plan: Plan)
    requires s in Safe(plan) && s.w.journal.Some?
    requires s.w.rule.Disabled? && FinalRoutes(s.w) ==> AfterUnfreeze(phase) || phase.Promoted?
    ensures s.(pc := Handler, mem := s.mem.(phase := phase)) in Safe(plan)
  {
  }

  lemma CheckpointPhaseFits(s: State, plan: Plan)
    requires s in Safe(plan) && Running(s.pc) && s.w.rule.Disabled? && FinalRoutes(s.w)
    ensures CheckpointPhase(s).Some? ==> AfterUnfreeze(CheckpointPhase(s).value) || CheckpointPhase(s).value.Promoted?
  {
  }

  lemma PartialDnsKeeps(s: State, first: bool, second: bool, plan: Plan)
    requires s in Safe(plan) && s.pc == Effect(DnsCandidate)
    ensures Next(s, PartialDns(first, second), plan) in Safe(plan)
  {
  }

  lemma FaultKeeps(s: State, e: Event, plan: Plan)
    requires s in Safe(plan) && !e.Normal?
    ensures Next(s, e, plan) in Safe(plan)
  {
    CrashKeeps(s, plan);
    if Running(s.pc) {
      RaiseKeeps(s, s.mem.phase, plan);
      assert s.mem.(phase := s.mem.phase) == s.mem;
      if CheckpointPhase(s).Some? {
        if s.w.rule.Disabled? && FinalRoutes(s.w) { CheckpointPhaseFits(s, plan); }
        RaiseKeeps(s, CheckpointPhase(s).value, plan);
      }
      if e.PartialDns? && s.pc == Effect(DnsCandidate) { PartialDnsKeeps(s, e.first, e.second, plan); }
    }
  }

  lemma NextKeeps(s: State, e: Event, plan: Plan)
    requires s in Safe(plan)
    ensures Next(s, e, plan) in Safe(plan)
  {
    if e.Normal? { AdvanceKeeps(s, plan); } else { FaultKeeps(s, e, plan); }
  }

  lemma {:induction false} RunIsSafe(trace: seq<State>, events: seq<Event>, plan: Plan, i: nat)
    requires Run(trace, events, plan) && i < |trace|
    ensures trace[i] in Safe(plan)
  {
    if i > 0 {
      RunIsSafe(trace, events, plan, i - 1);
      NextKeeps(trace[i - 1], events[i - 1], plan);
    }
  }

  // ---------------------------------------------------------------- all old or all new

  /** In every reachable state a disabled rule means that the routes are all original, or all final
      behind an open gate; and at no time do both tunnels serve the production hosts. */
  lemma AllOldOrAllNew(trace: seq<State>, events: seq<Event>, plan: Plan, i: nat)
    requires Run(trace, events, plan) && i < |trace|
    ensures trace[i].w.rule.Disabled? ==>
      OriginalRoutes(trace[i].w) || (FinalRoutes(trace[i].w) && trace[i].w.gate.Open?)
    ensures !(trace[i].w.oldTunnel.config.Reviewed? && trace[i].w.candidate.config.Transferred?)
  {
    RunIsSafe(trace, events, plan, i);
  }

  // ---------------------------------------------------------------- gate discipline and monotonicity

  /** How far the transfer has come, as the rule shows it. */
  function RuleStage(w: World): nat {
    match w.rule
    case BlockAll => 1
    case Exception => 2
    case Disabled => if FinalRoutes(w) then 3 else 0
  }

  /** Nothing the transfer has moved is ever moved back. */
  predicate NotBackward(w: World, w': World) {
    && (w.oldTunnel.config.Transferred? ==> w'.oldTunnel == w.oldTunnel)
    && (w.candidate.config.Transferred? ==> w'.candidate == w.candidate)
    && (w.dns0 ==> w'.dns0) && (w.dns1 ==> w'.dns1)
    && (w.topology.PreCutover? ==> !w'.topology.Missing?)
    && (w.topology.OciLive? ==> w'.topology.OciLive?)
    && RuleStage(w) <= RuleStage(w')
  }

  /** The gate opens only under the exception rule over final, recorded routes; the rule is lifted
      only over the same routes with the gate open and its journal settled. */
  predicate Disciplined(w: World, w': World) {
    && (w.gate.Closed? && w'.gate.Open? ==>
          w.rule.Exception? && FinalRoutes(w) && w.journal.Some? && VersionsRecorded(w, w.journal.value))
    && (w.rule.Exception? && w'.rule.Disabled? ==>
          FinalRoutes(w) && w.gate.Open? && w.gateJournal == Stable(Open, true))
  }

  ghost function Onward(): iset<(World, World)> {
    iset w, w' | NotBackward(w, w') :: (w, w')
  }

  ghost function Orderly(): iset<(World, World)> {
    iset w, w' | Disciplined(w, w') :: (w, w')
  }

  lemma OnwardTransitive(a: World, b: World, c: World)
    requires (a, b) in Onward() && (b, c) in Onward()
    ensures (a, c) in Onward()
  {
    assert NotBackward(a, b) && NotBackward(b, c);
  }

  /** The controller touches routes, rule and gate only where a mutation or a gate closing writes. */
  predicate Writes(pc: Pc) {
    pc.Effect? || pc.GateFlip? || pc.HandlerFlip? || pc.RefuseFlip?
  }

  predicate SameRoutes(w: World, w': World) {
    && w'.rule == w.rule && w'.oldTunnel == w.oldTunnel && w'.candidate == w.candidate
    && w'.dns0 == w.dns0 && w'.dns1 == w.dns1 && w'.gate == w.gate
    && (w'.topology == w.topology || (w.topology.Missing? && w'.topology.PreCutover?))
  }

  lemma QuietCheckpoint(s: State, plan: Plan)
    requires CheckpointPhase(s).Some?
    ensures SameRoutes(s.w, Advance(s, plan).w)
  {
  }

  lemma QuietStep(s: State, plan: Plan)
    requires !Writes(s.pc) && CheckpointPhase(s).None?
    requires s.pc.Enter? && s.w.journal.None? ==> !s.w.topology.OciLive?
    ensures SameRoutes(s.w, Advance(s, plan).w)
  {
  }

  lemma WriteDiscipline(s: State, plan: Plan)
    requires s in Safe(plan) && Writes(s.pc)
    ensures NotBackward(s.w, Advance(s, plan).w) && Disciplined(s.w, Advance(s, plan).w)
  {
  }

  lemma FaultDiscipline(s: State, e: Event, plan: Plan)
    requires s in Safe(plan) && !e.Normal?
    ensures NotBackward(s.w, Next(s, e, plan).w) && Disciplined(s.w, Next(s, e, plan).w)
  {
    if e.PartialDns? && s.pc == Effect(DnsCandidate) {
      assert Ready(s, DnsCandidate);
    }
  }

  lemma StepDiscipline(s: State, e: Event, plan: Plan)
    requires s in Safe(plan)
    ensures (s.w, Next(s, e, plan).w) in Onward()
    ensures (s.w, Next(s, e, plan).w) in Orderly()
  {
    var w, w' := s.w, Next(s, e, plan).w;
    if !e.Normal? {
      FaultDiscipline(s, e, plan);
    } else if Writes(s.pc) {
      WriteDiscipline(s, plan);
    } else if CheckpointPhase(s).Some? {
      QuietCheckpoint(s, plan);
    } else {
      QuietStep(s, plan);
    }
    assert NotBackward(w, w') && Disciplined(w, w');
  }

  lemma OnwardReflexive(w: World)
    ensures (w, w) in Onward()
  {
    assert NotBackward(w, w);
  }

  /** The same of a step of a run. */
  lemma RunStepDiscipline(trace: seq<State>, events: seq<Event>, plan: Plan, j: nat)
    requires Run(trace, events, plan) && j < |events|
    ensures (trace[j].w, trace[j + 1].w) in Onward() && (trace[j].w, trace[j + 1].w) in Orderly()
  {
    RunIsSafe(trace, events, plan, j);
    StepDiscipline(trace[j], events[j], plan);
  }

  lemma {:induction false} RunOnward(trace: seq<State>, events: seq<Event>, plan: Plan, i: nat, j: nat)
    requires Run(trace, events, plan) && i <= j < |trace|
    ensures (trace[i].w, trace[j].w) in Onward()
  {
    if i == j {
      OnwardReflexive(trace[i].w);
    } else {
      RunOnward(trace, events, plan, i, j - 1);
      RunStepDiscipline(trace, events, plan, j - 1);
      OnwardTransitive(trace[i].w, trace[j - 1].w, trace[j].w);
    }
  }

  /** Over any stretch of a run nothing moves backward, and every step of it is disciplined. */
  lemma RunDiscipline(trace: seq<State>, events: seq<Event>, plan: Plan, i: nat, j: nat)
    requires Run(trace, events, plan) && i <= j < |trace|
    ensures (trace[i].w, trace[j].w) in Onward()
    ensures j < |events| ==> (trace[j].w, trace[j + 1].w) in Orderly()
  {
    RunOnward(trace, events, plan, i, j);
    if j < |events| {
      RunStepDiscipline(trace, events, plan, j);
    }
  }

  // ---------------------------------------------------------------- failing closed

  /** The state after any sequence of events. */
  function Outcome(s: State, events: seq<Event>, plan: Plan): State
    decreases |events|
  {
    if events == [] then s else Outcome(Next(s, events[0], plan), events[1..], plan)
  }

  /** The handler leaves the gate alone: the unfreeze may have been committed, or the gate is closed already. */
  predicate Spared(s: State) {
    AfterUnfreeze(s.mem.phase) || s.mem.phase.Promoted? || s.w.gate.Closed?
  }

  function ClosedWorld(w: World): World {
    w.(gate := Closed, gateJournal := Stable(Closed, true))
  }

  /** An exception in a running controller reaches the handler, and has not touched the gate. */
  lemma ExceptionReachesHandler(s: State, e: Event, plan: Plan)
    requires Running(s.pc) && !s.pc.Done? && (e.Raise? || e.RaiseInCheckpoint? || e.PartialDns?)
    ensures Next(s, e, plan).pc.Handler?
    ensures Next(s, e, plan).w.gate == s.w.gate && Next(s, e, plan).w.gateJournal == s.w.gateJournal
  {
  }

  lemma HandlerSpares(s: State, plan: Plan)
    requires s.pc.Handler? && Spared(s)
    ensures Next(s, Normal, plan) == s.(pc := Idle)
  {
  }

  lemma HandlerCloses(s: State, plan: Plan)
    requires s.pc.Handler? && !Spared(s)
    ensures Outcome(s, [Normal, Normal, Normal, Normal], plan) == s.(w := ClosedWorld(s.w), pc := Idle)
  {
    var s1 := s.(pc := HandlerWrite);
    var s2 := s1.(w := s1.w.(gateJournal := Moving), pc := HandlerFlip);
    var s3 := s2.(w := s2.w.(gate := Closed), pc := HandlerSettle);
    var s4 := s.(w := ClosedWorld(s.w), pc := Idle);
    assert Next(s, Normal, plan) == s1 && Next(s1, Normal, plan) == s2 && Next(s2, Normal, plan) == s3 && Next(s3, Normal, plan) == s4;
    OutcomeCons(s3, Normal, [], plan);
    OutcomeCons(s2, Normal, [Normal], plan);
    OutcomeCons(s1, Normal, [Normal, Normal], plan);
    OutcomeCons(s, Normal, [Normal, Normal, Normal], plan);
    assert [Normal] + [] == [Normal] && [Normal] + [Normal] == [Normal, Normal];
    assert [Normal] + [Normal, Normal] == [Normal, Normal, Normal];
    assert [Normal] + [Normal, Normal, Normal] == [Normal, Normal, Normal, Normal];
  }

  lemma OutcomeCons(s: State, e: Event, rest: seq<Event>, plan: Plan)
    ensures Outcome(s, [e] + rest, plan) == Outcome(Next(s, e, plan), rest, plan)
  {
    assert ([e] + rest)[1..] == rest;
  }

  lemma {:induction false} TraceOutcome(trace: seq<State>, events: seq<Event>, plan: Plan, i: nat, j: nat)
    requires Run(trace, events, plan) && i <= j < |trace|
    ensures trace[j] == Outcome(trace[i], events[i..j], plan)
    decreases j - i
  {
    if i < j {
      TraceOutcome(trace, events, plan, i + 1, j);
      assert events[i..j] == [events[i]] + events[i + 1..j];
      OutcomeCons(trace[i], events[i], events[i + 1..j], plan);
    }
  }

  /** A run that has entered its handler, by an exception or by a check of its own, and is then left alone ends with
      everything but the gate as it was, and with the gate closed and settled unless the unfreeze may have been
      committed or the gate was closed already. */
  lemma HandlerFailsClosed(trace: seq<State>, events: seq<Event>, plan: Plan, i: nat)
    requires Run(trace, events, plan) && i + 4 < |trace| && trace[i].pc.Handler?
    requires forall k :: i <= k < i + 4 ==> events[k].Normal?
    ensures
      if Spared(trace[i]) then trace[i + 1].pc.Idle? && trace[i + 1].w == trace[i].w
      else trace[i + 4].pc.Idle? && trace[i + 4].w == ClosedWorld(trace[i].w)
  {
    if Spared(trace[i]) {
      HandlerSpares(trace[i], plan);
    } else {
      TraceOutcome(trace, events, plan, i, i + 4);
      assert events[i..i + 4] == [Normal, Normal, Normal, Normal];
      HandlerCloses(trace[i], plan);
    }
  }

  /** A failed run fails closed: when an exception strikes a running controller whose phase is not past the
      unfreeze, and the run is then left alone, it ends with the gate closed, and settled if it was open. */
  lemma ExceptionClosesGate(trace: seq<State>, events: seq<Event>, plan: Plan, i: nat) returns (j: nat)
    requires Run(trace, events, plan) && i + 5 < |trace| && Running(trace[i].pc) && !trace[i].pc.Done?
    requires events[i].Raise? || events[i].RaiseInCheckpoint? || events[i].PartialDns?
    requires forall k :: i < k < i + 5 ==> events[k].Normal?
    ensures i + 1 < j <= i + 5 && trace[j].pc.Idle? && forall k :: i < k < j ==> InHandler(trace[k].pc)
    ensures
      var late := AfterUnfreeze(trace[i + 1].mem.phase) || trace[i + 1].mem.phase.Promoted?;
      if late then trace[j].w.gate == trace[i].w.gate && trace[j].w.gateJournal == trace[i].w.gateJournal
      else trace[j].w.gate.Closed? && (trace[i].w.gate.Open? ==> trace[j].w.gateJournal == Stable(Closed, true))
  {
    ExceptionReachesHandler(trace[i], events[i], plan);
    HandlerFailsClosed(trace, events, plan, i + 1);
    if Spared(trace[i + 1]) {
      j := i + 2;
    } else {
      j := i + 5;
      HandlerStays(trace[i + 1], plan);
      HandlerStays(trace[i + 2], plan);
      HandlerStays(trace[i + 3], plan);
    }
  }

  lemma HandlerStays(s: State, plan: Plan)
    requires InHandler(s.pc) && !s.pc.HandlerSettle? && (s.pc.Handler? ==> !Spared(s))
    ensures InHandler(Next(s, Normal, plan).pc) && (s.pc.Handler? ==> Next(s, Normal, plan).pc.HandlerWrite?)
    ensures s.pc.HandlerWrite? ==> Next(s, Normal, plan).pc.HandlerFlip?
    ensures s.pc.HandlerFlip? ==> Next(s, Normal, plan).pc.HandlerSettle?
  {
  }

  // ---------------------------------------------------------------- journal soundness

  lemma SilentStep(s: State, plan: Plan)
    requires CheckpointPhase(s).None? && !s.pc.WritePrepared?
    ensures Advance(s, plan).w.journal == s.w.journal
  {
  }

  lemma CheckpointStep(s: State, plan: Plan)
    requires s in Safe(plan) && CheckpointPhase(s).Some? && s.w in Sound()
    ensures Advance(s, plan).w in Sound()
  {
  }

  ghost function Sound(): iset<World> {
    iset w: World | w.journal.Some? ==> HistoryOk(w.journal.value.history)
  }

  lemma NextSound(s: State, e: Event, plan: Plan)
    requires s in Safe(plan) && s.w in Sound()
    ensures Next(s, e, plan).w in Sound()
  {
    if e.Normal? {
      if CheckpointPhase(s).Some? {
        CheckpointStep(s, plan);
      } else if !s.pc.WritePrepared? {
        SilentStep(s, plan);
      }
    }
  }

  lemma {:induction false} RunIsSound(trace: seq<State>, events: seq<Event>, plan: Plan, i: nat)
    requires Run(trace, events, plan) && i < |trace|
    ensures trace[i].w in Sound()
  {
    if i > 0 {
      RunIsSound(trace, events, plan, i - 1);
      RunIsSafe(trace, events, plan, i - 1);
      NextSound(trace[i - 1], events[i - 1], plan);
    }
  }

  /** In every durable history each `after:` follows its `before:`, and the terminal entry and the
      promoted phase come only after all eight mutations are recorded as done. */
  lemma JournalSoundness(trace: seq<State>, events: seq<Event>, plan: Plan, i: nat)
    requires Run(trace, events, plan) && i < |trace| && trace[i].w.journal.Some?
    ensures HistoryOk(trace[i].w.journal.value.history)
    ensures trace[i].w.journal.value.phase.Promoted? ==> Complete(trace[i].w.journal.value.history)
  {
    RunIsSound(trace, events, plan, i);
    RunIsSafe(trace, events, plan, i);
  }

  // ---------------------------------------------------------------- progress

  /** The one durable state from which no run ever completes: the gate is closed under the exception
      rule and its journal was left mid-transition, which line 1091 refuses and nothing repairs. */
  predicate Stuck(w: World) {
    w.rule.Exception? && w.gate.Closed? && w.gateJournal != Stable(Closed, true)
  }

  predicate Promotion(w: World) {
    && w.journal.Some? && w.journal.value.phase.Promoted?
    && w.rule.Disabled? && FinalRoutes(w) && w.gate.Open? && w.topology.OciLive?
  }

  function MutationRank(m: Mutation): nat {
    match m
    case WafBlockAll => 190
    case GateClose => 170
    case OldRetire => 150
    case CandidateLive => 140
    case DnsCandidate => 130
    case WafException => 120
    case GateOpen => 110
    case WafDisable => 100
    case TopologyLive => 80
  }

  function ReconcileRank(m: Mutation): nat {
    match m
    case WafBlockAll => 181
    case GateClose => 176
    case GateOpen => 183
    case WafDisable => 98
    case _ => MutationRank(m) + 1
  }

  function ProbeRank(p: Probe): nat {
    match p
    case BlockAllProbe => 179
    case ClosedEdgeProbe => 117
    case PublicValidation => 108
  }

  /** How many steps are left at most; 0 marks the points of a failing run. */
  function Rank(pc: Pc): nat {
    match pc
    case Idle => 200
    case Enter => 199
    case WritePrepared => 198
    case Forward => 197
    case BeforeM(m) => MutationRank(m) + 5
    case Effect(m) => MutationRank(m) + 4
    case GateFlip(m) => MutationRank(m) + 3
    case GateSettle(m) => MutationRank(m) + 2
    case AfterM(m) => MutationRank(m) + 1
    case Reconcile(m) => ReconcileRank(m)
    case BeforeProbing(p) => ProbeRank(p) + 1
    case Probing(p) => ProbeRank(p)
    case Late => 185
    case ResumeStable => 184
    case ResumeValidate => 182
    case CloseDispatch => 178
    case ClosedStable => 177
    case ClosedMark => 169
    case Transfer => 165
    case RetireDispatch => 160
    case LiveDispatch => 149
    case DnsDispatch => 139
    case RuleDispatch => 129
    case GateDispatch => 119
    case ValidateClosed => 116
    case Unfreeze => 107
    case FinishValidate => 99
    case FinishMark => 97
    case FinishTopology => 96
    case WriteTerminal => 70
    case Done => 1
    case RefuseWrite => 0
    case RefuseFlip => 0
    case RefuseSettle => 0
    case Handler => 0
    case HandlerWrite => 0
    case HandlerFlip => 0
    case HandlerSettle => 0
  }

  const OPENING := 113  // Rank(GateFlip(GateOpen))

  /** A run that has not failed and will not be refused. */
  predicate Healthy(s: State) {
    Rank(s.pc) > 0 && (Rank(s.pc) > OPENING ==> !Stuck(s.w))
  }

  /** The run has the opening of the gate still before it. */
  predicate BeforeOpening(s: State) {
    Rank(s.pc) >= OPENING && RuleStage(s.w) < 3 && (s.w.rule.Exception? ==> s.w.gate.Closed?)
  }

  /** A healthy step stays healthy, comes closer to the end and does not skip the opening. */
  predicate Closer(s: State, s': State) {
    && Healthy(s') && Rank(s'.pc) < Rank(s.pc)
    && (BeforeOpening(s) && Rank(s.pc) > OPENING ==> BeforeOpening(s'))
  }

  ghost function Ahead(s: State): iset<State> {
    iset s' | Closer(s, s')
  }

  lemma BeforeAdvances(s: State, plan: Plan)
    requires s in Safe(plan) && Healthy(s) && (s.pc.BeforeM? || s.pc.Effect?)
    ensures Advance(s, plan) in Ahead(s)
  {
  }

  lemma AfterEarlyAdvances(s: State, plan: Plan)
    requires s in Safe(plan) && Healthy(s) && s.pc.AfterM? && EarlyMutation(s.pc.m)
    ensures Advance(s, plan) in Ahead(s)
  {
  }

  lemma AfterLateAdvances(s: State, plan: Plan)
    requires s in Safe(plan) && Healthy(s) && s.pc.AfterM? && !EarlyMutation(s.pc.m)
    ensures Advance(s, plan) in Ahead(s)
  {
  }

  lemma AfterAdvances(s: State, plan: Plan)
    requires s in Safe(plan) && Healthy(s) && s.pc.AfterM?
    ensures Advance(s, plan) in Ahead(s)
  {
    if EarlyMutation(s.pc.m) { AfterEarlyAdvances(s, plan); } else { AfterLateAdvances(s, plan); }
  }

  lemma ReconcileWritesEarlyAdvances(s: State, plan: Plan)
    requires s in Safe(plan) && Healthy(s) && s.pc.Reconcile? && NeedsReconcile(s.mem, s.pc.m) && EarlyMutation(s.pc.m)
    ensures Advance(s, plan) in Ahead(s)
  {
  }

  lemma ReconcileWritesLateAdvances(s: State, plan: Plan)
    requires s in Safe(plan) && Healthy(s) && s.pc.Reconcile? && NeedsReconcile(s.mem, s.pc.m) && !EarlyMutation(s.pc.m)
    ensures Advance(s, plan) in Ahead(s)
  {
  }

  lemma ReconcileWritesAdvances(s: State, plan: Plan)
    requires s in Safe(plan) && Healthy(s) && s.pc.Reconcile? && NeedsReconcile(s.mem, s.pc.m)
    ensures Advance(s, plan) in Ahead(s)
  {
    if EarlyMutation(s.pc.m) { ReconcileWritesEarlyAdvances(s, plan); } else { ReconcileWritesLateAdvances(s, plan); }
  }

  lemma ReconcileSkipsEarlyAdvances(s: State, plan: Plan)
    requires s in Safe(plan) && Healthy(s) && s.pc.Reconcile? && !NeedsReconcile(s.mem, s.pc.m) && EarlyMutation(s.pc.m)
    ensures Advance(s, plan) in Ahead(s)
  {
  }

  lemma ReconcileSkipsLateAdvances(s: State, plan: Plan)
    requires s in Safe(plan) && Healthy(s) && s.pc.Reconcile? && !NeedsReconcile(s.mem, s.pc.m) && !EarlyMutation(s.pc.m)
    ensures Advance(s, plan) in Ahead(s)
  {
  }

  lemma ReconcileSkipsAdvances(s: State, plan: Plan)
    requires s in Safe(plan) && Healthy(s) && s.pc.Reconcile? && !NeedsReconcile(s.mem, s.pc.m)
    ensures Advance(s, plan) in Ahead(s)
  {
    if EarlyMutation(s.pc.m) { ReconcileSkipsEarlyAdvances(s, plan); } else { ReconcileSkipsLateAdvances(s, plan); }
  }

  lemma ProbeAdvances(s: State, plan: Plan)
    requires s in Safe(plan) && Healthy(s) && (s.pc.BeforeProbing? || s.pc.Probing?)
    ensures Advance(s, plan) in Ahead(s)
  {
  }

  lemma EntryAdvances(s: State, plan: Plan)
    requires s in Safe(plan) && Healthy(s) && EntryPoint(s.pc) && !s.pc.Done?
    ensures Advance(s, plan) in Ahead(s)
  {
  }

  lemma FlipAdvances(s: State, plan: Plan)
    requires s in Safe(plan) && Healthy(s) && FlipPoint(s.pc)
    ensures Advance(s, plan) in Ahead(s)
  {
  }

  lemma ResumeAdvances(s: State, plan: Plan)
    requires s in Safe(plan) && Healthy(s) && ResumePoint(s.pc)
    ensures Advance(s, plan) in Ahead(s)
  {
  }

  lemma CloseAdvances(s: State, plan: Plan)
    requires s in Safe(plan) && Healthy(s) && ClosePoint(s.pc)
    ensures Advance(s, plan) in Ahead(s)
  {
  }

  lemma TunnelAdvances(s: State, plan: Plan)
    requires s in Safe(plan) && Healthy(s) && TunnelPoint(s.pc)
    ensures Advance(s, plan) in Ahead(s)
  {
  }

  lemma SwitchAdvances(s: State, plan: Plan)
    requires s in Safe(plan) && Healthy(s) && EdgePoint(s.pc) && (s.pc.DnsDispatch? || s.pc.RuleDispatch?)
    ensures Advance(s, plan) in Ahead(s)
  {
  }

  lemma GateAdvances(s: State, plan: Plan)
    requires s in Safe(plan) && Healthy(s) && EdgePoint(s.pc) && (s.pc.GateDispatch? || s.pc.ValidateClosed?)
    ensures Advance(s, plan) in Ahead(s)
  {
  }

  lemma EdgeAdvances(s: State, plan: Plan)
    requires s in Safe(plan) && Healthy(s) && EdgePoint(s.pc)
    ensures Advance(s, plan) in Ahead(s)
  {
    if s.pc.DnsDispatch? || s.pc.RuleDispatch? { SwitchAdvances(s, plan); } else { GateAdvances(s, plan); }
  }

  lemma UnfreezeAdvances(s: State, plan: Plan)
    requires s in Safe(plan) && Healthy(s) && FinishPoint(s.pc) && s.pc.Unfreeze?
    ensures Advance(s, plan) in Ahead(s)
  {
  }

  lemma FinishValidateAdvances(s: State, plan: Plan)
    requires s in Safe(plan) && Healthy(s) && s.pc.FinishValidate?
    ensures Advance(s, plan) in Ahead(s)
  {
  }

  lemma FinishTopologyAdvances(s: State, plan: Plan)
    requires s in Safe(plan) && Healthy(s) && s.pc.FinishTopology?
    ensures Advance(s, plan) in Ahead(s)
  {
  }

  lemma FinishAdvances(s: State, plan: Plan)
    requires s in Safe(plan) && Healthy(s) && FinishPoint(s.pc)
    ensures Advance(s, plan) in Ahead(s)
  {
    if s.pc.Unfreeze? { UnfreezeAdvances(s, plan); }
    else if s.pc.FinishValidate? { FinishValidateAdvances(s, plan); }
    else { FinishTopologyAdvances(s, plan); }
  }

  lemma FinishMarkAdvances(s: State, plan: Plan)
    requires s in Safe(plan) && Healthy(s) && s.pc.FinishMark?
    ensures Advance(s, plan) in Ahead(s)
  {
  }

  lemma TerminalAdvances(s: State, plan: Plan)
    requires s in Safe(plan) && Healthy(s) && s.pc.WriteTerminal?
    ensures Advance(s, plan) in Ahead(s)
  {
  }

  lemma HealthyAdvances(s: State, plan: Plan)
    requires s in Safe(plan) && Healthy(s) && !s.pc.Done?
    ensures Advance(s, plan) in Ahead(s)
  {
    if s.pc.BeforeM? || s.pc.Effect? { BeforeAdvances(s, plan); }
    else if s.pc.AfterM? { AfterAdvances(s, plan); }
    else if s.pc.Reconcile? {
      if NeedsReconcile(s.mem, s.pc.m) { ReconcileWritesAdvances(s, plan); } else { ReconcileSkipsAdvances(s, plan); }
    }
    else if s.pc.BeforeProbing? || s.pc.Probing? { ProbeAdvances(s, plan); }
    else if EntryPoint(s.pc) { EntryAdvances(s, plan); }
    else if FlipPoint(s.pc) { FlipAdvances(s, plan); }
    else if ResumePoint(s.pc) { ResumeAdvances(s, plan); }
    else if ClosePoint(s.pc) { CloseAdvances(s, plan); }
    else if TunnelPoint(s.pc) { TunnelAdvances(s, plan); }
    else if EdgePoint(s.pc) { EdgeAdvances(s, plan); }
    else if FinishPoint(s.pc) { FinishAdvances(s, plan); }
    else if s.pc.FinishMark? { FinishMarkAdvances(s, plan); }
    else { TerminalAdvances(s, plan); }
  }

  ghost function Moves(plan: Plan): iset<(State, State)> {
    iset s: State | true :: (s, Advance(s, plan))
  }

  /** The states of one run without crash or exception. */
  ghost predicate Undisturbed(path: seq<State>, plan: Plan) {
    |path| > 0 && forall k :: 0 < k < |path| ==> (path[k - 1], path[k]) in Moves(plan)
  }

  ghost function Completed(): iset<State> {
    iset s: State | s.pc.Done? && Promotion(s.w)
  }

  lemma DoneIsPromotion(s: State, plan: Plan)
    requires s in Safe(plan) && s.pc.Done?
    ensures s in Completed()
  {
  }

  /** The next state of a healthy run. */
  lemma NextHealthy(s: State, plan: Plan) returns (s': State)
    requires s in Safe(plan) && Healthy(s) && !s.pc.Done?
    ensures (s, s') in Moves(plan) && s' in Safe(plan) && s' in Ahead(s)
  {
    HealthyAdvances(s, plan);
    AdvanceKeeps(s, plan);
    s' := Advance(s, plan);
  }

  lemma {:induction false} HealthyCompletes(s: State, plan: Plan) returns (path: seq<State>)
    requires s in Safe(plan) && Healthy(s)
    ensures Undisturbed(path, plan) && path[0] == s && path[|path| - 1] in Completed()
    decreases Rank(s.pc)
  {
    if s.pc.Done? {
      DoneIsPromotion(s, plan);
      path := [s];
    } else {
      var s' := NextHealthy(s, plan);
      var rest := HealthyCompletes(s', plan);
      path := [s] + rest;
    }
  }

  /** Progress: unless the stuck state was left behind, one undisturbed run from any interruption
      completes the transfer. */
  lemma Progress(trace: seq<State>, events: seq<Event>, plan: Plan, i: nat) returns (path: seq<State>)
    requires Run(trace, events, plan) && i < |trace| && trace[i].pc.Idle? && !Stuck(trace[i].w)
    ensures Undisturbed(path, plan) && path[0] == trace[i] && path[|path| - 1] in Completed()
  {
    RunIsSafe(trace, events, plan, i);
    path := HealthyCompletes(trace[i], plan);
  }

  // Conversely, the stuck state is never left, and a crash can lead into it.

  /** The points a run visits from the stuck state before it is refused. */
  predicate Refused(s: State) {
    && Stuck(s.w) && (s.pc.Idle? || s.pc.Enter? || !s.resume)
    && ( || s.pc.Idle? || s.pc.Enter? || s.pc.Forward? || s.pc.Late? || s.pc.Transfer? || s.pc.RetireDispatch? || s.pc.LiveDispatch?
         || s.pc.DnsDispatch? || s.pc.RuleDispatch? || s.pc.GateDispatch? || s.pc.ValidateClosed? || s.pc.Handler?
         || (s.pc.Reconcile? && (s.pc.m.OldRetire? || s.pc.m.CandidateLive? || s.pc.m.DnsCandidate? || s.pc.m.WafException?))
         || ((s.pc.BeforeProbing? || s.pc.Probing?) && s.pc.p.ClosedEdgeProbe?))
  }

  ghost function RefusedStates(): iset<State> {
    iset s | Refused(s)
  }

  lemma RefusedStays(s: State, e: Event, plan: Plan)
    requires s in Safe(plan) && s in RefusedStates()
    ensures Next(s, e, plan) in RefusedStates()
  {
  }

  lemma {:induction false} RefusedForever(s: State, events: seq<Event>, plan: Plan)
    requires s in Safe(plan) && s in RefusedStates()
    ensures Outcome(s, events, plan) in RefusedStates()
    decreases |events|
  {
    if events != [] {
      RefusedStays(s, events[0], plan);
      NextKeeps(s, events[0], plan);
      RefusedForever(Next(s, events[0], plan), events[1..], plan);
    }
  }

  /** From the stuck state no sequence of runs, crashes and retries promotes or changes anything. */
  lemma StuckForever(trace: seq<State>, events: seq<Event>, plan: Plan, i: nat, later: seq<Event>)
    requires Run(trace, events, plan) && i < |trace| && trace[i].pc.Idle? && Stuck(trace[i].w)
    ensures Stuck(Outcome(trace[i], later, plan).w) && !Promotion(Outcome(trace[i], later, plan).w)
  {
    RunIsSafe(trace, events, plan, i);
    RefusedForever(trace[i], later, plan);
  }

  /** The states of healthy runs that have the opening of the gate before them, and those at it. */
  ghost function TowardsOpening(plan: Plan): iset<State> {
    iset s: State | s in Safe(plan) && Healthy(s) && BeforeOpening(s)
  }

  ghost function AtOpening(plan: Plan): iset<State> {
    iset s: State | s in Safe(plan) && s.pc == GateFlip(GateOpen)
  }

  lemma OpeningRank(s: State, plan: Plan)
    requires s in TowardsOpening(plan) && Rank(s.pc) == OPENING
    ensures s in AtOpening(plan)
  {
  }

  lemma NextTowardsOpening(s: State, plan: Plan) returns (s': State)
    requires s in TowardsOpening(plan) && Rank(s.pc) != OPENING
    ensures (s, s') in Moves(plan) && s' in TowardsOpening(plan) && Rank(s'.pc) < Rank(s.pc)
  {
    s' := NextHealthy(s, plan);
  }

  lemma PathCons(s: State, rest: seq<State>, plan: Plan)
    requires Undisturbed(rest, plan) && (s, rest[0]) in Moves(plan)
    ensures Undisturbed([s] + rest, plan)
  {
  }

  lemma {:induction false} ReachesOpening(s: State, plan: Plan) returns (path: seq<State>)
    requires s in TowardsOpening(plan)
    ensures Undisturbed(path, plan) && path[0] == s && path[|path| - 1] in AtOpening(plan)
    decreases Rank(s.pc)
  {
    if Rank(s.pc) == OPENING {
      OpeningRank(s, plan);
      path := [s];
    } else {
      var s' := NextTowardsOpening(s, plan);
      var rest := ReachesOpening(s', plan);
      PathCons(s, rest, plan);
      path := [s] + rest;
    }
  }

  /** The stuck state is real: every transfer that has not opened the gate yet can reach it by one
      crash of an otherwise undisturbed run. */
  lemma CrashCanStick(trace: seq<State>, events: seq<Event>, plan: Plan, i: nat) returns (path: seq<State>)
    requires Run(trace, events, plan) && i < |trace| && trace[i].pc.Idle? && !Stuck(trace[i].w)
    requires RuleStage(trace[i].w) < 3 && (trace[i].w.rule.Exception? ==> trace[i].w.gate.Closed?)
    ensures Undisturbed(path, plan) && path[0] == trace[i] && Stuck(Next(path[|path| - 1], Crash, plan).w)
  {
    RunIsSafe(trace, events, plan, i);
    path := ReachesOpening(trace[i], plan);
  }
}
