/** Whole runs of one agent: any messages, a crash between any two effects, any number of restarts,
    each of which may itself be cut. */
module AgentRuns {
  import opened Prelude
  import opened Lifecycle
  import opened AgentState
  import opened Messages
  import opened AgentModel
  import opened AgentInvariants
  import opened AgentHandlers
  import opened AgentRecovery

  /** `up` says whether a process is serving; when it is not, only `dur`, the files and the history remain. */
  datatype Process = Process(w: World, up: bool)

  datatype Event =
    | Handled(input: Input)
    | Cut(input: Input, n: nat)
    | Booted(listing: Listing)
    | BootCut(listing: Listing, n: nat)

  ghost predicate CanStart(cfg: Config, w: World, l: Listing) {
    CanBoot(w.dur) && ValidListing(cfg, Reload(w), l)
  }

  ghost predicate Enabled(cfg: Config, p: Process, e: Event) {
    match e
    case Handled(i) => p.up && ValidInput(p.w, i)
    case Cut(i, n) => p.up && ValidInput(p.w, i) && n <= |Handle(cfg, p.w, i).effects|
    case Booted(l) => !p.up && CanStart(cfg, p.w, l)
    case BootCut(l, n) => !p.up && CanStart(cfg, p.w, l) && n <= |Boot(cfg, Reload(p.w), l)|
  }

  ghost function Next(cfg: Config, p: Process, e: Event): Process
    requires Enabled(cfg, p, e)
  {
    match e
    case Handled(i) => Process(Run(p.w, Handle(cfg, p.w, i).effects), true)
    case Cut(i, n) => Process(Run(p.w, Handle(cfg, p.w, i).effects[..n]), false)
    case Booted(l) => Process(Run(Reload(p.w), Boot(cfg, Reload(p.w), l)), true)
    case BootCut(l, n) => Process(Run(Reload(p.w), Boot(cfg, Reload(p.w), l)[..n]), false)
  }

  /** A run from an empty disk: the states passed through and the events between them. */
  ghost predicate Trace(cfg: Config, ps: seq<Process>, es: seq<Event>) {
    && |ps| == |es| + 1
    && ps[0] == Process(FRESH, false)
    && forall i :: 0 <= i < |es| ==> Enabled(cfg, ps[i], es[i]) && ps[i + 1] == Next(cfg, ps[i], es[i])
  }

  predicate Consistent(cfg: Config, p: Process) {
    Inv(cfg, p.w) && (p.up ==> Alive(cfg, p.w))
  }

  lemma StepConsistent(cfg: Config, p: Process, e: Event)
    requires Consistent(cfg, p) && Enabled(cfg, p, e)
    ensures Consistent(cfg, Next(cfg, p, e))
  {
    match e
    case Handled(i) => HandleSound(cfg, p.w, i);
    case Cut(i, n) => HandleSound(cfg, p.w, i);
    case Booted(l) => BootSound(cfg, Reload(p.w), l);
    case BootCut(l, n) =>
      BootSound(cfg, Reload(p.w), l);
      PrefixKeepsInv(cfg, Reload(p.w), Boot(cfg, Reload(p.w), l), n);
  }

  lemma FreshConsistent(cfg: Config)
    ensures Consistent(cfg, Process(FRESH, false))
  {
  }

  /** Every state of every run satisfies the crash invariant, and every serving state is live and consistent. */
  lemma {:induction false} TraceConsistent(cfg: Config, ps: seq<Process>, es: seq<Event>, i: nat)
    requires Trace(cfg, ps, es) && i < |ps|
    ensures Consistent(cfg, ps[i])
    decreases i
  {
    hide Next, Enabled, Consistent;
    if i == 0 {
      FreshConsistent(cfg);
    } else {
      TraceConsistent(cfg, ps, es, i - 1);
      StepConsistent(cfg, ps[i - 1], es[i - 1]);
    }
  }

  /** Digest before activation: whenever a live pointer names (g, d), the payload stored for it hashes to d. */
  lemma DigestBeforeActivation(cfg: Config, ps: seq<Process>, es: seq<Event>, i: nat, k: Id)
    requires Trace(cfg, ps, es) && i < |ps| && k in ps[i].w.files.current
    ensures var f := ps[i].w.files;
            var p := f.current[k];
            (k, p.generation, p.digest) in f.payload && cfg.hash(f.payload[(k, p.generation, p.digest)]) == p.digest
  {
    TraceConsistent(cfg, ps, es, i);
    assert Holds(cfg, ps[i].w.files, k, ps[i].w.files.current[k].generation, ps[i].w.files.current[k].digest);
  }

  /** Staged content is verified content: a transfer a serving agent calls verified is complete and its staging
      file hashes to the digest; one it calls staged also has the payload in place. */
  lemma VerifiedMeansHashed(cfg: Config, ps: seq<Process>, es: seq<Event>, i: nat, d: Id)
    requires Trace(cfg, ps, es) && i < |ps| && ps[i].up && d in ps[i].w.mem.transfers
    ensures var w := ps[i].w;
            var r := w.mem.transfers[d];
            && (d in w.files.staging ==> |w.files.staging[d]| == r.bytesReceived)
            && (r.verified ==> r.bytesReceived == r.totalBytes && (d in w.files.staging ==> cfg.hash(w.files.staging[d]) == r.digest))
            && (r.staged ==> r.verified && Holds(cfg, w.files, r.key, r.generation, r.digest))
  {
    TraceConsistent(cfg, ps, es, i);
    var w := ps[i].w;
    assert Ahead(w.dur.transfers[d], w.mem.transfers[d]) && FileExact(w.files, w.mem.transfers[d]);
    assert Backed(cfg, w.files, w.dur.transfers[d]);
  }

  // ---- Interrupted transfers ----

  /** The transfer goes on with its checkpointed record and exactly the checkpointed bytes. */
  predicate GoesOn(w: World, w': World, d: Id) {
    && d in w.dur.transfers && d in w.files.staging && w.dur.transfers[d].bytesReceived <= |w.files.staging[d]|
    && d in w'.mem.transfers && d in w'.dur.transfers && d in w'.files.staging
    && w'.mem.transfers[d] == w'.dur.transfers[d] == w.dur.transfers[d]
    && w'.files.staging[d] == w.files.staging[d][..w.dur.transfers[d].bytesReceived]
  }

  /** In every run: of the transfers recorded when a process starts, those whose staging file is there survive, each with
      its checkpointed record and exactly the checkpointed bytes. */
  lemma CheckpointSurvives(cfg: Config, ps: seq<Process>, es: seq<Event>, i: nat, d: Id)
    requires Trace(cfg, ps, es) && i < |es| && es[i].Booted? && d in ps[i].w.dur.transfers
    ensures d in ps[i + 1].w.mem.transfers <==> d in ps[i].w.files.staging
    ensures d in ps[i].w.files.staging ==> GoesOn(ps[i].w, ps[i + 1].w, d)
  {
    TraceConsistent(cfg, ps, es, i);
    StartedOn(cfg, ps[i], es[i].listing, d);
  }

  lemma StartedOn(cfg: Config, p: Process, l: Listing, d: Id)
    requires Consistent(cfg, p) && Enabled(cfg, p, Booted(l)) && d in p.w.dur.transfers
    ensures var w' := Next(cfg, p, Booted(l)).w;
            && (d in w'.mem.transfers <==> d in p.w.files.staging)
            && (d in p.w.files.staging ==> GoesOn(p.w, w', d))
  {
    hide Boot, Run, ValidListing;
    assert Backed(cfg, p.w.files, p.w.dur.transfers[d]);
    StartKeepsExactly(cfg, Reload(p.w), l, d);
    BootSound(cfg, Reload(p.w), l);
  }

  /** A process killed between two messages and started again goes on with every transfer that had received anything, from
      its last checkpoint. */
  lemma KilledGoesOn(cfg: Config, ps: seq<Process>, es: seq<Event>, i: nat, d: Id)
    requires Trace(cfg, ps, es) && i + 1 < |es| && es[i].Cut? && es[i].n == 0 && es[i + 1].Booted?
    requires d in ps[i].w.mem.transfers && ps[i].w.mem.transfers[d].bytesReceived > 0
    ensures GoesOn(ps[i].w, ps[i + 2].w, d)
  {
    hide Boot, Run, ValidListing, Handle, GoesOn;
    TraceConsistent(cfg, ps, es, i);
    var w := ps[i].w;
    assert FileExact(w.files, w.mem.transfers[d]) && Ahead(w.dur.transfers[d], w.mem.transfers[d]);
    KilledIsUnchanged(cfg, ps[i], es[i]);
    CheckpointSurvives(cfg, ps, es, i + 1, d);
  }

  lemma KilledIsUnchanged(cfg: Config, p: Process, e: Event)
    requires Enabled(cfg, p, e) && e.Cut? && e.n == 0
    ensures Next(cfg, p, e).w == p.w
  {
    hide Handle;
    assert Handle(cfg, p.w, e.input).effects[..0] == [];
  }

  // ---- The prepare window ----

  /** An atomic target never has a window open. */
  lemma AtomicHasNoWindow(cfg: Config, ps: seq<Process>, es: seq<Event>, i: nat)
    requires Trace(cfg, ps, es) && i < |ps| && cfg.guarantee == AtomicActivate
    ensures !ps[i].w.dur.window.applyPrepared
    ensures ps[i].up ==> !ps[i].w.mem.window.applyPrepared
  {
    TraceConsistent(cfg, ps, es, i);
  }

  lemma OnlyCommitsSwitch(cfg: Config, w: World, i: Input, e: Effect)
    requires ValidInput(w, i) && !i.message.ApplyCommit? && e in Handle(cfg, w, i).effects
    ensures !e.SwitchCurrent?
  {
    hide ApplyCommitOutcome, PrepareOutcome, ChunkOutcome, CompleteOutcome, Apply, Do;
    match i.message
    case Prepare(m) => PrepareDoesNotSwitch(cfg, w, m, i.now, e);
    case Chunk(s, o, data) => ChunkDoesNotSwitch(w, s, o, data, i.now, e);
    case TransferComplete(d, h, n) => CompleteDoesNotSwitch(cfg, w, d, h, n, i.now, e);
    case ApplyAbort(d, g) => assert e in ApplyAbortOutcome(w, d, g).effects;
    case _ =>
  }

  lemma PrepareDoesNotSwitch(cfg: Config, w: World, m: PrepareMessage, now: i64, e: Effect)
    requires e in PrepareOutcome(cfg, w, m, now).effects
    ensures !e.SwitchCurrent?
  {
    hide Apply, Do;
  }

  lemma ChunkDoesNotSwitch(w: World, stream: u64, offset: u64, data: Bytes, now: i64, e: Effect)
    requires e in ChunkOutcome(w, stream, offset, data, now).effects
    ensures !e.SwitchCurrent?
  {
    hide Apply, Do;
  }

  lemma CompleteDoesNotSwitch(cfg: Config, w: World, d: Id, h: Digest, n: u64, now: i64, e: Effect)
    requires e in CompleteOutcome(cfg, w, d, h, n, now).effects
    ensures !e.SwitchCurrent?
  {
    hide Apply, Do;
  }

  lemma CommitSwitch(cfg: Config, w: World, d: Id, g: u64, h: Digest, now: i64, e: Effect)
    requires e in ApplyCommitOutcome(cfg, w, d, g, h, now).effects && e.SwitchCurrent?
    ensures Admits(cfg, w, d, g, h)
    ensures var r := w.mem.transfers[d]; e == SwitchCurrent(r.key, Pointer(r.generation, r.digest, r.artifact))
  {
  }

  /** The only effect list with a pointer switch is the activation of the commit message's own transfer. */
  lemma SwitchShape(cfg: Config, w: World, i: Input, e: Effect)
    requires ValidInput(w, i) && e in Handle(cfg, w, i).effects && e.SwitchCurrent?
    ensures i.message.ApplyCommit?
    ensures var d := i.message.deployment;
            && d in w.mem.transfers && w.mem.transfers[d].staged
            && e == SwitchCurrent(w.mem.transfers[d].key,
                                  Pointer(w.mem.transfers[d].generation, w.mem.transfers[d].digest, w.mem.transfers[d].artifact))
            && e.pointer.generation == i.message.generation && e.pointer.digest == i.message.digest
            && (cfg.guarantee == PrepareCommitAbort ==> w.mem.window.applyPrepared)
            && (w.mem.window.applyPrepared ==> w.mem.window.deployment == d)
            && (IsSet(w.mem.committed) ==> w.mem.committed.generation < e.pointer.generation)
  {
    hide PrepareOutcome, ChunkOutcome, CompleteOutcome, StageOutcome, ApplyPrepareOutcome, ApplyCommitOutcome, ApplyAbortOutcome, RetireOutcome;
    if i.message.ApplyCommit? {
      CommitSwitch(cfg, w, i.message.deployment, i.message.generation, i.message.digest, i.now, e);
    } else {
      OnlyCommitsSwitch(cfg, w, i, e);
    }
  }

  /** Every activation on a prepare/commit target is of exactly the deployment, generation and digest recorded
      when the window was opened, although the commit itself compares only the deployment. */
  lemma WindowIntegrity(cfg: Config, ps: seq<Process>, es: seq<Event>, n: nat, i: Input, e: Effect)
    requires Trace(cfg, ps, es) && n < |ps| && ps[n].up && ValidInput(ps[n].w, i)
    requires cfg.guarantee == PrepareCommitAbort
    requires e in Handle(cfg, ps[n].w, i).effects && e.SwitchCurrent?
    ensures var window := ps[n].w.mem.window;
            && window.applyPrepared && i.message.ApplyCommit? && i.message.deployment == window.deployment
            && e.pointer.generation == window.generation && e.pointer.digest == window.digest
  {
    TraceConsistent(cfg, ps, es, n);
    var w := ps[n].w;
    SwitchShape(cfg, w, i, e);
    assert Ahead(w.dur.transfers[w.mem.window.deployment], w.mem.transfers[w.mem.window.deployment]);
    assert Describes(w.dur.window, w.dur.transfers[w.dur.window.deployment]);
  }
}
