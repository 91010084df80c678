/** The authority fence over whole runs (src/agent.cpp:846-924): an agent never goes back to an older controller epoch, and
    within an epoch stays with the incarnation it knows. */
module AgentFence {
  import opened Prelude
  import opened AgentState
  import opened Messages
  import opened AgentModel
  import opened AgentInvariants
  import opened AgentHandlers
  import opened AgentRecovery
  import opened AgentRuns
  import AgentLineage

  predicate NoOlder(a: ControllerFence, b: ControllerFence) {
    && a.epoch <= b.epoch
    && (a.epoch == b.epoch != 0 && a.incarnation != Zeros(16) ==> b.incarnation == a.incarnation)
  }

  predicate LeavesFence(e: Effect) {
    !(e.Commit? && e.record.AgentControllerFence?)
  }

  lemma {:induction false} FenceStays(w: World, es: seq<Effect>)
    requires forall e :: e in es ==> LeavesFence(e)
    ensures Run(w, es).dur.fence == w.dur.fence
    decreases |es|
  {
    if es != [] {
      assert LeavesFence(es[0]);
      FenceStays(Do(w, es[0]), es[1..]);
    }
  }

  lemma OthersLeaveFence(cfg: Config, w: World, i: Input, e: Effect)
    requires ValidInput(w, i) && !i.message.Hello? && e in Handle(cfg, w, i).effects
    ensures LeavesFence(e)
  {
    hide Run, Do, Apply, PrepareOutcome, ChunkOutcome, CompleteOutcome, ApplyCommitOutcome, StageOutcome;
    match i.message
    case Prepare(m) => PrepareLeavesFence(cfg, w, m, i.now, e);
    case Chunk(s, o, data) => ChunkLeavesFence(w, s, o, data, i.now, e);
    case TransferComplete(d, h, n) => CompleteLeavesFence(cfg, w, d, h, n, i.now, e);
    case Stage(d, g, h) => StageLeavesFence(w, d, g, h, i.now, e);
    case ApplyCommit(d, g, h) => CommitLeavesFence(cfg, w, d, g, h, i.now, e);
    case ApplyAbort(d, g) => assert e in ApplyAbortOutcome(w, d, g).effects;
    case _ =>
  }

  lemma PrepareLeavesFence(cfg: Config, w: World, m: PrepareMessage, now: i64, e: Effect)
    requires e in PrepareOutcome(cfg, w, m, now).effects
    ensures LeavesFence(e)
  {
    hide Run, Do, Apply;
  }

  lemma ChunkLeavesFence(w: World, stream: u64, offset: u64, data: Bytes, now: i64, e: Effect)
    requires e in ChunkOutcome(w, stream, offset, data, now).effects
    ensures LeavesFence(e)
  {
    hide Run, Do, Apply;
  }

  lemma CompleteLeavesFence(cfg: Config, w: World, d: Id, h: Digest, n: u64, now: i64, e: Effect)
    requires e in CompleteOutcome(cfg, w, d, h, n, now).effects
    ensures LeavesFence(e)
  {
    hide Run, Do, Apply;
  }

  lemma StageLeavesFence(w: World, d: Id, g: u64, h: Digest, now: i64, e: Effect)
    requires e in StageOutcome(w, d, g, h, now).effects
    ensures LeavesFence(e)
  {
    hide Run, Do, Apply;
  }

  lemma CommitLeavesFence(cfg: Config, w: World, d: Id, g: u64, h: Digest, now: i64, e: Effect)
    requires e in ApplyCommitOutcome(cfg, w, d, g, h, now).effects
    ensures LeavesFence(e)
  {
    hide Run, Do, Apply;
  }

  /** One session establishment: an older epoch, or another incarnation of the known one, changes nothing. */
  lemma HelloFences(cfg: Config, w: World, f: ControllerFence, n: nat)
    requires w.mem.fence == w.dur.fence && n <= |HelloOutcome(w, f).effects|
    ensures NoOlder(w.dur.fence, Run(w, HelloOutcome(w, f).effects[..n]).dur.fence)
  {
    var es := HelloOutcome(w, f).effects;
    if n == 0 {
      assert es[..0] == [];
    } else {
      assert es[..n] == es == [Commit(AgentControllerFence(f))];
      OneEffect(cfg, w, es[0]);
    }
  }

  lemma HandleFences(cfg: Config, w: World, i: Input, n: nat)
    requires Alive(cfg, w) && ValidInput(w, i) && n <= |Handle(cfg, w, i).effects|
    ensures NoOlder(w.dur.fence, Run(w, Handle(cfg, w, i).effects[..n]).dur.fence)
  {
    var es := Handle(cfg, w, i).effects;
    if i.message.Hello? {
      SameFence(cfg, w);
      HelloFences(cfg, w, i.message.fence, n);
    } else {
      hide Handle, Run, Alive;
      forall e | e in es[..n] ensures LeavesFence(e) { OthersLeaveFence(cfg, w, i, e); }
      FenceStays(w, es[..n]);
    }
  }

  lemma SameFence(cfg: Config, w: World)
    requires Alive(cfg, w)
    ensures w.mem.fence == w.dur.fence
  {
  }

  lemma BootFences(cfg: Config, w: World, l: Listing, n: nat)
    requires w.mem == w.dur && CanBoot(w.mem) && ValidListing(cfg, w, l) && n <= |Boot(cfg, w, l)|
    ensures Run(w, Boot(cfg, w, l)[..n]).dur.fence == w.dur.fence
  {
    hide Boot, Run, ValidListing;
    var es := Boot(cfg, w, l);
    forall e | e in es[..n] ensures LeavesFence(e) { AgentLineage.BootNoSwitch(cfg, w, l, e); }
    FenceStays(w, es[..n]);
  }

  lemma StepFences(cfg: Config, p: Process, e: Event)
    requires Consistent(cfg, p) && Enabled(cfg, p, e)
    ensures NoOlder(p.w.dur.fence, Next(cfg, p, e).w.dur.fence)
  {
    hide Handle, Boot, Run, ValidListing, Alive;
    match e
    case Handled(i) =>
      var es := Handle(cfg, p.w, i).effects;
      HandleFences(cfg, p.w, i, |es|);
      assert es[..|es|] == es;
    case Cut(i, n) => HandleFences(cfg, p.w, i, n);
    case Booted(l) =>
      var es := Boot(cfg, Reload(p.w), l);
      BootFences(cfg, Reload(p.w), l, |es|);
      assert es[..|es|] == es;
    case BootCut(l, n) => BootFences(cfg, Reload(p.w), l, n);
  }

  /** Over any run, with crashes and restarts anywhere, the controller epoch an agent has accepted never decreases, and
      while it stays the same so does the incarnation that established it. */
  lemma {:induction false} FenceNeverFalls(cfg: Config, ps: seq<Process>, es: seq<Event>, i: nat, j: nat)
    requires Trace(cfg, ps, es) && i <= j < |ps|
    ensures NoOlder(ps[i].w.dur.fence, ps[j].w.dur.fence)
    decreases j - i
  {
    hide Enabled, Next, Consistent;
    if i < j {
      TraceConsistent(cfg, ps, es, j - 1);
      StepFences(cfg, ps[j - 1], es[j - 1]);
      FenceNeverFalls(cfg, ps, es, i, j - 1);
    }
  }

  /** So a controller that was superseded is refused for good. */
  lemma SupersededIsRefused(cfg: Config, ps: seq<Process>, es: seq<Event>, i: nat, j: nat, f: ControllerFence)
    requires Trace(cfg, ps, es) && i <= j < |ps| && ps[j].up
    requires f.epoch < ps[i].w.dur.fence.epoch
             || (f.epoch == ps[i].w.dur.fence.epoch == ps[j].w.dur.fence.epoch != 0
                 && ps[i].w.dur.fence.incarnation != Zeros(16) && f.incarnation != ps[i].w.dur.fence.incarnation)
    ensures HelloOutcome(ps[j].w, f).effects == [] && HelloOutcome(ps[j].w, f).replies[0].AuthReject?
  {
    hide Trace;
    FenceNeverFalls(cfg, ps, es, i, j);
    TraceConsistent(cfg, ps, es, j);
    SameFence(cfg, ps[j].w);
  }
}
