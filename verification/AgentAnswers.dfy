/** What the agent grants and what it refuses, question by question: each grant has its exact condition and its effect on the
    world, each refusal its cause, and a refusal changes nothing but counters. */
module AgentAnswers {
  import opened Prelude
  import opened Lifecycle
  import opened AgentState
  import opened Messages
  import opened AgentModel
  import opened AgentInvariants
  import opened AgentProgress
  import AgentManyKeys

  /** Nothing changed but counters. */
  predicate OnlyCounted(w: World, w': World) {
    w' == w.(mem := w.mem.(counters := w'.mem.counters), dur := w.dur.(counters := w'.dur.counters))
  }

  // ---- Greeting ----

  /** The target's answer to a greeting it accepts. */
  function Greeting(w: World): Reply {
    HelloAck(w.mem.identity.target, w.mem.identity.klass, w.mem.identity.guarantee, w.mem.identity.term, w.mem.identity.incarnation, w.mem.committed)
  }

  /** Of a newer epoch, or of the known one from the known incarnation. */
  predicate Greets(w: World, hello: ControllerFence) {
    w.mem.fence.epoch == 0 || hello.epoch > w.mem.fence.epoch
    || (hello.epoch == w.mem.fence.epoch && (w.mem.fence.incarnation == Zeros(16) || hello.incarnation == w.mem.fence.incarnation))
  }

  /** A greeting without a node name keeps the name known. */
  function Adopted(was: ControllerFence, hello: ControllerFence): ControllerFence {
    if hello.node == UNSET then hello.(node := was.node) else hello
  }

  /** The world of a target that accepted the greeting. */
  function Greeted(w: World, hello: ControllerFence): World {
    w.(mem := w.mem.(fence := Adopted(w.mem.fence, hello)), dur := w.dur.(fence := Adopted(w.dur.fence, hello)))
  }

  /** The fence accepts every newer epoch and the known incarnation of the known one, records the authority before it
      answers, and refuses exactly the others: an older epoch as stale, another incarnation as fenced. */
  lemma GreetingIff(cfg: Config, w: World, hello: ControllerFence, now: i64)
    ensures var o := Handle(cfg, w, Says(Hello(hello), now));
            && |o.replies| == 1
            && (Greets(w, hello) ==> o.replies[0] == Greeting(w) && After(cfg, w, Hello(hello), now) == Greeted(w, hello))
            && (!Greets(w, hello) ==>
                  && o.replies[0] == AuthReject(if hello.epoch < w.mem.fence.epoch then StaleEpoch else FencedIncarnation)
                  && After(cfg, w, Hello(hello), now) == w)
  {
    var e := Commit(AgentControllerFence(hello));
    OneEffect(cfg, w, e);
    if Greets(w, hello) { assert Handle(cfg, w, Says(Hello(hello), now)).effects == [e]; }
  }

  // ---- Offers ----

  /** Why an offer is refused, if it is: the first of these that applies. */
  function Objection(cfg: Config, w: World, m: PrepareMessage): Option<Code> {
    var c := w.mem.committed;
    if m.sizeBytes > cfg.maxArtifactBytes then Some(OversizePayload)
    else if c.generation > m.generation then Some(StaleGeneration)
    else if IsSet(c) && c.generation == m.generation && c.digest != m.digest then Some(GenerationConflict)
    else if !GuaranteeSatisfies(cfg.guarantee, m.requirement) then Some(GuaranteeUnsupported)
    else if w.mem.window.applyPrepared then Some(Busy)
    else None
  }

  /** An offer is refused exactly when there is an objection, with its code, and then nothing changes. A pair the agent
      remembers activating for this key is answered as a duplicate, and nothing changes either; every other offer without
      an objection is accepted and recorded under its own stream. */
  lemma OfferIff(cfg: Config, w: World, m: PrepareMessage, now: i64)
    requires Decodable(Prepare(m))
    ensures var o, w' := Handle(cfg, w, Says(Prepare(m), now)), After(cfg, w, Prepare(m), now);
            && |o.replies| == 1
            && (Objection(cfg, w, m).Some? ==>
                  o.replies[0] == PrepareReject(m.deployment, Objection(cfg, w, m).value, w.mem.committed.generation) && OnlyCounted(w, w'))
            && (Objection(cfg, w, m).None? && Found(w, m) ==>
                  && o.replies[0] == PrepareAck(m.deployment, m.stream, m.sizeBytes, true, m.generation, m.digest, w.mem.committed)
                  && OnlyCounted(w, w'))
            && (Acceptable(cfg, w, m) <==> Objection(cfg, w, m).None? && !Found(w, m))
            && (Acceptable(cfg, w, m) ==>
                  && o.replies[0].PrepareAck? && o.replies[0].deployment == m.deployment && o.replies[0].stream == m.stream
                  && !o.replies[0].duplicateSuppressed
                  && m.deployment in w'.mem.transfers
                  && w'.mem.transfers[m.deployment] == NewTransfer(m, o.replies[0].resumeFrom, now))
  {
    OneEffect(cfg, w, NoteStale(w.mem.counters));
    OneEffect(cfg, w, NoteDuplicate(w.mem.counters));
    if Acceptable(cfg, w, m) { AcceptedIsRecorded(cfg, w, m, now); }
  }

  lemma AcceptedIsRecorded(cfg: Config, w: World, m: PrepareMessage, now: i64)
    requires Decodable(Prepare(m)) && Acceptable(cfg, w, m)
    ensures var o, w' := Handle(cfg, w, Says(Prepare(m), now)), After(cfg, w, Prepare(m), now);
            && |o.replies| == 1 && o.replies[0].PrepareAck? && o.replies[0].deployment == m.deployment && o.replies[0].stream == m.stream
            && !o.replies[0].duplicateSuppressed && m.deployment in w'.mem.transfers
            && w'.mem.transfers[m.deployment] == NewTransfer(m, o.replies[0].resumeFrom, now)
  {
    hide ResumePoint, Acceptable, Destroy;
    var (from, stale) := ResumePoint(w, m);
    var e := Commit(AgentTransferUpsert(NewTransfer(m, from, now)));
    var first := if stale then Destroy(w, m.deployment) else [];
    assert PrepareOutcome(cfg, w, m, now).effects == first + [e] by { AcceptedShape(cfg, w, m, now); }
    RunConcat(w, first, [e]);
    OneEffect(cfg, Run(w, first), e);
    AcceptedShape(cfg, w, m, now);
  }

  lemma AcceptedShape(cfg: Config, w: World, m: PrepareMessage, now: i64)
    requires Acceptable(cfg, w, m)
    ensures var (from, stale) := ResumePoint(w, m);
            PrepareOutcome(cfg, w, m, now) ==
              Outcome((if stale then Destroy(w, m.deployment) else []) + [Commit(AgentTransferUpsert(NewTransfer(m, from, now)))],
                      [PrepareAck(m.deployment, m.stream, from, false, w.mem.committed.generation, w.mem.committed.digest, w.mem.committed)])
  {
    hide ResumePoint, Destroy;
  }

  // ---- Chunks ----

  /** A chunk is taken exactly when it starts where the transfer of its stream ends, fits, and the file it continues is there;
      a refusal changes nothing and tells how much the transfer has. */
  lemma ChunkIff(cfg: Config, w: World, stream: u64, offset: u64, data: Bytes, now: i64)
    requires Decodable(Chunk(stream, offset, data))
    ensures var o, w' := Handle(cfg, w, Says(Chunk(stream, offset, data), now)), After(cfg, w, Chunk(stream, offset, data), now);
            && |o.replies| == 1 && o.replies[0].ChunkAck? && o.replies[0].stream == stream
            && (o.replies[0].code == Success <==> exists d :: IsFirstWithStream(w.mem.transfers, stream, d) && Continues(w, d, offset, data))
            && (o.replies[0].code == Success ==> o.replies[0].bytesReceived == offset + |data|)
            && (o.replies[0].code != Success ==> w' == w)
            && forall d :: IsFirstWithStream(w.mem.transfers, stream, d) && !Continues(w, d, offset, data) ==>
                 o.replies[0].bytesReceived == w.mem.transfers[d].bytesReceived
  {
    hide ChunkEffects, IsFirstWithStream;
    forall d, e | IsFirstWithStream(w.mem.transfers, stream, d) && IsFirstWithStream(w.mem.transfers, stream, e) ensures d == e {
      FirstWithStreamUnique(w.mem.transfers, stream, d, e);
    }
    match FindStream(w.mem.transfers, stream)
    case None => NoneFound(w.mem.transfers, stream);
    case Some(d) => assert d in w.mem.transfers by { FoundIsThere(w.mem.transfers, stream, d); }
  }

  predicate Continues(w: World, d: Id, offset: u64, data: Bytes) {
    && d in w.mem.transfers && offset == w.mem.transfers[d].bytesReceived && offset + |data| <= w.mem.transfers[d].totalBytes
    && (offset != 0 ==> d in w.files.staging)
  }

  lemma NoneFound(transfers: map<Id, TransferRecord>, stream: u64)
    ensures FindStream(transfers, stream).None? ==> forall d :: !IsFirstWithStream(transfers, stream, d)
  {
  }

  lemma FoundIsThere(transfers: map<Id, TransferRecord>, stream: u64, d: Id)
    requires IsFirstWithStream(transfers, stream, d)
    ensures d in transfers
  {
  }

  // ---- Completion ----

  /** A transfer is verified exactly when it is complete, is what the message declares, and its file has the announced length
      and hash. If it is complete and as declared but the file does not, it is destroyed and the failure reported twice;
      any other refusal changes nothing. */
  lemma CompletionIff(cfg: Config, w: World, d: Id, h: Digest, n: u64, now: i64)
    requires d != UNSET && d in w.mem.transfers && w.mem.transfers[d].deployment == d && w.mem.transfers[d].totalBytes != 0
    ensures var o, w' := Handle(cfg, w, Says(TransferComplete(d, h, n), now)), After(cfg, w, TransferComplete(d, h, n), now);
            var r := w.mem.transfers[d];
            var declared := r.bytesReceived == r.totalBytes == n && r.digest == h;
            var intact := d in w.files.staging && |w.files.staging[d]| == r.totalBytes && cfg.hash(w.files.staging[d]) == r.digest;
            && o.replies != [] && o.replies[0].TransferResult?
            && (o.replies[0].verified <==> declared && intact)
            && (declared && intact ==> w'.files == w.files && w'.mem.transfers == w.mem.transfers[d := r.(verified := true, updatedAt := now)])
            && (declared && !intact ==>
                  && w'.mem.transfers == w.mem.transfers - {d} && w'.files == w.files.(staging := w.files.staging - {d})
                  && o.replies == [TransferResult(d, false, r.bytesReceived, DigestMismatch), DeliveryNack(d, DigestMismatch)])
            && (!declared ==> w' == w)
  {
    var r := w.mem.transfers[d];
    OneEffect(cfg, w, Commit(AgentTransferUpsert(r.(verified := true, updatedAt := now))));
    var note := NoteRejection(w.mem.counters);
    OneEffect(cfg, w, note);
    var w1 := Do(w, note);
    TwoEffects(cfg, w1, RemoveStaging(d), Commit(AgentTransferRemove(d)));
    RunConcat(w, [note], [RemoveStaging(d), Commit(AgentTransferRemove(d))]);
    assert Destroy(w, d) == [RemoveStaging(d), Commit(AgentTransferRemove(d))];
  }

  // ---- Staging and the prepare window ----

  /** A transfer is staged exactly when it is verified, is of this pair, is not older than what is committed, and its file is
      there; then its file is the payload of the pair. Otherwise nothing changes. */
  lemma StagingIff(cfg: Config, w: World, d: Id, g: u64, h: Digest, now: i64)
    requires d != UNSET && g != 0 && (d in w.mem.transfers ==> w.mem.transfers[d].deployment == d)
    ensures var o, w' := Handle(cfg, w, Says(Stage(d, g, h), now)), After(cfg, w, Stage(d, g, h), now);
            var ready := d in w.mem.transfers && w.mem.transfers[d].verified && w.mem.transfers[d].generation == g && w.mem.transfers[d].digest == h
                         && w.mem.committed.generation <= g && d in w.files.staging;
            && |o.replies| == 1 && o.replies[0].StageAck? && (o.replies[0].staged <==> ready)
            && (ready ==> d in w'.mem.transfers && w'.mem.transfers[d].staged
                          && w'.files == w.files.(payload := w.files.payload[(w.mem.transfers[d].key, g, h) := w.files.staging[d]]))
            && (!ready ==> w' == w)
  {
    if d in w.mem.transfers {
      var r := w.mem.transfers[d];
      TwoEffects(cfg, w, PlacePayload(d, r.key, r.generation, r.digest), Commit(AgentTransferUpsert(r.(staged := true, updatedAt := now))));
    }
  }

  /** A window is opened exactly for a staged transfer of this pair, not older than what is committed, at a target that commits
      in windows and holds none; the marker then names the pair. Otherwise nothing changes. */
  lemma WindowIff(cfg: Config, w: World, d: Id, g: u64, h: Digest, now: i64)
    requires d != UNSET && g != 0 && (d in w.mem.transfers ==> w.mem.transfers[d].deployment == d)
    ensures var o, w' := Handle(cfg, w, Says(ApplyPrepare(d, g, h), now)), After(cfg, w, ApplyPrepare(d, g, h), now);
            var ready := cfg.guarantee == PrepareCommitAbort && !w.mem.window.applyPrepared && d in w.mem.transfers && w.mem.transfers[d].staged
                         && w.mem.transfers[d].generation == g && w.mem.transfers[d].digest == h && w.mem.committed.generation <= g;
            && |o.replies| == 1 && o.replies[0].ApplyPrepareAck? && (o.replies[0].prepared <==> ready)
            && (ready ==> w'.mem.window == w'.dur.window == Window(true, d, g, h)
                          && w'.files == w.files.(pending := w.files.pending[w.mem.transfers[d].key := Pointer(g, h, UNSET)]))
            && (!ready ==> w' == w)
  {
    if d in w.mem.transfers {
      var r := w.mem.transfers[d];
      TwoEffects(cfg, w, WritePending(r.key, Pointer(g, h, UNSET)), Commit(AgentApplyPrepared(r.deployment, g, h)));
    }
  }

  // ---- Abort and retirement ----

  predicate NamesWindow(w: World, d: Id, g: u64) {
    w.mem.window.applyPrepared && w.mem.window.deployment == d && w.mem.window.generation == g
  }

  lemma AbortRun(cfg: Config, w: World, d: Id, g: u64)
    requires NamesWindow(w, d, g)
    ensures var w' := Run(w, ApplyAbortOutcome(w, d, g).effects);
            && w'.mem == w.mem.(counters := w'.mem.counters, window := CLOSED) && w'.dur == w.dur.(counters := w'.dur.counters, window := CLOSED)
            && w' == w.(mem := w'.mem, dur := w'.dur, files := w'.files)
            && w'.files == w.files.(pending := if d in w.mem.transfers then w.files.pending - {w.mem.transfers[d].key} else w.files.pending)
  {
    hide Run;
    var first := if d in w.mem.transfers then [RemovePending(w.mem.transfers[d].key)] else [];
    var closing := [NoteRollback(w.mem.counters), Commit(AgentApplyResolved(w.mem.counters.activations))];
    FirstRun(cfg, w, d);
    ClosingRun(cfg, Run(w, first), w.mem.counters);
    RunConcat(w, first, closing);
    assert ApplyAbortOutcome(w, d, g).effects == first + closing;
  }

  lemma FirstRun(cfg: Config, w: World, d: Id)
    ensures var first := if d in w.mem.transfers then [RemovePending(w.mem.transfers[d].key)] else [];
            Run(w, first) == w.(files := w.files.(pending :=
              if d in w.mem.transfers then w.files.pending - {w.mem.transfers[d].key} else w.files.pending))
  {
    hide Run, Apply;
    if d in w.mem.transfers { OneEffect(cfg, w, RemovePending(w.mem.transfers[d].key)); } else { Nothing(w); }
  }

  lemma ClosingRun(cfg: Config, w: World, counters: Counters)
    ensures var w' := Run(w, [NoteRollback(counters), Commit(AgentApplyResolved(counters.activations))]);
            && w'.mem == w.mem.(counters := w'.mem.counters, window := CLOSED) && w'.dur == w.dur.(counters := w'.dur.counters, window := CLOSED)
            && w' == w.(mem := w'.mem, dur := w'.dur)
  {
    TwoEffects(cfg, w, NoteRollback(counters), Commit(AgentApplyResolved(counters.activations)));
  }

  /** An abort succeeds exactly when it names the open window. Then the window is closed, the marker of the transfer it was
      opened for is gone, and nothing is switched; otherwise nothing changes. */
  lemma AbortIff(cfg: Config, w: World, d: Id, g: u64, now: i64)
    requires d != UNSET && g != 0
    ensures var o, w' := Handle(cfg, w, Says(ApplyAbort(d, g), now)), After(cfg, w, ApplyAbort(d, g), now);
            && |o.replies| == 1 && o.replies[0].ApplyAbortAck? && (o.replies[0].aborted <==> NamesWindow(w, d, g))
            && (NamesWindow(w, d, g) ==>
                  && !w'.mem.window.applyPrepared && !w'.dur.window.applyPrepared && w'.switches == w.switches
                  && w'.mem.transfers == w.mem.transfers && w'.mem.committed == w.mem.committed && w'.mem.findings == w.mem.findings
                  && w'.files == w.files.(pending := if d in w.mem.transfers then w.files.pending - {w.mem.transfers[d].key} else w.files.pending))
            && (!NamesWindow(w, d, g) ==> w' == w)
  {
    if NamesWindow(w, d, g) {
      hide Run;
      AbortRun(cfg, w, d, g);
    }
  }

  /** Aborting the open window makes room: an offer that only the window stood in the way of is acceptable afterwards. */
  lemma AbortMakesRoom(cfg: Config, w: World, m: PrepareMessage, now: i64)
    requires w.mem.window.applyPrepared && w.mem.window.deployment != UNSET && w.mem.window.generation != 0 && !Found(w, m)
    requires Objection(cfg, w, m) == Some(Busy)
    ensures Acceptable(cfg, After(cfg, w, ApplyAbort(w.mem.window.deployment, w.mem.window.generation), now), m)
  {
    hide Handle, Run;
    AbortIff(cfg, w, w.mem.window.deployment, w.mem.window.generation, now);
  }

  /** A transfer is retired exactly when its generation is older than the committed one or nothing is committed. Then its
      record and its staging file are gone; otherwise nothing changes. */
  lemma RetireIff(cfg: Config, w: World, d: Id, g: u64, now: i64)
    requires d != UNSET && g != 0
    ensures var o, w' := Handle(cfg, w, Says(Retire(d, g), now)), After(cfg, w, Retire(d, g), now);
            var past := !IsSet(w.mem.committed) || g < w.mem.committed.generation;
            && o.replies == [RetireAck(d, past)]
            && (past ==> w'.mem.transfers == w.mem.transfers - {d} && w'.files == w.files.(staging := w.files.staging - {d}))
            && (!past ==> w' == w)
  {
    OneEffect(cfg, w, RemoveStaging(d));
    TwoEffects(cfg, w, RemoveStaging(d), Commit(AgentTransferRemove(d)));
    if d !in w.mem.transfers { assert w.mem.transfers - {d} == w.mem.transfers && Destroy(w, d) == [RemoveStaging(d)]; }
    else { assert Destroy(w, d) == [RemoveStaging(d), Commit(AgentTransferRemove(d))]; }
  }

  // ---- Report ----

  /** A report is the committed pair, the window and the authority as they are, as many of the newest findings as were asked
      for, and for each transfer listed the bytes that are really there: never more than the file holds, and verified only
      if the file is whole. Answering changes nothing. */
  lemma ReportSays(cfg: Config, w: World, listed: seq<Id>, n: u32, now: i64)
    requires ValidInput(w, Input(ReconcileRequest(n), now, listed))
    ensures var o := Handle(cfg, w, Input(ReconcileRequest(n), now, listed));
            && o.effects == [] && |o.replies| == 1 && o.replies[0].Report?
            && var r := o.replies[0].report;
               && r.target == w.mem.identity.target && r.term == w.mem.identity.term && r.incarnation == w.mem.identity.incarnation
               && r.committed == w.mem.committed && r.window == w.mem.window
               && |r.findings| == (if n < |w.mem.findings| then n else |w.mem.findings|)
               && r.findings == w.mem.findings[|w.mem.findings| - |r.findings|..]
               && |r.transfers| == |listed|
               && forall i :: 0 <= i < |listed| ==>
                    var t, s := w.mem.transfers[listed[i]], r.transfers[i];
                    var there := if t.deployment in w.files.staging then |w.files.staging[t.deployment]| else 0;
                    && s.deployment == t.deployment && s.generation == t.generation && s.digest == t.digest && s.totalBytes == t.totalBytes
                    && s.bytesReceived <= t.bytesReceived && s.bytesReceived <= there
                    && (s.bytesReceived == t.bytesReceived || s.bytesReceived == there)
                    && (s.verified <==> t.verified && s.bytesReceived == t.totalBytes) && s.staged == t.staged
  {
  }

  // ---- Commit ----

  /** The commit is of a staged transfer of exactly this pair, newer than anything committed, in the window it needs. */
  predicate Activates(cfg: Config, w: World, d: Id, g: u64, h: Digest) {
    && (IsSet(w.mem.committed) ==> w.mem.committed.generation < g)
    && d in w.mem.transfers && w.mem.transfers[d].staged && w.mem.transfers[d].generation == g && w.mem.transfers[d].digest == h
    && (if w.mem.window.applyPrepared then w.mem.window.deployment == d else cfg.guarantee != PrepareCommitAbort)
  }

  /** The pair is committed already, or nothing is staged for the deployment and the pair is remembered as applied. */
  predicate AlreadyDone(w: World, d: Id, g: u64, h: Digest) {
    || (IsSet(w.mem.committed) && w.mem.committed.generation == g && w.mem.committed.digest == h)
    || ((IsSet(w.mem.committed) ==> w.mem.committed.generation < g) && !(d in w.mem.transfers && w.mem.transfers[d].staged)
        && RecordedActivation(w.mem.findings, g, h))
  }

  /** The pair is committed and remembered as applied, in memory and on disk. */
  predicate CommittedTo(w: World, g: u64, h: Digest) {
    && w.mem.committed.generation == w.dur.committed.generation == g && w.mem.committed.digest == w.dur.committed.digest == h
    && RecordedActivation(w.mem.findings, g, h) && RecordedActivation(w.dur.findings, g, h)
  }

  /** A commit is acknowledged exactly when it activates or was done already. It switches the pointer of its transfer's key in
      the first case alone; in the second and when it is refused, nothing changes but counters. */
  lemma CommitIff(cfg: Config, w: World, d: Id, g: u64, h: Digest, now: i64)
    requires d != UNSET && g != 0
    ensures var o, w' := Handle(cfg, w, Says(ApplyCommit(d, g, h), now)), After(cfg, w, ApplyCommit(d, g, h), now);
            && o.replies != [] && o.replies[0].ApplyCommitAck? && o.replies[0].deployment == d
            && (o.replies[0].isCommitted <==> Activates(cfg, w, d, g, h) || AlreadyDone(w, d, g, h))
            && (Activates(cfg, w, d, g, h) ==>
                  o.replies[0] == ApplyCommitAck(d, true, Success, g, h)
                  && AgentManyKeys.Names(w'.files, w.mem.transfers[d].key, g, h) && CommittedTo(w', g, h)
                  && !w'.mem.window.applyPrepared && w'.mem.transfers == w.mem.transfers)
            && (!Activates(cfg, w, d, g, h) ==> OnlyCounted(w, w'))
  {
    hide Activate, Apply;
    OneEffect(cfg, w, NoteStale(w.mem.counters));
    OneEffect(cfg, w, NoteDuplicate(w.mem.counters));
    if Activates(cfg, w, d, g, h) {
      ActivationSettles(cfg, w, w.mem.transfers[d], cfg.guarantee == PrepareCommitAbort, now);
    } else {
      CountingCounts(w);
    }
  }

  lemma CountingCounts(w: World)
    ensures OnlyCounted(w, Do(w, NoteStale(w.mem.counters))) && OnlyCounted(w, Do(w, NoteDuplicate(w.mem.counters)))
  {
  }

  lemma ActivationSettles(cfg: Config, w: World, r: TransferRecord, explicit: bool, now: i64)
    requires explicit ==> w.mem.window.applyPrepared
    ensures var w' := Run(w, Activate(w, r, explicit, now));
            && AgentManyKeys.Names(w'.files, r.key, r.generation, r.digest) && CommittedTo(w', r.generation, r.digest)
            && !w'.mem.window.applyPrepared && w'.mem.transfers == w.mem.transfers
  {
    hide Activate, Run, CommitGeneration, CommittedTo;
    AgentManyKeys.ActivateNames(cfg, w, r, explicit, now);
    ActivateShape(w, r, explicit, now);
    var switch := SwitchCurrent(r.key, Pointer(r.generation, r.digest, r.artifact));
    var unmark := if explicit then [RemovePending(r.key)] else [];
    var commit := CommitGeneration(w.mem.window.applyPrepared || explicit, w.mem.counters.activations, w.mem.counters, r, now);
    OneEffect(cfg, w, switch);
    var w1 := Do(w, switch);
    OneEffect(cfg, w1, RemovePending(r.key));
    Nothing(w1);
    RunConcat(w, [switch], unmark + commit);
    RunConcat(w1, unmark, commit);
    GenerationCommitted(cfg, Run(w1, unmark), r, w.mem.window.applyPrepared || explicit, w.mem.counters.activations, w.mem.counters, now);
  }

  lemma Nothing(w: World)
    ensures Run(w, []) == w
  {
  }

  lemma GenerationCommitted(cfg: Config, w: World, r: TransferRecord, open: bool, activations: u64, counters: Counters, now: i64)
    requires w.mem.window.applyPrepared ==> open
    ensures var w' := Run(w, CommitGeneration(open, activations, counters, r, now));
            && CommittedTo(w', r.generation, r.digest) && !w'.mem.window.applyPrepared && w'.mem.transfers == w.mem.transfers
  {
    hide Run, Apply, CommittedTo;
    var resolve := if open then [Commit(AgentApplyResolved(Next64(activations)))] else [];
    var pair := [Commit(AgentTargetCommit(Pointer(r.generation, r.digest, r.artifact))),
                 Commit(AgentFindingUpsert(AppliedFinding(r.key, r.generation, r.digest, r.artifact, r.deployment, Applied, now)))];
    var counts := [BumpActivations, CounterNote(counters)];
    assert CommitGeneration(open, activations, counters, r, now) == resolve + (pair + counts);
    RunConcat(w, resolve, pair + counts);
    var w1 := Run(w, resolve);
    RunConcat(w1, pair, counts);
    WindowResolved(cfg, w, open, activations);
    PairRecorded(cfg, w1, r, now);
    OnlyCounts(cfg, Run(w1, pair), counters, r.generation, r.digest);
  }

  lemma WindowResolved(cfg: Config, w: World, open: bool, activations: u64)
    requires w.mem.window.applyPrepared ==> open
    ensures var w' := Run(w, if open then [Commit(AgentApplyResolved(Next64(activations)))] else []);
            !w'.mem.window.applyPrepared && w'.mem.transfers == w.mem.transfers
  {
    OneEffect(cfg, w, Commit(AgentApplyResolved(Next64(activations))));
  }

  lemma PairRecorded(cfg: Config, w: World, r: TransferRecord, now: i64)
    ensures var finding := AppliedFinding(r.key, r.generation, r.digest, r.artifact, r.deployment, Applied, now);
            var w' := Run(w, [Commit(AgentTargetCommit(Pointer(r.generation, r.digest, r.artifact))), Commit(AgentFindingUpsert(finding))]);
            CommittedTo(w', r.generation, r.digest) && w'.mem.window == w.mem.window && w'.mem.transfers == w.mem.transfers
  {
    hide Run;
    var finding := AppliedFinding(r.key, r.generation, r.digest, r.artifact, r.deployment, Applied, now);
    TwoEffects(cfg, w, Commit(AgentTargetCommit(Pointer(r.generation, r.digest, r.artifact))), Commit(AgentFindingUpsert(finding)));
    assert finding in UpsertFinding(w.mem.findings, finding) && finding in UpsertFinding(w.dur.findings, finding);
  }

  lemma OnlyCounts(cfg: Config, w: World, counters: Counters, g: u64, h: Digest)
    requires CommittedTo(w, g, h)
    ensures var w' := Run(w, [BumpActivations, CounterNote(counters)]);
            CommittedTo(w', g, h) && w'.mem.window == w.mem.window && w'.mem.transfers == w.mem.transfers
  {
    hide Run;
    TwoEffects(cfg, w, BumpActivations, CounterNote(counters));
  }

  /** Remembering an activation forgets at most the oldest one, and only at the bound. */
  lemma FindingsAreKept(findings: seq<AppliedFinding>, f: AppliedFinding, x: AppliedFinding)
    requires x in findings && !(x.key == f.key && x.digest == f.digest)
    ensures x in UpsertFinding(findings, f) || (|findings| >= 128 && x == findings[0])
  {
    var i :| 0 <= i < |findings| && findings[i] == x;
    var r := UpsertFinding(findings, f);
    if FindingIndex(findings, f.key, f.digest).Some? || |findings| < MAX_FINDINGS {
      assert r[i] == x;
    } else if i > 0 {
      assert r[i - 1] == x;
    }
  }
}
