/** What changes when one agent serves several configuration keys: the committed generation is a single value
    per agent, so the fence and the duplicate check are not per key. */
module AgentManyKeys {
  import opened Prelude
  import opened Lifecycle
  import opened AgentState
  import opened Messages
  import opened AgentModel
  import opened KeyPaths
  import opened AgentInvariants
  import opened AgentHandlers
  import opened AgentRecovery

  /** The stale fence: no live pointer is newer than the committed generation offers are compared with. */
  predicate Fence(w: World) {
    forall k :: k in w.files.current ==> w.files.current[k].generation <= w.dur.committed.generation
  }

  /** The last directory of the walk holds the newest live pointer. */
  predicate NewestLast(w: World, keys: seq<Id>) {
    && keys != [] && keys[|keys| - 1] in w.files.current
    && forall k :: k in w.files.current ==>
         w.files.current[k].generation <= w.files.current[keys[|keys| - 1]].generation
  }

  /** A restart keeps the fence exactly when nothing is live or the walk happens to end at the newest pointer; a walk
      that visits no directory leaves the fence as it was. */
  lemma FenceSurvivesRestart(cfg: Config, w: World, l: Listing)
    requires Inv(cfg, w) && w.mem == w.dur && CanBoot(w.mem) && ValidListing(cfg, w, l)
    ensures var kept := Kept(cfg.liveRoot, l.keys);
            Fence(Run(w, Boot(cfg, w, l))) <==> if kept == [] then Fence(w) else w.files.current == map[] || NewestLast(w, kept)
  {
    hide Boot, Run, Skipped, Listed;
    BootSound(cfg, w, l);
    var w' := Run(w, Boot(cfg, w, l));
    var kept := Kept(cfg.liveRoot, l.keys);
    if kept != [] {
      var last := kept[|kept| - 1];
      assert FollowsKey(w, w'.dur.committed, last);
      if k :| k in w.files.current {
        assert Holds(cfg, w.files, k, w.files.current[k].generation, w.files.current[k].digest);
        if last !in w.files.current {
          assert w'.files.current[k].generation > w'.dur.committed.generation;
        }
      }
    }
  }

  predicate Names(f: Files, k: Id, g: u64, d: Digest) {
    k in f.current && f.current[k].generation == g && f.current[k].digest == d
  }

  /** An acknowledged commit of a staged transfer leaves its key's live pointer at that content, unless the same
      generation and digest is already committed through another key: then it is suppressed as a duplicate and
      the pointer stays where it was. */
  lemma AcknowledgedCommit(cfg: Config, w: World, i: Input)
    requires Alive(cfg, w) && ValidInput(w, i) && i.message.ApplyCommit?
    requires i.message.deployment in w.mem.transfers && w.mem.transfers[i.message.deployment].staged
    requires var o := Handle(cfg, w, i); o.replies[0].ApplyCommitAck? && o.replies[0].isCommitted
    ensures var r := w.mem.transfers[i.message.deployment];
            var g, d := i.message.generation, i.message.digest;
            var suppressed := IsSet(w.mem.committed) && SamePair(w.mem.committed, Pointer(g, d, UNSET));
            Names(Run(w, Handle(cfg, w, i).effects).files, r.key, g, d) <==> (!suppressed || Names(w.files, r.key, g, d))
  {
    var d := i.message.deployment;
    var r := w.mem.transfers[d];
    var es := Handle(cfg, w, i).effects;
    if IsSet(w.mem.committed) && SamePair(w.mem.committed, Pointer(i.message.generation, i.message.digest, UNSET)) {
      OneEffect(cfg, w, NoteDuplicate(w.mem.counters));
      assert es == [NoteDuplicate(w.mem.counters)];
    } else {
      assert Ahead(w.dur.transfers[d], r) && Backed(cfg, w.files, w.dur.transfers[d]);
      assert es == Activate(w, r, cfg.guarantee == PrepareCommitAbort, i.now);
      ActivateNames(cfg, w, r, cfg.guarantee == PrepareCommitAbort, i.now);
    }
  }

  lemma ActivateNames(cfg: Config, w: World, r: TransferRecord, explicit: bool, now: i64)
    requires explicit ==> w.mem.window.applyPrepared
    ensures Run(w, Activate(w, r, explicit, now)).files.current == w.files.current[r.key := Pointer(r.generation, r.digest, r.artifact)]
  {
    hide Activate, CommitGeneration, Apply;
    var switch := SwitchCurrent(r.key, Pointer(r.generation, r.digest, r.artifact));
    var rest := (if explicit then [RemovePending(r.key)] else []) +
                CommitGeneration(w.mem.window.applyPrepared || explicit, w.mem.counters.activations, w.mem.counters, r, now);
    OneEffect(cfg, w, switch);
    RunConcat(w, [switch], rest);
    ActivateShape(w, r, explicit, now);
    NoSwitch(w.mem.window.applyPrepared || explicit, w.mem.counters.activations, w.mem.counters, r, now);
    KeepsCurrent(Do(w, switch), rest);
  }

  lemma NoSwitch(open: bool, activations: u64, counters: Counters, r: TransferRecord, now: i64)
    ensures forall e :: e in CommitGeneration(open, activations, counters, r, now) ==> !e.SwitchCurrent?
  {
  }

  lemma {:induction false} KeepsCurrent(w: World, es: seq<Effect>)
    requires forall e :: e in es ==> !e.SwitchCurrent?
    ensures Run(w, es).files.current == w.files.current
    decreases |es|
  {
    if es != [] {
      assert !es[0].SwitchCurrent?;
      KeepsCurrent(Do(w, es[0]), es[1..]);
    }
  }
}
