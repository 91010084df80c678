/** Start-up recovery: from every crash state it emits only safe effects and ends in a live, consistent agent. */
module AgentRecovery {
  import opened Prelude
  import opened Lifecycle
  import opened AgentState
  import opened Messages
  import opened AgentModel
  import opened KeyPaths
  import opened AgentInvariants
  import opened AgentHandlers

  predicate Known(w: World, ds: seq<Id>) {
    forall d :: d in ds ==> d in w.mem.transfers
  }

  function Elements(names: seq<Id>): set<Id> {
    set n | n in names
  }

  // ---- Step 1: partial transfers ----

  /** The same world with other staging files. */
  function WithStaging(w: World, staging: map<Id, Bytes>): World {
    w.(files := w.files.(staging := staging))
  }

  lemma {:induction false} StraysRun(cfg: Config, w0: World, w: World, names: seq<Id>)
    ensures AllSafe(cfg, w, Strays(w0, names))
    ensures Run(w, Strays(w0, names)) == WithStaging(w, w.files.staging - (Elements(names) - w0.mem.transfers.Keys))
    decreases |names|
  {
    if names == [] {
      assert w.files.staging - (Elements(names) - w0.mem.transfers.Keys) == w.files.staging;
    } else {
      var n := names[0];
      var first := if n in w0.mem.transfers then [] else [RemoveStaging(n)];
      OneEffect(cfg, w, RemoveStaging(n));
      var w1 := Run(w, first);
      StraysRun(cfg, w0, w1, names[1..]);
      RunConcat(w, first, Strays(w0, names[1..]));
      SafeConcat(cfg, w, first, Strays(w0, names[1..]));
      assert Elements(names) == {n} + Elements(names[1..]);
      assert w1.files.staging - (Elements(names[1..]) - w0.mem.transfers.Keys)
          == w.files.staging - (Elements(names) - w0.mem.transfers.Keys);
    }
  }

  /** The staging files once the oversized ones among `ds` are cut to their recorded length. */
  function Trimmed(w0: World, staging: map<Id, Bytes>, ds: seq<Id>): map<Id, Bytes>
    requires Known(w0, ds)
  {
    map d | d in staging :: if d in ds && Oversized(w0, d) then Resize(staging[d], w0.mem.transfers[d].bytesReceived) else staging[d]
  }

  lemma TrimmedStep(w0: World, w: World, ds: seq<Id>)
    requires ds != [] && Known(w0, ds) && Distinct(ds)
    ensures var e := ResizeStaging(ds[0], w0.mem.transfers[ds[0]].bytesReceived);
            var staging := if Oversized(w0, ds[0]) then Do(w, e).files.staging else w.files.staging;
            Trimmed(w0, staging, ds[1..]) == Trimmed(w0, w.files.staging, ds)
  {
    assert ds[0] !in ds[1..];
  }

  lemma {:induction false} ResizesRun(cfg: Config, w0: World, w: World, ds: seq<Id>)
    requires Known(w0, ds) && w.dur.transfers == w0.mem.transfers && Distinct(ds)
    ensures AllSafe(cfg, w, Resizes(w0, ds))
    ensures Run(w, Resizes(w0, ds)) == WithStaging(w, Trimmed(w0, w.files.staging, ds))
    decreases |ds|
  {
    if ds == [] {
      assert Trimmed(w0, w.files.staging, ds) == w.files.staging;
    } else {
      var d := ds[0];
      var e := ResizeStaging(d, w0.mem.transfers[d].bytesReceived);
      var first := if Oversized(w0, d) then [e] else [];
      OneEffect(cfg, w, e);
      var w1 := Run(w, first);
      ResizesRun(cfg, w0, w1, ds[1..]);
      RunConcat(w, first, Resizes(w0, ds[1..]));
      SafeConcat(cfg, w, first, Resizes(w0, ds[1..]));
      TrimmedStep(w0, w, ds);
    }
  }

  function Unsupported(w0: World, ds: seq<Id>): set<Id>
    requires Known(w0, ds)
  {
    set d | d in ds && !Supported(w0, d)
  }

  function WithoutTransfers(w: World, gone: set<Id>): World {
    w.(files := w.files.(staging := w.files.staging - gone),
       mem := w.mem.(transfers := w.mem.transfers - gone),
       dur := w.dur.(transfers := w.dur.transfers - gone))
  }

  lemma {:induction false} DiscardsRun(cfg: Config, w0: World, w: World, ds: seq<Id>)
    requires Known(w0, ds)
    ensures AllSafe(cfg, w, Discards(w0, ds))
    ensures Run(w, Discards(w0, ds)) == WithoutTransfers(w, Unsupported(w0, ds))
    decreases |ds|
  {
    if ds == [] {
      assert Unsupported(w0, ds) == {};
      assert w.files.staging - {} == w.files.staging && w.mem.transfers - {} == w.mem.transfers;
      assert w.dur.transfers - {} == w.dur.transfers;
    } else {
      var d := ds[0];
      var pair := [RemoveStaging(d), Commit(AgentTransferRemove(d))];
      var first := if Supported(w0, d) then [] else pair;
      TwoEffects(cfg, w, RemoveStaging(d), Commit(AgentTransferRemove(d)));
      var w1 := Run(w, first);
      DiscardsRun(cfg, w0, w1, ds[1..]);
      RunConcat(w, first, Discards(w0, ds[1..]));
      SafeConcat(cfg, w, first, Discards(w0, ds[1..]));
      var rest := Unsupported(w0, ds[1..]);
      var gone := if Supported(w0, d) then {} else {d};
      assert Unsupported(w0, ds) == gone + rest;
      WithoutTwice(w, gone, rest);
      assert w1 == WithoutTransfers(w, gone);
    }
  }

  lemma WithoutTwice(w: World, a: set<Id>, b: set<Id>)
    ensures WithoutTransfers(WithoutTransfers(w, a), b) == WithoutTransfers(w, a + b)
    ensures WithoutTransfers(w, {}) == w
  {
    assert w.files.staging - a - b == w.files.staging - (a + b) && w.files.staging - {} == w.files.staging;
    assert w.mem.transfers - a - b == w.mem.transfers - (a + b) && w.mem.transfers - {} == w.mem.transfers;
    assert w.dur.transfers - a - b == w.dur.transfers - (a + b) && w.dur.transfers - {} == w.dur.transfers;
  }

  /** Writing a retained record again changes nothing. */
  lemma {:induction false} CheckpointsRun(cfg: Config, w0: World, w: World, ds: seq<Id>)
    requires Inv(cfg, w) && w.mem == w.dur && Known(w0, ds)
    requires forall d :: d in ds && Oversized(w0, d) ==> d in w.dur.transfers && w.dur.transfers[d] == w0.mem.transfers[d]
    ensures AllSafe(cfg, w, Checkpoints(w0, ds)) && Run(w, Checkpoints(w0, ds)) == w
    decreases |ds|
  {
    if ds != [] {
      var d := ds[0];
      var e := Commit(AgentTransferUpsert(w0.mem.transfers[d]));
      var first := if Oversized(w0, d) then [e] else [];
      OneEffect(cfg, w, e);
      if Oversized(w0, d) {
        var t := w.dur.transfers[d];
        assert Backed(cfg, w.files, t) && t.deployment == d;
        assert w.dur.transfers[d := t] == w.dur.transfers;
        assert Do(w, e) == w;
      }
      assert Run(w, first) == w;
      CheckpointsRun(cfg, w0, w, ds[1..]);
      RunConcat(w, first, Checkpoints(w0, ds[1..]));
      SafeConcat(cfg, w, first, Checkpoints(w0, ds[1..]));
    }
  }

  /** The staging area and the transfer table that step 1 leaves behind. */
  ghost predicate Tidied(w0: World, w: World)
    requires w0.mem == w0.dur
  {
    && w.mem == w.dur
    && w.dur == w0.dur.(transfers := w.dur.transfers)
    && w == w0.(mem := w.mem, dur := w.dur, files := w0.files.(staging := w.files.staging))
    && (forall d :: d in w.dur.transfers <==>
          d in w0.dur.transfers && d in w0.files.staging && w0.dur.transfers[d].bytesReceived <= |w0.files.staging[d]|)
    && (forall d :: d in w.dur.transfers ==> w.dur.transfers[d] == w0.dur.transfers[d])
    && w.files.staging.Keys == w.dur.transfers.Keys
    && (forall d :: d in w.dur.transfers ==> w0.dur.transfers[d].bytesReceived <= |w0.files.staging[d]|)
    && (forall d :: d in w.dur.transfers ==> w.files.staging[d] == w0.files.staging[d][..w0.dur.transfers[d].bytesReceived])
  }

  lemma RecoverTransfersRun(cfg: Config, w: World, l: Listing)
    requires Inv(cfg, w) && w.mem == w.dur && ValidListing(cfg, w, l)
    ensures AllSafe(cfg, w, RecoverTransfers(w, l))
    ensures Tidied(w, Run(w, RecoverTransfers(w, l)))
  {
    var a, b, c, d := Strays(w, l.staged), Resizes(w, l.transfers), Discards(w, l.transfers), Checkpoints(w, l.transfers);
    StraysRun(cfg, w, w, l.staged);
    var w1 := Run(w, a);
    ResizesRun(cfg, w, w1, l.transfers);
    var w2 := Run(w1, b);
    DiscardsRun(cfg, w, w2, l.transfers);
    var w3 := Run(w2, c);
    RunConcat(w, a, b); SafeConcat(cfg, w, a, b);
    RunConcat(w, a + b, c); SafeConcat(cfg, w, a + b, c);
    PrefixKeepsInv(cfg, w, a + b + c, |a + b + c|);
    assert (a + b + c)[..|a + b + c|] == a + b + c;
    TidiedAfter(cfg, w, l, w1, w2, w3);
    CheckpointsRun(cfg, w, w3, l.transfers);
    RunConcat(w, a + b + c, d); SafeConcat(cfg, w, a + b + c, d);
  }

  lemma TableAfter(cfg: Config, w: World, l: Listing, w1: World, w2: World, w3: World)
    requires w.mem == w.dur && ValidListing(cfg, w, l)
    requires w1 == WithStaging(w, w.files.staging - (Elements(l.staged) - w.mem.transfers.Keys))
    requires w2 == WithStaging(w1, Trimmed(w, w1.files.staging, l.transfers))
    requires w3 == WithoutTransfers(w2, Unsupported(w, l.transfers))
    ensures w3.mem == w3.dur && w3.dur == w.dur.(transfers := w3.dur.transfers)
    ensures w3 == w.(mem := w3.mem, dur := w3.dur, files := w.files.(staging := w3.files.staging))
    ensures forall d :: d in w3.dur.transfers <==>
              d in w.dur.transfers && d in w.files.staging && w.dur.transfers[d].bytesReceived <= |w.files.staging[d]|
    ensures forall d :: d in w3.dur.transfers ==> w3.dur.transfers[d] == w.dur.transfers[d]
  {
    hide Listed;
    forall d
      ensures d in w3.dur.transfers <==>
        d in w.dur.transfers && d in w.files.staging && w.dur.transfers[d].bytesReceived <= |w.files.staging[d]|
    {
      if d in w.dur.transfers {
        assert d in l.transfers;
        assert d in Unsupported(w, l.transfers) <==> !Supported(w, d);
      }
    }
  }

  lemma TidiedAfter(cfg: Config, w: World, l: Listing, w1: World, w2: World, w3: World)
    requires w.mem == w.dur && ValidListing(cfg, w, l)
    requires w1 == WithStaging(w, w.files.staging - (Elements(l.staged) - w.mem.transfers.Keys))
    requires w2 == WithStaging(w1, Trimmed(w, w1.files.staging, l.transfers))
    requires w3 == WithoutTransfers(w2, Unsupported(w, l.transfers))
    ensures Tidied(w, w3)
  {
    hide Listed;
    TableAfter(cfg, w, l, w1, w2, w3);
    forall d | d in w3.dur.transfers
      ensures w3.files.staging[d] == w.files.staging[d][..w.dur.transfers[d].bytesReceived]
    {
      assert Supported(w, d) && d in l.transfers && d in w1.files.staging;
    }
    assert w3.files.staging.Keys == w3.dur.transfers.Keys;
  }

  // ---- Step 2: the live pointer is the authority ----

  lemma ResolvePendingRun(cfg: Config, w: World, k: Id)
    requires Inv(cfg, w) && w.mem == w.dur
    ensures AllSafe(cfg, w, ResolvePending(w, k))
    ensures var w' := Run(w, ResolvePending(w, k));
            && w'.mem == w'.dur
            && w'.dur == w.dur.(window := w'.dur.window, counters := w'.dur.counters)
            && (w'.dur.window == w.dur.window || w'.dur.window == CLOSED)
            && w' == w.(mem := w'.mem, dur := w'.dur, files := w.files.(pending := w.files.pending - {k}))
  {
    var es := ResolvePending(w, k);
    if k !in w.files.pending {
      assert w.files.pending - {k} == w.files.pending;
    } else {
      var note := NoteRollback(w.mem.counters);
      var noted := if es[0] == note then [note] else [];
      OneEffect(cfg, w, note);
      var w1 := Run(w, noted);
      OneEffect(cfg, w1, RemovePending(k));
      var w2 := Do(w1, RemovePending(k));
      var resolve := Commit(AgentApplyResolved(w.mem.counters.activations));
      var resolved := if w.mem.window.applyPrepared then [resolve] else [];
      OneEffect(cfg, w2, resolve);
      SafeConcat(cfg, w1, [RemovePending(k)], resolved);
      RunConcat(w1, [RemovePending(k)], resolved);
      SafeConcat(cfg, w, noted, [RemovePending(k)] + resolved);
      RunConcat(w, noted, [RemovePending(k)] + resolved);
      assert es == noted + ([RemovePending(k)] + resolved);
    }
  }

  predicate SamePair(a: Pointer, b: Pointer) {
    a.generation == b.generation && a.digest == b.digest
  }

  /** The committed pair once key directory `k` has been visited. */
  predicate FollowsKey(w: World, committed: Pointer, k: Id) {
    if k in w.files.current then SamePair(committed, w.files.current[k]) else !IsSet(committed)
  }

  lemma AdoptPointerRun(cfg: Config, w: World, k: Id)
    requires Inv(cfg, w) && w.mem == w.dur
    ensures AllSafe(cfg, w, AdoptPointer(cfg, w, k))
    ensures var w' := Run(w, AdoptPointer(cfg, w, k));
            && w'.mem == w'.dur && w'.dur == w.dur.(committed := w'.dur.committed)
            && w' == w.(mem := w'.mem, dur := w'.dur)
            && FollowsKey(w, w'.dur.committed, k)
  {
    var es := AdoptPointer(cfg, w, k);
    if k in w.files.current {
      var p := w.files.current[k];
      assert Holds(cfg, w.files, k, p.generation, p.digest);
      assert Switched(w, k, p.generation, p.digest);
      assert WasLive(w.switches, p.generation, p.digest);
      OneEffect(cfg, w, Commit(AgentTargetCommit(p)));
    } else {
      OneEffect(cfg, w, Commit(AgentTargetCommit(NOTHING)));
    }
  }

  /** What the walk over the live area may change, and where the committed pair ends up. */
  predicate Walked(cfg: Config, w: World, w': World, keys: seq<Id>) {
    var kept := Kept(cfg.liveRoot, keys);
    && w'.mem == w'.dur
    && w'.dur == w.dur.(committed := w'.dur.committed, window := w'.dur.window, counters := w'.dur.counters)
    && (w'.dur.window == w.dur.window || w'.dur.window == CLOSED)
    && w' == w.(mem := w'.mem, dur := w'.dur, files := w.files.(pending := w.files.pending - Elements(kept)))
    && (if kept == [] then w'.dur.committed == w.dur.committed
        else FollowsKey(w, w'.dur.committed, kept[|kept| - 1]))
  }

  lemma RecoverKeyRun(cfg: Config, w: World, k: Id)
    requires Inv(cfg, w) && w.mem == w.dur && !Skipped(cfg.liveRoot, k)
    ensures AllSafe(cfg, w, RecoverKey(cfg, w, k))
    ensures Walked(cfg, w, Run(w, RecoverKey(cfg, w, k)), [k])
    ensures Inv(cfg, Run(w, RecoverKey(cfg, w, k)))
  {
    var a := ResolvePending(w, k);
    ResolvePendingRun(cfg, w, k);
    PrefixKeepsInv(cfg, w, a, |a|);
    assert a[..|a|] == a;
    var w1 := Run(w, a);
    var b := AdoptPointer(cfg, w1, k);
    AdoptPointerRun(cfg, w1, k);
    RunConcat(w, a, b); SafeConcat(cfg, w, a, b);
    PrefixKeepsInv(cfg, w, a + b, |a + b|);
    assert (a + b)[..|a + b|] == a + b;
    assert Elements([k]) == {k};
    KeptFirst(cfg.liveRoot, k, []);
  }

  lemma WalkedTwice(cfg: Config, w: World, w1: World, w2: World, k: Id, keys: seq<Id>)
    requires !Skipped(cfg.liveRoot, k) && Walked(cfg, w, w1, [k]) && Walked(cfg, w1, w2, keys)
    ensures Walked(cfg, w, w2, [k] + keys)
  {
    var kept := Kept(cfg.liveRoot, keys);
    KeptFirst(cfg.liveRoot, k, keys);
    assert w.files.pending - Elements([k]) - Elements(kept) == w.files.pending - Elements([k] + kept);
  }

  lemma {:induction false} RecoverKeysRun(cfg: Config, w: World, keys: seq<Id>)
    requires Inv(cfg, w) && w.mem == w.dur
    ensures AllSafe(cfg, w, RecoverKeys(cfg, w, keys))
    ensures Walked(cfg, w, Run(w, RecoverKeys(cfg, w, keys)), keys)
    decreases |keys|
  {
    hide Skipped, RecoverKey, FollowsKey;
    if keys == [] {
      assert w.files.pending - Elements(keys) == w.files.pending;
    } else if Skipped(cfg.liveRoot, keys[0]) {
      RecoverKeysRun(cfg, w, keys[1..]);
    } else {
      var k := keys[0];
      var a := RecoverKey(cfg, w, k);
      RecoverKeyRun(cfg, w, k);
      var w1 := Run(w, a);
      var b := RecoverKeys(cfg, w1, keys[1..]);
      RecoverKeysRun(cfg, w1, keys[1..]);
      RunConcat(w, a, b); SafeConcat(cfg, w, a, b);
      WalkedTwice(cfg, w, w1, Run(w1, b), k, keys[1..]);
      assert keys == [k] + keys[1..];
    }
  }

  lemma CloseWindowRun(cfg: Config, w: World)
    requires w.mem == w.dur
    ensures AllSafe(cfg, w, CloseWindow(w))
    ensures var w' := Run(w, CloseWindow(w));
            && w'.mem == w'.dur && w'.dur == w.dur.(window := w'.dur.window, counters := w'.dur.counters)
            && w' == w.(mem := w'.mem, dur := w'.dur)
            && !w'.dur.window.applyPrepared
  {
    if w.mem.window.applyPrepared {
      TwoEffects(cfg, w, NoteRollback(w.mem.counters), Commit(AgentApplyResolved(w.mem.counters.activations)));
    }
  }

  /** What a completed start-up leaves: a consistent live agent, no open window, no prepare marker in a directory the
      walk visited, and the committed pair of the last of these. */
  ghost predicate Recovered(cfg: Config, w: World, w': World, l: Listing)
    requires w.mem == w.dur
  {
    && Alive(cfg, w')
    && w'.mem == w'.dur
    && !w'.dur.window.applyPrepared
    && w'.files.pending == w.files.pending - Elements(Kept(cfg.liveRoot, l.keys))
    && w'.files.current == w.files.current && w'.files.payload == w.files.payload && w'.switches == w.switches
    && w'.dur.findings == w.dur.findings
    && w'.files.staging.Keys == w'.dur.transfers.Keys
    && (forall d :: d in w'.dur.transfers <==>
          d in w.dur.transfers && d in w.files.staging && w.dur.transfers[d].bytesReceived <= |w.files.staging[d]|)
    && (forall d :: d in w'.dur.transfers ==> w'.dur.transfers[d] == w.dur.transfers[d])
    && (forall d :: d in w'.dur.transfers ==> w.dur.transfers[d].bytesReceived <= |w.files.staging[d]|)
    && (forall d :: d in w'.dur.transfers ==> w'.files.staging[d] == w.files.staging[d][..w.dur.transfers[d].bytesReceived])
    && var kept := Kept(cfg.liveRoot, l.keys);
       (if kept == [] then w'.dur.committed == w.dur.committed else FollowsKey(w, w'.dur.committed, kept[|kept| - 1]))
  }

  lemma RecoverLiveRun(cfg: Config, w: World, l: Listing)
    requires Inv(cfg, w) && w.mem == w.dur
    ensures AllSafe(cfg, w, RecoverLive(cfg, w, l))
    ensures var w' := Run(w, RecoverLive(cfg, w, l));
            && Walked(cfg, w, w'.(mem := w'.mem.(window := w.mem.window), dur := w'.dur.(window := w.dur.window)), l.keys)
            && w'.mem == w'.dur && !w'.dur.window.applyPrepared
  {
    var a := RecoverKeys(cfg, w, l.keys);
    RecoverKeysRun(cfg, w, l.keys);
    var w1 := Run(w, a);
    CloseWindowRun(cfg, w1);
    var b := CloseWindow(w1);
    RunConcat(w, a, b); SafeConcat(cfg, w, a, b);
  }

  lemma TidiedIsExact(cfg: Config, w0: World, w: World)
    requires Inv(cfg, w0) && w0.mem == w0.dur && Tidied(w0, w)
    ensures FilesExact(w) && TransfersAhead(w.dur.transfers, w.mem.transfers)
  {
    forall d | d in w.mem.transfers ensures FileExact(w.files, w.mem.transfers[d]) {
      assert w0.dur.transfers[d].deployment == d;
    }
    forall d | d in w.dur.transfers ensures Ahead(w.dur.transfers[d], w.mem.transfers[d]) {
      assert Backed(cfg, w0.files, w0.dur.transfers[d]);
    }
  }

  /** The world after the new identity is recorded, with which recovery starts. */
  function Identified(cfg: Config, w: World, l: Listing): World
    requires CanBoot(w.mem)
  {
    Do(w, Commit(AgentIdentity(NextIdentity(cfg, w.mem, l.incarnation))))
  }

  lemma BootShape(cfg: Config, w: World, l: Listing)
    requires w.mem == w.dur && CanBoot(w.mem) && ValidListing(cfg, w, l)
    ensures var w0 := Identified(cfg, w, l);
            var id := Commit(AgentIdentity(NextIdentity(cfg, w.mem, l.incarnation)));
            && Run(w, [id]) == w0 && ValidListing(cfg, w0, l) && w0.mem == w0.dur
            && w0 == w.(mem := w0.mem, dur := w0.dur) && w0.dur == w.dur.(identity := w0.dur.identity)
            && Boot(cfg, w, l) ==
                 [id] + (RecoverTransfers(w0, l) + RecoverLive(cfg, Run(w0, RecoverTransfers(w0, l)), l))
  {
    hide RecoverTransfers, RecoverLive, Run, Listed;
    var id := Commit(AgentIdentity(NextIdentity(cfg, w.mem, l.incarnation)));
    OneEffect(cfg, w, id);
    var w0 := Identified(cfg, w, l);
    var a := RecoverTransfers(w0, l);
    var b := RecoverLive(cfg, Run(w0, a), l);
    assert [id] + a + b == [id] + (a + b);
  }

  /** Start-up from any crash state. */
  lemma BootSound(cfg: Config, w: World, l: Listing)
    requires Inv(cfg, w) && w.mem == w.dur && CanBoot(w.mem) && ValidListing(cfg, w, l)
    ensures AllSafe(cfg, w, Boot(cfg, w, l))
    ensures Recovered(cfg, w, Run(w, Boot(cfg, w, l)), l)
    ensures Run(w, Boot(cfg, w, l)).dur.identity.term == w.dur.identity.term + 1
  {
    hide Run, AllSafe, RecoverTransfers, RecoverLive;
    var id := Commit(AgentIdentity(NextIdentity(cfg, w.mem, l.incarnation)));
    OneEffect(cfg, w, id);
    EffectKeepsInv(cfg, w, id);
    var w0 := Do(w, id);
    var a := RecoverTransfers(w0, l);
    RecoverTransfersRun(cfg, w0, l);
    PrefixKeepsInv(cfg, w0, a, |a|);
    assert a[..|a|] == a;
    var w1 := Run(w0, a);
    var b := RecoverLive(cfg, w1, l);
    RecoverLiveRun(cfg, w1, l);
    RunConcat(w, [id], a); SafeConcat(cfg, w, [id], a);
    RunConcat(w, [id] + a, b); SafeConcat(cfg, w, [id] + a, b);
    var es := Boot(cfg, w, l);
    assert es == [id] + a + b;
    PrefixKeepsInv(cfg, w, es, |es|);
    assert es[..|es|] == es;
    TidiedIsExact(cfg, w0, w1);
    BootEnds(cfg, w, w0, w1, Run(w, es), l);
  }

  /** Which interrupted transfers a start keeps: exactly those whose staging file holds the recorded bytes. The record stays
      as it was and the file keeps those bytes and no others; every other staging file is gone. */
  lemma StartKeepsExactly(cfg: Config, w: World, l: Listing, d: Id)
    requires Inv(cfg, w) && w.mem == w.dur && CanBoot(w.mem) && ValidListing(cfg, w, l)
    ensures var w' := Run(w, Boot(cfg, w, l));
            && (d in w'.dur.transfers <==>
                  d in w.dur.transfers && d in w.files.staging && w.dur.transfers[d].bytesReceived <= |w.files.staging[d]|)
            && (d in w'.dur.transfers ==>
                  && w'.dur.transfers[d] == w.dur.transfers[d] && w'.mem.transfers == w'.dur.transfers && d in w'.files.staging
                  && w'.files.staging[d] == w.files.staging[d][..w.dur.transfers[d].bytesReceived])
            && (d in w'.files.staging ==> d in w'.dur.transfers)
  {
    hide Boot, Run;
    BootSound(cfg, w, l);
  }

  lemma BootEnds(cfg: Config, w: World, w0: World, w1: World, w': World, l: Listing)
    requires ValidListing(cfg, w, l) && w.mem == w.dur
    requires w0 == w.(mem := w0.mem, dur := w0.dur) && w0.mem == w0.dur && w0.dur == w.dur.(identity := w0.dur.identity)
    requires Tidied(w0, w1) && FilesExact(w1) && TransfersAhead(w1.dur.transfers, w1.mem.transfers)
    requires Walked(cfg, w1, w'.(mem := w'.mem.(window := w1.mem.window), dur := w'.dur.(window := w1.dur.window)), l.keys)
    requires w'.mem == w'.dur && !w'.dur.window.applyPrepared && Inv(cfg, w')
    ensures Recovered(cfg, w, w', l) && w'.dur.identity == w0.dur.identity
  {
    assert w'.files.staging == w1.files.staging && w'.mem.transfers == w1.mem.transfers;
    forall d | d in w'.mem.transfers ensures FileExact(w'.files, w'.mem.transfers[d]) {
      assert FileExact(w1.files, w1.mem.transfers[d]);
    }
  }
}
