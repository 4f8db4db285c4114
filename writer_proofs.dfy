/** What a whole call of writer_cm does to the file system, proved about the
    functions of WriterSpec (and so, through the methods of WriterCm, about the
    step-by-step run): the outcome in closed form, then the promises made to
    callers, one lemma each. */
module WriterProofs {
  import opened FsSpec
  import opened WriterSpec

  /** The block finished, wrote its bytes, and the move or replace it leads to
      can go through: nothing in the way at the destination. */
  predicate Publishes(t: Tree, dest: Path, cfg: Config, block: Block)
  {
    && block.raises.None? && block.data.Some?
    && if cfg.overwrite then !(dest in t && t[dest].Dir?) else dest !in t
  }

  /** The destination file a publish leaves: the bytes written, file_perms,
      and the owner _set_properties could give it. */
  function PublishedFile(h: Host, cfg: Config, data: seq<Byte>): (n: Node)
  {
    File(data, cfg.filePerms, OwnerAfterChown(h, cfg))
  }

  /** How the with statement ends once the caller has been handed the staged path. */
  function StagedStatus(t: Tree, h: Host, dest: Path, cfg: Config, tag: string, block: Block): (s: Status)
    requires dest != []
  {
    if block.raises.Some? then Err(Raised(block.raises.value))
    else if block.data.None? then Err(NotFound(StagedFile(dest, tag)))
    else if !cfg.overwrite && dest in t then Err(Exists(dest))
    else if cfg.overwrite && dest in t && t[dest].Dir? then Err(IsADirectory(dest))
    else ChownOutcome(h, cfg, dest)
  }

  /** The calls made on the destination when the block finished. */
  function PublishOps(t: Tree, dest: Path, cfg: Config, tag: string, block: Block): (r: seq<Op>)
    requires dest != []
  {
    var source := StagedFile(dest, tag);
    if block.raises.Some? then []
    else
      [if cfg.overwrite then ReplaceOp(source, dest) else MoveOp(source, dest)]
      + if !Publishes(t, dest, cfg, block) then []
        else [ChmodOp(dest, cfg.filePerms)]
             + if cfg.user.Some? || cfg.group.Some? then [ChownOp(dest, cfg.user, cfg.group)] else []
  }

  /** The calls made from the yield on. */
  function StagedOps(t: Tree, dest: Path, cfg: Config, tag: string, block: Block): (r: seq<Op>)
    requires dest != []
  {
    (if block.data.Some? then [WriteOp(StagedFile(dest, tag))] else [])
    + PublishOps(t, dest, cfg, tag, block)
    + [RemoveTreeOp(StagingDir(dest, tag))]
  }

  /** A tree in which the staging directory is present, empty, and writable. */
  predicate StagingReady(t: Tree, h: Host, dest: Path, tag: string)
    requires dest != []
  {
    var s := StagingDir(dest, tag);
    && s in t && t[s].Dir? && s !in h.readOnly && Parent(dest) !in h.readOnly
    && forall q :: q in t && s <= q ==> q == s
  }

  /** shutil.rmtree(p) leaves exactly the entries not below p. */
  lemma RemoveTreeIs(x: Tree, p: Path, y: Tree)
    requires forall q :: q in y <==> q in x && !(p <= q)
    requires forall q :: q in y ==> y[q] == x[q]
    ensures RemoveTree(x, p).tree == y
  {
    var r := RemoveTree(x, p).tree;
    assert forall q :: q in r <==> q in y;
    assert forall q :: q in r ==> r[q] == y[q];
  }

  /** The caller's block on the staged path: its write, if any, always lands in
      the fresh staging directory, and it ends as the block does. */
  lemma BodyInStaging(t: Tree, h: Host, dest: Path, tag: string, block: Block)
    requires WellFormed(t) && dest != [] && StagingReady(t, h, dest, tag)
    ensures var source := StagedFile(dest, tag);
      var w := Body(t, h, source, block);
      && source !in t
      && w.tree == (if block.data.Some? then t[source := File(block.data.value, NewFileMode & !h.umask, h.me)] else t)
      && w.status == (if block.raises.Some? then Err(Raised(block.raises.value)) else Ok)
  {
    var source := StagedFile(dest, tag);
    assert StagingDir(dest, tag) <= source;
    if block.data.Some? {
      var wr := Write(t, h, source, block.data.value);
      assert wr.status.Ok?;
    }
  }

  /** Publishing a staged file the process owns, when nothing is in the way:
      the file goes to the destination with file_perms and the owner asked for. */
  lemma PublishMoves(t: Tree, h: Host, source: Path, dest: Path, cfg: Config)
    requires WellFormed(t) && source in t && t[source].File? && t[source].owner == h.me
    requires source != dest && dest != [] && Parent(dest) in t && t[Parent(dest)].Dir? && Parent(dest) !in h.readOnly
    requires if cfg.overwrite then !(dest in t && t[dest].Dir?) else dest !in t
    ensures var a := Publish(t, h, source, dest, cfg);
      && a.tree == (t - {source})[dest := PublishedFile(h, cfg, t[source].bytes)]
      && a.status == ChownOutcome(h, cfg, dest)
      && a.ops == [if cfg.overwrite then ReplaceOp(source, dest) else MoveOp(source, dest)]
                  + ([ChmodOp(dest, cfg.filePerms)]
                     + if cfg.user.Some? || cfg.group.Some? then [ChownOp(dest, cfg.user, cfg.group)] else [])
  {
    var mv := if cfg.overwrite then Replace(t, h, source, dest) else MoveNoReplace(t, h, source, dest);
    assert mv.status.Ok? && mv.tree == (t - {source})[dest := t[source]];
    SetPropertiesOnOwn(mv.tree, h, dest, cfg.filePerms, cfg);
    var s := SetProperties(mv.tree, h, dest, cfg.filePerms, cfg.user, cfg.group);
    assert mv.tree[dest].(mode := cfg.filePerms, owner := OwnerAfterChown(h, cfg))
      == PublishedFile(h, cfg, t[source].bytes);
  }

  /** Publishing when the move cannot go through: nothing changes and the
      error of the move or replace is reported. */
  lemma PublishRefused(t: Tree, h: Host, source: Path, dest: Path, cfg: Config)
    requires source !in t || t[source].File?
    requires dest != [] && Parent(dest) in t && t[Parent(dest)].Dir?
    requires source !in t || (!cfg.overwrite && dest in t) || (cfg.overwrite && dest in t && t[dest].Dir?)
    ensures var a := Publish(t, h, source, dest, cfg);
      && a.tree == t
      && a.ops == [if cfg.overwrite then ReplaceOp(source, dest) else MoveOp(source, dest)]
      && a.status == Err(if source !in t then NotFound(source) else if !cfg.overwrite then Exists(dest) else IsADirectory(dest))
  {
  }

  /** rmtree of the staging directory after the block: whatever the block
      did to the staged path goes with it. */
  lemma CleanupAfterBody(t: Tree, w: Tree, s: Path, source: Path)
    requires s <= source && forall q :: q in t && s <= q ==> q == s
    requires forall q :: q != source ==> (q in w <==> q in t) && (q in t ==> w[q] == t[q])
    ensures RemoveTree(w, s).tree == t - {s}
  {
    RemoveTreeIs(w, s, t - {s});
  }

  /** rmtree of the staging directory after the staged file has been moved
      to the destination, outside it. */
  lemma CleanupAfterMove(t: Tree, w: Tree, s: Path, source: Path, dest: Path, file: Node)
    requires s <= source && !(s <= dest) && forall q :: q in t && s <= q ==> q == s
    requires forall q :: q != source ==> (q in w <==> q in t) && (q in t ==> w[q] == t[q])
    ensures RemoveTree((w - {source})[dest := file], s).tree == (t - {s})[dest := file]
  {
    RemoveTreeIs((w - {source})[dest := file], s, (t - {s})[dest := file]);
  }

  /** From the yield on, when the block raises: nothing is published, the
      staging directory goes and the block's exception is what is raised. */
  lemma StagedRaises(t: Tree, h: Host, dest: Path, cfg: Config, tag: string, block: Block)
    requires WellFormed(t) && dest != [] && StagingReady(t, h, dest, tag)
    requires block.raises.Some?
    ensures StagedFile(dest, tag) !in t
    ensures var st := Staged(t, h, dest, cfg, tag, block);
      && st.tree == t - {StagingDir(dest, tag)}
      && st.status == StagedStatus(t, h, dest, cfg, tag, block)
      && st.ops == StagedOps(t, dest, cfg, tag, block)
  {
    var s := StagingDir(dest, tag);
    var source := StagedFile(dest, tag);
    BodyInStaging(t, h, dest, tag, block);
    var w := Body(t, h, source, block);
    CleanupAfterBody(t, w.tree, s, source);
  }

  /** From the yield on, when the block finishes but its move cannot go
      through: the staging directory goes and the move's error is raised. */
  lemma StagedRefused(t: Tree, h: Host, dest: Path, cfg: Config, tag: string, block: Block)
    requires WellFormed(t) && dest != [] && StagingReady(t, h, dest, tag)
    requires block.raises.None? && !Publishes(t, dest, cfg, block)
    ensures StagedFile(dest, tag) !in t
    ensures var st := Staged(t, h, dest, cfg, tag, block);
      && st.tree == t - {StagingDir(dest, tag)}
      && st.status == StagedStatus(t, h, dest, cfg, tag, block)
      && st.ops == StagedOps(t, dest, cfg, tag, block)
  {
    var s := StagingDir(dest, tag);
    var source := StagedFile(dest, tag);
    BodyInStaging(t, h, dest, tag, block);
    var w := Body(t, h, source, block);
    assert Parent(dest) in t && t[Parent(dest)].Dir? by {
      assert Parent(s) == Parent(dest);
    }
    PublishRefused(w.tree, h, source, dest, cfg);
    CleanupAfterBody(t, w.tree, s, source);
    StagedFinished(t, h, dest, cfg, tag, block);
    RefusedShape(t, dest, cfg, tag, block);
  }

  /** The calls on the destination of a refused publish: the move alone. */
  lemma RefusedShape(t: Tree, dest: Path, cfg: Config, tag: string, block: Block)
    requires dest != [] && block.raises.None? && !Publishes(t, dest, cfg, block)
    ensures var source := StagedFile(dest, tag);
      PublishOps(t, dest, cfg, tag, block) == [if cfg.overwrite then ReplaceOp(source, dest) else MoveOp(source, dest)]
  {
  }

  /** Staged after a block that finished: the publish, then the rmtree. */
  lemma StagedFinished(t: Tree, h: Host, dest: Path, cfg: Config, tag: string, block: Block)
    requires WellFormed(t) && dest != [] && StagedFile(dest, tag) !in t
    requires Body(t, h, StagedFile(dest, tag), block).status.Ok?
    ensures var w := Body(t, h, StagedFile(dest, tag), block);
      var pub := Publish(w.tree, h, StagedFile(dest, tag), dest, cfg);
      var rm := RemoveTree(pub.tree, StagingDir(dest, tag));
      Staged(t, h, dest, cfg, tag, block) == After(rm.tree, pub.status, w.ops + pub.ops + rm.ops)
  {
  }

  /** From the yield on, when the block's bytes are published: the staging
      directory goes and the destination holds the published file. */
  lemma StagedPublishes(t: Tree, h: Host, dest: Path, cfg: Config, tag: string, block: Block)
    requires WellFormed(t) && dest != [] && StagingReady(t, h, dest, tag)
    requires Publishes(t, dest, cfg, block)
    ensures StagedFile(dest, tag) !in t
    ensures var st := Staged(t, h, dest, cfg, tag, block);
      && st.tree == (t - {StagingDir(dest, tag)})[dest := PublishedFile(h, cfg, block.data.value)]
      && st.status == StagedStatus(t, h, dest, cfg, tag, block)
      && st.ops == StagedOps(t, dest, cfg, tag, block)
  {
    var s := StagingDir(dest, tag);
    var source := StagedFile(dest, tag);
    var file := PublishedFile(h, cfg, block.data.value);
    BodyInStaging(t, h, dest, tag, block);
    var w := Body(t, h, source, block);
    assert Parent(dest) in t && t[Parent(dest)].Dir? by {
      assert Parent(s) == Parent(dest);
    }
    PublishMoves(w.tree, h, source, dest, cfg);
    var pub := Publish(w.tree, h, source, dest, cfg);
    assert pub.tree == (w.tree - {source})[dest := file];
    CleanupAfterMove(t, w.tree, s, source, dest, file);
    assert pub.ops == PublishOps(t, dest, cfg, tag, block);
  }

  /** From the yield on, in closed form: the staging directory goes, and the
      destination gets the published file exactly when Publishes holds. */
  lemma StagedOutcome(t: Tree, h: Host, dest: Path, cfg: Config, tag: string, block: Block)
    requires WellFormed(t) && dest != [] && StagingReady(t, h, dest, tag)
    ensures StagedFile(dest, tag) !in t
    ensures var st := Staged(t, h, dest, cfg, tag, block);
      var rest := t - {StagingDir(dest, tag)};
      && st.tree == (if Publishes(t, dest, cfg, block) then rest[dest := PublishedFile(h, cfg, block.data.value)] else rest)
      && st.status == StagedStatus(t, h, dest, cfg, tag, block)
      && st.ops == StagedOps(t, dest, cfg, tag, block)
  {
    if Publishes(t, dest, cfg, block) {
      StagedPublishes(t, h, dest, cfg, tag, block);
    } else if block.raises.Some? {
      StagedRaises(t, h, dest, cfg, tag, block);
    } else {
      StagedRefused(t, h, dest, cfg, tag, block);
    }
  }

  /** Once the staging directory is made, the call is the loop, the mkdir of
      the staging directory and the staged part, in that order. */
  lemma WriterCmUnfolds(t: Tree, h: Host, dest: Path, cfg: Config, tag: string, block: Block)
    requires WellFormed(t) && Resolved(dest) && FreshStaging(t, h, dest, tag)
    requires var prov := Provision(t, h, Parent(dest), cfg);
      prov.status.Ok? && Mkdir(prov.tree, h, StagingDir(dest, tag), TempDirMode).status.Ok?
    ensures var prov := Provision(t, h, Parent(dest), cfg);
      var mk := Mkdir(prov.tree, h, StagingDir(dest, tag), TempDirMode);
      && WellFormed(mk.tree) && StagedFile(dest, tag) !in mk.tree
      && WriterCm(t, h, dest, cfg, tag, block)
         == Run(Then(Then(prov, mk), Staged(mk.tree, h, dest, cfg, tag, block)), Some(StagedFile(dest, tag)))
  {
    StagingAbsentAfterProvision(t, h, dest, cfg, tag);
  }

  /** Two trees that agree at the destination lead to the same publishing
      decision, outcome and calls. */
  lemma SameAtDestination(t1: Tree, t2: Tree, h: Host, dest: Path, cfg: Config, tag: string, block: Block)
    requires dest != [] && (dest in t1 <==> dest in t2) && (dest in t1 ==> t1[dest] == t2[dest])
    ensures Publishes(t1, dest, cfg, block) == Publishes(t2, dest, cfg, block)
    ensures StagedStatus(t1, h, dest, cfg, tag, block) == StagedStatus(t2, h, dest, cfg, tag, block)
    ensures StagedOps(t1, dest, cfg, tag, block) == StagedOps(t2, dest, cfg, tag, block)
  {
  }

  /** The staged part, run on the tree the loop left once mkdtemp has made the
      staging directory in it, is StagedOutcome's on that tree. */
  lemma StagedAfterMkdtemp(p: Tree, h: Host, dest: Path, cfg: Config, tag: string, block: Block)
    requires WellFormed(p) && dest != [] && StagingDir(dest, tag) !in h.readOnly
    requires forall q :: q in p ==> !(StagingDir(dest, tag) <= q)
    requires Mkdir(p, h, StagingDir(dest, tag), TempDirMode).status.Ok?
    ensures var mk := Mkdir(p, h, StagingDir(dest, tag), TempDirMode);
      && StagedFile(dest, tag) !in mk.tree
      && Staged(mk.tree, h, dest, cfg, tag, block)
         == After(if Publishes(p, dest, cfg, block) then p[dest := PublishedFile(h, cfg, block.data.value)] else p,
                  StagedStatus(p, h, dest, cfg, tag, block),
                  StagedOps(p, dest, cfg, tag, block))
  {
    var s := StagingDir(dest, tag);
    MkdtempReady(p, h, dest, tag);
    var made := Mkdir(p, h, s, TempDirMode).tree;
    StagedOutcome(made, h, dest, cfg, tag, block);
    SameAtDestination(made, p, h, dest, cfg, tag, block);
  }

  /** mkdtemp in the destination's parent leaves the staging directory
      present, empty and writable, and nothing else changed. */
  lemma MkdtempReady(p: Tree, h: Host, dest: Path, tag: string)
    requires WellFormed(p) && dest != [] && StagingDir(dest, tag) !in h.readOnly
    requires forall q :: q in p ==> !(StagingDir(dest, tag) <= q)
    requires Mkdir(p, h, StagingDir(dest, tag), TempDirMode).status.Ok?
    ensures var made := Mkdir(p, h, StagingDir(dest, tag), TempDirMode).tree;
      && WellFormed(made) && StagingReady(made, h, dest, tag)
      && made - {StagingDir(dest, tag)} == p
      && (dest in made <==> dest in p) && (dest in p ==> made[dest] == p[dest])
  {
    var s := StagingDir(dest, tag);
    assert Parent(s) == Parent(dest);
    var made := p[s := Dir(TempDirMode & !h.umask, h.me)];
    assert made - {s} == p;
    assert !(s <= dest);
  }

  /** The whole call when the staging directory is made: the result is
      StagedOutcome's, on the tree the loop left. */
  lemma WriterCmYields(t: Tree, h: Host, dest: Path, cfg: Config, tag: string, block: Block)
    requires WellFormed(t) && Resolved(dest) && FreshStaging(t, h, dest, tag)
    requires var prov := Provision(t, h, Parent(dest), cfg);
      prov.status.Ok? && Mkdir(prov.tree, h, StagingDir(dest, tag), TempDirMode).status.Ok?
    ensures var prov := Provision(t, h, Parent(dest), cfg);
      var r := WriterCm(t, h, dest, cfg, tag, block);
      && r.yielded == Some(StagedFile(dest, tag))
      && r.after.tree == (if Publishes(prov.tree, dest, cfg, block)
                          then prov.tree[dest := PublishedFile(h, cfg, block.data.value)]
                          else prov.tree)
      && r.after.status == StagedStatus(prov.tree, h, dest, cfg, tag, block)
      && r.after.ops == prov.ops + [MkdirOp(StagingDir(dest, tag), TempDirMode)]
                        + StagedOps(prov.tree, dest, cfg, tag, block)
  {
    StagingAbsentAfterProvision(t, h, dest, cfg, tag);
    var prov := Provision(t, h, Parent(dest), cfg);
    WriterCmUnfolds(t, h, dest, cfg, tag, block);
    StagedAfterMkdtemp(prov.tree, h, dest, cfg, tag, block);
    TraceAssoc(prov.ops, [MkdirOp(StagingDir(dest, tag), TempDirMode)], StagedOps(prov.tree, dest, cfg, tag, block));
  }

  /** The whole call in closed form. It hands out the staged path exactly when
      the directory loop ends without an error that escapes and the temporary
      directory can be made in the destination's parent; if not, the loop's
      work stays and nothing else is done; if so, the result is StagedOutcome's,
      on the tree the loop left. */
  lemma WriterCmOutcome(t: Tree, h: Host, dest: Path, cfg: Config, tag: string, block: Block)
    requires WellFormed(t) && Resolved(dest) && FreshStaging(t, h, dest, tag)
    ensures var prov := Provision(t, h, Parent(dest), cfg);
      var r := WriterCm(t, h, dest, cfg, tag, block);
      && (r.yielded.Some? <==>
            prov.status.Ok? && Parent(dest) in prov.tree && prov.tree[Parent(dest)].Dir? && Parent(dest) !in h.readOnly)
      && (r.yielded.None? ==>
            && r.after.tree == prov.tree && r.after.status.Err?
            && (prov.status.Err? ==> r.after.status == prov.status && r.after.ops == prov.ops)
            && (prov.status.Ok? ==>
                  && r.after.status == Mkdir(prov.tree, h, StagingDir(dest, tag), TempDirMode).status
                  && r.after.ops == prov.ops + [MkdirOp(StagingDir(dest, tag), TempDirMode)]))
      && (r.yielded.Some? ==>
            && r.yielded == Some(StagedFile(dest, tag))
            && r.after.tree == (if Publishes(prov.tree, dest, cfg, block)
                                then prov.tree[dest := PublishedFile(h, cfg, block.data.value)]
                                else prov.tree)
            && r.after.status == StagedStatus(prov.tree, h, dest, cfg, tag, block)
            && r.after.ops == prov.ops + [MkdirOp(StagingDir(dest, tag), TempDirMode)]
                              + StagedOps(prov.tree, dest, cfg, tag, block))
  {
    var s := StagingDir(dest, tag);
    StagingAbsentAfterProvision(t, h, dest, cfg, tag);
    var prov := Provision(t, h, Parent(dest), cfg);
    if prov.status.Ok? {
      assert Parent(s) == Parent(dest);
      if Mkdir(prov.tree, h, s, TempDirMode).status.Ok? {
        WriterCmYields(t, h, dest, cfg, tag, block);
      }
    }
  }

  /** What the directory loop leaves, seen from the destination: a well-formed
      tree that keeps every old entry, whose new entries are ancestors of the
      destination made with dir_perms, in which the destination is as it was
      and the staging directory is absent. */
  lemma ProvisionAroundDest(t: Tree, h: Host, dest: Path, cfg: Config, tag: string)
    requires WellFormed(t) && Resolved(dest) && FreshStaging(t, h, dest, tag)
    ensures var p := Provision(t, h, Parent(dest), cfg).tree;
      && WellFormed(p)
      && (forall q :: q in t ==> q in p && p[q] == t[q])
      && (forall q :: q in p && q !in t ==> q <= Parent(dest) && p[q] == Dir(cfg.dirPerms, OwnerAfterChown(h, cfg)))
      && (dest in p <==> dest in t)
      && (forall q :: q in p ==> !(StagingDir(dest, tag) <= q))
  {
    ProvisionFromFrame(t, h, Parent(dest), 0, cfg);
    StagingAbsentAfterProvision(t, h, dest, cfg, tag);
  }

  /** Every call ends with a well-formed tree. */
  lemma WriterCmWellFormed(t: Tree, h: Host, dest: Path, cfg: Config, tag: string, block: Block)
    requires WellFormed(t) && Resolved(dest) && FreshStaging(t, h, dest, tag)
    ensures WellFormed(WriterCm(t, h, dest, cfg, tag, block).after.tree)
  {
    WriterCmOutcome(t, h, dest, cfg, tag, block);
    ProvisionAroundDest(t, h, dest, cfg, tag);
    var p := Provision(t, h, Parent(dest), cfg).tree;
    var r := WriterCm(t, h, dest, cfg, tag, block);
    if r.yielded.Some? && Publishes(p, dest, cfg, block) {
      var f := p[dest := PublishedFile(h, cfg, block.data.value)];
      forall q | q in f && q != [] ensures Parent(q) in f && f[Parent(q)].Dir? {
        if q != dest {
          assert Parent(q) in p && p[Parent(q)].Dir?;
        }
      }
    }
  }

  /** On every exit path the staging directory and everything below it are
      gone (or were never made). */
  lemma StagingDirRemoved(t: Tree, h: Host, dest: Path, cfg: Config, tag: string, block: Block)
    requires WellFormed(t) && Resolved(dest) && FreshStaging(t, h, dest, tag)
    ensures forall q :: q in WriterCm(t, h, dest, cfg, tag, block).after.tree ==> !(StagingDir(dest, tag) <= q)
  {
    WriterCmOutcome(t, h, dest, cfg, tag, block);
    ProvisionAroundDest(t, h, dest, cfg, tag);
  }

  /** Nothing else changes: every entry other than the destination is kept as
      it was, the only other new entries are ancestors of the destination made
      with dir_perms, and the ancestors the loop made are never rolled back. */
  lemma NothingElseChanges(t: Tree, h: Host, dest: Path, cfg: Config, tag: string, block: Block)
    requires WellFormed(t) && Resolved(dest) && FreshStaging(t, h, dest, tag)
    ensures var f := WriterCm(t, h, dest, cfg, tag, block).after.tree;
      && (forall q :: q in t && q != dest ==> q in f && f[q] == t[q])
      && (forall q :: q in f && q !in t && q != dest ==>
            q <= Parent(dest) && f[q] == Dir(cfg.dirPerms, OwnerAfterChown(h, cfg)))
      && (forall q :: q in Provision(t, h, Parent(dest), cfg).tree ==> q in f)
  {
    WriterCmAfterLoop(t, h, dest, cfg, tag, block);
    ProvisionAroundDest(t, h, dest, cfg, tag);
  }

  /** After the loop, the rest of the call changes at most the destination. */
  lemma WriterCmAfterLoop(t: Tree, h: Host, dest: Path, cfg: Config, tag: string, block: Block)
    requires WellFormed(t) && Resolved(dest) && FreshStaging(t, h, dest, tag)
    ensures var p := Provision(t, h, Parent(dest), cfg).tree;
      var f := WriterCm(t, h, dest, cfg, tag, block).after.tree;
      && (forall q :: q in p ==> q in f)
      && (forall q :: q != dest ==> (q in f <==> q in p) && (q in p ==> f[q] == p[q]))
  {
    WriterCmOutcome(t, h, dest, cfg, tag, block);
  }

  /** The destination is replaced whole or not at all: it is never removed,
      and if it differs afterwards it holds exactly the bytes the block wrote,
      with file_perms, and the block finished normally. */
  lemma DestinationAtomic(t: Tree, h: Host, dest: Path, cfg: Config, tag: string, block: Block)
    requires WellFormed(t) && Resolved(dest) && FreshStaging(t, h, dest, tag)
    ensures var f := WriterCm(t, h, dest, cfg, tag, block).after.tree;
      && (dest in t ==> dest in f)
      && (dest in f ==>
            || (dest in t && f[dest] == t[dest])
            || (block.raises.None? && block.data.Some? && f[dest] == PublishedFile(h, cfg, block.data.value)))
  {
    WriterCmOutcome(t, h, dest, cfg, tag, block);
    ProvisionAroundDest(t, h, dest, cfg, tag);
  }

  /** The yielded path is the destination's name inside the staging directory,
      and the staging directory is a direct child of the destination's parent,
      so on the same file system. It is yielded exactly when the loop ends
      without an escaping error and the staging directory can be made. */
  lemma StagingLocation(t: Tree, h: Host, dest: Path, cfg: Config, tag: string, block: Block)
    requires WellFormed(t) && Resolved(dest) && FreshStaging(t, h, dest, tag)
    ensures var prov := Provision(t, h, Parent(dest), cfg);
      var r := WriterCm(t, h, dest, cfg, tag, block);
      && (r.yielded.Some? <==>
            prov.status.Ok? && Parent(dest) in prov.tree && prov.tree[Parent(dest)].Dir? && Parent(dest) !in h.readOnly)
      && (r.yielded.Some? ==>
            && r.yielded.value == StagingDir(dest, tag) + [Last(dest)]
            && Parent(r.yielded.value) == StagingDir(dest, tag)
            && Parent(StagingDir(dest, tag)) == Parent(dest)
            && Last(StagingDir(dest, tag)) == StagingName(Last(dest), tag))
  {
    WriterCmOutcome(t, h, dest, cfg, tag, block);
  }

  /** An error that escapes the directory loop ends the call before any
      staging directory exists: nothing is yielded, the error is a missing
      path, a file in the way or an unknown user or group, and every call made
      was a mkdir, chmod or chown on an ancestor of the destination. */
  lemma ProvisionFailure(t: Tree, h: Host, dest: Path, cfg: Config, tag: string, block: Block)
    requires WellFormed(t) && Resolved(dest) && FreshStaging(t, h, dest, tag)
    requires Provision(t, h, Parent(dest), cfg).status.Err?
    ensures var r := WriterCm(t, h, dest, cfg, tag, block);
      && r.yielded.None?
      && r.after.status == Provision(t, h, Parent(dest), cfg).status
      && (r.after.status.error.NotFound? || r.after.status.error.NotADirectory? || r.after.status.error.UnknownName?)
      && (forall op :: op in r.after.ops ==>
            (op.MkdirOp? || op.ChmodOp? || op.ChownOp?) && op.path <= Parent(dest))
  {
    WriterCmOutcome(t, h, dest, cfg, tag, block);
    ProvisionFromFrame(t, h, Parent(dest), 0, cfg);
    ProvisionFromCalls(t, h, Parent(dest), 0, cfg);
  }

  /** The calls the loop makes never name the destination or anything in the
      staging directory. */
  lemma ProvisionOpsAvoid(t: Tree, h: Host, dest: Path, cfg: Config, tag: string)
    requires WellFormed(t) && Resolved(dest)
    ensures forall op :: op in Provision(t, h, Parent(dest), cfg).ops ==>
      && (op.ChmodOp? || op.ChownOp? || op.MkdirOp?)
      && Targets(op) == {op.path} && op.path != dest && !(StagingDir(dest, tag) <= op.path)
  {
    ProvisionFromCalls(t, h, Parent(dest), 0, cfg);
    var ops := Provision(t, h, Parent(dest), cfg).ops;
    forall op | op in ops
      ensures (op.ChmodOp? || op.ChownOp? || op.MkdirOp?)
      ensures Targets(op) == {op.path} && op.path != dest && !(StagingDir(dest, tag) <= op.path)
    {
      assert ops == ProvisionFrom(t, h, Parent(dest), 0, cfg).ops;
      var i :| 0 <= i < |ops| && ops[i] == op;
      assert ops[i].MkdirOp? || ops[i].ChmodOp? || ops[i].ChownOp?;
      assert ops[i].path <= Parent(dest);
      assert |op.path| < |StagingDir(dest, tag)|;
    }
  }

  /** If the caller's block raises, its exception is what the call raises and
      the destination is exactly as before. */
  lemma CallerFailure(t: Tree, h: Host, dest: Path, cfg: Config, tag: string, block: Block)
    requires WellFormed(t) && Resolved(dest) && FreshStaging(t, h, dest, tag)
    requires block.raises.Some?
    requires WriterCm(t, h, dest, cfg, tag, block).yielded.Some?
    ensures var r := WriterCm(t, h, dest, cfg, tag, block);
      && r.after.status == Err(Raised(block.raises.value))
      && (dest in r.after.tree <==> dest in t)
      && (dest in t ==> r.after.tree[dest] == t[dest])
  {
    WriterCmOutcome(t, h, dest, cfg, tag, block);
    ProvisionAroundDest(t, h, dest, cfg, tag);
  }

  /** With overwrite off and the destination present, publishing fails with
      FileExistsError on the destination's path and the old destination stays. */
  lemma NoOverwriteCollision(t: Tree, h: Host, dest: Path, cfg: Config, tag: string, data: seq<Byte>)
    requires WellFormed(t) && Resolved(dest) && FreshStaging(t, h, dest, tag)
    requires !cfg.overwrite && dest in t
    requires WriterCm(t, h, dest, cfg, tag, Block(Some(data), None)).yielded.Some?
    ensures var r := WriterCm(t, h, dest, cfg, tag, Block(Some(data), None));
      && r.after.status == Err(Exists(dest))
      && dest in r.after.tree && r.after.tree[dest] == t[dest]
  {
    WriterCmOutcome(t, h, dest, cfg, tag, Block(Some(data), None));
    ProvisionAroundDest(t, h, dest, cfg, tag);
  }

  /** The round trip: when the block writes data and finishes, and the
      destination is free (or overwrite is on and it is not a directory), the
      destination holds exactly data, with file_perms and the owner asked for;
      whatever it held before is gone. The call succeeds unless the chown
      asked for fails. */
  lemma PublishRoundTrip(t: Tree, h: Host, dest: Path, cfg: Config, tag: string, data: seq<Byte>)
    requires WellFormed(t) && Resolved(dest) && FreshStaging(t, h, dest, tag)
    requires cfg.overwrite || dest !in t
    requires !(dest in t && t[dest].Dir?)
    requires WriterCm(t, h, dest, cfg, tag, Block(Some(data), None)).yielded.Some?
    ensures var r := WriterCm(t, h, dest, cfg, tag, Block(Some(data), None));
      && dest in r.after.tree
      && r.after.tree[dest] == File(data, cfg.filePerms, OwnerAfterChown(h, cfg))
      && r.after.status == ChownOutcome(h, cfg, dest)
  {
    var block := Block(Some(data), None);
    WriterCmOutcome(t, h, dest, cfg, tag, block);
    ProvisionAroundDest(t, h, dest, cfg, tag);
    var p := Provision(t, h, Parent(dest), cfg).tree;
    assert dest in p ==> p[dest] == t[dest];
    assert Publishes(p, dest, cfg, block);
  }

  /** No call of the directory loop names the destination. */
  lemma ProvisionCallsOnDest(t: Tree, h: Host, dest: Path, cfg: Config, tag: string)
    requires WellFormed(t) && Resolved(dest)
    ensures CallsOn(Provision(t, h, Parent(dest), cfg).ops, dest) == []
  {
    var ops := Provision(t, h, Parent(dest), cfg).ops;
    ProvisionOpsAvoid(t, h, dest, cfg, tag);
    forall i | 0 <= i < |ops| ensures dest !in Targets(ops[i]) {
      assert ops[i] in ops;
    }
    CallsOnNone(ops, dest);
  }

  /** From the yield on, the calls naming the destination are exactly the
      publishing calls, in order: the write and the rmtree are inside the
      staging directory. */
  lemma StagedCallsOnDest(p: Tree, dest: Path, cfg: Config, tag: string, block: Block)
    requires dest != []
    ensures CallsOn(StagedOps(p, dest, cfg, tag, block), dest) == PublishOps(p, dest, cfg, tag, block)
  {
    var s := StagingDir(dest, tag);
    var write := if block.data.Some? then [WriteOp(StagedFile(dest, tag))] else [];
    var pub := PublishOps(p, dest, cfg, tag, block);
    WriteThenPublishOnDest(p, dest, cfg, tag, block);
    CallsOnAppend(write + pub, [RemoveTreeOp(s)], dest);
    CallsOnNone([RemoveTreeOp(s)], dest);
  }

  /** The block's write is inside the staging directory, so of the write and
      the publishing calls only the latter name the destination. */
  lemma WriteThenPublishOnDest(p: Tree, dest: Path, cfg: Config, tag: string, block: Block)
    requires dest != []
    ensures var write := if block.data.Some? then [WriteOp(StagedFile(dest, tag))] else [];
      CallsOn(write + PublishOps(p, dest, cfg, tag, block), dest) == PublishOps(p, dest, cfg, tag, block)
  {
    var write := if block.data.Some? then [WriteOp(StagedFile(dest, tag))] else [];
    var pub := PublishOps(p, dest, cfg, tag, block);
    CallsOnAppend(write, pub, dest);
    assert StagedFile(dest, tag) != dest;
    CallsOnNone(write, dest);
    PublishOpsOnDest(p, dest, cfg, tag, block);
  }

  /** Every publishing call names the destination. */
  lemma PublishOpsOnDest(p: Tree, dest: Path, cfg: Config, tag: string, block: Block)
    requires dest != []
    ensures CallsOn(PublishOps(p, dest, cfg, tag, block), dest) == PublishOps(p, dest, cfg, tag, block)
  {
    var pub := PublishOps(p, dest, cfg, tag, block);
    forall i | 0 <= i < |pub| ensures dest in Targets(pub[i]) {
      assert pub[i].MoveOp? || pub[i].ReplaceOp? || pub[i].ChmodOp? || pub[i].ChownOp?;
    }
    CallsOnAll(pub, dest);
  }

  /** The calls naming the destination are the publishing calls, in order,
      when the call reached the yield, and there are none otherwise. */
  lemma DestinationCalls(t: Tree, h: Host, dest: Path, cfg: Config, tag: string, block: Block)
    requires WellFormed(t) && Resolved(dest) && FreshStaging(t, h, dest, tag)
    ensures var r := WriterCm(t, h, dest, cfg, tag, block);
      CallsOn(r.after.ops, dest)
        == if r.yielded.Some? then PublishOps(Provision(t, h, Parent(dest), cfg).tree, dest, cfg, tag, block) else []
  {
    WriterCmOutcome(t, h, dest, cfg, tag, block);
    var prov := Provision(t, h, Parent(dest), cfg);
    var r := WriterCm(t, h, dest, cfg, tag, block);
    var mk := [MkdirOp(StagingDir(dest, tag), TempDirMode)];
    ProvisionCallsOnDest(t, h, dest, cfg, tag);
    CallsOnNone(mk, dest);
    CallsOnAppend(prov.ops, mk, dest);
    if r.yielded.Some? {
      var staged := StagedOps(prov.tree, dest, cfg, tag, block);
      CallsOnAppend(prov.ops + mk, staged, dest);
      StagedCallsOnDest(prov.tree, dest, cfg, tag, block);
    }
  }

  /** If the caller's block raises, no call names the destination: no move,
      replace, chmod or chown is made on it. */
  lemma CallerFailureCalls(t: Tree, h: Host, dest: Path, cfg: Config, tag: string, block: Block)
    requires WellFormed(t) && Resolved(dest) && FreshStaging(t, h, dest, tag)
    requires block.raises.Some?
    ensures CallsOn(WriterCm(t, h, dest, cfg, tag, block).after.ops, dest) == []
  {
    DestinationCalls(t, h, dest, cfg, tag, block);
  }

  /** In a collision without overwrite the move is tried, and it is the only
      call naming the destination: _set_properties is not applied to it. */
  lemma NoOverwriteCollisionCalls(t: Tree, h: Host, dest: Path, cfg: Config, tag: string, data: seq<Byte>)
    requires WellFormed(t) && Resolved(dest) && FreshStaging(t, h, dest, tag)
    requires !cfg.overwrite && dest in t
    requires WriterCm(t, h, dest, cfg, tag, Block(Some(data), None)).yielded.Some?
    ensures CallsOn(WriterCm(t, h, dest, cfg, tag, Block(Some(data), None)).after.ops, dest)
         == [MoveOp(StagedFile(dest, tag), dest)]
  {
    ProvisionAroundDest(t, h, dest, cfg, tag);
    DestinationCalls(t, h, dest, cfg, tag, Block(Some(data), None));
  }

  /** The calls on the destination when the block writes data and finishes:
      the move or replace (by the overwrite flag) is always tried; chmod with
      file_perms follows exactly when it can go through, and chown then too
      when a user or group is given. */
  lemma PublishCalls(t: Tree, h: Host, dest: Path, cfg: Config, tag: string, data: seq<Byte>)
    requires WellFormed(t) && Resolved(dest) && FreshStaging(t, h, dest, tag)
    requires WriterCm(t, h, dest, cfg, tag, Block(Some(data), None)).yielded.Some?
    ensures var p := Provision(t, h, Parent(dest), cfg).tree;
      var source := StagedFile(dest, tag);
      var mv := if cfg.overwrite then ReplaceOp(source, dest) else MoveOp(source, dest);
      var chown := if cfg.user.Some? || cfg.group.Some? then [ChownOp(dest, cfg.user, cfg.group)] else [];
      var free := if cfg.overwrite then !(dest in p && p[dest].Dir?) else dest !in p;
      CallsOn(WriterCm(t, h, dest, cfg, tag, Block(Some(data), None)).after.ops, dest)
        == [mv] + (if free then [ChmodOp(dest, cfg.filePerms)] + chown else [])
  {
    DestinationCalls(t, h, dest, cfg, tag, Block(Some(data), None));
  }

  /** When every missing ancestor can be made, the names asked for are known
      and the parent accepts new entries, the caller is handed the staged path
      and every ancestor of the destination is a directory afterwards. */
  lemma AncestorsProvisioned(t: Tree, h: Host, dest: Path, cfg: Config, tag: string, block: Block)
    requires WellFormed(t) && Resolved(dest) && FreshStaging(t, h, dest, tag)
    requires ProvisionableFrom(t, h, Parent(dest), 0) && NamesKnown(h, cfg) && Parent(dest) !in h.readOnly
    ensures var r := WriterCm(t, h, dest, cfg, tag, block);
      && r.yielded == Some(StagedFile(dest, tag))
      && forall j :: 0 <= j <= |Parent(dest)| ==> Parent(dest)[..j] in r.after.tree && r.after.tree[Parent(dest)[..j]].Dir?
  {
    ProvisionFromCompletes(t, h, Parent(dest), 0, cfg);
    WriterCmOutcome(t, h, dest, cfg, tag, block);
    ProvisionAroundDest(t, h, dest, cfg, tag);
    var p := Provision(t, h, Parent(dest), cfg).tree;
    assert Parent(dest)[..|Parent(dest)|] == Parent(dest);
    forall j | 0 <= j <= |Parent(dest)| ensures Parent(dest)[..j] != dest {
      assert |Parent(dest)[..j]| < |dest|;
    }
  }
}
