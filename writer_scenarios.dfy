/** The situations the repository's tests set up, proved for every starting
    tree of the same shape: a writable directory tmp, a destination below it,
    and a caller that writes some bytes and finishes. */
module WriterScenarios {
  import opened FsSpec
  import opened WriterSpec
  import opened WriterProofs

  /** A destination whose parent is an existing directory the process may
      create entries in. */
  predicate ParentReady(t: Tree, h: Host, dest: Path)
  {
    && dest != [] && Parent(dest) in t && t[Parent(dest)].Dir? && Parent(dest) !in h.readOnly
  }

  /** With every ancestor present the loop is a no-op and the call is handed
      the staged path. */
  lemma ReadyParentYields(t: Tree, h: Host, dest: Path, cfg: Config, tag: string, block: Block)
    requires WellFormed(t) && Resolved(dest) && FreshStaging(t, h, dest, tag) && ParentReady(t, h, dest)
    ensures var prov := Provision(t, h, Parent(dest), cfg);
      && prov.status.Ok? && prov.tree == t
      && WriterCm(t, h, dest, cfg, tag, block).yielded == Some(StagedFile(dest, tag))
  {
    var parent := Parent(dest);
    forall j | 0 <= j <= |parent| ensures parent[..j] in t {
      if j < |parent| {
        AncestorIsDir(t, parent[..j], parent);
      } else {
        assert parent[..j] == parent;
      }
    }
    ProvisionFromExisting(t, h, parent, 0, cfg);
    StagingLocation(t, h, dest, cfg, tag, block);
  }

  /** test_basic_usage: with the defaults, what the block writes is what the
      destination holds, with mode 0o600 and owned by the process. */
  lemma BasicUsage(t: Tree, h: Host, dest: Path, tag: string, data: seq<Byte>)
    requires WellFormed(t) && Resolved(dest) && FreshStaging(t, h, dest, tag) && ParentReady(t, h, dest)
    requires dest !in t
    ensures var r := WriterCm(t, h, dest, Defaults, tag, Block(Some(data), None));
      && r.after.status == Ok
      && dest in r.after.tree && r.after.tree[dest] == File(data, 0x180, h.me)
  {
    ReadyParentYields(t, h, dest, Defaults, tag, Block(Some(data), None));
    PublishRoundTrip(t, h, dest, Defaults, tag, data);
  }

  /** test_file_perms: the destination gets exactly file_perms. */
  lemma FilePerms(t: Tree, h: Host, dest: Path, tag: string, data: seq<Byte>, perms: Mode)
    requires WellFormed(t) && Resolved(dest) && FreshStaging(t, h, dest, tag) && ParentReady(t, h, dest)
    requires dest !in t
    ensures var r := WriterCm(t, h, dest, Defaults.(filePerms := perms), tag, Block(Some(data), None));
      && r.after.status == Ok
      && dest in r.after.tree && r.after.tree[dest] == File(data, perms, h.me)
  {
    var cfg := Defaults.(filePerms := perms);
    ReadyParentYields(t, h, dest, cfg, tag, Block(Some(data), None));
    PublishRoundTrip(t, h, dest, cfg, tag, data);
  }

  /** After one call, the parent is still ready and the tree is well-formed,
      so a second call can be made on the same destination. */
  lemma StillReady(t: Tree, h: Host, dest: Path, cfg: Config, tag: string, block: Block)
    requires WellFormed(t) && Resolved(dest) && FreshStaging(t, h, dest, tag) && ParentReady(t, h, dest)
    ensures var t1 := WriterCm(t, h, dest, cfg, tag, block).after.tree;
      WellFormed(t1) && ParentReady(t1, h, dest)
  {
    WriterCmWellFormed(t, h, dest, cfg, tag, block);
    NothingElseChanges(t, h, dest, cfg, tag, block);
    assert Parent(dest) != dest;
  }

  /** test_file_exists_error: a second call without overwrite raises
      FileExistsError naming the destination, which keeps the first call's bytes. */
  lemma SecondWriteCollides(t: Tree, h: Host, dest: Path, tag1: string, tag2: string, data1: seq<Byte>, data2: seq<Byte>)
    requires WellFormed(t) && Resolved(dest) && FreshStaging(t, h, dest, tag1) && ParentReady(t, h, dest)
    requires dest !in t
    requires FreshStaging(WriterCm(t, h, dest, Defaults, tag1, Block(Some(data1), None)).after.tree, h, dest, tag2)
    ensures var t1 := WriterCm(t, h, dest, Defaults, tag1, Block(Some(data1), None)).after.tree;
      WellFormed(t1) &&
      var r := WriterCm(t1, h, dest, Defaults, tag2, Block(Some(data2), None));
      && r.after.status == Err(Exists(dest))
      && dest in r.after.tree && r.after.tree[dest] == File(data1, 0x180, h.me)
  {
    var t1 := WriterCm(t, h, dest, Defaults, tag1, Block(Some(data1), None)).after.tree;
    BasicUsage(t, h, dest, tag1, data1);
    StillReady(t, h, dest, Defaults, tag1, Block(Some(data1), None));
    ReadyParentYields(t1, h, dest, Defaults, tag2, Block(Some(data2), None));
    NoOverwriteCollision(t1, h, dest, Defaults, tag2, data2);
  }

  /** test_overwrite: a second call with overwrite leaves the second call's
      bytes, and only them, at the destination. */
  lemma OverwriteReplaces(t: Tree, h: Host, dest: Path, tag1: string, tag2: string, data1: seq<Byte>, data2: seq<Byte>)
    requires WellFormed(t) && Resolved(dest) && FreshStaging(t, h, dest, tag1) && ParentReady(t, h, dest)
    requires dest !in t
    requires FreshStaging(WriterCm(t, h, dest, Defaults, tag1, Block(Some(data1), None)).after.tree, h, dest, tag2)
    ensures var t1 := WriterCm(t, h, dest, Defaults, tag1, Block(Some(data1), None)).after.tree;
      WellFormed(t1) &&
      var r := WriterCm(t1, h, dest, Defaults.(overwrite := true), tag2, Block(Some(data2), None));
      && r.after.status == Ok
      && dest in r.after.tree && r.after.tree[dest] == File(data2, 0x180, h.me)
  {
    var t1 := WriterCm(t, h, dest, Defaults, tag1, Block(Some(data1), None)).after.tree;
    var cfg := Defaults.(overwrite := true);
    BasicUsage(t, h, dest, tag1, data1);
    StillReady(t, h, dest, Defaults, tag1, Block(Some(data1), None));
    ReadyParentYields(t1, h, dest, cfg, tag2, Block(Some(data2), None));
    PublishRoundTrip(t1, h, dest, cfg, tag2, data2);
  }

  /** Below an empty directory tmp in which nothing is read-only, every path
      that extends tmp can be provisioned. */
  lemma BelowEmptyTmp(t: Tree, h: Host, tmp: Path, parent: Path)
    requires WellFormed(t) && tmp in t && t[tmp].Dir? && tmp <= parent
    requires forall q :: q in t ==> !(tmp < q)
    requires forall p :: p in h.readOnly ==> !(tmp <= p)
    ensures ProvisionableFrom(t, h, parent, 0)
  {
    forall j | 0 <= j <= |parent|
      ensures parent[..j] in t ==> t[parent[..j]].Dir?
      ensures parent[..j] !in t ==> 0 < j && parent[..j - 1] !in h.readOnly
    {
      if j <= |tmp| {
        assert parent[..j] == tmp[..j];
        if j < |tmp| {
          AncestorIsDir(t, tmp[..j], tmp);
        } else {
          assert tmp[..j] == tmp;
        }
      } else {
        assert tmp < parent[..j];
        assert tmp <= parent[..j - 1];
      }
    }
  }

  /** test_dir_perms: below an empty, writable directory tmp, every missing
      ancestor of the destination is made with dir_perms, and the file is
      published. */
  lemma DirPerms(t: Tree, h: Host, tmp: Path, dirs: seq<string>, name: string, tag: string, data: seq<Byte>, perms: Mode)
    requires WellFormed(t) && tmp in t && t[tmp].Dir?
    requires forall q :: q in t ==> !(tmp < q)
    requires forall p :: p in h.readOnly ==> !(tmp <= p)
    requires Resolved(tmp + dirs + [name]) && FreshStaging(t, h, tmp + dirs + [name], tag)
    ensures var dest := tmp + dirs + [name];
      var r := WriterCm(t, h, dest, Defaults.(dirPerms := perms), tag, Block(Some(data), None));
      && r.after.status == Ok
      && (forall j :: |tmp| < j <= |Parent(dest)| ==>
            Parent(dest)[..j] in r.after.tree && r.after.tree[Parent(dest)[..j]] == Dir(perms, h.me))
      && dest in r.after.tree && r.after.tree[dest] == File(data, 0x180, h.me)
  {
    var dest := tmp + dirs + [name];
    var cfg := Defaults.(dirPerms := perms);
    var block := Block(Some(data), None);
    assert Parent(dest) == tmp + dirs;
    NewAncestors(t, h, tmp, dest, cfg, tag, block);
    assert dest !in t by {
      assert tmp < dest;
    }
    PublishRoundTrip(t, h, dest, cfg, tag, data);
  }

  /** With the defaults, the missing ancestors are made with mode 0o750 and
      owned by the process. */
  lemma DefaultAncestorModes(t: Tree, h: Host, tmp: Path, dirs: seq<string>, name: string, tag: string, block: Block)
    requires WellFormed(t) && tmp in t && t[tmp].Dir?
    requires forall q :: q in t ==> !(tmp < q)
    requires forall p :: p in h.readOnly ==> !(tmp <= p)
    requires Resolved(tmp + dirs + [name]) && FreshStaging(t, h, tmp + dirs + [name], tag)
    ensures var dest := tmp + dirs + [name];
      var f := WriterCm(t, h, dest, Defaults, tag, block).after.tree;
      forall j :: |tmp| < j <= |Parent(dest)| ==> Parent(dest)[..j] in f && f[Parent(dest)[..j]] == Dir(0x1E8, h.me)
  {
    var dest := tmp + dirs + [name];
    assert Parent(dest) == tmp + dirs;
    NewAncestors(t, h, tmp, dest, Defaults, tag, block);
  }

  /** Below an empty, writable directory tmp, the call reaches the yield and
      every ancestor of the destination deeper than tmp is a new directory
      with dir_perms. */
  lemma NewAncestors(t: Tree, h: Host, tmp: Path, dest: Path, cfg: Config, tag: string, block: Block)
    requires WellFormed(t) && tmp in t && t[tmp].Dir?
    requires forall q :: q in t ==> !(tmp < q)
    requires forall p :: p in h.readOnly ==> !(tmp <= p)
    requires Resolved(dest) && FreshStaging(t, h, dest, tag) && tmp <= Parent(dest)
    requires cfg.user.None? && cfg.group.None?
    ensures var r := WriterCm(t, h, dest, cfg, tag, block);
      && r.yielded.Some?
      && (forall j :: |tmp| < j <= |Parent(dest)| ==>
            Parent(dest)[..j] in r.after.tree && r.after.tree[Parent(dest)[..j]] == Dir(cfg.dirPerms, h.me))
  {
    var parent := Parent(dest);
    BelowEmptyTmp(t, h, tmp, parent);
    AncestorsProvisioned(t, h, dest, cfg, tag, block);
    NothingElseChanges(t, h, dest, cfg, tag, block);
    var f := WriterCm(t, h, dest, cfg, tag, block).after.tree;
    forall j | |tmp| < j <= |parent| ensures parent[..j] in f && f[parent[..j]] == Dir(cfg.dirPerms, h.me) {
      assert tmp < parent[..j];
      assert parent[..j] != dest;
    }
  }
}
