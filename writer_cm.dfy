/** writer_cm run step by step against a FileSystem object, as the context
    manager does it: the directory loop, the temporary directory, the caller's
    block at the yield, the publishing move and the cleanup of the temporary
    directory. Each method is proved to leave the object exactly as the
    matching function of WriterSpec says. */
module WriterCm {
  import opened FsSpec
  import opened Fs
  import opened WriterSpec

  /** _set_properties: chmod, then chown when a user or a group is given. */
  method SetProperties(fsys: FileSystem, path: Path, permissions: Mode, user: Option<string>, group: Option<string>)
    returns (status: Status)
    requires fsys.Valid()
    modifies fsys
    ensures fsys.Valid()
    ensures var a := WriterSpec.SetProperties(old(fsys.tree), fsys.host, path, permissions, user, group);
      fsys.tree == a.tree && status == a.status && fsys.ops == old(fsys.ops) + a.ops
  {
    status := fsys.Chmod(path, permissions);
    if status.Ok? && (user.Some? || group.Some?) {
      status := fsys.Chown(path, user, group);
    }
  }

  /** One iteration of the directory loop, the `with suppress(...)` block:
      mkdir on the ancestor, _set_properties on it when mkdir succeeded, and
      FileExistsError, IsADirectoryError and PermissionError swallowed. */
  method ProvisionOne(fsys: FileSystem, pathParent: Path, cfg: Config) returns (status: Status)
    requires fsys.Valid()
    modifies fsys
    ensures fsys.Valid()
    ensures var a := WriterSpec.ProvisionOne(old(fsys.tree), fsys.host, pathParent, cfg);
      fsys.tree == a.tree && status == a.status && fsys.ops == old(fsys.ops) + a.ops
  {
    status := fsys.Mkdir(pathParent, DefaultDirMode);
    if status.Ok? {
      status := SetProperties(fsys, pathParent, cfg.dirPerms, cfg.user, cfg.group);
    }
    status := Suppress(status);
  }

  /** The directory loop: one iteration per entry of parent.parts, that is on
      parent[..idx] for idx from 0 (the root) to |parent| (parent itself); the
      first error that is not swallowed ends it. */
  method Provision(fsys: FileSystem, parent: Path, cfg: Config) returns (status: Status)
    requires fsys.Valid()
    modifies fsys
    ensures fsys.Valid()
    ensures var a := WriterSpec.Provision(old(fsys.tree), fsys.host, parent, cfg);
      fsys.tree == a.tree && status == a.status && fsys.ops == old(fsys.ops) + a.ops
  {
    ghost var prov := WriterSpec.Provision(fsys.tree, fsys.host, parent, cfg);
    for idx := 0 to |parent| + 1
      invariant fsys.Valid()
      invariant var rest := ProvisionFrom(fsys.tree, fsys.host, parent, idx, cfg);
        && rest.tree == prov.tree && rest.status == prov.status
        && old(fsys.ops) + prov.ops == fsys.ops + rest.ops
    {
      ghost var before, opsBefore := fsys.tree, fsys.ops;
      ghost var one := WriterSpec.ProvisionOne(before, fsys.host, parent[..idx], cfg);
      var st := ProvisionOne(fsys, parent[..idx], cfg);
      if st.Err? {
        return st;
      }
      ghost var rest := ProvisionFrom(fsys.tree, fsys.host, parent, idx + 1, cfg);
      assert ProvisionFrom(before, fsys.host, parent, idx, cfg) == Then(one, rest);
      TraceAssoc(opsBefore, one.ops, rest.ops);
    }
    status := Ok;
  }

  /** The caller's with-block, at the yield: it writes to the staged path, or
      not, and finishes or raises. */
  method RunBlock(fsys: FileSystem, source: Path, block: Block) returns (status: Status)
    requires fsys.Valid()
    modifies fsys
    ensures fsys.Valid()
    ensures var a := Body(old(fsys.tree), fsys.host, source, block);
      fsys.tree == a.tree && status == a.status && fsys.ops == old(fsys.ops) + a.ops
  {
    status := Ok;
    if block.data.Some? {
      status := fsys.Write(source, block.data.value);
    }
    if status.Ok? && block.raises.Some? {
      status := Err(Raised(block.raises.value));
    }
  }

  /** replace_atomic when overwrite is set, move_atomic otherwise, then
      _set_properties on the destination. */
  method Publish(fsys: FileSystem, source: Path, destination: Path, cfg: Config) returns (status: Status)
    requires fsys.Valid()
    requires source !in fsys.tree || fsys.tree[source].File?
    modifies fsys
    ensures fsys.Valid()
    ensures var a := WriterSpec.Publish(old(fsys.tree), fsys.host, source, destination, cfg);
      fsys.tree == a.tree && status == a.status && fsys.ops == old(fsys.ops) + a.ops
  {
    if cfg.overwrite {
      status := fsys.Replace(source, destination);
    } else {
      status := fsys.MoveNoReplace(source, destination);
    }
    if status.Ok? {
      status := SetProperties(fsys, destination, cfg.filePerms, cfg.user, cfg.group);
    }
  }

  /** The body of the `with TemporaryDirectory(...)` statement, from the yield
      on: the caller's block, publishing if it finished, and the removal of the
      staging directory on every path. */
  method Staged(fsys: FileSystem, destination: Path, cfg: Config, tag: string, block: Block)
    returns (status: Status)
    requires fsys.Valid() && destination != [] && StagedFile(destination, tag) !in fsys.tree
    modifies fsys
    ensures fsys.Valid()
    ensures var a := WriterSpec.Staged(old(fsys.tree), fsys.host, destination, cfg, tag, block);
      fsys.tree == a.tree && status == a.status && fsys.ops == old(fsys.ops) + a.ops
  {
    ghost var t0, ops0 := fsys.tree, fsys.ops;
    var source := StagedFile(destination, tag);
    status := RunBlock(fsys, source, block);
    ghost var w := Body(t0, fsys.host, source, block);
    ghost var ops1 := fsys.ops;
    if status.Ok? {
      status := Publish(fsys, source, destination, cfg);
    }
    ghost var pub := if w.status.Err? then After(w.tree, w.status, []) else WriterSpec.Publish(w.tree, fsys.host, source, destination, cfg);
    assert fsys.ops == ops1 + pub.ops;
    ghost var ops2 := fsys.ops;
    fsys.RemoveTree(StagingDir(destination, tag));
    ghost var rm := RemoveTree(pub.tree, StagingDir(destination, tag));
    assert fsys.ops == ((ops0 + w.ops) + pub.ops) + rm.ops;
    TraceRegroup(ops0, w.ops, pub.ops, rm.ops);
  }

  /** writer_cm(destination, ...): returns how the with statement ends (Ok, or
      the exception it propagates) and the path it yielded, if it got that far.
      The caller's block is the parameter block; tag is the random part of the
      temporary directory's name. */
  method WriterCm(fsys: FileSystem, destination: Path, cfg: Config, tag: string, block: Block)
    returns (status: Status, yielded: Option<Path>)
    requires fsys.Valid()
    requires Resolved(destination) && FreshStaging(fsys.tree, fsys.host, destination, tag)
    modifies fsys
    ensures fsys.Valid()
    ensures var r := WriterSpec.WriterCm(old(fsys.tree), fsys.host, destination, cfg, tag, block);
      && fsys.tree == r.after.tree && status == r.after.status
      && fsys.ops == old(fsys.ops) + r.after.ops && yielded == r.yielded
  {
    StagingAbsentAfterProvision(fsys.tree, fsys.host, destination, cfg, tag);
    ghost var ops0 := fsys.ops;
    ghost var prov := WriterSpec.Provision(fsys.tree, fsys.host, Parent(destination), cfg);
    status := Provision(fsys, Parent(destination), cfg);
    if status.Err? {
      return status, None;
    }
    ghost var mk := FsSpec.Mkdir(fsys.tree, fsys.host, StagingDir(destination, tag), TempDirMode);
    status := fsys.Mkdir(StagingDir(destination, tag), TempDirMode);
    TraceAssoc(ops0, prov.ops, mk.ops);
    if status.Err? {
      return status, None;
    }
    yielded := Some(StagedFile(destination, tag));
    ghost var st := WriterSpec.Staged(fsys.tree, fsys.host, destination, cfg, tag, block);
    status := Staged(fsys, destination, cfg, tag, block);
    TraceRegroup(ops0, prov.ops, mk.ops, st.ops);
  }
}
