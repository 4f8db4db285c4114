/** The file system as a mutable object: the tree of entries and the trace of
    calls made on it. Each method is one system call and changes the state
    exactly as the matching function of FsSpec says. */
module Fs {
  import opened FsSpec

  class FileSystem {
    const host: Host
    var tree: Tree
    var ops: seq<Op>

    ghost predicate Valid()
      reads this
    {
      WellFormed(tree)
    }

    constructor (host: Host, tree: Tree)
      requires WellFormed(tree)
      ensures Valid() && this.host == host && this.tree == tree && ops == []
    {
      this.host := host;
      this.tree := tree;
      this.ops := [];
    }

    method Mkdir(p: Path, mode: Mode) returns (status: Status)
      requires Valid()
      modifies this
      ensures Valid()
      ensures var a := FsSpec.Mkdir(old(tree), host, p, mode);
        tree == a.tree && status == a.status && ops == old(ops) + a.ops
    {
      var a := FsSpec.Mkdir(tree, host, p, mode);
      tree, status, ops := a.tree, a.status, ops + a.ops;
    }

    method Chmod(p: Path, mode: Mode) returns (status: Status)
      requires Valid()
      modifies this
      ensures Valid()
      ensures var a := FsSpec.Chmod(old(tree), host, p, mode);
        tree == a.tree && status == a.status && ops == old(ops) + a.ops
    {
      var a := FsSpec.Chmod(tree, host, p, mode);
      tree, status, ops := a.tree, a.status, ops + a.ops;
    }

    method Chown(p: Path, user: Option<string>, group: Option<string>) returns (status: Status)
      requires Valid()
      requires user.Some? || group.Some?
      modifies this
      ensures Valid()
      ensures var a := FsSpec.Chown(old(tree), host, p, user, group);
        tree == a.tree && status == a.status && ops == old(ops) + a.ops
    {
      var a := FsSpec.Chown(tree, host, p, user, group);
      tree, status, ops := a.tree, a.status, ops + a.ops;
    }

    method Write(p: Path, data: seq<Byte>) returns (status: Status)
      requires Valid()
      modifies this
      ensures Valid()
      ensures var a := FsSpec.Write(old(tree), host, p, data);
        tree == a.tree && status == a.status && ops == old(ops) + a.ops
    {
      var a := FsSpec.Write(tree, host, p, data);
      tree, status, ops := a.tree, a.status, ops + a.ops;
    }

    method MoveNoReplace(src: Path, dst: Path) returns (status: Status)
      requires Valid()
      modifies this
      ensures Valid()
      ensures var a := FsSpec.MoveNoReplace(old(tree), host, src, dst);
        tree == a.tree && status == a.status && ops == old(ops) + a.ops
    {
      var a := FsSpec.MoveNoReplace(tree, host, src, dst);
      tree, status, ops := a.tree, a.status, ops + a.ops;
    }

    method Replace(src: Path, dst: Path) returns (status: Status)
      requires Valid()
      requires src !in tree || tree[src].File?
      modifies this
      ensures Valid()
      ensures var a := FsSpec.Replace(old(tree), host, src, dst);
        tree == a.tree && status == a.status && ops == old(ops) + a.ops
    {
      var a := FsSpec.Replace(tree, host, src, dst);
      tree, status, ops := a.tree, a.status, ops + a.ops;
    }

    method RemoveTree(p: Path)
      requires Valid() && p != []
      modifies this
      ensures Valid()
      ensures var a := FsSpec.RemoveTree(old(tree), p);
        tree == a.tree && ops == old(ops) + a.ops
    {
      var a := FsSpec.RemoveTree(tree, p);
      tree, ops := a.tree, ops + a.ops;
    }
  }
}
