/** writer_cm as a function of the file-system state: what every step of the
    protocol does, composed in the order the context manager runs them, with
    the calls it makes recorded in order. The module WriterCm runs the same
    protocol step by step on a FileSystem object and is proved equal to this. */
module WriterSpec {
  import opened FsSpec

  const S_IRUSR: Mode := 0x100
  const S_IWUSR: Mode := 0x80
  const S_IXUSR: Mode := 0x40
  const S_IRGRP: Mode := 0x20
  const S_IXGRP: Mode := 0x8

  /** u=rwx,g=rx,o= (0o750). */
  const DefaultDirPerms: Mode := S_IRUSR | S_IWUSR | S_IXUSR | S_IRGRP | S_IXGRP
  /** u=rw,g=,o= (0o600). */
  const DefaultFilePerms: Mode := S_IRUSR | S_IWUSR

  /** The keyword arguments of one call. */
  datatype Config = Config(
    overwrite: bool,
    dirPerms: Mode,
    filePerms: Mode,
    user: Option<string>,
    group: Option<string>)

  const Defaults: Config := Config(false, DefaultDirPerms, DefaultFilePerms, None, None)

  /** What the caller's with-block does with the path it is handed: it may write
      bytes to it (or not), and then it finishes or raises. */
  datatype Block = Block(data: Option<seq<Byte>>, raises: Option<string>)

  /** A whole call: the final state, and the path yielded, if the protocol got that far. */
  datatype Run = Run(after: After, yielded: Option<Path>)

  /** Step b, run on the tree that step a left, after step a. */
  function Then(a: After, b: After): (r: After)
  {
    After(b.tree, b.status, a.ops + b.ops)
  }

  /** The destination is absolute and canonical: resolve() has already removed
      ".", "..", empty components and symbolic links, and it names a file below the root. */
  predicate Resolved(dest: Path)
  {
    && dest != []
    && forall i :: 0 <= i < |dest| ==> dest[i] != "" && dest[i] != "." && dest[i] != ".." && '/' !in dest[i]
  }

  /** The user and group names given are known to the system. */
  predicate NamesKnown(h: Host, cfg: Config)
  {
    && (cfg.user.None? || cfg.user.value in h.users)
    && (cfg.group.None? || cfg.group.value in h.groups)
  }

  /** The owner a fresh entry of the process ends with once _set_properties
      has run on it and its chown, if any, has not aborted the operation. */
  function OwnerAfterChown(h: Host, cfg: Config): (o: Owner)
    ensures cfg.user.None? && cfg.group.None? ==> o == h.me
    ensures o == h.me || o == Chowned(h.me, cfg.user, cfg.group)
    ensures (cfg.user.Some? || cfg.group.Some?) && NamesKnown(h, cfg) && MayChown(h, h.me, cfg.user, cfg.group)
      ==> o == Chowned(h.me, cfg.user, cfg.group)
  {
    if (cfg.user.Some? || cfg.group.Some?) && NamesKnown(h, cfg) && MayChown(h, h.me, cfg.user, cfg.group)
    then Chowned(h.me, cfg.user, cfg.group)
    else h.me
  }

  /** _set_properties: chmod always; chown after it only when a user or a group
      is given; the first error stops it. Only the mode and owner of path change. */
  function SetProperties(t: Tree, h: Host, path: Path, perms: Mode, user: Option<string>, group: Option<string>): (a: After)
    ensures |a.ops| >= 1 && a.ops[0] == ChmodOp(path, perms)
    ensures a.ops[1..] ==
      if Chmod(t, h, path, perms).status.Ok? && (user.Some? || group.Some?) then [ChownOp(path, user, group)] else []
    ensures forall q :: q != path ==> (q in a.tree <==> q in t) && (q in t ==> a.tree[q] == t[q])
    ensures path in a.tree <==> path in t
    ensures path in t ==> a.tree[path] == t[path].(mode := a.tree[path].mode, owner := a.tree[path].owner)
    ensures a.status.Ok? ==> path in t && a.tree[path].mode == perms
    ensures a.status.Ok? ==>
      a.tree[path].owner == (if user.Some? || group.Some? then Chowned(t[path].owner, user, group) else t[path].owner)
    ensures WellFormed(t) ==> WellFormed(a.tree)
  {
    var m := Chmod(t, h, path, perms);
    if m.status.Err? || (user.None? && group.None?) then m
    else Then(m, Chown(m.tree, h, path, user, group))
  }

  /** How _set_properties ends on an entry the process owns: chmod succeeds;
      chown, when asked for, fails on an unknown user first, then on an
      unknown group, then on the lack of rights. */
  function ChownOutcome(h: Host, cfg: Config, p: Path): (s: Status)
    ensures s.Ok? <==> (cfg.user.None? && cfg.group.None?) || (NamesKnown(h, cfg) && MayChown(h, h.me, cfg.user, cfg.group))
    ensures s.Err? ==> s.error.UnknownName? || s.error == PermissionDenied(p)
  {
    if cfg.user.None? && cfg.group.None? then Ok
    else if cfg.user.Some? && cfg.user.value !in h.users then Err(UnknownName(cfg.user.value))
    else if cfg.group.Some? && cfg.group.value !in h.groups then Err(UnknownName(cfg.group.value))
    else if !MayChown(h, h.me, cfg.user, cfg.group) then Err(PermissionDenied(p))
    else Ok
  }

  /** _set_properties on an entry the process owns: the mode becomes perms,
      the owner becomes the one asked for unless chown fails, and the outcome
      is ChownOutcome. */
  lemma SetPropertiesOnOwn(t: Tree, h: Host, p: Path, perms: Mode, cfg: Config)
    requires p in t && t[p].owner == h.me
    ensures var a := SetProperties(t, h, p, perms, cfg.user, cfg.group);
      && a.tree == t[p := t[p].(mode := perms, owner := OwnerAfterChown(h, cfg))]
      && a.status == ChownOutcome(h, cfg, p)
      && a.ops == [ChmodOp(p, perms)] + if cfg.user.Some? || cfg.group.Some? then [ChownOp(p, cfg.user, cfg.group)] else []
  {
    var c := Chmod(t, h, p, perms);
    assert c.status.Ok?;
    if cfg.user.Some? || cfg.group.Some? {
      var o := Chown(c.tree, h, p, cfg.user, cfg.group);
      assert c.tree[p].owner == h.me;
      if o.status.Err? {
        assert OwnerAfterChown(h, cfg) == h.me;
      }
    }
  }

  /** The errors `suppress` swallows around mkdir and _set_properties of each ancestor. */
  predicate Suppressed(e: Error)
  {
    e.Exists? || e.IsADirectory? || e.PermissionDenied?
  }

  function Suppress(s: Status): (r: Status)
    ensures r.Ok? <==> s.Ok? || Suppressed(s.error)
    ensures r.Err? ==> r == s
  {
    if s.Err? && Suppressed(s.error) then Ok else s
  }

  /** One iteration of the directory loop, on the ancestor p: mkdir, then
      _set_properties when mkdir succeeded, both inside the suppress block. */
  function ProvisionOne(t: Tree, h: Host, p: Path, cfg: Config): (a: After)
    requires WellFormed(t)
    ensures WellFormed(a.tree)
  {
    var m := Mkdir(t, h, p, DefaultDirMode);
    if m.status.Err? then After(t, Suppress(m.status), m.ops)
    else
      var s := SetProperties(m.tree, h, p, cfg.dirPerms, cfg.user, cfg.group);
      Then(m, After(s.tree, Suppress(s.status), s.ops))
  }

  /** An ancestor that is already there is left exactly as it is, and no
      property is set on it. */
  lemma ProvisionOneExisting(t: Tree, h: Host, p: Path, cfg: Config)
    requires WellFormed(t) && p in t
    ensures ProvisionOne(t, h, p, cfg) == After(t, Ok, [MkdirOp(p, DefaultDirMode)])
  {
  }

  /** A failed mkdir changes nothing and skips _set_properties, whether its
      error is swallowed or not. */
  lemma ProvisionOneMkdirFails(t: Tree, h: Host, p: Path, cfg: Config)
    requires WellFormed(t) && Mkdir(t, h, p, DefaultDirMode).status.Err?
    ensures var a := ProvisionOne(t, h, p, cfg);
      && a.tree == t && a.ops == [MkdirOp(p, DefaultDirMode)]
      && a.status == Suppress(Mkdir(t, h, p, DefaultDirMode).status)
      && (a.status.Err? ==> a.status.error.NotFound? || a.status.error.NotADirectory?)
  {
  }

  /** A created ancestor gets dir_perms and, when the chown could be done, the
      owner asked for; chmod and then chown (when a user or group is given) are
      called on it; the only error that escapes is an unknown name. */
  lemma ProvisionOneCreates(t: Tree, h: Host, p: Path, cfg: Config)
    requires WellFormed(t) && Mkdir(t, h, p, DefaultDirMode).status.Ok?
    ensures var a := ProvisionOne(t, h, p, cfg);
      && p !in t
      && a.tree == t[p := Dir(cfg.dirPerms, OwnerAfterChown(h, cfg))]
      && a.ops == [MkdirOp(p, DefaultDirMode), ChmodOp(p, cfg.dirPerms)]
                  + (if cfg.user.Some? || cfg.group.Some? then [ChownOp(p, cfg.user, cfg.group)] else [])
      && (a.status.Err? ==> a.status.error.UnknownName? && !NamesKnown(h, cfg))
  {
    var m := Mkdir(t, h, p, DefaultDirMode);
    SetPropertiesOnOwn(m.tree, h, p, cfg.dirPerms, cfg);
  }

  /** The three cases together, in the form the lemmas about the loop use. */
  lemma ProvisionOneSummary(t: Tree, h: Host, p: Path, cfg: Config)
    requires WellFormed(t)
    ensures var a := ProvisionOne(t, h, p, cfg);
      && (forall q :: q in t ==> q in a.tree && a.tree[q] == t[q])
      && (forall q :: q in a.tree && q !in t ==> q == p && a.tree[q] == Dir(cfg.dirPerms, OwnerAfterChown(h, cfg)))
      && |a.ops| >= 1 && a.ops[0] == MkdirOp(p, DefaultDirMode)
      && (forall i :: 0 <= i < |a.ops| ==> (a.ops[i].MkdirOp? || a.ops[i].ChmodOp? || a.ops[i].ChownOp?) && a.ops[i].path == p)
      && (forall i :: 1 <= i < |a.ops| ==> (a.ops[i].ChmodOp? || a.ops[i].ChownOp?) && p !in t && p in a.tree)
      && (a.status.Err? ==> a.status.error.NotFound? || a.status.error.NotADirectory? || a.status.error.UnknownName?)
  {
    if Mkdir(t, h, p, DefaultDirMode).status.Err? {
      ProvisionOneMkdirFails(t, h, p, cfg);
    } else {
      ProvisionOneCreates(t, h, p, cfg);
    }
  }

  /** The directory loop from iteration idx on. parent.parts holds the anchor
      and then the |parent| components, so Path(*parts[:idx+1]) is parent[..idx]. */
  function ProvisionFrom(t: Tree, h: Host, parent: Path, idx: nat, cfg: Config): (a: After)
    requires WellFormed(t) && idx <= |parent| + 1
    decreases |parent| + 1 - idx
  {
    if idx == |parent| + 1 then After(t, Ok, [])
    else
      var one := ProvisionOne(t, h, parent[..idx], cfg);
      if one.status.Err? then one
      else Then(one, ProvisionFrom(one.tree, h, parent, idx + 1, cfg))
  }

  function Provision(t: Tree, h: Host, parent: Path, cfg: Config): (a: After)
    requires WellFormed(t)
  {
    ProvisionFrom(t, h, parent, 0, cfg)
  }

  /** What the loop leaves: a well-formed tree in which every old entry is as it
      was and every new entry is an ancestor at depth idx or more, created with
      dir_perms and the owner _set_properties could give it; an error that
      escapes is one that suppress lets through. */
  lemma {:induction false} ProvisionFromFrame(t: Tree, h: Host, parent: Path, idx: nat, cfg: Config)
    requires WellFormed(t) && idx <= |parent| + 1
    ensures var a := ProvisionFrom(t, h, parent, idx, cfg);
      && WellFormed(a.tree)
      && (forall q :: q in t ==> q in a.tree && a.tree[q] == t[q])
      && (forall q :: q in a.tree && q !in t ==>
            q <= parent && idx <= |q| && a.tree[q] == Dir(cfg.dirPerms, OwnerAfterChown(h, cfg)))
      && (a.status.Err? ==>
            a.status.error.NotFound? || a.status.error.NotADirectory? || a.status.error.UnknownName?)
    decreases |parent| + 1 - idx
  {
    if idx < |parent| + 1 {
      var one := ProvisionOne(t, h, parent[..idx], cfg);
      ProvisionOneFrame(t, h, parent, idx, cfg);
      if one.status.Ok? {
        ProvisionFromFrame(one.tree, h, parent, idx + 1, cfg);
        var rest := ProvisionFrom(one.tree, h, parent, idx + 1, cfg);
        assert ProvisionFrom(t, h, parent, idx, cfg) == Then(one, rest);
        FrameThen(t, one, rest, parent, idx, Dir(cfg.dirPerms, OwnerAfterChown(h, cfg)));
      }
    }
  }

  /** One iteration's effect on the tree, in the shape FrameThen takes. */
  lemma ProvisionOneFrame(t: Tree, h: Host, parent: Path, idx: nat, cfg: Config)
    requires WellFormed(t) && idx < |parent| + 1
    ensures var one := ProvisionOne(t, h, parent[..idx], cfg);
      && WellFormed(one.tree)
      && (forall q :: q in t ==> q in one.tree && one.tree[q] == t[q])
      && (forall q :: q in one.tree && q !in t ==>
            q <= parent && idx <= |q| && one.tree[q] == Dir(cfg.dirPerms, OwnerAfterChown(h, cfg)))
      && (one.status.Err? ==>
            one.status.error.NotFound? || one.status.error.NotADirectory? || one.status.error.UnknownName?)
  {
    var p := parent[..idx];
    ProvisionOneSummary(t, h, p, cfg);
    assert p <= parent && idx <= |p|;
  }

  /** One iteration's frame followed by that of the rest of the loop gives the
      frame ProvisionFromFrame states. */
  lemma FrameThen(t: Tree, one: After, rest: After, parent: Path, idx: nat, n: Node)
    requires WellFormed(rest.tree)
    requires forall q :: q in t ==> q in one.tree && one.tree[q] == t[q]
    requires forall q :: q in one.tree ==> q in rest.tree && rest.tree[q] == one.tree[q]
    requires forall q :: q in one.tree && q !in t ==> q <= parent && idx <= |q| && one.tree[q] == n
    requires forall q :: q in rest.tree && q !in one.tree ==> q <= parent && idx + 1 <= |q| && rest.tree[q] == n
    requires rest.status.Err? ==>
      rest.status.error.NotFound? || rest.status.error.NotADirectory? || rest.status.error.UnknownName?
    ensures var a := Then(one, rest);
      && WellFormed(a.tree)
      && (forall q :: q in t ==> q in a.tree && a.tree[q] == t[q])
      && (forall q :: q in a.tree && q !in t ==> q <= parent && idx <= |q| && a.tree[q] == n)
      && (a.status.Err? ==>
            a.status.error.NotFound? || a.status.error.NotADirectory? || a.status.error.UnknownName?)
  {
  }

  /** The shape of the loop's calls from depth idx on, starting from tree t and
      ending in tree end: each is a mkdir, chmod or chown on an ancestor at depth
      idx or more, chmod and chown only on ancestors created on the way, and no
      entry of t is gone from end. */
  predicate LoopCalls(ops: seq<Op>, t: Tree, end: Tree, parent: Path, idx: nat)
  {
    && (forall i :: 0 <= i < |ops| ==>
          (ops[i].MkdirOp? || ops[i].ChmodOp? || ops[i].ChownOp?)
          && ops[i].path <= parent && idx <= |ops[i].path|)
    && (forall i :: 0 <= i < |ops| && (ops[i].ChmodOp? || ops[i].ChownOp?) ==>
          ops[i].path !in t && ops[i].path in end)
    && (forall q :: q in t ==> q in end)
  }

  /** Every call the loop makes is a mkdir, chmod or chown on an ancestor at
      depth idx or more, and chmod and chown are called only on ancestors the
      loop created. */
  lemma {:induction false} ProvisionFromCalls(t: Tree, h: Host, parent: Path, idx: nat, cfg: Config)
    requires WellFormed(t) && idx <= |parent| + 1
    ensures var a := ProvisionFrom(t, h, parent, idx, cfg);
      && (forall i :: 0 <= i < |a.ops| ==>
            (a.ops[i].MkdirOp? || a.ops[i].ChmodOp? || a.ops[i].ChownOp?)
            && a.ops[i].path <= parent && idx <= |a.ops[i].path|)
      && (forall i :: 0 <= i < |a.ops| && (a.ops[i].ChmodOp? || a.ops[i].ChownOp?) ==>
            a.ops[i].path !in t && a.ops[i].path in a.tree)
  {
    ProvisionFromLoopCalls(t, h, parent, idx, cfg);
  }

  /** ProvisionFromCalls by induction on idx, with LoopCalls as the invariant. */
  lemma {:induction false} ProvisionFromLoopCalls(t: Tree, h: Host, parent: Path, idx: nat, cfg: Config)
    requires WellFormed(t) && idx <= |parent| + 1
    ensures var a := ProvisionFrom(t, h, parent, idx, cfg); LoopCalls(a.ops, t, a.tree, parent, idx)
    decreases |parent| + 1 - idx
  {
    if idx < |parent| + 1 {
      var one := ProvisionOne(t, h, parent[..idx], cfg);
      ProvisionOneFrame(t, h, parent, idx, cfg);
      if one.status.Ok? {
        ProvisionFromLoopCalls(one.tree, h, parent, idx + 1, cfg);
      }
      LoopCallsStep(t, h, parent, idx, cfg);
    }
  }

  /** The inductive step of ProvisionFromLoopCalls. */
  lemma LoopCallsStep(t: Tree, h: Host, parent: Path, idx: nat, cfg: Config)
    requires WellFormed(t) && idx < |parent| + 1
    requires var one := ProvisionOne(t, h, parent[..idx], cfg);
      one.status.Ok? ==>
        && WellFormed(one.tree)
        && var rest := ProvisionFrom(one.tree, h, parent, idx + 1, cfg);
           LoopCalls(rest.ops, one.tree, rest.tree, parent, idx + 1)
    ensures var a := ProvisionFrom(t, h, parent, idx, cfg); LoopCalls(a.ops, t, a.tree, parent, idx)
  {
    var one := ProvisionOne(t, h, parent[..idx], cfg);
    ProvisionOneCalls(t, h, parent, idx, cfg);
    if one.status.Ok? {
      ProvisionFromStep(t, h, parent, idx, cfg);
      var rest := ProvisionFrom(one.tree, h, parent, idx + 1, cfg);
      CallsThen(one.ops, rest.ops, t, one.tree, rest.tree, parent, idx);
    }
  }

  /** An iteration that lets no error escape is followed by the rest of the loop. */
  lemma ProvisionFromStep(t: Tree, h: Host, parent: Path, idx: nat, cfg: Config)
    requires WellFormed(t) && idx < |parent| + 1
    requires ProvisionOne(t, h, parent[..idx], cfg).status.Ok?
    ensures var one := ProvisionOne(t, h, parent[..idx], cfg);
      && WellFormed(one.tree)
      && ProvisionFrom(t, h, parent, idx, cfg).ops == one.ops + ProvisionFrom(one.tree, h, parent, idx + 1, cfg).ops
      && ProvisionFrom(t, h, parent, idx, cfg).tree == ProvisionFrom(one.tree, h, parent, idx + 1, cfg).tree
  {
    ProvisionOneFrame(t, h, parent, idx, cfg);
  }

  /** One iteration's calls have the loop's shape. */
  lemma ProvisionOneCalls(t: Tree, h: Host, parent: Path, idx: nat, cfg: Config)
    requires WellFormed(t) && idx < |parent| + 1
    ensures var one := ProvisionOne(t, h, parent[..idx], cfg); LoopCalls(one.ops, t, one.tree, parent, idx)
  {
    var p := parent[..idx];
    ProvisionOneSummary(t, h, p, cfg);
    assert p <= parent && idx <= |p|;
  }

  /** The calls of one iteration followed by those of the rest of the loop keep
      the loop's shape. */
  lemma CallsThen(first: seq<Op>, next: seq<Op>, t: Tree, mid: Tree, end: Tree, parent: Path, idx: nat)
    requires LoopCalls(first, t, mid, parent, idx)
    requires LoopCalls(next, mid, end, parent, idx + 1)
    ensures LoopCalls(first + next, t, end, parent, idx)
  {
    var ops := first + next;
    forall i | 0 <= i < |ops|
      ensures (ops[i].MkdirOp? || ops[i].ChmodOp? || ops[i].ChownOp?)
        && ops[i].path <= parent && idx <= |ops[i].path|
      ensures (ops[i].ChmodOp? || ops[i].ChownOp?) ==> ops[i].path !in t && ops[i].path in end
    {
      if i < |first| {
        assert ops[i] == first[i];
      } else {
        assert ops[i] == next[i - |first|];
      }
    }
  }


  /** The ancestors the loop tries to create, in the order it tries them. */
  function Walk(parent: Path, idx: nat): (r: seq<Path>)
    requires idx <= |parent| + 1
    ensures |r| == |parent| + 1 - idx
    ensures forall i :: 0 <= i < |r| ==> r[i] == parent[..idx + i]
    decreases |parent| + 1 - idx
  {
    if idx == |parent| + 1 then [] else [parent[..idx]] + Walk(parent, idx + 1)
  }

  /** The paths of the mkdir calls in a trace, in order. */
  function MkdirTargets(ops: seq<Op>): (r: seq<Path>)
  {
    if ops == [] then []
    else (if ops[0].MkdirOp? then [ops[0].path] else []) + MkdirTargets(ops[1..])
  }

  lemma {:induction false} MkdirTargetsAppend(a: seq<Op>, b: seq<Op>)
    ensures MkdirTargets(a + b) == MkdirTargets(a) + MkdirTargets(b)
  {
    if a != [] {
      assert a + b != [] && (a + b)[0] == a[0] && (a + b)[1..] == a[1..] + b;
      MkdirTargetsAppend(a[1..], b);
      var head := if a[0].MkdirOp? then [a[0].path] else [];
      assert MkdirTargets(a + b) == head + (MkdirTargets(a[1..]) + MkdirTargets(b));
      assert head + (MkdirTargets(a[1..]) + MkdirTargets(b)) == (head + MkdirTargets(a[1..])) + MkdirTargets(b);
    } else {
      assert a + b == b;
    }
  }

  /** The loop calls mkdir on the ancestors from shallowest to deepest, one per
      iteration: on all of them when it finishes, on a non-empty first part of them
      when an error escapes. */
  lemma {:induction false} ProvisionFromWalk(t: Tree, h: Host, parent: Path, idx: nat, cfg: Config)
    requires WellFormed(t) && idx <= |parent| + 1
    ensures var a := ProvisionFrom(t, h, parent, idx, cfg);
      && MkdirTargets(a.ops) <= Walk(parent, idx)
      && (a.status.Ok? ==> MkdirTargets(a.ops) == Walk(parent, idx))
      && (a.status.Err? ==> MkdirTargets(a.ops) != [])
    decreases |parent| + 1 - idx
  {
    if idx < |parent| + 1 {
      var p := parent[..idx];
      var one := ProvisionOne(t, h, p, cfg);
      ProvisionOneSummary(t, h, p, cfg);
      assert one.ops == [one.ops[0]] + one.ops[1..];
      MkdirTargetsAppend([one.ops[0]], one.ops[1..]);
      assert MkdirTargets(one.ops[1..]) == [] by {
        NoMkdirIn(one.ops[1..]);
      }
      assert MkdirTargets(one.ops) == [p];
      if one.status.Ok? {
        ProvisionFromWalk(one.tree, h, parent, idx + 1, cfg);
        var rest := ProvisionFrom(one.tree, h, parent, idx + 1, cfg);
        MkdirTargetsAppend(one.ops, rest.ops);
      }
    }
  }

  lemma {:induction false} NoMkdirIn(ops: seq<Op>)
    requires forall i :: 0 <= i < |ops| ==> ops[i].ChmodOp? || ops[i].ChownOp?
    ensures MkdirTargets(ops) == []
  {
    if ops != [] {
      NoMkdirIn(ops[1..]);
    }
  }

  /** Every ancestor from idx on is either a directory already, or missing with
      a parent the process may create entries in. */
  predicate ProvisionableFrom(t: Tree, h: Host, parent: Path, idx: nat)
  {
    forall j :: idx <= j <= |parent| ==>
      && (parent[..j] in t ==> t[parent[..j]].Dir?)
      && (parent[..j] !in t ==> 0 < j && parent[..j - 1] !in h.readOnly)
  }

  /** One iteration when nothing stands in the way: it succeeds, the ancestors
      up to idx are directories afterwards, and the rest are still in reach. */
  lemma ProvisionOneReady(t: Tree, h: Host, parent: Path, idx: nat, cfg: Config)
    requires WellFormed(t) && idx <= |parent|
    requires forall j :: 0 <= j < idx ==> parent[..j] in t && t[parent[..j]].Dir?
    requires ProvisionableFrom(t, h, parent, idx) && NamesKnown(h, cfg)
    ensures var one := ProvisionOne(t, h, parent[..idx], cfg);
      && one.status.Ok?
      && (forall j :: 0 <= j <= idx ==> parent[..j] in one.tree && one.tree[parent[..j]].Dir?)
      && ProvisionableFrom(one.tree, h, parent, idx + 1)
  {
    var p := parent[..idx];
    var one := ProvisionOne(t, h, p, cfg);
    if p !in t {
      assert Parent(p) == parent[..idx - 1];
      ProvisionOneCreates(t, h, p, cfg);
    } else {
      ProvisionOneExisting(t, h, p, cfg);
    }
    forall j | 0 <= j <= idx ensures parent[..j] in one.tree && one.tree[parent[..j]].Dir? {
      if j < idx { assert parent[..j] != p; }
    }
    forall j | idx + 1 <= j <= |parent|
      ensures parent[..j] in one.tree <==> parent[..j] in t
      ensures parent[..j] in t ==> one.tree[parent[..j]] == t[parent[..j]]
    {
      assert |parent[..j]| != |p|;
    }
  }

  /** When nothing stands in the way, the loop finishes and every ancestor of the
      destination is a directory afterwards. */
  lemma {:induction false} ProvisionFromCompletes(t: Tree, h: Host, parent: Path, idx: nat, cfg: Config)
    requires WellFormed(t) && idx <= |parent| + 1
    requires forall j :: 0 <= j < idx ==> parent[..j] in t && t[parent[..j]].Dir?
    requires ProvisionableFrom(t, h, parent, idx) && NamesKnown(h, cfg)
    ensures var a := ProvisionFrom(t, h, parent, idx, cfg);
      && a.status.Ok?
      && forall j :: 0 <= j <= |parent| ==> parent[..j] in a.tree && a.tree[parent[..j]].Dir?
    decreases |parent| + 1 - idx
  {
    if idx < |parent| + 1 {
      ProvisionOneReady(t, h, parent, idx, cfg);
      var one := ProvisionOne(t, h, parent[..idx], cfg);
      ProvisionFromCompletes(one.tree, h, parent, idx + 1, cfg);
    }
  }

  /** When every ancestor is already a directory, the loop changes nothing. */
  lemma {:induction false} ProvisionFromExisting(t: Tree, h: Host, parent: Path, idx: nat, cfg: Config)
    requires WellFormed(t) && idx <= |parent| + 1
    requires forall j :: idx <= j <= |parent| ==> parent[..j] in t
    ensures var a := ProvisionFrom(t, h, parent, idx, cfg);
      a.status.Ok? && a.tree == t
    decreases |parent| + 1 - idx
  {
    if idx < |parent| + 1 {
      ProvisionOneExisting(t, h, parent[..idx], cfg);
      ProvisionFromExisting(t, h, parent, idx + 1, cfg);
    }
  }

  /** The name of the temporary directory: prefix = the destination's name,
      then the random part mkdtemp draws, then suffix ".tmp". */
  function StagingName(name: string, tag: string): (r: string)
    ensures |r| > |name| && r[..|name|] == name && r != name
  {
    name + tag + ".tmp"
  }

  /** The staging directory: a direct child of the destination's parent, so on
      the same file system, and never the destination itself. */
  function StagingDir(dest: Path, tag: string): (r: Path)
    requires dest != []
    ensures r != [] && Parent(r) == Parent(dest) && |r| == |dest|
    ensures r != dest && !(r <= dest) && !(r <= Parent(dest))
  {
    Parent(dest) + [StagingName(Last(dest), tag)]
  }

  /** The path the caller is handed: the destination's name inside the staging directory. */
  function StagedFile(dest: Path, tag: string): (r: Path)
    requires dest != []
    ensures r != [] && Parent(r) == StagingDir(dest, tag) && Last(r) == Last(dest)
    ensures StagingDir(dest, tag) <= r && !(StagingDir(dest, tag) <= dest)
  {
    StagingDir(dest, tag) + [Last(dest)]
  }

  /** The name mkdtemp settles on is free, as its retries on FileExistsError
      ensure; the random part tag stands for that name. The model also assumes
      that the process may create entries in the directory mkdtemp makes
      (mode 0o700, owned by the process); it never consults mode bits. */
  predicate FreshStaging(t: Tree, h: Host, dest: Path, tag: string)
    requires dest != []
  {
    StagingDir(dest, tag) !in t && StagingDir(dest, tag) !in h.readOnly
  }

  /** The caller's with-block, run on the staged path. */
  function Body(t: Tree, h: Host, source: Path, block: Block): (a: After)
    ensures a.ops == if block.data.Some? then [WriteOp(source)] else []
    ensures forall q :: q != source ==> (q in a.tree <==> q in t) && (q in t ==> a.tree[q] == t[q])
    ensures source in a.tree && (source !in t || a.tree[source] != t[source]) ==>
      block.data.Some? && a.tree[source].File? && a.tree[source].bytes == block.data.value
    ensures a.status.Ok? ==> block.raises.None?
    ensures block.raises.Some? ==> a.status.Err?
    ensures WellFormed(t) ==> WellFormed(a.tree)
  {
    var w := if block.data.Some? then Write(t, h, source, block.data.value) else After(t, Ok, []);
    if w.status.Ok? && block.raises.Some? then After(w.tree, Err(Raised(block.raises.value)), w.ops) else w
  }

  /** Publishing: replace_atomic when overwrite is set, move_atomic otherwise,
      then _set_properties on the destination with file_perms. */
  function Publish(t: Tree, h: Host, source: Path, dest: Path, cfg: Config): (a: After)
    requires source !in t || t[source].File?
    ensures |a.ops| >= 1 && a.ops[0] == if cfg.overwrite then ReplaceOp(source, dest) else MoveOp(source, dest)
    ensures !cfg.overwrite && source in t && dest in t ==> a == After(t, Err(Exists(dest)), [MoveOp(source, dest)])
    ensures WellFormed(t) ==> WellFormed(a.tree)
  {
    var mv := if cfg.overwrite then Replace(t, h, source, dest) else MoveNoReplace(t, h, source, dest);
    if mv.status.Err? then mv else Then(mv, SetProperties(mv.tree, h, dest, cfg.filePerms, cfg.user, cfg.group))
  }

  /** Before the yield: the loop leaves the staging directory and everything below it absent. */
  lemma StagingAbsentAfterProvision(t: Tree, h: Host, dest: Path, cfg: Config, tag: string)
    requires WellFormed(t) && Resolved(dest) && FreshStaging(t, h, dest, tag)
    ensures var a := Provision(t, h, Parent(dest), cfg);
      && WellFormed(a.tree)
      && forall q :: q in a.tree ==> !(StagingDir(dest, tag) <= q)
  {
    ProvisionFromFrame(t, h, Parent(dest), 0, cfg);
    NothingBelowAbsent(t, StagingDir(dest, tag));
    var a := Provision(t, h, Parent(dest), cfg);
    forall q | q in a.tree ensures !(StagingDir(dest, tag) <= q) {
      if q !in t {
        assert |q| < |StagingDir(dest, tag)|;
      }
    }
  }

  /** The body of the `with TemporaryDirectory(...)` statement, from the yield
      on: the caller's block, publishing if the block finished, and then the
      removal of the staging directory whatever happened. */
  function Staged(t: Tree, h: Host, dest: Path, cfg: Config, tag: string, block: Block): (a: After)
    requires WellFormed(t) && dest != [] && StagedFile(dest, tag) !in t
  {
    var source := StagedFile(dest, tag);
    var w := Body(t, h, source, block);
    var pub := if w.status.Err? then After(w.tree, w.status, []) else Publish(w.tree, h, source, dest, cfg);
    var rm := RemoveTree(pub.tree, StagingDir(dest, tag));
    After(rm.tree, pub.status, w.ops + pub.ops + rm.ops)
  }

  /** writer_cm, from the call to the end of the with statement. */
  function WriterCm(t: Tree, h: Host, dest: Path, cfg: Config, tag: string, block: Block): (r: Run)
    requires WellFormed(t) && Resolved(dest) && FreshStaging(t, h, dest, tag)
  {
    var prov := Provision(t, h, Parent(dest), cfg);
    if prov.status.Err? then Run(prov, None)
    else
      var mk := Mkdir(prov.tree, h, StagingDir(dest, tag), TempDirMode);
      if mk.status.Err? then Run(Then(prov, mk), None)
      else
        StagingAbsentAfterProvision(t, h, dest, cfg, tag);
        assert StagedFile(dest, tag) !in mk.tree;
        Run(Then(Then(prov, mk), Staged(mk.tree, h, dest, cfg, tag, block)), Some(StagedFile(dest, tag)))
  }
}
