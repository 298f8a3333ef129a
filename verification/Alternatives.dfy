/**
 Link groups of update-alternatives (utils/update-alternatives.c): choosing the
 best alternative, installing a choice in two phases (temporary links, then
 renames), and checking an installation.

 The file system is seen through the paths that a link group manages: a path is
 missing, a symbolic link, or something else.
 */
module Alternatives {
  import opened Text

  // ---- link groups ----

  /** `updated` marks a slave link that is being changed by the current command. */
  datatype SlaveLink = SlaveLink(name: string, link: string, updated: bool)

  /** A choice: the master file, its priority, and the slave files by slave name. */
  datatype Fileset = Fileset(masterFile: string, priority: int, slaves: seq<(string, string)>)

  datatype Mode = Unknown | Auto | Manual

  datatype Group = Group(masterName: string, masterLink: string, status: Mode, slaves: seq<SlaveLink>, choices: seq<Fileset>)

  /** `fileset_get_slave`. */
  function SlaveFile(slaves: seq<(string, string)>, name: string): (r: Option<string>)
    ensures r.Some? <==> exists i :: 0 <= i < |slaves| && slaves[i].0 == name
  {
    if slaves == [] then None
    else if slaves[0].0 == name then Some(slaves[0].1)
    else
      var r := SlaveFile(slaves[1..], name);
      assert forall i :: 1 <= i < |slaves| ==> slaves[1..][i - 1] == slaves[i];
      r
  }

  /** `fileset_has_slave`: present and not empty. */
  predicate HasSlave(f: Fileset, name: string) {
    SlaveFile(f.slaves, name).Some? && SlaveFile(f.slaves, name).value != []
  }

  /** `alternative_get_fileset`: the first choice with that master file. */
  function GetFileset(choices: seq<Fileset>, file: string): (r: Option<Fileset>)
    ensures r.Some? ==> r.value in choices && r.value.masterFile == file
    ensures r.None? <==> forall f :: f in choices ==> f.masterFile != file
  {
    if choices == [] then None
    else if choices[0].masterFile == file then Some(choices[0])
    else GetFileset(choices[1..], file)
  }

  // ---- the best choice ----

  /**
   What "best" means: of maximal priority; the current choice if it is one of
   those, and otherwise the first of them in list order.
   */
  ghost predicate IsBest(choices: seq<Fileset>, current: Option<string>, best: Fileset) {
    && best in choices
    && (forall f :: f in choices ==> f.priority <= best.priority)
    && var cur := if current.Some? then GetFileset(choices, current.value) else None;
       if cur.Some? && cur.value.priority == best.priority then best == cur.value
       else exists i :: 0 <= i < |choices| && choices[i] == best && forall j :: 0 <= j < i ==> choices[j].priority < best.priority
  }

  lemma BestUnique(choices: seq<Fileset>, current: Option<string>, a: Fileset, b: Fileset)
    requires IsBest(choices, current, a) && IsBest(choices, current, b)
    ensures a == b
  { }

  /** `alternative_get_best`. */
  method GetBest(choices: seq<Fileset>, current: Option<string>) returns (best: Option<Fileset>)
    ensures best.None? <==> choices == []
    ensures best.Some? ==> IsBest(choices, current, best.value)
  {
    if choices == [] {
      return None;
    }
    var cur := if current.Some? then GetFileset(choices, current.value) else None;
    var b := if cur.Some? then cur.value else choices[0];
    var i := 0;
    while i < |choices|
      invariant 0 <= i <= |choices|
      invariant b in choices
      invariant forall j :: 0 <= j < i ==> choices[j].priority <= b.priority
      invariant cur.Some? ==> cur.value.priority <= b.priority
      invariant cur.Some? && cur.value.priority == b.priority ==> b == cur.value
      invariant !(cur.Some? && cur.value.priority == b.priority) ==>
        exists k :: 0 <= k < |choices| && k <= i && choices[k] == b && forall j :: 0 <= j < k ==> choices[j].priority < b.priority
    {
      if choices[i].priority > b.priority {
        b := choices[i];
      }
      i := i + 1;
    }
    return Some(b);
  }

  // ---- paths ----

  datatype Node = Symlink(target: string) | Other

  type Fs = map<string, Node>

  /** `altdir`, the --force option, and the files that exist. */
  datatype Env = Env(altdir: string, force: bool, present: set<string>)

  function AltPath(env: Env, name: string): string { env.altdir + "/" + name }

  function Tmp(path: string): string { path + ".dpkg-tmp" }

  lemma Paths(env: Env)
    requires env.altdir == "/etc/alternatives"
    ensures AltPath(env, "vi") == "/etc/alternatives/vi" && Tmp("/bin/vi") == "/bin/vi.dpkg-tmp"
  { }

  lemma TmpInjective(p: string, q: string)
    ensures Tmp(p) == Tmp(q) ==> p == q
    ensures Tmp(p) != p
  {
    if Tmp(p) == Tmp(q) {
      assert Tmp(p)[..|p|] == p && Tmp(q)[..|q|] == q;
    }
  }

  function Look(fs: Fs, p: string): Option<Node> { if p in fs then Some(fs[p]) else None }

  /** `alternative_path_needs_update`. */
  predicate PathNeedsUpdate(env: Env, fs: Fs, link: string, target: string) {
    env.force || Look(fs, link).None? || (fs[link].Symlink? && fs[link].target != target)
  }

  predicate CanRemove(env: Env, fs: Fs, link: string) { env.force || Look(fs, link) != Some(Other) }

  /** `fileset_can_install_slave`. */
  predicate CanInstall(env: Env, f: Fileset, name: string) {
    HasSlave(f, name) && SlaveFile(f.slaves, name).value in env.present
  }

  // ---- installing: what is to become of each path ----

  datatype Entry = Set(path: string, target: string) | Remove(path: string)

  function PlanSingle(env: Env, fs: Fs, name: string, link: string, file: string): seq<Entry> {
    [Set(AltPath(env, name), file)]
    + if PathNeedsUpdate(env, fs, link, AltPath(env, name)) then [Set(link, AltPath(env, name))] else []
  }

  function PlanSlave(env: Env, fs: Fs, f: Fileset, sl: SlaveLink): seq<Entry> {
    if CanInstall(env, f, sl.name) then PlanSingle(env, fs, sl.name, sl.link, SlaveFile(f.slaves, sl.name).value)
    else (if CanRemove(env, fs, sl.link) then [Remove(sl.link)] else []) + [Remove(AltPath(env, sl.name))]
  }

  function PlanSlaves(env: Env, fs: Fs, f: Fileset, slaves: seq<SlaveLink>): seq<Entry> {
    if slaves == [] then [] else PlanSlave(env, fs, f, slaves[0]) + PlanSlaves(env, fs, f, slaves[1..])
  }

  /** Everything `alternative_prepare_install` arranges, in order. */
  function Plan(env: Env, fs: Fs, a: Group, f: Fileset): seq<Entry> {
    PlanSingle(env, fs, a.masterName, a.masterLink, f.masterFile) + PlanSlaves(env, fs, f, a.slaves)
  }

  /** The paths of a link group. */
  function SlavePaths(env: Env, slaves: seq<SlaveLink>): seq<string> {
    if slaves == [] then []
    else [slaves[0].link, AltPath(env, slaves[0].name)] + SlavePaths(env, slaves[1..])
  }

  function Managed(env: Env, a: Group): seq<string> {
    [a.masterLink, AltPath(env, a.masterName)] + SlavePaths(env, a.slaves)
  }

  predicate NoDup(s: seq<string>) { forall i, j :: 0 <= i < j < |s| ==> s[i] != s[j] }

  /** Managed paths are pairwise distinct, and none is the temporary name of another. */
  predicate PathsDistinct(env: Env, a: Group) {
    var ps := Managed(env, a);
    NoDup(ps) && forall p, q :: p in ps && q in ps ==> Tmp(p) != q
  }

  // ---- the two phases ----

  datatype CommitOp = Rm(path: string) | Mv(src: string, dst: string)

  function OpOf(e: Entry): CommitOp {
    match e
    case Set(p, _) => Mv(Tmp(p), p)
    case Remove(p) => Rm(p)
  }

  function OpsOf(plan: seq<Entry>): (r: seq<CommitOp>)
    ensures |r| == |plan|
  {
    seq(|plan|, i requires 0 <= i < |plan| => OpOf(plan[i]))
  }

  /** First phase: the temporary links. */
  function Prepared(fs: Fs, plan: seq<Entry>): Fs
    decreases |plan|
  {
    if plan == [] then fs
    else
      var e := plan[0];
      Prepared(if e.Set? then fs[Tmp(e.path) := Symlink(e.target)] else fs, plan[1..])
  }

  /** Second phase, one operation: `rename` or `unlink` (of a path that may be missing). */
  function Commit1(fs: Fs, op: CommitOp): Fs {
    match op
    case Rm(p) => fs - {p}
    case Mv(s, d) => if s in fs then (fs - {s})[d := fs[s]] else fs
  }

  function CommitAll(fs: Fs, ops: seq<CommitOp>): Fs
    decreases |ops|
  {
    if ops == [] then fs else CommitAll(Commit1(fs, ops[0]), ops[1..])
  }

  /** The value a path gets from the plan. */
  function Outcome(fs: Fs, plan: seq<Entry>, p: string): Option<Node> {
    if plan == [] then Look(fs, p)
    else
      var e := plan[|plan| - 1];
      if e.path == p then (if e.Set? then Some(Symlink(e.target)) else None)
      else Outcome(fs, plan[..|plan| - 1], p)
  }

  ghost predicate PlanOk(plan: seq<Entry>) {
    && (forall i, j :: 0 <= i < j < |plan| ==> plan[i].path != plan[j].path)
    && (forall i, j :: 0 <= i < |plan| && 0 <= j < |plan| ==> Tmp(plan[i].path) != plan[j].path)
  }

  ghost predicate Temporary(plan: seq<Entry>, p: string) {
    exists i :: 0 <= i < |plan| && plan[i].Set? && p == Tmp(plan[i].path)
  }

  /** Preparing changes temporary paths only. */
  lemma {:induction false} PrepareOnlyTemporary(fs: Fs, plan: seq<Entry>, p: string)
    requires !Temporary(plan, p)
    ensures Look(Prepared(fs, plan), p) == Look(fs, p)
    decreases |plan|
  {
    if plan != [] {
      var e := plan[0];
      assert e.Set? ==> p != Tmp(e.path);
      assert forall i :: 0 <= i < |plan| - 1 ==> plan[1..][i] == plan[i + 1];
      PrepareOnlyTemporary(if e.Set? then fs[Tmp(e.path) := Symlink(e.target)] else fs, plan[1..], p);
    }
  }

  lemma {:induction false} PreparedAt(fs: Fs, plan: seq<Entry>, i: nat)
    requires PlanOk(plan) && i < |plan| && plan[i].Set?
    ensures Look(Prepared(fs, plan), Tmp(plan[i].path)) == Some(Symlink(plan[i].target))
    decreases |plan|
  {
    var e := plan[0];
    var fs' := if e.Set? then fs[Tmp(e.path) := Symlink(e.target)] else fs;
    assert forall k :: 0 <= k < |plan| - 1 ==> plan[1..][k] == plan[k + 1];
    if i == 0 {
      forall k | 0 <= k < |plan[1..]| && plan[1..][k].Set? ensures Tmp(e.path) != Tmp(plan[1..][k].path) {
        TmpInjective(e.path, plan[k + 1].path);
      }
      PrepareOnlyTemporary(fs', plan[1..], Tmp(e.path));
    } else {
      PreparedAt(fs', plan[1..], i - 1);
    }
  }

  lemma {:induction false} CommitSnoc(fs: Fs, ops: seq<CommitOp>, k: nat)
    requires k < |ops|
    ensures CommitAll(fs, ops[..k + 1]) == Commit1(CommitAll(fs, ops[..k]), ops[k])
    decreases k
  {
    if k == 0 {
      assert ops[..1][1..] == [] && ops[..0] == [];
    } else {
      CommitSnoc(Commit1(fs, ops[0]), ops[1..], k - 1);
      assert ops[..k + 1][1..] == ops[1..][..k] && ops[..k][1..] == ops[1..][..k - 1];
    }
  }

  /** Where things are after k operations of the second phase. */
  ghost predicate CommitState(fs: Fs, plan: seq<Entry>, k: nat, c: Fs)
    requires k <= |plan|
  {
    && (forall p :: !Temporary(plan, p) ==> Look(c, p) == Outcome(fs, plan[..k], p))
    && (forall i :: k <= i < |plan| && plan[i].Set? ==> Look(c, Tmp(plan[i].path)) == Some(Symlink(plan[i].target)))
    && (forall i :: 0 <= i < k && plan[i].Set? ==> Tmp(plan[i].path) !in c)
  }

  lemma CommitStep(fs: Fs, plan: seq<Entry>, k: nat, c: Fs)
    requires PlanOk(plan) && k < |plan| && CommitState(fs, plan, k, c)
    ensures CommitState(fs, plan, k + 1, Commit1(c, OpOf(plan[k])))
  {
    hide Tmp;
    var e := plan[k];
    var c' := Commit1(c, OpOf(e));
    assert plan[..k + 1][..k] == plan[..k] && plan[..k + 1][k] == e;
    forall i | 0 <= i < |plan| && plan[i].Set? ensures i != k && e.Set? ==> Tmp(plan[i].path) != Tmp(e.path) {
      TmpInjective(plan[i].path, e.path);
    }
    assert e.Set? ==> Temporary(plan, Tmp(e.path));
    forall p | !Temporary(plan, p) ensures Look(c', p) == Outcome(fs, plan[..k + 1], p) {
      assert Look(c, p) == Outcome(fs, plan[..k], p);
    }
  }

  lemma {:induction false} CommitReaches(fs: Fs, plan: seq<Entry>, k: nat)
    requires PlanOk(plan) && k <= |plan|
    ensures CommitState(fs, plan, k, CommitAll(Prepared(fs, plan), OpsOf(plan)[..k]))
    decreases k
  {
    var start := Prepared(fs, plan);
    if k == 0 {
      forall p | !Temporary(plan, p) ensures Look(start, p) == Outcome(fs, plan[..0], p) {
        PrepareOnlyTemporary(fs, plan, p);
      }
      forall i | 0 <= i < |plan| && plan[i].Set? ensures Look(start, Tmp(plan[i].path)) == Some(Symlink(plan[i].target)) {
        PreparedAt(fs, plan, i);
      }
      assert OpsOf(plan)[..0] == [];
    } else {
      hide CommitState, PlanOk, CommitAll;
      CommitReaches(fs, plan, k - 1);
      CommitStep(fs, plan, k - 1, CommitAll(start, OpsOf(plan)[..k - 1]));
      CommitSnoc(start, OpsOf(plan), k - 1);
    }
  }

  lemma {:induction false} OutcomeOldOrFinal(fs: Fs, plan: seq<Entry>, k: nat, p: string)
    requires PlanOk(plan) && k <= |plan|
    ensures Outcome(fs, plan[..k], p) == Look(fs, p) || Outcome(fs, plan[..k], p) == Outcome(fs, plan, p)
    decreases |plan| - k
  {
    if k == |plan| {
      assert plan[..k] == plan;
    } else {
      assert plan[..k + 1][..k] == plan[..k] && plan[..k + 1][k] == plan[k];
      OutcomeOldOrFinal(fs, plan, k + 1, p);
      if plan[k].path == p { OutcomeUntouched(fs, plan, k, p); }
    }
  }

  lemma {:induction false} OutcomeUntouched(fs: Fs, plan: seq<Entry>, k: nat, p: string)
    requires k <= |plan| && forall i :: 0 <= i < k ==> plan[i].path != p
    ensures Outcome(fs, plan[..k], p) == Look(fs, p)
    decreases k
  {
    if k > 0 {
      assert plan[..k][..k - 1] == plan[..k - 1] && plan[..k][k - 1] == plan[k - 1];
      OutcomeUntouched(fs, plan, k - 1, p);
    }
  }

  /** An entry of the plan decides its path. */
  lemma {:induction false} OutcomeAt(fs: Fs, plan: seq<Entry>, i: nat)
    requires PlanOk(plan) && i < |plan|
    ensures Outcome(fs, plan, plan[i].path) == if plan[i].Set? then Some(Symlink(plan[i].target)) else None
    decreases |plan|
  {
    hide Tmp;
    var n := |plan| - 1;
    if i < n {
      assert plan[..n][i] == plan[i];
      OutcomeAt(fs, plan[..n], i);
    }
  }

  // ---- the plan touches managed paths only, each once ----

  lemma PlanSlavePaths(env: Env, fs: Fs, f: Fileset, sl: SlaveLink)
    ensures forall e :: e in PlanSlave(env, fs, f, sl) ==> e.path == sl.link || e.path == AltPath(env, sl.name)
    ensures sl.link != AltPath(env, sl.name) ==>
      forall i, j :: 0 <= i < j < |PlanSlave(env, fs, f, sl)| ==> PlanSlave(env, fs, f, sl)[i].path != PlanSlave(env, fs, f, sl)[j].path
  { }

  ghost predicate DistinctPaths(plan: seq<Entry>) {
    forall i, j :: 0 <= i < j < |plan| ==> plan[i].path != plan[j].path
  }

  ghost predicate Within(plan: seq<Entry>, paths: seq<string>) { forall i :: 0 <= i < |plan| ==> plan[i].path in paths }

  lemma DistinctConcat(a: seq<Entry>, pa: seq<string>, b: seq<Entry>, pb: seq<string>)
    requires DistinctPaths(a) && Within(a, pa) && DistinctPaths(b) && Within(b, pb) && NoDup(pa + pb)
    ensures DistinctPaths(a + b) && Within(a + b, pa + pb)
  {
    forall p | p in pa ensures p !in pb {
      var i :| 0 <= i < |pa| && pa[i] == p;
      assert (pa + pb)[i] == p;
      forall j | 0 <= j < |pb| ensures pb[j] != p { assert (pa + pb)[|pa| + j] == pb[j]; }
    }
  }

  lemma NoDupParts(a: seq<string>, b: seq<string>)
    requires NoDup(a + b)
    ensures NoDup(a) && NoDup(b)
  {
    forall i, j | 0 <= i < j < |a| ensures a[i] != a[j] { assert (a + b)[i] == a[i] && (a + b)[j] == a[j]; }
    forall i, j | 0 <= i < j < |b| ensures b[i] != b[j] {
      assert (a + b)[|a| + i] == b[i] && (a + b)[|a| + j] == b[j];
    }
  }

  lemma {:induction false} PlanSlavesOk(env: Env, fs: Fs, f: Fileset, slaves: seq<SlaveLink>)
    requires NoDup(SlavePaths(env, slaves))
    ensures DistinctPaths(PlanSlaves(env, fs, f, slaves)) && Within(PlanSlaves(env, fs, f, slaves), SlavePaths(env, slaves))
    decreases |slaves|
  {
    if slaves != [] {
      var sl := slaves[0];
      var pa := [sl.link, AltPath(env, sl.name)];
      NoDupParts(pa, SlavePaths(env, slaves[1..]));
      assert pa[0] != pa[1];
      PlanSlavePaths(env, fs, f, sl);
      PlanSlavesOk(env, fs, f, slaves[1..]);
      var plan := PlanSlave(env, fs, f, sl);
      assert Within(plan, pa) by { forall i | 0 <= i < |plan| ensures plan[i].path in pa { assert plan[i] in plan; } }
      DistinctConcat(plan, pa, PlanSlaves(env, fs, f, slaves[1..]), SlavePaths(env, slaves[1..]));
    }
  }

  lemma PlanIsOk(env: Env, fs: Fs, a: Group, f: Fileset)
    requires PathsDistinct(env, a)
    ensures PlanOk(Plan(env, fs, a, f)) && Within(Plan(env, fs, a, f), Managed(env, a))
  {
    var pa := [a.masterLink, AltPath(env, a.masterName)];
    NoDupParts(pa, SlavePaths(env, a.slaves));
    assert pa[0] != pa[1];
    PlanSlavesOk(env, fs, f, a.slaves);
    var plan := PlanSingle(env, fs, a.masterName, a.masterLink, f.masterFile);
    assert Within(plan, pa) && DistinctPaths(plan);
    DistinctConcat(plan, pa, PlanSlaves(env, fs, f, a.slaves), SlavePaths(env, a.slaves));
  }

  /**
   Commit safety.  Preparing an installation leaves every path but temporary
   ones alone, and after any number of commit operations every managed path
   holds its old value or its final one; so a link there both before and after
   is never missing in between.
   */
  lemma CommitSafety(env: Env, fs: Fs, a: Group, f: Fileset, k: nat, p: string)
    requires PathsDistinct(env, a) && k <= |Plan(env, fs, a, f)| && p in Managed(env, a)
    ensures var plan := Plan(env, fs, a, f);
      var start := Prepared(fs, plan);
      && Look(start, p) == Look(fs, p)
      && (Look(CommitAll(start, OpsOf(plan)[..k]), p) == Look(fs, p)
          || Look(CommitAll(start, OpsOf(plan)[..k]), p) == Look(CommitAll(start, OpsOf(plan)), p))
      && (p in fs && p in CommitAll(start, OpsOf(plan)) ==> p in CommitAll(start, OpsOf(plan)[..k]))
  {
    var plan := Plan(env, fs, a, f);
    PlanIsOk(env, fs, a, f);
    NotTemporary(env, fs, a, f, p);
    PrepareOnlyTemporary(fs, plan, p);
    CommitReaches(fs, plan, k);
    CommitReaches(fs, plan, |plan|);
    assert OpsOf(plan)[..|plan|] == OpsOf(plan) && plan[..|plan|] == plan;
    OutcomeOldOrFinal(fs, plan, k, p);
  }

  lemma NotTemporary(env: Env, fs: Fs, a: Group, f: Fileset, p: string)
    requires PathsDistinct(env, a) && p in Managed(env, a)
    ensures !Temporary(Plan(env, fs, a, f), p)
  {
    PlanIsOk(env, fs, a, f);
  }

  // ---- the self-check ----

  datatype Reason = UpdateNo | SlaveChanged | LinkBroken

  predicate BrokenSymlink(fs: Fs, link: string, target: string) { Look(fs, link) != Some(Symlink(target)) }

  /** `alternative_has_broken_slave`. */
  predicate BrokenSlave(env: Env, fs: Fs, f: Fileset, sl: SlaveLink) {
    if CanInstall(env, f, sl.name) then
      BrokenSymlink(fs, sl.link, AltPath(env, sl.name))
      || BrokenSymlink(fs, AltPath(env, sl.name), SlaveFile(f.slaves, sl.name).value)
    else sl.link in fs || AltPath(env, sl.name) in fs
  }

  /** The verdict on the slaves: broken if one is, unless all the broken ones are just being changed. */
  function SlavesReason(env: Env, fs: Fs, f: Fileset, slaves: seq<SlaveLink>): Reason {
    if exists sl :: sl in slaves && BrokenSlave(env, fs, f, sl) && !sl.updated then LinkBroken
    else if exists sl :: sl in slaves && BrokenSlave(env, fs, f, sl) then SlaveChanged
    else UpdateNo
  }

  /** `alternative_needs_update`. */
  function NeedsUpdate(env: Env, fs: Fs, a: Group, current: Option<string>): Reason {
    if BrokenSymlink(fs, a.masterLink, AltPath(env, a.masterName)) then LinkBroken
    else if current.None? then LinkBroken
    else
      match GetFileset(a.choices, current.value)
      case None => UpdateNo
      case Some(f) => SlavesReason(env, fs, f, a.slaves)
  }

  /** The choice that /etc/alternatives points to. */
  function Current(env: Env, fs: Fs, a: Group): Option<string> {
    match Look(fs, AltPath(env, a.masterName))
    case Some(Symlink(t)) => Some(t)
    case _ => None
  }

  /** Something other than a link is in its place: reading it is an error that ends the program. */
  predicate Blocked(env: Env, fs: Fs, a: Group) { Look(fs, AltPath(env, a.masterName)) == Some(Other) }

  /** What is read of the entry in altdir: nothing, the target of a link, or an error. */
  lemma CurrentIs(env: Env, fs: Fs, a: Group, target: string)
    ensures var entry := env.altdir + "/" + a.masterName;
      && (entry !in fs ==> Current(env, fs, a).None? && !Blocked(env, fs, a))
      && (entry in fs && fs[entry] == Symlink(target) ==> Current(env, fs, a) == Some(target) && !Blocked(env, fs, a))
      && (entry in fs && fs[entry] == Other ==> Blocked(env, fs, a))
  { }

  // ---- convergence ----

  /** Master and installable slaves resolve link -> altdir/name -> file; the other slaves have neither link. */
  ghost predicate Installed(env: Env, fs: Fs, a: Group, f: Fileset) {
    && Look(fs, a.masterLink) == Some(Symlink(AltPath(env, a.masterName)))
    && Look(fs, AltPath(env, a.masterName)) == Some(Symlink(f.masterFile))
    && (forall sl :: sl in a.slaves ==> !BrokenSlave(env, fs, f, sl))
  }

  /** The same path by path: a slave counts as installable if the choice has a non-empty file for it, and that exists. */
  lemma InstalledIs(env: Env, fs: Fs, a: Group, f: Fileset)
    ensures Installed(env, fs, a, f) <==>
      && Look(fs, a.masterLink) == Some(Symlink(env.altdir + "/" + a.masterName))
      && Look(fs, env.altdir + "/" + a.masterName) == Some(Symlink(f.masterFile))
      && forall sl :: sl in a.slaves ==>
           if exists file :: file in env.present && file != "" && SlaveFile(f.slaves, sl.name) == Some(file) then
             && Look(fs, sl.link) == Some(Symlink(env.altdir + "/" + sl.name))
             && Look(fs, env.altdir + "/" + sl.name) == Some(Symlink(SlaveFile(f.slaves, sl.name).value))
           else sl.link !in fs && env.altdir + "/" + sl.name !in fs
  {
    hide SlaveFile;
    forall sl | sl in a.slaves
      ensures CanInstall(env, f, sl.name) <==> exists file :: file in env.present && file != "" && SlaveFile(f.slaves, sl.name) == Some(file)
    {
      if CanInstall(env, f, sl.name) { assert SlaveFile(f.slaves, sl.name) == Some(SlaveFile(f.slaves, sl.name).value); }
    }
    hide CanInstall;
  }

  lemma InstalledNeedsNothing(env: Env, fs: Fs, a: Group, f: Fileset)
    requires Installed(env, fs, a, f) && GetFileset(a.choices, f.masterFile) == Some(f)
    ensures Current(env, fs, a) == Some(f.masterFile)
    ensures NeedsUpdate(env, fs, a, Current(env, fs, a)) == UpdateNo
  { }

  /** No link of the group is anything but a symbolic link, or --force was given. */
  ghost predicate Clean(env: Env, fs: Fs, a: Group) {
    env.force ||
    (Look(fs, a.masterLink) != Some(Other) && forall sl :: sl in a.slaves ==> Look(fs, sl.link) != Some(Other))
  }

  lemma OutcomeMember(fs: Fs, plan: seq<Entry>, e: Entry)
    requires PlanOk(plan) && e in plan
    ensures Outcome(fs, plan, e.path) == if e.Set? then Some(Symlink(e.target)) else None
  { }

  lemma OutcomeAbsent(fs: Fs, plan: seq<Entry>, p: string)
    requires forall e :: e in plan ==> e.path != p
    ensures Outcome(fs, plan, p) == Look(fs, p)
  { }

  /** What one link pair becomes, if exactly its own entries in the plan are about it. */
  lemma SingleOutcome(env: Env, fs: Fs, plan: seq<Entry>, name: string, link: string, file: string)
    requires PlanOk(plan) && link != AltPath(env, name)
    requires forall e :: e in PlanSingle(env, fs, name, link, file) ==> e in plan
    requires forall e :: e in plan && (e.path == link || e.path == AltPath(env, name)) ==>
      e in PlanSingle(env, fs, name, link, file)
    requires env.force || Look(fs, link) != Some(Other)
    ensures Outcome(fs, plan, link) == Some(Symlink(AltPath(env, name)))
    ensures Outcome(fs, plan, AltPath(env, name)) == Some(Symlink(file))
  {
    var alt := AltPath(env, name);
    var single := PlanSingle(env, fs, name, link, file);
    assert single[0] == Set(alt, file);
    OutcomeMember(fs, plan, Set(alt, file));
    if PathNeedsUpdate(env, fs, link, alt) {
      assert single[1] == Set(link, alt);
      OutcomeMember(fs, plan, Set(link, alt));
    } else {
      OutcomeAbsent(fs, plan, link);
    }
  }

  lemma SlaveOutcome(env: Env, fs: Fs, f: Fileset, plan: seq<Entry>, sl: SlaveLink)
    requires PlanOk(plan) && sl.link != AltPath(env, sl.name)
    requires forall e :: e in PlanSlave(env, fs, f, sl) ==> e in plan
    requires forall e :: e in plan && (e.path == sl.link || e.path == AltPath(env, sl.name)) ==> e in PlanSlave(env, fs, f, sl)
    requires env.force || Look(fs, sl.link) != Some(Other)
    ensures if CanInstall(env, f, sl.name) then
        && Outcome(fs, plan, sl.link) == Some(Symlink(AltPath(env, sl.name)))
        && Outcome(fs, plan, AltPath(env, sl.name)) == Some(Symlink(SlaveFile(f.slaves, sl.name).value))
      else Outcome(fs, plan, sl.link) == None && Outcome(fs, plan, AltPath(env, sl.name)) == None
  {
    if CanInstall(env, f, sl.name) {
      SingleOutcome(env, fs, plan, sl.name, sl.link, SlaveFile(f.slaves, sl.name).value);
    } else {
      var own := PlanSlave(env, fs, f, sl);
      assert own[0] == Remove(sl.link) && own[1] == Remove(AltPath(env, sl.name));
      OutcomeMember(fs, plan, Remove(sl.link));
      OutcomeMember(fs, plan, Remove(AltPath(env, sl.name)));
    }
  }

  ghost predicate About(e: Entry, sl: SlaveLink, env: Env) { e.path == sl.link || e.path == AltPath(env, sl.name) }

  /** In the plan for the slaves, the entries about one slave's paths are that slave's. */
  lemma {:induction false} EntriesOfSlave(env: Env, fs: Fs, f: Fileset, slaves: seq<SlaveLink>, sl: SlaveLink)
    requires NoDup(SlavePaths(env, slaves)) && sl in slaves
    ensures forall e :: e in PlanSlave(env, fs, f, sl) ==> e in PlanSlaves(env, fs, f, slaves)
    ensures forall e :: e in PlanSlaves(env, fs, f, slaves) && About(e, sl, env) ==> e in PlanSlave(env, fs, f, sl)
    ensures sl.link in SlavePaths(env, slaves) && AltPath(env, sl.name) in SlavePaths(env, slaves)
    ensures sl.link != AltPath(env, sl.name)
    decreases |slaves|
  {
    var head, rest := slaves[0], slaves[1..];
    var pa := [head.link, AltPath(env, head.name)];
    NoDupParts(pa, SlavePaths(env, rest));
    assert pa[0] != pa[1];
    PlanSlavePaths(env, fs, f, head);
    PlanSlavesOk(env, fs, f, rest);
    DisjointParts(pa, SlavePaths(env, rest));
    hide PlanSlave;
    assert forall e :: e in PlanSlaves(env, fs, f, rest) ==> e.path in SlavePaths(env, rest);
    if sl != head {
      assert sl in rest;
      EntriesOfSlave(env, fs, f, rest, sl);
    } else {
      assert pa[0] in pa && pa[1] in pa;
    }
  }

  lemma DisjointParts(a: seq<string>, b: seq<string>)
    requires NoDup(a + b)
    ensures forall p :: p in a ==> p !in b
  {
    forall p | p in a ensures p !in b {
      var i :| 0 <= i < |a| && a[i] == p;
      assert (a + b)[i] == p;
      forall j | 0 <= j < |b| ensures b[j] != p { assert (a + b)[|a| + j] == b[j]; }
    }
  }

  /** The same for the whole plan: the master's entries are about other paths. */
  lemma EntriesInPlan(env: Env, fs: Fs, a: Group, f: Fileset, sl: SlaveLink)
    requires PathsDistinct(env, a) && sl in a.slaves
    ensures forall e :: e in PlanSlave(env, fs, f, sl) ==> e in Plan(env, fs, a, f)
    ensures forall e :: e in Plan(env, fs, a, f) && About(e, sl, env) ==> e in PlanSlave(env, fs, f, sl)
    ensures sl.link in Managed(env, a) && AltPath(env, sl.name) in Managed(env, a) && sl.link != AltPath(env, sl.name)
  {
    var pa := [a.masterLink, AltPath(env, a.masterName)];
    NoDupParts(pa, SlavePaths(env, a.slaves));
    DisjointParts(pa, SlavePaths(env, a.slaves));
    EntriesOfSlave(env, fs, f, a.slaves, sl);
    assert pa[0] in pa && pa[1] in pa;
    hide PlanSlave, PlanSlaves, AltPath, NoDup;
  }

  lemma SlaveInPlan(env: Env, fs: Fs, a: Group, f: Fileset, sl: SlaveLink)
    requires PathsDistinct(env, a) && sl in a.slaves && Clean(env, fs, a)
    ensures var plan := Plan(env, fs, a, f);
      if CanInstall(env, f, sl.name) then
        && Outcome(fs, plan, sl.link) == Some(Symlink(AltPath(env, sl.name)))
        && Outcome(fs, plan, AltPath(env, sl.name)) == Some(Symlink(SlaveFile(f.slaves, sl.name).value))
      else Outcome(fs, plan, sl.link) == None && Outcome(fs, plan, AltPath(env, sl.name)) == None
    ensures sl.link in Managed(env, a) && AltPath(env, sl.name) in Managed(env, a)
  {
    hide PlanSlave, Plan, AltPath, CanInstall, Outcome, NoDup, PlanOk, PathsDistinct;
    PlanIsOk(env, fs, a, f);
    EntriesInPlan(env, fs, a, f, sl);
    SlaveOutcome(env, fs, f, Plan(env, fs, a, f), sl);
  }

  lemma MasterInPlan(env: Env, fs: Fs, a: Group, f: Fileset)
    requires PathsDistinct(env, a) && Clean(env, fs, a)
    ensures var plan := Plan(env, fs, a, f);
      && Outcome(fs, plan, a.masterLink) == Some(Symlink(AltPath(env, a.masterName)))
      && Outcome(fs, plan, AltPath(env, a.masterName)) == Some(Symlink(f.masterFile))
  {
    var pa := [a.masterLink, AltPath(env, a.masterName)];
    NoDupParts(pa, SlavePaths(env, a.slaves));
    DisjointParts(pa, SlavePaths(env, a.slaves));
    PlanIsOk(env, fs, a, f);
    PlanSlavesOk(env, fs, f, a.slaves);
    assert pa[0] != pa[1] && pa[0] in pa && pa[1] in pa;
    assert forall e :: e in PlanSlaves(env, fs, f, a.slaves) ==> e.path in SlavePaths(env, a.slaves);
    hide PlanSlaves, PlanSingle;
    SingleOutcome(env, fs, Plan(env, fs, a, f), a.masterName, a.masterLink, f.masterFile);
  }

  /** The file system after both phases. */
  function Performed(fs: Fs, plan: seq<Entry>): Fs { CommitAll(Prepared(fs, plan), OpsOf(plan)) }

  lemma AfterIsOutcome(env: Env, fs: Fs, a: Group, f: Fileset, p: string)
    requires PathsDistinct(env, a) && p in Managed(env, a)
    ensures Look(Performed(fs, Plan(env, fs, a, f)), p) == Outcome(fs, Plan(env, fs, a, f), p)
  {
    hide Tmp, AltPath, Outcome, PlanSlaves, PlanSingle;
    var plan := Plan(env, fs, a, f);
    PlanIsOk(env, fs, a, f);
    NotTemporary(env, fs, a, f, p);
    CommitReaches(fs, plan, |plan|);
    assert OpsOf(plan)[..|plan|] == OpsOf(plan) && plan[..|plan|] == plan;
  }

  lemma SlaveInstalled(env: Env, fs: Fs, a: Group, f: Fileset, sl: SlaveLink)
    requires PathsDistinct(env, a) && Clean(env, fs, a) && sl in a.slaves
    ensures !BrokenSlave(env, Performed(fs, Plan(env, fs, a, f)), f, sl)
  {
    hide Plan, Outcome, PathsDistinct, Clean, Performed, AltPath, CanInstall;
    SlaveInPlan(env, fs, a, f, sl);
    AfterIsOutcome(env, fs, a, f, sl.link);
    AfterIsOutcome(env, fs, a, f, AltPath(env, sl.name));
  }

  /** Preparing and committing a choice installs it. */
  lemma InstallConverges(env: Env, fs: Fs, a: Group, f: Fileset)
    requires PathsDistinct(env, a) && Clean(env, fs, a)
    ensures Installed(env, Performed(fs, Plan(env, fs, a, f)), a, f)
  {
    hide Plan, Outcome, PathsDistinct, Clean, Performed, AltPath, BrokenSlave;
    MasterInPlan(env, fs, a, f);
    assert Managed(env, a)[0] == a.masterLink && Managed(env, a)[1] == AltPath(env, a.masterName);
    AfterIsOutcome(env, fs, a, f, a.masterLink);
    AfterIsOutcome(env, fs, a, f, AltPath(env, a.masterName));
    forall sl | sl in a.slaves ensures !BrokenSlave(env, Performed(fs, Plan(env, fs, a, f)), f, sl) {
      SlaveInstalled(env, fs, a, f, sl);
    }
  }

  // ---- installing twice ----

  /** There is nothing left to do about an entry. */
  ghost predicate Done(fs: Fs, e: Entry) {
    if e.Set? then Look(fs, e.path) == Some(Symlink(e.target)) && Tmp(e.path) !in fs else e.path !in fs
  }

  /** Performing a plan that is done changes nothing. */
  lemma PerformedIdle(fs: Fs, plan: seq<Entry>)
    requires PlanOk(plan) && forall e :: e in plan ==> Done(fs, e)
    ensures Performed(fs, plan) == fs
  {
    hide Tmp;
    var c := Performed(fs, plan);
    PerformedState(fs, plan);
    hide Performed, PlanOk, CommitState, Done;
    forall p ensures Look(c, p) == Look(fs, p) { IdleAt(fs, plan, c, p); }
    assert forall p :: p in c <==> p in fs by {
      forall p ensures p in c <==> p in fs { assert Look(c, p) == Look(fs, p); }
    }
    forall p | p in c ensures c[p] == fs[p] { assert Look(c, p) == Look(fs, p); }
  }

  lemma IdleAt(fs: Fs, plan: seq<Entry>, c: Fs, p: string)
    requires PlanOk(plan) && (forall e :: e in plan ==> Done(fs, e))
    requires CommitState(fs, plan, |plan|, c) && plan[..|plan|] == plan
    ensures Look(c, p) == Look(fs, p)
  {
    hide Outcome, PlanOk, Tmp;
    if Temporary(plan, p) {
      var i :| 0 <= i < |plan| && plan[i].Set? && p == Tmp(plan[i].path);
      assert plan[i] in plan;
    } else if e :| e in plan && e.path == p {
      OutcomeMember(fs, plan, e);
    } else {
      OutcomeAbsent(fs, plan, p);
    }
  }

  /** After a plan has been performed, planning one of its link pairs again asks for nothing new. */
  lemma SingleAgain(env: Env, fs: Fs, plan: seq<Entry>, c: Fs, name: string, link: string, file: string)
    requires PlanOk(plan) && link != AltPath(env, name)
    requires CommitState(fs, plan, |plan|, c) && plan[..|plan|] == plan
    requires !Temporary(plan, link) && !Temporary(plan, AltPath(env, name))
    requires forall e :: e in PlanSingle(env, fs, name, link, file) ==> e in plan
    requires forall e :: e in plan && (e.path == link || e.path == AltPath(env, name)) ==>
      e in PlanSingle(env, fs, name, link, file)
    ensures forall e :: e in PlanSingle(env, c, name, link, file) ==> Done(c, e)
  {
    var alt := AltPath(env, name);
    var single := PlanSingle(env, fs, name, link, file);
    assert single[0] == Set(alt, file);
    hide AltPath, Tmp, Outcome;
    PerformedEntry(fs, plan, c, Set(alt, file));
    if PathNeedsUpdate(env, fs, link, alt) {
      assert single[1] == Set(link, alt);
      PerformedEntry(fs, plan, c, Set(link, alt));
    } else {
      OutcomeAbsent(fs, plan, link);
      assert Look(c, link) == Look(fs, link);
    }
  }

  lemma PerformedEntry(fs: Fs, plan: seq<Entry>, c: Fs, e: Entry)
    requires PlanOk(plan) && CommitState(fs, plan, |plan|, c) && plan[..|plan|] == plan
    requires e in plan && !Temporary(plan, e.path)
    ensures Done(c, e)
  {
    hide Tmp, Outcome, PlanOk;
    OutcomeMember(fs, plan, e);
    var i :| 0 <= i < |plan| && plan[i] == e;
    assert Look(c, e.path) == Outcome(fs, plan, e.path);
  }

  lemma SlaveAgain(env: Env, fs: Fs, f: Fileset, plan: seq<Entry>, c: Fs, sl: SlaveLink)
    requires PlanOk(plan) && sl.link != AltPath(env, sl.name)
    requires CommitState(fs, plan, |plan|, c) && plan[..|plan|] == plan
    requires !Temporary(plan, sl.link) && !Temporary(plan, AltPath(env, sl.name))
    requires forall e :: e in PlanSlave(env, fs, f, sl) ==> e in plan
    requires forall e :: e in plan && About(e, sl, env) ==> e in PlanSlave(env, fs, f, sl)
    ensures forall e :: e in PlanSlave(env, c, f, sl) ==> Done(c, e)
  {
    var alt := AltPath(env, sl.name);
    if CanInstall(env, f, sl.name) {
      SingleAgain(env, fs, plan, c, sl.name, sl.link, SlaveFile(f.slaves, sl.name).value);
    } else {
      hide AltPath, Tmp, Outcome, CanInstall;
      var own := PlanSlave(env, fs, f, sl);
      assert own[|own| - 1] == Remove(alt);
      PerformedEntry(fs, plan, c, Remove(alt));
      if CanRemove(env, fs, sl.link) {
        assert own[0] == Remove(sl.link);
        PerformedEntry(fs, plan, c, Remove(sl.link));
      } else {
        OutcomeAbsent(fs, plan, sl.link);
        assert Look(c, sl.link) == Look(fs, sl.link);
      }
    }
  }

  /** A slave of the group, once the choice has been installed. */
  lemma SlaveInstalledAgain(env: Env, fs: Fs, a: Group, f: Fileset, sl: SlaveLink)
    requires PathsDistinct(env, a) && sl in a.slaves
    ensures var c := Performed(fs, Plan(env, fs, a, f)); forall e :: e in PlanSlave(env, c, f, sl) ==> Done(c, e)
  {
    hide *;
    var plan := Plan(env, fs, a, f);
    PlanIsOk(env, fs, a, f);
    EntriesInPlan(env, fs, a, f, sl);
    NotTemporary(env, fs, a, f, sl.link);
    NotTemporary(env, fs, a, f, AltPath(env, sl.name));
    PerformedState(fs, plan);
    SlaveAgain(env, fs, f, plan, Performed(fs, plan), sl);
  }

  lemma MasterInstalledAgain(env: Env, fs: Fs, a: Group, f: Fileset)
    requires PathsDistinct(env, a)
    ensures var c := Performed(fs, Plan(env, fs, a, f));
      && (forall e :: e in PlanSingle(env, c, a.masterName, a.masterLink, f.masterFile) ==> Done(c, e))
      && Look(c, AltPath(env, a.masterName)) == Some(Symlink(f.masterFile))
  {
    hide *;
    var plan := Plan(env, fs, a, f);
    var c := Performed(fs, plan);
    MasterEntries(env, fs, a, f);
    PlanIsOk(env, fs, a, f);
    MasterManaged(env, a);
    NotTemporary(env, fs, a, f, a.masterLink);
    NotTemporary(env, fs, a, f, AltPath(env, a.masterName));
    PerformedState(fs, plan);
    SingleAgain(env, fs, plan, c, a.masterName, a.masterLink, f.masterFile);
    FirstDone(env, c, a.masterName, a.masterLink, f.masterFile);
  }

  lemma MasterManaged(env: Env, a: Group)
    ensures a.masterLink in Managed(env, a) && AltPath(env, a.masterName) in Managed(env, a)
  {
    assert Managed(env, a)[0] == a.masterLink && Managed(env, a)[1] == AltPath(env, a.masterName);
  }

  lemma PerformedState(fs: Fs, plan: seq<Entry>)
    requires PlanOk(plan)
    ensures CommitState(fs, plan, |plan|, Performed(fs, plan)) && plan[..|plan|] == plan
  {
    hide PlanOk, CommitState, OpsOf;
    CommitReaches(fs, plan, |plan|);
    assert OpsOf(plan)[..|plan|] == OpsOf(plan) && plan[..|plan|] == plan;
  }

  lemma FirstDone(env: Env, c: Fs, name: string, link: string, file: string)
    requires forall e :: e in PlanSingle(env, c, name, link, file) ==> Done(c, e)
    ensures Look(c, AltPath(env, name)) == Some(Symlink(file))
  {
    hide AltPath, Tmp, PathNeedsUpdate;
    assert PlanSingle(env, c, name, link, file)[0] == Set(AltPath(env, name), file);
    assert Done(c, Set(AltPath(env, name), file));
  }

  /** The entries about the master's paths are the master's. */
  lemma MasterEntries(env: Env, fs: Fs, a: Group, f: Fileset)
    requires PathsDistinct(env, a)
    ensures a.masterLink != AltPath(env, a.masterName)
    ensures var single := PlanSingle(env, fs, a.masterName, a.masterLink, f.masterFile);
      && (forall e :: e in single ==> e in Plan(env, fs, a, f))
      && forall e :: e in Plan(env, fs, a, f) && (e.path == a.masterLink || e.path == AltPath(env, a.masterName)) ==> e in single
  {
    var pa := [a.masterLink, AltPath(env, a.masterName)];
    NoDupParts(pa, SlavePaths(env, a.slaves));
    DisjointParts(pa, SlavePaths(env, a.slaves));
    PlanSlavesOk(env, fs, f, a.slaves);
    assert pa[0] != pa[1] && pa[0] in pa && pa[1] in pa;
    assert forall e :: e in PlanSlaves(env, fs, f, a.slaves) ==> e.path in SlavePaths(env, a.slaves);
    hide PlanSlaves, PlanSingle;
  }

  lemma {:induction false} SlavesDone(env: Env, c: Fs, f: Fileset, slaves: seq<SlaveLink>)
    requires forall sl :: sl in slaves ==> forall e :: e in PlanSlave(env, c, f, sl) ==> Done(c, e)
    ensures forall e :: e in PlanSlaves(env, c, f, slaves) ==> Done(c, e)
    decreases |slaves|
  {
    hide PlanSlave, Done;
    if slaves != [] { SlavesDone(env, c, f, slaves[1..]); }
  }

  /**
   Installing a choice again changes nothing, whatever stands at its links, and
   also for a group that has lost slaves since.
   */
  lemma InstallTwice(env: Env, fs: Fs, a: Group, f: Fileset, h: Group)
    requires PathsDistinct(env, a) && PathsDistinct(env, h) && h.masterName == a.masterName && h.masterLink == a.masterLink
    requires forall sl :: sl in h.slaves ==> sl in a.slaves
    ensures var c := Performed(fs, Plan(env, fs, a, f)); Performed(c, Plan(env, c, h, f)) == c
  {
    var c := Performed(fs, Plan(env, fs, a, f));
    MasterInstalledAgain(env, fs, a, f);
    hide Performed, PathsDistinct, Done, PlanSingle, PlanSlave, PlanSlaves;
    forall sl | sl in h.slaves ensures forall e :: e in PlanSlave(env, c, f, sl) ==> Done(c, e) {
      SlaveInstalledAgain(env, fs, a, f, sl);
    }
    SlavesDone(env, c, f, h.slaves);
    PlanIsOk(env, c, h, f);
    PerformedIdle(c, Plan(env, c, h, f));
  }

  // ---- a group that has lost slaves ----

  ghost predicate PathsApart(env: Env, x: SlaveLink, y: SlaveLink) {
    var px, py := [x.link, AltPath(env, x.name)], [y.link, AltPath(env, y.name)];
    forall p :: p in px ==> p !in py
  }

  lemma {:induction false} SlavePathIn(env: Env, slaves: seq<SlaveLink>, p: string)
    ensures p in SlavePaths(env, slaves) <==> exists sl :: sl in slaves && (p == sl.link || p == AltPath(env, sl.name))
    decreases |slaves|
  {
    hide AltPath;
    if slaves != [] { SlavePathIn(env, slaves[1..], p); }
  }

  lemma {:induction false} PathsFromPairs(env: Env, slaves: seq<SlaveLink>)
    requires forall i, j :: 0 <= i < j < |slaves| ==> PathsApart(env, slaves[i], slaves[j])
    requires forall sl :: sl in slaves ==> sl.link != AltPath(env, sl.name)
    ensures NoDup(SlavePaths(env, slaves))
    decreases |slaves|
  {
    if slaves != [] {
      var sl, rest := slaves[0], slaves[1..];
      var pa := [sl.link, AltPath(env, sl.name)];
      assert forall i :: 0 <= i < |rest| ==> rest[i] == slaves[i + 1];
      PathsFromPairs(env, rest);
      hide AltPath;
      forall p | p in pa ensures p !in SlavePaths(env, rest) {
        SlavePathIn(env, rest, p);
      }
      NoDupJoin(pa, SlavePaths(env, rest));
    }
  }

  lemma NoDupJoin(a: seq<string>, b: seq<string>)
    requires NoDup(a) && NoDup(b) && forall p :: p in a ==> p !in b
    ensures NoDup(a + b)
  {
    forall i, j | 0 <= i < j < |a + b| ensures (a + b)[i] != (a + b)[j] {
      if i < |a| <= j { assert a[i] in a && b[j - |a|] in b; }
    }
  }

  lemma {:induction false} PairsFromPaths(env: Env, slaves: seq<SlaveLink>, i: nat, j: nat)
    requires NoDup(SlavePaths(env, slaves)) && i < j < |slaves|
    ensures PathsApart(env, slaves[i], slaves[j])
    decreases |slaves|
  {
    var pa := [slaves[0].link, AltPath(env, slaves[0].name)];
    var rest := SlavePaths(env, slaves[1..]);
    NoDupParts(pa, rest);
    if i > 0 {
      PairsFromPaths(env, slaves[1..], i - 1, j - 1);
    } else {
      DisjointParts(pa, rest);
      assert slaves[1..][j - 1] == slaves[j];
      SlavePathIn(env, slaves[1..], slaves[j].link);
      SlavePathIn(env, slaves[1..], AltPath(env, slaves[j].name));
    }
  }

  /** The paths of a group stay distinct if it loses slaves. */
  lemma FewerPaths(env: Env, a: Group, h: Group)
    requires PathsDistinct(env, a) && h.masterName == a.masterName && h.masterLink == a.masterLink
    requires forall sl :: sl in h.slaves ==> sl in a.slaves
    requires forall i, j :: 0 <= i < j < |h.slaves| ==> h.slaves[i] != h.slaves[j]
    ensures PathsDistinct(env, h)
  {
    var pa := [a.masterLink, AltPath(env, a.masterName)];
    NoDupParts(pa, SlavePaths(env, a.slaves));
    DisjointParts(pa, SlavePaths(env, a.slaves));
    hide AltPath, Tmp, NoDup, PathsApart;
    forall i, j | 0 <= i < j < |h.slaves| ensures PathsApart(env, h.slaves[i], h.slaves[j]) {
      PairIn(env, a.slaves, h.slaves[i], h.slaves[j]);
    }
    forall sl | sl in h.slaves ensures sl.link != AltPath(env, sl.name) { OwnPathsApart(env, a.slaves, sl); }
    PathsFromPairs(env, h.slaves);
    forall p | p in SlavePaths(env, h.slaves) ensures p in SlavePaths(env, a.slaves) {
      SlavePathIn(env, h.slaves, p);
      SlavePathIn(env, a.slaves, p);
    }
    NoDupJoin(pa, SlavePaths(env, h.slaves));
    hide SlavePaths;
    assert forall p :: p in Managed(env, h) ==> p in Managed(env, a);
  }

  lemma PairIn(env: Env, slaves: seq<SlaveLink>, x: SlaveLink, y: SlaveLink)
    requires NoDup(SlavePaths(env, slaves)) && x in slaves && y in slaves && x != y
    ensures PathsApart(env, x, y)
  {
    hide NoDup, AltPath;
    var i :| 0 <= i < |slaves| && slaves[i] == x;
    var j :| 0 <= j < |slaves| && slaves[j] == y;
    PairsFromPaths(env, slaves, if i < j then i else j, if i < j then j else i);
  }

  lemma {:induction false} OwnPathsApart(env: Env, slaves: seq<SlaveLink>, sl: SlaveLink)
    requires NoDup(SlavePaths(env, slaves)) && sl in slaves
    ensures sl.link != AltPath(env, sl.name)
    decreases |slaves|
  {
    var pa := [slaves[0].link, AltPath(env, slaves[0].name)];
    NoDupParts(pa, SlavePaths(env, slaves[1..]));
    assert pa[0] != pa[1];
    if sl != slaves[0] { OwnPathsApart(env, slaves[1..], sl); }
  }
}
