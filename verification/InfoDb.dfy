/**
 The upgrade of the package metadata directory to architecture-qualified names
 (lib/dpkg/db-ctrl-upgrade.c, lib/dpkg/db-ctrl-format.c): every pkg.type file of
 an installed Multi-Arch: same package is hard-linked as pkg:arch.type, the new
 format is announced in format-new, the old names are unlinked, and format-new
 is renamed to format.  A process may die anywhere, or fail while linking and
 roll back; the next one starts over from what is on disk.
 */
module InfoDb {
  import opened Text

  // ---- which file goes where ----

  datatype Pkg = NotInstalled | Installed(same: bool, arch: string)

  /** By lower-case package name: its first installed instance, if any. */
  type Packages = map<string, Pkg>

  /** The architecture-qualified name a directory entry is to get, if it is to get one. */
  function Target(pk: Packages, name: string): Option<string> {
    if name == [] || name[0] == '.' then None
    else
      match LastIndex(name, '.')
      case None => None
      case Some(dot) =>
        var pkgname := name[..dot];
        var set_ := Lower(pkgname);
        if ':' in pkgname then None
        else if set_ in pk && pk[set_].Installed? && pk[set_].same then
          Some(set_ + ":" + pk[set_].arch + "." + name[dot + 1..])
        else None
  }

  /** The old and the new name of a file, taken apart: pkg.type of an installed Multi-Arch: same package, and pkg:arch.type. */
  ghost predicate Parts(pk: Packages, old_: string, new_: string, pkg: string, filetype: string, arch: string) {
    && old_ == pkg + ("." + filetype) && '.' !in filetype
    && pkg != "" && pkg[0] != '.' && ':' !in pkg
    && Lower(pkg) in pk && pk[Lower(pkg)] == Installed(true, arch)
    && new_ == Lower(pkg) + (":" + (arch + ("." + filetype)))
  }

  ghost predicate Qualifies(pk: Packages, old_: string, new_: string) {
    exists pkg, filetype, arch :: Parts(pk, old_, new_, pkg, filetype, arch)
  }

  /**
   Exactly the files pkg.type of installed Multi-Arch: same packages get new
   names, pkg:arch.type.  So dotfiles, names without a full stop, names with a
   colon before the last one, and files of packages that are unknown, not installed
   or not Multi-Arch: same are skipped.
   */
  lemma TargetIff(pk: Packages, old_: string, new_: string)
    ensures Target(pk, old_) == Some(new_) <==> Qualifies(pk, old_, new_)
  {
    hide *;
    if Target(pk, old_) == Some(new_) { TargetQualifies(pk, old_, new_); }
    if Qualifies(pk, old_, new_) { QualifiesTarget(pk, old_, new_); }
  }

  lemma TargetQualifies(pk: Packages, old_: string, new_: string)
    requires Target(pk, old_) == Some(new_)
    ensures Qualifies(pk, old_, new_)
  {
    var dot := LastIndex(old_, '.').value;
    var pkg, filetype := old_[..dot], old_[dot + 1..];
    assert old_[0] != '.';
    hide Lower;
    var arch := pk[Lower(pkg)].arch;
    Regrouped(Lower(pkg), arch, filetype);
    assert old_ == pkg + ("." + filetype);
    assert Parts(pk, old_, new_, pkg, filetype, arch);
  }

  lemma QualifiesTarget(pk: Packages, old_: string, new_: string)
    requires Qualifies(pk, old_, new_)
    ensures Target(pk, old_) == Some(new_)
  {
    var pkg, filetype, arch :| Parts(pk, old_, new_, pkg, filetype, arch);
    hide Lower, LastIndex;
    assert old_ == pkg + ['.'] + filetype;
    LastIndexUnique(pkg, '.', filetype);
    assert old_[0] == pkg[0] && old_[..|pkg|] == pkg && old_[|pkg| + 1..] == filetype;
    Regrouped(Lower(pkg), arch, filetype);
  }

  lemma Regrouped(p: string, arch: string, filetype: string)
    ensures p + ":" + arch + "." + filetype == p + (":" + (arch + ("." + filetype)))
  { }

  /** Converted names are left alone, so a scan of the directory may or may not see them. */
  lemma TargetIsFinal(pk: Packages, name: string)
    requires Target(pk, name).Some?
    ensures Target(pk, Target(pk, name).value).None?
  {
    var dot := LastIndex(name, '.').value;
    var set_ := Lower(name[..dot]);
    var head := set_ + ":" + pk[set_].arch;
    var t := Target(pk, name).value;
    LastIndexUnique(head, '.', name[dot + 1..]);
    assert t == head + "." + name[dot + 1..];
    assert t[..|head|] == head && head[|set_|] == ':';
  }

  // ---- the directory ----

  /** The file format-new: not there, created, or holding the new format. */
  datatype NewFormat = NoFile | Created | Holding

  /** File names with the inodes they lead to; the two format files are kept apart. */
  datatype Disk = Disk(dir: map<string, nat>, format: Option<nat>, formatNew: NewFormat)

  /** What a format file is read as that was never written: no format there is. */
  const BROKEN: nat := 1000

  datatype Op = OpenFormatNew | Link(src: string, dst: string) | WriteFormatNew | Unlink(name: string)
              | RenameFormat | UnlinkFormatNew

  /** An already existing link is accepted, a missing source is not. */
  function Apply(d: Disk, op: Op): Disk {
    match op
    case OpenFormatNew => d.(formatNew := Created)
    case Link(s, t) => if s in d.dir && t !in d.dir then d.(dir := d.dir[t := d.dir[s]]) else d
    case WriteFormatNew => if d.formatNew.Created? then d.(formatNew := Holding) else d
    case Unlink(n) => d.(dir := d.dir - {n})
    case RenameFormat => d.(format := Some(if d.formatNew.Holding? then 1 else BROKEN), formatNew := NoFile)
    case UnlinkFormatNew => d.(formatNew := NoFile)
  }

  function ApplyAll(d: Disk, ops: seq<Op>): Disk
    decreases |ops|
  {
    if ops == [] then d else ApplyAll(Apply(d, ops[0]), ops[1..])
  }

  lemma {:induction false} ApplyAllConcat(d: Disk, xs: seq<Op>, ys: seq<Op>)
    ensures ApplyAll(d, xs + ys) == ApplyAll(ApplyAll(d, xs), ys)
    decreases |xs|
  {
    if xs == [] {
      assert xs + ys == ys;
    } else {
      assert (xs + ys)[1..] == xs[1..] + ys;
      ApplyAllConcat(Apply(d, xs[0]), xs[1..], ys);
    }
  }

  /** The format a reader sees: one ahead of `format` while format-new exists. */
  function ReadFormat(d: Disk): nat {
    (if d.format.Some? then d.format.value else 0) + (if d.formatNew.NoFile? then 0 else 1)
  }

  // ---- one upgrade ----

  /** Old name to new name, for the files to convert. */
  type Moves = map<string, string>

  /** No new name is an old one, and no two files get the same new name. */
  ghost predicate Sane(mv: Moves) {
    && (forall f, h :: f in mv && h in mv ==> mv[f] != h)
    && (forall f, h :: f in mv && h in mv && mv[f] == mv[h] ==> f == h)
  }

  predicate Listed(mv: Moves, files: seq<string>) {
    forall i :: 0 <= i < |files| ==> files[i] in mv
  }

  function LinkOps(mv: Moves, files: seq<string>): seq<Op>
    requires Listed(mv, files)
  {
    if files == [] then [] else [Link(files[0], mv[files[0]])] + LinkOps(mv, files[1..])
  }

  /** `rename_head` is a stack, so the old names go last one first. */
  function UnlinkOps(files: seq<string>): seq<Op> {
    if files == [] then []
    else [Unlink(files[|files| - 1])] + UnlinkOps(files[..|files| - 1])
  }

  /** `cu_abort_db_upgrade`, for the files linked so far, last one first. */
  function AbortOps(mv: Moves, files: seq<string>): seq<Op>
    requires Listed(mv, files)
  {
    if files == [] then [UnlinkFormatNew]
    else
      var f := files[|files| - 1];
      [Link(mv[f], f)] + ([Unlink(mv[f])] + AbortOps(mv, files[..|files| - 1]))
  }

  function UpgradeOps(mv: Moves, files: seq<string>): seq<Op>
    requires Listed(mv, files)
  {
    [OpenFormatNew] + (LinkOps(mv, files) + ([WriteFormatNew] + (UnlinkOps(files) + [RenameFormat])))
  }

  // ---- what every operation keeps ----

  /** The file has kept at least one of its two names, and neither leads anywhere else. */
  ghost predicate Kept(inode: nat, dir: map<string, nat>, f: string, g: string) {
    && (f in dir ==> dir[f] == inode)
    && (g in dir ==> dir[g] == inode)
    && (f in dir || g in dir)
  }

  ghost predicate Conserved(mv: Moves, dir0: map<string, nat>, dir: map<string, nat>)
    requires mv.Keys <= dir0.Keys
  {
    && (forall f :: f in mv ==> Kept(dir0[f], dir, f, mv[f]))
    && (forall n :: n !in mv && n !in mv.Values && n in dir0 ==> n in dir && dir[n] == dir0[n])
    && (forall n :: n !in mv && n !in mv.Values && n in dir ==> n in dir0)
  }

  ghost predicate Converted(mv: Moves, dir: map<string, nat>) {
    forall f :: f in mv ==> f !in dir && mv[f] in dir
  }

  /** Relative to the legacy directory d0: nothing lost, and format 1 only when all is done. */
  ghost predicate Inv(mv: Moves, d0: Disk, d: Disk) {
    && mv.Keys <= d0.dir.Keys
    && Conserved(mv, d0.dir, d.dir)
    && (d.format == d0.format || (d.format == Some(1) && d.formatNew.NoFile? && Converted(mv, d.dir)))
  }

  ghost predicate Busy(mv: Moves, d0: Disk, d: Disk) { Inv(mv, d0, d) && d.format == d0.format }

  /** Changing one of a file's two names, in a way that keeps that file, keeps everything. */
  lemma PairKeeps(mv: Moves, d0: Disk, d: Disk, d': Disk, f: string)
    requires Sane(mv) && f in mv && Busy(mv, d0, d) && d'.format == d.format
    requires forall n :: n != f && n != mv[f] ==> (n in d'.dir <==> n in d.dir)
    requires forall n :: n != f && n != mv[f] && n in d.dir ==> d'.dir[n] == d.dir[n]
    requires Kept(d0.dir[f], d'.dir, f, mv[f])
    ensures Busy(mv, d0, d')
  {
    assert mv[f] in mv.Values;
    forall h | h in mv ensures Kept(d0.dir[h], d'.dir, h, mv[h]) {
      assert Kept(d0.dir[h], d.dir, h, mv[h]);
    }
  }

  lemma LinkKeeps(mv: Moves, d0: Disk, d: Disk, f: string)
    requires Sane(mv) && f in mv && Busy(mv, d0, d)
    ensures Busy(mv, d0, Apply(d, Link(f, mv[f]))) && Busy(mv, d0, Apply(d, Link(mv[f], f)))
  {
    KeptAt(mv, d0, d, f);
    hide Busy, Inv, Sane;
    PairKeeps(mv, d0, d, Apply(d, Link(f, mv[f])), f);
    PairKeeps(mv, d0, d, Apply(d, Link(mv[f], f)), f);
  }

  lemma KeptAt(mv: Moves, d0: Disk, d: Disk, f: string)
    requires f in mv && Busy(mv, d0, d)
    ensures f in d0.dir && Kept(d0.dir[f], d.dir, f, mv[f])
  { }

  lemma UnlinkOldKeeps(mv: Moves, d0: Disk, d: Disk, f: string)
    requires Sane(mv) && f in mv && Busy(mv, d0, d) && mv[f] in d.dir && mv[f] != f
    ensures Busy(mv, d0, Apply(d, Unlink(f)))
  {
    KeptAt(mv, d0, d, f);
    hide Busy, Inv, Sane;
    PairKeeps(mv, d0, d, Apply(d, Unlink(f)), f);
  }

  lemma UnlinkNewKeeps(mv: Moves, d0: Disk, d: Disk, f: string)
    requires Sane(mv) && f in mv && Busy(mv, d0, d) && f in d.dir && mv[f] != f
    ensures Busy(mv, d0, Apply(d, Unlink(mv[f])))
  {
    KeptAt(mv, d0, d, f);
    hide Busy, Inv, Sane;
    PairKeeps(mv, d0, d, Apply(d, Unlink(mv[f])), f);
  }

  // ---- every prefix of every run is safe ----

  ghost predicate Safe(mv: Moves, d0: Disk, d: Disk, ops: seq<Op>)
    decreases |ops|
  {
    Inv(mv, d0, d) && (ops != [] ==> Safe(mv, d0, Apply(d, ops[0]), ops[1..]))
  }

  lemma {:induction false} SafePrefix(mv: Moves, d0: Disk, d: Disk, ops: seq<Op>, k: nat)
    requires Safe(mv, d0, d, ops) && k <= |ops|
    ensures Inv(mv, d0, ApplyAll(d, ops[..k]))
    decreases k
  {
    if k > 0 {
      assert ops[..k][0] == ops[0] && ops[..k][1..] == ops[1..][..k - 1];
      SafePrefix(mv, d0, Apply(d, ops[0]), ops[1..], k - 1);
    }
  }

  lemma SafeCons(mv: Moves, d0: Disk, d: Disk, op: Op, ops: seq<Op>)
    requires Inv(mv, d0, d) && Safe(mv, d0, Apply(d, op), ops)
    ensures Safe(mv, d0, d, [op] + ops) && ApplyAll(d, [op] + ops) == ApplyAll(Apply(d, op), ops)
  {
    assert ([op] + ops)[1..] == ops;
  }

  lemma {:induction false} SafeConcat(mv: Moves, d0: Disk, d: Disk, xs: seq<Op>, ys: seq<Op>)
    requires Safe(mv, d0, d, xs) && Safe(mv, d0, ApplyAll(d, xs), ys)
    ensures Safe(mv, d0, d, xs + ys)
    decreases |xs|
  {
    if xs == [] {
      assert xs + ys == ys;
    } else {
      assert (xs + ys)[0] == xs[0] && (xs + ys)[1..] == xs[1..] + ys;
      SafeConcat(mv, d0, Apply(d, xs[0]), xs[1..], ys);
    }
  }

  ghost predicate AllIn(files: seq<string>, dir: map<string, nat>) { forall f :: f in files ==> f in dir }

  ghost predicate TargetsIn(mv: Moves, files: seq<string>, dir: map<string, nat>) {
    forall f :: f in files && f in mv ==> mv[f] in dir
  }

  lemma {:induction false} LinksSafe(mv: Moves, d0: Disk, d: Disk, files: seq<string>)
    requires Sane(mv) && Busy(mv, d0, d) && Listed(mv, files) && AllIn(files, d.dir)
    ensures var d' := ApplyAll(d, LinkOps(mv, files));
      && Safe(mv, d0, d, LinkOps(mv, files))
      && Busy(mv, d0, d') && d'.formatNew == d.formatNew
      && TargetsIn(mv, files, d'.dir)
      && d.dir.Keys <= d'.dir.Keys
      && (forall n :: n in d'.dir && n in mv ==> n in d.dir)
    decreases |files|
  {
    if files != [] {
      var f := files[0];
      LinkKeeps(mv, d0, d, f);
      var d1 := Apply(d, Link(f, mv[f]));
      LinksSafe(mv, d0, d1, files[1..]);
      SafeCons(mv, d0, d, Link(f, mv[f]), LinkOps(mv, files[1..]));
      assert files == [f] + files[1..];
      assert mv[f] in d1.dir;
    }
  }

  lemma UnlinkStep(mv: Moves, d0: Disk, d: Disk, files: seq<string>, f: string)
    requires Sane(mv) && Busy(mv, d0, d) && Listed(mv, files + [f]) && TargetsIn(mv, files + [f], d.dir)
    ensures var d1 := Apply(d, Unlink(f));
      Inv(mv, d0, d) && Busy(mv, d0, d1) && Listed(mv, files) && TargetsIn(mv, files, d1.dir)
  {
    assert forall i :: 0 <= i < |files| ==> (files + [f])[i] == files[i];
    assert (files + [f])[|files|] == f;
    assert f in files + [f];
    UnlinkOldKeeps(mv, d0, d, f);
  }

  lemma {:induction false} UnlinksSafe(mv: Moves, d0: Disk, d: Disk, files: seq<string>)
    requires Sane(mv) && Busy(mv, d0, d) && Listed(mv, files) && TargetsIn(mv, files, d.dir)
    ensures var d' := ApplyAll(d, UnlinkOps(files));
      && Safe(mv, d0, d, UnlinkOps(files))
      && Busy(mv, d0, d') && d'.formatNew == d.formatNew
      && (forall n :: n in d'.dir <==> n in d.dir && n !in files)
    decreases |files|
  {
    if files == [] {
      assert Safe(mv, d0, d, []);
    } else {
      hide Busy, Inv, Safe, Sane, TargetsIn, Listed;
      var n := |files| - 1;
      var f := files[n];
      assert files == files[..n] + [f];
      UnlinkStep(mv, d0, d, files[..n], f);
      UnlinksSafe(mv, d0, Apply(d, Unlink(f)), files[..n]);
      SafeCons(mv, d0, d, Unlink(f), UnlinkOps(files[..n]));
    }
  }

  lemma FlagKeeps(mv: Moves, d0: Disk, d: Disk, d': Disk)
    requires Busy(mv, d0, d) && d'.dir == d.dir && d'.format == d.format
    ensures Busy(mv, d0, d')
  { }

  /** The old names still present, however often the upgrade was interrupted. */
  ghost predicate ListsAll(mv: Moves, d: Disk, files: seq<string>) {
    Listed(mv, files) && forall f :: f in files <==> f in mv && f in d.dir
  }

  /** A whole upgrade: safe throughout, and complete when it gets to its end. */
  lemma UpgradeSafe(mv: Moves, d0: Disk, d: Disk, files: seq<string>)
    requires Sane(mv) && Busy(mv, d0, d) && ListsAll(mv, d, files)
    ensures Safe(mv, d0, d, UpgradeOps(mv, files))
    ensures var d' := ApplyAll(d, UpgradeOps(mv, files));
      d'.format == Some(1) && d'.formatNew.NoFile? && Converted(mv, d'.dir)
  {
    var d1 := Apply(d, OpenFormatNew);
    FlagKeeps(mv, d0, d, d1);
    LinksSafe(mv, d0, d1, files);
    var d2 := ApplyAll(d1, LinkOps(mv, files));
    var dw := Apply(d2, WriteFormatNew);
    FlagKeeps(mv, d0, d2, dw);
    UnlinksSafe(mv, d0, dw, files);
    var d3 := ApplyAll(dw, UnlinkOps(files));
    ConvertedAtEnd(mv, d0, d, d2, d3, files);
    var tail := UnlinkOps(files) + [RenameFormat];
    hide Busy, Inv, Sane, ListsAll, Converted, LinkOps, UnlinkOps, Listed;
    RenameSafe(mv, d0, d3);
    SafeConcat(mv, d0, dw, UnlinkOps(files), [RenameFormat]);
    ApplyAllConcat(dw, UnlinkOps(files), [RenameFormat]);
    BusyIsInv(mv, d0, d2);
    SafeCons(mv, d0, d2, WriteFormatNew, tail);
    SafeConcat(mv, d0, d1, LinkOps(mv, files), [WriteFormatNew] + tail);
    ApplyAllConcat(d1, LinkOps(mv, files), [WriteFormatNew] + tail);
    BusyIsInv(mv, d0, d);
    SafeCons(mv, d0, d, OpenFormatNew, LinkOps(mv, files) + ([WriteFormatNew] + tail));
  }

  lemma BusyIsInv(mv: Moves, d0: Disk, d: Disk)
    requires Busy(mv, d0, d)
    ensures Inv(mv, d0, d)
  { }

  lemma RenameSafe(mv: Moves, d0: Disk, d: Disk)
    requires Busy(mv, d0, d) && Converted(mv, d.dir) && d.formatNew.Holding?
    ensures Safe(mv, d0, d, [RenameFormat]) && ApplyAll(d, [RenameFormat]) == Apply(d, RenameFormat)
  {
    assert [RenameFormat][1..] == [];
    assert Inv(mv, d0, Apply(d, RenameFormat));
    assert Safe(mv, d0, Apply(d, RenameFormat), []);
  }

  lemma ConvertedAtEnd(mv: Moves, d0: Disk, d: Disk, d2: Disk, d3: Disk, files: seq<string>)
    requires Busy(mv, d0, d3) && ListsAll(mv, d, files)
    requires forall n :: n in d2.dir && n in mv ==> n in d.dir
    requires forall n :: n in d3.dir <==> n in d2.dir && n !in files
    ensures Converted(mv, d3.dir)
  {
    forall f | f in mv ensures f !in d3.dir && mv[f] in d3.dir {
      assert Kept(d0.dir[f], d3.dir, f, mv[f]);
    }
  }

  lemma AbortStep(mv: Moves, d0: Disk, d: Disk, files: seq<string>, f: string)
    requires Sane(mv) && Busy(mv, d0, d) && Listed(mv, files + [f]) && TargetsIn(mv, files + [f], d.dir)
    requires Distinct(files + [f])
    ensures f in mv
    ensures var d1 := Apply(d, Link(mv[f], f));
      var d2 := Apply(d1, Unlink(mv[f]));
      Busy(mv, d0, d1) && Busy(mv, d0, d2) && Listed(mv, files) && TargetsIn(mv, files, d2.dir)
  {
    AbortTargets(mv, d, files, f);
    LinkKeeps(mv, d0, d, f);
    assert mv[f] != f;
    UnlinkNewKeeps(mv, d0, Apply(d, Link(mv[f], f)), f);
  }

  lemma {:induction false} AbortSafe(mv: Moves, d0: Disk, d: Disk, files: seq<string>)
    requires Sane(mv) && Busy(mv, d0, d) && Listed(mv, files) && TargetsIn(mv, files, d.dir)
    requires Distinct(files)
    ensures Safe(mv, d0, d, AbortOps(mv, files))
    decreases |files|
  {
    if files == [] {
      FlagKeeps(mv, d0, d, Apply(d, UnlinkFormatNew));
      assert [UnlinkFormatNew][1..] == [];
      assert Safe(mv, d0, Apply(d, UnlinkFormatNew), []);
    } else {
      hide Busy, Inv, Safe, Sane, TargetsIn, Listed;
      var n := |files| - 1;
      var f := files[n];
      assert files == files[..n] + [f];
      AbortStep(mv, d0, d, files[..n], f);
      AbortTargets(mv, d, files[..n], f);
      var d1 := Apply(d, Link(mv[f], f));
      AbortSafe(mv, d0, Apply(d1, Unlink(mv[f])), files[..n]);
      BusyIsInv(mv, d0, d);
      BusyIsInv(mv, d0, d1);
      SafeCons(mv, d0, d1, Unlink(mv[f]), AbortOps(mv, files[..n]));
      SafeCons(mv, d0, d, Link(mv[f], f), [Unlink(mv[f])] + AbortOps(mv, files[..n]));
    }
  }

  // ---- runs ----

  function MovesOf(pk: Packages, dir: map<string, nat>): Moves {
    map f | f in dir && Target(pk, f).Some? :: Target(pk, f).value
  }

  /** The entries of a directory listing that are to be converted, in the order met. */
  function Eligible(pk: Packages, listing: seq<string>): (r: seq<string>)
    ensures forall n :: n in r <==> n in listing && Target(pk, n).Some?
  {
    if listing == [] then []
    else (if Target(pk, listing[0]).Some? then [listing[0]] else []) + Eligible(pk, listing[1..])
  }

  ghost predicate Distinct(s: seq<string>) { forall i, j :: 0 <= i < j < |s| ==> s[i] != s[j] }

  /** `readdir` meets every old name once; whether it meets names linked meanwhile does not matter. */
  ghost predicate Enumerates(pk: Packages, d: Disk, listing: seq<string>) {
    Distinct(listing) && forall n :: Target(pk, n).Some? ==> (n in listing <==> n in d.dir)
  }

  /** How a process ends: at its end, dead after some operations, or rolling back a failed link. */
  datatype Ending = Completes | Dies(after: nat) | RollsBack(links: nat, after: nat)

  datatype Event = Event(listing: seq<string>, ending: Ending)

  function Prefix<T>(s: seq<T>, k: nat): (r: seq<T>)
    ensures r <= s
  {
    if k <= |s| then s[..k] else s
  }

  /** `pkg_infodb_upgrade` in one process. */
  function Step(pk: Packages, d: Disk, e: Event): Disk {
    var mv := MovesOf(pk, d.dir);
    var files := Eligible(pk, e.listing);
    if (ReadFormat(d) >= 1 && d.formatNew.NoFile?) || !Listed(mv, files) then d
    else
      match e.ending
      case Completes => ApplyAll(d, UpgradeOps(mv, files))
      case Dies(k) => ApplyAll(d, Prefix(UpgradeOps(mv, files), k))
      case RollsBack(k, m) => RollBack(mv, d, Prefix(files, k), m)
  }

  /** Linking `done` and then `after` operations of the abort handler. */
  function RollBack(mv: Moves, d: Disk, done: seq<string>, after: nat): Disk
    requires Listed(mv, done)
  {
    ApplyAll(ApplyAll(Apply(d, OpenFormatNew), LinkOps(mv, done)), Prefix(AbortOps(mv, done), after))
  }

  function Run(pk: Packages, d: Disk, es: seq<Event>): Disk
    decreases |es|
  {
    if es == [] then d else Run(pk, Step(pk, d, es[0]), es[1..])
  }

  ghost predicate Legal(pk: Packages, d: Disk, es: seq<Event>)
    decreases |es|
  {
    es != [] ==> Enumerates(pk, d, es[0].listing) && Legal(pk, Step(pk, d, es[0]), es[1..])
  }

  /** Nothing converted yet. */
  ghost predicate Legacy(pk: Packages, d: Disk) {
    && (d.format.Some? ==> d.format.value == 0) && d.formatNew.NoFile?
    && (forall f :: f in d.dir && Target(pk, f).Some? ==> Target(pk, f).value !in d.dir)
  }

  /** No two file names differ only in the case of the package name. */
  ghost predicate NoCaseClash(pk: Packages, d: Disk) {
    forall f, g :: f in d.dir && g in d.dir && Target(pk, f).Some? && Target(pk, f) == Target(pk, g) ==> f == g
  }

  lemma MovesSane(pk: Packages, d: Disk)
    requires NoCaseClash(pk, d)
    ensures Sane(MovesOf(pk, d.dir))
  {
    hide Target;
    var mv := MovesOf(pk, d.dir);
    forall f, h | f in mv && h in mv ensures mv[f] != h { TargetIsFinal(pk, f); }
  }

  /** Half way through, the files still to convert are those of the original directory. */
  lemma StillThere(pk: Packages, d0: Disk, d: Disk, n: string)
    requires Inv(MovesOf(pk, d0.dir), d0, d) && n in d.dir && Target(pk, n).Some?
    ensures n in MovesOf(pk, d0.dir)
  {
    hide Target;
    var mv := MovesOf(pk, d0.dir);
    forall f | f in mv ensures mv[f] != n { TargetIsFinal(pk, f); }
  }

  lemma {:induction false} OpsAgree(mv: Moves, mv': Moves, files: seq<string>)
    requires Listed(mv, files) && Listed(mv', files) && forall f :: f in files ==> mv[f] == mv'[f]
    ensures LinkOps(mv, files) == LinkOps(mv', files)
    decreases |files|
  {
    if files != [] { OpsAgree(mv, mv', files[1..]); }
  }

  lemma {:induction false} AbortAgree(mv: Moves, mv': Moves, files: seq<string>)
    requires Listed(mv, files) && Listed(mv', files) && forall f :: f in files ==> mv[f] == mv'[f]
    ensures AbortOps(mv, files) == AbortOps(mv', files)
    decreases |files|
  {
    if files != [] { AbortAgree(mv, mv', files[..|files| - 1]); }
  }

  lemma {:induction false} EligibleDistinct(pk: Packages, listing: seq<string>)
    requires Distinct(listing)
    ensures Distinct(Eligible(pk, listing))
    decreases |listing|
  {
    if listing != [] {
      EligibleDistinct(pk, listing[1..]);
    }
  }

  /** The files an upgrade works on, seen from the original directory. */
  lemma WorkList(pk: Packages, d0: Disk, d: Disk, listing: seq<string>)
    requires Inv(MovesOf(pk, d0.dir), d0, d) && Enumerates(pk, d, listing)
    ensures var mv, mv', files := MovesOf(pk, d0.dir), MovesOf(pk, d.dir), Eligible(pk, listing);
      && ListsAll(mv, d, files) && Listed(mv', files) && Distinct(files)
      && (forall f :: f in files ==> mv[f] == mv'[f])
  {
    var files := Eligible(pk, listing);
    EligibleDistinct(pk, listing);
    hide Target;
    forall f | f in files ensures f in MovesOf(pk, d0.dir) && f in MovesOf(pk, d.dir) { StillThere(pk, d0, d, f); }
  }

  lemma RollBackSafe(mv: Moves, d0: Disk, d: Disk, done: seq<string>, after: nat)
    requires Sane(mv) && Busy(mv, d0, d) && Listed(mv, done) && AllIn(done, d.dir) && Distinct(done)
    ensures Inv(mv, d0, RollBack(mv, d, done, after))
  {
    var d1 := Apply(d, OpenFormatNew);
    FlagKeeps(mv, d0, d, d1);
    LinksSafe(mv, d0, d1, done);
    var d2 := ApplyAll(d1, LinkOps(mv, done));
    hide Busy, Inv, Sane, TargetsIn, Listed, Safe, AbortOps;
    AbortSafe(mv, d0, d2, done);
    var k := if after <= |AbortOps(mv, done)| then after else |AbortOps(mv, done)|;
    SafePrefix(mv, d0, d2, AbortOps(mv, done), k);
    assert Prefix(AbortOps(mv, done), after) == AbortOps(mv, done)[..k];
  }

  lemma StepKeeps(pk: Packages, d0: Disk, d: Disk, e: Event)
    requires Sane(MovesOf(pk, d0.dir)) && Inv(MovesOf(pk, d0.dir), d0, d) && Legacy(pk, d0)
    requires Enumerates(pk, d, e.listing)
    ensures Inv(MovesOf(pk, d0.dir), d0, Step(pk, d, e))
  {
    hide MovesOf, Target, Sane, Listed, Safe, ListsAll, Enumerates, Eligible, LinkOps, UnlinkOps, AbortOps;
    var mv, mv', files := MovesOf(pk, d0.dir), MovesOf(pk, d.dir), Eligible(pk, e.listing);
    WorkList(pk, d0, d, e.listing);
    if !(ReadFormat(d) >= 1 && d.formatNew.NoFile?) {
      assert Busy(mv, d0, d);
      ListsAreListed(mv, d, files);
      OpsAgree(mv, mv', files);
      UpgradeSafe(mv, d0, d, files);
      hide Busy, Inv, Legacy, ApplyAll;
      match e.ending
      case Completes =>
        SafePrefix(mv, d0, d, UpgradeOps(mv, files), |UpgradeOps(mv, files)|);
        assert UpgradeOps(mv, files)[..|UpgradeOps(mv, files)|] == UpgradeOps(mv, files);
      case Dies(k) =>
        var n := if k <= |UpgradeOps(mv, files)| then k else |UpgradeOps(mv, files)|;
        SafePrefix(mv, d0, d, UpgradeOps(mv, files), n);
        assert Prefix(UpgradeOps(mv, files), k) == UpgradeOps(mv, files)[..n];
      case RollsBack(k, m) => StepRollsBack(mv, mv', d0, d, files, k, m);
    }
  }

  lemma ListsAreListed(mv: Moves, d: Disk, files: seq<string>)
    requires ListsAll(mv, d, files)
    ensures Listed(mv, files)
  { }

  lemma StepRollsBack(mv: Moves, mv': Moves, d0: Disk, d: Disk, files: seq<string>, k: nat, m: nat)
    requires Sane(mv) && Busy(mv, d0, d) && ListsAll(mv, d, files) && Listed(mv', files) && Distinct(files)
    requires forall f :: f in files ==> mv[f] == mv'[f]
    ensures Listed(mv', Prefix(files, k)) && Inv(mv, d0, RollBack(mv', d, Prefix(files, k), m))
  {
    var done := Prefix(files, k);
    assert forall i :: 0 <= i < |done| ==> done[i] == files[i];
    assert forall f :: f in done ==> f in files;
    RollBackSafe(mv, d0, d, done, m);
    OpsAgree(mv, mv', done);
    AbortAgree(mv, mv', done);
  }

  lemma {:induction false} RunKeeps(pk: Packages, d0: Disk, d: Disk, es: seq<Event>)
    requires Sane(MovesOf(pk, d0.dir)) && Inv(MovesOf(pk, d0.dir), d0, d) && Legacy(pk, d0) && Legal(pk, d, es)
    ensures Inv(MovesOf(pk, d0.dir), d0, Run(pk, d, es))
    decreases |es|
  {
    hide Sane, MovesOf, Inv, Legacy, Step, Enumerates;
    if es != [] {
      StepKeeps(pk, d0, d, es[0]);
      RunKeeps(pk, d0, Step(pk, d, es[0]), es[1..]);
    }
  }

  lemma LegacyInv(pk: Packages, d0: Disk)
    requires Legacy(pk, d0)
    ensures Inv(MovesOf(pk, d0.dir), d0, d0)
  { }

  /**
   Conservation.  Under any number of crashes, rollbacks and re-runs, every file
   to be converted keeps its old or its new name with its own contents, every
   other file is untouched, and no reader ever sees a format beyond 1.
   */
  lemma {:induction false} Conservation(pk: Packages, d0: Disk, es: seq<Event>)
    requires Legacy(pk, d0) && NoCaseClash(pk, d0) && Legal(pk, d0, es)
    ensures var d, mv := Run(pk, d0, es), MovesOf(pk, d0.dir);
      && (forall f :: f in mv ==> Kept(d0.dir[f], d.dir, f, mv[f]))
      && (forall n :: n !in mv && n !in mv.Values ==>
            (n in d.dir <==> n in d0.dir) && (n in d0.dir ==> d.dir[n] == d0.dir[n]))
      && ReadFormat(d) <= 1
  {
    MovesSane(pk, d0);
    LegacyInv(pk, d0);
    RunKeeps(pk, d0, d0, es);
  }

  /**
   Convergence.  However the earlier runs ended, one that completes leaves
   exactly the qualified names for the converted files, everything else as it
   was, and format 1 with no format-new; a further run changes nothing.
   */
  lemma {:induction false} Convergence(pk: Packages, d0: Disk, es: seq<Event>, listing: seq<string>, e: Event)
    requires Legacy(pk, d0) && NoCaseClash(pk, d0) && Legal(pk, d0, es)
    requires Enumerates(pk, Run(pk, d0, es), listing)
    ensures var mv := MovesOf(pk, d0.dir);
      var d := Step(pk, Run(pk, d0, es), Event(listing, Completes));
      && d.format == Some(1) && d.formatNew.NoFile?
      && (forall f :: f in mv ==> f !in d.dir && mv[f] in d.dir && d.dir[mv[f]] == d0.dir[f])
      && (forall n :: n !in mv && n !in mv.Values ==>
            (n in d.dir <==> n in d0.dir) && (n in d0.dir ==> d.dir[n] == d0.dir[n]))
      && Step(pk, d, e) == d
  {
    MovesSane(pk, d0);
    LegacyInv(pk, d0);
    RunKeeps(pk, d0, d0, es);
    StepConverts(pk, d0, Run(pk, d0, es), listing);
  }

  /**
   The same by name: a completed upgrade leaves pkg:arch.type, with the contents
   of pkg.type, in place of every pkg.type of an installed Multi-Arch: same package,
   and does not touch any other file.
   */
  lemma CompletedRenames(pk: Packages, d0: Disk, es: seq<Event>, listing: seq<string>)
    requires Legacy(pk, d0) && NoCaseClash(pk, d0) && Legal(pk, d0, es)
    requires Enumerates(pk, Run(pk, d0, es), listing)
    ensures var d := Step(pk, Run(pk, d0, es), Event(listing, Completes));
      && (forall f, g :: f in d0.dir && Qualifies(pk, f, g) ==> f !in d.dir && g in d.dir && d.dir[g] == d0.dir[f])
      && (forall n :: (forall f, g :: f in d0.dir && Qualifies(pk, f, g) ==> n != f && n != g) ==>
            (n in d.dir <==> n in d0.dir) && (n in d0.dir ==> d.dir[n] == d0.dir[n]))
  {
    hide Target, Qualifies, Step, Run, Legacy, NoCaseClash, Legal, Enumerates;
    Convergence(pk, d0, es, listing, Event(listing, Completes));
    var mv := MovesOf(pk, d0.dir);
    forall f, g ensures Target(pk, f) == Some(g) <==> Qualifies(pk, f, g) { TargetIff(pk, f, g); }
    assert forall f :: f in mv ==> f in d0.dir && Qualifies(pk, f, mv[f]);
  }

  lemma StepConverts(pk: Packages, d0: Disk, d: Disk, listing: seq<string>)
    requires Sane(MovesOf(pk, d0.dir)) && Inv(MovesOf(pk, d0.dir), d0, d) && Legacy(pk, d0)
    requires Enumerates(pk, d, listing)
    ensures var mv := MovesOf(pk, d0.dir);
      var d' := Step(pk, d, Event(listing, Completes));
      && Inv(mv, d0, d') && d'.format == Some(1) && d'.formatNew.NoFile? && Converted(mv, d'.dir)
  {
    var e := Event(listing, Completes);
    var mv, mv', files := MovesOf(pk, d0.dir), MovesOf(pk, d.dir), Eligible(pk, listing);
    StepKeeps(pk, d0, d, e);
    WorkList(pk, d0, d, listing);
    if !(ReadFormat(d) >= 1 && d.formatNew.NoFile?) {
      OpsAgree(mv, mv', files);
      UpgradeSafe(mv, d0, d, files);
    }
  }

  // ---- what a reader sees ----

  ghost predicate KeepsFormats(op: Op) { op.Link? || op.Unlink? || op.WriteFormatNew? }

  lemma {:induction false} FormatsKept(d: Disk, ops: seq<Op>)
    requires forall i :: 0 <= i < |ops| ==> KeepsFormats(ops[i])
    ensures var d' := ApplyAll(d, ops); d'.format == d.format && (d'.formatNew.NoFile? <==> d.formatNew.NoFile?)
    decreases |ops|
  {
    if ops != [] { FormatsKept(Apply(d, ops[0]), ops[1..]); }
  }

  lemma {:induction false} MiddleKeeps(mv: Moves, files: seq<string>)
    requires Listed(mv, files)
    ensures forall i :: 0 <= i < |LinkOps(mv, files)| ==> KeepsFormats(LinkOps(mv, files)[i])
    ensures forall i :: 0 <= i < |UnlinkOps(files)| ==> KeepsFormats(UnlinkOps(files)[i])
    decreases |files|
  {
    if files != [] {
      MiddleKeeps(mv, files[1..]);
      MiddleKeeps(mv, files[..|files| - 1]);
    }
  }

  /**
   From its first operation to its last but one, an upgrade of a legacy directory
   is visible to readers as the format to come, and as an upgrade in progress.
   */
  lemma SeenUnderWay(mv: Moves, d: Disk, files: seq<string>, k: nat)
    requires Listed(mv, files) && 1 <= k < |UpgradeOps(mv, files)| && (d.format.Some? ==> d.format.value == 0)
    ensures var d' := ApplyAll(d, UpgradeOps(mv, files)[..k]); ReadFormat(d') == 1 && !d'.formatNew.NoFile?
  {
    var ops := UpgradeOps(mv, files);
    var middle := LinkOps(mv, files) + ([WriteFormatNew] + UnlinkOps(files));
    MiddleKeeps(mv, files);
    hide LinkOps, UnlinkOps;
    assert ops == [OpenFormatNew] + (middle + [RenameFormat]);
    assert ops[..k] == [OpenFormatNew] + middle[..k - 1];
    ApplyCons(d, OpenFormatNew, middle[..k - 1]);
    FormatsKept(Apply(d, OpenFormatNew), middle[..k - 1]);
  }

  // ---- two names for one file: when the upgrade loses data ----

  ghost predicate Origin(mv: Moves, d: Disk, d': Disk, files: seq<string>, n: string) {
    n in d'.dir && exists f :: f in files && f in mv && f in d.dir && mv[f] == n && d'.dir[n] == d.dir[f]
  }

  lemma {:induction false} LinkOrigin(mv: Moves, d: Disk, files: seq<string>)
    requires Listed(mv, files) && AllIn(files, d.dir)
    ensures var d' := ApplyAll(d, LinkOps(mv, files));
      && (forall n :: n in d.dir ==> n in d'.dir && d'.dir[n] == d.dir[n])
      && (forall n :: n in d'.dir && n !in d.dir ==> Origin(mv, d, d', files, n))
      && TargetsIn(mv, files, d'.dir)
    decreases |files|
  {
    if files != [] {
      var f := files[0];
      var d1 := Apply(d, Link(f, mv[f]));
      LinkOrigin(mv, d1, files[1..]);
      assert files == [f] + files[1..];
      var d' := ApplyAll(d, LinkOps(mv, files));
      assert d' == ApplyAll(d1, LinkOps(mv, files[1..])) by { assert LinkOps(mv, files)[1..] == LinkOps(mv, files[1..]); }
      forall n | n in d'.dir && n !in d.dir ensures Origin(mv, d, d', files, n) {
        if n in d1.dir {
          assert n == mv[f] && d'.dir[n] == d.dir[f];
        } else {
          var h :| h in files[1..] && h in mv && h in d1.dir && mv[h] == n && d'.dir[n] == d1.dir[h];
          assert h in files;
        }
      }
    }
  }

  lemma {:induction false} UnlinkEffect(d: Disk, files: seq<string>)
    ensures var d' := ApplyAll(d, UnlinkOps(files));
      && (forall n :: n in d'.dir <==> n in d.dir && n !in files)
      && (forall n :: n in d'.dir ==> d'.dir[n] == d.dir[n])
    decreases |files|
  {
    if files != [] {
      var n := |files| - 1;
      var d1 := Apply(d, Unlink(files[n]));
      UnlinkEffect(d1, files[..n]);
      assert files == files[..n] + [files[n]];
      assert UnlinkOps(files)[1..] == UnlinkOps(files[..n]);
    }
  }

  lemma UpgradeParts(mv: Moves, d: Disk, files: seq<string>)
    requires Listed(mv, files)
    ensures var d2 := ApplyAll(Apply(d, OpenFormatNew), LinkOps(mv, files));
      ApplyAll(d, UpgradeOps(mv, files)) == Apply(ApplyAll(Apply(d2, WriteFormatNew), UnlinkOps(files)), RenameFormat)
  {
    var d1 := Apply(d, OpenFormatNew);
    var d2 := ApplyAll(d1, LinkOps(mv, files));
    var tail := UnlinkOps(files) + [RenameFormat];
    hide LinkOps, UnlinkOps;
    ApplyAllConcat(Apply(d2, WriteFormatNew), UnlinkOps(files), [RenameFormat]);
    assert [RenameFormat][1..] == [];
    assert ([WriteFormatNew] + tail)[1..] == tail;
    ApplyAllConcat(d1, LinkOps(mv, files), [WriteFormatNew] + tail);
    assert ([OpenFormatNew] + (LinkOps(mv, files) + ([WriteFormatNew] + tail)))[1..] == LinkOps(mv, files) + ([WriteFormatNew] + tail);
  }

  /**
   An existing link is taken for one the upgrade made itself.  So a completed
   upgrade of a legacy directory keeps every file if and only if all the files
   that are to get one name are already one file.
   */
  lemma NothingLostIff(pk: Packages, d0: Disk, listing: seq<string>)
    requires Legacy(pk, d0) && Enumerates(pk, d0, listing)
    ensures var mv, d := MovesOf(pk, d0.dir), Step(pk, d0, Event(listing, Completes));
      (forall f :: f in mv ==> mv[f] in d.dir && d.dir[mv[f]] == d0.dir[f])
      <==> (forall f, g :: f in mv && g in mv && mv[f] == mv[g] ==> d0.dir[f] == d0.dir[g])
  {
    var mv, files := MovesOf(pk, d0.dir), Eligible(pk, listing);
    forall f, h | f in mv && h in mv ensures mv[f] != h { TargetIsFinal(pk, f); }
    hide Target, Step;
    LegacyInv(pk, d0);
    WorkList(pk, d0, d0, listing);
    UpgradeResult(mv, d0, files);
    StepIsUpgrade(pk, d0, listing);
    var d := Step(pk, d0, Event(listing, Completes));
    assert forall f :: f in mv ==> mv[f] in d.dir;
    if forall f :: f in mv ==> mv[f] in d.dir && d.dir[mv[f]] == d0.dir[f] {
      forall f, g | f in mv && g in mv && mv[f] == mv[g] ensures d0.dir[f] == d0.dir[g] { }
    }
    if forall f, g :: f in mv && g in mv && mv[f] == mv[g] ==> d0.dir[f] == d0.dir[g] {
      forall f | f in mv ensures d.dir[mv[f]] == d0.dir[f] {
        assert Origin(mv, d0, d, files, mv[f]);
      }
    }
  }

  lemma StepIsUpgrade(pk: Packages, d0: Disk, listing: seq<string>)
    requires Legacy(pk, d0) && Listed(MovesOf(pk, d0.dir), Eligible(pk, listing))
    ensures Step(pk, d0, Event(listing, Completes)) == ApplyAll(d0, UpgradeOps(MovesOf(pk, d0.dir), Eligible(pk, listing)))
  { }

  lemma UpgradeResult(mv: Moves, d: Disk, files: seq<string>)
    requires Listed(mv, files) && AllIn(files, d.dir)
    requires forall f :: f in files <==> f in mv
    requires forall f, h :: f in mv && h in mv ==> mv[f] != h
    requires forall f :: f in mv ==> mv[f] !in d.dir
    ensures var d' := ApplyAll(d, UpgradeOps(mv, files));
      forall f :: f in mv ==> mv[f] in d'.dir && Origin(mv, d, d', files, mv[f])
  {
    hide LinkOps, UnlinkOps, UpgradeOps;
    UpgradeParts(mv, d, files);
    var d1 := Apply(d, OpenFormatNew);
    LinkOrigin(mv, d1, files);
    var d2 := ApplyAll(d1, LinkOps(mv, files));
    UnlinkEffect(Apply(d2, WriteFormatNew), files);
    var d' := ApplyAll(d, UpgradeOps(mv, files));
    forall f | f in mv ensures mv[f] in d'.dir && Origin(mv, d, d', files, mv[f]) {
      assert f in files && mv[f] in d2.dir && mv[f] !in files;
      assert Origin(mv, d1, d2, files, mv[f]);
    }
  }

  // ---- what a reader finds after a rollback ----

  lemma ApplyCons(d: Disk, op: Op, ops: seq<Op>)
    ensures ApplyAll(d, [op] + ops) == ApplyAll(Apply(d, op), ops)
  {
    assert ([op] + ops)[1..] == ops;
  }

  lemma AbortTargets(mv: Moves, d: Disk, files: seq<string>, f: string)
    requires Sane(mv) && Listed(mv, files + [f]) && TargetsIn(mv, files + [f], d.dir) && Distinct(files + [f])
    ensures f in mv && mv[f] in d.dir && Listed(mv, files) && Distinct(files)
    ensures TargetsIn(mv, files, Apply(Apply(d, Link(mv[f], f)), Unlink(mv[f])).dir)
    ensures forall h :: h in mv ==> (h in Apply(Apply(d, Link(mv[f], f)), Unlink(mv[f])).dir <==> h in d.dir || h == f)
  {
    assert forall i :: 0 <= i < |files| ==> (files + [f])[i] == files[i];
    assert (files + [f])[|files|] == f;
    assert f in files + [f];
    forall h | h in files && h in mv ensures mv[h] in Apply(Apply(d, Link(mv[f], f)), Unlink(mv[f])).dir {
      assert h in files + [f];
    }
  }

  lemma {:induction false} AbortEffect(mv: Moves, d: Disk, files: seq<string>)
    requires Sane(mv) && Listed(mv, files) && TargetsIn(mv, files, d.dir) && Distinct(files)
    ensures var d' := ApplyAll(d, AbortOps(mv, files));
      && d'.format == d.format && d'.formatNew.NoFile?
      && (forall f :: f in mv ==> (f in d'.dir <==> f in d.dir || f in files))
    decreases |files|
  {
    if files == [] {
      assert [UnlinkFormatNew][1..] == [];
    } else {
      hide Sane, TargetsIn, Distinct, ApplyAll;
      var n := |files| - 1;
      var f := files[n];
      assert files == files[..n] + [f];
      var d1 := Apply(d, Link(mv[f], f));
      var d2 := Apply(d1, Unlink(mv[f]));
      AbortTargets(mv, d, files[..n], f);
      AbortEffect(mv, d2, files[..n]);
      var rest := AbortOps(mv, files[..n]);
      assert AbortOps(mv, files) == [Link(mv[f], f)] + ([Unlink(mv[f])] + rest);
      ApplyCons(d, Link(mv[f], f), [Unlink(mv[f])] + rest);
      ApplyCons(d1, Unlink(mv[f]), rest);
    }
  }

  /**
   Rolling back removes format-new, so readers go back to the old names.  They
   find all of them if and only if none had gone missing before this run: an
   upgrade that died while unlinking must be followed by one that completes.
   */
  lemma RollBackReadableIff(mv: Moves, d0: Disk, d: Disk, files: seq<string>, k: nat)
    requires Sane(mv) && Busy(mv, d0, d) && ListsAll(mv, d, files) && Distinct(files)
    requires d0.format.Some? ==> d0.format.value == 0
    ensures Listed(mv, Prefix(files, k))
    ensures var d' := RollBack(mv, d, Prefix(files, k), |AbortOps(mv, Prefix(files, k))|);
      && ReadFormat(d') == 0
      && ((forall f :: f in mv ==> f in d'.dir) <==> (forall f :: f in mv ==> f in d.dir))
  {
    var done := Prefix(files, k);
    assert forall i :: 0 <= i < |done| ==> done[i] == files[i];
    assert forall f :: f in done ==> f in files;
    var d1 := Apply(d, OpenFormatNew);
    FlagKeeps(mv, d0, d, d1);
    LinksSafe(mv, d0, d1, done);
    AbortEffect(mv, ApplyAll(d1, LinkOps(mv, done)), done);
    assert Prefix(AbortOps(mv, done), |AbortOps(mv, done)|) == AbortOps(mv, done);
    hide Sane, Inv, AbortOps, LinkOps, ApplyAll;
  }

  ghost function NewNames(mv: Moves, files: seq<string>): set<string> { set f | f in files && f in mv :: mv[f] }

  lemma {:induction false} LinkedNames(mv: Moves, d: Disk, files: seq<string>)
    requires Listed(mv, files) && AllIn(files, d.dir)
    ensures ApplyAll(d, LinkOps(mv, files)).dir.Keys == d.dir.Keys + NewNames(mv, files)
    decreases |files|
  {
    if files != [] {
      var f := files[0];
      var d1 := Apply(d, Link(f, mv[f]));
      LinkedNames(mv, d1, files[1..]);
      assert files == [f] + files[1..];
      ApplyCons(d, Link(f, mv[f]), LinkOps(mv, files[1..]));
    } else {
      assert NewNames(mv, files) == {};
    }
  }

  lemma {:induction false} AbortedNames(mv: Moves, d: Disk, files: seq<string>)
    requires Sane(mv) && Listed(mv, files) && TargetsIn(mv, files, d.dir) && Distinct(files) && AllIn(files, d.dir)
    ensures var d' := ApplyAll(d, AbortOps(mv, files)); d'.dir.Keys == d.dir.Keys - NewNames(mv, files)
    decreases |files|
  {
    if files == [] {
      assert [UnlinkFormatNew][1..] == [] && NewNames(mv, files) == {};
    } else {
      hide TargetsIn, Distinct, ApplyAll;
      var n := |files| - 1;
      var f := files[n];
      assert files == files[..n] + [f];
      var d1 := Apply(d, Link(mv[f], f));
      var d2 := Apply(d1, Unlink(mv[f]));
      AbortTargets(mv, d, files[..n], f);
      AbortedNames(mv, d2, files[..n]);
      var rest := AbortOps(mv, files[..n]);
      assert AbortOps(mv, files) == [Link(mv[f], f)] + ([Unlink(mv[f])] + rest);
      ApplyCons(d, Link(mv[f], f), [Unlink(mv[f])] + rest);
      ApplyCons(d1, Unlink(mv[f]), rest);
      assert NewNames(mv, files) == NewNames(mv, files[..n]) + {mv[f]};
    }
  }

  /** A rollback leaves the directory as it was, except that new names that were to be linked are gone. */
  lemma RollBackNames(mv: Moves, d0: Disk, d: Disk, done: seq<string>)
    requires Sane(mv) && Busy(mv, d0, d) && Listed(mv, done) && AllIn(done, d.dir) && Distinct(done)
    ensures var d' := RollBack(mv, d, done, |AbortOps(mv, done)|);
      d'.dir.Keys == d.dir.Keys - NewNames(mv, done) && d'.format == d.format && d'.formatNew.NoFile?
  {
    var d1 := Apply(d, OpenFormatNew);
    FlagKeeps(mv, d0, d, d1);
    LinksSafe(mv, d0, d1, done);
    LinkedNames(mv, d1, done);
    var d2 := ApplyAll(d1, LinkOps(mv, done));
    hide Busy, Inv, ApplyAll, LinkOps, AbortOps, Distinct;
    assert AllIn(done, d2.dir);
    AbortEffect(mv, d2, done);
    AbortedNames(mv, d2, done);
    assert Prefix(AbortOps(mv, done), |AbortOps(mv, done)|) == AbortOps(mv, done);
  }

  /** On a directory of which nothing had been converted, a rolled back upgrade leaves no trace. */
  lemma RollBackRestores(pk: Packages, d0: Disk, listing: seq<string>, k: nat)
    requires Legacy(pk, d0) && NoCaseClash(pk, d0) && Enumerates(pk, d0, listing)
    ensures var mv := MovesOf(pk, d0.dir);
      var done := Prefix(Eligible(pk, listing), k);
      Listed(mv, done) && Step(pk, d0, Event(listing, RollsBack(k, |AbortOps(mv, done)|))) == d0
  {
    hide Target, AbortOps, LinkOps, Sane, NoCaseClash;
    var mv, files := MovesOf(pk, d0.dir), Eligible(pk, listing);
    MovesSane(pk, d0);
    LegacyInv(pk, d0);
    WorkList(pk, d0, d0, listing);
    var done := Prefix(files, k);
    assert forall i :: 0 <= i < |done| ==> done[i] == files[i];
    assert forall f :: f in done ==> f in files;
    var d := RollBack(mv, d0, done, |AbortOps(mv, done)|);
    assert AllIn(done, d0.dir);
    RollBackNames(mv, d0, d0, done);
    RollBackSafe(mv, d0, d0, done, |AbortOps(mv, done)|);
    hide RollBack, Step;
    NoTrace(pk, d0, d, done);
    StepRollingBack(pk, d0, listing, k, |AbortOps(mv, done)|);
  }

  lemma StepRollingBack(pk: Packages, d: Disk, listing: seq<string>, k: nat, m: nat)
    requires Legacy(pk, d) && Listed(MovesOf(pk, d.dir), Eligible(pk, listing))
    ensures Listed(MovesOf(pk, d.dir), Prefix(Eligible(pk, listing), k))
    ensures Step(pk, d, Event(listing, RollsBack(k, m))) == RollBack(MovesOf(pk, d.dir), d, Prefix(Eligible(pk, listing), k), m)
  {
    hide Target, RollBack;
  }

  lemma NoTrace(pk: Packages, d0: Disk, d: Disk, done: seq<string>)
    requires Legacy(pk, d0) && Inv(MovesOf(pk, d0.dir), d0, d) && d.format == d0.format && d.formatNew.NoFile?
    requires d.dir.Keys == d0.dir.Keys - NewNames(MovesOf(pk, d0.dir), done)
    ensures d == d0
  {
    hide Target;
    var mv := MovesOf(pk, d0.dir);
    assert forall f :: f in mv ==> mv[f] !in d0.dir;
    assert d.dir.Keys == d0.dir.Keys;
    forall n | n in d0.dir ensures d.dir[n] == d0.dir[n] {
      if n in mv { assert Kept(d0.dir[n], d.dir, n, mv[n]); }
    }
    assert d.dir == d0.dir;
  }

  // ---- concrete inputs for the two failures ----

  const EXAMPLE: Packages := map["a" := Installed(true, "x")]

  lemma ExampleTargets()
    ensures Target(EXAMPLE, "a.l") == Some("a:x.l") && Target(EXAMPLE, "A.l") == Some("a:x.l")
  {
    LastIndexUnique("a", '.', "l");
    LastIndexUnique("A", '.', "l");
    assert "a" + "." + "l" == "a.l" && "A" + "." + "l" == "A.l";
    assert Lower("a") == "a" && Lower("A") == "a";
    assert "a.l"[..1] == "a" && "A.l"[..1] == "A" && "a.l"[2..] == "l" && "A.l"[2..] == "l";
    assert "a" + ":" + "x" + "." + "l" == "a:x.l";
  }

  lemma ExampleFirstRun()
    ensures Step(EXAMPLE, Disk(map["a.l" := 1], None, NoFile), Event(["a.l"], Dies(4))) == Disk(map["a:x.l" := 1], None, Holding)
  {
    ExampleTargets();
    hide Target;
    var d0 := Disk(map["a.l" := 1], None, NoFile);
    var mv := MovesOf(EXAMPLE, d0.dir);
    assert mv == map["a.l" := "a:x.l"];
    assert ["a.l"][1..] == [] && ["a.l"][..0] == [];
    assert Eligible(EXAMPLE, ["a.l"]) == ["a.l"];
    assert LinkOps(mv, ["a.l"]) == [Link("a.l", "a:x.l")];
    assert UnlinkOps(["a.l"]) == [Unlink("a.l")];
    var ops := UpgradeOps(mv, ["a.l"]);
    assert ops == [OpenFormatNew, Link("a.l", "a:x.l"), WriteFormatNew, Unlink("a.l"), RenameFormat];
    assert Prefix(ops, 4) == [OpenFormatNew] + ([Link("a.l", "a:x.l")] + ([WriteFormatNew] + ([Unlink("a.l")] + [])));
    ExampleApply(d0);
  }

  lemma ExampleApply(d: Disk)
    requires d == Disk(map["a.l" := 1], None, NoFile)
    ensures ApplyAll(d, [OpenFormatNew] + ([Link("a.l", "a:x.l")] + ([WriteFormatNew] + ([Unlink("a.l")] + []))))
         == Disk(map["a:x.l" := 1], None, Holding)
  {
    var d1 := Disk(map["a.l" := 1], None, Created);
    var d2 := Disk(map["a.l" := 1, "a:x.l" := 1], None, Created);
    var d3 := Disk(map["a:x.l" := 1], None, Holding);
    var dw := d2.(formatNew := Holding);
    ApplyCons(dw, Unlink("a.l"), []);
    assert Apply(dw, Unlink("a.l")) == d3;
    ApplyCons(d2, WriteFormatNew, [Unlink("a.l")] + []);
    ApplyCons(d1, Link("a.l", "a:x.l"), [WriteFormatNew] + ([Unlink("a.l")] + []));
    ApplyCons(d, OpenFormatNew, [Link("a.l", "a:x.l")] + ([WriteFormatNew] + ([Unlink("a.l")] + [])));
  }

  lemma ExampleSecondRun(d: Disk)
    requires d == Disk(map["a:x.l" := 1], None, Holding)
    ensures Step(EXAMPLE, d, Event([], RollsBack(0, 1))) == d.(formatNew := NoFile)
  {
    hide Target;
    assert Eligible(EXAMPLE, []) == [];
    assert Prefix<string>([], 0) == [] && Prefix([UnlinkFormatNew], 1) == [UnlinkFormatNew];
    assert [UnlinkFormatNew][1..] == [];
    assert ApplyAll(d, [UnlinkFormatNew]) == Apply(d, UnlinkFormatNew);
  }

  /** Dying after the old name is gone, then failing to link: a reader looks for a name that is not there. */
  lemma RollBackUnreadable()
    ensures var d := Run(EXAMPLE, Disk(map["a.l" := 1], None, NoFile),
                         [Event(["a.l"], Dies(4)), Event([], RollsBack(0, 1))]);
      ReadFormat(d) == 0 && d.dir == map["a:x.l" := 1]
  {
    hide Step;
    var e0, e1 := Event(["a.l"], Dies(4)), Event([], RollsBack(0, 1));
    var d0, d1 := Disk(map["a.l" := 1], None, NoFile), Disk(map["a:x.l" := 1], None, Holding);
    ExampleFirstRun();
    ExampleSecondRun(d1);
    assert [e0, e1][1..] == [e1] && [e1][1..] == [];
    assert Run(EXAMPLE, d0, [e0, e1]) == Run(EXAMPLE, d1, [e1]);
    assert Run(EXAMPLE, d1, [e1]) == Run(EXAMPLE, d1.(formatNew := NoFile), []);
  }

  lemma ClashOps(mv: Moves)
    requires mv == map["A.l" := "a:x.l", "a.l" := "a:x.l"]
    ensures LinkOps(mv, ["A.l", "a.l"]) == [Link("A.l", "a:x.l")] + [Link("a.l", "a:x.l")]
    ensures UnlinkOps(["A.l", "a.l"]) == [Unlink("a.l")] + [Unlink("A.l")]
  {
    var files := ["A.l", "a.l"];
    assert files[1..] == ["a.l"] && ["a.l"][1..] == [];
    assert files[..1] == ["A.l"] && ["A.l"][..0] == [];
    assert LinkOps(mv, ["a.l"]) == [Link("a.l", "a:x.l")];
    assert UnlinkOps(["A.l"]) == [Unlink("A.l")];
  }

  lemma ClashEligible()
    ensures Eligible(EXAMPLE, ["A.l", "a.l"]) == ["A.l", "a.l"]
  {
    ExampleTargets();
    hide Target;
    assert ["A.l", "a.l"][1..] == ["a.l"] && ["a.l"][1..] == [];
    assert Eligible(EXAMPLE, ["a.l"]) == ["a.l"];
  }

  lemma ClashApply(d: Disk)
    requires d == Disk(map["A.l" := 1, "a.l" := 2], None, Created)
    ensures var d2 := ApplyAll(d, [Link("A.l", "a:x.l")] + [Link("a.l", "a:x.l")]);
      ApplyAll(Apply(d2, WriteFormatNew), [Unlink("a.l")] + [Unlink("A.l")]) == Disk(map["a:x.l" := 1], None, Holding)
  {
    var d2 := d.(dir := map["A.l" := 1, "a.l" := 2, "a:x.l" := 1]);
    var dw := d2.(formatNew := Holding);
    var d3 := dw.(dir := map["A.l" := 1, "a:x.l" := 1]);
    ApplyPair(d, Link("A.l", "a:x.l"), Link("a.l", "a:x.l"));
    assert Apply(d, Link("A.l", "a:x.l")) == d2 == Apply(d2, Link("a.l", "a:x.l"));
    ApplyPair(dw, Unlink("a.l"), Unlink("A.l"));
    assert Apply(dw, Unlink("a.l")) == d3;
    assert Apply(d3, Unlink("A.l")).dir == map["a:x.l" := 1];
  }

  /** Two names that differ only in case: the contents of the second are lost. */
  lemma CaseClashLoses()
    ensures Step(EXAMPLE, Disk(map["A.l" := 1, "a.l" := 2], None, NoFile), Event(["A.l", "a.l"], Completes))
         == Disk(map["a:x.l" := 1], Some(1), NoFile)
  {
    ExampleTargets();
    hide Target, LinkOps, UnlinkOps, UpgradeOps, ApplyAll, Eligible;
    var d0 := Disk(map["A.l" := 1, "a.l" := 2], None, NoFile);
    var mv := MovesOf(EXAMPLE, d0.dir);
    assert mv == map["A.l" := "a:x.l", "a.l" := "a:x.l"];
    ClashEligible();
    ClashOps(mv);
    ClashApply(d0.(formatNew := Created));
    UpgradeParts(mv, d0, ["A.l", "a.l"]);
  }

  lemma ApplyPair(d: Disk, a: Op, b: Op)
    ensures ApplyAll(d, [a] + [b]) == Apply(Apply(d, a), b)
  {
    ApplyCons(d, a, [b]);
    assert [b][1..] == [];
  }
}
