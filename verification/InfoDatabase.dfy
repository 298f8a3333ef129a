/**
 The upgrade as lib/dpkg/db-ctrl-upgrade.c carries it out: a list of renames
 built while linking and consumed while unlinking or rolling back.  Each routine
 is proved to perform the operations that `InfoDb` reasons about.
 */
module InfoDatabase {
  import opened Text
  import opened InfoDb

  datatype RenameNode = RenameNode(old_: string, new_: string)

  /** The nodes pushed for the given files, newest last. */
  function Nodes(mv: Moves, files: seq<string>): (r: seq<RenameNode>)
    requires Listed(mv, files)
    ensures |r| == |files|
  {
    seq(|files|, i requires 0 <= i < |files| => RenameNode(files[i], mv[files[i]]))
  }

  class Upgrader {
    const pk: Packages
    var disk: Disk
    var renameHead: seq<RenameNode>
    ghost var log: seq<Op>

    constructor (packages: Packages, d: Disk)
      ensures pk == packages && disk == d && renameHead == [] && log == []
    {
      pk, disk, renameHead, log := packages, d, [], [];
    }

    ghost predicate Did(disk0: Disk, log0: seq<Op>, ops: seq<Op>)
      reads this
    {
      disk == ApplyAll(disk0, ops) && log == log0 + ops
    }

    method Do(op: Op, ghost disk0: Disk, ghost log0: seq<Op>, ghost done: seq<Op>)
      requires Did(disk0, log0, done)
      modifies this`disk, this`log
      ensures disk == Apply(old(disk), op) && Did(disk0, log0, done + [op])
    {
      disk := Apply(disk, op);
      log := log + [op];
      assert [op][1..] == [];
      ApplyAllConcat(disk0, done, [op]);
    }

    /** One link, remembered for the unlink or abort to come. */
    method LinkOne(f: string, t: string, ghost mv: Moves, ghost done: seq<string>, ghost d: Disk, ghost g: seq<Op>)
      requires Listed(mv, done) && f in mv && mv[f] == t
      requires Did(d, g, LinkOps(mv, done)) && renameHead == Nodes(mv, done)
      modifies this`disk, this`renameHead, this`log
      ensures Listed(mv, done + [f])
      ensures Did(d, g, LinkOps(mv, done + [f])) && renameHead == Nodes(mv, done + [f])
    {
      LinkOpsSnoc(mv, done, f);
      Do(Link(f, t), d, g, LinkOps(mv, done));
      renameHead := renameHead + [RenameNode(f, t)];
    }

    /**
     `pkg_infodb_link_multiarch_files`; `failAt` is the number of links after
     which `link` fails, if it does.  The files linked are returned for reference.
     */
    method LinkFiles(listing: seq<string>, failAt: Option<nat>, ghost mv: Moves)
      returns (failed: bool, ghost done: seq<string>)
      requires renameHead == []
      requires forall f :: f in listing && Target(pk, f).Some? ==> f in mv && mv[f] == Target(pk, f).value
      modifies this`disk, this`renameHead, this`log
      ensures Listed(mv, done) && Did(old(disk), old(log), LinkOps(mv, done)) && renameHead == Nodes(mv, done)
      ensures !failed ==> done == Eligible(pk, listing) && (failAt.Some? ==> |done| <= failAt.value)
      ensures failed ==> failAt.Some? && |done| == failAt.value && done < Eligible(pk, listing)
    {
      hide Target, LinkOps, Eligible;
      ghost var d, g := disk, log;
      done := [];
      StartLinking(mv, listing, pk);
      var i := 0;
      while i < |listing|
        invariant 0 <= i <= |listing|
        invariant Eligible(pk, listing[..i]) == done && Listed(mv, done) && (failAt.Some? ==> |done| <= failAt.value)
        invariant Did(d, g, LinkOps(mv, done)) && renameHead == Nodes(mv, done)
      {
        EligibleStep(pk, listing, i);
        var t := Target(pk, listing[i]);
        if t.Some? {
          if failAt == Some(|renameHead|) {
            return true, done;
          }
          LinkOne(listing[i], t.value, mv, done, d, g);
          done := done + [listing[i]];
        }
        i := i + 1;
      }
      assert listing[..i] == listing;
      return false, done;
    }

    /** `pkg_infodb_unlink_monoarch_files`. */
    method UnlinkFiles(ghost mv: Moves, ghost files: seq<string>)
      requires Listed(mv, files) && renameHead == Nodes(mv, files)
      modifies this`disk, this`renameHead, this`log
      ensures Did(old(disk), old(log), UnlinkOps(files)) && renameHead == []
      decreases |files|
    {
      ghost var d, g := disk, log;
      ghost var k := |files|;
      ghost var done := [];
      assert files[..k] == files;
      while renameHead != []
        invariant 0 <= k <= |files| && renameHead == Nodes(mv, files)[..k]
        invariant Did(d, g, done) && UnlinkOps(files) == done + UnlinkOps(files[..k])
        decreases |renameHead|
      {
        var n := |renameHead| - 1;
        assert files[..k][..k - 1] == files[..k - 1];
        Do(Unlink(renameHead[n].old_), d, g, done);
        done := done + [Unlink(files[k - 1])];
        renameHead := renameHead[..n];
        k := k - 1;
      }
      assert done + [] == done;
    }

    /** Restores the old name of one file and drops its new one. */
    method AbortOne(node: RenameNode, ghost d: Disk, ghost g: seq<Op>, ghost done: seq<Op>)
      requires Did(d, g, done)
      modifies this`disk, this`log
      ensures Did(d, g, done + [Link(node.new_, node.old_)] + [Unlink(node.new_)])
    {
      Do(Link(node.new_, node.old_), d, g, done);
      Do(Unlink(node.new_), d, g, done + [Link(node.new_, node.old_)]);
    }

    /** `cu_abort_db_upgrade`. */
    method Abort(ghost mv: Moves, ghost files: seq<string>)
      requires Listed(mv, files) && renameHead == Nodes(mv, files)
      modifies this`disk, this`renameHead, this`log
      ensures Did(old(disk), old(log), AbortOps(mv, files)) && renameHead == []
    {
      hide AbortOps, ApplyAll;
      ghost var d, g := disk, log;
      ghost var k := |files|;
      ghost var done := [];
      assert files[..k] == files;
      AbortStart(mv, files, d);
      while renameHead != []
        invariant 0 <= k <= |files| && renameHead == Nodes(mv, files)[..k]
        invariant Did(d, g, done) && AbortOps(mv, files) == done + AbortOps(mv, files[..k])
        decreases |renameHead|
      {
        var n := |renameHead| - 1;
        AbortOpsStep(mv, files, k);
        ghost var f := files[k - 1];
        AbortOne(renameHead[n], d, g, done);
        done := done + [Link(mv[f], f)] + [Unlink(mv[f])];
        renameHead := renameHead[..n];
        k := k - 1;
      }
      Do(UnlinkFormatNew, d, g, done);
    }

    /**
     `pkg_infodb_upgrade_to_multiarch`.  `failAt` is the file at which linking fails,
     or the number of them all if it is the writing of the new format that fails;
     the abort handler covers both.
     */
    method UpgradeToMultiarch(listing: seq<string>, failAt: Option<nat>)
      returns (failed: bool, ghost done: seq<string>)
      requires renameHead == [] && forall f :: f in listing && Target(pk, f).Some? ==> f in disk.dir
      modifies this`disk, this`renameHead, this`log
      ensures renameHead == []
      ensures var mv := MovesOf(pk, old(disk).dir);
        && Listed(mv, done)
        && (failed <==> failAt.Some? && failAt.value <= |Eligible(pk, listing)|)
        && (!failed ==> done == Eligible(pk, listing) && disk == ApplyAll(old(disk), UpgradeOps(mv, done)))
        && (failed ==> failAt == Some(|done|) && done <= Eligible(pk, listing))
        && (failed ==> disk == RollBack(mv, old(disk), done, |AbortOps(mv, done)|))
    {
      hide Target, LinkOps, AbortOps, UnlinkOps, ApplyAll, Eligible;
      ghost var d, g := disk, log;
      ghost var mv := MovesOf(pk, disk.dir);
      DidNothing();
      Do(OpenFormatNew, d, g, []);
      ghost var d1, g1 := disk, log;
      failed, done := LinkFiles(listing, failAt, mv);
      if failed || failAt == Some(|renameHead|) {
        failed := true;
        Abort(mv, done);
        assert Prefix(AbortOps(mv, done), |AbortOps(mv, done)|) == AbortOps(mv, done);
      } else {
        ghost var d2, g2 := disk, log;
        DidNothing();
        Do(WriteFormatNew, d2, g2, []);
        UnlinkFiles(mv, done);
        ghost var d3, g3 := disk, log;
        DidNothing();
        Do(RenameFormat, d3, g3, []);
        UpgradeParts(mv, d, done);
      }
    }

    lemma DidNothing()
      ensures Did(disk, log, [])
    { }

    /** `pkg_infodb_upgrade`: only when the format is old or an upgrade was interrupted. */
    method Upgrade(listing: seq<string>, failAt: Option<nat>) returns (failed: bool)
      requires renameHead == [] && forall f :: f in listing && Target(pk, f).Some? ==> f in disk.dir
      modifies this`disk, this`renameHead, this`log
      ensures renameHead == []
      ensures failed <==> Outdated(old(disk)) && failAt.Some? && failAt.value <= |Eligible(pk, listing)|
      ensures !failed ==> disk == Step(pk, old(disk), Event(listing, Completes))
      ensures failed ==> failAt.Some? && exists m ::
        disk == Step(pk, old(disk), Event(listing, RollsBack(failAt.value, m)))
    {
      hide Target, LinkOps, AbortOps, UnlinkOps, ApplyAll, UpgradeOps, Eligible, RollBack, MovesOf;
      if Outdated(disk) {
        ghost var d, mv := disk, MovesOf(pk, disk.dir);
        EligibleListed(pk, listing, disk.dir);
        ghost var done;
        failed, done := UpgradeToMultiarch(listing, failAt);
        if failed {
          assert Prefix(Eligible(pk, listing), |done|) == done;
          assert disk == Step(pk, d, Event(listing, RollsBack(failAt.value, |AbortOps(mv, done)|)));
        }
      } else {
        failed := false;
      }
    }
  }

  predicate Outdated(d: Disk) { ReadFormat(d) < 1 || !d.formatNew.NoFile? }

  lemma EligibleListed(pk: Packages, listing: seq<string>, dir: map<string, nat>)
    requires forall f :: f in listing && Target(pk, f).Some? ==> f in dir
    ensures Listed(MovesOf(pk, dir), Eligible(pk, listing))
  { }

  lemma AbortStart(mv: Moves, files: seq<string>, d: Disk)
    requires Listed(mv, files)
    ensures ApplyAll(d, []) == d && AbortOps(mv, []) == [UnlinkFormatNew]
    ensures AbortOps(mv, files) == [] + AbortOps(mv, files)
  { }

  lemma AbortOpsStep(mv: Moves, files: seq<string>, k: nat)
    requires Listed(mv, files) && 0 < k <= |files|
    ensures var f := files[k - 1];
      AbortOps(mv, files[..k]) == [Link(mv[f], f)] + ([Unlink(mv[f])] + AbortOps(mv, files[..k - 1]))
  {
    assert files[..k][..k - 1] == files[..k - 1];
  }

  lemma StartLinking(mv: Moves, listing: seq<string>, pk: Packages)
    ensures Eligible(pk, listing[..0]) == [] && Listed(mv, []) && LinkOps(mv, []) == []
  { }

  lemma {:induction false} EligibleConcat(pk: Packages, a: seq<string>, b: seq<string>)
    ensures Eligible(pk, a + b) == Eligible(pk, a) + Eligible(pk, b)
    decreases |a|
  {
    hide Target;
    if a == [] {
      assert a + b == b;
    } else {
      assert (a + b)[1..] == a[1..] + b;
      EligibleConcat(pk, a[1..], b);
    }
  }

  lemma EligibleStep(pk: Packages, listing: seq<string>, i: nat)
    requires i < |listing|
    ensures Eligible(pk, listing[..i + 1])
         == Eligible(pk, listing[..i]) + (if Target(pk, listing[i]).Some? then [listing[i]] else [])
    ensures Eligible(pk, listing[..i + 1]) <= Eligible(pk, listing)
  {
    hide Target, Eligible;
    assert listing[..i + 1] == listing[..i] + [listing[i]];
    EligibleConcat(pk, listing[..i], [listing[i]]);
    EligibleOne(pk, listing[i]);
    assert listing == listing[..i + 1] + listing[i + 1..];
    EligibleConcat(pk, listing[..i + 1], listing[i + 1..]);
  }

  lemma EligibleOne(pk: Packages, f: string)
    ensures Eligible(pk, [f]) == if Target(pk, f).Some? then [f] else []
  {
    hide Target;
    assert [f][1..] == [];
  }

  lemma {:induction false} LinkOpsSnoc(mv: Moves, files: seq<string>, f: string)
    requires Listed(mv, files) && f in mv
    ensures Listed(mv, files + [f]) && LinkOps(mv, files + [f]) == LinkOps(mv, files) + [Link(f, mv[f])]
    decreases |files|
  {
    if files == [] {
      assert [f][1..] == [];
    } else {
      assert (files + [f])[1..] == files[1..] + [f];
      LinkOpsSnoc(mv, files[1..], f);
    }
  }
}
