/**
 update-alternatives at work on one link group: the commands that pick a choice,
 and `alternative_update`, which prepares, saves and commits
 (utils/update-alternatives.c).
 */
module AltManager {
  import opened Text
  import opened Alternatives
  import opened AltDb
  import opened AltAdmin
  import AltDbFile

  class Manager {
    const env: Env
    var fs: Fs
    var group: Group
    var modified: bool
    var commitOps: seq<CommitOp>
    var admin: Option<string>   // text of the administrative file

    /** Between operations: nothing pending, and paths and choices pairwise distinct. */
    ghost predicate Ok()
      reads this
    {
      commitOps == [] && PathsDistinct(env, group) && DistinctChoices(group.choices)
    }

    constructor (e: Env, files: Fs, a: Group)
      requires PathsDistinct(e, a) && DistinctChoices(a.choices)
      ensures Ok() && env == e && fs == files && group == a && !modified && admin.None?
    {
      env, fs, group, modified, commitOps, admin := e, files, a, false, [], None;
    }

    // ---- preparing and committing ----

    /** `alternative_prepare_install_single`, after the entries `done` have been prepared. */
    method PrepareSingle(name: string, link: string, file: string, ghost fs0: Fs, ghost done: seq<Entry>)
      requires fs == Prepared(fs0, done) && commitOps == OpsOf(done)
      requires !Temporary(done, link) && link != Tmp(AltPath(env, name))
      modifies this`fs, this`commitOps
      ensures var all := done + PlanSingle(env, fs0, name, link, file);
        fs == Prepared(fs0, all) && commitOps == OpsOf(all)
    {
      hide Tmp, AltPath;
      var fn := AltPath(env, name);
      PrepareOnlyTemporary(fs0, done, link);
      PreparedSnoc(fs0, done, Set(fn, file));
      fs := fs[Tmp(fn) := Symlink(file)];
      commitOps := commitOps + [Mv(Tmp(fn), fn)];
      assert PathNeedsUpdate(env, fs, link, fn) == PathNeedsUpdate(env, fs0, link, fn);
      if PathNeedsUpdate(env, fs, link, fn) {
        PreparedSnoc(fs0, done + [Set(fn, file)], Set(link, fn));
        fs := fs[Tmp(link) := Symlink(fn)];
        commitOps := commitOps + [Mv(Tmp(link), link)];
        assert done + PlanSingle(env, fs0, name, link, file) == done + [Set(fn, file)] + [Set(link, fn)];
      } else {
        assert done + PlanSingle(env, fs0, name, link, file) == done + [Set(fn, file)];
      }
    }

    /** The slave part of `alternative_prepare_install`. */
    method PrepareSlave(f: Fileset, sl: SlaveLink, ghost fs0: Fs, ghost done: seq<Entry>)
      requires fs == Prepared(fs0, done) && commitOps == OpsOf(done)
      requires !Temporary(done, sl.link) && sl.link != Tmp(AltPath(env, sl.name))
      modifies this`fs, this`commitOps
      ensures var all := done + PlanSlave(env, fs0, f, sl);
        fs == Prepared(fs0, all) && commitOps == OpsOf(all)
    {
      if CanInstall(env, f, sl.name) {
        PrepareSingle(sl.name, sl.link, SlaveFile(f.slaves, sl.name).value, fs0, done);
      } else {
        hide Tmp, AltPath, CanInstall, OpsOf;
        PrepareOnlyTemporary(fs0, done, sl.link);
        ghost var d := done;
        if CanRemove(env, fs, sl.link) {
          PreparedSnoc(fs0, done, Remove(sl.link));
          OpsSnoc(done, Remove(sl.link));
          commitOps := commitOps + [Rm(sl.link)];
          d := done + [Remove(sl.link)];
        }
        PreparedSnoc(fs0, d, Remove(AltPath(env, sl.name)));
        OpsSnoc(d, Remove(AltPath(env, sl.name)));
        commitOps := commitOps + [Rm(AltPath(env, sl.name))];
        assert done + PlanSlave(env, fs0, f, sl) == d + [Remove(AltPath(env, sl.name))];
      }
    }

    /** The loop over the slaves in `alternative_prepare_install`. */
    method PrepareSlaves(f: Fileset, ghost fs0: Fs, ghost first: seq<Entry>)
      requires PathsDistinct(env, group) && first == PlanSingle(env, fs0, group.masterName, group.masterLink, f.masterFile)
      requires fs == Prepared(fs0, first) && commitOps == OpsOf(first)
      modifies this`fs, this`commitOps
      ensures fs == Prepared(fs0, Plan(env, fs0, group, f)) && commitOps == OpsOf(Plan(env, fs0, group, f))
    {
      hide *;
      ghost var whole := Plan(env, fs0, group, f);
      ghost var done := first;
      var i := 0;
      StartSlaves(env, fs0, f, group);
      while i < |group.slaves|
        invariant 0 <= i <= |group.slaves|
        invariant fs == Prepared(fs0, done) && commitOps == OpsOf(done)
        invariant whole == done + PlanSlaves(env, fs0, f, group.slaves[i..])
      {
        var sl := group.slaves[i];
        SlaveSeparate(env, fs0, group, f, done, i);
        PlanSlavesStep(env, fs0, f, group.slaves, done, i);
        PrepareSlave(f, sl, fs0, done);
        done := done + PlanSlave(env, fs0, f, sl);
        i := i + 1;
      }
      EndSlaves(env, fs0, f, group.slaves, done);
    }

    /** `alternative_prepare_install`. */
    method PrepareInstall(choice: string) returns (known: bool)
      requires Ok()
      modifies this`fs, this`commitOps
      ensures known <==> GetFileset(group.choices, choice).Some?
      ensures !known ==> fs == old(fs) && commitOps == []
      ensures known ==> var plan := Plan(env, old(fs), group, GetFileset(group.choices, choice).value);
        fs == Prepared(old(fs), plan) && commitOps == OpsOf(plan)
    {
      var found := GetFileset(group.choices, choice);
      if found.None? {
        return false;
      }
      hide PlanSingle, Plan, Tmp, AltPath, OpsOf, PathsDistinct, GetFileset, Temporary, DistinctChoices, Prepared;
      var f := found.value;
      ghost var fs0 := fs;
      MasterSeparate(env, group);
      StartPlan(fs0, group.masterLink);
      PrepareSingle(group.masterName, group.masterLink, choice, fs0, []);
      ghost var first := PlanSingle(env, fs0, group.masterName, group.masterLink, choice);
      assert [] + first == first;
      PrepareSlaves(f, fs0, first);
      return true;
    }

    /** `alternative_commit`. */
    method Commit()
      modifies this`fs, this`commitOps
      ensures fs == CommitAll(old(fs), old(commitOps)) && commitOps == []
    {
      ghost var start := fs;
      var i := 0;
      while i < |commitOps|
        invariant 0 <= i <= |commitOps| && commitOps == old(commitOps)
        invariant fs == CommitAll(start, commitOps[..i])
      {
        CommitSnoc(start, commitOps, i);
        fs := Commit1(fs, commitOps[i]);
        i := i + 1;
      }
      assert commitOps[..i] == commitOps;
      commitOps := [];
    }

    /** `alternative_needs_update`. */
    method Check(current: Option<string>) returns (reason: Reason)
      ensures reason == NeedsUpdate(env, fs, group, current)
    {
      if BrokenSymlink(fs, group.masterLink, AltPath(env, group.masterName)) || current.None? {
        return LinkBroken;
      }
      var found := GetFileset(group.choices, current.value);
      if found.None? {
        return UpdateNo;
      }
      hide BrokenSlave;
      var f := found.value;
      reason := UpdateNo;
      var i := 0;
      while i < |group.slaves|
        invariant 0 <= i <= |group.slaves|
        invariant forall j :: 0 <= j < i ==> BrokenSlave(env, fs, f, group.slaves[j]) ==> group.slaves[j].updated
        invariant reason.SlaveChanged? <==> exists j :: 0 <= j < i && BrokenSlave(env, fs, f, group.slaves[j])
        invariant reason.UpdateNo? || reason.SlaveChanged?
      {
        if BrokenSlave(env, fs, f, group.slaves[i]) {
          if !group.slaves[i].updated {
            assert group.slaves[i] in group.slaves;
            return LinkBroken;
          }
          reason := SlaveChanged;
        }
        i := i + 1;
      }
      if reason.SlaveChanged? {
        var j :| 0 <= j < i && BrokenSlave(env, fs, f, group.slaves[j]);
        assert group.slaves[j] in group.slaves;
      }
    }

    /** `alternative_save`: the file is replaced, unless a line would contain a newline, which is an error. */
    method Save() returns (ok: bool)
      modifies this`group, this`admin
      ensures group == Saved(old(group)) && (ok <==> AltDbFile.Writable(group))
      ensures admin == if ok then Some(Print(group)) else old(admin)
    {
      var saved, text := AltDbFile.Save(group);
      group, ok := saved, text.Ok?;
      if ok {
        admin := Some(text.value);
      }
    }

    /** `alternative_set_status`. */
    method SetMode(m: Mode)
      modifies this`group, this`modified
      ensures group == old(group).(status := m) && (modified <==> old(modified) || old(group).status != m || m.Unknown?)
    {
      if group.status.Unknown? || m != group.status {
        modified := true;
      }
      group := group.(status := m);
    }

    /** `alternative_remove_files`. */
    method RemoveFiles()
      modifies this`fs, this`admin
      ensures admin.None? && Cleared(old(fs), fs, Managed(env, group), Clean(env, old(fs), group))
      ensures PathsDistinct(env, group) ==> NonLinksStay(env, old(fs), fs, group)
    {
      hide *;
      ghost var fs0 := fs;
      RemoveLink(group.masterLink, AltPath(env, group.masterName));
      ClearingStart(env, fs0, fs, group);
      var i := 0;
      ghost var done := [group.masterLink, AltPath(env, group.masterName)];
      while i < |group.slaves|
        invariant 0 <= i <= |group.slaves| && Clearing(env, fs0, fs, group, done, i)
      {
        var sl := group.slaves[i];
        ghost var fs1 := fs;
        RemoveLink(sl.link, AltPath(env, sl.name));
        ClearingNext(env, fs0, fs1, fs, group, done, i);
        done := done + [sl.link, AltPath(env, sl.name)];
        i := i + 1;
      }
      ClearingEnd(env, fs0, fs, group, done);
      admin := None;
    }

    /** One pair of links and their temporaries. */
    method RemoveLink(link: string, alt: string)
      modifies this`fs
      ensures PairRemoved(env, old(fs), fs, link, alt)
    {
      hide Tmp;
      TmpInjective(link, link);
      fs := fs - {Tmp(link)};
      if CanRemove(env, fs, link) {
        fs := fs - {link};
      }
      fs := fs - {Tmp(alt)};
      fs := fs - {alt};
    }

    /** The decision part of `alternative_update`: which choice is prepared for installation, if any. */
    method Settle(current: Option<string>, choice: Option<string>) returns (ok: bool, picked: Option<Fileset>)
      requires Ok() && group.choices != []
      modifies this`fs, this`commitOps, this`group, this`modified
      ensures ok <==> !Wanted(current, choice) || GetFileset(group.choices, choice.value).Some?
      ensures group == old(group).(status := ModeAfter(env, old(fs), old(group), current, choice))
      ensures modified <==> old(modified) || group.status != old(group).status
      ensures !ok ==> picked.None?
      ensures picked.None? ==> fs == old(fs) && commitOps == []
      ensures picked.Some? ==> var plan := Plan(env, old(fs), old(group), picked.value);
        fs == Prepared(old(fs), plan) && commitOps == OpsOf(plan)
      ensures ok ==> Settled(env, old(fs), old(group), current, choice, picked)
    {
      hide Plan, Prepared, OpsOf, NeedsUpdate, IsBest, PathsDistinct, DistinctChoices, GetFileset;
      ok, picked := true, None;
      if Wanted(current, choice) {
        ok := PrepareInstall(choice.value);
        if ok { picked := GetFileset(group.choices, choice.value); }
        return;
      }
      var reason := Check(current);
      if reason.UpdateNo? || current.None? {
        return;
      }
      picked := GetFileset(group.choices, current.value);
      if picked.None? {
        picked := GetBest(group.choices, current);
        BestRegistered(group.choices, current, picked.value);
        StatusPlan(env, fs, group, picked.value);
        SetMode(Auto);
      }
      var known := PrepareInstall(picked.value.masterFile);
    }

    /**
     `alternative_update`.  Without choices everything goes.  Otherwise see
     `Converged`; the file is written exactly if something was modified; and when
     the group checked out before, no link changes.  An unknown request, or a group
     that cannot be written, is an error that leaves every link alone.
     */
    method Update(current: Option<string>, choice: Option<string>) returns (ok: bool)
      requires Ok() && !Blocked(env, fs, group) && current == Current(env, fs, group)
      modifies this`fs, this`commitOps, this`group, this`modified, this`admin
      ensures old(group).choices == [] ==>
        ok && admin.None? && Cleared(old(fs), fs, Managed(env, old(group)), Clean(env, old(fs), old(group)))
      ensures old(group).choices != [] ==>
        (ok <==> (!Wanted(current, choice) || GetFileset(old(group).choices, choice.value).Some?)
                 && (modified ==> AltDbFile.Writable(Saved(old(group)))))
      ensures !ok ==> forall p :: p in Managed(env, old(group)) ==> Look(fs, p) == Look(old(fs), p)
      ensures ok && old(group).choices != [] && Clean(env, old(fs), old(group)) ==>
        Converged(env, old(fs), old(group), current, choice, fs, group)
      ensures ok && old(group).choices != [] && !Wanted(current, choice) && NeedsUpdate(env, old(fs), old(group), current) == UpdateNo ==>
        fs == old(fs)
      ensures ok && old(group).choices != [] ==>
        var mode := ModeAfter(env, old(fs), old(group), current, choice);
        && (modified <==> old(modified) || mode != old(group).status)
        && group == Recorded(old(group), mode, modified) && admin == (if modified then Some(Print(group)) else old(admin))
        && Updates(env, old(fs), old(group), current, choice, fs, group)
      ensures ok ==> Ok()
      ensures NonLinksStay(env, old(fs), fs, old(group))
    {
      hide Plan, Prepared, OpsOf, NeedsUpdate, IsBest, Clean, PathsDistinct, DistinctChoices, Managed, GetFileset, Saved, Settled,
           Current, AltDbFile.Writable, Look, Converged, Cleared, Print, Updates, Blocked, ModeAfter, NonLinksStay;
      NonLinksSame(env, fs, group);
      if group.choices == [] {
        RemoveFiles();
        return true;
      }
      ghost var fs0, g := fs, group;
      var picked;
      ok, picked := Settle(current, choice);
      if !ok {
        return;
      }
      RecordedKeeps(env, g, group.status, modified);
      if modified {
        StatusWritable(g, group);
        ok := Save();
        if !ok {
          PreparedKeeps(env, fs0, fs, g, picked);
          ManagedNonLinks(env, fs0, fs, g);
          return;
        }
      }
      Commit();
      CommitNothing(fs0);
      ghost var plan := if picked.Some? then Plan(env, fs0, g, picked.value) else [];
      assert picked.Some? ==> fs == Performed(fs0, plan) by { hide *; PerformedIs(fs0, plan); }
      PickedKeepsNonLinks(env, fs0, g, picked);
      UpdateConverges(env, fs0, fs, g, current, choice, picked, group);
      UpdatesBy(env, fs0, fs, g, current, choice, picked, group, modified);
    }

    /**
     Running an update again, with no request or the choice that is current now,
     changes nothing: whatever the first one found and did, and whatever stands in
     the way of the links.
     */
    method UpdateAgain(ghost fs0: Fs, ghost a: Group, ghost current: Option<string>, ghost choice: Option<string>, again: Option<string>)
      returns (ok: bool)
      requires Ok() && !Blocked(env, fs, group) && group.choices != []
      requires Updates(env, fs0, a, current, choice, fs, group)
      requires again.None? || again == Current(env, fs, group)
      modifies this`fs, this`commitOps, this`group, this`modified, this`admin
      ensures ok <==> (modified ==> AltDbFile.Writable(Saved(old(group))))
      ensures ok ==> fs == old(fs) && Ok()
    {
      hide *;
      ghost var fs1, a1 := fs, group;
      var now := Current(env, fs, group);
      assert !Wanted(now, again) by { NotWanted(now, again); }
      ok := Update(now, again);
      if ok { SecondRun(env, fs0, a, current, choice, fs1, a1, again, fs, group); }
    }

    // ---- commands ----

    /** `alternative_select_mode`. */
    method SelectMode(current: Option<string>)
      modifies this`group, this`modified
      ensures group == old(group).(status := ModeFor(env, old(group), current))
      ensures modified <==> old(modified) || group.status != old(group).status
    {
      if current.None? {
        SetMode(Auto);
      } else if GetFileset(group.choices, current.value).None? {
        if current.value !in env.present {
          SetMode(Auto);
        } else if group.status != Manual {
          SetMode(Manual);
        }
      }
    }

    /** --auto (`alternative_set_auto`): the best choice gets installed. */
    method SetAuto() returns (ok: bool)
      requires Ok()
      modifies this`fs, this`commitOps, this`group, this`modified, this`admin
      ensures Blocked(env, old(fs), old(group)) ==> !ok && fs == old(fs) && admin == old(admin)
      ensures !Blocked(env, old(fs), old(group)) && AltDbFile.Writable(Saved(old(group))) ==> ok
      ensures ok ==> Ok()
      ensures ok && old(group).choices != [] ==>
        && (modified <==> old(modified) || FlipsTo(env, old(fs), old(group), Auto))
        && RecordedAs(old(group), Auto, modified, group, old(admin), admin)
      ensures ok && old(group).choices != [] && Clean(env, old(fs), old(group)) ==>
        BestInstalled(env, fs, old(group), Current(env, old(fs), old(group)))
      ensures NonLinksStay(env, old(fs), fs, old(group))
    {
      hide IsBest, Installed, Clean, PathsDistinct, DistinctChoices, GetFileset, NeedsUpdate, Managed, Current, ModeFor, BestInstalled,
           Saved, AltDbFile.Writable, Print, Look, Updates, ModeAfter, Converged, Blocked, Cleared, Recorded, NonLinksStay;
      NonLinksSame(env, fs, group);
      if Blocked(env, fs, group) {
        return false;
      }
      var current := Current(env, fs, group);
      ghost var fs0, g := fs, group;
      SelectMode(current);
      SetMode(Auto);
      ModeOnly(env, fs, g, group);
      var best := GetBest(group.choices, current);
      if best.None? {
        ghost var h := group;
        ok := Update(current, None);
        SameNonLinks(env, fs0, fs, g, h);
      } else {
        BestKnown(group.choices, current, best.value);
        StatusWritable(g, group);
        ghost var h := group;
        ModeStays(env, fs, h, current, best.value.masterFile);
        ok := Update(current, Some(best.value.masterFile));
        SameNonLinks(env, fs0, fs, g, h);
        RecordedOnly(g, h, Auto, modified);
        if ok && Clean(env, fs0, g) {
          GotInstalled(env, fs0, h, current, best.value.masterFile, fs, group);
          BestIsInstalled(env, fs, g, current, best.value);
        }
      }
    }

    /** --set (`alternative_set_manual`): a registered choice gets installed, and the group is manual. */
    method SetManual(path: string) returns (ok: bool)
      requires Ok()
      modifies this`fs, this`commitOps, this`group, this`modified, this`admin
      ensures ok ==> GetFileset(old(group).choices, path).Some? && Ok()
      ensures Blocked(env, old(fs), old(group)) ==> !ok && fs == old(fs) && admin == old(admin)
      ensures
        !Blocked(env, old(fs), old(group)) && GetFileset(old(group).choices, path).Some? && AltDbFile.Writable(Saved(old(group))) ==> ok
      ensures GetFileset(old(group).choices, path).None? ==> fs == old(fs) && admin == old(admin)
      ensures ok ==>
        && (modified <==> old(modified) || FlipsTo(env, old(fs), old(group), Manual))
        && RecordedAs(old(group), Manual, modified, group, old(admin), admin)
      ensures ok && Clean(env, old(fs), old(group)) ==> Installed(env, fs, old(group), GetFileset(old(group).choices, path).value)
      ensures NonLinksStay(env, old(fs), fs, old(group))
    {
      hide Installed, Clean, PathsDistinct, DistinctChoices, NeedsUpdate, Managed, Current, ModeFor, GetFileset,
           Saved, AltDbFile.Writable, Print, Look, Updates, ModeAfter, Converged, Blocked, Cleared, Recorded, NonLinksStay;
      NonLinksSame(env, fs, group);
      if Blocked(env, fs, group) {
        return false;
      }
      var current := Current(env, fs, group);
      ghost var fs0, g := fs, group;
      SelectMode(current);
      if GetFileset(group.choices, path).None? {
        return false;
      }
      SetMode(Manual);
      ModeOnly(env, fs, g, group);
      NotEmpty(group.choices, path);
      StatusWritable(g, group);
      ghost var h := group;
      ModeStays(env, fs, h, current, path);
      ok := Update(current, Some(path));
      SameNonLinks(env, fs0, fs, g, h);
      RecordedOnly(g, h, Manual, modified);
      if ok && Clean(env, fs0, g) {
        GotInstalled(env, fs0, h, current, path, fs, group);
        ModeInstalled(env, fs, g, Manual, GetFileset(g.choices, path).value);
      }
    }

    /**
     --remove (`alternative_remove`): removing the current choice installs the
     best of the others, in auto mode; removing another one leaves the rest to an
     update without a request; removing the last one removes every link.
     */
    method RemovePath(path: string) returns (ok: bool)
      requires Ok() && !group.status.Unknown?
      modifies this`fs, this`commitOps, this`group, this`modified, this`admin
      ensures Blocked(env, old(fs), old(group)) ==> !ok && fs == old(fs) && admin == old(admin)
      ensures
        !Blocked(env, old(fs), old(group)) && AltDbFile.Writable(Saved(old(group).(choices := Without(old(group).choices, path)))) ==> ok
      ensures ok ==> Ok()
      ensures var rest := Without(old(group).choices, path);
        && (rest == [] && !Blocked(env, old(fs), old(group)) ==> ok && admin.None?)
        && (ok && rest == [] && Clean(env, old(fs), old(group)) ==> forall p :: p in Managed(env, old(group)) ==> p !in fs)
        && (ok && rest != [] && Current(env, old(fs), old(group)) == Some(path) && Clean(env, old(fs), old(group)) ==>
              BestInstalled(env, fs, old(group).(choices := rest), Some(path)))
      ensures ok && Without(old(group).choices, path) != [] ==>
        var current := Current(env, old(fs), old(group));
        var less := Lessened(env, old(group), current, path);
        var mode := if current == Some(path) then Auto else ModeAfter(env, old(fs), less, current, None);
        && RecordedAs(less, mode, modified, group, old(admin), admin)
        && (modified <==> || old(modified) || GetFileset(old(group).choices, path).Some?
                          || ModeFor(env, old(group), current) != old(group).status
                          || less.status != ModeFor(env, old(group), current) || mode != less.status)
        && (current != Some(path) ==> Updates(env, old(fs), less, current, None, fs, group))
      ensures NonLinksStay(env, old(fs), fs, old(group))
    {
      hide IsBest, Installed, Clean, PathsDistinct, DistinctChoices, GetFileset, NeedsUpdate, Managed, Current, BestInstalled, Without,
           Saved, AltDbFile.Writable, Print, Look, Updates, ModeAfter, Converged, Blocked, Cleared, Recorded, ModeFor, NonLinksStay;
      NonLinksSame(env, fs, group);
      if Blocked(env, fs, group) {
        return false;
      }
      var current := Current(env, fs, group);
      ghost var fs0, g := fs, group;
      SelectMode(current);
      RemoveChoice(path);
      ghost var less := g.(choices := group.choices);
      ChoicesOnly(env, fs, g, less);
      var choice: Option<string> := None;
      ghost var b: Option<Fileset> := None;
      ModeKnown(env, g, current);
      if current == Some(path) {
        if group.status == Manual {
          SetMode(Auto);
        }
        var best := GetBest(group.choices, current);
        if best.Some? {
          BestKnown(group.choices, current, best.value);
          choice := Some(best.value.masterFile);
          b := best;
          ModeStays(env, fs, group, current, best.value.masterFile);
        }
      }
      ModeOnly(env, fs, less, group);
      StatusWritable(less, group);
      ghost var h := group;
      ok := Update(current, choice);
      SameNonLinks(env, fs0, fs, g, h);
      if ok && b.Some? && Clean(env, fs0, g) {
        GotInstalled(env, fs0, h, current, b.value.masterFile, fs, group);
        BestIsInstalled(env, fs, less, current, b.value);
      }
      if ok && h.choices == [] && Clean(env, fs0, g) { ClearedAll(fs0, fs, Managed(env, g)); }
    }

    /** `alternative_remove_choice`. */
    method RemoveChoice(path: string)
      modifies this`group, this`modified
      ensures group == old(group).(choices := Without(old(group).choices, path))
      ensures modified <==> old(modified) || GetFileset(old(group).choices, path).Some?
    {
      if GetFileset(group.choices, path).Some? {
        modified := true;
      } else {
        WithoutUnknown(group.choices, path);
      }
      group := group.(choices := Without(group.choices, path));
    }

    /** `alternative_evolve_slave`: a slave link that changes place moves along, or goes if it leads nowhere. */
    method EvolveSlave(current: Option<string>, sl: SlaveLink, f: Fileset) returns (r: SlaveLink)
      modifies this`fs
      ensures r.name == sl.name && r.link == sl.link
      ensures r.updated <==> sl.updated || Moves(old(fs), group.slaves, sl)
      ensures fs == AfterSlave(env, old(fs), group.slaves, current, sl, f)
      ensures LinksOnly(old(fs), fs, group, sl.link)
    {
      var found := FindSlave(group.slaves, sl.name);
      if found.None? {
        return sl.(updated := true);
      }
      r := sl;
      var was := found.value.link;
      var file := if current == Some(f.masterFile) then SlaveFile(f.slaves, sl.name) else ReadLink(fs, AltPath(env, sl.name));
      if was != sl.link && Look(fs, was).Some? && fs[was].Symlink? {
        if file.Some? && file.value in env.present {
          fs := (fs - {was})[sl.link := fs[was]];
        } else {
          fs := fs - {was};
        }
        r := r.(updated := true);
      }
    }

    /** `alternative_evolve`: the master link moves, and the slaves are merged. */
    method Evolve(b: Group, current: Option<string>, f: Fileset)
      modifies this`fs, this`group, this`modified
      ensures group.(slaves := Plain(group.slaves))
           == old(group).(masterLink := b.masterLink, slaves := Plain(Merge(old(group).slaves, b.slaves)))
      ensures modified <==> old(modified) || old(group).masterLink != b.masterLink
      ensures var fs1 := AfterMaster(old(fs), old(group).masterLink, b.masterLink);
        fs == AfterSlaves(env, fs1, old(group).slaves, current, b.slaves, f, |b.slaves|)
      ensures LinksChange(old(fs), fs, old(group), b)
    {
      hide AltPath, Plain, Merge, AddSlave, OwnsLink, HasLink, AfterSlave, AfterSlaves;
      ghost var g := group;
      OwnMaster(group);
      OwnMaster(b);
      if Look(fs, group.masterLink).Some? && fs[group.masterLink].Symlink? && group.masterLink != b.masterLink {
        fs := (fs - {group.masterLink})[b.masterLink := fs[group.masterLink]];
      }
      if group.masterLink != b.masterLink {
        modified := true;
      }
      group := group.(masterLink := b.masterLink);
      ghost var slaves := group.slaves;
      ghost var fs1 := fs;
      var i := 0;
      MergeNothing(slaves, b.slaves);
      NothingMoved(env, fs1, slaves, current, b.slaves, f);
      OwnsMoved(g, group, b);
      while i < |b.slaves|
        invariant 0 <= i <= |b.slaves|
        invariant group == g.(masterLink := b.masterLink, slaves := group.slaves)
        invariant Plain(group.slaves) == Plain(Merge(slaves, b.slaves[..i]))
        invariant modified <==> old(modified) || g.masterLink != b.masterLink
        invariant fs == AfterSlaves(env, fs1, slaves, current, b.slaves, f, i)
        invariant OwnsWithin(group, g, b)
        invariant LinksChange(old(fs), fs, g, b)
      {
        ghost var before := group;
        AfterSlavePlain(env, fs, before.slaves, Merge(slaves, b.slaves[..i]), current, b.slaves[i], f);
        AfterSlavesSnoc(env, fs1, slaves, current, b.slaves, f, i);
        var sl := EvolveSlave(current, b.slaves[i], f);
        group := group.(slaves := AddSlave(group.slaves, sl));
        MergeSnoc(slaves, b.slaves, i);
        AddSlavePlain(before.slaves, sl, Merge(slaves, b.slaves[..i]), b.slaves[i]);
        SlaveOwned(b, i);
        AddSlaveLinks(before, g, b, sl);
        i := i + 1;
      }
      assert b.slaves[..i] == b.slaves;
    }

    /**
     --install for an existing group (`alternative_install`): links move, the
     choice is added, and in auto mode the best choice gets installed.
     */
    method Install(b: Group, f: Fileset) returns (ok: bool)
      requires Ok() && Parseable(group) && Parseable(b) && Mergeable(group.slaves, b.slaves) && b.masterName == group.masterName
      requires PathsDistinct(env, Extended(group, b, f))
      modifies this`fs, this`commitOps, this`group, this`modified, this`admin
      ensures Blocked(env, old(fs), old(group)) ==> !ok && fs == old(fs) && admin == old(admin)
      ensures !Blocked(env, old(fs), old(group)) && AltDbFile.Writable(Saved(Extended(old(group), b, f))) ==> ok
      ensures ok ==> Ok()
      ensures ok ==>
        var current := Current(env, old(fs), old(group));
        var ext := Extended(old(group), b, f).(status := ModeFor(env, old(group), current));
        var mode := if ext.status == Auto then Auto
                    else ModeAfter(env, LinksMoved(env, old(fs), old(group), b, current, f), ext, current, None);
        Plained(group) == Plained(Saved(ext.(status := mode))) && admin == Some(Print(Saved(ext.(status := mode))))
      ensures ok && CleanBoth(env, old(fs), old(group), b) ==>
        var current := Current(env, old(fs), old(group));
        var ext := Extended(old(group), b, f);
        if ModeFor(env, old(group), current) == Auto then BestInstalled(env, fs, ext, current)
        else current.Some? && GetFileset(ext.choices, current.value).Some? ==>
          Installed(env, fs, ext, GetFileset(ext.choices, current.value).value)
      ensures !Blocked(env, old(fs), old(group)) ==>
        var current := Current(env, old(fs), old(group));
        NonLinksStay(env, LinksMoved(env, old(fs), old(group), b, current, f), fs, Extended(old(group), b, f))
    {
      hide IsBest, Installed, Clean, PathsDistinct, DistinctChoices, GetFileset, NeedsUpdate, Managed, Current, ModeFor,
           BestInstalled, Parseable, Mergeable, Merge, LinksChange, CleanBoth, AddChoice, Plain, Saved, AltDbFile.Writable, Print, Look,
           Updates, ModeAfter, Converged, Blocked, Cleared, Recorded, AfterSlaves, AfterMaster, Plained, NonLinksStay;
      if Blocked(env, fs, group) {
        return false;
      }
      var current := Current(env, fs, group);
      ghost var fs0, g := fs, group;
      SelectMode(current);
      ModeOnly(env, fs, g, group);
      ghost var g1 := group;
      Evolve(b, current, f);
      group := group.(choices := AddChoice(group.choices, f));
      modified := true;
      ghost var fs1, g2 := fs, group;
      ghost var ext := Extended(g, b, f).(status := g1.status);
      AddChoiceDistinct(g.choices, f);
      StatusLinks(fs0, fs, g, g1, b);
      Evolved(env, fs0, fs, g, b, f, group);
      PlainWritable(Extended(g, b, f), group);
      PlainMode(env, fs1, ext, g2, current);
      if group.status != Auto {
        ok := Update(current, None);
        PlainNonLinks(env, fs1, fs, Extended(g, b, f), g2);
        if ok { PlainRecorded(ext, g2, ModeAfter(env, fs1, g2, current, None)); }
        if ok && CleanBoth(env, fs0, g, b) && current.Some? && GetFileset(g2.choices, current.value).Some? {
          StaysInstalled(env, fs1, g2, current, fs, group);
          PlainInstalled(env, fs, Extended(g, b, f), g2, GetFileset(g2.choices, current.value).value);
        }
        return;
      }
      var best := GetBest(group.choices, current);
      BestKnown(group.choices, current, best.value);
      ModeStays(env, fs, g2, current, best.value.masterFile);
      ok := Update(current, Some(best.value.masterFile));
      PlainNonLinks(env, fs1, fs, Extended(g, b, f), g2);
      if ok { PlainRecorded(ext, g2, Auto); }
      if ok && CleanBoth(env, fs0, g, b) {
        GotInstalled(env, fs1, g2, current, best.value.masterFile, fs, group);
        PlainInstalled(env, fs, Extended(g, b, f), g2, best.value);
        BestIsInstalled(env, fs, Extended(g, b, f), current, best.value);
      }
    }

    /** --install for a group that does not exist yet: it is created, automatic, with its one choice installed. */
    method Create(b: Group, f: Fileset) returns (ok: bool)
      requires commitOps == [] && PathsDistinct(env, b)
      modifies this`fs, this`commitOps, this`group, this`modified, this`admin
      ensures Blocked(env, old(fs), b) ==> !ok && fs == old(fs) && admin == old(admin)
      ensures !Blocked(env, old(fs), b) && AltDbFile.Writable(Saved(b.(choices := [f]))) ==> ok
      ensures ok ==> group == Saved(b.(status := Auto, choices := [f])) && admin == Some(Print(group)) && Ok()
      ensures ok && Clean(env, old(fs), b) ==> Installed(env, fs, b, f)
      ensures NonLinksStay(env, old(fs), fs, b)
    {
      hide Installed, Clean, PathsDistinct, NeedsUpdate, Managed, Current, Saved, AltDbFile.Writable, Print,
           Updates, ModeAfter, Converged, Blocked, Cleared, NonLinksStay;
      NonLinksSame(env, fs, b);
      if Blocked(env, fs, b) {
        return false;
      }
      ghost var fs0 := fs;
      group := Group(b.masterName, b.masterLink, Auto, b.slaves, [f]);
      modified := true;
      ghost var g := group;
      SameLinks(env, fs, b, g);
      StatusWritable(b.(choices := [f]), g);
      var current := Current(env, fs, group);
      ModeStays(env, fs, group, current, f.masterFile);
      ok := Update(current, Some(f.masterFile));
      SameNonLinks(env, fs0, fs, b, g);
      SameLinks(env, fs, g, b);
      if ok && Clean(env, fs0, b) {
        GotInstalled(env, fs0, g, current, f.masterFile, fs, group);
        PlainInstalled(env, fs, b, g, f);
      }
    }
  }

  // ---- moving links ----

  /** `fsys_mv`. */
  function Renamed(fs: Fs, p: string, q: string): Fs
    requires p in fs
  {
    (fs - {p})[q := fs[p]]
  }

  predicate IsLink(fs: Fs, p: string) { p in fs && fs[p].Symlink? }

  /** A slave that is new, or whose old link is there and has to move. */
  ghost predicate Moves(fs: Fs, slaves: seq<SlaveLink>, sl: SlaveLink) {
    match FindSlave(slaves, sl.name)
    case None => true
    case Some(was) => was.link != sl.link && IsLink(fs, was.link)
  }

  function AfterMaster(fs: Fs, was: string, link: string): Fs {
    if was != link && IsLink(fs, was) then Renamed(fs, was, link) else fs
  }

  /** The old link of a slave is renamed if the file it is to lead to exists, and removed otherwise. */
  function AfterSlave(env: Env, fs: Fs, slaves: seq<SlaveLink>, current: Option<string>, sl: SlaveLink, f: Fileset): Fs {
    match FindSlave(slaves, sl.name)
    case None => fs
    case Some(was) =>
      if was.link == sl.link || !IsLink(fs, was.link) then fs
      else
        var file := if current == Some(f.masterFile) then SlaveFile(f.slaves, sl.name) else ReadLink(fs, AltPath(env, sl.name));
        if file.Some? && file.value in env.present then Renamed(fs, was.link, sl.link) else fs - {was.link}
  }

  function AfterSlaves(env: Env, fs: Fs, slaves: seq<SlaveLink>, current: Option<string>, news: seq<SlaveLink>, f: Fileset, n: nat): Fs
    requires n <= |news|
  {
    if n == 0 then fs
    else AfterSlave(env, AfterSlaves(env, fs, slaves, current, news, f, n - 1), Merge(slaves, news[..n - 1]), current, news[n - 1], f)
  }

  // ---- how far an installation may reach ----

  /** Nothing but a link turns up where something other than a link was not. */
  ghost predicate NoNewOther(fs: Fs, fs': Fs) {
    forall p :: Look(fs', p) == Some(Other) ==> Look(fs, p) == Some(Other)
  }

  ghost predicate LinksOnly(fs: Fs, fs': Fs, a: Group, link: string) {
    NoNewOther(fs, fs') && forall p :: Look(fs', p) != Look(fs, p) ==> OwnsLink(a, p) || p == link
  }

  ghost predicate LinksChange(fs: Fs, fs': Fs, a: Group, b: Group) {
    NoNewOther(fs, fs') && forall p :: Look(fs', p) != Look(fs, p) ==> OwnsLink(a, p) || OwnsLink(b, p)
  }

  ghost predicate OwnsWithin(h: Group, a: Group, b: Group) {
    forall l :: OwnsLink(h, l) ==> OwnsLink(a, l) || OwnsLink(b, l)
  }

  /** No link of either group is anything but a symbolic link, or --force was given. */
  ghost predicate CleanBoth(env: Env, fs: Fs, a: Group, b: Group) {
    env.force || forall p :: OwnsLink(a, p) || OwnsLink(b, p) ==> Look(fs, p) != Some(Other)
  }

  function ReadLink(fs: Fs, p: string): Option<string> {
    match Look(fs, p)
    case Some(Symlink(t)) => Some(t)
    case _ => None
  }

  /** `alternative_get_slave`. */
  function FindSlave(slaves: seq<SlaveLink>, name: string): (r: Option<SlaveLink>)
    ensures r.Some? ==> r.value in slaves && r.value.name == name
    ensures r.None? ==> forall sl :: sl in slaves ==> sl.name != name
  {
    if slaves == [] then None else if slaves[0].name == name then Some(slaves[0]) else FindSlave(slaves[1..], name)
  }

  /** The mode a command starts in, given the current choice. */
  function ModeFor(env: Env, a: Group, current: Option<string>): Mode {
    if current.None? then Auto
    else if GetFileset(a.choices, current.value).Some? then a.status
    else if current.value in env.present then Manual
    else Auto
  }

  /** A registered choice keeps the mode; a dangling or missing one makes it automatic, any other manual. */
  lemma ModeForIs(env: Env, a: Group, current: Option<string>)
    ensures current.None? ==> ModeFor(env, a, current) == Auto
    ensures current.Some? && (exists f :: f in a.choices && f.masterFile == current.value) ==> ModeFor(env, a, current) == a.status
    ensures current.Some? && (forall f :: f in a.choices ==> f.masterFile != current.value) ==>
      ModeFor(env, a, current) == if current.value in env.present then Manual else Auto
  { }

  /** A best choice is installed: of maximal priority, the current one winning ties, else the first one listed. */
  ghost predicate BestInstalled(env: Env, fs: Fs, a: Group, current: Option<string>) {
    exists b :: IsBest(a.choices, current, b) && Installed(env, fs, a, b)
  }

  /** The paths given are gone, with their temporaries, and nothing else; their links only if they were links, or forced. */
  ghost predicate Cleared(fs: Fs, fs': Fs, paths: seq<string>, clean: bool) {
    && (forall p :: p in fs' ==> p in fs && fs'[p] == fs[p])
    && (forall p :: p in fs && p !in fs' ==> p in paths || exists q :: q in paths && p == Tmp(q))
    && (clean ==> forall p :: p in paths ==> p !in fs')
    && (forall q :: q in paths ==> Tmp(q) !in fs')
  }

  /**
   What an update achieves.  The group passes a fresh check exactly if a choice
   was requested or something was current; a registered request is installed, a
   registered current choice is (still) installed; and a group with an unknown
   current choice that failed the check gets the best one, in auto mode.
   */
  ghost predicate Converged(env: Env, fs: Fs, a: Group, current: Option<string>, choice: Option<string>, fs': Fs, a': Group) {
    && (NeedsUpdate(env, fs', a', Current(env, fs', a')) == UpdateNo <==> choice.Some? || current.Some?)
    && (choice.Some? && GetFileset(a.choices, choice.value).Some? ==>
          Installed(env, fs', a, GetFileset(a.choices, choice.value).value))
    && (!Wanted(current, choice) && current.Some? && GetFileset(a.choices, current.value).Some? ==>
          Installed(env, fs', a, GetFileset(a.choices, current.value).value))
    && (!Wanted(current, choice) && current.Some? && GetFileset(a.choices, current.value).None?
        && NeedsUpdate(env, fs, a, current) != UpdateNo ==>
          BestInstalled(env, fs', a, current) && a'.status == Auto)
  }

  /** The mode an update leaves: an unknown current choice that fails the check is replaced, in auto mode. */
  ghost function ModeAfter(env: Env, fs: Fs, a: Group, current: Option<string>, choice: Option<string>): Mode {
    if !Wanted(current, choice) && current.Some? && GetFileset(a.choices, current.value).None?
       && NeedsUpdate(env, fs, a, current) != UpdateNo
    then Auto else a.status
  }

  /** An update makes a group automatic only for an unknown current choice that the master link does not lead to. */
  lemma ModeAfterIs(env: Env, fs: Fs, a: Group, current: Option<string>, choice: Option<string>)
    ensures (choice.Some? && choice != current) || current.None? ==> ModeAfter(env, fs, a, current, choice) == a.status
    ensures current.Some? && (exists f :: f in a.choices && f.masterFile == current.value) ==>
      ModeAfter(env, fs, a, current, choice) == a.status
    ensures (choice.None? || choice == current) && current.Some? && (forall f :: f in a.choices ==> f.masterFile != current.value) ==>
      ModeAfter(env, fs, a, current, choice)
      == if Look(fs, a.masterLink) == Some(Symlink(env.altdir + "/" + a.masterName)) then a.status else Auto
  { }

  /** The group an update leaves: as it is written, if it is. */
  function Recorded(a: Group, mode: Mode, modified: bool): Group {
    if modified then Saved(a.(status := mode)) else a.(status := mode)
  }

  /** What an update does to the links and the group. */
  ghost predicate Updates(env: Env, fs: Fs, a: Group, current: Option<string>, choice: Option<string>, fs': Fs, a': Group) {
    && PathsDistinct(env, a) && DistinctChoices(a.choices) && current == Current(env, fs, a)
    && (Wanted(current, choice) ==> GetFileset(a.choices, choice.value).Some?)
    && (exists picked :: Settled(env, fs, a, current, choice, picked) && fs' == Picked(env, fs, a, picked))
    && exists modified :: a' == Recorded(a, ModeAfter(env, fs, a, current, choice), modified)
  }

  function Picked(env: Env, fs: Fs, a: Group, picked: Option<Fileset>): Fs {
    if picked.Some? then Performed(fs, Plan(env, fs, a, picked.value)) else fs
  }

  /** A requested choice that is not the current one. */
  predicate Wanted(current: Option<string>, choice: Option<string>) { choice.Some? && choice != current }

  /** What is prepared, given that the request (if any) is known. */
  ghost predicate Settled(env: Env, fs: Fs, a: Group, current: Option<string>, choice: Option<string>, picked: Option<Fileset>) {
    && (picked.Some? ==> GetFileset(a.choices, picked.value.masterFile) == picked)
    && if Wanted(current, choice) then picked == GetFileset(a.choices, choice.value)
       else if NeedsUpdate(env, fs, a, current).UpdateNo? || current.None? then picked.None?
       else if GetFileset(a.choices, current.value).Some? then picked == GetFileset(a.choices, current.value)
       else picked.Some? && IsBest(a.choices, current, picked.value)
  }

  /** Without --force, whatever stands at a link of the group and is not a link stays. */
  ghost predicate NonLinksStay(env: Env, fs: Fs, fs': Fs, a: Group) {
    !env.force ==> forall p :: OwnsLink(a, p) && Look(fs, p) == Some(Other) ==> Look(fs', p) == Some(Other)
  }

  /** No operation of an installation is about such a path. */
  lemma NoEntryForNonLink(env: Env, fs: Fs, a: Group, f: Fileset, p: string)
    requires PathsDistinct(env, a) && !env.force && OwnsLink(a, p) && Look(fs, p) == Some(Other)
    ensures p in Managed(env, a) && forall e :: e in Plan(env, fs, a, f) ==> e.path != p
  {
    if p == a.masterLink {
      MasterEntries(env, fs, a, f);
      MasterManaged(env, a);
      hide AltPath, Plan, PathsDistinct;
    } else {
      var i :| 0 <= i < |a.slaves| && a.slaves[i].link == p;
      var sl := a.slaves[i];
      EntriesInPlan(env, fs, a, f, sl);
      hide AltPath, Plan, PathsDistinct;
      assert forall e :: e in PlanSlave(env, fs, f, sl) ==> e.path != p;
    }
  }

  /** At every point of an installation. */
  lemma InstallingKeepsNonLinks(env: Env, fs: Fs, a: Group, f: Fileset, k: nat)
    requires PathsDistinct(env, a) && k <= |Plan(env, fs, a, f)|
    ensures var plan := Plan(env, fs, a, f);
      NonLinksStay(env, fs, CommitAll(Prepared(fs, plan), OpsOf(plan)[..k]), a)
  {
    hide PathsDistinct, OwnsLink, Look, Plan, Managed, OpsOf, CommitAll, Prepared;
    var plan := Plan(env, fs, a, f);
    if !env.force {
      PlanIsOk(env, fs, a, f);
      CommitReaches(fs, plan, k);
      forall p | OwnsLink(a, p) && Look(fs, p) == Some(Other)
        ensures Look(CommitAll(Prepared(fs, plan), OpsOf(plan)[..k]), p) == Some(Other)
      {
        NoEntryForNonLink(env, fs, a, f, p);
        NotTemporary(env, fs, a, f, p);
        NotAbout(fs, plan, k, CommitAll(Prepared(fs, plan), OpsOf(plan)[..k]), p);
      }
    }
  }

  lemma NotAbout(fs: Fs, plan: seq<Entry>, k: nat, c: Fs, p: string)
    requires k <= |plan| && CommitState(fs, plan, k, c) && !Temporary(plan, p) && forall e :: e in plan ==> e.path != p
    ensures Look(c, p) == Look(fs, p)
  {
    hide Outcome, Look, Tmp;
    OutcomeUntouched(fs, plan, k, p);
  }

  lemma PickedKeepsNonLinks(env: Env, fs: Fs, a: Group, picked: Option<Fileset>)
    requires PathsDistinct(env, a)
    ensures NonLinksStay(env, fs, Picked(env, fs, a, picked), a)
  {
    hide PathsDistinct, OwnsLink, Look, Plan, OpsOf, CommitAll, Prepared;
    if picked.Some? {
      var plan := Plan(env, fs, a, picked.value);
      InstallingKeepsNonLinks(env, fs, a, picked.value, |plan|);
      assert OpsOf(plan)[..|plan|] == OpsOf(plan);
    }
  }

  /** Links of the group are among its managed paths. */
  lemma ManagedNonLinks(env: Env, fs: Fs, fs': Fs, a: Group)
    requires forall p :: p in Managed(env, a) ==> Look(fs', p) == Look(fs, p)
    ensures NonLinksStay(env, fs, fs', a)
  {
    hide AltPath, Look;
    MasterManaged(env, a);
    forall p | OwnsLink(a, p) ensures p in Managed(env, a) {
      if p != a.masterLink {
        var i :| 0 <= i < |a.slaves| && a.slaves[i].link == p;
        SlavePathsMember(env, a.slaves, i);
      }
    }
  }

  lemma PlainNonLinks(env: Env, fs: Fs, fs': Fs, a: Group, h: Group)
    requires h.masterLink == a.masterLink && Plain(h.slaves) == Plain(a.slaves) && NonLinksStay(env, fs, fs', h)
    ensures NonLinksStay(env, fs, fs', a)
  {
    hide Plain, Look;
    forall p | OwnsLink(a, p) ensures OwnsLink(h, p) {
      if p != a.masterLink {
        var i :| 0 <= i < |a.slaves| && a.slaves[i].link == p;
        var s := PlainMember(a.slaves, h.slaves, a.slaves[i]);
        MemberOwned(h, s);
      }
    }
  }

  lemma SameNonLinks(env: Env, fs: Fs, fs': Fs, a: Group, h: Group)
    requires h.masterLink == a.masterLink && h.slaves == a.slaves
    ensures NonLinksStay(env, fs, fs', h) <==> NonLinksStay(env, fs, fs', a)
  { }

  lemma NonLinksSame(env: Env, fs: Fs, a: Group)
    ensures NonLinksStay(env, fs, fs, a)
  { }

  lemma SlaveIsLinked(a: Group, i: nat)
    requires i < |a.slaves|
    ensures SlaveLinked(a, a.slaves[i].name, a.slaves[i].link)
  { }

  /** A link and its entry in altdir are gone, with their temporaries, and nothing else; a non-link at the link only by force. */
  ghost predicate PairRemoved(env: Env, fs: Fs, fs': Fs, link: string, alt: string) {
    && (forall p :: p in fs' ==> p in fs && fs'[p] == fs[p])
    && (forall p :: p in fs && p !in fs' ==> p in {link, alt, Tmp(link), Tmp(alt)})
    && alt !in fs' && Tmp(alt) !in fs' && Tmp(link) !in fs' && (CanRemove(env, fs, link) ==> link !in fs')
    && (!env.force && Look(fs, link) == Some(Other) && link != alt && link != Tmp(alt) ==> link in fs')
  }

  /** The master's links and those of the first i slaves are gone. */
  ghost predicate Clearing(env: Env, fs: Fs, fs': Fs, a: Group, done: seq<string>, i: nat) {
    && i <= |a.slaves| && done + SlavePaths(env, a.slaves[i..]) == Managed(env, a)
    && Cleared(fs, fs', done, Clean(env, fs, a))
    && (PathsDistinct(env, a) ==> NonLinksStay(env, fs, fs', a))
  }

  lemma ClearingStart(env: Env, fs: Fs, fs': Fs, a: Group)
    requires PairRemoved(env, fs, fs', a.masterLink, AltPath(env, a.masterName))
    ensures Clearing(env, fs, fs', a, [a.masterLink, AltPath(env, a.masterName)], 0)
  {
    var link, alt, clean := a.masterLink, AltPath(env, a.masterName), Clean(env, fs, a);
    NothingCleared(fs, clean);
    if clean { CleanMaster(env, fs, a); }
    NonLinksSame(env, fs, a);
    hide AltPath, Cleared, Clean, PathsDistinct, NonLinksStay, PairRemoved;
    ClearedMore(env, fs, fs, fs', [], link, alt, clean);
    if PathsDistinct(env, a) { PairSpares(env, fs, fs, fs', a, a.masterName, link); }
    assert [] + [link, alt] == [link, alt] && a.slaves[0..] == a.slaves;
  }

  lemma ClearingNext(env: Env, fs: Fs, fs1: Fs, fs2: Fs, a: Group, done: seq<string>, i: nat)
    requires i < |a.slaves| && Clearing(env, fs, fs1, a, done, i)
    requires PairRemoved(env, fs1, fs2, a.slaves[i].link, AltPath(env, a.slaves[i].name))
    ensures Clearing(env, fs, fs2, a, done + [a.slaves[i].link, AltPath(env, a.slaves[i].name)], i + 1)
  {
    var sl, clean := a.slaves[i], Clean(env, fs, a);
    if clean { CleanSlave(env, fs, a, i); }
    assert a.slaves[i..][1..] == a.slaves[i + 1..];
    hide AltPath, Cleared, Clean, PathsDistinct, NonLinksStay, PairRemoved;
    ClearedMore(env, fs, fs1, fs2, done, sl.link, AltPath(env, sl.name), clean);
    if PathsDistinct(env, a) {
      SlaveIsLinked(a, i);
      PairSpares(env, fs, fs1, fs2, a, sl.name, sl.link);
    }
    assert done + ([sl.link, AltPath(env, sl.name)] + SlavePaths(env, a.slaves[i + 1..]))
        == done + [sl.link, AltPath(env, sl.name)] + SlavePaths(env, a.slaves[i + 1..]);
  }

  lemma ClearingEnd(env: Env, fs: Fs, fs': Fs, a: Group, done: seq<string>)
    requires Clearing(env, fs, fs', a, done, |a.slaves|)
    ensures Cleared(fs, fs', Managed(env, a), Clean(env, fs, a)) && (PathsDistinct(env, a) ==> NonLinksStay(env, fs, fs', a))
  {
    assert done + SlavePaths(env, a.slaves[|a.slaves|..]) == done;
  }

  /** What `RemoveLink` says of one pair of the group's links, for the group as a whole. */
  lemma PairSpares(env: Env, fs: Fs, fs1: Fs, fs2: Fs, a: Group, name: string, link: string)
    requires PathsDistinct(env, a) && ((name == a.masterName && link == a.masterLink) || SlaveLinked(a, name, link))
    requires NonLinksStay(env, fs, fs1, a) && PairRemoved(env, fs1, fs2, link, AltPath(env, name))
    ensures NonLinksStay(env, fs, fs2, a)
  {
    hide AltPath, Tmp, PathsDistinct, OwnsLink;
    if !env.force {
      forall p | OwnsLink(a, p) && Look(fs, p) == Some(Other) ensures Look(fs2, p) == Some(Other) {
        assert Look(fs1, p) == Some(Other);
        SparesNonLink(env, a, name, link, p);
      }
    }
  }

  /** Removing one pair of links spares a non-link at another link, and at this one. */
  lemma SparesNonLink(env: Env, a: Group, name: string, link: string, p: string)
    requires PathsDistinct(env, a) && OwnsLink(a, p) && ((name == a.masterName && link == a.masterLink) || SlaveLinked(a, name, link))
    ensures p != AltPath(env, name) && p != Tmp(link) && p != Tmp(AltPath(env, name))
  {
    hide AltPath, Tmp;
    MasterManaged(env, a);
    if i :| 0 <= i < |a.slaves| && a.slaves[i].link == p { SlavePathsMember(env, a.slaves, i); }
    if i :| 0 <= i < |a.slaves| && a.slaves[i].name == name && a.slaves[i].link == link { SlavePathsMember(env, a.slaves, i); }
    hide SlavePaths, NoDup;
    assert p in Managed(env, a) && link in Managed(env, a) && AltPath(env, name) in Managed(env, a);
    EntryIsNoLink(env, a, name, p);
  }

  ghost predicate SlaveLinked(a: Group, name: string, link: string) {
    exists i :: 0 <= i < |a.slaves| && a.slaves[i].name == name && a.slaves[i].link == link
  }

  /** The entries in altdir are not links of the group. */
  lemma EntryIsNoLink(env: Env, a: Group, name: string, p: string)
    requires PathsDistinct(env, a) && OwnsLink(a, p) && OwnsName(a, name)
    ensures p != AltPath(env, name)
  {
    hide AltPath, Tmp;
    var pa := [a.masterLink, AltPath(env, a.masterName)];
    NoDupParts(pa, SlavePaths(env, a.slaves));
    DisjointParts(pa, SlavePaths(env, a.slaves));
    assert pa[0] != pa[1] && pa[0] in pa && pa[1] in pa;
    hide NoDup, PathsDistinct;
    if name != a.masterName {
      var j :| 0 <= j < |a.slaves| && a.slaves[j].name == name;
      SlavePathsMember(env, a.slaves, j);
      if p != a.masterLink {
        var i :| 0 <= i < |a.slaves| && a.slaves[i].link == p;
        if i == j {
          OwnPathsApart(env, a.slaves, a.slaves[i]);
        } else {
          PairsFromPaths(env, a.slaves, if i < j then i else j, if i < j then j else i);
          LinkOfOne(env, a.slaves[i], a.slaves[j]);
        }
      }
    } else if p != a.masterLink {
      var i :| 0 <= i < |a.slaves| && a.slaves[i].link == p;
      SlavePathsMember(env, a.slaves, i);
    }
  }

  lemma LinkOfOne(env: Env, x: SlaveLink, y: SlaveLink)
    requires PathsApart(env, x, y) || PathsApart(env, y, x)
    ensures x.link != AltPath(env, y.name)
  {
    hide AltPath;
    var px, py := [x.link, AltPath(env, x.name)], [y.link, AltPath(env, y.name)];
    assert px[0] in px && px[1] in px && py[0] in py && py[1] in py;
  }

  lemma {:induction false} PreparedSnoc(fs: Fs, plan: seq<Entry>, e: Entry)
    ensures Prepared(fs, plan + [e])
         == if e.Set? then Prepared(fs, plan)[Tmp(e.path) := Symlink(e.target)] else Prepared(fs, plan)
    decreases |plan|
  {
    hide Tmp;
    if plan == [] {
      assert (plan + [e])[1..] == [];
    } else {
      var fs' := if plan[0].Set? then fs[Tmp(plan[0].path) := Symlink(plan[0].target)] else fs;
      assert (plan + [e])[1..] == plan[1..] + [e];
      PreparedSnoc(fs', plan[1..], e);
    }
  }

  lemma OpsSnoc(plan: seq<Entry>, e: Entry)
    ensures OpsOf(plan + [e]) == OpsOf(plan) + [OpOf(e)]
  { }

  lemma StartPlan(fs: Fs, link: string)
    ensures Prepared(fs, []) == fs && OpsOf([]) == [] && !Temporary([], link)
  { }

  lemma MasterSeparate(env: Env, a: Group)
    requires PathsDistinct(env, a)
    ensures a.masterLink != Tmp(AltPath(env, a.masterName))
  {
    assert Managed(env, a)[0] == a.masterLink && Managed(env, a)[1] == AltPath(env, a.masterName);
    assert a.masterLink in Managed(env, a) && AltPath(env, a.masterName) in Managed(env, a);
  }

  lemma StartSlaves(env: Env, fs: Fs, f: Fileset, a: Group)
    ensures Plan(env, fs, a, f)
         == PlanSingle(env, fs, a.masterName, a.masterLink, f.masterFile) + PlanSlaves(env, fs, f, a.slaves[0..])
  { }

  lemma EndSlaves(env: Env, fs: Fs, f: Fileset, slaves: seq<SlaveLink>, done: seq<Entry>)
    ensures done + PlanSlaves(env, fs, f, slaves[|slaves|..]) == done
  { }

  lemma PlanSlavesStep(env: Env, fs: Fs, f: Fileset, slaves: seq<SlaveLink>, done: seq<Entry>, i: nat)
    requires i < |slaves|
    ensures done + PlanSlaves(env, fs, f, slaves[i..])
         == done + PlanSlave(env, fs, f, slaves[i]) + PlanSlaves(env, fs, f, slaves[i + 1..])
  { }

  /** No temporary link made so far stands where a slave's link goes. */
  lemma SlaveSeparate(env: Env, fs: Fs, a: Group, f: Fileset, done: seq<Entry>, i: nat)
    requires PathsDistinct(env, a) && i < |a.slaves|
    requires done + PlanSlaves(env, fs, f, a.slaves[i..]) == Plan(env, fs, a, f)
    ensures !Temporary(done, a.slaves[i].link) && a.slaves[i].link != Tmp(AltPath(env, a.slaves[i].name))
  {
    PlanIsOk(env, fs, a, f);
    SlavePathsMember(env, a.slaves, i);
    hide PlanSlaves, PlanSingle, Plan, Tmp, AltPath, SlavePaths, PlanOk, NoDup;
    var p := a.slaves[i].link;
    var plan := Plan(env, fs, a, f);
    assert p in Managed(env, a) && AltPath(env, a.slaves[i].name) in Managed(env, a);
    forall k | 0 <= k < |done| ensures Tmp(done[k].path) != p {
      assert done[k] == plan[k];
    }
  }

  lemma {:induction false} SlavePathsMember(env: Env, slaves: seq<SlaveLink>, i: nat)
    requires i < |slaves|
    ensures slaves[i].link in SlavePaths(env, slaves) && AltPath(env, slaves[i].name) in SlavePaths(env, slaves)
    decreases i
  {
    if i > 0 { SlavePathsMember(env, slaves[1..], i - 1); }
    assert SlavePaths(env, slaves)[0] == slaves[0].link && SlavePaths(env, slaves)[1] == AltPath(env, slaves[0].name);
  }

  lemma BestRegistered(choices: seq<Fileset>, current: Option<string>, f: Fileset)
    requires DistinctChoices(choices) && f in choices
    ensures GetFileset(choices, f.masterFile) == Some(f)
  { }

  lemma CommitNothing(fs: Fs)
    ensures CommitAll(fs, []) == fs
  { }

  lemma PerformedIs(fs: Fs, plan: seq<Entry>)
    ensures Performed(fs, plan) == CommitAll(Prepared(fs, plan), OpsOf(plan))
  { }

  lemma StatusPlan(env: Env, fs: Fs, a: Group, f: Fileset)
    ensures Plan(env, fs, a.(status := Auto), f) == Plan(env, fs, a, f)
    ensures PathsDistinct(env, a.(status := Auto)) <==> PathsDistinct(env, a)
  { }

  lemma UpdateConverges(env: Env, fs: Fs, fs': Fs, a: Group, current: Option<string>, choice: Option<string>,
                        picked: Option<Fileset>, a': Group)
    requires PathsDistinct(env, a) && DistinctChoices(a.choices) && current == Current(env, fs, a)
    requires Settled(env, fs, a, current, choice, picked) && (Wanted(current, choice) ==> GetFileset(a.choices, choice.value).Some?)
    requires fs' == if picked.Some? then Performed(fs, Plan(env, fs, a, picked.value)) else fs
    requires a'.masterName == a.masterName && a'.masterLink == a.masterLink && DistinctChoices(a'.choices)
    requires (forall sl :: sl in a'.slaves ==> sl in a.slaves) && forall f :: f in a'.choices <==> f in a.choices
    requires a'.status == ModeAfter(env, fs, a, current, choice)
    ensures Clean(env, fs, a) ==> Converged(env, fs, a, current, choice, fs', a')
    ensures !Wanted(current, choice) && NeedsUpdate(env, fs, a, current) == UpdateNo ==> fs' == fs
  {
    hide PathsDistinct, IsBest, Clean, Performed, Plan, Installed, NeedsUpdate, Current, GetFileset, DistinctChoices;
    if Clean(env, fs, a) {
      if picked.Some? {
        InstallConverges(env, fs, a, picked.value);
        InstalledNeedsNothing(env, fs', a, picked.value);
      } else if current.Some? && GetFileset(a.choices, current.value).Some? {
        CheckedIsInstalled(env, fs, a, GetFileset(a.choices, current.value).value);
      }
      VerdictKept(env, fs', a, a');
    }
  }

  lemma UpdatesBy(env: Env, fs: Fs, fs': Fs, a: Group, current: Option<string>, choice: Option<string>,
                  picked: Option<Fileset>, a': Group, modified: bool)
    requires PathsDistinct(env, a) && DistinctChoices(a.choices) && current == Current(env, fs, a)
    requires Settled(env, fs, a, current, choice, picked) && (Wanted(current, choice) ==> GetFileset(a.choices, choice.value).Some?)
    requires fs' == if picked.Some? then Performed(fs, Plan(env, fs, a, picked.value)) else fs
    requires a' == Recorded(a, ModeAfter(env, fs, a, current, choice), modified)
    ensures Updates(env, fs, a, current, choice, fs', a')
  {
    hide PathsDistinct, DistinctChoices, Current, Settled, Performed, Plan, Recorded, ModeAfter;
    assert fs' == Picked(env, fs, a, picked);
  }

  /** The group and the file a command leaves: a is as it was decided to be, apart from the mode. */
  ghost predicate RecordedAs(a: Group, mode: Mode, modified: bool, a': Group, text: Option<string>, text': Option<string>) {
    a' == Recorded(a, mode, modified) && text' == if modified then Some(Print(a')) else text
  }

  /** Setting a mode modifies the group, unless it is the mode the group had and the command started in. */
  ghost predicate FlipsTo(env: Env, fs: Fs, a: Group, mode: Mode) {
    a.status != mode || ModeFor(env, a, Current(env, fs, a)) != mode
  }

  /** A group without one of its choices, in the mode that leaves it in. */
  ghost function Lessened(env: Env, a: Group, current: Option<string>, path: string): Group {
    a.(choices := Without(a.choices, path), status := if current == Some(path) then Auto else ModeFor(env, a, current))
  }

  /** The links after those of a group have moved to where an installation wants them. */
  function LinksMoved(env: Env, fs: Fs, a: Group, b: Group, current: Option<string>, f: Fileset): Fs {
    AfterSlaves(env, AfterMaster(fs, a.masterLink, b.masterLink), a.slaves, current, b.slaves, f, |b.slaves|)
  }

  function Plained(a: Group): Group { a.(slaves := Plain(a.slaves)) }

  lemma RecordedOnly(a: Group, h: Group, mode: Mode, modified: bool)
    requires h == a.(status := h.status)
    ensures Recorded(h, mode, modified) == Recorded(a, mode, modified)
  { }

  /** A request that is registered leaves the mode alone. */
  lemma ModeStays(env: Env, fs: Fs, a: Group, current: Option<string>, file: string)
    requires GetFileset(a.choices, file).Some?
    ensures ModeAfter(env, fs, a, current, Some(file)) == a.status
  { }

  lemma ModeKnown(env: Env, a: Group, current: Option<string>)
    requires !a.status.Unknown?
    ensures !ModeFor(env, a, current).Unknown?
  { }

  lemma GotInstalled(env: Env, fs: Fs, a: Group, current: Option<string>, file: string, fs': Fs, a': Group)
    requires Converged(env, fs, a, current, Some(file), fs', a') && GetFileset(a.choices, file).Some?
    ensures Installed(env, fs', a, GetFileset(a.choices, file).value)
  { }

  lemma StaysInstalled(env: Env, fs: Fs, a: Group, current: Option<string>, fs': Fs, a': Group)
    requires Converged(env, fs, a, current, None, fs', a') && current.Some? && GetFileset(a.choices, current.value).Some?
    ensures Installed(env, fs', a, GetFileset(a.choices, current.value).value)
  { }

  lemma ClearedAll(fs: Fs, fs': Fs, paths: seq<string>)
    requires Cleared(fs, fs', paths, true)
    ensures forall p :: p in paths ==> p !in fs'
  { }

  /** Marks on the slaves do not matter to the mode. */
  lemma PlainMode(env: Env, fs: Fs, a: Group, h: Group, current: Option<string>)
    requires h == a.(slaves := h.slaves)
    ensures ModeAfter(env, fs, h, current, None) == ModeAfter(env, fs, a, current, None)
  { }

  /** Nor to what is written. */
  lemma PlainRecorded(a: Group, h: Group, mode: Mode)
    requires h == a.(slaves := h.slaves) && Plain(h.slaves) == Plain(a.slaves)
    ensures var r, s := Recorded(h, mode, true), Saved(a.(status := mode)); Plained(r) == Plained(s) && Print(r) == Print(s)
  {
    hide SortBy, UsedSlaves, PrintSlaves, PrintChoices, Plain;
    PlainUsed(h.slaves, a.slaves, a.choices);
    PlainSort(UsedSlaves(h.slaves, a.choices), UsedSlaves(a.slaves, a.choices));
    var r, s := Recorded(h, mode, true), Saved(a.(status := mode));
    PrintPlain(r.slaves);
    PrintPlain(s.slaves);
    PrintChoicesPlain(s.choices, r.slaves);
    PrintChoicesPlain(s.choices, s.slaves);
  }

  lemma {:induction false} PlainUsed(s: seq<SlaveLink>, t: seq<SlaveLink>, choices: seq<Fileset>)
    requires Plain(s) == Plain(t)
    ensures Plain(UsedSlaves(s, choices)) == Plain(UsedSlaves(t, choices))
    decreases |s|
  {
    hide Used, Plain;
    PlainStep(s, t);
    if s != [] {
      PlainUsed(s[1..], t[1..], choices);
      PlainCons(s[0], UsedSlaves(s[1..], choices));
      PlainCons(t[0], UsedSlaves(t[1..], choices));
      SameUse(s[0], t[0], choices);
      assert [] + UsedSlaves(s[1..], choices) == UsedSlaves(s[1..], choices);
      assert [] + UsedSlaves(t[1..], choices) == UsedSlaves(t[1..], choices);
    }
  }

  lemma SameUse(x: SlaveLink, y: SlaveLink, choices: seq<Fileset>)
    requires x.name == y.name
    ensures Used(x, choices) <==> Used(y, choices)
  { }

  lemma PlainStep(s: seq<SlaveLink>, t: seq<SlaveLink>)
    requires Plain(s) == Plain(t)
    ensures |s| == |t|
    ensures s != [] ==> s[0].name == t[0].name && s[0].(updated := false) == t[0].(updated := false) && Plain(s[1..]) == Plain(t[1..])
  {
    assert |s| == |Plain(s)| == |t|;
    if s != [] {
      assert Plain(s)[0] == Plain(t)[0];
      assert Plain(s)[1..] == Plain(s[1..]) && Plain(t)[1..] == Plain(t[1..]);
    }
  }

  lemma {:induction false} PlainSort(s: seq<SlaveLink>, t: seq<SlaveLink>)
    requires Plain(s) == Plain(t)
    ensures Plain(SortBy(s, SlaveKey())) == Plain(SortBy(t, SlaveKey()))
    decreases |s|
  {
    hide Plain, Insert;
    PlainStep(s, t);
    if s != [] {
      PlainSort(s[1..], t[1..]);
      PlainInsert(s[0], SortBy(s[1..], SlaveKey()), t[0], SortBy(t[1..], SlaveKey()));
    }
  }

  lemma {:induction false} PlainInsert(x: SlaveLink, s: seq<SlaveLink>, y: SlaveLink, t: seq<SlaveLink>)
    requires x.(updated := false) == y.(updated := false) && Plain(s) == Plain(t)
    ensures Plain(Insert(x, s, SlaveKey())) == Plain(Insert(y, t, SlaveKey()))
    decreases |s|
  {
    hide Plain, Less;
    PlainStep(s, t);
    PlainCons(x, s);
    PlainCons(y, t);
    if s != [] {
      PlainInsert(x, s[1..], y, t[1..]);
      PlainCons(s[0], Insert(x, s[1..], SlaveKey()));
      PlainCons(t[0], Insert(y, t[1..], SlaveKey()));
    }
  }

  lemma NotWanted(current: Option<string>, choice: Option<string>)
    requires choice.None? || choice == current
    ensures !Wanted(current, choice)
  { }

  /** Everything but the unused slaves is kept, and the group is fit for another command. */
  lemma RecordedKeeps(env: Env, a: Group, mode: Mode, modified: bool)
    requires PathsDistinct(env, a) && DistinctChoices(a.choices)
    ensures var r := Recorded(a, mode, modified);
      && r.masterName == a.masterName && r.masterLink == a.masterLink && r.status == mode
      && PathsDistinct(env, r) && DistinctChoices(r.choices)
      && (forall sl :: sl in r.slaves ==> sl in a.slaves)
      && (forall f :: f in r.choices <==> f in a.choices)
  {
    var g := a.(status := mode);
    ModeOnly(env, map[], a, g);
    SavedKeeps(g);
    hide PathsDistinct, DistinctChoices, Saved;
    if modified {
      SavedDistinct(env, g);
      FewerPaths(env, g, Saved(g));
    }
  }

  lemma SavedDistinct(env: Env, a: Group)
    requires PathsDistinct(env, a)
    ensures forall i, j :: 0 <= i < j < |Saved(a).slaves| ==> Saved(a).slaves[i] != Saved(a).slaves[j]
  {
    hide SortBy, AltPath, Tmp, NoDup;
    NoDupParts([a.masterLink, AltPath(env, a.masterName)], SlavePaths(env, a.slaves));
    PathsApartNames(env, a.slaves);
    SavedSlaves(a);
  }

  lemma PathsApartNames(env: Env, slaves: seq<SlaveLink>)
    requires NoDup(SlavePaths(env, slaves))
    ensures PairwiseApart(slaves)
  {
    hide NoDup;
    forall i, j | 0 <= i < j < |slaves| ensures slaves[i].name != slaves[j].name && slaves[i].link != slaves[j].link {
      PairsFromPaths(env, slaves, i, j);
      var px, py := [slaves[i].link, AltPath(env, slaves[i].name)], [slaves[j].link, AltPath(env, slaves[j].name)];
      assert px[0] in px && px[1] in px && py[0] in py && py[1] in py;
    }
  }

  /** Two updates in a row: the second one, without a new request, changes nothing. */
  lemma SecondRun(env: Env, fs: Fs, a: Group, current: Option<string>, choice: Option<string>, fs1: Fs, a1: Group,
                  again: Option<string>, fs2: Fs, a2: Group)
    requires Updates(env, fs, a, current, choice, fs1, a1)
    requires Updates(env, fs1, a1, Current(env, fs1, a1), again, fs2, a2)
    requires again.None? || again == Current(env, fs1, a1)
    ensures fs2 == fs1
  {
    hide *;
    var modified, picked := UpdatesHow(env, fs, a, current, choice, fs1, a1);
    var _, picked1 := UpdatesHow(env, fs1, a1, Current(env, fs1, a1), again, fs2, a2);
    RecordedKeeps(env, a, ModeAfter(env, fs, a, current, choice), modified);
    SecondPick(env, fs, a, current, choice, picked, fs1, a1, again, picked1);
  }

  lemma UpdatesHow(env: Env, fs: Fs, a: Group, current: Option<string>, choice: Option<string>, fs': Fs, a': Group)
    returns (modified: bool, picked: Option<Fileset>)
    requires Updates(env, fs, a, current, choice, fs', a')
    ensures PathsDistinct(env, a) && DistinctChoices(a.choices) && current == Current(env, fs, a)
    ensures Wanted(current, choice) ==> GetFileset(a.choices, choice.value).Some?
    ensures a' == Recorded(a, ModeAfter(env, fs, a, current, choice), modified)
    ensures Settled(env, fs, a, current, choice, picked) && fs' == Picked(env, fs, a, picked)
  {
    hide Recorded, ModeAfter, PathsDistinct, Settled, Picked, DistinctChoices, GetFileset, Current;
    modified :| a' == Recorded(a, ModeAfter(env, fs, a, current, choice), modified);
    picked :| Settled(env, fs, a, current, choice, picked) && fs' == Picked(env, fs, a, picked);
  }

  /** A second update picks nothing, or what the first one picked; and that is installed. */
  lemma SecondPick(env: Env, fs: Fs, a: Group, current: Option<string>, choice: Option<string>, picked: Option<Fileset>,
                   fs1: Fs, a1: Group, again: Option<string>, picked1: Option<Fileset>)
    requires PathsDistinct(env, a) && DistinctChoices(a.choices) && current == Current(env, fs, a)
    requires Wanted(current, choice) ==> GetFileset(a.choices, choice.value).Some?
    requires Settled(env, fs, a, current, choice, picked) && fs1 == Picked(env, fs, a, picked)
    requires a1.masterName == a.masterName && a1.masterLink == a.masterLink && PathsDistinct(env, a1) && DistinctChoices(a1.choices)
    requires (forall sl :: sl in a1.slaves ==> sl in a.slaves) && forall f :: f in a1.choices <==> f in a.choices
    requires again.None? || again == Current(env, fs1, a1)
    requires Settled(env, fs1, a1, Current(env, fs1, a1), again, picked1)
    ensures Picked(env, fs1, a1, picked1) == fs1
  {
    hide PathsDistinct, NeedsUpdate, Performed, Plan, DistinctChoices, IsBest, GetFileset;
    VerdictKept(env, fs1, a, a1);
    if picked1.Some? && picked.Some? {
      MasterInstalledAgain(env, fs, a, picked.value);
      InstallTwice(env, fs, a, picked.value, a1);
      SameRegistered(a.choices, a1.choices, picked.value);
    }
  }

  lemma SameRegistered(xs: seq<Fileset>, ys: seq<Fileset>, f: Fileset)
    requires DistinctChoices(xs) && DistinctChoices(ys) && (forall x :: x in xs <==> x in ys)
    requires GetFileset(xs, f.masterFile) == Some(f)
    ensures GetFileset(ys, f.masterFile) == Some(f)
  { }

  /** A group that checks out and whose current choice is registered is installed. */
  lemma CheckedIsInstalled(env: Env, fs: Fs, a: Group, f: Fileset)
    requires Current(env, fs, a) == Some(f.masterFile) && GetFileset(a.choices, f.masterFile) == Some(f)
    requires NeedsUpdate(env, fs, a, Current(env, fs, a)) == UpdateNo
    ensures Installed(env, fs, a, f)
  { }

  lemma SavedKeeps(a: Group)
    requires DistinctChoices(a.choices)
    ensures var s := Saved(a);
      && s.masterName == a.masterName && s.masterLink == a.masterLink && s.status == a.status && DistinctChoices(s.choices)
      && (forall sl :: sl in s.slaves ==> sl in a.slaves)
      && (forall f :: f in s.choices <==> f in a.choices)
  {
    hide SortBy, DistinctChoices;
    SortedChoices(a.choices);
    SameMembers(SortBy(UsedSlaves(a.slaves, a.choices), SlaveKey()), UsedSlaves(a.slaves, a.choices));
  }

  /** The check says the same of a group with its choices reordered, and no worse of one with fewer slaves. */
  lemma VerdictKept(env: Env, fs: Fs, a: Group, h: Group)
    requires DistinctChoices(a.choices) && DistinctChoices(h.choices)
    requires h.masterName == a.masterName && h.masterLink == a.masterLink
    requires (forall sl :: sl in h.slaves ==> sl in a.slaves) && forall f :: f in h.choices <==> f in a.choices
    ensures Current(env, fs, h) == Current(env, fs, a)
    ensures NeedsUpdate(env, fs, a, Current(env, fs, a)) == UpdateNo ==> NeedsUpdate(env, fs, h, Current(env, fs, h)) == UpdateNo
    ensures Current(env, fs, a).None? ==> NeedsUpdate(env, fs, h, Current(env, fs, h)) != UpdateNo
  { }

  lemma ModeOnly(env: Env, fs: Fs, a: Group, h: Group)
    requires h == a.(status := h.status)
    ensures PathsDistinct(env, h) <==> PathsDistinct(env, a)
    ensures Clean(env, fs, h) <==> Clean(env, fs, a)
    ensures Current(env, fs, h) == Current(env, fs, a) && (Blocked(env, fs, h) <==> Blocked(env, fs, a))
    ensures Managed(env, h) == Managed(env, a)
  { }

  lemma ModeInstalled(env: Env, fs: Fs, a: Group, m: Mode, f: Fileset)
    ensures Installed(env, fs, a.(status := m), f) <==> Installed(env, fs, a, f)
  { }

  lemma NotEmpty(choices: seq<Fileset>, path: string)
    requires GetFileset(choices, path).Some?
    ensures choices != []
  { }

  lemma BestKnown(choices: seq<Fileset>, current: Option<string>, b: Fileset)
    requires IsBest(choices, current, b) && DistinctChoices(choices)
    ensures GetFileset(choices, b.masterFile) == Some(b)
  { }

  lemma BestIsInstalled(env: Env, fs: Fs, a: Group, current: Option<string>, b: Fileset)
    requires IsBest(a.choices, current, b) && exists m :: Installed(env, fs, a.(status := m), b)
    ensures BestInstalled(env, fs, a, current)
  { }

  /** Taking a choice away changes neither the paths nor the state of the links. */
  lemma ChoicesOnly(env: Env, fs: Fs, a: Group, h: Group)
    requires h == a.(choices := h.choices) && DistinctChoices(a.choices)
    ensures PathsDistinct(env, h) <==> PathsDistinct(env, a)
    ensures Clean(env, fs, h) <==> Clean(env, fs, a)
    ensures Current(env, fs, h) == Current(env, fs, a) && (Blocked(env, fs, h) <==> Blocked(env, fs, a))
    ensures Managed(env, h) == Managed(env, a)
    ensures forall path :: h.choices == Without(a.choices, path) ==> DistinctChoices(h.choices)
  {
    forall path | h.choices == Without(a.choices, path) ensures DistinctChoices(h.choices) {
      WithoutDistinct(a.choices, path);
    }
  }

  lemma {:induction false} WithoutDistinct(choices: seq<Fileset>, path: string)
    requires DistinctChoices(choices)
    ensures DistinctChoices(Without(choices, path)) && forall f :: f in Without(choices, path) ==> f in choices
    ensures GetFileset(Without(choices, path), path).None?
    decreases |choices|
  {
    if choices != [] {
      var rest := Without(choices[1..], path);
      assert forall i :: 1 <= i < |choices| ==> choices[1..][i - 1] == choices[i];
      WithoutDistinct(choices[1..], path);
      if choices[0].masterFile != path {
        forall i | 0 <= i < |rest| ensures rest[i].masterFile != choices[0].masterFile { assert rest[i] in rest; }
      }
    }
  }

  lemma {:induction false} WithoutUnknown(choices: seq<Fileset>, path: string)
    requires GetFileset(choices, path).None?
    ensures Without(choices, path) == choices
    decreases |choices|
  {
    if choices != [] { WithoutUnknown(choices[1..], path); }
  }

  lemma OwnMaster(a: Group)
    ensures OwnsLink(a, a.masterLink)
  { }

  lemma SlaveOwned(a: Group, i: nat)
    requires i < |a.slaves|
    ensures OwnsLink(a, a.slaves[i].link)
  { }

  lemma OwnsMoved(g: Group, h: Group, b: Group)
    requires h == g.(masterLink := b.masterLink)
    ensures OwnsWithin(h, g, b)
  { }

  lemma MergeNothing(slaves: seq<SlaveLink>, news: seq<SlaveLink>)
    ensures Merge(slaves, news[..0]) == slaves
  { }

  lemma {:induction false} MergeSnoc(slaves: seq<SlaveLink>, news: seq<SlaveLink>, i: nat)
    requires i < |news|
    ensures Merge(slaves, news[..i + 1]) == AddSlave(Merge(slaves, news[..i]), news[i])
    decreases i
  {
    hide AddSlave;
    if i == 0 {
      assert news[..1][1..] == [] && news[..0] == [];
    } else {
      MergeSnoc(AddSlave(slaves, news[0]), news[1..], i - 1);
      assert news[..i + 1][1..] == news[1..][..i] && news[..i][1..] == news[1..][..i - 1];
    }
  }

  lemma {:induction false} AddSlavePlain(s: seq<SlaveLink>, x: SlaveLink, t: seq<SlaveLink>, y: SlaveLink)
    requires Plain(s) == Plain(t) && x.name == y.name && x.link == y.link
    ensures Plain(AddSlave(s, x)) == Plain(AddSlave(t, y))
    decreases |s|
  {
    assert |s| == |Plain(s)| == |t|;
    if s != [] {
      assert Plain(s)[0] == Plain(t)[0];
      assert s[0].name == t[0].name && s[0].link == t[0].link;
      assert Plain(s)[1..] == Plain(s[1..]) && Plain(t)[1..] == Plain(t[1..]);
      if s[0].name != x.name {
        AddSlavePlain(s[1..], x, t[1..], y);
        PlainCons(s[0], AddSlave(s[1..], x));
        PlainCons(t[0], AddSlave(t[1..], y));
      } else {
        PlainCons(x, s[1..]);
        PlainCons(y, t[1..]);
      }
    }
  }

  lemma PlainCons(x: SlaveLink, xs: seq<SlaveLink>)
    ensures Plain([x] + xs) == [x.(updated := false)] + Plain(xs)
  { }

  lemma {:induction false} AddSlaveMembers(slaves: seq<SlaveLink>, sl: SlaveLink)
    ensures forall s :: s in AddSlave(slaves, sl) ==> s == sl || s in slaves
    decreases |slaves|
  {
    if slaves != [] { AddSlaveMembers(slaves[1..], sl); }
  }

  lemma AddSlaveLinks(h: Group, a: Group, b: Group, sl: SlaveLink)
    requires OwnsWithin(h, a, b) && OwnsLink(b, sl.link)
    ensures OwnsWithin(h.(slaves := AddSlave(h.slaves, sl)), a, b)
  {
    hide AddSlave;
    AddSlaveMembers(h.slaves, sl);
    var r := AddSlave(h.slaves, sl);
    forall l | HasLink(r, l) ensures OwnsLink(h, l) || l == sl.link {
      var i :| 0 <= i < |r| && r[i].link == l;
      assert r[i] in r;
    }
  }

  lemma {:induction false} AddChoiceDistinct(choices: seq<Fileset>, f: Fileset)
    requires DistinctChoices(choices)
    ensures DistinctChoices(AddChoice(choices, f)) && AddChoice(choices, f) != []
    ensures forall x :: x in AddChoice(choices, f) ==> x == f || x in choices
    decreases |choices|
  {
    if choices != [] {
      var rest := AddChoice(choices[1..], f);
      assert forall i :: 1 <= i < |choices| ==> choices[1..][i - 1] == choices[i];
      AddChoiceDistinct(choices[1..], f);
      if choices[0].masterFile != f.masterFile {
        forall i | 0 <= i < |rest| ensures rest[i].masterFile != choices[0].masterFile { assert rest[i] in rest; }
      }
    }
  }

  lemma {:induction false} PlainPaths(env: Env, s: seq<SlaveLink>, t: seq<SlaveLink>)
    requires Plain(s) == Plain(t)
    ensures SlavePaths(env, s) == SlavePaths(env, t)
    decreases |s|
  {
    hide AltPath;
    assert |s| == |Plain(s)| == |t|;
    if s != [] {
      assert Plain(s)[0] == Plain(t)[0];
      assert s[0].name == t[0].name && s[0].link == t[0].link;
      assert Plain(s)[1..] == Plain(s[1..]) && Plain(t)[1..] == Plain(t[1..]);
      PlainPaths(env, s[1..], t[1..]);
    }
  }

  lemma AltNotLink(env: Env, a: Group)
    requires PathsDistinct(env, a)
    ensures !OwnsLink(a, AltPath(env, a.masterName))
  {
    hide AltPath, Tmp;
    var pa := [a.masterLink, AltPath(env, a.masterName)];
    DisjointParts(pa, SlavePaths(env, a.slaves));
    NoDupParts(pa, SlavePaths(env, a.slaves));
    assert pa[0] != pa[1] && pa[1] in pa;
    forall i | 0 <= i < |a.slaves| ensures a.slaves[i].link != pa[1] { SlavePathsMember(env, a.slaves, i); }
  }

  lemma PlainMember(s: seq<SlaveLink>, t: seq<SlaveLink>, sl: SlaveLink) returns (r: SlaveLink)
    requires Plain(s) == Plain(t) && sl in s
    ensures r in t && r.name == sl.name && r.link == sl.link
  {
    var i :| 0 <= i < |s| && s[i] == sl;
    assert |Plain(s)| == |Plain(t)| && Plain(s)[i] == Plain(t)[i];
    r := t[i];
  }

  /** The state of things between moving the links and updating. */
  lemma Evolved(env: Env, fs: Fs, fs': Fs, a: Group, b: Group, f: Fileset, h: Group)
    requires Parseable(a) && Parseable(b) && Mergeable(a.slaves, b.slaves) && b.masterName == a.masterName == h.masterName
    requires PathsDistinct(env, a) && PathsDistinct(env, Extended(a, b, f)) && LinksChange(fs, fs', a, b)
    requires h.masterLink == b.masterLink && Plain(h.slaves) == Plain(Merge(a.slaves, b.slaves))
    ensures PathsDistinct(env, h) && Current(env, fs', h) == Current(env, fs, a)
    ensures Blocked(env, fs', h) <==> Blocked(env, fs, a)
    ensures CleanBoth(env, fs, a, b) ==> Clean(env, fs', h)
  {
    var e := Extended(a, b, f);
    MergeIs(a.slaves, b.slaves);
    hide AltPath, Tmp, NoDup, Plain, Merge, SlavePaths, OwnsLink, Parseable, Mergeable;
    PlainPaths(env, h.slaves, e.slaves);
    AltNotLink(env, a);
    AltNotLink(env, e);
    MergedOwns(b, e);
    if CleanBoth(env, fs, a, b) {
      OwnMaster(b);
      forall sl | sl in h.slaves ensures OwnsLink(a, sl.link) || OwnsLink(b, sl.link) {
        var s := PlainMember(h.slaves, e.slaves, sl);
        MemberOwned(if s in b.slaves then b else a, s);
      }
    }
  }

  lemma MemberOwned(a: Group, sl: SlaveLink)
    requires sl in a.slaves
    ensures OwnsLink(a, sl.link)
  { }

  lemma MergedOwns(b: Group, e: Group)
    requires e.masterLink == b.masterLink && forall sl :: sl in b.slaves ==> sl in e.slaves
    ensures forall l :: OwnsLink(b, l) ==> OwnsLink(e, l)
  {
    forall l | OwnsLink(b, l) ensures OwnsLink(e, l) {
      if b.masterLink != l {
        var i :| 0 <= i < |b.slaves| && b.slaves[i].link == l;
        assert b.slaves[i] in b.slaves;
        MemberOwned(e, b.slaves[i]);
      }
    }
  }

  lemma PlainInstalled(env: Env, fs: Fs, a: Group, h: Group, f: Fileset)
    requires a.masterName == h.masterName && a.masterLink == h.masterLink && Plain(a.slaves) == Plain(h.slaves)
    requires Installed(env, fs, h, f)
    ensures Installed(env, fs, a, f)
  {
    hide Plain;
    forall sl | sl in a.slaves ensures !BrokenSlave(env, fs, f, sl) {
      var s := PlainMember(a.slaves, h.slaves, sl);
    }
  }

  lemma StatusLinks(fs: Fs, fs': Fs, a: Group, h: Group, b: Group)
    requires h == a.(status := h.status) && LinksChange(fs, fs', h, b)
    ensures LinksChange(fs, fs', a, b)
  { }

  lemma AfterSlavesSnoc(env: Env, fs: Fs, slaves: seq<SlaveLink>, current: Option<string>, news: seq<SlaveLink>, f: Fileset, n: nat)
    requires n < |news|
    ensures AfterSlaves(env, fs, slaves, current, news, f, n + 1)
         == AfterSlave(env, AfterSlaves(env, fs, slaves, current, news, f, n), Merge(slaves, news[..n]), current, news[n], f)
  { }

  lemma NothingMoved(env: Env, fs: Fs, slaves: seq<SlaveLink>, current: Option<string>, news: seq<SlaveLink>, f: Fileset)
    ensures AfterSlaves(env, fs, slaves, current, news, f, 0) == fs
  { }

  lemma AfterSlavePlain(env: Env, fs: Fs, s: seq<SlaveLink>, t: seq<SlaveLink>, current: Option<string>, sl: SlaveLink, f: Fileset)
    requires Plain(s) == Plain(t)
    ensures AfterSlave(env, fs, s, current, sl, f) == AfterSlave(env, fs, t, current, sl, f)
  {
    hide Plain, AltPath;
    FindSlavePlain(s, t, sl.name);
  }

  lemma {:induction false} FindSlavePlain(s: seq<SlaveLink>, t: seq<SlaveLink>, name: string)
    requires Plain(s) == Plain(t)
    ensures FindSlave(s, name).Some? <==> FindSlave(t, name).Some?
    ensures FindSlave(s, name).Some? ==> FindSlave(s, name).value.link == FindSlave(t, name).value.link
    decreases |s|
  {
    assert |s| == |Plain(s)| == |t|;
    if s != [] {
      assert Plain(s)[0] == Plain(t)[0];
      assert s[0].name == t[0].name && s[0].link == t[0].link;
      assert Plain(s)[1..] == Plain(s[1..]) && Plain(t)[1..] == Plain(t[1..]);
      FindSlavePlain(s[1..], t[1..], name);
    }
  }

  lemma StatusWritable(a: Group, h: Group)
    requires h == a.(status := h.status)
    ensures AltDbFile.Writable(Saved(h)) <==> AltDbFile.Writable(Saved(a))
  {
    hide SortBy, UsedSlaves;
  }

  /** Preparing an installation has not touched any managed path. */
  lemma PreparedKeeps(env: Env, fs: Fs, fs': Fs, a: Group, picked: Option<Fileset>)
    requires PathsDistinct(env, a)
    requires fs' == if picked.Some? then Prepared(fs, Plan(env, fs, a, picked.value)) else fs
    ensures forall p :: p in Managed(env, a) ==> Look(fs', p) == Look(fs, p)
  {
    hide PathsDistinct, Managed, Plan, Prepared, Look;
    if picked.Some? {
      forall p | p in Managed(env, a) ensures Look(fs', p) == Look(fs, p) {
        NotTemporary(env, fs, a, picked.value, p);
        PrepareOnlyTemporary(fs, Plan(env, fs, a, picked.value), p);
      }
    }
  }

  lemma SameLinks(env: Env, fs: Fs, a: Group, h: Group)
    requires h.masterName == a.masterName && h.masterLink == a.masterLink && h.slaves == a.slaves
    ensures PathsDistinct(env, h) <==> PathsDistinct(env, a)
    ensures Clean(env, fs, h) <==> Clean(env, fs, a)
    ensures Current(env, fs, h) == Current(env, fs, a) && (Blocked(env, fs, h) <==> Blocked(env, fs, a))
  { }

  /** A group can be written if its used slaves can, and their files in every choice. */
  ghost predicate SlavesWritable(a: Group) {
    forall sl :: sl in a.slaves && Used(sl, a.choices) ==>
      && AltDbFile.Plainly(sl.name) && AltDbFile.Plainly(sl.link)
      && forall f :: f in a.choices ==> AltDbFile.Plainly(FileFor(f, sl.name))
  }

  lemma WritableIs(a: Group)
    ensures AltDbFile.Writable(Saved(a)) <==>
      AltDbFile.Plainly(a.masterLink) && SlavesWritable(a) && forall f :: f in a.choices ==> AltDbFile.Plainly(f.masterFile)
  {
    hide SortBy, AltDbFile.Plainly, FileFor, Used;
    var s := Saved(a);
    SameMembers(s.slaves, UsedSlaves(a.slaves, a.choices));
    SameMembers(s.choices, a.choices);
    assert forall sl :: sl in s.slaves <==> sl in a.slaves && Used(sl, a.choices);
    hide Saved, UsedSlaves;
  }

  lemma PlainWritable(a: Group, h: Group)
    requires a.masterLink == h.masterLink && a.choices == h.choices && Plain(a.slaves) == Plain(h.slaves)
    ensures AltDbFile.Writable(Saved(a)) <==> AltDbFile.Writable(Saved(h))
  {
    hide AltDbFile.Writable, Saved, SlavesWritable, Plain;
    WritableIs(a);
    WritableIs(h);
    if SlavesWritable(a) { PlainSlaves(a, h); }
    if SlavesWritable(h) { PlainSlaves(h, a); }
  }

  lemma PlainSlaves(a: Group, h: Group)
    requires a.choices == h.choices && Plain(a.slaves) == Plain(h.slaves) && SlavesWritable(a)
    ensures SlavesWritable(h)
  {
    hide Plain, AltDbFile.Plainly, FileFor;
    forall sl | sl in h.slaves && Used(sl, h.choices)
      ensures AltDbFile.Plainly(sl.name) && AltDbFile.Plainly(sl.link)
      ensures forall f :: f in h.choices ==> AltDbFile.Plainly(FileFor(f, sl.name))
    {
      var r := PlainMember(h.slaves, a.slaves, sl);
      assert Used(r, a.choices);
    }
  }

  lemma NothingCleared(fs: Fs, clean: bool)
    ensures Cleared(fs, fs, [], clean)
  { }

  lemma CleanMaster(env: Env, fs: Fs, a: Group)
    requires Clean(env, fs, a)
    ensures CanRemove(env, fs, a.masterLink)
  { }

  lemma CleanSlave(env: Env, fs: Fs, a: Group, i: nat)
    requires Clean(env, fs, a) && i < |a.slaves|
    ensures CanRemove(env, fs, a.slaves[i].link)
  {
    assert a.slaves[i] in a.slaves;
  }

  lemma ClearedMore(env: Env, fs: Fs, fs1: Fs, fs2: Fs, done: seq<string>, link: string, alt: string, clean: bool)
    requires Cleared(fs, fs1, done, clean) && (clean ==> CanRemove(env, fs, link)) && PairRemoved(env, fs1, fs2, link, alt)
    ensures Cleared(fs, fs2, done + [link, alt], clean)
  {
    hide Tmp;
  }
}
