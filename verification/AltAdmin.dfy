/**
 The administrative directory of update-alternatives: who owns which name and
 which link (utils/update-alternatives.c).  A name is that of a master or of a
 slave; the argument check of --install is there so that no two link groups
 share a name or a link.
 */
module AltAdmin {
  import opened Text
  import opened Alternatives
  import opened AltDb

  // ---- ownership ----

  predicate OwnsName(g: Group, name: string) { g.masterName == name || HasName(g.slaves, name) }

  predicate OwnsLink(g: Group, link: string) { g.masterLink == link || HasLink(g.slaves, link) }

  /** No name and no link in common. */
  ghost predicate Apart(g: Group, h: Group) {
    && (forall n :: OwnsName(g, n) ==> !OwnsName(h, n))
    && (forall l :: OwnsLink(g, l) ==> !OwnsLink(h, l))
  }

  /** Within a group every name and every link has one meaning; the parser of the group's file insists on that. */
  ghost predicate Parseable(g: Group) {
    && PairwiseApart(g.slaves)
    && forall sl :: sl in g.slaves ==> sl.link != g.masterLink && sl.name != g.masterName
  }

  ghost predicate OthersApart(groups: seq<Group>) {
    forall i, j :: 0 <= i < j < |groups| ==> Apart(groups[i], groups[j])
  }

  /** Every name and every link belongs to at most one group, and has one meaning there. */
  ghost predicate Owned(groups: seq<Group>) {
    OthersApart(groups) && forall i :: 0 <= i < |groups| ==> Parseable(groups[i])
  }

  // ---- searching all groups, in directory order (`alternative_map_find`) ----

  function FindName(groups: seq<Group>, name: string): (r: Option<Group>)
    ensures r.Some? ==> r.value in groups && OwnsName(r.value, name)
    ensures r.None? ==> forall g :: g in groups ==> !OwnsName(g, name)
  {
    if groups == [] then None else if OwnsName(groups[0], name) then Some(groups[0]) else FindName(groups[1..], name)
  }

  function FindLink(groups: seq<Group>, link: string): (r: Option<Group>)
    ensures r.Some? ==> r.value in groups && OwnsLink(r.value, link)
    ensures r.None? ==> forall g :: g in groups ==> !OwnsLink(g, link)
  {
    if groups == [] then None else if OwnsLink(groups[0], link) then Some(groups[0]) else FindLink(groups[1..], link)
  }

  function FindSlaveByLink(slaves: seq<SlaveLink>, link: string): (r: Option<SlaveLink>)
    ensures r.Some? ==> r.value in slaves && r.value.link == link
    ensures r.None? ==> forall sl :: sl in slaves ==> sl.link != link
  {
    if slaves == [] then None else if slaves[0].link == link then Some(slaves[0]) else FindSlaveByLink(slaves[1..], link)
  }

  // ---- the arguments of --install ----

  predicate GoodName(name: string)
    ensures !GoodName(name) <==> exists i :: 0 <= i < |name| && name[i] as int in {47, 32, 9}
  {
    '/' !in name && ' ' !in name && '\t' !in name
  }

  predicate Absolute(path: string)
    ensures !Absolute(path) <==> path == "" || path[0] as int != 47
  {
    path != "" && path[0] == '/'
  }

  /** What the command line and the checks on single arguments demand. */
  ghost predicate WellFormed(inst: Group, f: Fileset, present: set<string>) {
    && GoodName(inst.masterName) && Absolute(inst.masterLink) && Absolute(f.masterFile) && f.masterFile in present
    && forall sl :: sl in inst.slaves ==> SlaveArgsOk(sl, f)
  }

  predicate SlaveArgsOk(sl: SlaveLink, f: Fileset)
    ensures !SlaveArgsOk(sl, f) <==>
      || !GoodName(sl.name) || !Absolute(sl.link)
      || forall file :: SlaveFile(f.slaves, sl.name) == Some(file) ==> !Absolute(file)
  {
    GoodName(sl.name) && Absolute(sl.link) && SlaveFile(f.slaves, sl.name).Some? && Absolute(SlaveFile(f.slaves, sl.name).value)
  }

  /** What must hold for the groups to stay apart: no other group owns anything, and no slave takes over another's link. */
  ghost predicate Free(groups: seq<Group>, inst: Group) {
    forall g :: g in groups ==>
      if g.masterName != inst.masterName then Apart(g, inst)
      else forall s, t :: s in g.slaves && t in inst.slaves && s.link == t.link ==> s.name == t.name
  }

  /** One slave of `alternative_check_install_args`. */
  predicate SlaveAllowed(groups: seq<Group>, master: string, sl: SlaveLink) {
    && (FindName(groups, sl.name).Some? ==> FindName(groups, sl.name).value.masterName == master)
    && (FindLink(groups, sl.link).Some? ==>
          var g := FindLink(groups, sl.link).value;
          && g.masterName == master
          && (FindSlaveByLink(g.slaves, sl.link).Some? ==> FindSlaveByLink(g.slaves, sl.link).value.name == sl.name))
  }

  predicate MasterAllowed(groups: seq<Group>, inst: Group) {
    && (FindName(groups, inst.masterName).Some? ==> FindName(groups, inst.masterName).value.masterName == inst.masterName)
    && (FindLink(groups, inst.masterLink).Some? ==> FindLink(groups, inst.masterLink).value.masterName == inst.masterName)
  }

  /**
   `alternative_check_install_args`, for the groups that could be read.  Whatever
   state they are in, the arguments are accepted exactly if the first group found
   to own a name or a link is the one installed into; and for groups that are in
   order, exactly if the groups stay apart.
   */
  method CheckInstallArgs(groups: seq<Group>, inst: Group, f: Fileset, present: set<string>) returns (ok: bool)
    ensures ok <==>
      WellFormed(inst, f, present) && MasterAllowed(groups, inst)
      && forall sl :: sl in inst.slaves ==> SlaveAllowed(groups, inst.masterName, sl)
    ensures Owned(groups) && Parseable(inst) ==> (ok <==> WellFormed(inst, f, present) && Free(groups, inst))
  {
    hide OwnsName, OwnsLink, GoodName, Absolute, SlaveArgsOk, Owned, Parseable, MasterAllowed, SlaveAllowed, Free;
    if Owned(groups) && Parseable(inst) {
      AllowedIffFree(groups, inst);
    }
    if !(GoodName(inst.masterName) && Absolute(inst.masterLink) && Absolute(f.masterFile)) {
      return false;
    }
    ok := false;
    if !MasterAllowed(groups, inst) {
      return;
    }
    if f.masterFile !in present {
      return;
    }
    var i := 0;
    while i < |inst.slaves|
      invariant 0 <= i <= |inst.slaves|
      invariant forall j :: 0 <= j < i ==> SlaveArgsOk(inst.slaves[j], f) && SlaveAllowed(groups, inst.masterName, inst.slaves[j])
    {
      assert inst.slaves[i] in inst.slaves;
      if !SlaveArgsOk(inst.slaves[i], f) {
        return;
      }
      if !SlaveAllowed(groups, inst.masterName, inst.slaves[i]) {
        return;
      }
      i := i + 1;
    }
    return true;
  }

  lemma FreeAllows(groups: seq<Group>, inst: Group)
    requires Owned(groups) && Parseable(inst)
    ensures Free(groups, inst) ==> MasterAllowed(groups, inst)
    ensures Free(groups, inst) ==> forall sl :: sl in inst.slaves ==> SlaveAllowed(groups, inst.masterName, sl)
  { }

  lemma AllowedIffFree(groups: seq<Group>, inst: Group)
    requires Owned(groups) && Parseable(inst)
    ensures Free(groups, inst) <==>
      MasterAllowed(groups, inst) && forall sl :: sl in inst.slaves ==> SlaveAllowed(groups, inst.masterName, sl)
  {
    hide Owned, Parseable, MasterAllowed, SlaveAllowed, Free;
    FreeAllows(groups, inst);
    if MasterAllowed(groups, inst) && forall sl :: sl in inst.slaves ==> SlaveAllowed(groups, inst.masterName, sl) {
      forall i | 0 <= i < |inst.slaves| ensures SlaveAllowed(groups, inst.masterName, inst.slaves[i]) {
        assert inst.slaves[i] in inst.slaves;
      }
      AllowedIsFree(groups, inst);
    }
  }

  /** Owners are unique, so whatever a search finds is the only owner. */
  lemma OnlyOwner(groups: seq<Group>, g: Group, h: Group)
    requires Owned(groups) && g in groups && h in groups && g.masterName != h.masterName
    ensures Apart(g, h)
  { }

  lemma AllowedIsFree(groups: seq<Group>, inst: Group)
    requires Owned(groups) && Parseable(inst) && MasterAllowed(groups, inst)
    requires forall i :: 0 <= i < |inst.slaves| ==> SlaveAllowed(groups, inst.masterName, inst.slaves[i])
    ensures Free(groups, inst)
  {
    hide Owned, Parseable, SlaveAllowed, MasterAllowed, Apart;
    forall g | g in groups && g.masterName != inst.masterName ensures Apart(g, inst) {
      AllowedIsApart(groups, inst, g);
    }
    forall g | g in groups && g.masterName == inst.masterName
      ensures forall s, t :: s in g.slaves && t in inst.slaves && s.link == t.link ==> s.name == t.name
    {
      forall s, t | s in g.slaves && t in inst.slaves && s.link == t.link ensures s.name == t.name {
        AllowedKeepsLink(groups, inst.masterName, g, s, t);
      }
    }
  }

  lemma AllowedIsApart(groups: seq<Group>, inst: Group, g: Group)
    requires Owned(groups) && MasterAllowed(groups, inst) && g in groups && g.masterName != inst.masterName
    requires forall i :: 0 <= i < |inst.slaves| ==> SlaveAllowed(groups, inst.masterName, inst.slaves[i])
    ensures Apart(g, inst)
  {
    hide Owned;
    forall n | OwnsName(g, n) ensures !OwnsName(inst, n) {
      var h := FindName(groups, n).value;
      if h.masterName == inst.masterName { OnlyOwner(groups, g, h); }
    }
    forall l | OwnsLink(g, l) ensures !OwnsLink(inst, l) {
      var h := FindLink(groups, l).value;
      if h.masterName == inst.masterName { OnlyOwner(groups, g, h); }
    }
  }

  lemma AllowedKeepsLink(groups: seq<Group>, master: string, g: Group, s: SlaveLink, t: SlaveLink)
    requires Owned(groups) && g in groups && g.masterName == master && s in g.slaves && s.link == t.link
    requires SlaveAllowed(groups, master, t)
    ensures s.name == t.name
  { }

  // ---- merging an installation into a group ----

  /** `alternative_add_slave`: replace the slave of that name, or add at the end. */
  function AddSlave(slaves: seq<SlaveLink>, sl: SlaveLink): seq<SlaveLink> {
    if slaves == [] then [sl]
    else if slaves[0].name == sl.name then [sl] + slaves[1..]
    else [slaves[0]] + AddSlave(slaves[1..], sl)
  }

  /** The loop of `alternative_evolve`. */
  function Merge(slaves: seq<SlaveLink>, news: seq<SlaveLink>): seq<SlaveLink>
    decreases |news|
  {
    if news == [] then slaves else Merge(AddSlave(slaves, news[0]), news[1..])
  }

  /** `alternative_add_choice`. */
  function AddChoice(choices: seq<Fileset>, f: Fileset): seq<Fileset> {
    if choices == [] then [f]
    else if choices[0].masterFile == f.masterFile then [f] + choices[1..]
    else [choices[0]] + AddChoice(choices[1..], f)
  }

  /** `alternative_remove_choice`. */
  function Without(choices: seq<Fileset>, file: string): seq<Fileset> {
    if choices == [] then []
    else if choices[0].masterFile == file then choices[1..]
    else [choices[0]] + Without(choices[1..], file)
  }

  /** Two lists of slaves that may be merged: only slaves of the same name share a link. */
  ghost predicate Mergeable(slaves: seq<SlaveLink>, news: seq<SlaveLink>) {
    forall s, t :: s in slaves && t in news && s.link == t.link ==> s.name == t.name
  }

  lemma ApartCons(x: SlaveLink, xs: seq<SlaveLink>)
    requires PairwiseApart(xs) && forall y :: y in xs ==> y.name != x.name && y.link != x.link
    ensures PairwiseApart([x] + xs)
  { }

  lemma ApartTail(slaves: seq<SlaveLink>)
    requires PairwiseApart(slaves) && slaves != []
    ensures PairwiseApart(slaves[1..]) && forall y :: y in slaves[1..] ==> y.name != slaves[0].name && y.link != slaves[0].link
    ensures forall s :: s in slaves <==> s == slaves[0] || s in slaves[1..]
  {
    assert forall i :: 1 <= i < |slaves| ==> slaves[i] == slaves[1..][i - 1];
  }

  lemma {:induction false} AddSlaveIs(slaves: seq<SlaveLink>, sl: SlaveLink)
    requires PairwiseApart(slaves) && Mergeable(slaves, [sl])
    ensures PairwiseApart(AddSlave(slaves, sl))
    ensures forall s :: s in AddSlave(slaves, sl) <==> s == sl || (s in slaves && s.name != sl.name)
    decreases |slaves|
  {
    assert sl in [sl];
    if slaves != [] {
      hide PairwiseApart;
      ApartTail(slaves);
      if slaves[0].name != sl.name {
        AddSlaveIs(slaves[1..], sl);
        ApartCons(slaves[0], AddSlave(slaves[1..], sl));
      } else {
        ApartCons(sl, slaves[1..]);
      }
    }
  }

  lemma {:induction false} MergeIs(slaves: seq<SlaveLink>, news: seq<SlaveLink>)
    requires PairwiseApart(slaves) && PairwiseApart(news) && Mergeable(slaves, news)
    ensures PairwiseApart(Merge(slaves, news))
    ensures forall s :: s in Merge(slaves, news) <==> s in news || (s in slaves && !HasName(news, s.name))
    decreases |news|
  {
    hide AddSlave;
    if news != [] {
      var sl := news[0];
      var rest := news[1..];
      assert forall i :: 1 <= i < |news| ==> news[i] == rest[i - 1];
      assert Mergeable(slaves, [sl]);
      AddSlaveIs(slaves, sl);
      var next := AddSlave(slaves, sl);
      assert Mergeable(next, rest);
      MergeIs(next, rest);
      forall s ensures HasName(news, s) <==> s == sl.name || HasName(rest, s) { HasNameCons(news, s); }
      assert forall s :: s in news <==> s == sl || s in rest;
      assert !HasName(rest, sl.name);
    }
  }

  lemma HasNameCons(news: seq<SlaveLink>, name: string)
    requires news != []
    ensures HasName(news, name) <==> news[0].name == name || HasName(news[1..], name)
  { }

  // ---- commands ----

  /** A group as the next command reads it: choices with missing files are gone (`AltDb.SaveLoadRoundTrip`). */
  function Loaded(g: Group, present: set<string>): Group {
    g.(slaves := Plain(g.slaves), choices := ReadBack(g.choices, Plain(g.slaves), present))
  }

  /** --install on an existing group, or on a new one. */
  function Extended(a: Group, inst: Group, f: Fileset): Group {
    a.(masterLink := inst.masterLink, slaves := Merge(a.slaves, inst.slaves), choices := AddChoice(a.choices, f))
  }

  /**
   `at` is the place of a new file in directory order.  `status` is the mode the
   command leaves, and `modified` tells whether it rewrites the file; they depend
   on the links on disk.
   */
  datatype Command =
    | Install(inst: Group, choice: Fileset, at: nat, status: Mode)
    | RemoveChoice(name: string, path: string, status: Mode, modified: bool)
    | RemoveAll(name: string)
    | SetStatus(name: string, status: Mode, modified: bool)

  function Position(groups: seq<Group>, name: string): (r: nat)
    ensures r <= |groups|
    ensures r < |groups| ==> groups[r].masterName == name
    ensures r == |groups| ==> forall g :: g in groups ==> g.masterName != name
  {
    if groups == [] || groups[0].masterName == name then 0 else 1 + Position(groups[1..], name)
  }

  function Dropped(groups: seq<Group>, k: nat): seq<Group>
    requires k < |groups|
  {
    groups[..k] + groups[k + 1..]
  }

  function Inserted(groups: seq<Group>, at: nat, g: Group): seq<Group> {
    var k := if at <= |groups| then at else |groups|;
    groups[..k] + [g] + groups[k..]
  }

  /** `alternative_update` on the file of group k: gone if no choice is left, rewritten if something changed. */
  function Updated(groups: seq<Group>, k: nat, g: Group, modified: bool): seq<Group>
    requires k < |groups|
  {
    if g.choices == [] then Dropped(groups, k) else if modified then groups[k := Saved(g)] else groups
  }

  ghost predicate Accepted(groups: seq<Group>, inst: Group, f: Fileset, present: set<string>) {
    Parseable(inst) && WellFormed(inst, f, present) && Free(groups, inst)
  }

  /** The directory after a command. */
  ghost function After(groups: seq<Group>, c: Command, present: set<string>): seq<Group> {
    match c
    case Install(inst, f, at, status) =>
      if !Accepted(groups, inst, f, present) then groups
      else
        var k := Position(groups, inst.masterName);
        if k < |groups| then groups[k := Saved(Extended(Loaded(groups[k], present), inst, f).(status := status))]
        else Inserted(groups, at, Saved(inst.(choices := [f])))
    case RemoveChoice(name, path, status, modified) =>
      var k := Position(groups, name);
      if k == |groups| then groups
      else
        var g := Loaded(groups[k], present);
        Updated(groups, k, g.(choices := Without(g.choices, path), status := status), modified)
    case RemoveAll(name) =>
      var k := Position(groups, name);
      if k == |groups| then groups else Dropped(groups, k)
    case SetStatus(name, status, modified) =>
      var k := Position(groups, name);
      if k == |groups| then groups
      else Updated(groups, k, Loaded(groups[k], present).(status := status), modified)
  }

  /**
   The one thing the argument check lets through: the master link moves to where
   a slave of the same group stays, because the command does not mention that
   slave and a choice still uses it.
   */
  ghost predicate MovesOntoSlave(groups: seq<Group>, c: Command, present: set<string>) {
    && c.Install? && Accepted(groups, c.inst, c.choice, present)
    && var k := Position(groups, c.inst.masterName);
       k < |groups| && Lands(Loaded(groups[k], present), c.inst, c.choice)
  }

  // ---- what a rewritten group owns ----

  /** h owns nothing that g does not. */
  ghost predicate OwnsNoMore(h: Group, g: Group) {
    && (forall n :: OwnsName(h, n) ==> OwnsName(g, n))
    && (forall l :: OwnsLink(h, l) ==> OwnsLink(g, l))
  }

  lemma FewerSlaves(h: Group, g: Group)
    requires h.masterName == g.masterName && h.masterLink == g.masterLink
    requires forall sl :: sl in h.slaves ==> exists s :: s in g.slaves && s.name == sl.name && s.link == sl.link
    ensures OwnsNoMore(h, g)
  { }

  lemma SavedSlaves(g: Group)
    requires PairwiseApart(g.slaves)
    ensures PairwiseApart(Saved(g).slaves)
    ensures forall sl :: sl in Saved(g).slaves <==> sl in g.slaves && Used(sl, g.choices)
  {
    hide SortBy, Used, PairwiseApart;
    UsedApart(g.slaves, g.choices);
    SortedSlaves(UsedSlaves(g.slaves, g.choices));
  }

  lemma LoadedParseable(g: Group, present: set<string>)
    requires Parseable(g)
    ensures Parseable(Loaded(g, present)) && OwnsNoMore(Loaded(g, present), g)
    ensures Loaded(g, present).masterName == g.masterName
  { }

  /** Writing a group out keeps it in order and owning no more. */
  lemma SavedParseable(g: Group)
    requires Parseable(g)
    ensures Parseable(Saved(g)) && OwnsNoMore(Saved(g), g)
  {
    SavedSlaves(g);
    hide Used, PairwiseApart, SortBy, UsedSlaves;
    FewerSlaves(Saved(g), g);
  }

  lemma ExtendedSlaves(a: Group, inst: Group, f: Fileset)
    requires Parseable(a) && Parseable(inst) && Mergeable(a.slaves, inst.slaves)
    ensures var h := Saved(Extended(a, inst, f));
      && PairwiseApart(h.slaves)
      && forall sl :: sl in h.slaves <==>
           (sl in inst.slaves || (sl in a.slaves && !HasName(inst.slaves, sl.name))) && Used(sl, AddChoice(a.choices, f))
  {
    hide Used, PairwiseApart, SortBy, UsedSlaves, Merge, AddChoice, Mergeable;
    MergeIs(a.slaves, inst.slaves);
    SavedSlaves(Extended(a, inst, f));
  }

  lemma ExtendedOwns(a: Group, inst: Group, h: Group)
    requires h.masterName == inst.masterName && h.masterLink == inst.masterLink
    requires forall sl :: sl in h.slaves ==> sl in inst.slaves || sl in a.slaves
    ensures forall n :: OwnsName(h, n) ==> OwnsName(a, n) || OwnsName(inst, n)
    ensures forall l :: OwnsLink(h, l) ==> OwnsLink(a, l) || OwnsLink(inst, l)
  {
    forall n | OwnsName(h, n) ensures OwnsName(a, n) || OwnsName(inst, n) {
      if h.masterName != n {
        var i :| 0 <= i < |h.slaves| && h.slaves[i].name == n;
        assert h.slaves[i] in h.slaves;
      }
    }
    forall l | OwnsLink(h, l) ensures OwnsLink(a, l) || OwnsLink(inst, l) {
      if h.masterLink != l {
        var i :| 0 <= i < |h.slaves| && h.slaves[i].link == l;
        assert h.slaves[i] in h.slaves;
      }
    }
  }

  /** The master link of a lands on a slave that the installation does not mention and that stays in use. */
  ghost predicate Lands(a: Group, inst: Group, f: Fileset) {
    exists sl :: sl in a.slaves && sl.link == inst.masterLink && !HasName(inst.slaves, sl.name)
              && Used(sl, AddChoice(a.choices, f))
  }

  /** What --install makes of a group: in order exactly when its master link did not move onto a slave that stays. */
  lemma ExtendedIs(a: Group, inst: Group, f: Fileset)
    requires Parseable(a) && Parseable(inst) && a.masterName == inst.masterName && Mergeable(a.slaves, inst.slaves)
    ensures var h := Saved(Extended(a, inst, f));
      && (forall n :: OwnsName(h, n) ==> OwnsName(a, n) || OwnsName(inst, n))
      && (forall l :: OwnsLink(h, l) ==> OwnsLink(a, l) || OwnsLink(inst, l))
      && (Parseable(h) <==> !Lands(a, inst, f))
  {
    var h := Saved(Extended(a, inst, f));
    ExtendedSlaves(a, inst, f);
    assert h.masterName == inst.masterName && h.masterLink == inst.masterLink;
    hide Used, PairwiseApart, AddChoice, Mergeable, Saved, OwnsName, OwnsLink, HasName;
    ExtendedOwns(a, inst, h);
  }

  // ---- one command ----

  lemma ReplaceApart(groups: seq<Group>, k: nat, h: Group)
    requires OthersApart(groups) && k < |groups|
    requires forall j :: 0 <= j < |groups| && j != k ==> Apart(groups[j], h)
    ensures OthersApart(groups[k := h])
  { }

  lemma ApartSym(g: Group, h: Group)
    requires Apart(g, h)
    ensures Apart(h, g)
  { }

  lemma ApartShrinks(g: Group, big: Group, h: Group)
    requires Apart(g, big) && OwnsNoMore(h, big)
    ensures Apart(g, h)
  { }

  /** A group may be rewritten to own no more. */
  lemma RewriteKeeps(groups: seq<Group>, k: nat, h: Group)
    requires Owned(groups) && k < |groups| && Parseable(h) && OwnsNoMore(h, groups[k])
    ensures Owned(groups[k := h])
  { }

  lemma DropKeeps(groups: seq<Group>, k: nat)
    requires Owned(groups) && k < |groups|
    ensures Owned(Dropped(groups, k))
  { }

  lemma UpdateKeeps(groups: seq<Group>, k: nat, g: Group, modified: bool)
    requires Owned(groups) && k < |groups| && Parseable(g) && OwnsNoMore(g, groups[k])
    ensures Owned(Updated(groups, k, g, modified))
  {
    hide Owned, Parseable, OwnsName, OwnsLink, Saved, Dropped;
    if g.choices == [] {
      DropKeeps(groups, k);
    } else if modified {
      SavedParseable(g);
      RewriteKeeps(groups, k, Saved(g));
    }
  }

  lemma InsertKeeps(groups: seq<Group>, at: nat, g: Group)
    requires Owned(groups) && Parseable(g) && forall h :: h in groups ==> Apart(h, g)
    ensures Owned(Inserted(groups, at, g))
  {
    hide OwnsName, OwnsLink, Parseable;
    var k := if at <= |groups| then at else |groups|;
    var r := Inserted(groups, at, g);
    assert forall i :: 0 <= i < |r| ==> r[i] == if i < k then groups[i] else if i == k then g else groups[i - 1];
    forall i, j | 0 <= i < j < |r| ensures Apart(r[i], r[j]) {
      if i == k { ApartSym(groups[j - 1], g); }
    }
  }

  lemma NewGroupKeeps(groups: seq<Group>, inst: Group, f: Fileset, at: nat)
    requires Owned(groups) && Parseable(inst) && Free(groups, inst)
    requires forall g :: g in groups ==> g.masterName != inst.masterName
    ensures Owned(Inserted(groups, at, Saved(inst.(choices := [f]))))
  {
    hide Owned, Parseable, OwnsName, OwnsLink, Saved, Inserted;
    var g := inst.(choices := [f]);
    SameOwner(inst, g);
    SavedParseable(g);
    forall h | h in groups ensures Apart(h, Saved(g)) {
      ApartShrinks(h, inst, g);
      ApartShrinks(h, g, Saved(g));
    }
    InsertKeeps(groups, at, Saved(g));
  }

  lemma SameOwner(g: Group, h: Group)
    requires h.masterName == g.masterName && h.masterLink == g.masterLink && h.slaves == g.slaves && Parseable(g)
    ensures Parseable(h) && OwnsNoMore(h, g)
  { }

  lemma OwnsNoMoreTrans(a: Group, b: Group, c: Group)
    requires OwnsNoMore(a, b) && OwnsNoMore(b, c)
    ensures OwnsNoMore(a, c)
  { }

  lemma MergeableLoaded(g: Group, inst: Group, present: set<string>)
    requires Mergeable(g.slaves, inst.slaves)
    ensures Mergeable(Loaded(g, present).slaves, inst.slaves)
  { }

  /** Another group stays apart from an extended one. */
  lemma ExtendedApart(other: Group, g: Group, a: Group, inst: Group, h: Group)
    requires Apart(other, g) && Apart(other, inst) && OwnsNoMore(a, g)
    requires forall n :: OwnsName(h, n) ==> OwnsName(a, n) || OwnsName(inst, n)
    requires forall l :: OwnsLink(h, l) ==> OwnsLink(a, l) || OwnsLink(inst, l)
    ensures Apart(other, h)
  { }

  /** --install on an existing group. */
  lemma ExtendKeeps(groups: seq<Group>, k: nat, inst: Group, f: Fileset, status: Mode, present: set<string>)
    requires Owned(groups) && k < |groups| && Parseable(inst) && Free(groups, inst) && groups[k].masterName == inst.masterName
    ensures var a := Loaded(groups[k], present);
      var r := groups[k := Saved(Extended(a, inst, f).(status := status))];
      OthersApart(r) && (Owned(r) <==> !Lands(a, inst, f))
  {
    hide Parseable, OwnsName, OwnsLink, Saved, Loaded, Lands, Apart, OwnsNoMore;
    var g := groups[k];
    var a := Loaded(g, present);
    var h := Saved(Extended(a, inst, f));
    var h' := Saved(Extended(a, inst, f).(status := status));
    assert g in groups;
    LoadedParseable(g, present);
    MergeableLoaded(g, inst, present);
    ExtendedIs(a, inst, f);
    SavedStatus(Extended(a, inst, f), status);
    forall j | 0 <= j < |groups| && j != k ensures Apart(groups[j], h') {
      assert groups[j] in groups;
      OthersElsewhere(groups, j, k);
      ExtendedApart(groups[j], g, a, inst, h);
      StatusApart(groups[j], h, status);
    }
    StatusParseable(h, status);
    ReplaceApart(groups, k, h');
    ReplacedOwned(groups, k, h');
  }

  lemma SavedStatus(g: Group, status: Mode)
    ensures Saved(g.(status := status)) == Saved(g).(status := status)
  { }

  lemma StatusApart(other: Group, h: Group, status: Mode)
    requires Apart(other, h)
    ensures Apart(other, h.(status := status))
  { }

  lemma StatusParseable(h: Group, status: Mode)
    ensures Parseable(h.(status := status)) <==> Parseable(h)
  { }

  lemma OthersElsewhere(groups: seq<Group>, j: nat, k: nat)
    requires OthersApart(groups) && j < |groups| && k < |groups| && j != k
    ensures Apart(groups[j], groups[k]) && groups[j].masterName != groups[k].masterName
  {
    if k < j { ApartSym(groups[k], groups[j]); }
    assert Apart(groups[j], groups[k]);
    assert OwnsName(groups[j], groups[j].masterName) && OwnsName(groups[k], groups[k].masterName);
  }

  lemma ReplacedOwned(groups: seq<Group>, k: nat, h: Group)
    requires Owned(groups) && k < |groups| && OthersApart(groups[k := h])
    ensures Owned(groups[k := h]) <==> Parseable(h)
  {
    hide Parseable, OthersApart;
    assert groups[k := h][k] == h;
  }

  /**
   Ownership, one command: groups never come to share a name or a link; and all
   files stay readable exactly unless an --install moves the master link onto a
   slave that stays.
   */
  lemma {:induction false} CommandKeeps(groups: seq<Group>, c: Command, present: set<string>)
    requires Owned(groups)
    ensures OthersApart(After(groups, c, present))
    ensures Owned(After(groups, c, present)) <==> !MovesOntoSlave(groups, c, present)
  {
    hide OthersApart, Parseable, Saved, Loaded, Lands, Free, WellFormed, Inserted, Dropped, Updated, OwnsNoMore, Extended;
    match c
    case Install(inst, f, at, status) =>
      if Accepted(groups, inst, f, present) {
        var k := Position(groups, inst.masterName);
        if k < |groups| {
          ExtendKeeps(groups, k, inst, f, status, present);
        } else {
          NewGroupKeeps(groups, inst, f, at);
        }
      }
    case RemoveChoice(name, path, status, modified) =>
      var k := Position(groups, name);
      if k < |groups| {
        var g := Loaded(groups[k], present);
        LoadedParseable(groups[k], present);
        ShrinkKeeps(groups, k, g, g.(choices := Without(g.choices, path), status := status), modified);
      }
    case RemoveAll(name) =>
      var k := Position(groups, name);
      if k < |groups| { DropKeeps(groups, k); }
    case SetStatus(name, status, modified) =>
      var k := Position(groups, name);
      if k < |groups| {
        var g := Loaded(groups[k], present);
        LoadedParseable(groups[k], present);
        ShrinkKeeps(groups, k, g, g.(status := status), modified);
      }
  }

  lemma ShrinkKeeps(groups: seq<Group>, k: nat, g: Group, h: Group, modified: bool)
    requires Owned(groups) && k < |groups| && Parseable(g) && OwnsNoMore(g, groups[k])
    requires h.masterName == g.masterName && h.masterLink == g.masterLink && h.slaves == g.slaves
    ensures Owned(Updated(groups, k, h, modified))
  {
    hide Owned, Parseable, OwnsNoMore, Updated;
    SameOwner(g, h);
    OwnsNoMoreTrans(h, g, groups[k]);
    UpdateKeeps(groups, k, h, modified);
  }

  // ---- any number of commands ----

  /** Commands, each with the files present when it runs. */
  ghost function AfterAll(groups: seq<Group>, run: seq<(Command, set<string>)>): seq<Group>
    decreases |run|
  {
    if run == [] then groups else AfterAll(After(groups, run[0].0, run[0].1), run[1..])
  }

  ghost predicate NeverMovesOntoSlave(groups: seq<Group>, run: seq<(Command, set<string>)>)
    decreases |run|
  {
    run == [] || (!MovesOntoSlave(groups, run[0].0, run[0].1) && NeverMovesOntoSlave(After(groups, run[0].0, run[0].1), run[1..]))
  }

  /**
   Ownership over any run: every name and link has one owner after every command
   if and only if no command moves a master link onto a slave that stays.
   */
  lemma {:induction false} Ownership(groups: seq<Group>, run: seq<(Command, set<string>)>)
    requires Owned(groups)
    ensures NeverMovesOntoSlave(groups, run) <==> forall k :: 0 <= k <= |run| ==> Owned(AfterAll(groups, run[..k]))
    decreases |run|
  {
    hide Owned, After, MovesOntoSlave;
    if run != [] {
      var next := After(groups, run[0].0, run[0].1);
      CommandKeeps(groups, run[0].0, run[0].1);
      forall k | 1 <= k <= |run| ensures AfterAll(groups, run[..k]) == AfterAll(next, run[1..][..k - 1]) {
        assert run[..k][1..] == run[1..][..k - 1];
      }
      assert AfterAll(next, run[1..][..0]) == next;
      if Owned(next) {
        Ownership(next, run[1..]);
        if forall k :: 0 <= k <= |run| ==> Owned(AfterAll(groups, run[..k])) {
          forall k | 0 <= k <= |run[1..]| ensures Owned(AfterAll(next, run[1..][..k])) {
            assert Owned(AfterAll(groups, run[..k + 1]));
          }
        }
      } else {
        assert AfterAll(groups, run[..1]) == next;
      }
    }
  }

  // ---- such a command exists: "vi" has a slave "ex" at /bin/ex, and its master link is moved to /bin/ex ----

  function Vi(): Group {
    Group("vi", "/bin/vi", Auto, [SlaveLink("ex", "/bin/ex", false)], [Fileset("/opt/vim", 10, [("ex", "/opt/vimex")])])
  }

  function Moved(): Group { Group("vi", "/bin/ex", Auto, [], []) }

  function Nvi(): Fileset { Fileset("/opt/nvi", 20, []) }

  lemma ViLoaded(present: set<string>)
    requires "/opt/vim" in present
    ensures Loaded(Vi(), present) == Vi()
  {
    var v := Vi().choices[0];
    var sl := SlaveLink("ex", "/bin/ex", false);
    assert Plain([sl]) == [sl];
    assert SlaveFile(v.slaves, "ex") == Some("/opt/vimex");
    assert [sl][1..] == [] && Filled(v, [sl]) == [("ex", "/opt/vimex")];
    assert Vi().choices[1..] == [] && ReadBack([], [sl], present) == [];
  }

  lemma ViLands()
    ensures Lands(Vi(), Moved(), Nvi())
  {
    var v := Vi().choices[0];
    var sl := SlaveLink("ex", "/bin/ex", false);
    assert Vi().choices[1..] == [] && AddChoice([], Nvi()) == [Nvi()];
    assert AddChoice(Vi().choices, Nvi()) == [v, Nvi()];
    assert SlaveFile(v.slaves, "ex") == Some("/opt/vimex");
    assert v in [v, Nvi()] && HasSlave(v, "ex");
    assert sl in Vi().slaves;
  }

  lemma MasterOntoSlave()
    ensures var present := {"/opt/vim", "/opt/nvi"};
      var c := Install(Moved(), Nvi(), 0, Auto);
      && Owned([Vi()]) && Accepted([Vi()], Moved(), Nvi(), present)
      && MovesOntoSlave([Vi()], c, present) && !Owned(After([Vi()], c, present))
  {
    hide Lands, Loaded, OwnsName, OwnsLink, After;
    var present := {"/opt/vim", "/opt/nvi"};
    assert Parseable(Vi());
    assert Free([Vi()], Moved());
    ViLoaded(present);
    ViLands();
    assert Position([Vi()], "vi") == 0;
    CommandKeeps([Vi()], Install(Moved(), Nvi(), 0, Auto), present);
  }
}
