/**
 What the commands of update-alternatives come to (utils/update-alternatives.c):
 links that change place take their targets along, what a command leaves in its
 file is the step of the directory that ownership is about, and an update without
 anything to go by may leave a group broken.
 */
module AltEffects {
  import opened Text
  import opened Alternatives
  import opened AltDb
  import opened AltAdmin
  import opened AltManager

  // ---- links that move take their targets along ----

  /** A slave of the installation whose link is to move away from `s.link`. */
  ghost predicate Moving(fs: Fs, slaves: seq<SlaveLink>, t: SlaveLink, s: SlaveLink) {
    FindSlave(slaves, t.name) == Some(s) && s.link != t.link && IsLink(fs, s.link)
  }

  /** The file the slave is to lead to, with the choice that is current, exists. */
  ghost predicate Leads(env: Env, fs: Fs, current: Option<string>, t: SlaveLink, f: Fileset) {
    var file := if current == Some(f.masterFile) then SlaveFile(f.slaves, t.name) else ReadLink(fs, AltPath(env, t.name));
    file.Some? && file.value in env.present
  }

  ghost predicate Touched(fs: Fs, slaves: seq<SlaveLink>, t: SlaveLink, p: string) {
    exists s :: Moving(fs, slaves, t, s) && (p == s.link || p == t.link)
  }

  /** The first n slaves have moved, and nothing else. */
  ghost predicate Followed(env: Env, fs: Fs, slaves: seq<SlaveLink>, current: Option<string>, news: seq<SlaveLink>, f: Fileset,
                           n: nat, fs': Fs)
    requires n <= |news|
  {
    && (forall j, s :: 0 <= j < n && Moving(fs, slaves, news[j], s) ==> HasMoved(env, fs, current, news[j], f, s, fs'))
    && (forall p :: Spared(fs, slaves, news, n, p) ==> Look(fs', p) == Look(fs, p))
  }

  /** A slave link is gone from its old place, and took its target along if that is of use. */
  ghost predicate HasMoved(env: Env, fs: Fs, current: Option<string>, t: SlaveLink, f: Fileset, s: SlaveLink, fs': Fs) {
    s.link !in fs' && (Leads(env, fs, current, t, f) ==> Look(fs', t.link) == Look(fs, s.link))
  }

  ghost predicate Spared(fs: Fs, slaves: seq<SlaveLink>, news: seq<SlaveLink>, n: nat, p: string)
    requires n <= |news|
  {
    forall j :: 0 <= j < n ==> !Touched(fs, slaves, news[j], p)
  }

  /** Slaves that may be merged, and whose entries in altdir are no links of theirs. */
  ghost predicate Movable(env: Env, slaves: seq<SlaveLink>, news: seq<SlaveLink>) {
    && PairwiseApart(slaves) && PairwiseApart(news) && Mergeable(slaves, news)
    && forall t, s :: t in news && (s in slaves || s in news) ==> AltPath(env, t.name) != s.link
  }

  lemma {:induction false} FindAdded(slaves: seq<SlaveLink>, x: SlaveLink, name: string)
    requires x.name != name
    ensures FindSlave(AddSlave(slaves, x), name) == FindSlave(slaves, name)
    decreases |slaves|
  {
    if slaves != [] { FindAdded(slaves[1..], x, name); }
  }

  lemma {:induction false} FindMerged(slaves: seq<SlaveLink>, news: seq<SlaveLink>, n: nat, name: string)
    requires n <= |news| && forall j :: 0 <= j < n ==> news[j].name != name
    ensures FindSlave(Merge(slaves, news[..n]), name) == FindSlave(slaves, name)
    decreases n
  {
    hide FindSlave, AddSlave, Merge;
    if n == 0 {
      MergeNothing(slaves, news);
    } else {
      FindMerged(slaves, news, n - 1, name);
      MergeSnoc(slaves, news, n - 1);
      FindAdded(Merge(slaves, news[..n - 1]), news[n - 1], name);
    }
  }

  /** One slave moves, or stays if it has no link to move. */
  lemma OneMoves(env: Env, fs: Fs, slaves: seq<SlaveLink>, current: Option<string>, t: SlaveLink, f: Fileset, s: SlaveLink)
    requires Moving(fs, slaves, t, s)
    ensures AfterSlave(env, fs, slaves, current, t, f)
         == if Leads(env, fs, current, t, f) then Renamed(fs, s.link, t.link) else fs - {s.link}
  {
    hide AltPath, FindSlave;
  }

  lemma NoneMoves(env: Env, fs: Fs, slaves: seq<SlaveLink>, current: Option<string>, t: SlaveLink, f: Fileset)
    requires forall s :: !Moving(fs, slaves, t, s)
    ensures AfterSlave(env, fs, slaves, current, t, f) == fs
  {
    hide AltPath, FindSlave;
    if FindSlave(slaves, t.name).Some? { assert !Moving(fs, slaves, t, FindSlave(slaves, t.name).value); }
  }

  /** The paths of one slave are not those of another. */
  lemma Elsewhere(env: Env, fs: Fs, slaves: seq<SlaveLink>, news: seq<SlaveLink>, j: nat, n: nat, p: string)
    requires Movable(env, slaves, news) && j < |news| && n < |news| && j != n
    requires p == AltPath(env, news[n].name) || p == news[n].link || exists s :: FindSlave(slaves, news[n].name) == Some(s) && p == s.link
    ensures !Touched(fs, slaves, news[j], p)
  {
    hide AltPath, FindSlave, IsLink;
    assert news[j] in news && news[n] in news;
  }

  lemma SameLook(env: Env, fs: Fs, fs': Fs, slaves: seq<SlaveLink>, current: Option<string>, news: seq<SlaveLink>, f: Fileset, n: nat)
    requires Movable(env, slaves, news) && n < |news| && Followed(env, fs, slaves, current, news, f, n, fs')
    ensures forall s :: Moving(fs', slaves, news[n], s) <==> Moving(fs, slaves, news[n], s)
    ensures Leads(env, fs', current, news[n], f) <==> Leads(env, fs, current, news[n], f)
    ensures forall s :: FindSlave(slaves, news[n].name) == Some(s) ==> Look(fs', s.link) == Look(fs, s.link)
  {
    hide FindSlave, AltPath, Movable, Touched;
    var t := news[n];
    forall j | 0 <= j < n ensures !Touched(fs, slaves, news[j], AltPath(env, t.name)) {
      Elsewhere(env, fs, slaves, news, j, n, AltPath(env, t.name));
    }
    assert Look(fs', AltPath(env, t.name)) == Look(fs, AltPath(env, t.name));
    forall s | FindSlave(slaves, t.name) == Some(s) ensures Look(fs', s.link) == Look(fs, s.link) {
      forall j | 0 <= j < n ensures !Touched(fs, slaves, news[j], s.link) {
        Elsewhere(env, fs, slaves, news, j, n, s.link);
      }
    }
  }

  lemma FollowedNext(env: Env, fs: Fs, slaves: seq<SlaveLink>, current: Option<string>, news: seq<SlaveLink>, f: Fileset, n: nat, c: Fs)
    requires Movable(env, slaves, news) && n < |news| && Followed(env, fs, slaves, current, news, f, n, c)
    ensures Followed(env, fs, slaves, current, news, f, n + 1, AfterSlave(env, c, slaves, current, news[n], f))
  {
    var t := news[n];
    var c' := AfterSlave(env, c, slaves, current, t, f);
    SameLook(env, fs, c, slaves, current, news, f, n);
    hide FindSlave, AltPath, Leads, AfterSlave, IsLink, Movable, Moving, Touched, Look, HasMoved, Spared;
    forall j, r | 0 <= j < n + 1 && Moving(fs, slaves, news[j], r) ensures HasMoved(env, fs, current, news[j], f, r, c') {
      if j < n {
        StayMoved(env, fs, slaves, current, news, f, j, n, r, c);
      } else {
        NowMoved(env, fs, slaves, current, t, f, r, c);
      }
    }
    forall p | Spared(fs, slaves, news, n + 1, p) ensures Look(c', p) == Look(fs, p) {
      SparedLess(fs, slaves, news, n, p);
      StillSpared(env, fs, slaves, current, t, f, c, p);
    }
  }

  lemma SparedLess(fs: Fs, slaves: seq<SlaveLink>, news: seq<SlaveLink>, n: nat, p: string)
    requires n < |news| && Spared(fs, slaves, news, n + 1, p)
    ensures Spared(fs, slaves, news, n, p) && !Touched(fs, slaves, news[n], p)
  { }

  lemma NowMoved(env: Env, fs: Fs, slaves: seq<SlaveLink>, current: Option<string>, t: SlaveLink, f: Fileset, s: SlaveLink, c: Fs)
    requires Moving(c, slaves, t, s) && (Leads(env, c, current, t, f) <==> Leads(env, fs, current, t, f))
    requires Look(c, s.link) == Look(fs, s.link)
    ensures HasMoved(env, fs, current, t, f, s, AfterSlave(env, c, slaves, current, t, f))
  {
    hide Moving, Leads, AfterSlave;
    MovedLook(env, c, slaves, current, t, f, s);
  }

  lemma StayMoved(env: Env, fs: Fs, slaves: seq<SlaveLink>, current: Option<string>, news: seq<SlaveLink>, f: Fileset,
                  j: nat, n: nat, r: SlaveLink, c: Fs)
    requires Movable(env, slaves, news) && j < n < |news| && Moving(fs, slaves, news[j], r)
    requires HasMoved(env, fs, current, news[j], f, r, c)
    ensures HasMoved(env, fs, current, news[j], f, r, AfterSlave(env, c, slaves, current, news[n], f))
  {
    hide Moving, Leads, AfterSlave, FindSlave, Movable;
    if s :| Moving(c, slaves, news[n], s) {
      MovedLook(env, c, slaves, current, news[n], f, s);
      FoundFor(c, slaves, news[n], s);
      OthersLinks(env, fs, slaves, news, j, n, r, s);
      assert Look(AfterSlave(env, c, slaves, current, news[n], f), r.link) == Look(c, r.link);
    } else {
      NoneMoves(env, c, slaves, current, news[n], f);
    }
  }

  lemma StillSpared(env: Env, fs: Fs, slaves: seq<SlaveLink>, current: Option<string>, t: SlaveLink, f: Fileset, c: Fs, p: string)
    requires (forall s :: Moving(c, slaves, t, s) <==> Moving(fs, slaves, t, s)) && !Touched(fs, slaves, t, p)
    ensures Look(AfterSlave(env, c, slaves, current, t, f), p) == Look(c, p)
  {
    hide Moving, Leads, AfterSlave, FindSlave, Touched;
    if s :| Moving(c, slaves, t, s) {
      MovedLook(env, c, slaves, current, t, f, s);
      NotItsPath(fs, slaves, t, s, p);
    } else {
      NoneMoves(env, c, slaves, current, t, f);
    }
  }

  lemma FoundFor(fs: Fs, slaves: seq<SlaveLink>, t: SlaveLink, s: SlaveLink)
    requires Moving(fs, slaves, t, s)
    ensures FindSlave(slaves, t.name) == Some(s)
  { }

  lemma NotItsPath(fs: Fs, slaves: seq<SlaveLink>, t: SlaveLink, s: SlaveLink, p: string)
    requires Moving(fs, slaves, t, s) && !Touched(fs, slaves, t, p)
    ensures p != s.link && p != t.link
  {
    hide Moving;
  }

  /** What a move does, path by path. */
  lemma MovedLook(env: Env, c: Fs, slaves: seq<SlaveLink>, current: Option<string>, t: SlaveLink, f: Fileset, s: SlaveLink)
    requires Moving(c, slaves, t, s)
    ensures var c' := AfterSlave(env, c, slaves, current, t, f);
      && s.link !in c' && (Leads(env, c, current, t, f) ==> Look(c', t.link) == Look(c, s.link))
      && forall p :: p != s.link && p != t.link ==> Look(c', p) == Look(c, p)
  {
    OneMoves(env, c, slaves, current, t, f, s);
    hide FindSlave, AltPath, Leads, AfterSlave;
  }

  lemma OthersLinks(env: Env, fs: Fs, slaves: seq<SlaveLink>, news: seq<SlaveLink>, j: nat, n: nat, r: SlaveLink, s: SlaveLink)
    requires Movable(env, slaves, news) && j < |news| && n < |news| && j != n
    requires Moving(fs, slaves, news[j], r) && FindSlave(slaves, news[n].name) == Some(s)
    ensures r.link != news[n].link && r.link != s.link && news[j].link != news[n].link && news[j].link != s.link
  {
    hide FindSlave, AltPath, IsLink;
    assert news[j] in news && news[n] in news;
  }

  lemma {:induction false} AllFollow(env: Env, fs: Fs, slaves: seq<SlaveLink>, current: Option<string>, news: seq<SlaveLink>, f: Fileset, n: nat)
    requires Movable(env, slaves, news) && n <= |news|
    ensures Followed(env, fs, slaves, current, news, f, n, AfterSlaves(env, fs, slaves, current, news, f, n))
    decreases n
  {
    hide Followed, Movable, AfterSlave, FindSlave, Merge;
    if n == 0 {
      assert Followed(env, fs, slaves, current, news, f, 0, fs) by { NoneFollowed(env, fs, slaves, current, news, f); }
    } else {
      var c := AfterSlaves(env, fs, slaves, current, news, f, n - 1);
      AllFollow(env, fs, slaves, current, news, f, n - 1);
      FollowedNext(env, fs, slaves, current, news, f, n - 1, c);
      DistinctNews(env, slaves, news, n - 1);
      FindMerged(slaves, news, n - 1, news[n - 1].name);
      SameFind(env, c, slaves, Merge(slaves, news[..n - 1]), current, news[n - 1], f);
    }
  }

  lemma NoneFollowed(env: Env, fs: Fs, slaves: seq<SlaveLink>, current: Option<string>, news: seq<SlaveLink>, f: Fileset)
    ensures Followed(env, fs, slaves, current, news, f, 0, fs)
  { }

  lemma DistinctNews(env: Env, slaves: seq<SlaveLink>, news: seq<SlaveLink>, n: nat)
    requires Movable(env, slaves, news) && n < |news|
    ensures forall j :: 0 <= j < n ==> news[j].name != news[n].name
  { }

  lemma SameFind(env: Env, fs: Fs, s: seq<SlaveLink>, t: seq<SlaveLink>, current: Option<string>, sl: SlaveLink, f: Fileset)
    requires FindSlave(s, sl.name) == FindSlave(t, sl.name)
    ensures AfterSlave(env, fs, s, current, sl, f) == AfterSlave(env, fs, t, current, sl, f)
  {
    hide FindSlave, AltPath;
  }

  /**
   Nothing is lost while links change place.  Unless the master link moves onto
   the link of a slave, it takes its target along; a slave link takes its target
   along if the file it is to lead to exists, and is gone from its old place; and
   no other path changes.
   */
  lemma LinksFollow(env: Env, fs: Fs, a: Group, b: Group, current: Option<string>, f: Fileset)
    requires Parseable(a) && Parseable(b) && Movable(env, a.slaves, b.slaves)
    requires forall s :: s in a.slaves ==> s.link != b.masterLink
    ensures var fs' := LinksMoved(env, fs, a, b, current, f);
      var fs1 := AfterMaster(fs, a.masterLink, b.masterLink);
      && (IsLink(fs, a.masterLink) ==> Look(fs', b.masterLink) == Look(fs, a.masterLink))
      && (forall t, s :: t in b.slaves && Moving(fs, a.slaves, t, s) ==>
            s.link !in fs' && (Leads(env, fs1, current, t, f) ==> Look(fs', t.link) == Look(fs, s.link)))
      && (forall p :: p != a.masterLink && p != b.masterLink && (forall t :: t in b.slaves ==> !Touched(fs, a.slaves, t, p)) ==>
            Look(fs', p) == Look(fs, p))
  {
    var fs1 := AfterMaster(fs, a.masterLink, b.masterLink);
    var fs' := LinksMoved(env, fs, a, b, current, f);
    AllFollow(env, fs1, a.slaves, current, b.slaves, f, |b.slaves|);
    MasterFirst(fs, a, b);
    hide LinksMoved, AfterSlaves, AfterMaster, Movable, FindSlave, Leads, IsLink, Moving, Touched, Look, Parseable;
    assert Look(fs', b.masterLink) == Look(fs1, b.masterLink);
    forall p | p != a.masterLink && p != b.masterLink && forall t :: t in b.slaves ==> !Touched(fs, a.slaves, t, p)
      ensures Look(fs', p) == Look(fs, p)
    {
      forall j | 0 <= j < |b.slaves| ensures !Touched(fs1, a.slaves, b.slaves[j], p) { assert b.slaves[j] in b.slaves; }
    }
  }

  /** Moving the master link does not concern the slaves. */
  lemma MasterFirst(fs: Fs, a: Group, b: Group)
    requires Parseable(a) && Parseable(b) && forall s :: s in a.slaves ==> s.link != b.masterLink
    ensures var fs1 := AfterMaster(fs, a.masterLink, b.masterLink);
      && (IsLink(fs, a.masterLink) ==> Look(fs1, b.masterLink) == Look(fs, a.masterLink))
      && (forall s :: s in a.slaves ==> Look(fs1, s.link) == Look(fs, s.link))
      && (forall t, s :: Moving(fs1, a.slaves, t, s) <==> Moving(fs, a.slaves, t, s))
      && (forall t, p :: Touched(fs1, a.slaves, t, p) <==> Touched(fs, a.slaves, t, p))
      && (forall j :: 0 <= j < |b.slaves| ==> !Touched(fs1, a.slaves, b.slaves[j], b.masterLink))
      && (forall p :: p != a.masterLink && p != b.masterLink ==> Look(fs1, p) == Look(fs, p))
  {
    hide FindSlave, PairwiseApart;
    forall j | 0 <= j < |b.slaves| ensures b.slaves[j] in b.slaves { }
  }

  // ---- what stands where a link moves to ----

  /** A link that --install moves takes the place of p. */
  ghost predicate LandsOn(env: Env, fs: Fs, a: Group, b: Group, current: Option<string>, f: Fileset, p: string) {
    || (p == b.masterLink && a.masterLink != b.masterLink && IsLink(fs, a.masterLink))
    || exists t, s :: t in b.slaves && t.link == p && Moving(fs, a.slaves, t, s)
                   && Leads(env, AfterMaster(fs, a.masterLink, b.masterLink), current, t, f)
  }

  /**
   A real file in the way of a moving link is replaced, with or without --force:
   while links change place, what is not a link stays exactly where none lands.
   */
  lemma NonLinkReplacedIff(env: Env, fs: Fs, a: Group, b: Group, current: Option<string>, f: Fileset, p: string)
    requires Parseable(a) && Parseable(b) && Movable(env, a.slaves, b.slaves)
    requires (forall s :: s in a.slaves ==> s.link != b.masterLink) && Look(fs, p) == Some(Other)
    ensures Look(LinksMoved(env, fs, a, b, current, f), p) != Some(Other) <==> LandsOn(env, fs, a, b, current, f, p)
  {
    LinksFollow(env, fs, a, b, current, f);
    MasterFirst(fs, a, b);
    if LandsOn(env, fs, a, b, current, f, p) {
      hide LinksMoved, Movable, Parseable, FindSlave, Leads, Touched;
    } else {
      var fs1 := AfterMaster(fs, a.masterLink, b.masterLink);
      assert Look(fs1, p) == Some(Other);
      hide Movable, Parseable, FindSlave, Leads, Touched, AfterMaster, IsLink, AfterSlaves;
      StillThere(env, fs1, a.slaves, current, b.slaves, f, |b.slaves|, p);
    }
  }

  lemma {:induction false} StillThere(env: Env, fs: Fs, slaves: seq<SlaveLink>, current: Option<string>, news: seq<SlaveLink>,
                                      f: Fileset, n: nat, p: string)
    requires Movable(env, slaves, news) && n <= |news| && Look(fs, p) == Some(Other)
    requires forall t, s :: t in news && t.link == p && Moving(fs, slaves, t, s) ==> !Leads(env, fs, current, t, f)
    ensures Look(AfterSlaves(env, fs, slaves, current, news, f, n), p) == Some(Other)
    decreases n
  {
    hide Movable, AfterSlave, FindSlave, Merge, Leads, Look, Followed;
    if n > 0 {
      var c, t := AfterSlaves(env, fs, slaves, current, news, f, n - 1), news[n - 1];
      StillThere(env, fs, slaves, current, news, f, n - 1, p);
      AllFollow(env, fs, slaves, current, news, f, n - 1);
      SameLook(env, fs, c, slaves, current, news, f, n - 1);
      DistinctNews(env, slaves, news, n - 1);
      FindMerged(slaves, news, n - 1, t.name);
      SameFind(env, c, slaves, Merge(slaves, news[..n - 1]), current, t, f);
      assert t in news;
      OneSpares(env, c, slaves, current, t, f, p);
    }
  }

  lemma OneSpares(env: Env, c: Fs, slaves: seq<SlaveLink>, current: Option<string>, t: SlaveLink, f: Fileset, p: string)
    requires Look(c, p) == Some(Other)
    requires forall s :: t.link == p && Moving(c, slaves, t, s) ==> !Leads(env, c, current, t, f)
    ensures Look(AfterSlave(env, c, slaves, current, t, f), p) == Some(Other)
  {
    hide FindSlave, Leads, AfterSlave;
    if s :| Moving(c, slaves, t, s) {
      OneMoves(env, c, slaves, current, t, f, s);
    } else {
      NoneMoves(env, c, slaves, current, t, f);
    }
  }

  /** Without --force, a real file at /opt/vi is replaced by the master link moved there. */
  lemma RealFileReplaced(present: set<string>)
    ensures var env := Env("/etc/alternatives", false, present);
      var fs: Fs := map["/bin/vi" := Symlink("/etc/alternatives/vi"), "/opt/vi" := Other];
      var a, b := Group("vi", "/bin/vi", Auto, [], []), Group("vi", "/opt/vi", Auto, [], []);
      Look(LinksMoved(env, fs, a, b, None, Fileset("/opt/vim", 10, [])), "/opt/vi") == Some(Symlink("/etc/alternatives/vi"))
  {
    assert "/bin/vi"[1] != "/opt/vi"[1];
  }

  // ---- the directory after a command ----

  /** The text of the file of that name, if there is one. */
  ghost predicate FileIs(groups: seq<Group>, name: string, text: Option<string>) {
    var k := Position(groups, name);
    text == if k < |groups| then Some(Print(groups[k])) else None
  }

  lemma {:induction false} PositionIs(groups: seq<Group>, name: string, k: nat)
    requires k <= |groups| && (k < |groups| ==> groups[k].masterName == name)
    requires forall i :: 0 <= i < k ==> groups[i].masterName != name
    ensures Position(groups, name) == k
    decreases k
  {
    if k > 0 { PositionIs(groups[1..], name, k - 1); }
  }

  lemma {:induction false} NoneBefore(groups: seq<Group>, name: string, i: nat)
    requires i < Position(groups, name)
    ensures groups[i].masterName != name
    decreases i
  {
    if i > 0 { NoneBefore(groups[1..], name, i - 1); }
  }

  /** A group's file is rewritten. */
  lemma FileReplaced(groups: seq<Group>, k: nat, h: Group)
    requires k == Position(groups, h.masterName) < |groups|
    ensures FileIs(groups[k := h], h.masterName, Some(Print(h)))
  {
    hide Print, Position;
    var r := groups[k := h];
    forall i | 0 <= i < k ensures r[i].masterName != h.masterName { NoneBefore(groups, h.masterName, i); }
    PositionIs(r, h.masterName, k);
  }

  lemma FileDropped(groups: seq<Group>, k: nat, name: string)
    requires k == Position(groups, name) < |groups| && OthersApart(groups)
    ensures FileIs(Dropped(groups, k), name, None)
  {
    hide Print, Position, Apart;
    var r := Dropped(groups, k);
    assert groups[k].masterName == name;
    forall i | 0 <= i < |r| ensures r[i].masterName != name {
      var j := if i < k then i else i + 1;
      assert r[i] == groups[j];
      OthersElsewhere(groups, j, k);
    }
    PositionIs(r, name, |r|);
  }

  lemma FileInserted(groups: seq<Group>, at: nat, h: Group)
    requires forall g :: g in groups ==> g.masterName != h.masterName
    ensures FileIs(Inserted(groups, at, h), h.masterName, Some(Print(h)))
  {
    hide Print, Position;
    PositionIs(Inserted(groups, at, h), h.masterName, if at <= |groups| then at else |groups|);
  }

  /**
   The step of the directory that ownership is about is the one the commands
   take: what `Install` leaves in its file, for the group as it was read, is what
   the directory holds after the command.
   */
  lemma InstallWrites(groups: seq<Group>, inst: Group, f: Fileset, at: nat, present: set<string>, mode: Mode, text: Option<string>)
    requires Accepted(groups, inst, f, present) && Position(groups, inst.masterName) < |groups|
    requires text == Some(Print(Saved(Extended(Loaded(groups[Position(groups, inst.masterName)], present), inst, f).(status := mode))))
    ensures FileIs(After(groups, Command.Install(inst, f, at, mode), present), inst.masterName, text)
  {
    hide Accepted, Position, Print, FileIs, Merge, Plain, AddChoice, ReadBack, SortBy, UsedSlaves;
    var k := Position(groups, inst.masterName);
    FileReplaced(groups, k, Saved(Extended(Loaded(groups[k], present), inst, f).(status := mode)));
  }

  /** The same for `Create`. */
  lemma CreateWrites(groups: seq<Group>, inst: Group, f: Fileset, at: nat, present: set<string>, text: Option<string>)
    requires Accepted(groups, inst, f, present) && Position(groups, inst.masterName) == |groups| && inst.status == Auto
    requires text == Some(Print(Saved(inst.(status := Auto, choices := [f]))))
    ensures FileIs(After(groups, Command.Install(inst, f, at, Auto), present), inst.masterName, text)
  {
    hide Accepted, Position, Print, FileIs, SortBy, UsedSlaves, Inserted;
    FileInserted(groups, at, Saved(inst.(choices := [f])));
  }

  /** The same for `RemovePath`, also when the last choice goes. */
  lemma RemovalWrites(groups: seq<Group>, name: string, path: string, present: set<string>, mode: Mode, modified: bool,
                      a': Group, text: Option<string>, text': Option<string>)
    requires OthersApart(groups) && Position(groups, name) < |groups| && FileIs(groups, name, text)
    requires var g := Loaded(groups[Position(groups, name)], present);
      var less := g.(choices := Without(g.choices, path));
      if less.choices == [] then text'.None? else RecordedAs(less, mode, modified, a', text, text')
    ensures FileIs(After(groups, Command.RemoveChoice(name, path, mode, modified), present), name, text')
  {
    hide Position, Print, FileIs, OthersApart, Plain, ReadBack, Without, SortBy, UsedSlaves, Dropped;
    var k := Position(groups, name);
    var g := Loaded(groups[k], present);
    var h := g.(choices := Without(g.choices, path), status := mode);
    assert g.(choices := Without(g.choices, path)).(status := mode) == h;
    FileUpdated(groups, k, h, modified, text, text');
  }

  /** The same for `SetAuto` and `SetManual`. */
  lemma ModeWrites(groups: seq<Group>, name: string, present: set<string>, mode: Mode, modified: bool,
                   a': Group, text: Option<string>, text': Option<string>)
    requires OthersApart(groups) && Position(groups, name) < |groups| && FileIs(groups, name, text)
    requires var g := Loaded(groups[Position(groups, name)], present);
      if g.choices == [] then text'.None? else RecordedAs(g, mode, modified, a', text, text')
    ensures FileIs(After(groups, Command.SetStatus(name, mode, modified), present), name, text')
  {
    hide Position, Print, FileIs, OthersApart, Plain, ReadBack, SortBy, UsedSlaves, Dropped;
    var k := Position(groups, name);
    FileUpdated(groups, k, Loaded(groups[k], present).(status := mode), modified, text, text');
  }

  lemma FileUpdated(groups: seq<Group>, k: nat, h: Group, modified: bool, text: Option<string>, text': Option<string>)
    requires OthersApart(groups) && k == Position(groups, h.masterName) < |groups| && FileIs(groups, h.masterName, text)
    requires text' == if h.choices == [] then None else if modified then Some(Print(Saved(h))) else text
    ensures FileIs(Updated(groups, k, h, modified), h.masterName, text')
  {
    hide Position, Print, FileIs, OthersApart, SortBy, UsedSlaves, Dropped;
    if h.choices == [] {
      FileDropped(groups, k, h.masterName);
    } else if modified {
      FileReplaced(groups, k, Saved(h));
    }
  }

  // ---- an update that leaves a group failing: nothing is current, and nothing was requested ----

  lemma LeftBroken(present: set<string>)
    ensures var e := Env("/etc/alternatives", false, present);
      var a := Group("vi", "/bin/vi", Auto, [], [Fileset("/opt/vim", 10, [])]);
      && PathsDistinct(e, a) && Clean(e, map[], a)
      && Updates(e, map[], a, None, None, map[], a) && NeedsUpdate(e, map[], a, None) == LinkBroken
  {
    var e := Env("/etc/alternatives", false, present);
    var a := Group("vi", "/bin/vi", Auto, [], [Fileset("/opt/vim", 10, [])]);
    var alt := AltPath(e, "vi");
    assert alt[1] == 'e' && alt[|alt| - 1] == 'i' && "/bin/vi"[1] == 'b';
    var ps := Managed(e, a);
    assert ps == ["/bin/vi", alt];
    forall p | p in ps ensures Tmp(p)[|Tmp(p)| - 1] == 'p' { }
    assert Settled(e, map[], a, None, None, None) && map[] == Picked(e, map[], a, None);
    assert a == Recorded(a, ModeAfter(e, map[], a, None, None), false);
  }
}
