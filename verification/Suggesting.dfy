/**
 What one step of dselect's resolver does to the selections, in terms of the
 states before and after (dselect/pkgdepcon.cc, dselect/pkgsublist.cc).
 */
module Suggesting {
  import opened Text
  import opened Resolver

  // ---- recording a dependency ----

  /** The packages in the list. */
  ghost function Held(s: State): set<nat> { set p: nat | p < |s.own| && s.own[p].Some? }

  /** Those that exist in the enclosing list, so that they can be added. */
  ghost function Real(s: State, ps: set<nat>): set<nat> { set p | p in ps && p < |s.parent| && s.parent[p].Some? }

  /** The packages a dependency names: the one that has it, and its alternatives. */
  ghost function NamedBy(g: Graph, d: nat): set<nat>
    requires g.WellFormed()
  {
    if d < |g.deps| then {g.deps[d].up} + Alternatives(g, d, |g.deps[d].list|) else {}
  }

  ghost function Alternatives(g: Graph, d: nat, n: nat): set<nat>
    requires g.WellFormed() && d < |g.deps| && n <= |g.deps[d].list|
  {
    set i | 0 <= i < n :: g.sets[g.deps[d].list[i].ed].pkg
  }

  ghost function NamedByAll(g: Graph, ds: set<nat>): set<nat>
    requires g.WellFormed()
  {
    set d, p | d in ds && p in NamedBy(g, d) :: p
  }

  /** The dependencies by which packages provide what the reverse links lead to. */
  ghost function Providing(g: Graph, links: seq<Link>): set<nat>
    requires forall k :: 0 <= k < |links| ==> g.LinkOk(links[k])
  {
    set k | 0 <= k < |links| && g.LinkOk(links[k]) && g.deps[links[k].dep].kind.Provides? :: links[k].dep
  }

  /** Those that come with a dependency: its alternatives' providers are recorded with it, one level deep. */
  ghost function Along(g: Graph, d: nat, n: nat): set<nat>
    requires g.WellFormed() && d < |g.deps| && n <= |g.deps[d].list|
  {
    if g.deps[d].kind.Provides? then {}
    else set i, e | 0 <= i < n && e in Providing(g, g.sets[g.deps[d].list[i].ed].dependedAvailable) :: e
  }

  /** Nobody's selection has changed: packages have at most entered the list, with the selection they had. */
  ghost predicate Listing(s: State, t: State) {
    && |t.own| == |s.own| && t.parent == s.parent && s.table <= t.table && t.unavailable == s.unavailable
    && forall p :: 0 <= p < |s.own| ==> Enters(s.own[p], t.own[p], if p < |s.parent| then s.parent[p] else None)
  }

  ghost predicate Enters(a: Option<PkgState>, b: Option<PkgState>, parent: Option<PkgState>) {
    match a
    case Some(x) => b.Some? && b.value == x.(dpriority := b.value.dpriority) && x.dpriority <= b.value.dpriority
    case None =>
      b.Some? ==>
        parent.Some?
        && b.value == PkgState(parent.value.selected, parent.value.selected, SP_INHERIT, b.value.dpriority)
  }

  /**
   Recording a dependency for the first time: with those that come along it is
   noted, and exactly the packages they name enter the list.  These packages, and
   the alternatives' providers in any case, are of that importance at least.
   */
  ghost predicate Recording(g: Graph, s: State, t: State, d: nat, importance: nat)
    requires g.WellFormed() && d < |g.deps|
  {
    if d in s.done then t == s
    else
      && Listing(s, t)
      && t.done == s.done + {d} + Along(g, d, |g.deps[d].list|)
      && Held(t) == Held(s) + Real(s, NamedByAll(g, t.done - s.done))
      && Marked(s, t, NamedByAll(g, t.done - s.done) + Having(g, Along(g, d, |g.deps[d].list|)), importance)
  }

  /** The packages that have these dependencies. */
  ghost function Having(g: Graph, ds: set<nat>): set<nat> { set d | d in ds && d < |g.deps| :: g.deps[d].up }

  /** How important a package is to be shown, nothing to begin with. */
  function Shown(a: Option<PkgState>): nat { if a.Some? then a.value.dpriority else DP_NONE }

  /** Exactly these packages have become as important as that, if they were less so; they are in the list, if they can be. */
  ghost predicate Marked(s: State, t: State, ps: set<nat>, importance: nat) {
    && |t.own| == |s.own| && (forall p :: p in Real(s, ps) && p < |t.own| ==> t.own[p].Some?)
    && forall p :: 0 <= p < |s.own| && t.own[p].Some? ==>
      t.own[p].value.dpriority == if p in ps then Larger(Shown(s.own[p]), importance) else Shown(s.own[p])
  }

  function Larger(a: nat, b: nat): nat { if a > b then a else b }

  /** Some packages have entered the list, and some dependencies have been recorded with the packages they name. */
  ghost predicate Extends(g: Graph, s: State, t: State, ds: set<nat>, ps: set<nat>, importance: nat)
    requires g.WellFormed()
  {
    && Listing(s, t) && t.done == s.done + ds
    && Held(t) == Held(s) + Real(s, ps + NamedByAll(g, ds - s.done))
    && Marked(s, t, ps + NamedByAll(g, ds - s.done) + Having(g, ds), importance)
  }

  lemma ExtendsNone(g: Graph, s: State, importance: nat)
    requires g.WellFormed()
    ensures Extends(g, s, s, {}, {}, importance)
  {
    var none: set<nat> := {};
    assert NamedByAll(g, none) == {} && Having(g, none) == {};
    assert Real(s, none + none) == {} && none + none + none == none;
  }

  lemma ExtendsTrans(g: Graph, s: State, t: State, u: State, a: set<nat>, p: set<nat>, b: set<nat>, q: set<nat>, importance: nat)
    requires g.WellFormed() && Extends(g, s, t, a, p, importance) && Extends(g, t, u, b, q, importance)
    ensures Extends(g, s, u, a + b, p + q, importance)
  {
    var x, y := p + NamedByAll(g, a - s.done), q + NamedByAll(g, b - t.done);
    hide Listing, Held, Marked, NamedByAll, Real, Having;
    ListingTrans(s, t, u);
    MarkedTrans(s, t, u, x + Having(g, a), y + Having(g, b), importance);
    SameReal(s, t, y);
    RealUnion(s, x, y);
    AllNamed(g, s, t, a, p, b, q);
  }

  /** The packages named, and those that have the dependencies, in two steps or in one. */
  lemma AllNamed(g: Graph, s: State, t: State, a: set<nat>, p: set<nat>, b: set<nat>, q: set<nat>)
    requires g.WellFormed() && t.done == s.done + a
    ensures var x, y := p + NamedByAll(g, a - s.done), q + NamedByAll(g, b - t.done);
      && x + y == p + q + NamedByAll(g, (a + b) - s.done)
      && x + Having(g, a) + (y + Having(g, b)) == p + q + NamedByAll(g, (a + b) - s.done) + Having(g, a + b)
  {
    hide NamedByAll, Having;
    NamedUnion(g, a - s.done, b - t.done);
    HavingUnion(g, a, b);
    assert (a + b) - s.done == (a - s.done) + (b - t.done);
  }

  lemma MarkedTrans(s: State, t: State, u: State, a: set<nat>, b: set<nat>, importance: nat)
    requires Listing(s, t) && Listing(t, u) && Marked(s, t, a, importance) && Marked(t, u, b, importance)
    ensures Marked(s, u, a + b, importance)
  {
    RealUnion(s, a, b);
    SameReal(s, t, b);
    forall p | 0 <= p < |s.own| && u.own[p].Some?
      ensures u.own[p].value.dpriority == if p in a + b then Larger(Shown(s.own[p]), importance) else Shown(s.own[p])
    {
      if t.own[p].None? {
        assert Enters(t.own[p], u.own[p], if p < |t.parent| then t.parent[p] else None);
        assert p < |s.parent| && s.parent[p].Some?;
        assert p in a ==> p in Real(s, a);
      }
    }
    forall p | p in Real(s, a) && p < |u.own| ensures u.own[p].Some? {
      assert Enters(t.own[p], u.own[p], if p < |t.parent| then t.parent[p] else None);
    }
  }

  lemma HavingUnion(g: Graph, a: set<nat>, b: set<nat>)
    ensures Having(g, a + b) == Having(g, a) + Having(g, b)
  { }

  lemma SameReal(s: State, t: State, ps: set<nat>)
    requires Listing(s, t)
    ensures Real(t, ps) == Real(s, ps)
  {
    hide Enters;
  }

  /** A package shown is in the list if it can be. */
  lemma ShownExtends(g: Graph, s: State, t: State, p: nat, importance: nat)
    requires g.WellFormed() && Valid(g, s) && p < |s.own| && Listing(s, t) && t.done == s.done
    requires forall q :: 0 <= q < |s.own| && q != p ==> t.own[q] == s.own[q]
    requires t.own[p].Some? <==> s.own[p].Some? || s.parent[p].Some?
    requires t.own[p].Some? ==> t.own[p].value.dpriority == Larger(Shown(s.own[p]), importance)
    ensures Extends(g, s, t, {}, {p}, importance)
  {
    assert NamedByAll(g, {} - s.done) == {} && Having(g, {}) == {};
    assert Real(s, {p} + {}) == if s.parent[p].Some? then {p} else {};
    assert {p} + {} + {} == {p} && {p} + {} == {p};
  }

  /** A provider, and the dependency by which it provides: recorded now, or before. */
  lemma ProviderExtends(g: Graph, s: State, t: State, u: State, d: nat, importance: nat)
    requires g.WellFormed() && Valid(g, s) && DoneListed(g, s) && d < |g.deps| && g.deps[d].kind.Provides?
    requires Extends(g, s, t, {}, {g.deps[d].up}, importance) && Recording(g, t, u, d, importance)
    ensures Extends(g, s, u, {d}, {}, importance)
  {
    assert t.done == s.done;
    if d in s.done {
      ListedBefore(g, s, t, d, importance);
      assert u == t;
    } else {
      RecordedProvides(g, t, u, d, importance);
      hide Extends, Recording, Valid, DoneListed;
      ExtendsTrans(g, s, t, u, {}, {g.deps[d].up}, {d}, {}, importance);
      assert {} + {d} == {d} && {g.deps[d].up} + {} == {g.deps[d].up};
      UpNamed(g, s, u, d, importance);
    }
  }

  /** The package that has a dependency is among those it names. */
  lemma UpNamed(g: Graph, s: State, u: State, d: nat, importance: nat)
    requires g.WellFormed() && d < |g.deps| && d !in s.done && Extends(g, s, u, {d}, {g.deps[d].up}, importance)
    ensures Extends(g, s, u, {d}, {}, importance)
  {
    hide Real, Held, Listing, Marked, Having, NamedByAll;
    NamedOne(g, d);
    assert {d} - s.done == {d};
    assert {g.deps[d].up} + NamedByAll(g, {d}) == {} + NamedByAll(g, {d});
  }

  lemma ListedBefore(g: Graph, s: State, t: State, d: nat, importance: nat)
    requires g.WellFormed() && Valid(g, s) && DoneListed(g, s) && d < |g.deps| && d in s.done
    requires Extends(g, s, t, {}, {g.deps[d].up}, importance)
    ensures Extends(g, s, t, {d}, {}, importance)
  {
    var up := g.deps[d].up;
    HavingOne(g, d);
    assert {d} - s.done == {} - s.done && NamedByAll(g, {} - s.done) == {};
    assert Real(s, {up} + {}) <= Held(s) && Real(s, {} + {}) == {};
    assert {up} + {} + Having(g, {}) == {} + {} + Having(g, {d});
    assert s.done + {d} == s.done + {};
    hide Listing, Marked;
  }

  lemma HavingOne(g: Graph, d: nat)
    requires d < |g.deps|
    ensures Having(g, {d}) == {g.deps[d].up} && Having(g, {}) == {}
  { }

  lemma RecordedProvides(g: Graph, t: State, u: State, d: nat, importance: nat)
    requires g.WellFormed() && d < |g.deps| && g.deps[d].kind.Provides? && d !in t.done && Recording(g, t, u, d, importance)
    ensures Extends(g, t, u, {d}, {}, importance)
  {
    HavingOne(g, d);
    NamedOne(g, d);
    assert Along(g, d, |g.deps[d].list|) == {};
    assert u.done - t.done == {d} - t.done == {d};
    assert {} + NamedByAll(g, {d}) == NamedByAll(g, {d});
    assert NamedByAll(g, {d}) + Having(g, {}) == NamedByAll(g, {d}) + Having(g, {d});
    hide Listing, Marked, NamedByAll, Real, Held;
  }

  /** From the state in which d has just been noted. */
  lemma RecordedIs(g: Graph, s: State, u: State, d: nat, importance: nat)
    requires g.WellFormed() && d < |g.deps| && d !in s.done
    requires Extends(g, s.(done := s.done + {d}), u, Along(g, d, |g.deps[d].list|), NamedBy(g, d), importance)
    ensures Recording(g, s, u, d, importance)
  {
    var t, more := s.(done := s.done + {d}), Along(g, d, |g.deps[d].list|);
    assert u.done - s.done == {d} + (more - t.done);
    NamedUnion(g, {d}, more - t.done);
    NamedOne(g, d);
    var ps := NamedBy(g, d) + NamedByAll(g, more - t.done);
    assert Held(t) == Held(s) && Real(t, ps) == Real(s, ps);
    assert Marked(t, u, ps + Having(g, more), importance);
    assert Real(t, ps + Having(g, more)) == Real(s, ps + Having(g, more));
  }

  lemma ProvidingSnoc(g: Graph, links: seq<Link>, i: nat)
    requires (forall k :: 0 <= k < |links| ==> g.LinkOk(links[k])) && i < |links|
    ensures g.LinkOk(links[i])
    ensures Providing(g, links[..i + 1]) == Providing(g, links[..i]) + if g.deps[links[i].dep].kind.Provides? then {links[i].dep} else {}
  {
    var a, b := links[..i], links[..i + 1];
    assert g.LinkOk(links[i]) && b[i] == links[i];
    assert forall k :: 0 <= k < i ==> a[k] == b[k];
    forall e | e in Providing(g, a) ensures e in Providing(g, b) {
      var k :| 0 <= k < |a| && g.LinkOk(a[k]) && g.deps[a[k].dep].kind.Provides? && a[k].dep == e;
      assert b[k].dep == e;
    }
  }

  lemma AlongSnoc(g: Graph, d: nat, i: nat)
    requires g.WellFormed() && d < |g.deps| && i < |g.deps[d].list|
    ensures var set_ := g.sets[g.deps[d].list[i].ed];
      && Along(g, d, i + 1) == Along(g, d, i) + (if g.deps[d].kind.Provides? then {} else Providing(g, set_.dependedAvailable))
      && Alternatives(g, d, i + 1) == Alternatives(g, d, i) + {set_.pkg}
  {
    hide Providing;
  }

  lemma ListingTrans(s: State, t: State, u: State)
    requires Listing(s, t) && Listing(t, u)
    ensures Listing(s, u)
  { }

  lemma NamedUnion(g: Graph, a: set<nat>, b: set<nat>)
    requires g.WellFormed()
    ensures NamedByAll(g, a + b) == NamedByAll(g, a) + NamedByAll(g, b)
  {
    hide NamedBy;
  }

  lemma NamedOne(g: Graph, d: nat)
    requires g.WellFormed()
    ensures NamedByAll(g, {d}) == NamedBy(g, d)
  {
    hide NamedBy;
  }

  lemma RealUnion(s: State, a: set<nat>, b: set<nat>)
    ensures Real(s, a + b) == Real(s, a) + Real(s, b)
  { }

  // ---- a dependency that wants something installed ----

  /** Its package is wanted, and no alternative is satisfied. */
  ghost predicate Asks(g: Graph, s: State, d: nat)
    requires g.WellFormed() && |g.pkgs| == |s.own| == |s.parent| && d < |g.deps|
  {
    var up := g.deps[d].up;
    && Client(s, up).Some? && Would(Selected(s, up), g.pkgs[up].status) > 0
    && forall i :: 0 <= i < |g.deps[d].list| ==> !Satisfied(g, s, Link(d, i))
  }

  /** What is asked for is shown as a must, a recommendation as what should be, and the others as what may be. */
  function Importance(kind: DepType): nat {
    match kind
    case Enhances => DP_MAY
    case Suggests => DP_MAY
    case Recommends => DP_SHOULD
    case _ => DP_MUST
  }

  /**
   Such a dependency is recorded (t); then the package that has it is deselected,
   if a candidate has been, or the best candidate is selected, both unless it was.
   The answer is 0 if the dependency had been recorded before, 2 if something
   became of it, and 1 if it is only shown.
   */
  ghost predicate ActsVia(g: Graph, s: State, t: State, u: State, d: nat, rc: nat, best: Option<Ref>, manual: bool)
    requires g.WellFormed() && |g.pkgs| == |s.own| == |s.parent| && d < |g.deps|
  {
    var up, kind, list, first := g.deps[d].up, g.deps[d].kind, g.deps[d].list, d !in s.done;
    var fix := UpgradeAmong(g, s, d, |list|);
    Recording(g, s, t, d, Importance(kind)) &&
    if kind.Enhances? || kind.Suggests? then u == t && rc == if first then 1 else 0
    else
      && InRange(g, t, Candidates(g, list)) && t.own[up].Some?
      && if MustDeselect(g, t, d, fix) then
           Dropped(g, t, u, d) && rc == if !first then 0 else if t.own[up].value.spriority < SP_DESELECTING then 2 else 1
         else
           && Chosen(g, t, d, fix, best) && Taken(g, t, u, d, best, manual)
           && rc == if !first then 0 else if best.Some? && At(t, best.value).spriority < SP_SELECTING then 2 else 1
  }

  ghost predicate Acts(g: Graph, s: State, u: State, d: nat, rc: nat, manual: bool)
    requires g.WellFormed() && |g.pkgs| == |s.own| == |s.parent| && d < |g.deps|
  {
    exists t, best :: ActsVia(g, s, t, u, d, rc, best, manual)
  }

  // ---- a conflict ----

  /** Both packages wanted: the conflict is recorded (t), and the one that is to give way is deselected, unless it was. */
  ghost predicate PartsVia(g: Graph, s: State, t: State, u: State, per: nat, ped: nat, d: nat, rc: nat)
    requires g.WellFormed() && d < |g.deps| && per < |g.pkgs| && ped < |g.pkgs|
  {
    && Recording(g, s, t, d, DP_MUST) && |t.own| == |t.parent| == |g.pkgs| && Client(t, per).Some? && Client(t, ped).Some?
    && var v := Victim(g, t, Client(t, per).value, Client(t, ped).value);
       if At(t, v).spriority < SP_DESELECTING then rc == 2 && u == Put(t, v, Removal(g, v.pkg), SP_DESELECTING)
       else rc == 0 && u == t
  }

  ghost predicate Parts(g: Graph, s: State, u: State, per: nat, ped: nat, d: nat, rc: nat)
    requires g.WellFormed() && d < |g.deps|
  {
    && per < |g.pkgs| == |s.own| == |s.parent| && ped < |g.pkgs|
    && if BothWanted(g, s, per, ped) then exists t :: PartsVia(g, s, t, u, per, ped, d, rc) else u == s && rc == 0
  }

  /** The rivals of a conflict, in turn: the package of the set conflicted with, and its providers. */
  function Rivals(g: Graph, d: nat): seq<nat>
    requires g.WellFormed() && d < |g.deps|
  {
    var up, ed := g.deps[d].up, g.deps[d].list[0].ed;
    (if g.pkgs[up].set_ != ed then [g.sets[ed].pkg] else []) + Others(up, Providers(g, g.sets[ed].dependedAvailable))
  }

  function Others(up: nat, ps: seq<nat>): seq<nat> {
    if ps == [] then [] else Others(up, ps[..|ps| - 1]) + if ps[|ps| - 1] == up then [] else [ps[|ps| - 1]]
  }

  /** Some rivals have been gone through without anyone being deselected. */
  ghost predicate NoneGaveWay(g: Graph, s: State, u: State, rivals: seq<nat>, d: nat)
    requires g.WellFormed() && d < |g.deps|
    decreases |rivals|
  {
    if rivals == [] then u == s
    else
      var n := |rivals| - 1;
      exists m :: NoneGaveWay(g, s, m, rivals[..n], d) && Parts(g, m, u, g.deps[d].up, rivals[n], d, 0)
  }

  ghost predicate OneGaveWay(g: Graph, s: State, u: State, before: seq<nat>, q: nat, d: nat, rc: nat)
    requires g.WellFormed() && d < |g.deps|
  {
    exists m :: NoneGaveWay(g, s, m, before, d) && Parts(g, m, u, g.deps[d].up, q, d, rc)
  }

  /** Rivals are gone through up to the first with which somebody has to give way. */
  ghost predicate Contests(g: Graph, s: State, u: State, rivals: seq<nat>, d: nat, rc: nat)
    requires g.WellFormed() && d < |g.deps|
  {
    if rc == 0 then NoneGaveWay(g, s, u, rivals, d)
    else exists i: nat :: i < |rivals| && OneGaveWay(g, s, u, rivals[..i], rivals[i], d, rc)
  }

  lemma ContestedNone(g: Graph, s: State, d: nat)
    requires g.WellFormed() && d < |g.deps|
    ensures NoneGaveWay(g, s, s, [], d)
  { }

  lemma ContestedNext(g: Graph, s: State, m: State, u: State, before: seq<nat>, q: nat, d: nat, rc: nat)
    requires g.WellFormed() && d < |g.deps| && NoneGaveWay(g, s, m, before, d) && Parts(g, m, u, g.deps[d].up, q, d, rc)
    ensures rc == 0 ==> NoneGaveWay(g, s, u, before + [q], d)
    ensures rc > 0 ==> Contests(g, s, u, before + [q], d, rc)
  {
    hide Parts;
    var all := before + [q];
    assert all[..|before|] == before && all[|before|] == q;
    assert OneGaveWay(g, s, u, all[..|before|], all[|before|], d, rc);
  }

  /** What happened with some rivals settles it for more of them. */
  lemma ContestedMore(g: Graph, s: State, u: State, some: seq<nat>, all: seq<nat>, d: nat, rc: nat)
    requires g.WellFormed() && d < |g.deps| && rc > 0 && Contests(g, s, u, some, d, rc) && some <= all
    ensures Contests(g, s, u, all, d, rc)
  {
    hide OneGaveWay;
    var i: nat :| i < |some| && OneGaveWay(g, s, u, some[..i], some[i], d, rc);
    assert all[..i] == some[..i] && all[i] == some[i];
  }

  /** The package of a conflict is wanted, and so is what it conflicts with. */
  ghost predicate Violated(g: Graph, s: State, d: nat)
    requires g.WellFormed() && |g.pkgs| == |s.own| == |s.parent| && d < |g.deps|
  {
    var up := g.deps[d].up;
    Client(s, up).Some? && Would(Selected(s, up), g.pkgs[up].status) != 0 && Satisfied(g, s, Link(d, 0))
  }

  // ---- resolving one dependency, and all of them ----

  ghost predicate Resolves(g: Graph, s: State, u: State, d: nat, rc: nat, manual: bool)
    requires g.WellFormed()
  {
    && |g.pkgs| == |s.own| == |s.parent| && d < |g.deps|
    && var kind := g.deps[d].kind;
       if Against(kind) && Violated(g, s, d) then Contests(g, s, u, Rivals(g, d), d, rc)
       else if !Against(kind) && !kind.Provides? && !kind.Replaces? && Asks(g, s, d) then Acts(g, s, u, d, rc, manual)
       else u == s && rc == 0
  }

  /** Dependencies resolved one after the other; `c` is the largest answer. */
  ghost predicate ResolvesEach(g: Graph, s: State, u: State, ds: seq<nat>, c0: nat, c: nat, manual: bool)
    requires g.WellFormed()
    decreases |ds|
  {
    if ds == [] then u == s && c == c0
    else
      var n := |ds| - 1;
      exists m, b, rc :: ResolvesEach(g, s, m, ds[..n], c0, b, manual) && Resolves(g, m, u, ds[n], rc, manual) && c == Larger(b, rc)
  }

  /** One loop of `checkdependers`: of these dependencies, those of packages whose available (or installed) version is in use. */
  ghost predicate ResolvesLinks(g: Graph, s: State, u: State, links: seq<Link>, available: bool, c0: nat, c: nat, manual: bool)
    requires g.WellFormed()
    decreases |links|
  {
    if links == [] then u == s && c == c0
    else
      var n := |links| - 1;
      exists m, b, rc ::
        && ResolvesLinks(g, s, m, links[..n], available, c0, b, manual) && c == Larger(b, rc)
        && LinkStep(g, m, u, links[n], available, rc, manual)
  }

  ghost predicate LinkStep(g: Graph, m: State, u: State, l: Link, available: bool, rc: nat, manual: bool)
    requires g.WellFormed()
  {
    && g.LinkOk(l) && |g.pkgs| == |m.own| == |m.parent|
    && if UseAvailable(g, m, g.deps[l.dep].up) == available then Resolves(g, m, u, l.dep, rc, manual) else u == m && rc == 0
  }

  ghost predicate ResolvesDependers(g: Graph, s: State, u: State, set_: nat, c0: nat, c: nat, manual: bool)
    requires g.WellFormed()
  {
    set_ < |g.sets| && exists m, b ::
      && ResolvesLinks(g, s, m, g.sets[set_].dependedAvailable, true, c0, b, manual)
      && ResolvesLinks(g, m, u, g.sets[set_].dependedInstalled, false, b, c, manual)
  }

  /** The dependers of what these dependencies provide. */
  ghost predicate ResolvesProvided(g: Graph, s: State, u: State, ds: seq<nat>, c0: nat, c: nat, manual: bool)
    requires g.WellFormed()
    decreases |ds|
  {
    if ds == [] then u == s && c == c0
    else
      var n := |ds| - 1;
      exists m, b :: ResolvesProvided(g, s, m, ds[..n], c0, b, manual) && ProvidedStep(g, m, u, ds[n], b, c, manual)
  }

  ghost predicate ProvidedStep(g: Graph, m: State, u: State, d: nat, b: nat, c: nat, manual: bool)
    requires g.WellFormed()
  {
    d < |g.deps| && if g.deps[d].kind.Provides? then ResolvesDependers(g, m, u, ProvidedSet(g, d), b, c, manual) else u == m && c == b
  }

  /** All that is done about one package: its dependencies, its dependers, and those of what it provides. */
  ghost predicate ResolvesPackage(g: Graph, s: State, u: State, p: nat, c0: nat, c: nat, manual: bool)
    requires g.WellFormed()
  {
    exists m, b, m', b' :: PackageVia(g, s, m, m', u, p, c0, b, b', c, manual)
  }

  ghost predicate PackageVia(g: Graph, s: State, m: State, m': State, u: State, p: nat, c0: nat, b: nat, b': nat, c: nat, manual: bool)
    requires g.WellFormed()
  {
    && p < |g.pkgs| == |s.own| == |s.parent| && |m'.own| == |m'.parent| == |g.pkgs|
    && ResolvesEach(g, s, m, DepsOf(g, s, p), c0, b, manual)
    && ResolvesDependers(g, m, m', g.pkgs[p].set_, b, b', manual)
    && ResolvesProvided(g, m', u, DepsOf(g, m', p), b', c, manual)
  }

  /** The first n packages of the list have been gone through. */
  ghost predicate ResolvesFirst(g: Graph, s: State, u: State, n: nat, c: nat, manual: bool)
    requires g.WellFormed()
    decreases n, 1
  {
    if n == 0 then u == s && c == 0 else exists m, b :: FirstVia(g, s, m, u, n, b, c, manual)
  }

  ghost predicate FirstVia(g: Graph, s: State, m: State, u: State, n: nat, b: nat, c: nat, manual: bool)
    requires g.WellFormed() && n > 0
    decreases n, 0
  {
    ResolvesFirst(g, s, m, n - 1, b, manual) && PassStep(g, m, u, n - 1, b, c, manual)
  }

  ghost predicate PassStep(g: Graph, m: State, u: State, i: nat, b: nat, c: nat, manual: bool)
    requires g.WellFormed()
  {
    i < |m.table| && ResolvesPackage(g, m, u, m.table[i], b, c, manual)
  }

  /** One pass: over the list as long as it has become by then. */
  ghost predicate PassMade(g: Graph, s: State, u: State, c: nat, manual: bool)
    requires g.WellFormed()
  {
    ResolvesFirst(g, s, u, |u.table|, c, manual)
  }

  /**
   `resolvesuggest`: passes that answer something, and then one that answers
   nothing.  `states` are those the passes begin with, and `made` their answers.
   */
  ghost predicate RunMade(g: Graph, states: seq<State>, made: seq<nat>, u: State, manual: bool)
    requires g.WellFormed()
  {
    MadeSoFar(g, states, made, u, 0, manual)
  }

  ghost predicate MadeSoFar(g: Graph, states: seq<State>, made: seq<nat>, u: State, c: nat, manual: bool)
    requires g.WellFormed()
  {
    && |made| == |states| - 1 && (forall i :: 0 <= i < |made| ==> made[i] > 0)
    && (forall i :: 0 <= i < |made| ==> PassMade(g, states[i], states[i + 1], made[i], manual))
    && PassMade(g, states[|states| - 1], u, c, manual)
  }

  function Largest(cs: seq<nat>): nat { if cs == [] then 0 else Larger(cs[|cs| - 1], Largest(cs[..|cs| - 1])) }

  lemma MadeFirst(g: Graph, s: State, u: State, c: nat, manual: bool)
    requires g.WellFormed() && PassMade(g, s, u, c, manual)
    ensures MadeSoFar(g, [s], [], u, c, manual) && Largest([]) == 0
  { }

  lemma MadeNext(g: Graph, states: seq<State>, made: seq<nat>, t: State, c: nat, u: State, c': nat, manual: bool)
    requires g.WellFormed() && MadeSoFar(g, states, made, t, c, manual) && c > 0 && PassMade(g, t, u, c', manual)
    ensures MadeSoFar(g, states + [t], made + [c], u, c', manual)
    ensures Largest(made + [c]) == Larger(c, Largest(made))
  {
    hide PassMade;
    var ss, cs := states + [t], made + [c];
    assert cs[..|made|] == made;
    forall i | 0 <= i < |cs| ensures PassMade(g, ss[i], ss[i + 1], cs[i], manual) {
      if i < |made| { assert ss[i] == states[i] && ss[i + 1] == states[i + 1] && cs[i] == made[i]; }
    }
  }

  // ---- one more step ----

  lemma EachNone(g: Graph, s: State, c: nat, manual: bool)
    requires g.WellFormed()
    ensures ResolvesEach(g, s, s, [], c, c, manual) && ResolvesProvided(g, s, s, [], c, c, manual)
    ensures forall b :: ResolvesLinks(g, s, s, [], b, c, c, manual)
  { }

  lemma EachSnoc(g: Graph, s: State, m: State, u: State, ds: seq<nat>, i: nat, c0: nat, b: nat, rc: nat, manual: bool)
    requires g.WellFormed() && i < |ds| && ResolvesEach(g, s, m, ds[..i], c0, b, manual) && Resolves(g, m, u, ds[i], rc, manual)
    ensures ResolvesEach(g, s, u, ds[..i + 1], c0, Larger(b, rc), manual)
  {
    hide Resolves;
    var all := ds[..i + 1];
    assert all[..i] == ds[..i] && all[i] == ds[i];
    assert ResolvesEach(g, s, m, all[..|all| - 1], c0, b, manual);
  }

  lemma LinksSnocs(g: Graph, s: State, m: State, u: State, links: seq<Link>, i: nat, available: bool, c0: nat, b: nat, rc: nat, manual: bool)
    requires g.WellFormed() && i < |links| && ResolvesLinks(g, s, m, links[..i], available, c0, b, manual)
    requires LinkStep(g, m, u, links[i], available, rc, manual)
    ensures ResolvesLinks(g, s, u, links[..i + 1], available, c0, Larger(b, rc), manual)
  {
    hide LinkStep;
    var all := links[..i + 1];
    assert all[..i] == links[..i] && all[i] == links[i];
    assert ResolvesLinks(g, s, m, all[..|all| - 1], available, c0, b, manual);
  }

  lemma ProvidedSnocs(g: Graph, s: State, m: State, u: State, ds: seq<nat>, i: nat, c0: nat, b: nat, c: nat, manual: bool)
    requires g.WellFormed() && i < |ds| && ResolvesProvided(g, s, m, ds[..i], c0, b, manual) && ProvidedStep(g, m, u, ds[i], b, c, manual)
    ensures ResolvesProvided(g, s, u, ds[..i + 1], c0, c, manual)
  {
    hide ProvidedStep;
    var all := ds[..i + 1];
    assert all[..i] == ds[..i] && all[i] == ds[i];
    assert ResolvesProvided(g, s, m, all[..|all| - 1], c0, b, manual);
  }

  lemma FirstSnoc(g: Graph, s: State, m: State, u: State, n: nat, b: nat, c: nat, manual: bool)
    requires g.WellFormed() && ResolvesFirst(g, s, m, n, b, manual) && PassStep(g, m, u, n, b, c, manual)
    ensures ResolvesFirst(g, s, u, n + 1, c, manual)
  {
    hide PassStep;
    assert FirstVia(g, s, m, u, n + 1, b, c, manual);
  }
}
