/**
 dselect's dependency resolver (dselect/pkgdepcon.cc, dselect/pkgsublist.cc): it
 goes round the packages of a sublist, suggesting selections and deselections,
 "until nothing changed".  Shown here: it always stops, within a number of
 passes given by the numbers of dependencies and packages, and a package's
 selection changes only when its priority rises, so it cannot oscillate.
 */
module Resolver {
  import opened Text

  datatype Want = WantUnknown | Install | Hold | Deinstall | Purge

  datatype Status = NotInstalled | ConfigFiles | HalfInstalled | Unpacked | HalfConfigured
                  | TriggersAwaited | TriggersPending | Installed

  // selpriority and showpriority, low to high
  const SP_INHERIT: nat := 0
  const SP_SELECTING: nat := 1
  const SP_DESELECTING: nat := 2
  const SP_FIXED: nat := 3
  const DP_NONE: nat := 0
  const DP_MAY: nat := 1
  const DP_SHOULD: nat := 2
  const DP_MUST: nat := 3

  datatype DepType = Provides | Replaces | Enhances | Suggests | Recommends | Depends | PreDepends
                   | Conflicts | Breaks

  // ---- the package graph, which the resolver only reads ----

  /**
   One alternative of a dependency: the package set it names, and whether the
   version of the set's package that is available, or installed, satisfies it.
   */
  datatype Possi = Possi(ed: nat, okAvailable: bool, okInstalled: bool)

  datatype Dependency = Dependency(up: nat, kind: DepType, list: seq<Possi>)

  /** A reverse link: alternative number `alt` of dependency number `dep`. */
  datatype Link = Link(dep: nat, alt: nat)

  /** `newer` and `muchNewer` are the outcomes of comparing the available with the installed version to 0 and to 1. */
  datatype Package = Package(set_: nat, status: Status, reinstreq: bool, priority: nat, informative: bool,
    newer: bool, muchNewer: bool, availableDeps: seq<nat>, installedDeps: seq<nat>)

  /** A package set: its first package, and who depends on it. */
  datatype PackageSet = PackageSet(pkg: nat, dependedAvailable: seq<Link>, dependedInstalled: seq<Link>)

  datatype Graph = Graph(pkgs: seq<Package>, sets: seq<PackageSet>, deps: seq<Dependency>, virtualOk: set<(Link, Link)>) {
    ghost predicate LinkOk(l: Link) { l.dep < |deps| && l.alt < |deps[l.dep].list| }

    /** Every reference leads somewhere. */
    ghost predicate WellFormed() {
      && (forall p :: 0 <= p < |pkgs| ==> pkgs[p].set_ < |sets|)
      && (forall p, i :: 0 <= p < |pkgs| && 0 <= i < |pkgs[p].availableDeps| ==> pkgs[p].availableDeps[i] < |deps|)
      && (forall p, i :: 0 <= p < |pkgs| && 0 <= i < |pkgs[p].installedDeps| ==> pkgs[p].installedDeps[i] < |deps|)
      && (forall s :: 0 <= s < |sets| ==> sets[s].pkg < |pkgs|)
      && (forall s, i :: 0 <= s < |sets| && 0 <= i < |sets[s].dependedAvailable| ==> LinkOk(sets[s].dependedAvailable[i]))
      && (forall s, i :: 0 <= s < |sets| && 0 <= i < |sets[s].dependedInstalled| ==> LinkOk(sets[s].dependedInstalled[i]))
      && (forall d :: 0 <= d < |deps| ==> deps[d].up < |pkgs| && |deps[d].list| > 0)
      && (forall d, i :: 0 <= d < |deps| && 0 <= i < |deps[d].list| ==> deps[d].list[i].ed < |sets|)
    }
  }

  // ---- the resolver's state ----

  datatype PkgState = PkgState(suggested: Want, selected: Want, spriority: nat, dpriority: nat)

  /**
   `own[p]` is package p's entry in this list, if it is in it, and `parent[p]`
   its state in the enclosing list, absent for a purely virtual package.
   `done` holds the dependencies already recorded.
   */
  datatype State = State(own: seq<Option<PkgState>>, parent: seq<Option<PkgState>>, table: seq<nat>,
                         done: set<nat>, unavailable: set<Link>)

  ghost predicate Distinct(s: seq<nat>) { forall i, j :: 0 <= i < j < |s| ==> s[i] != s[j] }

  /** The list holds each package at most once, and only packages that exist in the parent list. */
  ghost predicate Valid(g: Graph, s: State) {
    && |s.own| == |s.parent| == |g.pkgs|
    && (forall p :: 0 <= p < |s.own| && s.own[p].Some? ==> s.parent[p].Some?)
    && (forall p: nat :: p in s.table <==> p < |s.own| && s.own[p].Some?)
    && Distinct(s.table)
    && (forall d :: d in s.done ==> d < |g.deps|)
  }

  /** The package that has a recorded dependency is itself in the list. */
  ghost predicate DoneListed(g: Graph, s: State)
    requires g.WellFormed() && Valid(g, s)
  {
    forall d :: d in s.done && s.parent[g.deps[d].up].Some? ==> s.own[g.deps[d].up].Some?
  }

  // ---- how the state may evolve ----

  /** Selections change only together with a strict rise of the priority. */
  ghost predicate Rises(a: PkgState, b: PkgState) {
    && a.spriority <= b.spriority
    && (a.spriority == b.spriority ==> a.selected == b.selected && a.suggested == b.suggested)
    && (a.spriority < b.spriority ==> b.selected == b.suggested)
    && (a.spriority < b.spriority ==>
          || (b.spriority == SP_SELECTING && b.selected.Install?)
          || (b.spriority == SP_DESELECTING && (b.selected.Deinstall? || b.selected.Purge?)))
    && a.dpriority <= b.dpriority
  }

  ghost predicate EntryEvolves(a: Option<PkgState>, b: Option<PkgState>) {
    if a.Some? then b.Some? && Rises(a.value, b.value) else b.Some? ==> b.value.spriority <= SP_DESELECTING
  }

  ghost predicate EntriesEvolve(a: seq<Option<PkgState>>, b: seq<Option<PkgState>>) {
    |a| == |b| && forall p :: 0 <= p < |a| ==> EntryEvolves(a[p], b[p])
  }

  ghost predicate Evolves(s: State, t: State) {
    && EntriesEvolve(s.own, t.own)
    && EntriesEvolve(s.parent, t.parent)
    && (forall p :: 0 <= p < |s.parent| && p < |t.parent| ==> s.parent[p].Some? == t.parent[p].Some?)
    && s.table <= t.table
    && s.done <= t.done
    && s.unavailable <= t.unavailable
  }

  ghost predicate Higher(a: Option<PkgState>, b: Option<PkgState>) {
    a.Some? && b.Some? && a.value.spriority < b.value.spriority
  }

  ghost predicate SomeHigher(a: seq<Option<PkgState>>, b: seq<Option<PkgState>>) {
    exists p :: 0 <= p < |a| && p < |b| && Higher(a[p], b[p])
  }

  /** Progress: a dependency newly recorded, or some priority strictly higher. */
  ghost predicate Advanced(s: State, t: State) {
    || !(t.done <= s.done)
    || SomeFresh(s.own, t.own)
    || SomeHigher(s.parent, t.parent)
  }

  /** A listed package's priority rose, or one entered the list and rose since. */
  ghost predicate SomeFresh(a: seq<Option<PkgState>>, b: seq<Option<PkgState>>) {
    exists p :: 0 <= p < |a| && p < |b| && b[p].Some? && Lift(a[p]) < b[p].value.spriority
  }

  function Lift(a: Option<PkgState>): nat { if a.Some? then a.value.spriority else SP_INHERIT }

  lemma EvolvesRefl(s: State)
    ensures Evolves(s, s)
  { }

  lemma EvolvesTrans(s: State, t: State, u: State)
    requires Evolves(s, t) && Evolves(t, u)
    ensures Evolves(s, u)
    ensures Advanced(s, t) || Advanced(t, u) ==> Advanced(s, u)
  { }

  // ---- the termination measure ----

  /** How often an entry's priority may still rise below sp_fixed. */
  function Room(a: Option<PkgState>): nat {
    if Lift(a) < SP_DESELECTING then SP_DESELECTING - Lift(a) else 0
  }

  function Rooms(xs: seq<Option<PkgState>>): nat {
    if xs == [] then 0 else Rooms(xs[..|xs| - 1]) + Room(xs[|xs| - 1])
  }

  /** Dependencies not yet recorded, plus priority rises not yet used. */
  ghost function Measure(g: Graph, s: State): int {
    |g.deps| - |s.done| + Rooms(s.own) + Rooms(s.parent)
  }

  lemma RoomFalls(a: Option<PkgState>, b: Option<PkgState>)
    requires EntryEvolves(a, b)
    ensures Room(b) <= Room(a)
    ensures b.Some? && Lift(a) < b.value.spriority ==> Room(b) < Room(a)
  { }

  lemma {:induction false} RoomsFall(a: seq<Option<PkgState>>, b: seq<Option<PkgState>>)
    requires EntriesEvolve(a, b)
    ensures Rooms(b) <= Rooms(a)
    ensures SomeFresh(a, b) ==> Rooms(b) < Rooms(a)
    decreases |a|
  {
    if a != [] {
      var n := |a| - 1;
      RoomFalls(a[n], b[n]);
      RoomsFall(a[..n], b[..n]);
      if SomeFresh(a, b) {
        var p :| 0 <= p < |a| && p < |b| && b[p].Some? && Lift(a[p]) < b[p].value.spriority;
        if p < n { assert a[..n][p] == a[p] && b[..n][p] == b[p]; }
      }
    }
  }

  lemma {:induction false} RoomsBound(xs: seq<Option<PkgState>>)
    ensures Rooms(xs) <= SP_DESELECTING * |xs|
    decreases |xs|
  {
    if xs != [] { RoomsBound(xs[..|xs| - 1]); }
  }

  lemma SubsetSize(a: set<nat>, b: set<nat>)
    requires a <= b
    ensures |a| <= |b| && (b != a ==> |a| < |b|)
  {
    assert b == a + (b - a);
    assert |b| == |a| + |b - a|;
  }

  lemma {:induction false} DoneBound(done: set<nat>, n: nat)
    requires forall d :: d in done ==> d < n
    ensures |done| <= n
    decreases n
  {
    if n == 0 {
      assert done == {};
    } else {
      DoneBound(done - {n - 1}, n - 1);
    }
  }

  /** The measure is bounded, never grows, and every advance takes something from it. */
  lemma MeasureFalls(g: Graph, s: State, t: State)
    requires Valid(g, s) && Valid(g, t) && Evolves(s, t)
    ensures 0 <= Measure(g, t) <= Measure(g, s) <= |g.deps| + 2 * SP_DESELECTING * |g.pkgs|
    ensures Advanced(s, t) ==> Measure(g, t) < Measure(g, s)
  {
    RoomsFall(s.own, t.own);
    RoomsFall(s.parent, t.parent);
    RoomsBound(s.own);
    RoomsBound(s.parent);
    DoneBound(t.done, |g.deps|);
    SubsetSize(s.done, t.done);
    if SomeHigher(s.parent, t.parent) {
      var p :| 0 <= p < |s.parent| && p < |t.parent| && Higher(s.parent[p], t.parent[p]);
      assert SomeFresh(s.parent, t.parent);
    }
  }

  /** Each state is an advance over the one before. */
  ghost predicate Advancing(run: seq<State>) {
    forall i :: 0 <= i < |run| - 1 ==> Evolves(run[i], run[i + 1]) && Advanced(run[i], run[i + 1])
  }

  // ---- no oscillation ----

  /** A deselected package stays as it is, whatever else the resolver does. */
  lemma DeselectedForGood(s: State, t: State, p: nat)
    requires Evolves(s, t) && p < |s.own| && s.own[p].Some? && s.own[p].value.spriority >= SP_DESELECTING
    ensures t.own[p].Some? && t.own[p].value.selected == s.own[p].value.selected
    ensures t.own[p].value.suggested == s.own[p].value.suggested
  { }

  /**
   Between two states of one run a listed package keeps its selection, or is
   selected, or is deselected; its priority is then the one of that kind.
   */
  lemma SelectionOnlyRises(s: State, t: State, p: nat)
    requires Evolves(s, t) && p < |s.own| && s.own[p].Some?
    ensures t.own[p].Some?
    ensures var a, b := s.own[p].value, t.own[p].value;
      a.selected != b.selected || a.suggested != b.suggested ==>
        && a.spriority < b.spriority
        && (b.selected.Install? ==> a.spriority < SP_SELECTING == b.spriority)
        && (!b.selected.Install? ==> b.spriority == SP_DESELECTING)
        && (b.selected.Install? || b.selected.Deinstall? || b.selected.Purge?)
  { }

  /** The states of a run, however finely they are looked at. */
  ghost predicate Evolving(run: seq<State>, p: nat) {
    && run != [] && (forall i :: 0 <= i < |run| - 1 ==> Evolves(run[i], run[i + 1]))
    && (forall i :: 0 <= i < |run| ==> p < |run[i].own| && run[i].own[p].Some?)
  }

  ghost function WantOf(s: State, p: nat): Want
    requires p < |s.own| && s.own[p].Some?
  {
    s.own[p].value.selected
  }

  /** How often a run changes a package's selection to install, or to anything else. */
  ghost function Changes(run: seq<State>, p: nat, install: bool): nat
    requires Evolving(run, p)
  {
    if |run| == 1 then 0
    else
      (if WantOf(run[0], p) != WantOf(run[1], p) && WantOf(run[1], p).Install? == install then 1 else 0)
      + Changes(run[1..], p, install)
  }

  /** No oscillation: over a whole run a package is selected at most once and deselected at most once, in this order. */
  lemma {:induction false} OnceEachWay(run: seq<State>, p: nat)
    requires Evolving(run, p)
    ensures Changes(run, p, true) <= if run[0].own[p].value.spriority < SP_SELECTING then 1 else 0
    ensures Changes(run, p, false) <= if run[0].own[p].value.spriority < SP_DESELECTING then 1 else 0
    decreases |run|
  {
    if |run| > 1 {
      OnceEachWay(run[1..], p);
      SelectionOnlyRises(run[0], run[1], p);
      assert run[1..][0] == run[1];
    }
  }

  // ---- reading the state ----

  /** Which `perpackagestate` a pointer leads to: the sublist's, or the parent's that it replaced. */
  datatype Ref = Own(pkg: nat) | Parent(pkg: nat)

  ghost predicate RefOk(s: State, r: Ref) {
    match r
    case Own(p) => p < |s.own| && s.own[p].Some?
    case Parent(p) => p < |s.parent| && s.parent[p].Some?
  }

  function At(s: State, r: Ref): PkgState
    requires RefOk(s, r)
  {
    match r
    case Own(p) => s.own[p].value
    case Parent(p) => s.parent[p].value
  }

  /** `pkg->clientdata`. */
  function Client(s: State, p: nat): (r: Option<Ref>)
    requires p < |s.own| == |s.parent|
    ensures r.Some? ==> RefOk(s, r.value) && r.value.pkg == p
  {
    if s.own[p].Some? then Some(Own(p)) else if s.parent[p].Some? then Some(Parent(p)) else None
  }

  function Selected(s: State, p: nat): Want
    requires p < |s.own| == |s.parent| && Client(s, p).Some?
  {
    At(s, Client(s, p).value).selected
  }

  /** `would_like_to_install`: yes, no, or half way. */
  function Would(w: Want, status: Status): (r: int)
    ensures r > 0 <==> w == Install || (w == Hold && status == Installed)
    ensures r < 0 <==> w == Hold && status !in {NotInstalled, ConfigFiles, Installed}
  {
    if w.Install? then 1
    else if !w.Hold? then 0
    else if status.Installed? then 1
    else if status.NotInstalled? || status.ConfigFiles? then 0
    else -1
  }

  predicate UpAndRunning(status: Status)
    ensures !UpAndRunning(status) <==> status in {NotInstalled, ConfigFiles, HalfInstalled, Unpacked, HalfConfigured}
  {
    status.Installed? || status.TriggersAwaited? || status.TriggersPending?
  }

  predicate UseAvailable(g: Graph, s: State, p: nat)
    requires p < |g.pkgs| == |s.own| == |s.parent|
  {
    && Client(s, p).Some?
    && Selected(s, p).Install?
    && g.pkgs[p].informative
    && (!UpAndRunning(g.pkgs[p].status) || g.pkgs[p].newer)
  }

  function DepsOf(g: Graph, s: State, p: nat): seq<nat>
    requires p < |g.pkgs| == |s.own| == |s.parent|
  {
    if UseAvailable(g, s, p) then g.pkgs[p].availableDeps else g.pkgs[p].installedDeps
  }

  predicate Against(kind: DepType)
    ensures !Against(kind) <==> kind in {Provides, Replaces, Enhances, Suggests, Recommends, Depends, PreDepends}
  {
    kind.Conflicts? || kind.Breaks?
  }

  datatype Choice = Stop | Go(best: Option<Ref>)

  /** `dep_update_best_to_change_stop`. */
  function Consider(g: Graph, s: State, best: Option<Ref>, p: nat): (c: Choice)
    requires p < |g.pkgs| == |s.own| == |s.parent|
    requires best.Some? ==> RefOk(s, best.value)
    ensures c.Go? && c.best.Some? ==> RefOk(s, c.best.value)
  {
    if Client(s, p).None? then Go(best)
    else
      var mine := At(s, Client(s, p).value).spriority;
      if mine == SP_DESELECTING then Stop
      else if best.None? then Go(Client(s, p))
      else
        var q := best.value.pkg;
        var theirs := At(s, best.value).spriority;
        if !g.pkgs[p].informative && g.pkgs[q].informative then Go(best)
        else if g.pkgs[p].informative && !g.pkgs[q].informative then Go(Client(s, p))
        else if mine > theirs then Go(best)
        else if mine < theirs then Go(Client(s, p))
        else if g.pkgs[p].priority > g.pkgs[q].priority then Go(best)
        else if g.pkgs[p].priority < g.pkgs[q].priority then Go(Client(s, p))
        else Go(best)
  }

  /** A package providing the set satisfies the alternative, through the given reverse link. */
  predicate ProviderSatisfies(g: Graph, s: State, l: Link, via: Link, available: bool)
    requires g.WellFormed() && |g.pkgs| == |s.own| == |s.parent| && g.LinkOk(l) && g.LinkOk(via)
  {
    var q := g.deps[via.dep].up;
    var d := g.deps[l.dep];
    && g.deps[via.dep].kind.Provides?
    && (!Against(d.kind) || g.pkgs[q].set_ != g.pkgs[d.up].set_)
    && Client(s, q).Some?
    && UseAvailable(g, s, q) == available
    && Would(Selected(s, q), g.pkgs[q].status) != 0
    && (l, via) in g.virtualOk
  }

  /** The named package itself decides, being (or half being) wanted. */
  predicate Decides(g: Graph, s: State, l: Link)
    requires g.WellFormed() && |g.pkgs| == |s.own| == |s.parent| && g.LinkOk(l)
  {
    var d := g.deps[l.dep];
    var ed := d.list[l.alt].ed;
    var p := g.sets[ed].pkg;
    var would := if Client(s, p).Some? then Would(Selected(s, p), g.pkgs[p].status) else 0;
    if Against(d.kind) then g.pkgs[d.up].set_ != ed && would != 0 else would > 0
  }

  /** What `deppossatisfied` answers: by the named package if it is wanted, otherwise by some provider. */
  predicate Satisfied(g: Graph, s: State, l: Link)
    requires g.WellFormed() && |g.pkgs| == |s.own| == |s.parent| && g.LinkOk(l)
  {
    var possi := g.deps[l.dep].list[l.alt];
    var set_ := g.sets[possi.ed];
    if Decides(g, s, l) then
      if UseAvailable(g, s, set_.pkg) then possi.okAvailable else possi.okInstalled
    else
      || (exists i :: 0 <= i < |set_.dependedInstalled| && ProviderSatisfies(g, s, l, set_.dependedInstalled[i], false))
      || (exists i :: 0 <= i < |set_.dependedAvailable| && ProviderSatisfies(g, s, l, set_.dependedAvailable[i], true))
  }

  // ---- the same in terms of the data alone ----

  /** What is wanted of a package, in the innermost list that has it. */
  ghost predicate Wants(s: State, p: nat, w: Want)
    requires p < |s.own| == |s.parent|
  {
    if s.own[p].Some? then s.own[p].value.selected == w else s.parent[p].Some? && s.parent[p].value.selected == w
  }

  /** It is to be installed, or kept as it is, fully installed. */
  ghost predicate WillBeThere(g: Graph, s: State, p: nat)
    requires p < |g.pkgs| == |s.own| == |s.parent|
  {
    Wants(s, p, Install) || (Wants(s, p, Hold) && g.pkgs[p].status == Installed)
  }

  /** It is to be there at least half: kept as it is in any state but the absent ones. */
  ghost predicate MayBeThere(g: Graph, s: State, p: nat)
    requires p < |g.pkgs| == |s.own| == |s.parent|
  {
    Wants(s, p, Install) || (Wants(s, p, Hold) && g.pkgs[p].status !in {NotInstalled, ConfigFiles})
  }

  /** Its available version will be the installed one: it is to be installed, and that would install it, or upgrade it. */
  ghost predicate WillChange(g: Graph, s: State, p: nat)
    requires p < |g.pkgs| == |s.own| == |s.parent|
  {
    && Wants(s, p, Install) && g.pkgs[p].informative
    && (g.pkgs[p].status in {NotInstalled, ConfigFiles, HalfInstalled, Unpacked, HalfConfigured} || g.pkgs[p].newer)
  }

  lemma InForce(g: Graph, s: State, p: nat)
    requires p < |g.pkgs| == |s.own| == |s.parent|
    ensures UseAvailable(g, s, p) <==> WillChange(g, s, p)
    ensures DepsOf(g, s, p) == if WillChange(g, s, p) then g.pkgs[p].availableDeps else g.pkgs[p].installedDeps
    ensures Client(s, p).Some? && Would(Selected(s, p), g.pkgs[p].status) > 0 <==> WillBeThere(g, s, p)
    ensures Client(s, p).Some? && Would(Selected(s, p), g.pkgs[p].status) != 0 <==> MayBeThere(g, s, p)
    ensures Client(s, p).None? <==> s.own[p].None? && s.parent[p].None?
  { }

  /** The package named is to be there: at all for a conflict with another set, fully for anything else. */
  ghost predicate NamedIsThere(g: Graph, s: State, l: Link)
    requires g.WellFormed() && |g.pkgs| == |s.own| == |s.parent| && g.LinkOk(l)
  {
    var d := g.deps[l.dep];
    var ed := d.list[l.alt].ed;
    if d.kind in {Conflicts, Breaks} then g.pkgs[d.up].set_ != ed && MayBeThere(g, s, g.sets[ed].pkg)
    else WillBeThere(g, s, g.sets[ed].pkg)
  }

  /** A package that is to be there provides it, by the version that will be installed; not to a conflict of its own set. */
  ghost predicate ProvidedBy(g: Graph, s: State, l: Link, via: Link, available: bool)
    requires g.WellFormed() && |g.pkgs| == |s.own| == |s.parent| && g.LinkOk(l) && g.LinkOk(via)
  {
    var q, d := g.deps[via.dep].up, g.deps[l.dep];
    && g.deps[via.dep].kind == Provides && (l, via) in g.virtualOk
    && MayBeThere(g, s, q) && (WillChange(g, s, q) <==> available)
    && !(d.kind in {Conflicts, Breaks} && g.pkgs[q].set_ == g.pkgs[d.up].set_)
  }

  /**
   An alternative is satisfied: by the package named, if that is to be there and
   the version that will be installed is right; and otherwise by a provider.
   */
  lemma SatisfiedIff(g: Graph, s: State, l: Link)
    requires g.WellFormed() && |g.pkgs| == |s.own| == |s.parent| && g.LinkOk(l)
    ensures var possi := g.deps[l.dep].list[l.alt];
      var set_ := g.sets[possi.ed];
      Satisfied(g, s, l) <==>
        if NamedIsThere(g, s, l) then if WillChange(g, s, set_.pkg) then possi.okAvailable else possi.okInstalled
        else
          || (exists i :: 0 <= i < |set_.dependedInstalled| && ProvidedBy(g, s, l, set_.dependedInstalled[i], false))
          || (exists i :: 0 <= i < |set_.dependedAvailable| && ProvidedBy(g, s, l, set_.dependedAvailable[i], true))
  {
    var set_ := g.sets[g.deps[l.dep].list[l.alt].ed];
    NamedDecides(g, s, l);
    InForce(g, s, set_.pkg);
    forall i | 0 <= i < |set_.dependedInstalled|
      ensures ProviderSatisfies(g, s, l, set_.dependedInstalled[i], false) <==> ProvidedBy(g, s, l, set_.dependedInstalled[i], false)
    {
      ProviderIs(g, s, l, set_.dependedInstalled[i], false);
    }
    forall i | 0 <= i < |set_.dependedAvailable|
      ensures ProviderSatisfies(g, s, l, set_.dependedAvailable[i], true) <==> ProvidedBy(g, s, l, set_.dependedAvailable[i], true)
    {
      ProviderIs(g, s, l, set_.dependedAvailable[i], true);
    }
    hide ProviderSatisfies, ProvidedBy, Decides, NamedIsThere, UseAvailable, WillChange;
  }

  lemma NamedDecides(g: Graph, s: State, l: Link)
    requires g.WellFormed() && |g.pkgs| == |s.own| == |s.parent| && g.LinkOk(l)
    ensures Decides(g, s, l) <==> NamedIsThere(g, s, l)
  {
    InForce(g, s, g.sets[g.deps[l.dep].list[l.alt].ed].pkg);
    hide Client, WillBeThere, MayBeThere, Would, Selected;
  }

  lemma ProviderIs(g: Graph, s: State, l: Link, via: Link, available: bool)
    requires g.WellFormed() && |g.pkgs| == |s.own| == |s.parent| && g.LinkOk(l) && g.LinkOk(via)
    ensures ProviderSatisfies(g, s, l, via, available) <==> ProvidedBy(g, s, l, via, available)
  {
    InForce(g, s, g.deps[via.dep].up);
    hide Client, WillChange, MayBeThere, Would, Selected, UseAvailable;
  }

  // ---- what an upgrade would satisfy ----

  /** A provider in use whose available version would do. */
  predicate Upgradable(g: Graph, s: State, l: Link, via: Link)
    requires g.WellFormed() && |g.pkgs| == |s.own| == |s.parent| && g.LinkOk(l) && g.LinkOk(via)
  {
    var q := g.pkgs[g.deps[via.dep].up];
    ProviderSatisfies(g, s, l, via, false) && (!UpAndRunning(q.status) || q.muchNewer)
  }

  /** The first of some providers that is upgradable. */
  function FirstUpgradable(g: Graph, s: State, l: Link, links: seq<Link>): Option<Ref>
    requires g.WellFormed() && |g.pkgs| == |s.own| == |s.parent| && g.LinkOk(l)
    requires forall i :: 0 <= i < |links| ==> g.LinkOk(links[i])
  {
    if links == [] then None
    else
      var n := |links| - 1;
      var r := FirstUpgradable(g, s, l, links[..n]);
      if r.Some? then r else if Upgradable(g, s, l, links[n]) then Client(s, g.deps[links[n].dep].up) else None
  }

  /** What `deppossatisfied` notes of an alternative that is not satisfied: the held package itself, or a provider. */
  function UpgradeFor(g: Graph, s: State, l: Link): Option<Ref>
    requires g.WellFormed() && |g.pkgs| == |s.own| == |s.parent| && g.LinkOk(l)
  {
    var possi := g.deps[l.dep].list[l.alt];
    var p := g.sets[possi.ed].pkg;
    if Decides(g, s, l) then
      if !UseAvailable(g, s, p) && Client(s, p).Some? && Selected(s, p).Hold? && possi.okAvailable && g.pkgs[p].muchNewer
      then Client(s, p) else None
    else FirstUpgradable(g, s, l, g.sets[possi.ed].dependedAvailable)
  }

  /**
   An upgrade is noted of a package named that is held, fully installed, and not to
   be upgraded, if its available version is right and much newer; and otherwise of
   the first provider whose available version is right and would be put in place.
   */
  lemma UpgradeForIs(g: Graph, s: State, l: Link)
    requires g.WellFormed() && |g.pkgs| == |s.own| == |s.parent| && g.LinkOk(l)
    ensures var possi := g.deps[l.dep].list[l.alt];
      var p := g.sets[possi.ed].pkg;
      NamedIsThere(g, s, l) ==>
        (UpgradeFor(g, s, l).Some? <==> Wants(s, p, Hold) && possi.okAvailable && g.pkgs[p].muchNewer)
        && (UpgradeFor(g, s, l).Some? ==> UpgradeFor(g, s, l) == Client(s, p))
    ensures var links := g.sets[g.deps[l.dep].list[l.alt].ed].dependedAvailable;
      !NamedIsThere(g, s, l) ==>
        if UpgradeFor(g, s, l).Some? then
          exists i :: 0 <= i < |links| && WouldDo(g, s, l, links[i]) && UpgradeFor(g, s, l) == Client(s, g.deps[links[i].dep].up)
                   && forall j :: 0 <= j < i ==> !WouldDo(g, s, l, links[j])
        else forall i :: 0 <= i < |links| ==> !WouldDo(g, s, l, links[i])
  {
    NamedDecides(g, s, l);
    var possi := g.deps[l.dep].list[l.alt];
    InForce(g, s, g.sets[possi.ed].pkg);
    FirstUpgradableIs(g, s, l, g.sets[possi.ed].dependedAvailable);
    hide Decides, NamedIsThere, FirstUpgradable, WouldDo, WillBeThere, MayBeThere, Would;
  }

  ghost predicate WouldDo(g: Graph, s: State, l: Link, via: Link)
    requires g.WellFormed() && |g.pkgs| == |s.own| == |s.parent| && g.LinkOk(l)
  {
    && g.LinkOk(via) && ProvidedBy(g, s, l, via, false)
    && var q := g.pkgs[g.deps[via.dep].up];
       q.status in {NotInstalled, ConfigFiles, HalfInstalled, Unpacked, HalfConfigured} || q.muchNewer
  }

  /** The first of some providers that would do, if any does. */
  ghost predicate FirstDoing(g: Graph, s: State, l: Link, links: seq<Link>, r: Option<Ref>)
    requires g.WellFormed() && |g.pkgs| == |s.own| == |s.parent| && g.LinkOk(l)
    requires forall i :: 0 <= i < |links| ==> g.LinkOk(links[i])
  {
    if r.Some? then
      exists i :: 0 <= i < |links| && WouldDo(g, s, l, links[i]) && r == Client(s, g.deps[links[i].dep].up)
               && forall j :: 0 <= j < i ==> !WouldDo(g, s, l, links[j])
    else forall i :: 0 <= i < |links| ==> !WouldDo(g, s, l, links[i])
  }

  lemma {:induction false} FirstUpgradableIs(g: Graph, s: State, l: Link, links: seq<Link>)
    requires g.WellFormed() && |g.pkgs| == |s.own| == |s.parent| && g.LinkOk(l)
    requires forall i :: 0 <= i < |links| ==> g.LinkOk(links[i])
    ensures FirstDoing(g, s, l, links, FirstUpgradable(g, s, l, links))
    decreases |links|
  {
    if links != [] {
      var n := |links| - 1;
      FirstUpgradableIs(g, s, l, links[..n]);
      UpgradableIs(g, s, l, links[n]);
      OneMoreDoing(g, s, l, links, FirstUpgradable(g, s, l, links[..n]));
      hide WouldDo, Upgradable, Client, FirstDoing;
    }
  }

  lemma UpgradableIs(g: Graph, s: State, l: Link, via: Link)
    requires g.WellFormed() && |g.pkgs| == |s.own| == |s.parent| && g.LinkOk(l) && g.LinkOk(via)
    ensures WouldDo(g, s, l, via) <==> Upgradable(g, s, l, via)
    ensures WouldDo(g, s, l, via) ==> Client(s, g.deps[via.dep].up).Some?
  {
    ProviderIs(g, s, l, via, false);
    InForce(g, s, g.deps[via.dep].up);
    hide Client, ProviderSatisfies, Would, Selected, UseAvailable;
  }

  lemma OneMoreDoing(g: Graph, s: State, l: Link, links: seq<Link>, r: Option<Ref>)
    requires g.WellFormed() && |g.pkgs| == |s.own| == |s.parent| && g.LinkOk(l) && links != []
    requires forall i :: 0 <= i < |links| ==> g.LinkOk(links[i])
    requires g.LinkOk(links[|links| - 1]) && FirstDoing(g, s, l, links[..|links| - 1], r)
    ensures var via := links[|links| - 1];
      var c := Client(s, g.deps[via.dep].up);
      if r.Some? then FirstDoing(g, s, l, links, r)
      else if !WouldDo(g, s, l, via) then FirstDoing(g, s, l, links, None)
      else c.Some? ==> FirstDoing(g, s, l, links, c)
  {
    hide WouldDo, Client;
    var n := |links| - 1;
    var rest := links[..n];
    assert forall j :: 0 <= j < n ==> rest[j] == links[j];
    if r.Some? {
      var i :| 0 <= i < n && WouldDo(g, s, l, rest[i]) && r == Client(s, g.deps[rest[i].dep].up)
               && forall j :: 0 <= j < i ==> !WouldDo(g, s, l, rest[j]);
      assert WouldDo(g, s, l, links[i]);
      forall j | 0 <= j < i ensures !WouldDo(g, s, l, links[j]) { assert rest[j] == links[j]; }
    } else {
      forall j | 0 <= j < n ensures !WouldDo(g, s, l, links[j]) { assert rest[j] == links[j]; }
      assert WouldDo(g, s, l, links[n]) ==> 0 <= n < |links|;
    }
  }

  /** The first upgrade noted among the first n alternatives. */
  function UpgradeAmong(g: Graph, s: State, d: nat, n: nat): Option<Ref>
    requires g.WellFormed() && |g.pkgs| == |s.own| == |s.parent| && d < |g.deps| && n <= |g.deps[d].list|
  {
    if n == 0 then None
    else
      var r := UpgradeAmong(g, s, d, n - 1);
      if r.Some? then r else UpgradeFor(g, s, Link(d, n - 1))
  }

  // ---- what is changed ----

  /** The state with one package's selection and priority set. */
  function Put(s: State, r: Ref, w: Want, sp: nat): State
    requires RefOk(s, r)
  {
    var e := At(s, r).(suggested := w, selected := w, spriority := sp);
    match r
    case Own(p) => s.(own := s.own[p := Some(e)])
    case Parent(p) => s.(parent := s.parent[p := Some(e)])
  }

  /** Deselecting a package means purging it if it is not installed. */
  function Removal(g: Graph, p: nat): (r: Want)
    requires p < |g.pkgs|
    ensures g.pkgs[p].status != NotInstalled ==> r == Deinstall
    ensures g.pkgs[p].status == NotInstalled ==> r == Purge
  {
    if g.pkgs[p].status.NotInstalled? then Purge else Deinstall
  }

  // ---- which of two conflicting packages gives way ----

  /** Both are wanted, as far as this list knows. */
  ghost predicate BothWanted(g: Graph, s: State, per: nat, ped: nat)
    requires per < |g.pkgs| == |s.own| == |s.parent| && ped < |g.pkgs|
  {
    && Client(s, per).Some? && Would(Selected(s, per), g.pkgs[per].status) != 0
    && Client(s, ped).Some? && Would(Selected(s, ped), g.pkgs[ped].status) != 0
  }

  function Victim(g: Graph, s: State, er: Ref, ed: Ref): Ref
    requires RefOk(s, er) && RefOk(s, ed) && er.pkg < |g.pkgs| && ed.pkg < |g.pkgs|
  {
    if g.pkgs[er.pkg].reinstreq then ed
    else if g.pkgs[ed.pkg].reinstreq then er
    else if At(s, er).spriority > At(s, ed).spriority then ed
    else if At(s, er).spriority < At(s, ed).spriority then er
    else if g.pkgs[er.pkg].priority < g.pkgs[ed.pkg].priority then ed
    else if g.pkgs[er.pkg].priority > g.pkgs[ed.pkg].priority then er
    else ed
  }

  /**
   A package that needs reinstallation gives way only to another one; otherwise
   the less firmly chosen one gives way, then the less important one, then the
   one depended on.
   */
  lemma VictimIs(g: Graph, s: State, er: Ref, ed: Ref)
    requires RefOk(s, er) && RefOk(s, ed) && er.pkg < |g.pkgs| && ed.pkg < |g.pkgs|
    ensures var v := Victim(g, s, er, ed);
      var w := if v == er then ed else er;
      && (v == er || v == ed)
      && (g.pkgs[v.pkg].reinstreq ==> g.pkgs[w.pkg].reinstreq)
      && (!g.pkgs[er.pkg].reinstreq && !g.pkgs[ed.pkg].reinstreq ==>
            || At(s, v).spriority < At(s, w).spriority
            || (At(s, v).spriority == At(s, w).spriority && g.pkgs[v.pkg].priority >= g.pkgs[w.pkg].priority))
      && (v == er && er != ed ==>
            || g.pkgs[ed.pkg].reinstreq
            || At(s, er).spriority < At(s, ed).spriority
            || g.pkgs[er.pkg].priority > g.pkgs[ed.pkg].priority)
  { }

  // ---- which package is best to select ----

  /** Strictly better: available rather than not, then less firmly deselected, then more important. */
  predicate Better(g: Graph, s: State, p: nat, q: nat)
    requires p < |g.pkgs| == |s.own| == |s.parent| && q < |g.pkgs| && Client(s, p).Some? && Client(s, q).Some?
  {
    var a, b := At(s, Client(s, p).value).spriority, At(s, Client(s, q).value).spriority;
    if g.pkgs[p].informative != g.pkgs[q].informative then g.pkgs[p].informative
    else if a != b then a < b
    else g.pkgs[p].priority < g.pkgs[q].priority
  }

  ghost predicate InRange(g: Graph, s: State, seen: seq<nat>) {
    |g.pkgs| == |s.own| == |s.parent| && forall i :: 0 <= i < |seen| ==> seen[i] < |g.pkgs|
  }

  /** Number k of the packages seen is as good as any of them, and better than those before it. */
  ghost predicate FirstBest(g: Graph, s: State, seen: seq<nat>, k: nat)
    requires InRange(g, s, seen)
  {
    && k < |seen| && Client(s, seen[k]).Some?
    && (forall j :: 0 <= j < |seen| && Client(s, seen[j]).Some? ==> !Better(g, s, seen[j], seen[k]))
    && (forall j :: 0 <= j < k && Client(s, seen[j]).Some? ==> Better(g, s, seen[k], seen[j]))
  }

  /** The first of the best packages seen, if any of them is real. */
  ghost predicate BestOf(g: Graph, s: State, seen: seq<nat>, best: Option<Ref>)
    requires InRange(g, s, seen)
  {
    if best.None? then forall i :: 0 <= i < |seen| ==> Client(s, seen[i]).None?
    else exists k: nat :: FirstBest(g, s, seen, k) && Client(s, seen[k]) == best
  }

  /** A package seen that has been deselected: then nothing else is to be selected instead. */
  ghost predicate Deselected(g: Graph, s: State, seen: seq<nat>)
    requires InRange(g, s, seen)
  {
    exists i :: 0 <= i < |seen| && Client(s, seen[i]).Some? && At(s, Client(s, seen[i]).value).spriority == SP_DESELECTING
  }

  lemma ConsiderStep(g: Graph, s: State, seen: seq<nat>, best: Option<Ref>, p: nat)
    requires InRange(g, s, seen) && BestOf(g, s, seen, best) && p < |g.pkgs| && (best.Some? ==> RefOk(s, best.value))
    requires !Deselected(g, s, seen)
    ensures InRange(g, s, seen + [p])
    ensures Consider(g, s, best, p).Stop? <==> Deselected(g, s, seen + [p])
    ensures Consider(g, s, best, p).Go? ==> BestOf(g, s, seen + [p], Consider(g, s, best, p).best)
  {
    var all := seen + [p];
    assert forall i :: 0 <= i < |seen| ==> all[i] == seen[i];
    assert all[|seen|] == p;
    var c := Consider(g, s, best, p);
    if c.Go? {
      if best.None? {
        if Client(s, p).Some? { assert FirstBest(g, s, all, |seen|); }
      } else {
        var k: nat :| FirstBest(g, s, seen, k) && Client(s, seen[k]) == best;
        if c.best == best {
          StillBest(g, s, seen, k, p);
        } else {
          NowBest(g, s, seen, k, p);
        }
      }
    }
  }

  lemma StillBest(g: Graph, s: State, seen: seq<nat>, k: nat, p: nat)
    requires InRange(g, s, seen) && FirstBest(g, s, seen, k) && p < |g.pkgs|
    requires Client(s, p).Some? ==> !Better(g, s, p, seen[k])
    ensures InRange(g, s, seen + [p]) && FirstBest(g, s, seen + [p], k)
  { }

  lemma NowBest(g: Graph, s: State, seen: seq<nat>, k: nat, p: nat)
    requires InRange(g, s, seen) && FirstBest(g, s, seen, k) && p < |g.pkgs| && Client(s, p).Some? && Better(g, s, p, seen[k])
    ensures InRange(g, s, seen + [p]) && FirstBest(g, s, seen + [p], |seen|)
  { }

  // ---- the packages that come into question for a dependency ----

  /** Those that provide a set, by the reverse links of available packages. */
  function Providers(g: Graph, links: seq<Link>): seq<nat>
    requires g.WellFormed() && forall i :: 0 <= i < |links| ==> g.LinkOk(links[i])
  {
    if links == [] then []
    else
      var l := links[|links| - 1];
      assert g.LinkOk(l);
      Providers(g, links[..|links| - 1]) + if g.deps[l.dep].kind.Provides? then [g.deps[l.dep].up] else []
  }

  /** A provider that exists in some list. */
  predicate RealProvider(g: Graph, s: State, l: Link)
    requires g.WellFormed() && g.LinkOk(l) && |g.pkgs| == |s.own| == |s.parent|
  {
    g.deps[l.dep].kind.Provides? && Client(s, g.deps[l.dep].up).Some?
  }

  /** The named package of each alternative, each followed by its providers. */
  function Candidates(g: Graph, list: seq<Possi>): seq<nat>
    requires g.WellFormed() && forall i :: 0 <= i < |list| ==> list[i].ed < |g.sets|
  {
    if list == [] then []
    else
      var set_ := g.sets[list[|list| - 1].ed];
      Candidates(g, list[..|list| - 1]) + ([set_.pkg] + Providers(g, set_.dependedAvailable))
  }

  lemma {:induction false} ProvidersInRange(g: Graph, s: State, links: seq<Link>)
    requires g.WellFormed() && |g.pkgs| == |s.own| == |s.parent| && forall i :: 0 <= i < |links| ==> g.LinkOk(links[i])
    ensures InRange(g, s, Providers(g, links))
    decreases |links|
  {
    if links != [] {
      assert g.LinkOk(links[|links| - 1]);
      ProvidersInRange(g, s, links[..|links| - 1]);
    }
  }

  lemma {:induction false} CandidatesInRange(g: Graph, s: State, list: seq<Possi>)
    requires g.WellFormed() && |g.pkgs| == |s.own| == |s.parent| && forall i :: 0 <= i < |list| ==> list[i].ed < |g.sets|
    ensures InRange(g, s, Candidates(g, list))
    decreases |list|
  {
    if list != [] {
      ProvidersInRange(g, s, g.sets[list[|list| - 1].ed].dependedAvailable);
      CandidatesInRange(g, s, list[..|list| - 1]);
    }
  }

  /** One more reverse link. */
  lemma ProvidersSnoc(g: Graph, links: seq<Link>, k: nat)
    requires g.WellFormed() && k < |links| && forall i :: 0 <= i < |links| ==> g.LinkOk(links[i])
    ensures g.LinkOk(links[k])
    ensures Providers(g, links[..k + 1])
         == Providers(g, links[..k]) + if g.deps[links[k].dep].kind.Provides? then [g.deps[links[k].dep].up] else []
  {
    assert links[..k + 1][..k] == links[..k] && links[..k + 1][k] == links[k];
  }

  lemma CandidatesSnoc(g: Graph, list: seq<Possi>, k: nat)
    requires g.WellFormed() && k < |list| && forall i :: 0 <= i < |list| ==> list[i].ed < |g.sets|
    ensures var set_ := g.sets[list[k].ed];
      Candidates(g, list[..k + 1]) == Candidates(g, list[..k]) + ([set_.pkg] + Providers(g, set_.dependedAvailable))
  {
    assert list[..k + 1][..k] == list[..k] && list[..k + 1][k] == list[k];
  }

  lemma DeselectedMore(g: Graph, s: State, seen: seq<nat>, more: seq<nat>)
    requires InRange(g, s, seen) && InRange(g, s, more) && Deselected(g, s, seen)
    ensures InRange(g, s, seen + more) && Deselected(g, s, seen + more)
  {
    var i :| 0 <= i < |seen| && Client(s, seen[i]).Some? && At(s, Client(s, seen[i]).value).spriority == SP_DESELECTING;
    assert (seen + more)[i] == seen[i];
  }

  // ---- what becomes of an unsatisfied dependency ----

  /** The same but for the unavailable packages mentioned to the user. */
  predicate SameSelections(s: State, t: State) { s.own == t.own && s.parent == t.parent && s.table == t.table && s.done == t.done }

  /** The package chosen to be selected: the one whose upgrade would help, or else the first of the best candidates. */
  ghost predicate Chosen(g: Graph, s: State, d: nat, fix: Option<Ref>, best: Option<Ref>)
    requires g.WellFormed() && d < |g.deps| && InRange(g, s, Candidates(g, g.deps[d].list))
  {
    (if fix.Some? then best == fix else BestOf(g, s, Candidates(g, g.deps[d].list), best))
    && (best.Some? ==> RefOk(s, best.value) && best.value.pkg < |g.pkgs|)
  }

  /** A candidate has been deselected, and no upgrade would help: the depending package must go. */
  ghost predicate MustDeselect(g: Graph, s: State, d: nat, fix: Option<Ref>)
    requires g.WellFormed() && d < |g.deps| && InRange(g, s, Candidates(g, g.deps[d].list))
  {
    fix.None? && Deselected(g, s, Candidates(g, g.deps[d].list))
  }

  /** The depending package is deselected, unless it was or only recommends. */
  ghost predicate Dropped(g: Graph, s: State, t: State, d: nat)
    requires g.WellFormed() && d < |g.deps| && g.deps[d].up < |s.own| && s.own[g.deps[d].up].Some?
  {
    var up := g.deps[d].up;
    SameSelections(t,
      if s.own[up].value.spriority >= SP_DESELECTING || g.deps[d].kind.Recommends? then s
      else Put(s, Own(up), Removal(g, up), SP_DESELECTING))
  }

  /** The chosen package is selected, unless it was, or it is only recommended and nothing is being installed by hand. */
  ghost predicate Taken(g: Graph, s: State, t: State, d: nat, best: Option<Ref>, manual: bool)
    requires d < |g.deps| && (best.Some? ==> RefOk(s, best.value))
  {
    SameSelections(t,
      if best.None? || At(s, best.value).spriority >= SP_SELECTING || (g.deps[d].kind.Recommends? && !manual) then s
      else Put(s, best.value, Install, SP_SELECTING))
  }

  // ---- what a pass has seen to ----

  /** A package that may be in the way of a conflict. */
  ghost predicate Rival(g: Graph, d: nat, q: nat)
    requires g.WellFormed() && d < |g.deps|
  {
    var up, ed := g.deps[d].up, g.deps[d].list[0].ed;
    || (g.pkgs[up].set_ != ed && q == g.sets[ed].pkg)
    || (q != up && q in Providers(g, g.sets[ed].dependedAvailable))
  }

  /**
   A dependency that asks for nothing now: its package is not wanted, or it is
   satisfied, or not violated by two wanted packages; or else it is recorded, to be
   shown to the user.
   */
  ghost predicate Attended(g: Graph, s: State, d: nat)
    requires g.WellFormed() && |g.pkgs| == |s.own| == |s.parent| && d < |g.deps|
  {
    var up, kind := g.deps[d].up, g.deps[d].kind;
    || d in s.done || Client(s, up).None? || kind.Provides? || kind.Replaces?
    || if Against(kind) then
         || Would(Selected(s, up), g.pkgs[up].status) == 0 || !Satisfied(g, s, Link(d, 0))
         || forall q: nat :: q < |g.pkgs| && Rival(g, d, q) ==> !BothWanted(g, s, up, q)
       else
         || Would(Selected(s, up), g.pkgs[up].status) <= 0
         || exists i :: 0 <= i < |g.deps[d].list| && Satisfied(g, s, Link(d, i))
  }

  ghost predicate AllAttended(g: Graph, s: State, ds: seq<nat>)
    requires g.WellFormed() && |g.pkgs| == |s.own| == |s.parent| && forall i :: 0 <= i < |ds| ==> ds[i] < |g.deps|
  {
    forall i :: 0 <= i < |ds| ==> Attended(g, s, ds[i])
  }

  /** The dependencies at these reverse links, of packages whose available (or installed) version is in use. */
  ghost predicate LinksAttended(g: Graph, s: State, links: seq<Link>, available: bool)
    requires g.WellFormed() && |g.pkgs| == |s.own| == |s.parent| && forall i :: 0 <= i < |links| ==> g.LinkOk(links[i])
  {
    forall i :: 0 <= i < |links| ==>
      g.LinkOk(links[i]) && (UseAvailable(g, s, g.deps[links[i].dep].up) == available ==> Attended(g, s, links[i].dep))
  }

  /** Everything that depends on a set. */
  ghost predicate DependersAttended(g: Graph, s: State, set_: nat)
    requires g.WellFormed() && |g.pkgs| == |s.own| == |s.parent| && set_ < |g.sets|
  {
    && LinksAttended(g, s, g.sets[set_].dependedAvailable, true)
    && LinksAttended(g, s, g.sets[set_].dependedInstalled, false)
  }

  /** The set a provided name belongs to. */
  function ProvidedSet(g: Graph, d: nat): nat
    requires g.WellFormed() && d < |g.deps|
  {
    g.pkgs[g.sets[g.deps[d].list[0].ed].pkg].set_
  }

  ghost predicate ProvidedAttended(g: Graph, s: State, ds: seq<nat>)
    requires g.WellFormed() && |g.pkgs| == |s.own| == |s.parent| && forall i :: 0 <= i < |ds| ==> ds[i] < |g.deps|
  {
    forall i :: 0 <= i < |ds| && g.deps[ds[i]].kind.Provides? ==> DependersAttended(g, s, ProvidedSet(g, ds[i]))
  }

  /** All that concerns one package: its dependencies, its dependers, and those of what it provides. */
  ghost predicate Visited(g: Graph, s: State, p: nat)
    requires g.WellFormed() && |g.pkgs| == |s.own| == |s.parent| && p < |g.pkgs|
  {
    && AllAttended(g, s, DepsOf(g, s, p))
    && DependersAttended(g, s, g.pkgs[p].set_)
    && ProvidedAttended(g, s, DepsOf(g, s, p))
  }

  /** The state only moves forward: if it is the same again, it was the same in between. */
  lemma Still(s: State, t: State, u: State)
    requires Evolves(s, t) && Evolves(t, u) && u == s
    ensures t == s
  {
    SameEntries(s.own, t.own);
    SameEntries(s.parent, t.parent);
    hide EntriesEvolve;
    assert s.table == t.table;
  }

  lemma SameEntries(a: seq<Option<PkgState>>, b: seq<Option<PkgState>>)
    requires EntriesEvolve(a, b) && EntriesEvolve(b, a)
    ensures a == b
  {
    forall p | 0 <= p < |a| ensures a[p] == b[p] {
      assert EntryEvolves(a[p], b[p]) && EntryEvolves(b[p], a[p]);
    }
  }

  /** Nothing is left to be attended to among the first `n` packages of the list. */
  ghost predicate SettledTo(g: Graph, s: State, n: nat)
    requires g.WellFormed()
  {
    && |g.pkgs| == |s.own| == |s.parent| && n <= |s.table|
    && forall j :: 0 <= j < n ==> s.table[j] < |g.pkgs| && Visited(g, s, s.table[j])
  }

  /** Nothing is left to be attended to. */
  ghost predicate Settled(g: Graph, s: State)
    requires g.WellFormed()
  {
    SettledTo(g, s, |s.table|)
  }

  lemma SettledNext(g: Graph, s: State, n: nat)
    requires g.WellFormed() && SettledTo(g, s, n) && n < |s.table| && s.table[n] < |g.pkgs| && Visited(g, s, s.table[n])
    ensures SettledTo(g, s, n + 1)
  {
    hide Visited;
  }

  lemma SettledNone(g: Graph, s: State)
    requires g.WellFormed() && |g.pkgs| == |s.own| == |s.parent|
    ensures SettledTo(g, s, 0)
  { }
}
