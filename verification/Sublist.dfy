/**
 The recursive package list of dselect and the methods that resolve its
 dependencies, as dselect/pkgdepcon.cc and dselect/pkgsublist.cc have them.
 */
module Sublist {
  import opened Text
  import opened Resolver
  import opened Suggesting

  class PackageList {
    const g: Graph
    const manualInstall: bool
    var own: seq<Option<PkgState>>
    var parent: seq<Option<PkgState>>
    var table: seq<nat>
    var depsdone: set<nat>
    var unavdone: set<Link>

    function Snap(): State
      reads this
    {
      State(own, parent, table, depsdone, unavdone)
    }

    ghost predicate Fine()
      reads this
    {
      g.WellFormed() && Valid(g, Snap())
    }

    ghost predicate Ok()
      reads this
    {
      Fine() && DoneListed(g, Snap())
    }

    constructor (graph: Graph, manual: bool, enclosing: seq<Option<PkgState>>)
      requires graph.WellFormed() && |enclosing| == |graph.pkgs|
      ensures Ok() && g == graph && manualInstall == manual && parent == enclosing && table == []
    {
      g, manualInstall, parent, table, depsdone, unavdone := graph, manual, enclosing, [], {}, {};
      own := seq(|graph.pkgs|, _ => None);
    }

    /** `add(pkginfo *)`: into the list, once, with the selection it has in the parent list. */
    method Add(p: nat)
      requires Fine() && p < |g.pkgs|
      modifies this`own, this`table
      ensures Fine() && Evolves(old(Snap()), Snap())
      ensures parent[p].Some? ==> own[p].Some?
      ensures forall q :: 0 <= q < |own| && q != p ==> own[q] == old(own)[q]
      ensures old(own)[p].Some? || parent[p].None? ==> own == old(own) && table == old(table)
      ensures old(own)[p].None? && parent[p].Some? ==>
        var w := parent[p].value.selected; own[p] == Some(PkgState(w, w, SP_INHERIT, 0)) && table == old(table) + [p]
    {
      if own[p].Some? || parent[p].None? {
        return;
      }
      var selected := parent[p].value.selected;
      own := own[p := Some(PkgState(selected, selected, SP_INHERIT, 0))];
      table := table + [p];
    }

    /** `add(pkginfo *, const char *, showpriority)`, without the text shown to the user. */
    method AddShown(p: nat, importance: nat)
      requires Fine() && p < |g.pkgs|
      modifies this`own, this`table
      ensures Fine() && Evolves(old(Snap()), Snap())
      ensures parent[p].Some? ==> own[p].Some?
      ensures Extends(g, old(Snap()), Snap(), {}, {p}, importance)
    {
      ghost var s := Snap();
      Add(p);
      ghost var t := Snap();
      if own[p].Some? && own[p].value.dpriority < importance {
        own := own[p := Some(own[p].value.(dpriority := importance))];
        Raised(g, t, p, importance);
      } else {
        EvolvesRefl(t);
      }
      hide Evolves, Valid, Extends;
      EvolvesTrans(s, t, Snap());
      ShownExtends(g, s, Snap(), p, importance);
    }

    /** Adds a provider of an alternative, and the dependency by which it provides it. */
    method AddProvider(l: Link, importance: nat)
      requires Ok() && g.LinkOk(l)
      modifies this`own, this`table, this`depsdone
      ensures Ok() && Evolves(old(Snap()), Snap())
      ensures Extends(g, old(Snap()), Snap(), if g.deps[l.dep].kind.Provides? then {l.dep} else {}, {}, importance)
      decreases 1, 0
    {
      ghost var s := Snap();
      ExtendsNone(g, s, importance);
      if !g.deps[l.dep].kind.Provides? {
        EvolvesRefl(Snap());
        return;
      }
      AddShown(g.deps[l.dep].up, importance);
      ghost var t := Snap();
      DoneStaysListed(g, s, t);
      hide Evolves, Valid, DoneListed, Extends, Recording;
      var _ := AddDependency(l.dep, importance);
      EvolvesTrans(s, t, Snap());
      ProviderExtends(g, s, t, Snap(), l.dep, importance);
    }

    /** Adds the package an alternative names, and its providers unless this is itself a providing. */
    method AddAlternative(d: nat, possi: Possi, importance: nat)
      requires Ok() && d < |g.deps| && possi.ed < |g.sets|
      modifies this`own, this`table, this`depsdone
      ensures Ok() && Evolves(old(Snap()), Snap())
      ensures var set_ := g.sets[possi.ed];
        Extends(g, old(Snap()), Snap(), if g.deps[d].kind.Provides? then {} else Providing(g, set_.dependedAvailable), {set_.pkg}, importance)
      decreases if g.deps[d].kind.Provides? then 0 else 2, 0
    {
      ghost var s := Snap();
      AddShown(g.sets[possi.ed].pkg, importance);
      DoneStaysListed(g, s, Snap());
      hide Evolves, Valid, DoneListed, Extends, Providing;
      if !g.deps[d].kind.Provides? {
        AddProviders(g.sets[possi.ed].dependedAvailable, g.sets[possi.ed].pkg, importance, s);
      }
    }

    /** The loop over the providers of an alternative, after the package it names. */
    method AddProviders(links: seq<Link>, p: nat, importance: nat, ghost s: State)
      requires Ok() && (forall k :: 0 <= k < |links| ==> g.LinkOk(links[k])) && Evolves(s, Snap()) && Extends(g, s, Snap(), {}, {p}, importance)
      modifies this`own, this`table, this`depsdone
      ensures Ok() && Evolves(s, Snap()) && Extends(g, s, Snap(), Providing(g, links), {p}, importance)
      decreases 1, 1
    {
      hide Evolves, Valid, DoneListed, Extends, Providing;
      NoProviding(g, links);
      var i := 0;
      while i < |links|
        invariant Ok() && Evolves(s, Snap()) && 0 <= i <= |links|
        invariant Extends(g, s, Snap(), Providing(g, links[..i]), {p}, importance)
      {
        ghost var t := Snap();
        ProvidingSnoc(g, links, i);
        AddProvider(links[i], importance);
        EvolvesTrans(s, t, Snap());
        ExtendsTrans(g, s, t, Snap(), Providing(g, links[..i]), {p}, if g.deps[links[i].dep].kind.Provides? then {links[i].dep} else {}, {},
          importance);
        assert {p} + {} == {p};
        i := i + 1;
      }
      assert links[..i] == links;
    }

    /** `add(dependency *, showpriority)`: once per dependency; says whether this was the first time. */
    method AddDependency(d: nat, importance: nat) returns (first: bool)
      requires Ok() && d < |g.deps|
      modifies this`own, this`table, this`depsdone
      ensures Ok() && Evolves(old(Snap()), Snap())
      ensures first <==> d !in old(depsdone)
      ensures first ==> Advanced(old(Snap()), Snap())
      ensures d in depsdone && Recording(g, old(Snap()), Snap(), d, importance)
      decreases if g.deps[d].kind.Provides? then 0 else 2, 2
    {
      ghost var s := Snap();
      if d in depsdone {
        EvolvesRefl(s);
        return false;
      }
      depsdone := depsdone + {d};
      ghost var t := Snap();
      assert Evolves(s, t) && Advanced(s, t);
      AddShown(g.deps[d].up, importance);
      EvolvesTrans(s, t, Snap());
      DoneListedAfter(g, s, Snap(), d);
      AddAlternatives(d, importance, t);
      EvolvesTrans(s, t, Snap());
      DoneGrows(t, Snap(), d);
      RecordedIs(g, s, Snap(), d, importance) by { assert t == s.(done := s.done + {d}); }
      return true;
    }

    /** The loop over the alternatives, after the package that has the dependency. */
    method AddAlternatives(d: nat, importance: nat, ghost t: State)
      requires Ok() && d < |g.deps| && Evolves(t, Snap()) && Extends(g, t, Snap(), {}, {g.deps[d].up}, importance)
      modifies this`own, this`table, this`depsdone
      ensures Ok() && Evolves(t, Snap()) && Extends(g, t, Snap(), Along(g, d, |g.deps[d].list|), NamedBy(g, d), importance)
      decreases if g.deps[d].kind.Provides? then 0 else 2, 1
    {
      hide Evolves, Valid, DoneListed, Extends, Along, Providing, Alternatives;
      NoAlong(g, d);
      var i := 0;
      ghost var up := {g.deps[d].up};
      while i < |g.deps[d].list|
        invariant Ok() && Evolves(t, Snap()) && 0 <= i <= |g.deps[d].list|
        invariant Extends(g, t, Snap(), Along(g, d, i), up + Alternatives(g, d, i), importance)
      {
        ghost var u, set_ := Snap(), g.sets[g.deps[d].list[i].ed];
        AlongSnoc(g, d, i);
        AddAlternative(d, g.deps[d].list[i], importance);
        EvolvesTrans(t, u, Snap());
        ExtendsTrans(g, t, u, Snap(), Along(g, d, i), up + Alternatives(g, d, i),
          if g.deps[d].kind.Provides? then {} else Providing(g, set_.dependedAvailable), {set_.pkg}, importance);
        assert up + Alternatives(g, d, i) + {set_.pkg} == up + Alternatives(g, d, i + 1);
        i := i + 1;
      }
    }

    /** `addunavailable`, without the text shown to the user. */
    method AddUnavailable(l: Link)
      requires Ok() && g.LinkOk(l) && own[g.deps[l.dep].up].Some?
      modifies this`unavdone
      ensures Ok() && Evolves(old(Snap()), Snap())
    {
      ghost var s := Snap();
      EvolvesRefl(s);
      unavdone := unavdone + {l};
    }

    /**
     `deppossatisfied`.  The answer is about the state as it is; on the way the
     first package whose upgrade would help is noted, if asked for.
     */
    method DepPosSatisfied(l: Link, wanted: bool, fix0: Option<Ref>) returns (ok: bool, fix: Option<Ref>)
      requires Ok() && g.LinkOk(l) && (fix0.Some? ==> RefOk(Snap(), fix0.value))
      ensures ok == Satisfied(g, Snap(), l)
      ensures fix.Some? ==> RefOk(Snap(), fix.value)
      ensures fix0.Some? || !wanted ==> fix == fix0
      ensures !ok && fix0.None? && wanted ==> fix == UpgradeFor(g, Snap(), l)
    {
      hide DoneListed, ProviderSatisfies, FirstUpgradable;
      WithProvider(g, Snap(), l);
      fix := fix0;
      var s := Snap();
      var possi := g.deps[l.dep].list[l.alt];
      var set_ := g.sets[possi.ed];
      if Decides(g, s, l) {
        if UseAvailable(g, s, set_.pkg) {
          return possi.okAvailable, fix;
        }
        if possi.okInstalled {
          return true, fix;
        }
        if Selected(s, set_.pkg).Hold? && wanted && fix.None? && possi.okAvailable && g.pkgs[set_.pkg].muchNewer {
          fix := Client(s, set_.pkg);
        }
        return false, fix;
      }
      ok, fix := ByProvider(l, wanted, fix0);
    }

    /** The providers: one that is in use, or else the first whose upgrade would do. */
    method ByProvider(l: Link, wanted: bool, fix0: Option<Ref>) returns (ok: bool, fix: Option<Ref>)
      requires Ok() && g.LinkOk(l) && (fix0.Some? ==> RefOk(Snap(), fix0.value)) && !Decides(g, Snap(), l)
      ensures ok == Satisfied(g, Snap(), l)
      ensures fix.Some? ==> RefOk(Snap(), fix.value)
      ensures fix0.Some? || !wanted ==> fix == fix0
      ensures !ok && fix0.None? && wanted ==> fix == UpgradeFor(g, Snap(), l)
    {
      hide DoneListed, ProviderSatisfies, FirstUpgradable, Decides;
      WithProvider(g, Snap(), l);
      fix := fix0;
      var s := Snap();
      var set_ := g.sets[g.deps[l.dep].list[l.alt].ed];
      var i := 0;
      while i < |set_.dependedInstalled|
        invariant 0 <= i <= |set_.dependedInstalled|
        invariant forall j :: 0 <= j < i ==> !ProviderSatisfies(g, s, l, set_.dependedInstalled[j], false)
      {
        if ProviderSatisfies(g, s, l, set_.dependedInstalled[i], false) {
          return true, fix;
        }
        i := i + 1;
      }
      i := 0;
      UpgradableNone(g, s, l, set_.dependedAvailable);
      while i < |set_.dependedAvailable|
        invariant 0 <= i <= |set_.dependedAvailable|
        invariant fix0.None? && wanted ==> fix == FirstUpgradable(g, s, l, set_.dependedAvailable[..i])
        invariant forall j :: 0 <= j < i ==> !ProviderSatisfies(g, s, l, set_.dependedAvailable[j], true)
        invariant fix.Some? ==> RefOk(s, fix.value)
        invariant fix0.Some? || !wanted ==> fix == fix0
      {
        var via := set_.dependedAvailable[i];
        if ProviderSatisfies(g, s, l, via, true) {
          return true, fix;
        }
        UpgradableSnoc(g, s, l, set_.dependedAvailable, i);
        if ProviderSatisfies(g, s, l, via, false) && wanted && fix.None? {
          var q := g.deps[via.dep].up;
          if !UpAndRunning(g.pkgs[q].status) || g.pkgs[q].muchNewer {
            fix := Client(s, q);
          }
        }
        i := i + 1;
      }
      assert set_.dependedAvailable[..i] == set_.dependedAvailable;
      return false, fix;
    }

    /** Writes a new selection through a pointer, raising the priority with it. */
    method Assign(r: Ref, w: Want, sp: nat)
      requires Ok() && RefOk(Snap(), r) && At(Snap(), r).spriority < sp
      requires (sp == SP_SELECTING && w.Install?) || (sp == SP_DESELECTING && (w.Deinstall? || w.Purge?))
      modifies this`own, this`parent
      ensures Ok() && Evolves(old(Snap()), Snap()) && Advanced(old(Snap()), Snap())
      ensures Snap() == Put(old(Snap()), r, w, sp)
    {
      ghost var s := Snap();
      var p := r.pkg;
      match r {
        case Own(_) =>
          own := own[p := Some(own[p].value.(suggested := w, selected := w, spriority := sp))];
          assert own[p].Some? && Lift(s.own[p]) < own[p].value.spriority;
        case Parent(_) =>
          parent := parent[p := Some(parent[p].value.(suggested := w, selected := w, spriority := sp))];
          assert Higher(s.parent[p], parent[p]);
      }
    }

    /**
     `deselect_one_of`.  If both packages are wanted the dependency is recorded,
     giving state t; then one of them is deselected, unless that happened before.
     */
    method DeselectOneOf(per: nat, ped: nat, d: nat) returns (rc: nat, ghost t: State)
      requires Ok() && per < |g.pkgs| && ped < |g.pkgs| && d < |g.deps|
      modifies this
      ensures Ok() && Evolves(old(Snap()), Snap()) && (rc > 0 ==> Advanced(old(Snap()), Snap())) && (rc == 0 || rc == 2)
      ensures !BothWanted(g, old(Snap()), per, ped) ==> rc == 0 && Snap() == old(Snap())
      ensures BothWanted(g, old(Snap()), per, ped) ==>
        && Valid(g, t) && d in t.done && Client(t, per).Some? && Client(t, ped).Some?
        && var v := Victim(g, t, Client(t, per).value, Client(t, ped).value);
           && (rc == 2 <==> At(t, v).spriority < SP_DESELECTING)
           && Snap() == if rc == 2 then Put(t, v, Removal(g, v.pkg), SP_DESELECTING) else t
      ensures Parts(g, old(Snap()), Snap(), per, ped, d, rc)
    {
      var s := Snap();
      t := s;
      EvolvesRefl(s);
      ValidSizes(g, s);
      if
        || Client(s, per).None? || Would(Selected(s, per), g.pkgs[per].status) == 0
        || Client(s, ped).None? || Would(Selected(s, ped), g.pkgs[ped].status) == 0
      {
        return 0, t;
      }
      var _ := AddDependency(d, DP_MUST);
      var u := Snap();
      t := u;
      ClientStays(g, s, u, per);
      ClientStays(g, s, u, ped);
      hide Evolves, Valid, DoneListed, Advanced, Put, Recording, BothWanted;
      var best := Victim(g, u, Client(u, per).value, Client(u, ped).value);
      if At(u, best).spriority >= SP_DESELECTING {
        assert PartsVia(g, s, u, u, per, ped, d, 0);
        return 0, t;
      }
      Assign(best, Removal(g, best.pkg), SP_DESELECTING);
      assert PartsVia(g, s, u, Snap(), per, ped, d, 2);
      EvolvesTrans(s, u, Snap());
      return 2, t;
    }

    /**
     The loops over the alternatives and their providers: the first of the best
     candidates, unless a candidate has been deselected.
     */
    method FindBest(d: nat) returns (stop: bool, best: Option<Ref>)
      requires Ok() && d < |g.deps| && own[g.deps[d].up].Some?
      modifies this`unavdone
      ensures Ok() && Evolves(old(Snap()), Snap())
      ensures own == old(own) && parent == old(parent)
      ensures best.Some? ==> RefOk(Snap(), best.value)
      ensures InRange(g, old(Snap()), Candidates(g, g.deps[d].list))
      ensures stop <==> Deselected(g, old(Snap()), Candidates(g, g.deps[d].list))
      ensures !stop ==> BestOf(g, old(Snap()), Candidates(g, g.deps[d].list), best)
    {
      ghost var s := Snap();
      ValidSizes(g, s);
      EvolvesRefl(s);
      hide BestOf, Deselected, Candidates, InRange, Providers, Evolves, Valid, DoneListed, RefOk, BestSoFar;
      stop, best := false, None;
      var i := 0;
      ghost var list := g.deps[d].list;
      CandidatesInRange(g, s, list);
      BestStart(g, s, list);
      while i < |g.deps[d].list|
        invariant Ok() && Evolves(s, Snap()) && own == s.own && parent == s.parent
        invariant best.Some? ==> RefOk(Snap(), best.value)
        invariant 0 <= i <= |g.deps[d].list| && BestSoFar(g, s, list[..i], best)
      {
        ghost var t := Snap();
        BestSeen(g, s, list[..i], best);
        stop, best := TryNext(d, i, best, Candidates(g, list[..i]), s);
        EvolvesTrans(s, t, Snap());
        BestNext(g, s, list, i, stop, best);
        if stop {
          return;
        }
        i := i + 1;
      }
      assert list[..i] == list;
      BestSeen(g, s, list, best);
    }

    /** The same, as seen from an earlier state with the same selections. */
    method TryNext(d: nat, i: nat, best0: Option<Ref>, ghost seen: seq<nat>, ghost s: State) returns (stop: bool, best: Option<Ref>)
      requires Ok() && d < |g.deps| && i < |g.deps[d].list| && own == s.own && parent == s.parent && own[g.deps[d].up].Some?
      requires best0.Some? ==> RefOk(Snap(), best0.value)
      requires InRange(g, s, seen) && !Deselected(g, s, seen) && BestOf(g, s, seen, best0)
      modifies this`unavdone
      ensures Ok() && Evolves(old(Snap()), Snap())
      ensures own == old(own) && parent == old(parent)
      ensures best.Some? ==> RefOk(Snap(), best.value)
      ensures var set_ := g.sets[g.deps[d].list[i].ed];
        var all := seen + ([set_.pkg] + Providers(g, set_.dependedAvailable));
        InRange(g, s, all) && (stop <==> Deselected(g, s, all)) && (!stop ==> BestOf(g, s, all, best))
    {
      ghost var t := Snap();
      ValidSizes(g, t);
      hide BestOf, Deselected, InRange, Providers, Evolves, Valid, DoneListed, RefOk;
      SameClients(g, s, t, seen, best0);
      stop, best := TryAlternative(d, i, best0, seen);
      ghost var set_ := g.sets[g.deps[d].list[i].ed];
      SameClients(g, t, s, seen + ([set_.pkg] + Providers(g, set_.dependedAvailable)), best);
    }

    method TryAlternative(d: nat, i: nat, best0: Option<Ref>, ghost seen: seq<nat>) returns (stop: bool, best: Option<Ref>)
      requires Ok() && d < |g.deps| && i < |g.deps[d].list| && own[g.deps[d].up].Some?
      requires best0.Some? ==> RefOk(Snap(), best0.value)
      requires InRange(g, Snap(), seen) && !Deselected(g, Snap(), seen) && BestOf(g, Snap(), seen, best0)
      modifies this`unavdone
      ensures Ok() && Evolves(old(Snap()), Snap())
      ensures own == old(own) && parent == old(parent)
      ensures best.Some? ==> RefOk(Snap(), best.value)
      ensures var set_ := g.sets[g.deps[d].list[i].ed];
        var all := seen + ([set_.pkg] + Providers(g, set_.dependedAvailable));
        && InRange(g, old(Snap()), all)
        && (stop <==> Deselected(g, old(Snap()), all))
        && (!stop ==> BestOf(g, old(Snap()), all, best))
    {
      var s := Snap();
      EvolvesRefl(s);
      best := best0;
      var set_ := g.sets[g.deps[d].list[i].ed];
      var links := set_.dependedAvailable;
      hide Consider, DoneListed, BestOf, Deselected, InRange, Providers, Evolves, Valid;
      ValidSizes(g, s);
      AllInRange(g, s, seen, set_.pkg, links);
      ConsiderStep(g, s, seen, best, set_.pkg);
      NoLinks(g, seen, set_.pkg, links);
      var c := Consider(g, s, best, set_.pkg);
      if c.Stop? {
        MoreLinks(g, s, seen, set_.pkg, links, 0);
        return true, best;
      }
      var foundany := Client(s, set_.pkg).Some?;
      stop, best, foundany := TryProviders(s, set_.pkg, links, c.best, foundany, seen);
      if !stop && !foundany {
        AddUnavailable(Link(d, i));
      }
    }

    /** The providers of one alternative. */
    method TryProviders(s: State, p: nat, links: seq<Link>, best0: Option<Ref>, found0: bool, ghost seen: seq<nat>)
      returns (stop: bool, best: Option<Ref>, foundany: bool)
      requires g.WellFormed() && |g.pkgs| == |s.own| == |s.parent| && p < |g.pkgs| && InRange(g, s, seen)
      requires forall i :: 0 <= i < |links| ==> g.LinkOk(links[i])
      requires best0.Some? ==> RefOk(s, best0.value)
      requires InRange(g, s, seen + [p]) && !Deselected(g, s, seen + [p]) && BestOf(g, s, seen + [p], best0)
      ensures best.Some? ==> RefOk(s, best.value)
      ensures var all := seen + ([p] + Providers(g, links));
        && InRange(g, s, all)
        && (stop <==> Deselected(g, s, all))
        && (!stop ==> BestOf(g, s, all, best))
      ensures !stop ==> (foundany <==> found0 || exists i :: 0 <= i < |links| && RealProvider(g, s, links[i]))
    {
      hide Consider, BestOf, Deselected, InRange, Providers;
      stop, best, foundany := false, best0, found0;
      ghost var now := seen + [p];
      AllInRange(g, s, seen, p, links);
      NoLinks(g, seen, p, links);
      var k := 0;
      while k < |links|
        invariant 0 <= k <= |links|
        invariant best.Some? ==> RefOk(s, best.value)
        invariant now == seen + ([p] + Providers(g, links[..k])) && InRange(g, s, now)
        invariant !Deselected(g, s, now) && BestOf(g, s, now, best)
        invariant foundany <==> found0 || exists i :: 0 <= i < k && RealProvider(g, s, links[i])
      {
        var l := links[k];
        NextLink(g, seen, p, links, k);
        if g.deps[l.dep].kind.Provides? {
          var q := g.deps[l.dep].up;
          foundany := foundany || Client(s, q).Some?;
          ConsiderStep(g, s, now, best, q);
          var c := Consider(g, s, best, q);
          now := now + [q];
          if c.Stop? {
            MoreLinks(g, s, seen, p, links, k + 1);
            return true, best, foundany;
          }
          best := c.best;
        }
        k := k + 1;
      }
      assert links[..k] == links;
    }

    /** Whether some alternative is satisfied; if not, the first package whose upgrade would help. */
    method AnySatisfied(d: nat) returns (found: bool, fix: Option<Ref>)
      requires Ok() && d < |g.deps|
      ensures found <==> exists i :: 0 <= i < |g.deps[d].list| && Satisfied(g, Snap(), Link(d, i))
      ensures fix.Some? ==> RefOk(Snap(), fix.value)
      ensures !found ==> fix == UpgradeAmong(g, Snap(), d, |g.deps[d].list|)
    {
      hide Satisfied, DoneListed, UpgradeFor;
      fix := None;
      var i := 0;
      while i < |g.deps[d].list|
        invariant 0 <= i <= |g.deps[d].list|
        invariant forall j :: 0 <= j < i ==> !Satisfied(g, Snap(), Link(d, j))
        invariant fix == UpgradeAmong(g, Snap(), d, i)
        invariant fix.Some? ==> RefOk(Snap(), fix.value)
      {
        var ok;
        ok, fix := DepPosSatisfied(Link(d, i), true, fix);
        if ok {
          return true, fix;
        }
        i := i + 1;
      }
      return false, fix;
    }

    /** The unsatisfied dependency is recorded; now a package is selected, or the depending one deselected. */
    method Repair(d: nat, fix: Option<Ref>, recorded: bool) returns (rc: nat, ghost best: Option<Ref>)
      requires Ok() && d < |g.deps| && d in depsdone && parent[g.deps[d].up].Some?
      requires fix.Some? ==> RefOk(Snap(), fix.value) && fix.value.pkg < |g.pkgs|
      modifies this
      ensures Ok() && Evolves(old(Snap()), Snap())
      ensures rc > 0 <==> recorded
      ensures rc <= 2
      ensures InRange(g, old(Snap()), Candidates(g, g.deps[d].list)) && old(own)[g.deps[d].up].Some?
      ensures MustDeselect(g, old(Snap()), d, fix) ==> Dropped(g, old(Snap()), Snap(), d)
      ensures !MustDeselect(g, old(Snap()), d, fix) ==>
        Chosen(g, old(Snap()), d, fix, best) && Taken(g, old(Snap()), Snap(), d, best, manualInstall)
      ensures MustDeselect(g, old(Snap()), d, fix) ==>
        (rc == 2 <==> recorded && old(own)[g.deps[d].up].value.spriority < SP_DESELECTING)
      ensures !MustDeselect(g, old(Snap()), d, fix) ==>
        (rc == 2 <==> recorded && best.Some? && At(old(Snap()), best.value).spriority < SP_SELECTING)
    {
      ghost var s := Snap();
      var kind := g.deps[d].kind;
      var stop, chosen := false, fix;
      var up := g.deps[d].up;
      assert own[up].Some?;
      EvolvesRefl(s);
      CandidatesInRange(g, s, g.deps[d].list);
      hide Evolves, Valid, DoneListed, Advanced, BestOf, Deselected, Candidates, InRange;
      if fix.None? {
        stop, chosen := FindBest(d);
      }
      best := chosen;
      ghost var t := Snap();
      if stop {
        if own[up].value.spriority >= SP_DESELECTING {
          return if recorded then 1 else 0, best;
        }
        if !kind.Recommends? {
          Assign(Own(up), Removal(g, up), SP_DESELECTING);
          EvolvesTrans(s, t, Snap());
        }
        return if recorded then 2 else 0, best;
      }
      if chosen.None? {
        return if recorded then 1 else 0, best;
      }
      BestInRange(g, s, d, fix, chosen);
      if At(Snap(), chosen.value).spriority >= SP_SELECTING {
        return if recorded then 1 else 0, best;
      }
      if !kind.Recommends? || manualInstall {
        Assign(chosen.value, Install, SP_SELECTING);
        EvolvesTrans(s, t, Snap());
      }
      return if recorded then 2 else 0, best;
    }

    /** `resolvedepcon` for a dependency that wants something installed. */
    method ResolvePositive(d: nat) returns (rc: nat)
      requires Ok() && d < |g.deps| && Client(Snap(), g.deps[d].up).Some?
      modifies this
      ensures Ok() && Evolves(old(Snap()), Snap()) && (rc > 0 ==> Advanced(old(Snap()), Snap())) && rc <= 2
      ensures
        if Asks(g, old(Snap()), d) then Acts(g, old(Snap()), Snap(), d, rc, manualInstall) && d in depsdone
        else Snap() == old(Snap()) && rc == 0
      ensures rc == 0 && Snap() != old(Snap()) ==> d in old(depsdone)
    {
      ghost var s := Snap();
      EvolvesRefl(s);
      AsksIff(g, s, d);
      hide Asks, Acts, Satisfied, Evolves, Valid, Advanced, DoneListed, Recording, UpgradeAmong;
      var kind, up := g.deps[d].kind, g.deps[d].up;
      if Would(Selected(Snap(), up), g.pkgs[up].status) <= 0 {
        return 0;
      }
      var found, fix := AnySatisfied(d);
      if found {
        return 0;
      }
      var importance := if kind.Enhances? || kind.Suggests? then DP_MAY else if kind.Recommends? then DP_SHOULD else DP_MUST;
      assert importance == Importance(kind);
      hide Importance;
      var first := AddDependency(d, importance);
      if kind.Enhances? || kind.Suggests? {
        OnlyShown(g, s, Snap(), d, if first then 1 else 0, manualInstall);
        return if first then 1 else 0;
      }
      ghost var t := Snap();
      PositiveReady(g, s, t, up, fix);
      ghost var best;
      rc, best := Repair(d, fix, first);
      RepairActs(g, s, t, Snap(), d, rc, best, manualInstall);
      DoneGrows(t, Snap(), d);
      EvolvesTrans(s, t, Snap());
    }

    /** `resolvedepcon` for a conflict. */
    method ResolveNegative(d: nat) returns (rc: nat)
      requires Ok() && d < |g.deps| && Client(Snap(), g.deps[d].up).Some?
      modifies this
      ensures Ok() && Evolves(old(Snap()), Snap()) && (rc > 0 ==> Advanced(old(Snap()), Snap())) && rc <= 2
      ensures !Satisfied(g, old(Snap()), Link(d, 0)) ==> rc == 0 && Snap() == old(Snap())
      ensures
        || d in depsdone || Would(Selected(old(Snap()), g.deps[d].up), g.pkgs[g.deps[d].up].status) == 0
        || !Satisfied(g, old(Snap()), Link(d, 0))
        || forall q: nat :: q < |g.pkgs| && Rival(g, d, q) ==> !BothWanted(g, old(Snap()), g.deps[d].up, q)
      ensures
        if Violated(g, old(Snap()), d) then Contests(g, old(Snap()), Snap(), Rivals(g, d), d, rc) else Snap() == old(Snap()) && rc == 0
    {
      ghost var s := Snap();
      EvolvesRefl(s);
      ContestedNone(g, s, d);
      var up := g.deps[d].up;
      if Would(Selected(Snap(), up), g.pkgs[up].status) == 0 {
        return 0;
      }
      var violated, _ := DepPosSatisfied(Link(d, 0), false, None);
      if !violated {
        return 0;
      }
      var ed := g.deps[d].list[0].ed;
      hide Satisfied, Evolves, Valid, Advanced, DoneListed, BothWanted, Providers, Rival, NoneGaveWay, Contests, Others, Rivals;
      ghost var seen: seq<nat> := [];
      RivalsAre(g, d);
      if g.pkgs[up].set_ != ed {
        rc := TryConflict(up, g.sets[ed].pkg, d, s, seen);
        seen := seen + [g.sets[ed].pkg];
        if rc > 0 {
          ContestedMore(g, s, Snap(), seen, Rivals(g, d), d, rc);
          return;
        }
      }
      rc := TryRivals(up, d, g.sets[ed].dependedAvailable, s, seen);
      RivalsSeen(g, s, d, seen);
      if rc == 0 { ContestedAll(g, s, Snap(), Rivals(g, d), d); }
    }

    /** One rival, after those seen: it is not wanted together with `up`, or the conflict is recorded. */
    method TryConflict(up: nat, q: nat, d: nat, ghost s: State, ghost seen: seq<nat>) returns (rc: nat)
      requires Ok() && q < |g.pkgs| && d < |g.deps| && up == g.deps[d].up && Evolves(s, Snap()) && Valid(g, s)
      requires Tried(g, s, Snap(), up, d, seen) && NoneGaveWay(g, s, Snap(), seen, d)
      modifies this
      ensures Ok() && Evolves(s, Snap()) && (rc > 0 ==> Advanced(s, Snap())) && rc <= 2
      ensures Tried(g, s, Snap(), up, d, seen + [q]) && (rc > 0 ==> d in depsdone)
      ensures if rc == 0 then NoneGaveWay(g, s, Snap(), seen + [q], d) else Contests(g, s, Snap(), seen + [q], d, rc)
    {
      ghost var t := Snap();
      ValidSizes(g, t);
      ghost var t0;
      rc, t0 := DeselectOneOf(up, q, d);
      hide Evolves, Valid, Advanced, DoneListed, BothWanted, Victim, Parts, NoneGaveWay, Contests;
      ContestedNext(g, s, t, Snap(), seen, q, d, rc);
      EvolvesTrans(s, t, Snap());
      DeselectionRecorded(g, t, t0, Snap(), up, q, d);
      if rc > 0 { AdvancedLater(s, t, Snap()); }
    }

    lemma DoneIs()
      ensures Snap().done == depsdone
    { }

    /** The providers of the conflicting set. */
    method TryRivals(up: nat, d: nat, links: seq<Link>, ghost s: State, ghost seen: seq<nat>) returns (rc: nat)
      requires Ok() && d < |g.deps| && up == g.deps[d].up && (forall i :: 0 <= i < |links| ==> g.LinkOk(links[i]))
      requires Evolves(s, Snap()) && Valid(g, s) && Tried(g, s, Snap(), up, d, seen) && NoneGaveWay(g, s, Snap(), seen, d)
      modifies this
      ensures Ok() && Evolves(s, Snap()) && (rc > 0 ==> Advanced(s, Snap())) && rc <= 2
      ensures d in depsdone || NoneWanted(g, s, up, seen + Others(up, Providers(g, links)))
      ensures var all := seen + Others(up, Providers(g, links));
        if rc == 0 then NoneGaveWay(g, s, Snap(), all, d) else Contests(g, s, Snap(), all, d, rc)
    {
      ValidSizes(g, s);
      assert g.WellFormed();
      hide *;
      SeenNone(g, up, links, seen);
      SeenAll(g, up, links, seen);
      DoneIs();
      TriedSo(g, s, Snap(), up, d, SeenBy(g, up, links, 0, seen));
      var i := 0;
      while i < |links|
        invariant Ok() && Evolves(s, Snap()) && 0 <= i <= |links|
        invariant SoFar(g, s, Snap(), up, d, SeenBy(g, up, links, i, seen))
      {
        rc := TryLink(up, d, links, i, s, seen);
        if rc > 0 {
          DoneIs();
          return;
        }
        i := i + 1;
      }
      TriedAll(g, s, Snap(), up, d, SeenBy(g, up, links, i, seen));
      DoneIs();
      return 0;
    }

    /** One of them. */
    method TryLink(up: nat, d: nat, links: seq<Link>, i: nat, ghost s: State, ghost seen: seq<nat>) returns (rc: nat)
      requires Ok() && d < |g.deps| && up == g.deps[d].up && (forall k :: 0 <= k < |links| ==> g.LinkOk(links[k])) && i < |links|
      requires |g.pkgs| == |s.own| == |s.parent| && Evolves(s, Snap()) && Valid(g, s)
      requires SoFar(g, s, Snap(), up, d, SeenBy(g, up, links, i, seen))
      modifies this
      ensures Ok() && Evolves(s, Snap()) && (rc > 0 ==> Advanced(s, Snap()) && d in depsdone) && rc <= 2
      ensures rc == 0 ==> SoFar(g, s, Snap(), up, d, SeenBy(g, up, links, i + 1, seen))
      ensures rc > 0 ==> Contests(g, s, Snap(), SeenBy(g, up, links, |links|, seen), d, rc)
    {
      assert g.WellFormed();
      hide *;
      var l := links[i];
      SeenNext(g, up, links, i, seen);
      if !g.deps[l.dep].kind.Provides? || g.deps[l.dep].up == up {
        return 0;
      }
      SoTried(g, s, Snap(), up, d, SeenBy(g, up, links, i, seen));
      rc := TryConflict(up, g.deps[l.dep].up, d, s, SeenBy(g, up, links, i, seen));
      if rc > 0 {
        SeenPrefix(g, up, links, i + 1, seen);
        ContestedMore(g, s, Snap(), SeenBy(g, up, links, i + 1, seen), SeenBy(g, up, links, |links|, seen), d, rc);
      } else {
        TriedSo(g, s, Snap(), up, d, SeenBy(g, up, links, i + 1, seen));
      }
    }

    /** `resolvedepcon`: every positive answer is backed by an advance. */
    method ResolveDepCon(d: nat) returns (rc: nat)
      requires Ok() && d < |g.deps|
      modifies this
      ensures Ok() && Evolves(old(Snap()), Snap()) && (rc > 0 ==> Advanced(old(Snap()), Snap())) && rc <= 2
      ensures rc == 0 && Snap() != old(Snap()) ==> d in old(depsdone) || Against(g.deps[d].kind)
      ensures Snap() == old(Snap()) ==> Attended(g, Snap(), d)
      ensures Resolves(g, old(Snap()), Snap(), d, rc, manualInstall)
    {
      hide *;
      ghost var s := Snap();
      Known();
      EvolvesRefl(s);
      if Client(Snap(), g.deps[d].up).None? {
        NothingToDo(g, s, d, manualInstall);
        return 0;
      }
      var kind := g.deps[d].kind;
      if kind.Provides? || kind.Replaces? {
        NothingToDo(g, s, d, manualInstall);
        rc := 0;
      } else if kind.Conflicts? || kind.Breaks? {
        rc := ResolveNegative(d);
        Known();
        NegativeDone(g, s, Snap(), d, rc, manualInstall);
      } else {
        rc := ResolvePositive(d);
        Known();
        PositiveDone(g, s, Snap(), d, rc, manualInstall);
      }
    }

    /** Resolves the listed dependencies that are in force, noting whether anything changed. */
    method ResolveEach(ds: seq<nat>, changemade0: nat) returns (changemade: nat)
      requires Ok() && (forall i :: 0 <= i < |ds| ==> ds[i] < |g.deps|) && changemade0 <= 2
      modifies this
      ensures Ok() && Evolves(old(Snap()), Snap())
      ensures changemade0 <= changemade <= 2 && (changemade != changemade0 ==> Advanced(old(Snap()), Snap()))
      ensures Snap() == old(Snap()) ==> AllAttended(g, Snap(), ds)
      ensures ResolvesEach(g, old(Snap()), Snap(), ds, changemade0, changemade, manualInstall)
    {
      hide *;
      ghost var s := Snap();
      Known();
      EachStart(g, s, ds, changemade0, manualInstall);
      changemade := changemade0;
      var i := 0;
      while i < |ds|
        invariant 0 <= i <= |ds| && Ok() && EachSoFar(g, s, Snap(), ds, i, changemade0, changemade, manualInstall)
      {
        ghost var t := Snap();
        var rc := ResolveDepCon(ds[i]);
        Known();
        EachStep(g, s, t, Snap(), ds, i, changemade0, changemade, rc, manualInstall);
        changemade := if rc > changemade then rc else changemade;
        i := i + 1;
      }
      EachEnd(g, s, Snap(), ds, changemade0, changemade, manualInstall);
    }

    /** One loop of `checkdependers`: those who depend on the set through the available, or the installed, packages. */
    method CheckLinks(links: seq<Link>, available: bool, changemade0: nat) returns (changemade: nat)
      requires Ok() && (forall i :: 0 <= i < |links| ==> g.LinkOk(links[i])) && changemade0 <= 2
      modifies this
      ensures Ok() && Evolves(old(Snap()), Snap())
      ensures changemade0 <= changemade <= 2 && (changemade != changemade0 ==> Advanced(old(Snap()), Snap()))
      ensures Snap() == old(Snap()) ==> LinksAttended(g, Snap(), links, available)
      ensures ResolvesLinks(g, old(Snap()), Snap(), links, available, changemade0, changemade, manualInstall)
    {
      hide *;
      ghost var s := Snap();
      Known();
      LinksStart(g, s, links, available, changemade0, manualInstall);
      changemade := changemade0;
      var i := 0;
      while i < |links|
        invariant 0 <= i <= |links| && Ok() && LinksSoFar(g, s, Snap(), links, available, i, changemade0, changemade, manualInstall)
      {
        ghost var t := Snap();
        var rc := CheckLink(links[i], available);
        Known();
        LinksStep(g, s, t, Snap(), links, available, i, changemade0, changemade, rc, manualInstall);
        changemade := if rc > changemade then rc else changemade;
        i := i + 1;
      }
      LinksEnd(g, s, Snap(), links, available, changemade0, changemade, manualInstall);
    }

    /** One of them. */
    method CheckLink(l: Link, available: bool) returns (rc: nat)
      requires Ok() && g.LinkOk(l)
      modifies this
      ensures Ok() && Evolves(old(Snap()), Snap()) && (rc > 0 ==> Advanced(old(Snap()), Snap())) && rc <= 2
      ensures Snap() == old(Snap()) ==> UseAvailable(g, Snap(), g.deps[l.dep].up) == available ==> Attended(g, Snap(), l.dep)
      ensures LinkStep(g, old(Snap()), Snap(), l, available, rc, manualInstall)
    {
      ghost var s := Snap();
      ValidSizes(g, s);
      EvolvesRefl(s);
      hide Evolves, Valid, Advanced, DoneListed, Against, UseAvailable, Attended, Resolves;
      rc := 0;
      if UseAvailable(g, Snap(), g.deps[l.dep].up) == available {
        rc := ResolveDepCon(l.dep);
      }
    }

    /** `checkdependers`. */
    method CheckDependers(set_: nat, changemade0: nat) returns (changemade: nat)
      requires Ok() && set_ < |g.sets| && changemade0 <= 2
      modifies this
      ensures Ok() && Evolves(old(Snap()), Snap())
      ensures changemade0 <= changemade <= 2 && (changemade != changemade0 ==> Advanced(old(Snap()), Snap()))
      ensures Snap() == old(Snap()) ==> DependersAttended(g, Snap(), set_)
      ensures ResolvesDependers(g, old(Snap()), Snap(), set_, changemade0, changemade, manualInstall)
    {
      ghost var s := Snap();
      ValidSizes(g, s);
      hide Evolves, Valid, Advanced, DoneListed, LinksAttended, ResolvesLinks;
      changemade := CheckLinks(g.sets[set_].dependedAvailable, true, changemade0);
      ghost var t := Snap();
      changemade := CheckLinks(g.sets[set_].dependedInstalled, false, changemade);
      if Snap() == s { Still(s, t, Snap()); }
      EvolvesTrans(s, t, Snap());
    }

    /** The dependers of the sets this package provides. */
    method CheckProvided(ds: seq<nat>, changemade0: nat) returns (changemade: nat)
      requires Ok() && (forall i :: 0 <= i < |ds| ==> ds[i] < |g.deps|) && changemade0 <= 2
      modifies this
      ensures Ok() && Evolves(old(Snap()), Snap())
      ensures changemade0 <= changemade <= 2 && (changemade != changemade0 ==> Advanced(old(Snap()), Snap()))
      ensures Snap() == old(Snap()) ==> ProvidedAttended(g, Snap(), ds)
      ensures ResolvesProvided(g, old(Snap()), Snap(), ds, changemade0, changemade, manualInstall)
    {
      hide *;
      ghost var s := Snap();
      Known();
      ProvidedStart(g, s, ds, changemade0, manualInstall);
      changemade := changemade0;
      var i := 0;
      while i < |ds|
        invariant 0 <= i <= |ds| && Ok() && ProvidedSoFar(g, s, Snap(), ds, i, changemade0, changemade, manualInstall)
      {
        ghost var t, b := Snap(), changemade;
        Known();
        EvolvesRefl(t);
        ProvidedCounts(g, s, t, ds, i, changemade0, b, manualInstall);
        if g.deps[ds[i]].kind.Provides? {
          ProvidedExists(g, ds[i]);
          changemade := CheckDependers(ProvidedSet(g, ds[i]), changemade);
          Known();
        }
        ProvidedIs(g, t, Snap(), ds[i], b, changemade, manualInstall);
        ProvidedNext(g, s, t, Snap(), ds, i, changemade0, b, changemade, manualInstall);
        i := i + 1;
      }
      ProvidedEnd(g, s, Snap(), ds, changemade0, changemade, manualInstall);
    }

    /** What one pass does at one package of the list. */
    method Visit(p: nat, changemade0: nat) returns (changemade: nat)
      requires Ok() && p < |g.pkgs| && changemade0 <= 2
      modifies this
      ensures Ok() && Evolves(old(Snap()), Snap())
      ensures changemade0 <= changemade <= 2 && (changemade != changemade0 ==> Advanced(old(Snap()), Snap()))
      ensures Snap() == old(Snap()) ==> Visited(g, Snap(), p)
      ensures ResolvesPackage(g, old(Snap()), Snap(), p, changemade0, changemade, manualInstall)
    {
      ghost var s := Snap();
      hide Evolves, Advanced, DoneListed, UseAvailable, AllAttended, DependersAttended, ProvidedAttended,
           ResolvesEach, ResolvesDependers, ResolvesProvided;
      changemade := ResolveEach(DepsOf(g, Snap(), p), changemade0);
      ghost var t, b := Snap(), changemade;
      changemade := CheckDependers(g.pkgs[p].set_, changemade);
      ghost var u, b' := Snap(), changemade;
      EvolvesTrans(s, t, u);
      changemade := CheckProvided(DepsOf(g, Snap(), p), changemade);
      EvolvesTrans(s, u, Snap());
      assert PackageVia(g, s, t, u, Snap(), p, changemade0, b, b', changemade, manualInstall);
      if Snap() == s {
        Still(s, u, Snap());
        Still(s, t, u);
      }
    }

    /** One pass over the list, which may grow while it is gone through. */
    method Pass() returns (changemade: nat)
      requires Ok()
      modifies this
      ensures Ok() && Evolves(old(Snap()), Snap())
      ensures changemade <= 2 && (changemade > 0 ==> Advanced(old(Snap()), Snap()))
      ensures Snap() == old(Snap()) ==> Settled(g, Snap())
      ensures PassMade(g, old(Snap()), Snap(), changemade, manualInstall)
    {
      hide *;
      ghost var s := Snap();
      Known();
      TableFits(g, s);
      PassStart(g, s, manualInstall);
      changemade := 0;
      var index := 0;
      while index < |table|
        invariant 0 <= index <= |table| <= |g.pkgs| && Ok()
        invariant g.WellFormed() && PassSoFar(g, s, Snap(), index, changemade, manualInstall)
        decreases |g.pkgs| - index
      {
        ghost var t, b := Snap(), changemade;
        Known();
        TableMember(g, t, index);
        PassGrows(g, s, t, index, b, manualInstall);
        changemade := Visit(table[index], changemade);
        Known();
        PassNext(g, s, t, Snap(), index, b, changemade, manualInstall);
        PassGrows(g, s, Snap(), index + 1, changemade, manualInstall);
        TableFits(g, Snap());
        index := index + 1;
      }
      Known();
      PassEnd(g, s, Snap(), changemade, manualInstall);
    }

    lemma Known()
      requires Ok()
      ensures g.WellFormed() && Valid(g, Snap()) && |g.pkgs| == |own| == |parent|
      ensures Snap().table == table && Snap().own == own && Snap().parent == parent && Snap().done == depsdone
    { }

    /**
     `resolvesuggest`.  It stops on every graph; the number of passes is bounded
     by the dependencies and packages there are; and a listed package's selection
     has changed only if its priority has strictly risen.  `passes` is the states
     the passes began with, and `made` what they answered: all but the last something,
     and made an advance; the last one nothing.  If the run changed nothing, then
     every dependency of a listed package, of its dependers and of the dependers of
     what it provides is attended to.
     */
    method ResolveSuggest() returns (maxchangemade: nat, ghost passes: seq<State>, ghost made: seq<nat>)
      requires Ok()
      modifies this
      ensures Ok() && Evolves(old(Snap()), Snap())
      ensures 1 <= |passes| <= 1 + Measure(g, old(Snap())) <= 1 + |g.deps| + 2 * SP_DESELECTING * |g.pkgs|
      ensures passes[0] == old(Snap()) && Advancing(passes) && Evolves(passes[|passes| - 1], Snap())
      ensures RunMade(g, passes, made, Snap(), manualInstall) && maxchangemade == Largest(made)
      ensures maxchangemade <= 2 && (maxchangemade > 0 ==> Advanced(old(Snap()), Snap()))
      ensures Snap() == old(Snap()) ==> Settled(g, Snap())
      ensures forall p :: 0 <= p < |g.pkgs| && old(own)[p].Some? ==>
        own[p].Some? && Rises(old(own)[p].value, own[p].value)
    {
      ghost var s := Snap();
      EvolvesRefl(s);
      maxchangemade, passes, made := 0, [s], [];
      hide Evolves, Valid, Advanced, DoneListed, Measure, Settled, Underway, Advancing, MadeSoFar, PassMade, Largest;
      var changemade: nat := Pass();
      FirstPass(g, s, Snap(), changemade);
      MadeFirst(g, s, Snap(), changemade, manualInstall);
      while changemade > 0
        invariant Ok() && Underway(g, s, passes, Snap(), changemade, maxchangemade)
        invariant MadeSoFar(g, passes, made, Snap(), changemade, manualInstall) && maxchangemade == Largest(made)
        decreases Measure(g, Snap()), changemade
      {
        ghost var t, c, m := Snap(), changemade, maxchangemade;
        maxchangemade := if changemade > maxchangemade then changemade else maxchangemade;
        changemade := Pass();
        NextPass(g, s, passes, t, c, m, Snap(), changemade);
        MadeNext(g, passes, made, t, c, Snap(), changemade, manualInstall);
        passes, made := passes + [t], made + [c];
      }
      Passed(g, s, passes, Snap(), changemade, maxchangemade);
      AllRise(s, Snap());
    }
  }

  /** What is known of a run of passes that began with `s` and has come to `t`. */
  ghost predicate Underway(g: Graph, s: State, passes: seq<State>, t: State, changemade: nat, maxchangemade: nat)
    requires g.WellFormed()
  {
    && Valid(g, s) && Evolves(s, t)
    && passes != [] && passes[0] == s && Advancing(passes) && Evolves(passes[|passes| - 1], t)
    && (changemade > 0 ==> Advanced(passes[|passes| - 1], t))
    && (t == s ==> Settled(g, s))
    && changemade <= 2 && maxchangemade <= 2
    && (changemade > 0 || maxchangemade > 0 ==> Advanced(s, t))
    && 0 <= Measure(g, t) && |passes| + Measure(g, t) <= Measure(g, s) + if changemade > 0 then 0 else 1
  }

  lemma FirstPass(g: Graph, s: State, t: State, changemade: nat)
    requires g.WellFormed() && Valid(g, s) && Valid(g, t) && Evolves(s, t) && changemade <= 2
    requires (changemade > 0 ==> Advanced(s, t)) && (t == s ==> Settled(g, s))
    ensures Underway(g, s, [s], t, changemade, 0)
  {
    hide Evolves, Valid, Advanced, Settled, Measure;
    MeasureFalls(g, s, t);
  }

  lemma NextPass(g: Graph, s: State, passes: seq<State>, t: State, c: nat, m: nat, u: State, changemade: nat)
    requires g.WellFormed() && Underway(g, s, passes, t, c, m) && c > 0
    requires Valid(g, t) && Valid(g, u) && Evolves(t, u) && changemade <= 2
    requires changemade > 0 ==> Advanced(t, u)
    ensures Underway(g, s, passes + [t], u, changemade, if c > m then c else m)
    ensures Measure(g, u) <= Measure(g, t) && (changemade > 0 ==> Measure(g, u) < Measure(g, t))
  {
    hide Evolves, Valid, Advanced, Settled, Measure;
    EvolvesTrans(s, t, u);
    MeasureFalls(g, t, u);
    if u == s { Still(s, t, u); }
    forall i | 0 <= i < |passes|
      ensures Evolves((passes + [t])[i], (passes + [t])[i + 1]) && Advanced((passes + [t])[i], (passes + [t])[i + 1])
    { }
  }

  /** What a finished run may be told to have done. */
  lemma Passed(g: Graph, s: State, passes: seq<State>, t: State, changemade: nat, maxchangemade: nat)
    requires g.WellFormed() && Underway(g, s, passes, t, changemade, maxchangemade) && changemade == 0
    ensures Evolves(s, t) && 1 <= |passes| <= 1 + Measure(g, s) <= 1 + |g.deps| + 2 * SP_DESELECTING * |g.pkgs|
    ensures passes[0] == s && Advancing(passes) && Evolves(passes[|passes| - 1], t)
    ensures maxchangemade <= 2 && (maxchangemade > 0 ==> Advanced(s, t)) && (t == s ==> Settled(g, s))
  {
    EvolvesRefl(s);
    hide Evolves, Valid, Advanced, Settled, Measure;
    MeasureFalls(g, s, s);
  }

  lemma AllRise(s: State, t: State)
    requires Evolves(s, t)
    ensures |s.own| == |t.own|
    ensures forall p :: 0 <= p < |s.own| && s.own[p].Some? ==> t.own[p].Some? && Rises(s.own[p].value, t.own[p].value)
  { }

  lemma TableGrows(s: State, t: State)
    requires Evolves(s, t)
    ensures |s.table| <= |t.table|
  { }

  lemma TableMember(g: Graph, s: State, i: nat)
    requires Valid(g, s) && i < |s.table|
    ensures s.table[i] < |g.pkgs|
  {
    assert s.table[i] in s.table;
  }

  lemma {:induction false} DistinctBound(xs: seq<nat>, n: nat)
    requires Distinct(xs) && forall i :: 0 <= i < |xs| ==> xs[i] < n
    ensures |xs| <= n
  {
    var s := set i | 0 <= i < |xs| :: xs[i];
    DistinctSize(xs);
    DoneBound(s, n);
  }

  lemma {:induction false} DistinctSize(xs: seq<nat>)
    requires Distinct(xs)
    ensures |set i | 0 <= i < |xs| :: xs[i]| == |xs|
    decreases |xs|
  {
    if xs != [] {
      var n := |xs| - 1;
      var a := set i | 0 <= i < n :: xs[..n][i];
      DistinctSize(xs[..n]);
      assert a == set i | 0 <= i < |xs[..n]| :: xs[..n][i];
      assert (set i | 0 <= i < |xs| :: xs[i]) == a + {xs[n]} by {
        forall x | x in (set i | 0 <= i < |xs| :: xs[i]) ensures x in a + {xs[n]} {
          var i :| 0 <= i < |xs| && xs[i] == x;
          if i < n { assert xs[..n][i] == x; }
        }
        forall x | x in a ensures x in (set i | 0 <= i < |xs| :: xs[i]) {
          var i :| 0 <= i < n && xs[..n][i] == x;
          assert xs[i] == x;
        }
      }
      assert xs[n] !in a;
    }
  }

  /** The list never outgrows the table allocated for all packages. */
  lemma TableFits(g: Graph, s: State)
    requires Valid(g, s)
    ensures |s.table| <= |g.pkgs|
  {
    forall i | 0 <= i < |s.table| ensures s.table[i] < |g.pkgs| { TableMember(g, s, i); }
    DistinctBound(s.table, |g.pkgs|);
  }

  // ---- the cases of `resolvedepcon` ----

  lemma NothingToDo(g: Graph, s: State, d: nat, manual: bool)
    requires g.WellFormed() && |g.pkgs| == |s.own| == |s.parent| && d < |g.deps|
    requires Client(s, g.deps[d].up).None? || g.deps[d].kind.Provides? || g.deps[d].kind.Replaces?
    ensures Resolves(g, s, s, d, 0, manual) && Attended(g, s, d)
  {
    hide Satisfied, Contests, Acts, Client;
  }

  lemma NegativeDone(g: Graph, s: State, u: State, d: nat, rc: nat, manual: bool)
    requires g.WellFormed() && |g.pkgs| == |s.own| == |s.parent| && d < |g.deps| && Client(s, g.deps[d].up).Some?
    requires |g.pkgs| == |u.own| == |u.parent| && (g.deps[d].kind.Conflicts? || g.deps[d].kind.Breaks?)
    requires if Violated(g, s, d) then Contests(g, s, u, Rivals(g, d), d, rc) else u == s && rc == 0
    requires
      || d in u.done || Would(Selected(s, g.deps[d].up), g.pkgs[g.deps[d].up].status) == 0
      || !Satisfied(g, s, Link(d, 0))
      || forall q: nat :: q < |g.pkgs| && Rival(g, d, q) ==> !BothWanted(g, s, g.deps[d].up, q)
    ensures Resolves(g, s, u, d, rc, manual) && (u == s ==> Attended(g, u, d)) && Against(g.deps[d].kind)
  {
    hide Satisfied, Contests, Rivals, Rival, BothWanted, Would, Client, Selected;
  }

  lemma PositiveDone(g: Graph, s: State, u: State, d: nat, rc: nat, manual: bool)
    requires g.WellFormed() && |g.pkgs| == |s.own| == |s.parent| && d < |g.deps| && Client(s, g.deps[d].up).Some?
    requires |g.pkgs| == |u.own| == |u.parent| && !g.deps[d].kind.Conflicts? && !g.deps[d].kind.Breaks?
    requires !g.deps[d].kind.Provides? && !g.deps[d].kind.Replaces?
    requires if Asks(g, s, d) then Acts(g, s, u, d, rc, manual) && d in u.done else u == s && rc == 0
    ensures Resolves(g, s, u, d, rc, manual) && (u == s ==> Attended(g, u, d))
  {
    AsksIff(g, s, d);
    hide Satisfied, Acts, Would, Client, Selected, Asks;
  }

  lemma AsksIff(g: Graph, s: State, d: nat)
    requires g.WellFormed() && |g.pkgs| == |s.own| == |s.parent| && d < |g.deps| && Client(s, g.deps[d].up).Some?
    ensures Asks(g, s, d) <==>
      && Would(Selected(s, g.deps[d].up), g.pkgs[g.deps[d].up].status) > 0
      && !exists i :: 0 <= i < |g.deps[d].list| && Satisfied(g, s, Link(d, i))
  {
    hide Satisfied, Would;
  }

  // ---- what the loops know so far ----

  ghost predicate Counts(s: State, t: State, c0: nat, c: nat) { c0 <= c <= 2 && (c != c0 ==> Advanced(s, t)) }

  lemma CountsNext(s: State, t: State, u: State, c0: nat, c: nat, rc: nat)
    requires Evolves(s, t) && Evolves(t, u) && Counts(s, t, c0, c) && rc <= 2 && (rc > 0 ==> Advanced(t, u))
    ensures Counts(s, u, c0, Larger(c, rc)) && Evolves(s, u)
  {
    EvolvesTrans(s, t, u);
    hide Evolves, Advanced;
  }

  ghost predicate EachSoFar(g: Graph, s: State, t: State, ds: seq<nat>, i: nat, c0: nat, c: nat, manual: bool)
    requires g.WellFormed() && |g.pkgs| == |s.own| == |s.parent| && (forall k :: 0 <= k < |ds| ==> ds[k] < |g.deps|) && i <= |ds|
  {
    && Evolves(s, t) && Counts(s, t, c0, c) && ResolvesEach(g, s, t, ds[..i], c0, c, manual)
    && (t == s ==> forall k :: 0 <= k < i ==> Attended(g, s, ds[k]))
  }

  lemma EachStart(g: Graph, s: State, ds: seq<nat>, c: nat, manual: bool)
    requires g.WellFormed() && |g.pkgs| == |s.own| == |s.parent| && (forall k :: 0 <= k < |ds| ==> ds[k] < |g.deps|) && c <= 2
    ensures EachSoFar(g, s, s, ds, 0, c, c, manual)
  {
    EvolvesRefl(s);
    EachNone(g, s, c, manual);
    assert ds[..0] == [];
  }

  lemma EachStep(g: Graph, s: State, t: State, u: State, ds: seq<nat>, i: nat, c0: nat, c: nat, rc: nat, manual: bool)
    requires g.WellFormed() && |g.pkgs| == |s.own| == |s.parent| && (forall k :: 0 <= k < |ds| ==> ds[k] < |g.deps|) && i < |ds|
    requires EachSoFar(g, s, t, ds, i, c0, c, manual) && Resolves(g, t, u, ds[i], rc, manual)
    requires Evolves(t, u) && rc <= 2 && (rc > 0 ==> Advanced(t, u)) && |g.pkgs| == |u.own| == |u.parent|
    requires u == t ==> Attended(g, u, ds[i])
    ensures EachSoFar(g, s, u, ds, i + 1, c0, if rc > c then rc else c, manual)
  {
    hide Evolves, Advanced, Attended, Resolves, ResolvesEach, Counts;
    CountsNext(s, t, u, c0, c, rc);
    EachSnoc(g, s, t, u, ds, i, c0, c, rc, manual);
    if u == s { Still(s, t, u); }
  }

  lemma EachEnd(g: Graph, s: State, t: State, ds: seq<nat>, c0: nat, c: nat, manual: bool)
    requires g.WellFormed() && |g.pkgs| == |s.own| == |s.parent| && (forall k :: 0 <= k < |ds| ==> ds[k] < |g.deps|)
    requires EachSoFar(g, s, t, ds, |ds|, c0, c, manual)
    ensures Evolves(s, t) && c0 <= c <= 2 && (c != c0 ==> Advanced(s, t)) && (t == s ==> AllAttended(g, s, ds))
    ensures ResolvesEach(g, s, t, ds, c0, c, manual)
  {
    hide Evolves, Advanced, Attended, ResolvesEach;
    assert ds[..|ds|] == ds;
  }

  ghost predicate LinksSoFar(g: Graph, s: State, t: State, links: seq<Link>, available: bool, i: nat, c0: nat, c: nat, manual: bool)
    requires g.WellFormed() && |g.pkgs| == |s.own| == |s.parent| && (forall k :: 0 <= k < |links| ==> g.LinkOk(links[k])) && i <= |links|
  {
    && Evolves(s, t) && Counts(s, t, c0, c) && ResolvesLinks(g, s, t, links[..i], available, c0, c, manual)
    && (t == s ==> LinksAttended(g, s, links[..i], available))
  }

  lemma LinksStart(g: Graph, s: State, links: seq<Link>, available: bool, c: nat, manual: bool)
    requires g.WellFormed() && |g.pkgs| == |s.own| == |s.parent| && (forall k :: 0 <= k < |links| ==> g.LinkOk(links[k])) && c <= 2
    ensures LinksSoFar(g, s, s, links, available, 0, c, c, manual)
  {
    EvolvesRefl(s);
    EachNone(g, s, c, manual);
    LinksNone(g, s, available);
    hide Evolves;
    assert links[..0] == [];
  }

  lemma LinksStep(g: Graph, s: State, t: State, u: State, links: seq<Link>, available: bool, i: nat, c0: nat, c: nat, rc: nat, manual: bool)
    requires g.WellFormed() && |g.pkgs| == |s.own| == |s.parent| && (forall k :: 0 <= k < |links| ==> g.LinkOk(links[k])) && i < |links|
    requires g.LinkOk(links[i]) && LinksSoFar(g, s, t, links, available, i, c0, c, manual)
    requires LinkStep(g, t, u, links[i], available, rc, manual) && |g.pkgs| == |u.own| == |u.parent|
    requires Evolves(t, u) && rc <= 2 && (rc > 0 ==> Advanced(t, u))
    requires u == t ==> UseAvailable(g, u, g.deps[links[i].dep].up) == available ==> Attended(g, u, links[i].dep)
    ensures LinksSoFar(g, s, u, links, available, i + 1, c0, if rc > c then rc else c, manual)
  {
    hide Evolves, Advanced, Attended, LinkStep, ResolvesLinks, Counts, LinksAttended, UseAvailable;
    CountsNext(s, t, u, c0, c, rc);
    LinksSnocs(g, s, t, u, links, i, available, c0, c, rc, manual);
    if u == s {
      Still(s, t, u);
      LinksSnoc(g, s, links, available, i);
    }
  }

  lemma LinksEnd(g: Graph, s: State, t: State, links: seq<Link>, available: bool, c0: nat, c: nat, manual: bool)
    requires g.WellFormed() && |g.pkgs| == |s.own| == |s.parent| && (forall k :: 0 <= k < |links| ==> g.LinkOk(links[k]))
    requires LinksSoFar(g, s, t, links, available, |links|, c0, c, manual)
    ensures Evolves(s, t) && c0 <= c <= 2 && (c != c0 ==> Advanced(s, t)) && (t == s ==> LinksAttended(g, s, links, available))
    ensures ResolvesLinks(g, s, t, links, available, c0, c, manual)
  {
    hide Evolves, Advanced, LinksAttended, ResolvesLinks;
    assert links[..|links|] == links;
  }

  ghost predicate ProvidedSoFar(g: Graph, s: State, t: State, ds: seq<nat>, i: nat, c0: nat, c: nat, manual: bool)
    requires g.WellFormed() && |g.pkgs| == |s.own| == |s.parent| && (forall k :: 0 <= k < |ds| ==> ds[k] < |g.deps|) && i <= |ds|
  {
    && Evolves(s, t) && Counts(s, t, c0, c) && ResolvesProvided(g, s, t, ds[..i], c0, c, manual)
    && (t == s ==> ProvidedAttended(g, s, ds[..i]))
  }

  lemma ProvidedStart(g: Graph, s: State, ds: seq<nat>, c: nat, manual: bool)
    requires g.WellFormed() && |g.pkgs| == |s.own| == |s.parent| && (forall k :: 0 <= k < |ds| ==> ds[k] < |g.deps|) && c <= 2
    ensures ProvidedSoFar(g, s, s, ds, 0, c, c, manual)
  {
    EvolvesRefl(s);
    EachNone(g, s, c, manual);
    ProvidedNone(g, s);
    hide Evolves;
    assert ds[..0] == [];
  }

  lemma ProvidedCounts(g: Graph, s: State, t: State, ds: seq<nat>, i: nat, c0: nat, c: nat, manual: bool)
    requires g.WellFormed() && |g.pkgs| == |s.own| == |s.parent| && (forall k :: 0 <= k < |ds| ==> ds[k] < |g.deps|) && i <= |ds|
    requires ProvidedSoFar(g, s, t, ds, i, c0, c, manual)
    ensures c <= 2
  { }

  lemma ProvidedIs(g: Graph, t: State, u: State, d: nat, b: nat, c: nat, manual: bool)
    requires g.WellFormed() && d < |g.deps|
    requires if g.deps[d].kind.Provides? then ResolvesDependers(g, t, u, ProvidedSet(g, d), b, c, manual) else u == t && c == b
    ensures ProvidedStep(g, t, u, d, b, c, manual)
  {
    hide ResolvesDependers;
  }

  lemma ProvidedNext(g: Graph, s: State, t: State, u: State, ds: seq<nat>, i: nat, c0: nat, b: nat, c: nat, manual: bool)
    requires g.WellFormed() && |g.pkgs| == |s.own| == |s.parent| && (forall k :: 0 <= k < |ds| ==> ds[k] < |g.deps|) && i < |ds|
    requires ProvidedSoFar(g, s, t, ds, i, c0, b, manual) && ProvidedStep(g, t, u, ds[i], b, c, manual)
    requires Evolves(t, u) && b <= c <= 2 && (c != b ==> Advanced(t, u)) && |g.pkgs| == |u.own| == |u.parent|
    requires u == t && g.deps[ds[i]].kind.Provides? ==> DependersAttended(g, u, ProvidedSet(g, ds[i]))
    ensures ProvidedSoFar(g, s, u, ds, i + 1, c0, c, manual)
  {
    EvolvesTrans(s, t, u);
    hide Evolves, Advanced, DependersAttended, ProvidedAttended, ProvidedSet, ProvidedStep, ResolvesProvided;
    ProvidedSnocs(g, s, t, u, ds, i, c0, b, c, manual);
    if u == s {
      Still(s, t, u);
      ProvidedSnoc(g, s, ds, i);
    }
  }

  lemma ProvidedEnd(g: Graph, s: State, t: State, ds: seq<nat>, c0: nat, c: nat, manual: bool)
    requires g.WellFormed() && |g.pkgs| == |s.own| == |s.parent| && (forall k :: 0 <= k < |ds| ==> ds[k] < |g.deps|)
    requires ProvidedSoFar(g, s, t, ds, |ds|, c0, c, manual)
    ensures Evolves(s, t) && c0 <= c <= 2 && (c != c0 ==> Advanced(s, t)) && (t == s ==> ProvidedAttended(g, s, ds))
    ensures ResolvesProvided(g, s, t, ds, c0, c, manual)
  {
    hide Evolves, Advanced, ProvidedAttended, ResolvesProvided;
    assert ds[..|ds|] == ds;
  }

  ghost predicate PassSoFar(g: Graph, s: State, t: State, n: nat, c: nat, manual: bool)
    requires g.WellFormed()
  {
    Evolves(s, t) && Counts(s, t, 0, c) && ResolvesFirst(g, s, t, n, c, manual) && n <= |t.table| && (t == s ==> SettledTo(g, s, n))
  }

  lemma PassStart(g: Graph, s: State, manual: bool)
    requires g.WellFormed() && |g.pkgs| == |s.own| == |s.parent|
    ensures PassSoFar(g, s, s, 0, 0, manual)
  {
    EvolvesRefl(s);
    SettledNone(g, s);
    FirstNone(g, s, manual);
  }

  lemma PassNext(g: Graph, s: State, t: State, u: State, n: nat, b: nat, c: nat, manual: bool)
    requires g.WellFormed() && PassSoFar(g, s, t, n, b, manual) && n < |t.table| && t.table[n] < |g.pkgs|
    requires Evolves(t, u) && b <= c <= 2 && (c != b ==> Advanced(t, u)) && |g.pkgs| == |u.own| == |u.parent|
    requires ResolvesPackage(g, t, u, t.table[n], b, c, manual) && (u == t ==> Visited(g, u, t.table[n]))
    ensures PassSoFar(g, s, u, n + 1, c, manual)
  {
    TableGrows(t, u);
    EvolvesTrans(s, t, u);
    hide Evolves, Advanced, Visited, ResolvesPackage, ResolvesFirst, SettledTo;
    FirstSnoc(g, s, t, u, n, b, c, manual);
    if u == s {
      Still(s, t, u);
      SettledNext(g, s, n);
    }
  }

  lemma PassGrows(g: Graph, s: State, t: State, n: nat, c: nat, manual: bool)
    requires g.WellFormed() && PassSoFar(g, s, t, n, c, manual)
    ensures n <= |t.table| && c <= 2
  { }

  lemma PassEnd(g: Graph, s: State, t: State, c: nat, manual: bool)
    requires g.WellFormed() && PassSoFar(g, s, t, |t.table|, c, manual)
    ensures Evolves(s, t) && c <= 2 && (c > 0 ==> Advanced(s, t)) && (t == s ==> Settled(g, t)) && PassMade(g, s, t, c, manual)
  {
    hide Evolves, Advanced, SettledTo, ResolvesFirst;
  }

  lemma FirstNone(g: Graph, s: State, manual: bool)
    requires g.WellFormed()
    ensures ResolvesFirst(g, s, s, 0, 0, manual)
  { }

  lemma OnlyShown(g: Graph, s: State, t: State, d: nat, rc: nat, manual: bool)
    requires g.WellFormed() && |g.pkgs| == |s.own| == |s.parent| && d < |g.deps| && Recording(g, s, t, d, Importance(g.deps[d].kind))
    requires (g.deps[d].kind.Enhances? || g.deps[d].kind.Suggests?) && rc == if d !in s.done then 1 else 0
    ensures Acts(g, s, t, d, rc, manual)
  {
    hide Recording;
    assert ActsVia(g, s, t, t, d, rc, None, manual);
  }

  lemma RepairActs(g: Graph, s: State, t: State, u: State, d: nat, rc: nat, best: Option<Ref>, manual: bool)
    requires g.WellFormed() && |g.pkgs| == |s.own| == |s.parent| && d < |g.deps| && Recording(g, s, t, d, Importance(g.deps[d].kind))
    requires !g.deps[d].kind.Enhances? && !g.deps[d].kind.Suggests? && rc <= 2 && (rc > 0 <==> d !in s.done)
    requires InRange(g, t, Candidates(g, g.deps[d].list)) && t.own[g.deps[d].up].Some?
    requires var fix := UpgradeAmong(g, s, d, |g.deps[d].list|);
      if MustDeselect(g, t, d, fix) then
        && Dropped(g, t, u, d)
        && (rc == 2 <==> d !in s.done && t.own[g.deps[d].up].value.spriority < SP_DESELECTING)
      else
        && Chosen(g, t, d, fix, best) && Taken(g, t, u, d, best, manual)
        && (rc == 2 <==> d !in s.done && best.Some? && At(t, best.value).spriority < SP_SELECTING)
    ensures Acts(g, s, u, d, rc, manual)
  {
    hide Recording, UpgradeAmong, Dropped, Chosen, Taken, Candidates, MustDeselect;
    assert ActsVia(g, s, t, u, d, rc, best, manual);
  }

  lemma PositiveReady(g: Graph, s: State, t: State, up: nat, fix: Option<Ref>)
    requires Valid(g, s) && Valid(g, t) && Evolves(s, t) && up < |g.pkgs| && Client(s, up).Some?
    requires fix.Some? ==> RefOk(s, fix.value)
    ensures up < |t.parent| && t.parent[up].Some? && (fix.Some? ==> RefOk(t, fix.value))
  { }

  lemma UpgradableNone(g: Graph, s: State, l: Link, links: seq<Link>)
    requires g.WellFormed() && |g.pkgs| == |s.own| == |s.parent| && g.LinkOk(l)
    requires forall i :: 0 <= i < |links| ==> g.LinkOk(links[i])
    ensures FirstUpgradable(g, s, l, links[..0]) == None
  { }

  lemma UpgradableSnoc(g: Graph, s: State, l: Link, links: seq<Link>, i: nat)
    requires g.WellFormed() && |g.pkgs| == |s.own| == |s.parent| && g.LinkOk(l) && i < |links|
    requires forall k :: 0 <= k < |links| ==> g.LinkOk(links[k])
    ensures FirstUpgradable(g, s, l, links[..i + 1]) ==
      var r := FirstUpgradable(g, s, l, links[..i]);
      if r.Some? then r else if Upgradable(g, s, l, links[i]) then Client(s, g.deps[links[i].dep].up) else None
  {
    hide Upgradable;
    assert links[..i + 1][..i] == links[..i];
  }

  lemma WithProvider(g: Graph, s: State, l: Link)
    requires g.WellFormed() && |g.pkgs| == |s.own| == |s.parent| && g.LinkOk(l)
    ensures forall via, b :: g.LinkOk(via) && ProviderSatisfies(g, s, l, via, b) ==>
      g.deps[via.dep].up < |g.pkgs| && Client(s, g.deps[via.dep].up).Some?
  { }

  /** Being shown as more important changes nothing else. */
  lemma Raised(g: Graph, t: State, p: nat, importance: nat)
    requires Valid(g, t) && p < |t.own| && t.own[p].Some? && t.own[p].value.dpriority < importance
    ensures var u := t.(own := t.own[p := Some(t.own[p].value.(dpriority := importance))]); Evolves(t, u) && Valid(g, u)
  { }

  lemma NoProviding(g: Graph, links: seq<Link>)
    requires forall k :: 0 <= k < |links| ==> g.LinkOk(links[k])
    ensures Providing(g, links[..0]) == {}
  { }

  lemma NoAlong(g: Graph, d: nat)
    requires g.WellFormed() && d < |g.deps|
    ensures Along(g, d, 0) == {} && {g.deps[d].up} + Alternatives(g, d, 0) == {g.deps[d].up}
  { }

  lemma ClientStays(g: Graph, s: State, t: State, p: nat)
    requires Valid(g, s) && Valid(g, t) && Evolves(s, t) && p < |g.pkgs| && Client(s, p).Some?
    ensures p < |t.own| == |t.parent| == |g.pkgs| && Client(t, p).Some?
  { }

  lemma DoneGrows(s: State, t: State, d: nat)
    requires Evolves(s, t) && d in s.done
    ensures d in t.done
  { }

  lemma DoneStaysListed(g: Graph, s: State, t: State)
    requires g.WellFormed() && Valid(g, s) && Valid(g, t) && DoneListed(g, s) && Evolves(s, t) && t.done == s.done
    ensures DoneListed(g, t)
  { }

  lemma DoneListedAfter(g: Graph, s: State, t: State, d: nat)
    requires g.WellFormed() && Valid(g, s) && Valid(g, t) && DoneListed(g, s) && Evolves(s, t)
    requires d < |g.deps| && t.done == s.done + {d}
    requires t.parent[g.deps[d].up].Some? ==> t.own[g.deps[d].up].Some?
    ensures DoneListed(g, t)
  { }

  // ---- going through the candidates ----

  lemma NothingSeen(g: Graph, s: State)
    requires g.WellFormed() && |g.pkgs| == |s.own| == |s.parent|
    ensures Candidates(g, []) == [] && InRange(g, s, []) && !Deselected(g, s, []) && BestOf(g, s, [], None)
  { }

  lemma SameClients(g: Graph, s: State, t: State, seen: seq<nat>, best: Option<Ref>)
    requires s.own == t.own && s.parent == t.parent
    ensures InRange(g, s, seen) ==> InRange(g, t, seen)
    ensures InRange(g, s, seen) ==> (Deselected(g, s, seen) <==> Deselected(g, t, seen))
    ensures InRange(g, s, seen) ==> (BestOf(g, s, seen, best) <==> BestOf(g, t, seen, best))
  { }

  /** None of the packages that some alternatives offer is deselected, and this is the best of them. */
  ghost predicate BestSoFar(g: Graph, s: State, list: seq<Possi>, best: Option<Ref>)
    requires g.WellFormed() && forall i :: 0 <= i < |list| ==> list[i].ed < |g.sets|
  {
    var seen := Candidates(g, list);
    InRange(g, s, seen) && !Deselected(g, s, seen) && BestOf(g, s, seen, best)
  }

  lemma BestStart(g: Graph, s: State, list: seq<Possi>)
    requires g.WellFormed() && (forall i :: 0 <= i < |list| ==> list[i].ed < |g.sets|) && |s.own| == |s.parent| == |g.pkgs|
    ensures BestSoFar(g, s, list[..0], None)
  {
    assert list[..0] == [];
    NothingSeen(g, s);
    hide BestOf, Deselected, InRange, Candidates;
  }

  lemma BestSeen(g: Graph, s: State, list: seq<Possi>, best: Option<Ref>)
    requires g.WellFormed() && (forall i :: 0 <= i < |list| ==> list[i].ed < |g.sets|) && BestSoFar(g, s, list, best)
    ensures var seen := Candidates(g, list); InRange(g, s, seen) && !Deselected(g, s, seen) && BestOf(g, s, seen, best)
  { }

  lemma BestNext(g: Graph, s: State, list: seq<Possi>, i: nat, stop: bool, best: Option<Ref>)
    requires g.WellFormed() && (forall k :: 0 <= k < |list| ==> list[k].ed < |g.sets|) && i < |list|
    requires |s.own| == |s.parent| == |g.pkgs|
    requires var set_ := g.sets[list[i].ed];
      var all := Candidates(g, list[..i]) + ([set_.pkg] + Providers(g, set_.dependedAvailable));
      InRange(g, s, all) && (stop <==> Deselected(g, s, all)) && (!stop ==> BestOf(g, s, all, best))
    requires InRange(g, s, Candidates(g, list))
    ensures !stop ==> BestSoFar(g, s, list[..i + 1], best)
    ensures stop ==> Deselected(g, s, Candidates(g, list))
  {
    hide BestOf, Deselected, InRange, Candidates, Providers;
    CandidatesSnoc(g, list, i);
    if stop { CandidatesMore(g, s, list, i + 1); }
  }

  lemma CandidatesMore(g: Graph, s: State, list: seq<Possi>, k: nat)
    requires g.WellFormed() && |g.pkgs| == |s.own| == |s.parent| && k <= |list| && forall i :: 0 <= i < |list| ==> list[i].ed < |g.sets|
    requires InRange(g, s, Candidates(g, list[..k])) && Deselected(g, s, Candidates(g, list[..k]))
    ensures InRange(g, s, Candidates(g, list)) && Deselected(g, s, Candidates(g, list))
    decreases |list| - k
  {
    hide Deselected, Candidates, InRange, Providers;
    if k == |list| {
      assert list[..k] == list;
    } else {
      var set_ := g.sets[list[k].ed];
      CandidatesSnoc(g, list, k);
      OneInRange(g, s, set_);
      DeselectedMore(g, s, Candidates(g, list[..k]), [set_.pkg] + Providers(g, set_.dependedAvailable));
      CandidatesMore(g, s, list, k + 1);
    }
  }

  lemma OneInRange(g: Graph, s: State, set_: PackageSet)
    requires g.WellFormed() && |g.pkgs| == |s.own| == |s.parent| && set_ in g.sets
    ensures InRange(g, s, [set_.pkg] + Providers(g, set_.dependedAvailable))
  {
    ProvidersInRange(g, s, set_.dependedAvailable);
  }

  lemma AllInRange(g: Graph, s: State, seen: seq<nat>, p: nat, links: seq<Link>)
    requires g.WellFormed() && InRange(g, s, seen) && p < |g.pkgs| && forall i :: 0 <= i < |links| ==> g.LinkOk(links[i])
    ensures forall k :: 0 <= k <= |links| ==> InRange(g, s, seen + ([p] + Providers(g, links[..k])))
    ensures InRange(g, s, seen + ([p] + Providers(g, links)))
  {
    hide Providers;
    forall k | 0 <= k <= |links| ensures InRange(g, s, seen + ([p] + Providers(g, links[..k]))) {
      ProvidersInRange(g, s, links[..k]);
    }
    assert links[..|links|] == links;
  }

  lemma NoLinks(g: Graph, seen: seq<nat>, p: nat, links: seq<Link>)
    requires g.WellFormed() && forall i :: 0 <= i < |links| ==> g.LinkOk(links[i])
    ensures seen + [p] == seen + ([p] + Providers(g, links[..0]))
  { }

  lemma NextLink(g: Graph, seen: seq<nat>, p: nat, links: seq<Link>, k: nat)
    requires g.WellFormed() && k < |links| && forall i :: 0 <= i < |links| ==> g.LinkOk(links[i])
    ensures g.LinkOk(links[k])
    ensures var more := if g.deps[links[k].dep].kind.Provides? then [g.deps[links[k].dep].up] else [];
      seen + ([p] + Providers(g, links[..k + 1])) == seen + ([p] + Providers(g, links[..k])) + more
  {
    ProvidersSnoc(g, links, k);
    hide Providers;
  }

  lemma MoreLinks(g: Graph, s: State, seen: seq<nat>, p: nat, links: seq<Link>, k: nat)
    requires g.WellFormed() && |g.pkgs| == |s.own| == |s.parent| && k <= |links| && forall i :: 0 <= i < |links| ==> g.LinkOk(links[i])
    requires InRange(g, s, seen) && p < |g.pkgs|
    requires InRange(g, s, seen + ([p] + Providers(g, links[..k]))) && Deselected(g, s, seen + ([p] + Providers(g, links[..k])))
    ensures InRange(g, s, seen + ([p] + Providers(g, links))) && Deselected(g, s, seen + ([p] + Providers(g, links)))
    decreases |links| - k
  {
    hide Deselected, Providers;
    if k == |links| {
      assert links[..k] == links;
    } else {
      NextLink(g, seen, p, links, k);
      assert g.LinkOk(links[k]);
      var more := if g.deps[links[k].dep].kind.Provides? then [g.deps[links[k].dep].up] else [];
      DeselectedMore(g, s, seen + ([p] + Providers(g, links[..k])), more);
      MoreLinks(g, s, seen, p, links, k + 1);
    }
  }

  lemma ValidSizes(g: Graph, s: State)
    requires Valid(g, s)
    ensures |s.own| == |s.parent| == |g.pkgs|
  { }

  lemma BestInRange(g: Graph, s: State, d: nat, fix: Option<Ref>, best: Option<Ref>)
    requires g.WellFormed() && d < |g.deps| && InRange(g, s, Candidates(g, g.deps[d].list)) && best.Some?
    requires if fix.Some? then best == fix && fix.value.pkg < |g.pkgs| else BestOf(g, s, Candidates(g, g.deps[d].list), best)
    ensures best.value.pkg < |g.pkgs|
  { }

  // ---- the rivals in a conflict ----

  /** None of these is wanted together with `up`. */
  ghost predicate NoneWanted(g: Graph, s: State, up: nat, seen: seq<nat>)
    requires up < |g.pkgs| == |s.own| == |s.parent|
  {
    forall i :: 0 <= i < |seen| && seen[i] < |g.pkgs| ==> !BothWanted(g, s, up, seen[i])
  }

  lemma {:induction false} OthersHave(up: nat, ps: seq<nat>, q: nat)
    requires q in ps && q != up
    ensures q in Others(up, ps)
    decreases |ps|
  {
    var n := |ps| - 1;
    assert ps == ps[..n] + [ps[n]];
    if ps[n] != q { OthersHave(up, ps[..n], q); }
  }

  /** The conflict is recorded, or nothing has happened because no rival seen is wanted. */
  ghost predicate Tried(g: Graph, s: State, t: State, up: nat, d: nat, seen: seq<nat>)
    requires up < |g.pkgs| == |s.own| == |s.parent|
  {
    d in t.done || (t == s && NoneWanted(g, s, up, seen))
  }

  ghost predicate SoFar(g: Graph, s: State, t: State, up: nat, d: nat, seen: seq<nat>)
    requires g.WellFormed() && d < |g.deps| && up < |g.pkgs| == |s.own| == |s.parent|
  {
    Tried(g, s, t, up, d, seen) && NoneGaveWay(g, s, t, seen, d)
  }

  lemma TriedSo(g: Graph, s: State, t: State, up: nat, d: nat, seen: seq<nat>)
    requires g.WellFormed() && d < |g.deps| && up < |g.pkgs| == |s.own| == |s.parent|
    requires Tried(g, s, t, up, d, seen) && NoneGaveWay(g, s, t, seen, d)
    ensures SoFar(g, s, t, up, d, seen)
  { }

  lemma SoTried(g: Graph, s: State, t: State, up: nat, d: nat, seen: seq<nat>)
    requires g.WellFormed() && d < |g.deps| && up < |g.pkgs| == |s.own| == |s.parent| && SoFar(g, s, t, up, d, seen)
    ensures Tried(g, s, t, up, d, seen) && NoneGaveWay(g, s, t, seen, d)
  { }

  lemma TriedAll(g: Graph, s: State, t: State, up: nat, d: nat, seen: seq<nat>)
    requires g.WellFormed() && d < |g.deps| && up < |g.pkgs| == |s.own| == |s.parent| && SoFar(g, s, t, up, d, seen)
    ensures (d in t.done || NoneWanted(g, s, up, seen)) && NoneGaveWay(g, s, t, seen, d)
  { }

  /** The rivals seen before, and those among the first i links. */
  ghost function SeenBy(g: Graph, up: nat, links: seq<Link>, i: nat, seen: seq<nat>): seq<nat>
    requires g.WellFormed() && i <= |links| && forall k :: 0 <= k < |links| ==> g.LinkOk(links[k])
  {
    seen + Others(up, Providers(g, links[..i]))
  }

  lemma SeenNone(g: Graph, up: nat, links: seq<Link>, seen: seq<nat>)
    requires g.WellFormed() && forall i :: 0 <= i < |links| ==> g.LinkOk(links[i])
    ensures SeenBy(g, up, links, 0, seen) == seen
  { }

  lemma SeenAll(g: Graph, up: nat, links: seq<Link>, seen: seq<nat>)
    requires g.WellFormed() && forall i :: 0 <= i < |links| ==> g.LinkOk(links[i])
    ensures SeenBy(g, up, links, |links|, seen) == seen + Others(up, Providers(g, links))
  {
    assert links[..|links|] == links;
  }

  lemma {:induction false} SeenPrefix(g: Graph, up: nat, links: seq<Link>, i: nat, seen: seq<nat>)
    requires g.WellFormed() && i <= |links| && forall k :: 0 <= k < |links| ==> g.LinkOk(links[k])
    ensures SeenBy(g, up, links, i, seen) <= SeenBy(g, up, links, |links|, seen)
    decreases |links| - i
  {
    hide SeenBy;
    if i < |links| {
      SeenNext(g, up, links, i, seen);
      SeenPrefix(g, up, links, i + 1, seen);
    }
  }

  lemma RivalsAre(g: Graph, d: nat)
    requires g.WellFormed() && d < |g.deps|
    ensures var up, ed := g.deps[d].up, g.deps[d].list[0].ed;
      var first := if g.pkgs[up].set_ != ed then [] + [g.sets[ed].pkg] else [];
      && first <= Rivals(g, d)
      && Rivals(g, d) == first + Others(up, Providers(g, g.sets[ed].dependedAvailable))
  {
    hide Others, Providers;
  }

  lemma ContestedAll(g: Graph, s: State, u: State, rivals: seq<nat>, d: nat)
    requires g.WellFormed() && d < |g.deps| && NoneGaveWay(g, s, u, rivals, d)
    ensures Contests(g, s, u, rivals, d, 0)
  { }

  lemma SeenNext(g: Graph, up: nat, links: seq<Link>, i: nat, seen: seq<nat>)
    requires g.WellFormed() && i < |links| && forall k :: 0 <= k < |links| ==> g.LinkOk(links[k])
    ensures g.LinkOk(links[i]) && g.deps[links[i].dep].up < |g.pkgs|
    ensures var q := g.deps[links[i].dep].up;
      SeenBy(g, up, links, i + 1, seen)
      == if g.deps[links[i].dep].kind.Provides? && q != up then SeenBy(g, up, links, i, seen) + [q] else SeenBy(g, up, links, i, seen)
  {
    hide Others, Providers;
    OthersSnoc(g, up, links, i, seen);
  }

  lemma OthersSnoc(g: Graph, up: nat, links: seq<Link>, i: nat, seen: seq<nat>)
    requires g.WellFormed() && i < |links| && forall k :: 0 <= k < |links| ==> g.LinkOk(links[k])
    ensures g.LinkOk(links[i]) && g.deps[links[i].dep].up < |g.pkgs|
    ensures var q := g.deps[links[i].dep].up;
      var more := if g.deps[links[i].dep].kind.Provides? && q != up then [q] else [];
      seen + Others(up, Providers(g, links[..i + 1])) == seen + Others(up, Providers(g, links[..i])) + more
  {
    ProvidersSnoc(g, links, i);
    hide Providers;
    var ps, q := Providers(g, links[..i]), g.deps[links[i].dep].up;
    if g.deps[links[i].dep].kind.Provides? {
      assert (ps + [q])[..|ps|] == ps;
    } else {
      assert ps + [] == ps;
    }
  }

  lemma RivalsSeen(g: Graph, s: State, d: nat, seen: seq<nat>)
    requires g.WellFormed() && d < |g.deps| && |g.pkgs| == |s.own| == |s.parent|
    requires g.pkgs[g.deps[d].up].set_ != g.deps[d].list[0].ed ==> g.sets[g.deps[d].list[0].ed].pkg in seen
    ensures var up := g.deps[d].up;
      NoneWanted(g, s, up, seen + Others(up, Providers(g, g.sets[g.deps[d].list[0].ed].dependedAvailable))) ==>
        forall q: nat :: q < |g.pkgs| && Rival(g, d, q) ==> !BothWanted(g, s, up, q)
  {
    hide BothWanted, Providers, Others;
    var up := g.deps[d].up;
    var all := seen + Others(up, Providers(g, g.sets[g.deps[d].list[0].ed].dependedAvailable));
    forall q: nat | q < |g.pkgs| && Rival(g, d, q) ensures q in all {
      if q in Providers(g, g.sets[g.deps[d].list[0].ed].dependedAvailable) && q != up {
        OthersHave(up, Providers(g, g.sets[g.deps[d].list[0].ed].dependedAvailable), q);
      }
    }
  }

  lemma DeselectionRecorded(g: Graph, s: State, t: State, u: State, up: nat, q: nat, d: nat)
    requires up < |g.pkgs| == |s.own| == |s.parent| && q < |g.pkgs|
    requires BothWanted(g, s, up, q) ==>
      d in t.done && (u == t || exists r, w, sp :: RefOk(t, r) && u == Put(t, r, w, sp))
    ensures BothWanted(g, s, up, q) ==> d in u.done
  {
    hide BothWanted;
  }

  lemma AdvancedLater(s: State, t: State, u: State)
    requires Evolves(s, t) && Evolves(t, u) && Advanced(t, u)
    ensures Advanced(s, u)
  { }

  lemma LinksNone(g: Graph, s: State, available: bool)
    requires g.WellFormed() && |g.pkgs| == |s.own| == |s.parent|
    ensures LinksAttended(g, s, [], available)
  { }

  lemma LinksSnoc(g: Graph, s: State, links: seq<Link>, available: bool, i: nat)
    requires g.WellFormed() && |g.pkgs| == |s.own| == |s.parent| && (forall k :: 0 <= k < |links| ==> g.LinkOk(links[k])) && i < |links|
    requires g.LinkOk(links[i]) && LinksAttended(g, s, links[..i], available)
    requires UseAvailable(g, s, g.deps[links[i].dep].up) == available ==> Attended(g, s, links[i].dep)
    ensures LinksAttended(g, s, links[..i + 1], available)
  {
    hide UseAvailable, Attended;
    forall k | 0 <= k < i + 1
      ensures UseAvailable(g, s, g.deps[links[k].dep].up) == available ==> Attended(g, s, links[k].dep)
    {
      if k < i { assert links[..i][k] == links[k]; }
    }
  }

  lemma ProvidedExists(g: Graph, d: nat)
    requires g.WellFormed() && d < |g.deps|
    ensures ProvidedSet(g, d) < |g.sets|
  { }

  lemma ProvidedNone(g: Graph, s: State)
    requires g.WellFormed() && |g.pkgs| == |s.own| == |s.parent|
    ensures ProvidedAttended(g, s, [])
  { }

  lemma ProvidedSnoc(g: Graph, s: State, ds: seq<nat>, i: nat)
    requires g.WellFormed() && |g.pkgs| == |s.own| == |s.parent| && (forall k :: 0 <= k < |ds| ==> ds[k] < |g.deps|) && i < |ds|
    requires ProvidedAttended(g, s, ds[..i])
    requires g.deps[ds[i]].kind.Provides? ==> DependersAttended(g, s, ProvidedSet(g, ds[i]))
    ensures ProvidedAttended(g, s, ds[..i + 1])
  {
    hide DependersAttended;
    forall k | 0 <= k < i + 1 && g.deps[ds[k]].kind.Provides?
      ensures DependersAttended(g, s, ProvidedSet(g, ds[k]))
    {
      if k < i { assert ds[..i][k] == ds[k]; }
    }
  }

}
