/**
 `f_dependency`, `varbufdependency` and `w_dependency` (lib/dpkg/fields.c,
 lib/dpkg/dump.c) as they work: a cursor moving over the value, lists growing at
 their ends, text growing in a buffer.  Proved against DepField.
 */
module DepParser {
  import opened Text
  import opened PkgVersion
  import opened DepField

  // ---- reading ----

  method SkipFrom(v: string, p: nat) returns (q: nat)
    requires p <= |v|
    ensures p <= q <= |v| && v[q..] == SkipSpace(v[p..])
  {
    q := p;
    while q < |v| && IsSpace(v[q])
      invariant p <= q <= |v| && SkipSpace(v[q..]) == SkipSpace(v[p..])
    {
      assert v[q..][1..] == v[q + 1..];
      q := q + 1;
    }
  }

  method RunFrom(v: string, p: nat, at: Place) returns (q: nat)
    requires p <= |v|
    ensures q <= |v| && q == p + Run(v[p..], at)
  {
    q := p;
    while q < |v| && !Stops(at, v[q])
      invariant p <= q <= |v| && q + Run(v[q..], at) == p + Run(v[p..], at)
    {
      assert v[q..][1..] == v[q + 1..];
      q := q + 1;
    }
  }

  lemma From(v: string, p: nat, n: nat)
    requires p + n <= |v|
    ensures v[p..][..n] == v[p..p + n] && v[p..][n..] == v[p + n..] && |v[p..]| == |v| - p
  { }

  method ReadArch(kind: Kind, v: string, p: nat) returns (r: Parse<(bool, string)>, q: nat)
    requires p <= |v|
    ensures r == ParseArch(kind, v[p..]) && q <= |v| && (r.Ok? ==> r.rest == v[q..])
  {
    hide Run, GoodArch, ImplicitArch;
    q := p;
    if p == |v| || v[p] != ':' {
      return Ok((true, ImplicitArch(kind)), v[p..]), p;
    }
    var start := p + 1;
    From(v, p, 1);
    q := RunFrom(v, start, AtArch);
    From(v, start, q - start);
    if q == start {
      return Err(MissingArch), q;
    }
    var arch := v[start..q];
    if !GoodArch(arch) {
      return Err(BadArch), q;
    }
    return Ok((false, arch), v[q..]), q;
  }

  method ReadRelation(v: string, p: nat) returns (r: Parse<Relation>, q: nat)
    requires p <= |v|
    ensures r == ParseRelation(v[p..]) && q <= |v| && (r.Ok? ==> r.rest == v[q..])
  {
    q := p;
    if p < |v| && (v[p] == '<' || v[p] == '>') {
      From(v, p, 1);
      var c1 := v[p];
      q := p + 1;
      if q < |v| && v[q] == '=' {
        From(v, p, 2);
        return Ok(if c1 == '<' then LE else GE, v[q + 1..]), q + 1;
      } else if q < |v| && v[q] == c1 {
        From(v, p, 2);
        return Ok(if c1 == '<' then LT else GT, v[q + 1..]), q + 1;
      } else if q < |v| && (v[q] == '<' || v[q] == '>') {
        return Err(BadRelation), q;
      }
      return Ok(if c1 == '<' then LE else GE, v[q..]), q;
    } else if p < |v| && v[p] == '=' {
      From(v, p, 1);
      return Ok(EQ, v[p + 1..]), p + 1;
    }
    return Ok(EQ, v[p..]), p;
  }

  method ReadRestriction(kind: Kind, v: string, p: nat) returns (r: Parse<(Relation, Version)>, q: nat)
    requires p <= |v|
    ensures r == ParseRestriction(kind, v[p..]) && q <= |v| && (r.Ok? ==> r.rest == v[q..])
  {
    hide SkipSpace, ParseRelation, ParseBound;
    q := SkipFrom(v, p);
    var rel;
    rel, q := ReadRelation(v, q);
    if rel.Err? {
      return Err(rel.error), q;
    }
    if kind.Provides? && rel.value != EQ {
      return Err(InexactProvides), q;
    }
    q := SkipFrom(v, q);
    var version;
    version, q := ReadBound(v, q);
    r := if version.Ok? then Ok((rel.value, version.value), version.rest) else Err(version.error);
  }

  /** The version, up to and with the closing parenthesis and the space after it. */
  method ReadBound(v: string, p: nat) returns (r: Parse<Version>, q: nat)
    requires p <= |v|
    ensures r == ParseBound(v[p..]) && q <= |v| && (r.Ok? ==> r.rest == v[q..])
  {
    hide Run, SkipSpace, ParseVersion;
    q := RunFrom(v, p, AtVersion);
    From(v, p, q - p);
    var text := v[p..q];
    q := SkipFrom(v, q);
    if q == |v| {
      return Err(VersionUnterminated), q;
    }
    if v[q] != ')' {
      return Err(VersionGarbage), q;
    }
    var version := ParseVersion(text);
    if version.None? {
      return Err(BadVersion), q;
    }
    From(v, q, 1);
    q := SkipFrom(v, q + 1);
    r := Ok(version.value, v[q..]);
  }

  method ReadVersioned(kind: Kind, v: string, p: nat) returns (r: Parse<(Relation, Version)>, q: nat)
    requires p <= |v|
    ensures r == ParseVersioned(kind, v[p..]) && q <= |v| && (r.Ok? ==> r.rest == v[q..])
  {
    hide SkipSpace, ParseRestriction;
    q := SkipFrom(v, p);
    if q < |v| && v[q] == '(' {
      From(v, q, 1);
      r, q := ReadRestriction(kind, v, q + 1);
    } else {
      r := Ok((Any, BLANK), v[q..]);
    }
  }

  method ReadPossi(kind: Kind, v: string, p: nat) returns (r: Parse<Possi>, q: nat)
    requires p <= |v|
    ensures r == ParsePossi(kind, v[p..]) && q <= |v| && (r.Ok? ==> r.rest == v[q..])
  {
    hide Run, SkipSpace, ParseArch, ParseVersioned, GoodName, Lower;
    q := RunFrom(v, p, AtName);
    From(v, p, q - p);
    if q == p {
      return Err(MissingName), q;
    }
    var name := v[p..q];
    if !GoodName(name) {
      return Err(BadName), q;
    }
    var arch;
    arch, q := ReadArch(kind, v, q);
    if arch.Err? {
      return Err(arch.error), q;
    }
    var versioned;
    versioned, q := ReadVersioned(kind, v, q);
    if versioned.Err? {
      return Err(versioned.error), q;
    }
    var (implicit, a) := arch.value;
    var (rel, version) := versioned.value;
    r := Ok(Possi(Lower(name), implicit, a, rel, version), v[q..]);
  }

  ghost function After<T>(done: seq<T>, r: Parse<seq<T>>): Parse<seq<T>> {
    match r
    case Err(e) => Err(e)
    case Ok(more, rest) => Ok(done + more, rest)
  }

  lemma AfterAll<T>(done: seq<T>, x: T, r: Parse<seq<T>>)
    ensures After(done, After([x], r)) == After(done + [x], r)
    ensures After([], r) == r
  {
    if r.Ok? {
      assert done + ([x] + r.value) == done + [x] + r.value;
      assert [] + r.value == r.value;
    }
  }

  lemma ListUnfolds(kind: Kind, s: string)
    ensures var r := ParsePossi(kind, s);
      && (r.Err? ==> ParseList(kind, s) == Err(r.error))
      && (r.Ok? && (r.rest == "" || r.rest[0] == ',') ==> ParseList(kind, s) == Ok([r.value], r.rest))
      && (r.Ok? && r.rest != "" && r.rest[0] != ',' && r.rest[0] != '|' ==> ParseList(kind, s) == Err(BadSyntax))
      && (r.Ok? && r.rest != "" && r.rest[0] == '|' && NoBar(kind) ==> ParseList(kind, s) == Err(NoAlternatives))
      && (r.Ok? && r.rest != "" && r.rest[0] == '|' && !NoBar(kind) ==>
            ParseList(kind, s) == After([r.value], ParseList(kind, SkipSpace(r.rest[1..]))))
  { }

  /** The inner loop of `f_dependency`: alternatives. */
  method ReadList(kind: Kind, v: string, start: nat) returns (r: Parse<seq<Possi>>, p: nat)
    requires start <= |v|
    ensures r == ParseList(kind, v[start..]) && p <= |v| && (r.Ok? ==> r.rest == v[p..])
  {
    hide ParsePossi, ParseList, SkipSpace, After;
    p := start;
    var list: seq<Possi> := [];
    AfterAll(list, Possi("", true, "", Any, BLANK), ParseList(kind, v[start..]));
    while true
      invariant p <= |v| && After(list, ParseList(kind, v[p..])) == ParseList(kind, v[start..])
      decreases |v| - p
    {
      var possi, q := ReadPossi(kind, v, p);
      ListUnfolds(kind, v[p..]);
      if possi.Err? {
        AfterError(list, ParseList(kind, v[p..]));
        return Err(possi.error), q;
      }
      if q == |v| || v[q] == ',' {
        AfterLast(list, possi.value, v[q..]);
        return Ok(list + [possi.value], v[q..]), q;
      }
      if v[q] != '|' {
        AfterError(list, ParseList(kind, v[p..]));
        return Err(BadSyntax), q;
      }
      if NoBar(kind) {
        AfterError(list, ParseList(kind, v[p..]));
        return Err(NoAlternatives), q;
      }
      From(v, q, 1);
      From(v, p, 0);
      list := list + [possi.value];
      p := SkipFrom(v, q + 1);
      AfterAll(list[..|list| - 1], possi.value, ParseList(kind, v[p..]));
      assert list[..|list| - 1] + [possi.value] == list;
    }
  }

  lemma AfterError<T>(done: seq<T>, r: Parse<seq<T>>)
    requires r.Err?
    ensures After(done, r) == Err(r.error)
  { }

  lemma AfterLast<T>(done: seq<T>, x: T, rest: string)
    ensures After(done, Ok([x], rest)) == Ok(done + [x], rest)
  { }

  /** `f_dependency`: the outer loop, one group after another, added at the end of what is there. */
  method ReadField(kind: Kind, v: string, already: seq<Dependency>) returns (r: Parse<seq<Dependency>>)
    ensures r == ParseField(kind, v, already)
  {
    hide ParseList, SkipSpace, After, ParseGroups;
    if v == "" {
      return Ok(already, "");
    }
    var deps, p := already, 0;
    assert v[0..] == v;
    FieldStarts(kind, v, already);
    while true
      invariant p <= |v| && After(deps, ParseGroups(kind, v[p..])) == ParseField(kind, v, already)
      decreases |v| - p
    {
      var list, q := ReadList(kind, v, p);
      GroupsUnfold(kind, v[p..]);
      if list.Err? {
        AfterError(deps, ParseGroups(kind, v[p..]));
        return Err(list.error);
      }
      var one := Dependency(kind, list.value);
      if q == |v| {
        AfterLast(deps, one, "");
        return Ok(deps + [one], "");
      }
      From(v, q, 1);
      From(v, p, 0);
      var q' := SkipFrom(v, q + 1);
      AfterAll(deps, one, ParseGroups(kind, v[q'..]));
      deps, p := deps + [one], q';
    }
  }

  lemma FieldStarts(kind: Kind, v: string, already: seq<Dependency>)
    requires v != ""
    ensures After(already, ParseGroups(kind, v)) == ParseField(kind, v, already)
  { }

  lemma GroupsUnfold(kind: Kind, s: string)
    ensures var r := ParseList(kind, s);
      && (r.Err? ==> ParseGroups(kind, s) == Err(r.error))
      && (r.Ok? && r.rest == "" ==> ParseGroups(kind, s) == Ok([Dependency(kind, r.value)], ""))
      && (r.Ok? && r.rest != "" ==>
            ParseGroups(kind, s) == After([Dependency(kind, r.value)], ParseGroups(kind, SkipSpace(r.rest[1..]))))
  { }

  // ---- writing ----

  /** `varbufdependency`. */
  method WriteList(buf: string, list: seq<Possi>) returns (text: string)
    ensures text == buf + PrintList(list)
  {
    hide PrintPossi;
    text := buf;
    var i := 0;
    var delimiter := "";
    while i < |list|
      invariant 0 <= i <= |list|
      invariant delimiter == if i == 0 then "" else " | "
      invariant i < |list| ==> text + (delimiter + PrintList(list[i..])) == buf + PrintList(list)
      invariant i == |list| ==> text == buf + PrintList(list)
    {
      assert list[i..][1..] == list[i + 1..];
      text := text + delimiter;
      delimiter := " | ";
      text := text + PrintPossi(list[i]);
      i := i + 1;
    }
  }

  /** `w_dependency`, without the header. */
  method WriteField(kind: Kind, deps: seq<Dependency>) returns (text: string)
    ensures text == PrintField(kind, deps)
  {
    hide PrintList;
    text := "";
    var found := false;
    ghost var done: seq<Dependency> := [];
    var i := 0;
    assert deps[0..] == deps;
    while i < |deps|
      invariant 0 <= i <= |deps|
      invariant done + OfKind(deps[i..], kind) == OfKind(deps, kind)
      invariant text == PrintGroups(done) && (found <==> done != [])
    {
      OfKindStep(done, deps, kind, i);
      if deps[i].kind == kind {
        if found {
          text := text + ", ";
        }
        found := true;
        GroupsSnoc(done, deps[i]);
        text := WriteList(text, deps[i].list);
        done := done + [deps[i]];
      }
      i := i + 1;
    }
    assert done + OfKind(deps[i..], kind) == done;
  }

  lemma OfKindStep(done: seq<Dependency>, deps: seq<Dependency>, kind: Kind, i: nat)
    requires i < |deps|
    ensures done + OfKind(deps[i..], kind)
         == (if deps[i].kind == kind then done + [deps[i]] else done) + OfKind(deps[i + 1..], kind)
  { }

  lemma {:induction false} GroupsSnoc(deps: seq<Dependency>, d: Dependency)
    ensures PrintGroups(deps + [d]) == PrintGroups(deps) + ((if deps == [] then "" else ", ") + PrintList(d.list))
    decreases |deps|
  {
    hide PrintList;
    if deps != [] {
      assert (deps + [d])[1..] == deps[1..] + [d];
      GroupsSnoc(deps[1..], d);
    }
  }

  /** Writing a field and reading it back. */
  method WriteThenRead(kind: Kind, deps: seq<Dependency>, already: seq<Dependency>) returns (r: Parse<seq<Dependency>>)
    requires forall i :: 0 <= i < |deps| ==> ValidDependency(deps[i])
    ensures r == Ok(already + OfKind(deps, kind), "")
  {
    hide ValidDependency, PrintField, ParseField;
    var text := WriteField(kind, deps);
    r := ReadField(kind, text, already);
    FieldRoundTrip(kind, deps, already);
  }
}
