/**
 Dependency fields (lib/dpkg/fields.c `f_dependency`, lib/dpkg/dump.c
 `varbufdependency` and `w_dependency`): the text of "Depends" and its relatives,
 in the syntax of section 7.1 of the Debian Policy Manual.
 */
module DepField {
  import opened Text
  import opened PkgVersion

  datatype Kind = Depends | PreDepends | Recommends | Suggests | Enhances | Conflicts | Breaks | Provides | Replaces

  datatype Relation = Any | EQ | LE | GE | LT | GT

  /** One alternative.  `arch` is "any" for an implicit wildcard, and empty if the package's own is meant. */
  datatype Possi = Possi(name: string, archIsImplicit: bool, arch: string, rel: Relation, version: Version)

  datatype Dependency = Dependency(kind: Kind, list: seq<Possi>)

  datatype Error = MissingName | BadName | MissingArch | BadArch | BadRelation | InexactProvides
                 | VersionUnterminated | VersionGarbage | BadVersion | BadSyntax | NoAlternatives

  /** A value read, and the text after it. */
  datatype Parse<T> = Ok(value: T, rest: string) | Err(error: Error)

  // ---- words ----

  datatype Place = AtName | AtArch | AtVersion

  predicate Stops(at: Place, c: char)
    ensures Stops(at, c) <==>
      IsSpace(c) || c in (match at case AtName => {'(', ':', ',', '|'} case AtArch => {'(', ',', '|'} case AtVersion => {'(', ')'})
  {
    IsSpace(c) || c == '('
    || match at
       case AtName => c == ':' || c == ',' || c == '|'
       case AtArch => c == ',' || c == '|'
       case AtVersion => c == ')'
  }

  /** How far a word reaches. */
  function Run(s: string, at: Place): (n: nat)
    ensures n <= |s|
    ensures forall i :: 0 <= i < n ==> !Stops(at, s[i])
    ensures n < |s| ==> Stops(at, s[n])
  {
    if s == "" || Stops(at, s[0]) then 0 else 1 + Run(s[1..], at)
  }

  /** `pkg_name_is_invalid`. */
  predicate GoodName(s: string)
    ensures !GoodName(s) <==>
      s == "" || !IsAlnum(s[0]) || exists i :: 0 <= i < |s| && !IsAlnum(s[i]) && s[i] !in {'-', '+', '.', '_'}
  {
    s != "" && IsAlnum(s[0]) && forall i :: 0 <= i < |s| ==> IsAlnum(s[i]) || s[i] == '-' || s[i] == '+' || s[i] == '.' || s[i] == '_'
  }

  /** `dpkg_arch_name_is_invalid`. */
  predicate GoodArch(s: string)
    ensures !GoodArch(s) <==> s == "" || !IsAlnum(s[0]) || exists i :: 0 <= i < |s| && !IsAlnum(s[i]) && s[i] as int != 45
  {
    s != "" && IsAlnum(s[0]) && forall i :: 0 <= i < |s| ==> IsAlnum(s[i]) || s[i] == '-'
  }

  predicate First(s: string, c: char) { s != "" && s[0] == c }

  // ---- reading ----

  /** Conflicts, Breaks and Replaces apply to any architecture unless told otherwise. */
  function ImplicitArch(kind: Kind): (r: string)
    ensures kind in {Conflicts, Breaks, Replaces} ==> r == "any"
    ensures kind in {Depends, PreDepends, Recommends, Suggests, Enhances, Provides} ==> r == ""
  {
    if kind.Conflicts? || kind.Breaks? || kind.Replaces? then "any" else ""
  }

  /** Alternatives make sense for Depends, Pre-Depends, Recommends, Suggests and Enhances. */
  predicate NoBar(kind: Kind)
    ensures !NoBar(kind) <==> kind in {Depends, PreDepends, Recommends, Suggests, Enhances}
  {
    kind.Conflicts? || kind.Breaks? || kind.Provides? || kind.Replaces?
  }

  function ParseArch(kind: Kind, s: string): (r: Parse<(bool, string)>)
    ensures r.Ok? ==> |r.rest| <= |s|
  {
    if !First(s, ':') then Ok((true, ImplicitArch(kind)), s)
    else
      var n := Run(s[1..], AtArch);
      var arch := s[1..][..n];
      if n == 0 then Err(MissingArch) else if !GoodArch(arch) then Err(BadArch) else Ok((false, arch), s[1..][n..])
  }

  function ParseRelation(s: string): (r: Parse<Relation>)
    ensures r.Ok? ==> |r.rest| <= |s|
  {
    if First(s, '<') || First(s, '>') then
      var inclusive := if s[0] == '<' then LE else GE;
      if |s| > 1 && s[1] == '=' then Ok(inclusive, s[2..])
      else if |s| > 1 && s[1] == s[0] then Ok(if s[0] == '<' then LT else GT, s[2..])
      else if |s| > 1 && (s[1] == '<' || s[1] == '>') then Err(BadRelation)
      else Ok(inclusive, s[1..])
    else if First(s, '=') then Ok(EQ, s[1..])
    else Ok(EQ, s)
  }

  /** From the opening parenthesis on, which has been read. */
  function ParseRestriction(kind: Kind, s: string): (r: Parse<(Relation, Version)>)
    ensures r.Ok? ==> |r.rest| <= |s|
  {
    match ParseRelation(SkipSpace(s))
    case Err(e) => Err(e)
    case Ok(rel, t) =>
      if kind.Provides? && rel != EQ then Err(InexactProvides)
      else
        match ParseBound(SkipSpace(t))
        case Err(e) => Err(e)
        case Ok(version, rest) => Ok((rel, version), rest)
  }

  /** The version, up to and with the closing parenthesis and the space after it. */
  function ParseBound(u: string): (r: Parse<Version>)
    ensures r.Ok? ==> |r.rest| <= |u|
  {
    var n := Run(u, AtVersion);
    var v := SkipSpace(u[n..]);
    if v == "" then Err(VersionUnterminated)
    else if v[0] != ')' then Err(VersionGarbage)
    else
      match ParseVersion(u[..n])
      case None => Err(BadVersion)
      case Some(version) => Ok(version, SkipSpace(v[1..]))
  }

  function ParseVersioned(kind: Kind, s: string): (r: Parse<(Relation, Version)>)
    ensures r.Ok? ==> |r.rest| <= |s|
  {
    var t := SkipSpace(s);
    if First(t, '(') then ParseRestriction(kind, t[1..]) else Ok((Any, BLANK), t)
  }

  /** One alternative, and the space after it. */
  function ParsePossi(kind: Kind, s: string): (r: Parse<Possi>)
    ensures r.Ok? ==> |r.rest| < |s|
  {
    var n := Run(s, AtName);
    if n == 0 then Err(MissingName)
    else if !GoodName(s[..n]) then Err(BadName)
    else
      match ParseArch(kind, s[n..])
      case Err(e) => Err(e)
      case Ok((implicit, arch), t) =>
        match ParseVersioned(kind, t)
        case Err(e) => Err(e)
        case Ok((rel, version), u) => Ok(Possi(Lower(s[..n]), implicit, arch, rel, version), u)
  }

  /** Alternatives up to a comma or the end. */
  function ParseList(kind: Kind, s: string): (r: Parse<seq<Possi>>)
    ensures r.Ok? ==> |r.rest| < |s|
    decreases |s|
  {
    match ParsePossi(kind, s)
    case Err(e) => Err(e)
    case Ok(d, t) =>
      if t == "" || t[0] == ',' then Ok([d], t)
      else if t[0] != '|' then Err(BadSyntax)
      else if NoBar(kind) then Err(NoAlternatives)
      else
        match ParseList(kind, SkipSpace(t[1..]))
        case Err(e) => Err(e)
        case Ok(more, u) => Ok([d] + more, u)
  }

  function ParseGroups(kind: Kind, s: string): Parse<seq<Dependency>>
    decreases |s|
  {
    match ParseList(kind, s)
    case Err(e) => Err(e)
    case Ok(list, t) =>
      if t == "" then Ok([Dependency(kind, list)], "")
      else
        match ParseGroups(kind, SkipSpace(t[1..]))
        case Err(e) => Err(e)
        case Ok(more, u) => Ok([Dependency(kind, list)] + more, u)
  }

  /** `f_dependency`: what the field adds to the dependencies already there. */
  function ParseField(kind: Kind, s: string, already: seq<Dependency>): Parse<seq<Dependency>> {
    if s == "" then Ok(already, "")
    else
      match ParseGroups(kind, s)
      case Err(e) => Err(e)
      case Ok(more, rest) => Ok(already + more, rest)
  }

  // ---- writing ----

  function PrintRelation(rel: Relation): string {
    match rel
    case Any => ""
    case EQ => "="
    case LE => "<="
    case GE => ">="
    case LT => "<<"
    case GT => ">>"
  }

  function PrintArch(d: Possi): string { if d.archIsImplicit then "" else ":" + d.arch }

  function PrintVersioned(d: Possi): string {
    if d.rel == Any then "" else " (" + (PrintRelation(d.rel) + (" " + (PrintVersion(d.version) + ")")))
  }

  function PrintPossi(d: Possi): string { d.name + (PrintArch(d) + PrintVersioned(d)) }

  function PrintList(list: seq<Possi>): string {
    if list == [] then ""
    else if |list| == 1 then PrintPossi(list[0])
    else PrintPossi(list[0]) + (" | " + PrintList(list[1..]))
  }

  function OfKind(deps: seq<Dependency>, kind: Kind): seq<Dependency> {
    if deps == [] then [] else (if deps[0].kind == kind then [deps[0]] else []) + OfKind(deps[1..], kind)
  }

  function PrintGroups(deps: seq<Dependency>): string {
    if deps == [] then ""
    else if |deps| == 1 then PrintList(deps[0].list)
    else PrintList(deps[0].list) + (", " + PrintGroups(deps[1..]))
  }

  /** The value of the field that `w_dependency` writes. */
  function PrintField(kind: Kind, deps: seq<Dependency>): string { PrintGroups(OfKind(deps, kind)) }

  // ---- what can be written and read back ----

  predicate ValidPossi(kind: Kind, d: Possi) {
    && GoodName(d.name) && Lower(d.name) == d.name
    && (if d.archIsImplicit then d.arch == ImplicitArch(kind) else GoodArch(d.arch))
    && (if d.rel == Any then d.version == BLANK else Valid(d.version))
    && (kind.Provides? ==> d.rel == Any || d.rel == EQ)
  }

  ghost predicate ValidDependency(d: Dependency) {
    && d.list != [] && (NoBar(d.kind) ==> |d.list| == 1)
    && forall i :: 0 <= i < |d.list| ==> ValidPossi(d.kind, d.list[i])
  }

  // ---- round trip ----

  lemma {:induction false} RunOver(word: string, rest: string, at: Place)
    requires forall i :: 0 <= i < |word| ==> !Stops(at, word[i])
    requires rest != "" ==> Stops(at, rest[0])
    ensures Run(word + rest, at) == |word|
    decreases |word|
  {
    if word == "" {
      assert word + rest == rest;
    } else {
      assert (word + rest)[1..] == word[1..] + rest;
      RunOver(word[1..], rest, at);
    }
  }

  lemma SplitAt(a: string, b: string)
    ensures (a + b)[..|a|] == a && (a + b)[|a|..] == b
  { }

  /** What may follow an architecture or a name without a version. */
  predicate Follows(rest: string) { rest == "" || rest[0] == ' ' || rest[0] == ',' }

  lemma ArchRoundTrip(kind: Kind, d: Possi, rest: string)
    requires ValidPossi(kind, d) && Follows(rest)
    ensures ParseArch(kind, PrintArch(d) + rest) == Ok((d.archIsImplicit, d.arch), rest)
  {
    hide Valid, GoodName, Lower;
    if d.archIsImplicit {
      assert "" + rest == rest;
    } else {
      assert (":" + d.arch + rest)[1..] == d.arch + rest;
      RunOver(d.arch, rest, AtArch);
      SplitAt(d.arch, rest);
    }
  }

  lemma RelationRoundTrip(rel: Relation, tail: string)
    requires rel != Any
    ensures ParseRelation(PrintRelation(rel) + (" " + tail)) == Ok(rel, " " + tail)
    ensures SkipSpace(PrintRelation(rel) + (" " + tail)) == PrintRelation(rel) + (" " + tail)
  { }

  lemma SpaceThen(s: string)
    requires s != "" && !IsSpace(s[0])
    ensures SkipSpace(" " + s) == s && SkipSpace(s) == s
  { }

  lemma PrintedStops(s: string)
    requires Printed(s)
    ensures forall i :: 0 <= i < |s| ==> !Stops(AtVersion, s[i])
    ensures !IsSpace(s[0])
  { }

  lemma RestrictionRoundTrip(kind: Kind, rel: Relation, v: Version, rest: string)
    requires rel != Any && Valid(v) && (kind.Provides? ==> rel == EQ)
    ensures ParseRestriction(kind, PrintRelation(rel) + (" " + (PrintVersion(v) + (")" + rest)))) == Ok((rel, v), SkipSpace(rest))
  {
    VersionRoundTrip(v);
    hide Valid, ParseVersion, PrintVersion, Printed;
    var p := PrintVersion(v);
    var tail := p + (")" + rest);
    RelationRoundTrip(rel, tail);
    hide ParseRelation, PrintRelation;
    PrintedStops(p);
    PrintedNotEmpty(p);
    SpaceThen(tail);
    RunOver(p, ")" + rest, AtVersion);
    SplitAt(p, ")" + rest);
    hide Run;
    assert (")" + rest)[1..] == rest;
    assert SkipSpace(")" + rest) == ")" + rest;
  }

  lemma PrintedNotEmpty(s: string)
    requires Printed(s)
    ensures s != ""
  { }

  lemma VersionedRoundTrip(kind: Kind, d: Possi, rest: string)
    requires ValidPossi(kind, d) && Follows(rest) && !First(SkipSpace(rest), '(')
    ensures ParseVersioned(kind, PrintVersioned(d) + rest) == Ok((d.rel, d.version), SkipSpace(rest))
  {
    hide GoodName, Lower, GoodArch, Valid, ParseRestriction, PrintVersion;
    if d.rel == Any {
      assert "" + rest == rest;
    } else {
      var body := PrintRelation(d.rel) + (" " + (PrintVersion(d.version) + (")" + rest)));
      assert PrintVersioned(d) + rest == " " + ("(" + body) by { hide PrintRelation; }
      hide PrintRelation;
      SpaceThen("(" + body);
      assert ("(" + body)[1..] == body;
      RestrictionRoundTrip(kind, d.rel, d.version, rest);
    }
  }

  lemma NameStops(d: Possi, rest: string)
    requires Follows(rest)
    ensures var t := PrintArch(d) + (PrintVersioned(d) + rest); t != "" ==> Stops(AtName, t[0])
    ensures Follows(PrintVersioned(d) + rest)
  { }

  lemma GoodNameRuns(s: string)
    requires GoodName(s)
    ensures forall i :: 0 <= i < |s| ==> !Stops(AtName, s[i])
  { }

  lemma PossiRoundTrip(kind: Kind, d: Possi, rest: string)
    requires ValidPossi(kind, d) && Follows(rest) && !First(SkipSpace(rest), '(')
    ensures ParsePossi(kind, PrintPossi(d) + rest) == Ok(d, SkipSpace(rest))
  {
    hide ParseArch, ParseVersioned, PrintArch, PrintVersioned, First, Follows;
    var t := PrintVersioned(d) + rest;
    var s := PrintArch(d) + t;
    assert PrintPossi(d) + rest == d.name + s;
    NameStops(d, rest);
    GoodNameRuns(d.name);
    RunOver(d.name, s, AtName);
    SplitAt(d.name, s);
    hide Run, Stops;
    ArchRoundTrip(kind, d, t);
    VersionedRoundTrip(kind, d, rest);
  }

  lemma ListStarts(kind: Kind, list: seq<Possi>, rest: string)
    requires list != [] && ValidPossi(kind, list[0])
    ensures PrintList(list) + rest != "" && !IsSpace((PrintList(list) + rest)[0])
  { }

  lemma ListStep(kind: Kind, s: string, d: Possi, list: seq<Possi>, more: string, rest: string)
    requires ParsePossi(kind, s) == Ok(d, "|" + (" " + more)) && SkipSpace(" " + more) == more
    requires ParseList(kind, more) == Ok(list, rest) && !NoBar(kind)
    ensures ParseList(kind, s) == Ok([d] + list, rest)
  {
    hide ParsePossi, SkipSpace;
    assert ("|" + (" " + more))[1..] == " " + more;
  }

  lemma BarFollows(more: string)
    ensures Follows(" " + ("|" + (" " + more))) && SkipSpace(" " + ("|" + (" " + more))) == "|" + (" " + more)
    ensures !First("|" + (" " + more), '(')
  { }

  lemma OneFollows(rest: string)
    requires rest == "" || rest[0] == ','
    ensures Follows(rest) && SkipSpace(rest) == rest && !First(rest, '(')
  { }

  lemma {:induction false} ListRoundTrip(kind: Kind, list: seq<Possi>, rest: string)
    requires list != [] && (NoBar(kind) ==> |list| == 1)
    requires forall i :: 0 <= i < |list| ==> ValidPossi(kind, list[i])
    requires rest == "" || rest[0] == ','
    ensures ParseList(kind, PrintList(list) + rest) == Ok(list, rest)
    decreases |list|
  {
    hide *;
    if |list| == 1 {
      OneListed(kind, list[0], rest);
      assert list == [list[0]];
    } else {
      var more := PrintList(list[1..]) + rest;
      ListRoundTrip(kind, list[1..], rest);
      ListStarts(kind, list[1..], rest);
      SpaceThen(more);
      BarFollows(more);
      JoinList(list, rest);
      PossiRoundTrip(kind, list[0], " " + ("|" + (" " + more)));
      ListStep(kind, PrintList(list) + rest, list[0], list[1..], more, rest);
      assert list == [list[0]] + list[1..];
    }
  }

  lemma OneListed(kind: Kind, d: Possi, rest: string)
    requires ValidPossi(kind, d) && (rest == "" || rest[0] == ',')
    ensures ParseList(kind, PrintList([d]) + rest) == Ok([d], rest)
  {
    hide ValidPossi, ParsePossi, PrintPossi, SkipSpace, IsSpace, Follows, First, NoBar;
    OneFollows(rest);
    PossiRoundTrip(kind, d, rest);
  }

  lemma JoinList(list: seq<Possi>, rest: string)
    requires |list| > 1
    ensures PrintList(list) + rest == PrintPossi(list[0]) + (" " + ("|" + (" " + (PrintList(list[1..]) + rest))))
  {
    assert PrintList(list) == PrintPossi(list[0]) + (" | " + PrintList(list[1..]));
    hide PrintPossi, PrintList;
    Regroup(PrintPossi(list[0]), " | ", PrintList(list[1..]), rest);
    Bar(PrintList(list[1..]) + rest);
  }

  lemma Regroup(a: string, b: string, c: string, d: string)
    ensures a + (b + c) + d == a + (b + (c + d))
  { }

  lemma Bar(s: string)
    ensures " | " + s == " " + ("|" + (" " + s))
  { }

  lemma {:induction false} GroupsRoundTrip(kind: Kind, deps: seq<Dependency>)
    requires deps != [] && forall i :: 0 <= i < |deps| ==> deps[i].kind == kind && ValidDependency(deps[i])
    ensures ParseGroups(kind, PrintGroups(deps)) == Ok(deps, "")
    ensures PrintGroups(deps) != "" && !IsSpace(PrintGroups(deps)[0])
    decreases |deps|
  {
    hide ValidPossi, ParseList, PrintList, IsSpace;
    var list := deps[0].list;
    assert deps[0] == Dependency(kind, list);
    if |deps| == 1 {
      ListRoundTrip(kind, list, "");
      ListStarts(kind, list, "");
      assert PrintList(list) + "" == PrintList(list) && deps == [deps[0]];
    } else {
      var more := PrintGroups(deps[1..]);
      GroupsRoundTrip(kind, deps[1..]);
      SpaceThen(more);
      ListRoundTrip(kind, list, ", " + more);
      ListStarts(kind, list, ", " + more);
      assert (", " + more)[1..] == " " + more;
      assert deps == [deps[0]] + deps[1..];
    }
  }

  /**
   Round trip.  Reading the field that was written for one kind restores the
   dependencies of that kind, in order and in every detail, after those already
   there.
   */
  lemma FieldRoundTrip(kind: Kind, deps: seq<Dependency>, already: seq<Dependency>)
    requires forall i :: 0 <= i < |deps| ==> ValidDependency(deps[i])
    ensures ParseField(kind, PrintField(kind, deps), already) == Ok(already + OfKind(deps, kind), "")
  {
    hide ValidDependency, ParseGroups, PrintGroups;
    var mine := OfKind(deps, kind);
    if mine == [] {
      NothingPrinted();
      assert already + mine == already;
    } else {
      OfKindValid(deps, kind);
      GroupsRoundTrip(kind, mine);
    }
  }

  lemma {:induction false} OfKindValid(deps: seq<Dependency>, kind: Kind)
    requires forall i :: 0 <= i < |deps| ==> ValidDependency(deps[i])
    ensures forall i :: 0 <= i < |OfKind(deps, kind)| ==> OfKind(deps, kind)[i].kind == kind && ValidDependency(OfKind(deps, kind)[i])
    decreases |deps|
  {
    hide ValidDependency;
    if deps != [] { OfKindValid(deps[1..], kind); }
  }

  lemma NothingPrinted()
    ensures PrintGroups([]) == ""
  { }

  // ---- what is read is in order ----

  /** Whatever is accepted could have been written: reading, writing and reading again gives the same. */
  lemma PossiValid(kind: Kind, s: string)
    requires ParsePossi(kind, s).Ok?
    ensures ValidPossi(kind, ParsePossi(kind, s).value)
  {
    hide Run, SkipSpace, ParseVersion;
    var n := Run(s, AtName);
    LowerValid(s[..n]);
    hide GoodName, GoodArch, Lower;
    var a := ParseArch(kind, s[n..]);
    VersionedValid(kind, a.rest);
    hide ParseVersioned;
  }

  lemma VersionedValid(kind: Kind, s: string)
    requires ParseVersioned(kind, s).Ok?
    ensures var (rel, v) := ParseVersioned(kind, s).value;
      (if rel == Any then v == BLANK else Valid(v)) && (kind.Provides? ==> rel == Any || rel == EQ)
  {
    hide Run, SkipSpace, Valid, ParseVersion;
    var t := SkipSpace(s);
    if First(t, '(') {
      var r := ParseRelation(SkipSpace(t[1..]));
      var u := SkipSpace(r.rest);
      ParsedIsValid(u[..Run(u, AtVersion)]);
    }
  }

  lemma LowerValid(s: string)
    requires GoodName(s)
    ensures GoodName(Lower(s)) && Lower(Lower(s)) == Lower(s)
  { }

  lemma {:induction false} ListValid(kind: Kind, s: string)
    requires ParseList(kind, s).Ok?
    ensures ValidDependency(Dependency(kind, ParseList(kind, s).value))
    decreases |s|
  {
    hide ParsePossi, ValidPossi, SkipSpace;
    PossiValid(kind, s);
    var t := ParsePossi(kind, s).rest;
    if t != "" && t[0] != ',' {
      ListValid(kind, SkipSpace(t[1..]));
    }
  }

  lemma {:induction false} GroupsValid(kind: Kind, s: string)
    requires ParseGroups(kind, s).Ok?
    ensures var deps := ParseGroups(kind, s).value;
      deps != [] && forall i :: 0 <= i < |deps| ==> deps[i].kind == kind && ValidDependency(deps[i])
    decreases |s|
  {
    hide ParseList, ValidDependency, SkipSpace;
    ListValid(kind, s);
    var t := ParseList(kind, s).rest;
    if t != "" {
      GroupsValid(kind, SkipSpace(t[1..]));
    }
  }

  lemma {:induction false} AllOfKind(deps: seq<Dependency>, kind: Kind)
    requires forall i :: 0 <= i < |deps| ==> deps[i].kind == kind
    ensures OfKind(deps, kind) == deps
    decreases |deps|
  {
    if deps != [] {
      AllOfKind(deps[1..], kind);
      assert deps == [deps[0]] + deps[1..];
    }
  }

  /** Any field that is accepted, however it is spaced, is written back to a text with the same reading. */
  lemma Reread(kind: Kind, s: string)
    requires ParseField(kind, s, []).Ok?
    ensures var deps := ParseField(kind, s, []).value;
      ParseField(kind, PrintField(kind, deps), []) == Ok(deps, "")
  {
    hide ParseGroups, ValidDependency, PrintField;
    var deps := ParseField(kind, s, []).value;
    if s != "" { GroupsValid(kind, s); }
    AllOfKind(deps, kind);
    FieldRoundTrip(kind, deps, []);
    assert [] + deps == deps;
  }

  // ---- the syntax in so many words ----

  /** How each relation is read. */
  lemma RelationTexts(s: string)
    ensures |s| >= 2 && s[0] == '<' && s[1] == '<' ==> ParseRelation(s) == Ok(LT, s[2..])
    ensures |s| >= 2 && s[0] == '>' && s[1] == '>' ==> ParseRelation(s) == Ok(GT, s[2..])
    ensures |s| >= 2 && s[0] == '<' && s[1] == '=' ==> ParseRelation(s) == Ok(LE, s[2..])
    ensures |s| >= 2 && s[0] == '>' && s[1] == '=' ==> ParseRelation(s) == Ok(GE, s[2..])
    ensures s != "" && s[0] == '<' && (|s| == 1 || s[1] !in {'<', '>', '='}) ==> ParseRelation(s) == Ok(LE, s[1..])
    ensures s != "" && s[0] == '>' && (|s| == 1 || s[1] !in {'<', '>', '='}) ==> ParseRelation(s) == Ok(GE, s[1..])
    ensures |s| >= 2 && s[0] in {'<', '>'} && s[1] in {'<', '>'} && s[0] != s[1] ==> ParseRelation(s) == Err(BadRelation)
    ensures s != "" && s[0] == '=' ==> ParseRelation(s) == Ok(EQ, s[1..])
    ensures s == "" || s[0] !in {'<', '>', '='} ==> ParseRelation(s) == Ok(EQ, s)
  { }

  /** How each is written. */
  lemma RelationsWritten()
    ensures PrintRelation(Any) == "" && PrintRelation(EQ) == "=" && PrintRelation(LE) == "<=" && PrintRelation(GE) == ">="
    ensures PrintRelation(LT) == "<<" && PrintRelation(GT) == ">>"
  { }

  /** An alternative, alternatives, and a field as they are written. */
  lemma WrittenPossi(v: Version)
    requires PrintVersion(v) == "1"
    ensures PrintPossi(Possi("b", false, "any", LT, v)) == "b:any (<< 1)"
    ensures PrintPossi(Possi("c", true, "", Any, v)) == "c"
  {
    var b := Possi("b", false, "any", LT, v);
    hide PrintVersion;
    assert PrintArch(b) == ":any" && PrintVersioned(b) == " (<< 1)";
  }

  lemma WrittenField(x: Possi, y: Possi, z: Possi)
    ensures PrintList([x, y]) == PrintPossi(x) + (" | " + PrintPossi(y))
    ensures PrintField(Depends, [Dependency(Depends, [x, y]), Dependency(Conflicts, [x]), Dependency(Depends, [z])])
         == PrintPossi(x) + (" | " + PrintPossi(y)) + (", " + PrintPossi(z))
  {
    hide PrintPossi;
    var a, b, c := Dependency(Depends, [x, y]), Dependency(Conflicts, [x]), Dependency(Depends, [z]);
    assert [x, y][1..] == [y] && PrintList([y]) == PrintPossi(y);
    assert [c][1..] == [] && [b, c][1..] == [c] && [a, b, c][1..] == [b, c];
    assert OfKind([c], Depends) == [c] && OfKind([b, c], Depends) == [c] && OfKind([a, b, c], Depends) == [a, c];
    assert [a, c][1..] == [c] && PrintGroups([c]) == PrintPossi(z);
  }
}
