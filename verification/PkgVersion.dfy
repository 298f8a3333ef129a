/**
 Package versions as text (lib/dpkg/parsehelp.c): `parseversion` and
 `varbufversion`.
 */
module PkgVersion {
  import opened Text

  datatype Version = Version(epoch: nat, version: string, revision: string)

  const BLANK: Version := Version(0, "", "")
  const INT_MAX: nat := 0x7fff_ffff

  predicate IsAlpha(c: char)
    ensures IsAlpha(c) <==> 97 <= c as int < 123 || 65 <= c as int < 91
  {
    'a' <= c <= 'z' || 'A' <= c <= 'Z'
  }

  predicate IsAlnum(c: char) { IsAlpha(c) || IsDigit(c) }

  predicate IsBlank(c: char) { c == ' ' || c == '\t' }

  predicate VersionChar(c: char)
    ensures VersionChar(c) <==> IsAlpha(c) || IsDigit(c) || c in {'.', '+', '~', '-', ':'}
  {
    RevisionChar(c) || c == '-' || c == ':'
  }

  predicate RevisionChar(c: char)
    ensures RevisionChar(c) <==> IsAlpha(c) || IsDigit(c) || c in {'.', '+', '~'}
  {
    IsAlnum(c) || c == '.' || c == '+' || c == '~'
  }

  predicate GoodVersion(s: string) { s != "" && IsDigit(s[0]) && forall i :: 0 <= i < |s| ==> VersionChar(s[i]) }

  predicate GoodRevision(s: string) { forall i :: 0 <= i < |s| ==> RevisionChar(s[i]) }

  // ---- reading ----

  /** The part between leading and trailing blanks, if there are no others. */
  function Trim(s: string): Option<string> {
    if s == "" then None
    else if IsBlank(s[0]) then Trim(s[1..])
    else
      var n := Word(s);
      if forall i :: n <= i < |s| ==> IsBlank(s[i]) then Some(s[..n]) else None
  }

  function Word(s: string): (n: nat)
    ensures n <= |s|
    ensures forall i :: 0 <= i < n ==> !IsBlank(s[i])
    ensures n < |s| ==> IsBlank(s[n])
  {
    if s == "" || IsBlank(s[0]) then 0 else 1 + Word(s[1..])
  }

  /** What follows the epoch: version and revision split at the last hyphen. */
  function ParseUpstream(epoch: nat, s: string): Option<Version> {
    var v := match LastIndex(s, '-')
             case None => Version(epoch, s, "")
             case Some(h) => Version(epoch, s[..h], s[h + 1..]);
    if LastIndex(s, '-').Some? && v.revision == "" then None
    else if GoodVersion(v.version) && GoodRevision(v.revision) then Some(v)
    else None
  }

  /** `parseversion`, with warnings counted as errors. */
  function ParseVersion(s: string): Option<Version> {
    match Trim(s)
    case None => None
    case Some(t) =>
      match FirstIndex(t, ':')
      case None => ParseUpstream(0, t)
      case Some(c) =>
        match StrToL(t[..c])
        case None => None
        case Some(e) => if 0 <= e <= INT_MAX && c + 1 < |t| then ParseUpstream(e, t[c + 1..]) else None
  }

  // ---- writing ----

  function PrintUpstream(v: Version): string {
    v.version + if v.revision != "" then "-" + v.revision else ""
  }

  /** `varbufversion`: the epoch is left out where that is not ambiguous. */
  function PrintVersion(v: Version): string {
    (if v.epoch == 0 && ':' !in v.version && ':' !in v.revision then "" else Decimal(v.epoch) + ":") + PrintUpstream(v)
  }

  /** What can be written and read back: in particular, a hyphen only together with a revision. */
  predicate Valid(v: Version) {
    && v.epoch <= INT_MAX && GoodVersion(v.version) && GoodRevision(v.revision)
    && ('-' in v.version ==> v.revision != "")
  }

  lemma {:induction false} WordAll(s: string)
    requires forall i :: 0 <= i < |s| ==> !IsBlank(s[i])
    ensures Word(s) == |s|
    decreases |s|
  { }

  lemma TrimAll(s: string)
    requires s != "" && forall i :: 0 <= i < |s| ==> !IsBlank(s[i])
    ensures Trim(s) == Some(s)
  {
    WordAll(s);
    assert s[..|s|] == s;
  }

  lemma UpstreamRoundTrip(v: Version)
    requires Valid(v)
    ensures ParseUpstream(v.epoch, PrintUpstream(v)) == Some(v)
    ensures Versionish(PrintUpstream(v))
    ensures PrintUpstream(v) != ""
  {
    hide LastIndex, GoodVersion, GoodRevision, Versionish;
    var u := PrintUpstream(v);
    Characters(v);
    if v.revision == "" {
      assert u == v.version;
      assert LastIndex(u, '-').None?;
    } else {
      LastIndexUnique(v.version, '-', v.revision);
      assert u == v.version + ['-'] + v.revision;
      assert u[..|v.version|] == v.version && u[|v.version| + 1..] == v.revision;
    }
  }

  predicate Versionish(s: string) { forall i :: 0 <= i < |s| ==> VersionChar(s[i]) }

  /** What the two parts consist of, and the text of both. */
  lemma Characters(v: Version)
    requires GoodVersion(v.version) && GoodRevision(v.revision)
    ensures '-' !in v.revision && v.version != ""
    ensures Versionish(PrintUpstream(v))
  {
    assert !RevisionChar('-') && VersionChar('-');
  }

  lemma NoColon(v: Version)
    requires Valid(v) && ':' !in v.version
    ensures ':' !in PrintUpstream(v)
  { }

  predicate Printed(s: string) { s != "" && IsDigit(s[0]) && forall i :: 0 <= i < |s| ==> VersionChar(s[i]) }

  lemma PrintedIsWord(s: string)
    requires Printed(s)
    ensures Trim(s) == Some(s)
  {
    TrimAll(s);
  }

  lemma WithoutEpoch(v: Version, u: string)
    requires v.epoch == 0 && Printed(u) && ':' !in u && ParseUpstream(0, u) == Some(v)
    ensures ParseVersion(u) == Some(v)
  {
    hide ParseUpstream, Trim, StrToL, Printed;
    PrintedIsWord(u);
    assert FirstIndex(u, ':').None?;
  }

  lemma WithEpoch(v: Version, u: string)
    requires v.epoch <= INT_MAX && u != "" && Printed(u) && ParseUpstream(v.epoch, u) == Some(v)
    ensures ParseVersion(Decimal(v.epoch) + ":" + u) == Some(v) && Printed(Decimal(v.epoch) + ":" + u)
  {
    hide ParseUpstream, Trim, StrToL, Decimal, AllDigits, Printed, FirstIndex;
    var d := Decimal(v.epoch);
    var s := d + [':'] + u;
    assert s == d + ":" + u;
    StrToLDecimal(v.epoch);
    DigitsOnly(d);
    PrintedEpoch(d, u);
    FirstIndexUnique(d, ':', u);
    PrintedIsWord(s);
    assert s[..|d|] == d && s[|d| + 1..] == u;
  }

  lemma DigitsOnly(d: string)
    requires AllDigits(d)
    ensures ':' !in d
  { }

  lemma PrintedEpoch(d: string, u: string)
    requires d != "" && AllDigits(d) && Printed(u)
    ensures Printed(d + [':'] + u)
  { }

  /** Round trip; and a printed version is not empty and has neither spaces nor parentheses. */
  lemma VersionRoundTrip(v: Version)
    requires Valid(v)
    ensures ParseVersion(PrintVersion(v)) == Some(v) && Printed(PrintVersion(v))
  {
    hide ParseUpstream, ParseVersion, GoodRevision, Decimal;
    var u := PrintUpstream(v);
    UpstreamRoundTrip(v);
    assert Printed(u) by { assert u[0] == v.version[0]; }
    hide PrintUpstream, Printed;
    if v.epoch == 0 && ':' !in v.version && ':' !in v.revision {
      NoColon(v);
      assert "" + u == u;
      WithoutEpoch(v, u);
    } else {
      WithEpoch(v, u);
    }
  }

  lemma UpstreamValid(epoch: nat, u: string)
    requires epoch <= INT_MAX && ParseUpstream(epoch, u).Some?
    ensures Valid(ParseUpstream(epoch, u).value)
  { }

  /** What is read is valid, so it is written back to a text with the same reading. */
  lemma ParsedIsValid(s: string)
    requires ParseVersion(s).Some?
    ensures Valid(ParseVersion(s).value)
    ensures ParseVersion(PrintVersion(ParseVersion(s).value)) == ParseVersion(s)
  {
    hide StrToL, Trim, ParseUpstream, Valid, PrintVersion;
    var t := Trim(s).value;
    match FirstIndex(t, ':') {
      case None => UpstreamValid(0, t);
      case Some(c) => UpstreamValid(StrToL(t[..c]).value, t[c + 1..]);
    }
    VersionRoundTrip(ParseVersion(s).value);
  }

  // ---- what may stand around a version ----

  predicate Blanks(s: string) { forall i :: 0 <= i < |s| ==> s[i] in {' ', '\t'} }

  predicate NoBlanks(s: string) { forall i :: 0 <= i < |s| ==> s[i] !in {' ', '\t'} }

  ghost predicate Around(s: string, a: string, w: string, b: string) { Blanks(a) && Blanks(b) && s == a + (w + b) }

  /** A version may be surrounded by spaces and tabs, and has none inside. */
  lemma TrimIff(s: string, w: string)
    ensures Trim(s) == Some(w) <==> w != "" && NoBlanks(w) && exists a, b :: Around(s, a, w, b)
  {
    hide Trim, Blanks, NoBlanks;
    if Trim(s) == Some(w) {
      var _, _ := TrimSurrounded(s, w);
    }
    if w != "" && NoBlanks(w) && exists a, b :: Around(s, a, w, b) {
      var a, b :| Around(s, a, w, b);
      TrimOff(a, w, b);
    }
  }

  lemma {:induction false} TrimSurrounded(s: string, w: string) returns (a: string, b: string)
    requires Trim(s) == Some(w)
    ensures w != "" && NoBlanks(w) && Around(s, a, w, b)
    decreases |s|
  {
    if IsBlank(s[0]) {
      a, b := TrimSurrounded(s[1..], w);
      a := [s[0]] + a;
      assert s == a + (w + b);
    } else {
      var n := Word(s);
      a, b := "", s[n..];
      assert s == a + (w + b);
    }
  }

  lemma {:induction false} TrimOff(a: string, w: string, b: string)
    requires Blanks(a) && Blanks(b) && NoBlanks(w) && w != ""
    ensures Trim(a + (w + b)) == Some(w)
    decreases |a|
  {
    var s := a + (w + b);
    if a != "" {
      TrimOff(a[1..], w, b);
      assert s[1..] == a[1..] + (w + b) && s[0] == a[0];
    } else {
      assert s == w + b && s[0] == w[0];
      WordIs(w, b);
      assert s[..|w|] == w;
    }
  }

  lemma {:induction false} WordIs(w: string, b: string)
    requires Blanks(b) && NoBlanks(w)
    ensures Word(w + b) == |w|
    decreases |w|
  {
    if w != "" {
      WordIs(w[1..], b);
      assert (w + b)[1..] == w[1..] + b;
    } else {
      assert w + b == b;
    }
  }

  // ---- what is no version ----

  /** A text with none of the faults below reads as a version; with one of them it does not. */
  lemma FaultsRefused(v: Version)
    ensures v.version == "" || v.epoch > 0x7fff_ffff ==> !Valid(v)
    ensures v.version != "" && !(48 <= v.version[0] as int < 58) ==> !Valid(v)
    ensures (exists i :: 0 <= i < |v.version| && !IsAlpha(v.version[i]) && !IsDigit(v.version[i])
                         && v.version[i] !in {'.', '+', '~', '-', ':'}) ==> !Valid(v)
    ensures (exists i :: 0 <= i < |v.revision| && !IsAlpha(v.revision[i]) && !IsDigit(v.revision[i])
                         && v.revision[i] !in {'.', '+', '~'}) ==> !Valid(v)
  { }

  /** Versions as they are written. */
  lemma WrittenVersions()
    ensures PrintVersion(Version(1, "2.0", "3")) == "1:2.0-3" && PrintVersion(Version(0, "2.0", "")) == "2.0"
    ensures PrintVersion(Version(0, "2:0", "")) == "0:2:0"
  {
    assert Decimal(1) == "1" && Decimal(0) == "0";
    assert "2:0"[1] == ':';
  }
}
