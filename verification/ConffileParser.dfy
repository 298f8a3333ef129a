/**
 `f_conffiles` and `w_conffiles` (lib/dpkg/fields.c, lib/dpkg/dump.c) as they
 work: a cursor over the value, words searched backwards.  Proved against
 Conffiles.
 */
module ConffileParser {
  import opened Text
  import opened Conffiles

  /**
   `conffvalue_lastword` on the entry from `value` to `endent`: the search needs
   no bound of its own, since there is a space just before the entry.
   */
  method FindLastWord(v: string, value: nat, from: nat, endent: nat) returns (r: Option<(string, nat)>)
    requires 0 < value <= from <= endent <= |v| && v[value - 1] == ' '
    ensures r.Some? <==> LastWord(v[value..endent], from - value).Some?
    ensures r.Some? ==> value <= r.value.1 < from && v[r.value.1] == ' '
    ensures r.Some? ==> LastWord(v[value..endent], from - value) == Some((r.value.0, r.value.1 - value))
  {
    if from <= value + 1 {
      return None;
    }
    hide LastWord;
    var lastspc := from - 1;
    while v[lastspc] != ' '
      invariant value - 1 <= lastspc < from
      invariant forall i :: lastspc < i < from ==> v[i] != ' '
      decreases lastspc
    {
      lastspc := lastspc - 1;
    }
    FoundAt(v, value, from, endent, lastspc);
    if lastspc <= value + 1 || lastspc >= endent - 1 {
      return None;
    }
    return Some((v[lastspc + 1..from], lastspc));
  }

  lemma FoundWord(e: string, from: nat, l: int)
    requires 1 < from <= |e| && -1 <= l < from && (l >= 0 ==> e[l] == ' ')
    requires forall i :: 0 <= i < from && i > l ==> e[i] != ' '
    ensures LastWord(e, from) == if l <= 1 || l >= |e| - 1 then None else Some((e[l + 1..from], l))
  { }

  lemma FoundAt(v: string, value: nat, from: nat, endent: nat, l: nat)
    requires 0 < value && value + 1 < from <= endent <= |v| && value - 1 <= l < from && v[l] == ' '
    requires forall i :: l < i < from ==> v[i] != ' '
    ensures var r := LastWord(v[value..endent], from - value);
      if l <= value + 1 || l >= endent - 1 then r.None? else r == Some((v[l + 1..from], l - value))
  {
    hide LastWord;
    var e := v[value..endent];
    forall i | 0 <= i < from - value && i > l - value ensures e[i] != ' ' { assert e[i] == v[value + i]; }
    FoundWord(e, from - value, l - value);
    if l > value + 1 && l < endent - 1 {
      Within(v, value, endent, l + 1 - value, from - value);
    }
  }

  lemma Within(v: string, i: nat, j: nat, x: nat, y: nat)
    requires i <= j <= |v| && x <= y <= j - i
    ensures v[i..j][x..y] == v[i + x..i + y]
  {
    var a, b := v[i..j][x..y], v[i + x..i + y];
    forall k | 0 <= k < |a| ensures a[k] == b[k] { assert v[i..j][x + k] == v[i + x + k]; }
  }

  /** `path_skip_slash_dotslash` on a name that ends at a space, which stops it. */
  method SkipFrom(v: string, p: nat, end: nat) returns (q: nat)
    requires p <= end < |v| && v[end] == ' '
    ensures p <= q <= end && q == p + SkipSlashes(v[p..end])
  {
    q := p;
    while v[q] == '/' || (v[q] == '.' && v[q + 1] == '/')
      invariant p <= q <= end && q + SkipSlashes(v[q..end]) == p + SkipSlashes(v[p..end])
      decreases end - q
    {
      assert v[q..end][1..] == v[q + 1..end];
      q := q + 1;
    }
  }

  /** A flag at the end of what is left of the entry. */
  method TakeFlag(v: string, value: nat, endent: nat, word: string, endfn: nat, keyword: string)
    returns (ok: bool, flag: bool, word': string, endfn': nat)
    requires 0 < value <= endfn < endent <= |v| && v[value - 1] == ' ' && v[endfn] == ' '
    ensures ok <==> ReadFlag(v[value..endent], word, endfn - value, keyword).Some?
    ensures ok ==> value <= endfn' <= endfn && v[endfn'] == ' '
    ensures ok ==> ReadFlag(v[value..endent], word, endfn - value, keyword) == Some((flag, word', endfn' - value))
  {
    hide LastWord;
    ok, flag, word', endfn' := true, false, word, endfn;
    if word == keyword {
      var before := FindLastWord(v, value, endfn, endent);
      if before.None? {
        ok := false;
        return;
      }
      flag := true;
      word', endfn' := before.value.0, before.value.1;
      LastWordBefore(v[value..endent], endfn - value);
    }
  }

  lemma LastWordBefore(e: string, from: nat)
    requires from <= |e| && LastWord(e, from).Some?
    ensures LastWord(e, from).value.1 < from
  { }

  /** One entry, from `value` to `endent`. */
  method ReadEntry(v: string, value: nat, endent: nat) returns (r: Result<Conffile>)
    requires 0 < value <= endent <= |v| && v[value - 1] == ' '
    ensures r == ParseEntry(v[value..endent])
  {
    hide LastWord, ReadFlag, SkipSlashes;
    ghost var e := v[value..endent];
    var last := FindLastWord(v, value, endent, endent);
    if last.None? {
      return Err(Malformed);
    }
    LastWordBefore(e, |e|);
    var ok, remove, word, endfn := TakeFlag(v, value, endent, last.value.0, last.value.1, REMOVE);
    if !ok {
      return Err(Malformed);
    }
    var obsolete;
    ok, obsolete, word, endfn := TakeFlag(v, value, endent, word, endfn, OBSOLETE);
    if !ok {
      return Err(Malformed);
    }
    assert e[..endfn - value] == v[value..endfn];
    var start := SkipFrom(v, value, endfn);
    if endfn - start <= 0 {
      return Err(EmptyName);
    }
    assert v[value..endfn][start - value..] == v[start..endfn];
    r := Ok(Conffile("/" + v[start..endfn], word, obsolete, remove));
  }

  method FindLineEnd(v: string, p: nat) returns (q: nat)
    requires p <= |v|
    ensures p <= q <= |v| && q == p + LineEnd(v[p..])
  {
    q := p;
    while q < |v| && v[q] != '\n'
      invariant p <= q <= |v| && forall i :: p <= i < q ==> v[i] != '\n'
    {
      q := q + 1;
    }
    var s := v[p..];
    assert s == s[..q - p] + s[q - p..];
    LineEndAt(s[..q - p], s[q - p..]);
  }

  ghost function After(done: seq<Conffile>, r: Result<seq<Conffile>>): Result<seq<Conffile>> {
    match r
    case Err(e) => Err(e)
    case Ok(more) => Ok(done + more)
  }

  lemma AfterOne(done: seq<Conffile>, c: Conffile, r: Result<seq<Conffile>>)
    ensures After(done, After([c], r)) == After(done + [c], r)
    ensures After([], r) == r && After(done, Ok([])) == Ok(done)
  {
    if r.Ok? {
      assert done + ([c] + r.value) == done + [c] + r.value;
      assert [] + r.value == r.value;
    }
    assert done + [] == done;
  }

  lemma ValueUnfolds(v: string, p: nat)
    requires p <= |v|
    ensures p == |v| ==> ParseValue(v[p..]) == Ok([])
    ensures p < |v| && v[p] == '\n' ==> ParseValue(v[p..]) == ParseValue(v[p + 1..])
    ensures p < |v| && v[p] != '\n' && v[p] != ' ' ==> ParseValue(v[p..]) == Err(NotSpace)
    ensures p < |v| && v[p] == ' ' ==>
      var n := p + 1 + LineEnd(v[p + 1..]);
      ParseValue(v[p..]) == match ParseEntry(v[p + 1..n]) case Err(e) => Err(e) case Ok(c) => After([c], ParseValue(v[n..]))
  {
    hide ParseEntry, LineEnd;
    if p < |v| {
      assert v[p..][1..] == v[p + 1..];
      var k := LineEnd(v[p + 1..]);
      assert v[p + 1..][..k] == v[p + 1..p + 1 + k] && v[p + 1..][k..] == v[p + 1 + k..];
    }
  }

  /** `f_conffiles`. */
  method ReadValue(v: string) returns (r: Result<seq<Conffile>>)
    ensures r == ParseValue(v)
  {
    hide ParseEntry, ParseValue, LineEnd, After;
    var list: seq<Conffile> := [];
    var value := 0;
    assert v[0..] == v;
    AfterOne(list, Conffile("", "", false, false), ParseValue(v));
    while value < |v|
      invariant 0 <= value <= |v| && After(list, ParseValue(v[value..])) == ParseValue(v)
    {
      ValueUnfolds(v, value);
      var c := v[value];
      if c == '\n' {
        value := value + 1;
        continue;
      }
      if c != ' ' {
        AfterError(list, NotSpace);
        return Err(NotSpace);
      }
      var endent := FindLineEnd(v, value + 1);
      var entry := ReadEntry(v, value + 1, endent);
      if entry.Err? {
        AfterError(list, entry.error);
        return Err(entry.error);
      }
      AfterOne(list, entry.value, ParseValue(v[endent..]));
      list := list + [entry.value];
      value := endent;
    }
    ValueUnfolds(v, value);
    AfterOne(list, Conffile("", "", false, false), Ok([]));
    r := Ok(list);
  }

  lemma AfterError(done: seq<Conffile>, e: Error)
    ensures After(done, Err(e)) == Err(e)
  { }

  method WriteEntry(buf: string, c: Conffile) returns (text: string)
    ensures text == buf + (" " + PrintEntry(c))
  {
    text := buf + " " + c.name;
    ghost var n := text;
    text := text + " " + c.hash;
    ghost var h := text;
    text := text + Flag(c.obsolete, OBSOLETE);
    text := text + Flag(c.removeOnUpgrade, REMOVE);
    hide Flag;
    Flags(h, Flag(c.obsolete, OBSOLETE), Flag(c.removeOnUpgrade, REMOVE));
    Flags(n, " " + c.hash, Flag(c.obsolete, OBSOLETE) + Flag(c.removeOnUpgrade, REMOVE));
    Flags(buf, " " + c.name, " " + c.hash + (Flag(c.obsolete, OBSOLETE) + Flag(c.removeOnUpgrade, REMOVE)));
    Spaced(c.name, c.hash, Flag(c.obsolete, OBSOLETE) + Flag(c.removeOnUpgrade, REMOVE));
  }

  lemma Flags(a: string, b: string, c: string)
    ensures a + b + c == a + (b + c)
  { }

  lemma Spaced(name: string, hash: string, flags: string)
    ensures " " + name + (" " + hash + flags) == " " + (name + (" " + (hash + flags)))
  { }

  /** `w_conffiles`, without the header. */
  method WriteValue(cs: seq<Conffile>) returns (text: string)
    ensures text == PrintValue(cs)
  {
    hide PrintValue, PrintEntry;
    text := "";
    var i := 0;
    Ends();
    while i < |cs|
      invariant 0 <= i <= |cs| && text == PrintValue(cs[..i])
    {
      ValueSnoc(cs[..i], cs[i]);
      assert cs[..i] + [cs[i]] == cs[..i + 1];
      if i != 0 {
        text := text + "\n";
      }
      text := WriteEntry(text, cs[i]);
      i := i + 1;
    }
    assert cs[..i] == cs;
  }

  lemma {:induction false} ValueSnoc(cs: seq<Conffile>, c: Conffile)
    ensures PrintValue(cs + [c]) == PrintValue(cs) + ((if cs == [] then "" else "\n") + (" " + PrintEntry(c)))
    decreases |cs|
  {
    hide PrintEntry;
    if cs != [] {
      assert (cs + [c])[1..] == cs[1..] + [c];
      ValueSnoc(cs[1..], c);
    }
  }

  /** Writing the field and reading it back. */
  method WriteThenRead(cs: seq<Conffile>) returns (r: Result<seq<Conffile>>)
    requires forall i :: 0 <= i < |cs| ==> NormalName(cs[i].name) && OneWord(cs[i].hash) && Readable(cs[i])
    ensures r == Ok(cs)
  {
    hide NormalName, OneWord, Readable, ParseValue, PrintValue;
    var text := WriteValue(cs);
    r := ReadValue(text);
    ValueRoundTrip(cs);
  }
}
