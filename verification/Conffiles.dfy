/**
 The Conffiles field (lib/dpkg/fields.c `f_conffiles`, lib/dpkg/dump.c
 `w_conffiles`).  A line holds a name that may contain spaces, a hash, and flags;
 it is read backwards from its end.
 */
module Conffiles {
  import opened Text

  datatype Conffile = Conffile(name: string, hash: string, obsolete: bool, removeOnUpgrade: bool)

  datatype Error = NotSpace | Malformed | EmptyName

  datatype Result<+T> = Ok(value: T) | Err(error: Error)

  const OBSOLETE: string := "obsolete"
  const REMOVE: string := "remove-on-upgrade"

  // ---- reading ----

  /** `conffvalue_lastword`: the last word before `from`, and where the space before it is. */
  function LastWord(e: string, from: nat): (r: Option<(string, nat)>)
    requires from <= |e|
    ensures r.Some? ==> 1 < r.value.1 < from && e[r.value.1] == ' ' && r.value.1 < |e| - 1
  {
    if from <= 1 then None
    else
      match LastIndex(e[..from], ' ')
      case None => None
      case Some(l) => if l <= 1 || l >= |e| - 1 then None else Some((e[l + 1..from], l))
  }

  /** `path_skip_slash_dotslash`. */
  function SkipSlashes(s: string): (n: nat)
    ensures n <= |s|
  {
    if s != "" && (s[0] == '/' || (|s| > 1 && s[0] == '.' && s[1] == '/')) then 1 + SkipSlashes(s[1..]) else 0
  }

  /** If the last word is the keyword, that flag and the word before it. */
  function ReadFlag(e: string, word: string, end: nat, keyword: string): (r: Option<(bool, string, nat)>)
    requires end <= |e|
    ensures r.Some? ==> r.value.2 <= end
  {
    if word != keyword then Some((false, word, end))
    else
      match LastWord(e, end)
      case None => None
      case Some((w, l)) => Some((true, w, l))
  }

  /** The name: what is left, from the root. */
  function Named(s: string, hash: string, obsolete: bool, remove: bool): Result<Conffile> {
    var k := SkipSlashes(s);
    if k == |s| then Err(EmptyName) else Ok(Conffile("/" + s[k..], hash, obsolete, remove))
  }

  /** One line, without the space it starts with. */
  function ParseEntry(e: string): Result<Conffile> {
    match LastWord(e, |e|)
    case None => Err(Malformed)
    case Some((w0, l0)) =>
      match ReadFlag(e, w0, l0, REMOVE)
      case None => Err(Malformed)
      case Some((remove, w1, l1)) =>
        match ReadFlag(e, w1, l1, OBSOLETE)
        case None => Err(Malformed)
        case Some((obsolete, hash, end)) => Named(e[..end], hash, obsolete, remove)
  }

  function LineEnd(s: string): (n: nat)
    ensures n <= |s|
    ensures '\n' !in s[..n]
    ensures n < |s| ==> s[n] == '\n'
  {
    match FirstIndex(s, '\n')
    case None => assert s[..|s|] == s; |s|
    case Some(i) => i
  }

  /** `f_conffiles`. */
  function ParseValue(v: string): Result<seq<Conffile>>
    decreases |v|
  {
    if v == "" then Ok([])
    else if v[0] == '\n' then ParseValue(v[1..])
    else if v[0] != ' ' then Err(NotSpace)
    else
      var n := LineEnd(v[1..]);
      match ParseEntry(v[1..][..n])
      case Err(e) => Err(e)
      case Ok(c) =>
        match ParseValue(v[1..][n..])
        case Err(e) => Err(e)
        case Ok(more) => Ok([c] + more)
  }

  // ---- writing ----

  function Flag(set_: bool, keyword: string): string { if set_ then " " + keyword else "" }

  function PrintEntry(c: Conffile): string {
    c.name + (" " + (c.hash + (Flag(c.obsolete, OBSOLETE) + Flag(c.removeOnUpgrade, REMOVE))))
  }

  /** `w_conffiles`, without the header. */
  function PrintValue(cs: seq<Conffile>): string {
    if cs == [] then "" else " " + (PrintEntry(cs[0]) + if |cs| == 1 then "" else "\n" + PrintValue(cs[1..]))
  }

  // ---- what can be read back ----

  /** An absolute path without superfluous leading parts. */
  predicate NormalName(s: string) {
    |s| > 1 && s[0] == '/' && '\n' !in s && SkipSlashes(s[1..]) == 0
  }

  predicate OneWord(s: string) { ' ' !in s && '\n' !in s }

  /** A hash that cannot be taken for a flag, and is not lost at the end of the line. */
  predicate Readable(c: Conffile) {
    && (c.hash == OBSOLETE ==> c.obsolete)
    && (c.hash == REMOVE ==> c.obsolete || c.removeOnUpgrade)
    && (c.hash == "" ==> c.obsolete || c.removeOnUpgrade)
  }

  // ---- round trip of a line ----

  lemma LastWordAt(head: string, word: string, tail: string)
    requires ' ' !in word && |head| > 1 && (word + tail != "")
    ensures LastWord(head + (" " + (word + tail)), |head| + 1 + |word|) == Some((word, |head|))
  {
    var e := head + (" " + (word + tail));
    var from := |head| + 1 + |word|;
    assert e[..from] == head + [' '] + word;
    LastIndexUnique(head, ' ', word);
    assert e[|head| + 1..from] == word;
  }

  lemma NoWordAtEnd(head: string)
    ensures LastWord(head + " ", |head| + 1).None?
  { }

  lemma NamedIs(name: string, hash: string, o: bool, r: bool)
    requires NormalName(name)
    ensures Named(name, hash, o, r) == Ok(Conffile(name, hash, o, r))
  {
    assert name[1..] == name[1..][0..];
    assert "/" + name[1..] == name;
  }

  /** A hash followed by another word: both are found. */
  lemma TwoWords(name: string, hash: string, word: string, tail: string)
    requires |name| > 1 && ' ' !in hash && ' ' !in word && word != ""
    ensures var e := name + (" " + (hash + (" " + (word + tail))));
      var at := |name| + 1 + |hash|;
      && LastWord(e, at + 1 + |word|) == Some((word, at))
      && LastWord(e, at) == Some((hash, |name|))
      && e[..|name|] == name
      && (tail == "" ==> |e| == at + 1 + |word|)
  {
    hide LastWord;
    var head := name + (" " + hash);
    Regroup(name, hash, word + tail);
    LastWordAt(head, word, tail);
    LastWordAt(name, hash, " " + (word + tail));
  }

  lemma Regroup(name: string, hash: string, rest: string)
    ensures name + (" " + (hash + (" " + rest))) == name + (" " + hash) + (" " + rest)
  { }

  lemma NoSpaces()
    ensures ' ' !in OBSOLETE && ' ' !in REMOVE && OBSOLETE != REMOVE && |OBSOLETE| == 8 && |REMOVE| == 17
    ensures '\n' !in OBSOLETE && '\n' !in REMOVE
  { }

  /** No flag: the hash is the last word, and must not look like a flag or be empty. */
  lemma PlainLine(c: Conffile)
    requires NormalName(c.name) && OneWord(c.hash) && !c.obsolete && !c.removeOnUpgrade
    ensures ParseEntry(c.name + (" " + c.hash)) == Ok(c) <==> c.hash != "" && c.hash != OBSOLETE && c.hash != REMOVE
  {
    hide *;
    var e := c.name + (" " + c.hash);
    NormalLong(c.name);
    if c.hash == "" {
      assert e == c.name + " ";
      NoWordAtEnd(c.name);
      NoLastWord(e);
    } else {
      assert c.hash + "" == c.hash && e[..|c.name|] == c.name;
      LastWordAt(c.name, c.hash, "") by { assert ' ' !in c.hash by { WordsOnly(c.hash); } }
      LastDecides(e, c.hash, |c.name|);
      NamedIs(c.name, c.hash, false, false);
    }
  }

  lemma WordsOnly(s: string)
    requires OneWord(s)
    ensures ' ' !in s
  { }

  lemma NoLastWord(e: string)
    requires LastWord(e, |e|).None?
    ensures ParseEntry(e) == Err(Malformed)
  { }

  /** The last word of a line is a flag if it looks like one, and otherwise the hash. */
  lemma LastDecides(e: string, w: string, l: nat)
    requires LastWord(e, |e|) == Some((w, l)) && l <= |e|
    ensures ParseEntry(e).Ok? && w == REMOVE ==> ParseEntry(e).value.removeOnUpgrade
    ensures ParseEntry(e).Ok? && w == OBSOLETE ==> ParseEntry(e).value.obsolete
    ensures w != REMOVE && w != OBSOLETE ==> ParseEntry(e) == Named(e[..l], w, false, false)
  {
    NoSpaces();
    hide LastWord, SkipSlashes;
  }

  /** A hash that is the word "obsolete" and no flag: the line written is refused. */
  lemma KeywordHashRefused()
    ensures var c := Conffile("/a", OBSOLETE, false, false);
      NormalName(c.name) && OneWord(c.hash) && PrintEntry(c) == "/a obsolete" && ParseEntry(PrintEntry(c)).Err?
  {
    var c := Conffile("/a", OBSOLETE, false, false);
    var e := "/a obsolete";
    NoSpaces();
    assert SkipSlashes("a") == 0 && c.name[1..] == "a";
    assert PrintEntry(c) == e;
    LastWordAt("/a", OBSOLETE, "");
    assert "/a" + (" " + (OBSOLETE + "")) == e;
    assert e[..2] == "/a";
    assert LastIndex(e[..2], ' ').None? by { assert ' ' !in e[..2]; }
    hide SkipSlashes, Named;
  }

  lemma NormalLong(s: string)
    requires NormalName(s)
    ensures |s| > 1
  { }

  lemma ObsoleteLine(c: Conffile)
    requires NormalName(c.name) && OneWord(c.hash) && c.obsolete && !c.removeOnUpgrade
    ensures ParseEntry(c.name + (" " + (c.hash + (" " + (OBSOLETE + ""))))) == Ok(c)
  {
    hide LastWord, NormalName, SkipSlashes, Named;
    NormalLong(c.name);
    NoSpaces();
    TwoWords(c.name, c.hash, OBSOLETE, "");
    NamedIs(c.name, c.hash, true, false);
  }

  lemma RemoveLine(c: Conffile)
    requires NormalName(c.name) && OneWord(c.hash) && !c.obsolete && c.removeOnUpgrade
    ensures ParseEntry(c.name + (" " + (c.hash + (" " + (REMOVE + ""))))) == Ok(c) <==> c.hash != OBSOLETE
  {
    hide LastWord, NormalName, SkipSlashes;
    NormalLong(c.name);
    NoSpaces();
    TwoWords(c.name, c.hash, REMOVE, "");
    NamedIs(c.name, c.hash, false, true);
  }

  lemma BothLine(c: Conffile)
    requires NormalName(c.name) && OneWord(c.hash) && c.obsolete && c.removeOnUpgrade
    ensures ParseEntry(c.name + (" " + (c.hash + (" " + (OBSOLETE + (" " + REMOVE)))))) == Ok(c)
  {
    hide LastWord, NormalName, SkipSlashes, Named;
    NormalLong(c.name);
    NoSpaces();
    TwoWords(c.name, c.hash, OBSOLETE, " " + REMOVE);
    LastFlag(c.name + (" " + (c.hash + (" " + OBSOLETE))), c);
    NamedIs(c.name, c.hash, true, true);
  }

  lemma LastFlag(head: string, c: Conffile)
    requires head == c.name + (" " + (c.hash + (" " + OBSOLETE))) && |c.name| > 1
    ensures var e := c.name + (" " + (c.hash + (" " + (OBSOLETE + (" " + REMOVE)))));
      LastWord(e, |e|) == Some((REMOVE, |c.name| + 1 + |c.hash| + 1 + |OBSOLETE|))
  {
    NoSpaces();
    var e := c.name + (" " + (c.hash + (" " + (OBSOLETE + (" " + REMOVE)))));
    assert e == head + (" " + (REMOVE + ""));
    hide LastWord;
    LastWordAt(head, REMOVE, "");
  }

  /** A line is read back as it was written exactly if its hash is readable. */
  lemma EntryRoundTripIff(c: Conffile)
    requires NormalName(c.name) && OneWord(c.hash)
    ensures ParseEntry(PrintEntry(c)) == Ok(c) <==> Readable(c)
  {
    hide ParseEntry, NormalName, OneWord;
    NoSpaces();
    var f := " " + OBSOLETE;
    if c.obsolete && c.removeOnUpgrade {
      assert Flag(true, OBSOLETE) + Flag(true, REMOVE) == " " + (OBSOLETE + (" " + REMOVE));
      BothLine(c);
    } else if c.obsolete {
      assert Flag(true, OBSOLETE) + "" == " " + (OBSOLETE + "");
      ObsoleteLine(c);
    } else if c.removeOnUpgrade {
      assert "" + Flag(true, REMOVE) == " " + (REMOVE + "");
      RemoveLine(c);
    } else {
      assert c.hash + ("" + "") == c.hash;
      PlainLine(c);
    }
  }

  // ---- round trip of the field ----

  lemma PrintedLine(c: Conffile)
    requires NormalName(c.name) && OneWord(c.hash)
    ensures '\n' !in PrintEntry(c)
  { }

  lemma LineEndAt(line: string, rest: string)
    requires '\n' !in line && (rest != "" ==> rest[0] == '\n')
    ensures LineEnd(line + rest) == |line|
  {
    if rest == "" {
      assert line + rest == line;
      assert FirstIndex(line, '\n').None?;
    } else {
      assert line + rest == line + ['\n'] + rest[1..];
      FirstIndexUnique(line, '\n', rest[1..]);
    }
  }

  /** One line of the value, then the rest. */
  lemma ValueStep(line: string, rest: string)
    requires '\n' !in line && (rest != "" ==> rest[0] == '\n')
    ensures ParseValue(" " + (line + rest))
         == match ParseEntry(line)
            case Err(e) => Err(e)
            case Ok(c) => match ParseValue(rest) case Err(e) => Err(e) case Ok(more) => Ok([c] + more)
  {
    hide ParseEntry, LineEnd;
    var v := " " + (line + rest);
    assert v[1..] == line + rest;
    LineEndAt(line, rest);
    assert (line + rest)[..|line|] == line && (line + rest)[|line|..] == rest;
  }

  /** Every list of conffiles that can be read back is. */
  lemma {:induction false} ValueRoundTrip(cs: seq<Conffile>)
    requires forall i :: 0 <= i < |cs| ==> NormalName(cs[i].name) && OneWord(cs[i].hash) && Readable(cs[i])
    ensures ParseValue(PrintValue(cs)) == Ok(cs)
    decreases |cs|
  {
    hide *;
    Ends();
    if cs != [] {
      var line := PrintEntry(cs[0]);
      var rest := if |cs| == 1 then "" else "\n" + PrintValue(cs[1..]);
      PrintedLine(cs[0]);
      EntryRoundTripIff(cs[0]);
      ValueRoundTrip(cs[1..]);
      NextLine(PrintValue(cs[1..]));
      Lines(cs);
      ValueStep(line, rest);
      assert cs == [cs[0]] + cs[1..];
    }
  }

  lemma Ends()
    ensures ParseValue("") == Ok([]) && PrintValue([]) == ""
  { }

  lemma NextLine(s: string)
    ensures ParseValue("\n" + s) == ParseValue(s)
  { }

  lemma Lines(cs: seq<Conffile>)
    requires cs != []
    ensures var line := PrintEntry(cs[0]);
      PrintValue(cs) == " " + (line + if |cs| == 1 then "" else "\n" + PrintValue(cs[1..]))
  { }

  // ---- whatever is read can be read back ----

  lemma {:induction false} SkipDone(s: string)
    ensures SkipSlashes(s) < |s| ==> SkipSlashes(s[SkipSlashes(s)..]) == 0
    decreases |s|
  {
    if s != "" && (s[0] == '/' || (|s| > 1 && s[0] == '.' && s[1] == '/')) {
      SkipDone(s[1..]);
      assert s[SkipSlashes(s)..] == s[1..][SkipSlashes(s[1..])..];
    }
  }

  lemma NamedNormal(s: string, hash: string, o: bool, r: bool)
    requires Named(s, hash, o, r).Ok? && '\n' !in s
    ensures NormalName(Named(s, hash, o, r).value.name)
  {
    SkipDone(s);
    var t := s[SkipSlashes(s)..];
    assert ("/" + t)[1..] == t;
  }

  lemma LastWordIsWord(e: string, from: nat)
    requires from <= |e| && '\n' !in e && LastWord(e, from).Some?
    ensures OneWord(LastWord(e, from).value.0)
    ensures from == |e| ==> LastWord(e, from).value.0 != ""
  { }

  lemma EntryReadable(e: string)
    requires '\n' !in e && ParseEntry(e).Ok?
    ensures var c := ParseEntry(e).value; NormalName(c.name) && OneWord(c.hash) && Readable(c)
  {
    NoSpaces();
    var (w0, l0) := LastWord(e, |e|).value;
    LastWordIsWord(e, |e|);
    if LastWord(e, l0).Some? { LastWordIsWord(e, l0); }
    var (remove, w1, l1) := ReadFlag(e, w0, l0, REMOVE).value;
    if LastWord(e, l1).Some? { LastWordIsWord(e, l1); }
    hide LastWord, OneWord;
    var (obsolete, hash, end) := ReadFlag(e, w1, l1, OBSOLETE).value;
    assert forall c :: c in e[..end] ==> c in e;
    NamedNormal(e[..end], hash, obsolete, remove);
    hide NormalName, SkipSlashes;
  }

  lemma {:induction false} ValueReadable(v: string)
    requires ParseValue(v).Ok?
    ensures var cs := ParseValue(v).value;
      forall i :: 0 <= i < |cs| ==> NormalName(cs[i].name) && OneWord(cs[i].hash) && Readable(cs[i])
    decreases |v|
  {
    hide ParseEntry, NormalName, OneWord, Readable, LineEnd;
    if v != "" {
      if v[0] == '\n' {
        ValueReadable(v[1..]);
      } else {
        var n := LineEnd(v[1..]);
        EntryReadable(v[1..][..n]);
        ValueReadable(v[1..][n..]);
      }
    }
  }

  /** Any value that is accepted is written back to a text with the same reading. */
  lemma Reread(v: string)
    requires ParseValue(v).Ok?
    ensures ParseValue(PrintValue(ParseValue(v).value)) == ParseValue(v)
  {
    hide ParseValue, PrintValue, NormalName, OneWord, Readable;
    ValueReadable(v);
    ValueRoundTrip(ParseValue(v).value);
  }

  /** The lines as they are written: the obsolete flag comes first, and lines are separated, not ended, by newlines. */
  lemma WrittenLine(name: string, hash: string)
    ensures PrintEntry(Conffile(name, hash, false, false)) == name + (" " + hash)
    ensures PrintEntry(Conffile(name, hash, true, false)) == name + (" " + (hash + " obsolete"))
    ensures PrintEntry(Conffile(name, hash, false, true)) == name + (" " + (hash + " remove-on-upgrade"))
    ensures PrintEntry(Conffile(name, hash, true, true)) == name + (" " + (hash + (" obsolete" + " remove-on-upgrade")))
  {
    assert Flag(true, OBSOLETE) == " obsolete" && Flag(true, REMOVE) == " remove-on-upgrade";
    assert hash + ("" + "") == hash && hash + (" obsolete" + "") == hash + " obsolete";
    assert hash + ("" + " remove-on-upgrade") == hash + " remove-on-upgrade";
  }

  lemma WrittenLines(x: Conffile, y: Conffile)
    ensures PrintValue([x, y]) == " " + (PrintEntry(x) + ("\n" + (" " + PrintEntry(y))))
  {
    hide PrintEntry;
    assert [x, y][1..] == [y] && PrintEntry(y) + "" == PrintEntry(y);
    assert PrintValue([y]) == " " + PrintEntry(y);
  }

  predicate Skippable(s: string, i: nat)
    requires i < |s|
  {
    s[i] == '/' || (s[i] == '.' && i + 1 < |s| && s[i + 1] == '/')
  }

  /** What is skipped in front of a name: slashes, and full stops that a slash follows; nothing of that is left in front. */
  lemma {:induction false} SkippedIs(s: string)
    ensures forall i :: 0 <= i < SkipSlashes(s) ==> Skippable(s, i)
    ensures SkipSlashes(s) < |s| ==> !Skippable(s, SkipSlashes(s))
    decreases |s|
  {
    if s != "" && Skippable(s, 0) {
      var rest := s[1..];
      SkippedIs(rest);
      assert SkipSlashes(s) == 1 + SkipSlashes(rest);
      assert forall j :: 0 <= j < |rest| ==> rest[j] == s[j + 1];
      forall i | 0 <= i < SkipSlashes(s) ensures Skippable(s, i) {
        if i > 0 { assert Skippable(rest, i - 1); }
      }
    }
  }
}
