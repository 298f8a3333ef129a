/**
 Writing and reading the administrative file of a link group line by line
 (utils/update-alternatives.c, `alternative_save` and `alternative_load`),
 against the functions of AltDb.
 */
module AltDbFile {
  import opened Text
  import opened Alternatives
  import opened AltDb

  // ---- saving ----

  method FindUse(sl: SlaveLink, choices: seq<Fileset>) returns (used: bool)
    ensures used <==> Used(sl, choices)
  {
    hide HasSlave;
    used := false;
    var k := 0;
    while k < |choices| && !used
      invariant 0 <= k <= |choices|
      invariant used <==> exists j :: 0 <= j < k && HasSlave(choices[j], sl.name)
    {
      used := HasSlave(choices[k], sl.name);
      k := k + 1;
    }
  }

  /** The first loops of `alternative_save`: slaves that no choice has are dropped. */
  method DropUnused(slaves: seq<SlaveLink>, choices: seq<Fileset>) returns (kept: seq<SlaveLink>)
    ensures kept == UsedSlaves(slaves, choices)
  {
    hide *;
    kept := [];
    var i := 0;
    UsedStart(slaves, choices);
    while i < |slaves|
      invariant 0 <= i <= |slaves|
      invariant kept + UsedSlaves(slaves[i..], choices) == UsedSlaves(slaves, choices)
    {
      UsedStep(slaves, choices, kept, i);
      var used := FindUse(slaves[i], choices);
      if used {
        kept := kept + [slaves[i]];
      }
      i := i + 1;
    }
    UsedStep(slaves, choices, kept, i);
  }

  lemma UsedStart(slaves: seq<SlaveLink>, choices: seq<Fileset>)
    ensures [] + UsedSlaves(slaves[0..], choices) == UsedSlaves(slaves, choices)
  { }

  lemma UsedStep(slaves: seq<SlaveLink>, choices: seq<Fileset>, kept: seq<SlaveLink>, i: nat)
    requires i <= |slaves|
    ensures i == |slaves| ==> kept + UsedSlaves(slaves[i..], choices) == kept
    ensures i < |slaves| ==>
      kept + UsedSlaves(slaves[i..], choices)
      == (if Used(slaves[i], choices) then kept + [slaves[i]] else kept) + UsedSlaves(slaves[i + 1..], choices)
  { }

  predicate Plainly(s: string) { '\n' !in s }

  predicate WritableSlaves(slaves: seq<SlaveLink>) { forall sl :: sl in slaves ==> Plainly(sl.name) && Plainly(sl.link) }

  predicate WritableFiles(f: Fileset, slaves: seq<SlaveLink>) { forall sl :: sl in slaves ==> Plainly(FileFor(f, sl.name)) }

  predicate WritableChoice(f: Fileset, slaves: seq<SlaveLink>) { Plainly(f.masterFile) && WritableFiles(f, slaves) }

  /** No line of the file would contain a newline. */
  predicate Writable(a: Group) {
    Plainly(a.masterLink) && WritableSlaves(a.slaves) && forall f :: f in a.choices ==> WritableChoice(f, a.slaves)
  }

  /** `altdb_print_line`. */
  method WriteLine(text: string, s: string) returns (r: Result<string>)
    ensures r == if Plainly(s) then Ok(text + Line(s)) else Err(Newline)
  {
    r := if Plainly(s) then Ok(text + Line(s)) else Err(Newline);
  }

  method WriteSlaves(start: string, slaves: seq<SlaveLink>) returns (r: Result<string>)
    ensures r == if WritableSlaves(slaves) then Ok(start + PrintSlaves(slaves)) else Err(Newline)
  {
    hide Line, Plainly;
    var text := start;
    var i := 0;
    assert slaves[0..] == slaves;
    while i < |slaves|
      invariant 0 <= i <= |slaves|
      invariant forall k :: 0 <= k < i ==> Plainly(slaves[k].name) && Plainly(slaves[k].link)
      invariant text + PrintSlaves(slaves[i..]) == start + PrintSlaves(slaves)
    {
      assert slaves[i..][1..] == slaves[i + 1..] && slaves[i] in slaves;
      var line := WriteLine(text, slaves[i].name);
      if line.Err? {
        return line;
      }
      line := WriteLine(line.value, slaves[i].link);
      if line.Err? {
        return line;
      }
      assert text + (Line(slaves[i].name) + (Line(slaves[i].link) + PrintSlaves(slaves[i + 1..])))
          == line.value + PrintSlaves(slaves[i + 1..]);
      text := line.value;
      i := i + 1;
    }
    assert text + PrintSlaves(slaves[i..]) == text;
    r := Ok(text);
  }

  method WriteFiles(start: string, f: Fileset, slaves: seq<SlaveLink>) returns (r: Result<string>)
    ensures r == if WritableFiles(f, slaves) then Ok(start + PrintFiles(f, slaves)) else Err(Newline)
  {
    hide Line, FileFor, Plainly;
    var text := start;
    var i := 0;
    assert slaves[0..] == slaves;
    while i < |slaves|
      invariant 0 <= i <= |slaves|
      invariant forall k :: 0 <= k < i ==> Plainly(FileFor(f, slaves[k].name))
      invariant text + PrintFiles(f, slaves[i..]) == start + PrintFiles(f, slaves)
    {
      assert slaves[i..][1..] == slaves[i + 1..] && slaves[i] in slaves;
      var line := WriteLine(text, FileFor(f, slaves[i].name));
      if line.Err? {
        return line;
      }
      assert text + (Line(FileFor(f, slaves[i].name)) + PrintFiles(f, slaves[i + 1..])) == line.value + PrintFiles(f, slaves[i + 1..]);
      text := line.value;
      i := i + 1;
    }
    assert text + PrintFiles(f, slaves[i..]) == text;
    r := Ok(text);
  }

  method WriteChoice(start: string, f: Fileset, slaves: seq<SlaveLink>) returns (r: Result<string>)
    ensures r == if WritableChoice(f, slaves)
                 then Ok(start + (Line(f.masterFile) + (Line(PrintInt(f.priority)) + PrintFiles(f, slaves))))
                 else Err(Newline)
  {
    hide Line, PrintInt, WritableFiles, PrintFiles, Plainly;
    IntIsPlain(f.priority);
    r := WriteLine(start, f.masterFile);
    if r.Err? {
      return;
    }
    r := WriteLine(r.value, PrintInt(f.priority));
    r := WriteFiles(r.value, f, slaves);
    assert r.Ok? ==> r.value == start + (Line(f.masterFile) + (Line(PrintInt(f.priority)) + PrintFiles(f, slaves)));
  }

  lemma IntIsPlain(n: int)
    ensures Plainly(PrintInt(n))
  { }

  method WriteChoices(start: string, choices: seq<Fileset>, slaves: seq<SlaveLink>) returns (r: Result<string>)
    ensures r == if forall f :: f in choices ==> WritableChoice(f, slaves) then Ok(start + PrintChoices(choices, slaves)) else Err(Newline)
  {
    hide Line, PrintFiles, PrintInt, WritableChoice;
    var text := start;
    var i := 0;
    assert choices[0..] == choices;
    while i < |choices|
      invariant 0 <= i <= |choices|
      invariant forall k :: 0 <= k < i ==> WritableChoice(choices[k], slaves)
      invariant text + PrintChoices(choices[i..], slaves) == start + PrintChoices(choices, slaves)
    {
      var f := choices[i];
      assert choices[i..][1..] == choices[i + 1..] && f in choices;
      var one := WriteChoice(text, f, slaves);
      if one.Err? {
        return one;
      }
      assert text + (Line(f.masterFile) + (Line(PrintInt(f.priority)) + (PrintFiles(f, slaves) + PrintChoices(choices[i + 1..], slaves))))
          == one.value + PrintChoices(choices[i + 1..], slaves);
      text := one.value;
      i := i + 1;
    }
    assert text + PrintChoices(choices[i..], slaves) == text;
    r := Ok(text);
  }

  /** `alternative_save`: the group as it is left, and the text written. */
  method Save(a: Group) returns (saved: Group, text: Result<string>)
    ensures saved == Saved(a)
    ensures text == if Writable(saved) then Ok(Print(saved)) else Err(Newline)
  {
    hide UsedSlaves, SortBy, PrintSlaves, PrintChoices, Line, WritableSlaves, WritableChoice, Plainly;
    var kept := DropUnused(a.slaves, a.choices);
    saved := a.(slaves := SortBy(kept, SlaveKey()), choices := SortBy(a.choices, ChoiceKey()));
    FixedLines(saved.status);
    text := WriteLine("", StatusLine(saved.status));
    ghost var t0 := text.value;
    text := WriteLine(text.value, saved.masterLink);
    if text.Err? {
      return;
    }
    text := WriteSlaves(text.value, saved.slaves);
    if text.Err? {
      return;
    }
    text := WriteLine(text.value, "");
    text := WriteChoices(text.value, saved.choices, saved.slaves);
    if text.Err? {
      return;
    }
    text := WriteLine(text.value, "");
    assert text.value == Print(saved);
  }

  lemma FixedLines(m: Mode)
    ensures Plainly(StatusLine(m)) && Plainly("")
  { }

  // ---- loading ----

  /** The loop over `alternative_parse_slave`. */
  method ReadSlaves(text: string, master: string) returns (r: Result<(seq<SlaveLink>, string)>)
    ensures r == ParseSlaves(text, master, [])
  {
    hide GetLine, HasName, HasLink;
    var rest := text;
    var slaves := [];
    while true
      invariant ParseSlaves(rest, master, slaves) == ParseSlaves(text, master, [])
      decreases |rest|
    {
      var line := GetLine(rest);
      if line.Err? {
        return Err(line.error);
      }
      var (name, next) := line.value;
      if name == "" {
        return Ok((slaves, next));
      }
      if HasName(slaves, name) {
        return Err(DuplicateName);
      }
      line := GetLine(next);
      if line.Err? {
        return Err(line.error);
      }
      var (link, after) := line.value;
      if link == master {
        return Err(LinkIsMaster);
      }
      if HasLink(slaves, link) {
        return Err(DuplicateLink);
      }
      slaves := slaves + [SlaveLink(name, link, false)];
      rest := after;
    }
  }

  ghost function Prepend(files: seq<(string, string)>, r: Result<(seq<(string, string)>, string)>)
    : Result<(seq<(string, string)>, string)>
  {
    match r
    case Err(e) => Err(e)
    case Ok((more, rest)) => Ok((files + more, rest))
  }

  method ReadFiles(text: string, slaves: seq<SlaveLink>) returns (r: Result<(seq<(string, string)>, string)>)
    ensures r == ParseFiles(text, slaves)
  {
    hide GetLine;
    var rest := text;
    var files := [];
    var i := 0;
    ghost var whole := ParseFiles(text, slaves);
    assert slaves[0..] == slaves && (whole.Ok? ==> files + whole.value.0 == whole.value.0);
    while i < |slaves|
      invariant 0 <= i <= |slaves|
      invariant Prepend(files, ParseFiles(rest, slaves[i..])) == ParseFiles(text, slaves)
    {
      assert slaves[i..][1..] == slaves[i + 1..];
      var line := GetLine(rest);
      if line.Err? {
        return Err(line.error);
      }
      var (file, next) := line.value;
      ghost var tail := ParseFiles(next, slaves[i + 1..]);
      assert tail.Ok? ==> files + ([(slaves[i].name, file)] + tail.value.0) == files + [(slaves[i].name, file)] + tail.value.0;
      files := files + [(slaves[i].name, file)];
      rest := next;
      i := i + 1;
    }
    assert slaves[i..] == [] && files + [] == files;
    r := Ok((files, rest));
  }

  /** The loop over `alternative_parse_fileset`. */
  method ReadChoices(text: string, present: set<string>, slaves: seq<SlaveLink>) returns (r: Result<seq<Fileset>>)
    ensures r == ParseChoices(text, present, slaves, [])
  {
    hide GetLine, ParseInt, GetFileset, ParseFiles;
    var rest := text;
    var choices := [];
    while true
      invariant ParseChoices(rest, present, slaves, choices) == ParseChoices(text, present, slaves, [])
      decreases |rest|
    {
      var line := GetLine(rest);
      if line.Err? {
        return Err(line.error);
      }
      var (file, next) := line.value;
      if file == "" {
        return Ok(choices);
      }
      if GetFileset(choices, file).Some? {
        return Err(DuplicatePath);
      }
      line := GetLine(next);
      if line.Err? {
        return Err(line.error);
      }
      var (prio, after) := line.value;
      if file in present && ParseInt(prio).Err? {
        return Err(ParseInt(prio).error);
      }
      var files := ReadFiles(after, slaves);
      if files.Err? {
        return Err(files.error);
      }
      if file in present {
        choices := choices + [Fileset(file, ParseInt(prio).value, files.value.0)];
      }
      rest := files.value.1;
    }
  }

  /** `alternative_load`. */
  method LoadGroup(text: string, masterName: string, present: set<string>) returns (r: Result<Group>)
    ensures r == Load(text, masterName, present)
  {
    hide GetLine, ParseSlaves, ParseChoices;
    var line := GetLine(text);
    if line.Err? {
      return Err(line.error);
    }
    var (status, rest) := line.value;
    if status != "auto" && status != "manual" {
      return Err(BadStatus);
    }
    line := GetLine(rest);
    if line.Err? {
      return Err(line.error);
    }
    var (link, rest') := line.value;
    var slaves := ReadSlaves(rest', link);
    if slaves.Err? {
      return Err(slaves.error);
    }
    var choices := ReadChoices(slaves.value.1, present, slaves.value.0);
    if choices.Err? {
      return Err(choices.error);
    }
    return Ok(Group(masterName, link, if status == "auto" then Auto else Manual, slaves.value.0, choices.value));
  }

  /** Saving a group and loading it again. */
  method SaveThenLoad(a: Group, present: set<string>) returns (r: Result<Group>)
    requires Storable(a)
    ensures r.Ok? && r.value.masterName == a.masterName && r.value.masterLink == a.masterLink && r.value.status == a.status
    ensures r.value.slaves == Plain(Saved(a).slaves)
    ensures r.value.choices == ReadBack(Saved(a).choices, r.value.slaves, present)
  {
    hide Load, Storable, Saved, Plain, ReadBack, Print, Writable;
    var saved, text := Save(a);
    StorableWritable(a);
    r := LoadGroup(text.value, a.masterName, present);
    SaveLoadRoundTrip(a, present);
    SavedFields(a);
  }

  lemma SavedFields(a: Group)
    ensures Saved(a).masterName == a.masterName && Saved(a).masterLink == a.masterLink && Saved(a).status == a.status
  { }

  lemma StorableWritable(a: Group)
    requires Storable(a)
    ensures Writable(Saved(a))
  {
    hide SortBy, HasSlave, Less;
    SavedIs(a);
    SavedFields(a);
    var s := Saved(a);
    SameMembers(s.choices, a.choices);
    forall f | f in s.choices ensures WritableChoice(f, s.slaves) { ChoiceWritable(f, s.slaves); }
  }

  lemma ChoiceWritable(f: Fileset, slaves: seq<SlaveLink>)
    requires ChoiceOk(f)
    ensures WritableChoice(f, slaves)
  { }
}
