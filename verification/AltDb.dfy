/**
 The administrative file of a link group (utils/update-alternatives.c): what
 `alternative_save` writes, what `alternative_load` makes of a file, and that
 loading what was saved gives the group back.
 */
module AltDb {
  import opened Text
  import opened Alternatives

  datatype Error = UnexpectedEnd | LineTooLong | BadStatus | DuplicateName | LinkIsMaster | DuplicateLink
                 | DuplicatePath | BadPriority | PriorityRange | Newline

  datatype Result<+T> = Ok(value: T) | Err(error: Error)

  // ---- lines ----

  /** The longest line that the first read of `altdb_get_line` takes in whole. */
  const MAXLINE: nat := 1022

  predicate LineOk(s: string) { '\n' !in s && |s| <= MAXLINE }

  function Line(s: string): string { s + "\n" }

  /** `altdb_get_line`: a line and what follows it. */
  function GetLine(text: string): (r: Result<(string, string)>)
    ensures r.Ok? ==> |r.value.1| < |text|
  {
    if text == [] then Err(UnexpectedEnd)
    else if text[0] == '\n' then Ok(([], text[1..]))
    else
      match GetLine(text[1..])
      case Err(e) => Err(e)
      case Ok((l, rest)) => if |l| + 1 > MAXLINE then Err(LineTooLong) else Ok(([text[0]] + l, rest))
  }

  lemma {:induction false} GetLineLine(s: string, rest: string)
    requires LineOk(s)
    ensures GetLine(Line(s) + rest) == Ok((s, rest))
    decreases |s|
  {
    if s == [] {
      assert (Line(s) + rest)[1..] == rest;
    } else {
      assert (Line(s) + rest)[1..] == Line(s[1..]) + rest;
      GetLineLine(s[1..], rest);
      assert s == [s[0]] + s[1..];
    }
  }

  /** A line without its newline is refused, and so is one that is too long. */
  lemma {:induction false} GetLineRefused(s: string, rest: string)
    requires '\n' !in s
    ensures GetLine(s) == Err(UnexpectedEnd)
    ensures |s| > MAXLINE ==> GetLine(Line(s) + rest) == Err(LineTooLong)
    decreases |s|
  {
    if s != "" {
      var tail := s[1..];
      GetLineRefused(tail, rest);
      assert s[0] in s && (Line(s) + rest)[0] == s[0] && (Line(s) + rest)[1..] == Line(tail) + rest;
      if |tail| <= MAXLINE { GetLineLine(tail, rest); }
    }
  }

  // ---- priorities ----

  const INT_MIN: int := -0x8000_0000
  const INT_MAX: int := 0x7fff_ffff

  /** `"%d"`. */
  function PrintInt(n: int): string { if n < 0 then "-" + Decimal(-n) else Decimal(n) }

  /** `strtol` of a whole line, within the range of `int`. */
  function ParseInt(s: string): Result<int> {
    match StrToL(s)
    case None => Err(BadPriority)
    case Some(v) => if v < INT_MIN || v > INT_MAX then Err(PriorityRange) else Ok(v)
  }

  lemma IntRoundTrip(n: int)
    requires INT_MIN <= n <= INT_MAX
    ensures ParseInt(PrintInt(n)) == Ok(n) && LineOk(PrintInt(n))
  {
    var m := if n < 0 then -n else n;
    StrToLDecimal(m);
    hide StrToL;
    DecimalShort(m, 10);
    forall c | c in Decimal(m) ensures c != '\n' { assert IsDigit(c); }
  }

  // ---- writing ----

  function StatusLine(m: Mode): string { if m.Auto? then "auto" else "manual" }

  function PrintSlaves(slaves: seq<SlaveLink>): string {
    if slaves == [] then "" else Line(slaves[0].name) + (Line(slaves[0].link) + PrintSlaves(slaves[1..]))
  }

  /** The file a choice has for a slave, empty if none. */
  function FileFor(f: Fileset, name: string): string {
    if HasSlave(f, name) then SlaveFile(f.slaves, name).value else ""
  }

  function PrintFiles(f: Fileset, slaves: seq<SlaveLink>): string {
    if slaves == [] then "" else Line(FileFor(f, slaves[0].name)) + PrintFiles(f, slaves[1..])
  }

  function PrintChoices(choices: seq<Fileset>, slaves: seq<SlaveLink>): string {
    if choices == [] then ""
    else
      Line(choices[0].masterFile)
      + (Line(PrintInt(choices[0].priority)) + (PrintFiles(choices[0], slaves) + PrintChoices(choices[1..], slaves)))
  }

  function Print(a: Group): string {
    Line(StatusLine(a.status))
    + (Line(a.masterLink) + (PrintSlaves(a.slaves) + (Line("") + (PrintChoices(a.choices, a.slaves) + Line("")))))
  }

  // ---- reading ----

  predicate HasName(slaves: seq<SlaveLink>, name: string) { exists i :: 0 <= i < |slaves| && slaves[i].name == name }

  predicate HasLink(slaves: seq<SlaveLink>, link: string) { exists i :: 0 <= i < |slaves| && slaves[i].link == link }

  /** Repeated `alternative_parse_slave`. */
  function ParseSlaves(text: string, master: string, acc: seq<SlaveLink>): (r: Result<(seq<SlaveLink>, string)>)
    ensures r.Ok? ==> |r.value.1| < |text|
    decreases |text|
  {
    match GetLine(text)
    case Err(e) => Err(e)
    case Ok((name, rest)) =>
      if name == "" then Ok((acc, rest))
      else if HasName(acc, name) then Err(DuplicateName)
      else
        match GetLine(rest)
        case Err(e) => Err(e)
        case Ok((link, rest')) =>
          if link == master then Err(LinkIsMaster)
          else if HasLink(acc, link) then Err(DuplicateLink)
          else ParseSlaves(rest', master, acc + [SlaveLink(name, link, false)])
  }

  /** One line per slave; `fileset_add_slave` keeps the last one for a name. */
  function ParseFiles(text: string, slaves: seq<SlaveLink>): (r: Result<(seq<(string, string)>, string)>)
    ensures r.Ok? ==> |r.value.1| <= |text|
    decreases |slaves|
  {
    if slaves == [] then Ok(([], text))
    else
      match GetLine(text)
      case Err(e) => Err(e)
      case Ok((file, rest)) =>
        match ParseFiles(rest, slaves[1..])
        case Err(e) => Err(e)
        case Ok((files, rest')) => Ok(([(slaves[0].name, file)] + files, rest'))
  }

  /** Repeated `alternative_parse_fileset`: choices whose file is missing are passed over. */
  function ParseChoices(text: string, present: set<string>, slaves: seq<SlaveLink>, acc: seq<Fileset>): Result<seq<Fileset>>
    decreases |text|
  {
    match GetLine(text)
    case Err(e) => Err(e)
    case Ok((file, rest)) =>
      if file == "" then Ok(acc)
      else if GetFileset(acc, file).Some? then Err(DuplicatePath)
      else
        match GetLine(rest)
        case Err(e) => Err(e)
        case Ok((prio, rest')) =>
          if file in present && ParseInt(prio).Err? then Err(ParseInt(prio).error)
          else
            match ParseFiles(rest', slaves)
            case Err(e) => Err(e)
            case Ok((files, rest'')) =>
              ParseChoices(rest'', present, slaves,
                if file in present then acc + [Fileset(file, ParseInt(prio).value, files)] else acc)
  }

  /** `alternative_load`, for the group of the given name. */
  function Load(text: string, masterName: string, present: set<string>): Result<Group> {
    match GetLine(text)
    case Err(e) => Err(e)
    case Ok((status, rest)) =>
      if status != "auto" && status != "manual" then Err(BadStatus)
      else
        match GetLine(rest)
        case Err(e) => Err(e)
        case Ok((link, rest')) =>
          match ParseSlaves(rest', link, [])
          case Err(e) => Err(e)
          case Ok((slaves, rest'')) =>
            match ParseChoices(rest'', present, slaves, [])
            case Err(e) => Err(e)
            case Ok(choices) => Ok(Group(masterName, link, if status == "auto" then Auto else Manual, slaves, choices))
  }

  // ---- reading back what was written ----

  /** No two slaves share a name or a link. */
  ghost predicate PairwiseApart(slaves: seq<SlaveLink>) {
    forall i, j :: 0 <= i < j < |slaves| ==> slaves[i].name != slaves[j].name && slaves[i].link != slaves[j].link
  }

  ghost predicate SlavesOk(slaves: seq<SlaveLink>, master: string) {
    && PairwiseApart(slaves)
    && forall i :: 0 <= i < |slaves| ==>
         && LineOk(slaves[i].name) && slaves[i].name != "" && LineOk(slaves[i].link)
         && slaves[i].link != master && !slaves[i].updated
  }

  lemma {:induction false} SlavesRoundTrip(slaves: seq<SlaveLink>, master: string, acc: seq<SlaveLink>, rest: string)
    requires SlavesOk(acc + slaves, master)
    ensures ParseSlaves(PrintSlaves(slaves) + (Line("") + rest), master, acc) == Ok((acc + slaves, rest))
    decreases |slaves|
  {
    if slaves == [] {
      assert PrintSlaves(slaves) + (Line("") + rest) == Line("") + rest;
      GetLineLine("", rest);
      assert acc + slaves == acc;
    } else {
      var sl := slaves[0];
      var tail := PrintSlaves(slaves[1..]) + (Line("") + rest);
      assert (acc + slaves)[|acc|] == sl;
      assert forall i :: 0 <= i < |acc| ==> (acc + slaves)[i] == acc[i];
      assert acc + [sl] + slaves[1..] == acc + slaves;
      assert PrintSlaves(slaves) + (Line("") + rest) == Line(sl.name) + (Line(sl.link) + tail);
      GetLineLine(sl.name, Line(sl.link) + tail);
      GetLineLine(sl.link, tail);
      SlavesRoundTrip(slaves[1..], master, acc + [sl], rest);
      assert SlaveLink(sl.name, sl.link, false) == sl;
    }
  }

  /** The choice as it is read back: a file for every slave, empty if it had none. */
  function Filled(f: Fileset, slaves: seq<SlaveLink>): seq<(string, string)> {
    if slaves == [] then [] else [(slaves[0].name, FileFor(f, slaves[0].name))] + Filled(f, slaves[1..])
  }

  ghost predicate FilesOk(f: Fileset) {
    forall name :: SlaveFile(f.slaves, name).Some? ==> LineOk(SlaveFile(f.slaves, name).value)
  }

  lemma {:induction false} FilesRoundTrip(f: Fileset, slaves: seq<SlaveLink>, rest: string)
    requires FilesOk(f)
    ensures ParseFiles(PrintFiles(f, slaves) + rest, slaves) == Ok((Filled(f, slaves), rest))
    decreases |slaves|
  {
    if slaves == [] {
      assert PrintFiles(f, slaves) + rest == rest;
    } else {
      var file := FileFor(f, slaves[0].name);
      var tail := PrintFiles(f, slaves[1..]) + rest;
      assert PrintFiles(f, slaves) + rest == Line(file) + tail;
      GetLineLine(file, tail);
      FilesRoundTrip(f, slaves[1..], rest);
    }
  }

  function ReadBack(choices: seq<Fileset>, slaves: seq<SlaveLink>, present: set<string>): (r: seq<Fileset>)
    ensures forall f :: f in r ==> f.masterFile in present
  {
    if choices == [] then []
    else
      (if choices[0].masterFile in present
       then [Fileset(choices[0].masterFile, choices[0].priority, Filled(choices[0], slaves))] else [])
      + ReadBack(choices[1..], slaves, present)
  }

  ghost predicate ChoiceOk(f: Fileset) {
    LineOk(f.masterFile) && f.masterFile != "" && INT_MIN <= f.priority <= INT_MAX && FilesOk(f)
  }

  ghost predicate DistinctChoices(choices: seq<Fileset>) {
    forall i, j :: 0 <= i < j < |choices| ==> choices[i].masterFile != choices[j].masterFile
  }

  ghost predicate ChoicesOk(choices: seq<Fileset>) {
    DistinctChoices(choices) && forall i :: 0 <= i < |choices| ==> ChoiceOk(choices[i])
  }

  lemma {:induction false} ChoicesRoundTrip(choices: seq<Fileset>, slaves: seq<SlaveLink>, present: set<string>, acc: seq<Fileset>)
    requires ChoicesOk(choices)
    requires forall i :: 0 <= i < |choices| ==> GetFileset(acc, choices[i].masterFile).None?
    ensures ParseChoices(PrintChoices(choices, slaves) + Line(""), present, slaves, acc)
         == Ok(acc + ReadBack(choices, slaves, present))
    decreases |choices|
  {
    if choices == [] {
      NoChoices(slaves, present, acc);
    } else {
      var f := choices[0];
      var tail := PrintChoices(choices[1..], slaves) + Line("");
      var one := Fileset(f.masterFile, f.priority, Filled(f, slaves));
      var acc' := if f.masterFile in present then acc + [one] else acc;
      assert ChoiceOk(f) && ChoicesOk(choices[1..]);
      PrintChoicesStep(choices, slaves);
      ReadBackStep(choices, slaves, present, acc);
      NotInExtended(acc, one, choices);
      hide ParseChoices, PrintChoices, PrintChoice, ReadBack, ChoiceOk, Filled;
      ChoiceRoundTrip(f, slaves, present, acc, tail);
      ChoicesRoundTrip(choices[1..], slaves, present, acc');
    }
  }

  lemma NoChoices(slaves: seq<SlaveLink>, present: set<string>, acc: seq<Fileset>)
    ensures ParseChoices(PrintChoices([], slaves) + Line(""), present, slaves, acc) == Ok(acc + ReadBack([], slaves, present))
  {
    assert PrintChoices([], slaves) + Line("") == Line("") + "";
    GetLineLine("", "");
    assert acc + ReadBack([], slaves, present) == acc;
  }

  lemma PrintChoicesStep(choices: seq<Fileset>, slaves: seq<SlaveLink>)
    requires choices != []
    ensures PrintChoices(choices, slaves) + Line("")
         == PrintChoice(choices[0], slaves, PrintChoices(choices[1..], slaves) + Line(""))
  { }

  lemma ReadBackStep(choices: seq<Fileset>, slaves: seq<SlaveLink>, present: set<string>, acc: seq<Fileset>)
    requires choices != []
    ensures var f := choices[0];
      var one := Fileset(f.masterFile, f.priority, Filled(f, slaves));
      (if f.masterFile in present then acc + [one] else acc) + ReadBack(choices[1..], slaves, present)
      == acc + ReadBack(choices, slaves, present)
  {
    hide Filled;
    var f, rest := choices[0], ReadBack(choices[1..], slaves, present);
    var one := Fileset(f.masterFile, f.priority, Filled(f, slaves));
    var more := if f.masterFile in present then [one] else [];
    assert ReadBack(choices, slaves, present) == more + rest;
    hide ReadBack;
    AddedInTurn(acc, more, rest);
    assert acc + [] == acc;
  }

  lemma AddedInTurn(acc: seq<Fileset>, more: seq<Fileset>, rest: seq<Fileset>)
    ensures acc + more + rest == acc + (more + rest)
  { }

  function PrintChoice(f: Fileset, slaves: seq<SlaveLink>, tail: string): string {
    Line(f.masterFile) + (Line(PrintInt(f.priority)) + (PrintFiles(f, slaves) + tail))
  }

  lemma ChoiceRoundTrip(f: Fileset, slaves: seq<SlaveLink>, present: set<string>, acc: seq<Fileset>, tail: string)
    requires ChoiceOk(f) && GetFileset(acc, f.masterFile).None?
    ensures ParseChoices(PrintChoice(f, slaves, tail), present, slaves, acc)
         == ParseChoices(tail, present, slaves,
              if f.masterFile in present then acc + [Fileset(f.masterFile, f.priority, Filled(f, slaves))] else acc)
  {
    hide GetLine, PrintInt, ParseInt, Filled, PrintFiles, FilesOk, ParseFiles;
    GetLineLine(f.masterFile, Line(PrintInt(f.priority)) + (PrintFiles(f, slaves) + tail));
    IntRoundTrip(f.priority);
    GetLineLine(PrintInt(f.priority), PrintFiles(f, slaves) + tail);
    FilesRoundTrip(f, slaves, tail);
  }

  lemma NotInExtended(acc: seq<Fileset>, one: Fileset, choices: seq<Fileset>)
    requires choices != [] && DistinctChoices(choices) && one.masterFile == choices[0].masterFile
    requires forall i :: 0 <= i < |choices| ==> GetFileset(acc, choices[i].masterFile).None?
    ensures forall i :: 0 <= i < |choices[1..]| ==> GetFileset(acc, choices[1..][i].masterFile).None?
    ensures forall i :: 0 <= i < |choices[1..]| ==> GetFileset(acc + [one], choices[1..][i].masterFile).None?
  { }

  ghost predicate Printable(a: Group) {
    !a.status.Unknown? && LineOk(a.masterLink) && SlavesOk(a.slaves, a.masterLink) && ChoicesOk(a.choices)
  }

  /** Loading a printed group gives it back, without the choices whose files are missing. */
  lemma PrintRoundTrip(a: Group, present: set<string>)
    requires Printable(a)
    ensures Load(Print(a), a.masterName, present) == Ok(a.(choices := ReadBack(a.choices, a.slaves, present)))
  {
    hide GetLine, PrintChoices, PrintSlaves, ParseSlaves, ParseChoices, ReadBack, SlavesOk, ChoicesOk, LineOk;
    var choices := PrintChoices(a.choices, a.slaves) + Line("");
    var rest := PrintSlaves(a.slaves) + (Line("") + choices);
    StatusLineOk(a.status);
    GetLineLine(StatusLine(a.status), Line(a.masterLink) + rest);
    GetLineLine(a.masterLink, rest);
    assert [] + a.slaves == a.slaves;
    SlavesRoundTrip(a.slaves, a.masterLink, [], choices);
    ChoicesRoundTrip(a.choices, a.slaves, present, []);
    assert [] + ReadBack(a.choices, a.slaves, present) == ReadBack(a.choices, a.slaves, present);
  }

  lemma StatusLineOk(m: Mode)
    ensures LineOk(StatusLine(m))
  { }

  // ---- what is saved: unused slaves dropped, slaves and choices sorted ----

  function Insert<T>(x: T, ys: seq<T>, key: T -> string): (r: seq<T>)
    ensures multiset(r) == multiset([x] + ys)
  {
    if ys == [] || !Less(key(ys[0]), key(x)) then [x] + ys
    else
      assert [x] + ys == [x] + ([ys[0]] + ys[1..]);
      [ys[0]] + Insert(x, ys[1..], key)
  }

  /** `qsort` by `strcmp` of the keys. */
  function SortBy<T>(xs: seq<T>, key: T -> string): (r: seq<T>)
    ensures multiset(r) == multiset(xs)
  {
    if xs == [] then []
    else
      assert xs == [xs[0]] + xs[1..];
      Insert(xs[0], SortBy(xs[1..], key), key)
  }

  ghost predicate AscendingBy<T>(xs: seq<T>, key: T -> string) {
    forall i, j :: 0 <= i < j < |xs| ==> Less(key(xs[i]), key(xs[j]))
  }

  lemma {:induction false} InsertAscending<T>(x: T, ys: seq<T>, key: T -> string)
    requires AscendingBy(ys, key) && forall i :: 0 <= i < |ys| ==> key(ys[i]) != key(x)
    ensures AscendingBy(Insert(x, ys, key), key)
    decreases |ys|
  {
    if ys == [] {
    } else if !Less(key(ys[0]), key(x)) {
      LessTotal(key(ys[0]), key(x));
      forall j | 0 <= j < |ys| ensures Less(key(x), key(ys[j])) {
        if j > 0 { LessTransitive(key(x), key(ys[0]), key(ys[j])); }
      }
    } else {
      InsertAscending(x, ys[1..], key);
      var r := Insert(x, ys[1..], key);
      forall j | 0 <= j < |r| ensures Less(key(ys[0]), key(r[j])) {
        assert r[j] in multiset(r);
        assert r[j] in multiset([x] + ys[1..]);
        assert r[j] in [x] + ys[1..];
      }
    }
  }

  ghost predicate DistinctKeys<T>(xs: seq<T>, key: T -> string) {
    forall i, j :: 0 <= i < j < |xs| ==> key(xs[i]) != key(xs[j])
  }

  lemma {:induction false} SortAscending<T>(xs: seq<T>, key: T -> string)
    requires DistinctKeys(xs, key)
    ensures AscendingBy(SortBy(xs, key), key)
    decreases |xs|
  {
    if xs != [] {
      SortAscending(xs[1..], key);
      var ys := SortBy(xs[1..], key);
      forall i | 0 <= i < |ys| ensures key(ys[i]) != key(xs[0]) {
        assert ys[i] in multiset(ys);
        assert ys[i] in xs[1..];
      }
      InsertAscending(xs[0], ys, key);
    }
  }

  predicate Used(sl: SlaveLink, choices: seq<Fileset>) { exists f :: f in choices && HasSlave(f, sl.name) }

  function UsedSlaves(slaves: seq<SlaveLink>, choices: seq<Fileset>): (r: seq<SlaveLink>)
    ensures forall sl :: sl in r <==> sl in slaves && Used(sl, choices)
  {
    if slaves == [] then []
    else (if Used(slaves[0], choices) then [slaves[0]] else []) + UsedSlaves(slaves[1..], choices)
  }

  function SlaveKey(): SlaveLink -> string { (sl: SlaveLink) => sl.name }
  function ChoiceKey(): Fileset -> string { (f: Fileset) => f.masterFile }

  /** The group as `alternative_save` leaves it, and writes it. */
  function Saved(a: Group): Group {
    a.(slaves := SortBy(UsedSlaves(a.slaves, a.choices), SlaveKey()), choices := SortBy(a.choices, ChoiceKey()))
  }

  function Plain(slaves: seq<SlaveLink>): (r: seq<SlaveLink>)
    ensures |r| == |slaves|
  {
    seq(|slaves|, i requires 0 <= i < |slaves| => slaves[i].(updated := false))
  }

  lemma {:induction false} PrintPlain(slaves: seq<SlaveLink>)
    ensures PrintSlaves(Plain(slaves)) == PrintSlaves(slaves)
    decreases |slaves|
  {
    if slaves != [] {
      assert Plain(slaves)[1..] == Plain(slaves[1..]);
      PrintPlain(slaves[1..]);
    }
  }

  lemma {:induction false} PrintFilesPlain(f: Fileset, slaves: seq<SlaveLink>)
    ensures PrintFiles(f, Plain(slaves)) == PrintFiles(f, slaves)
    decreases |slaves|
  {
    if slaves != [] {
      assert Plain(slaves)[1..] == Plain(slaves[1..]);
      PrintFilesPlain(f, slaves[1..]);
    }
  }

  lemma {:induction false} PrintChoicesPlain(choices: seq<Fileset>, slaves: seq<SlaveLink>)
    ensures PrintChoices(choices, Plain(slaves)) == PrintChoices(choices, slaves)
    decreases |choices|
  {
    if choices != [] {
      PrintFilesPlain(choices[0], slaves);
      PrintChoicesPlain(choices[1..], slaves);
    }
  }

  /** What a group must satisfy to be written and read back: distinct, newline-free, non-empty names. */
  ghost predicate Storable(a: Group) {
    && !a.status.Unknown? && LineOk(a.masterLink) && PairwiseApart(a.slaves) && DistinctChoices(a.choices)
    && (forall sl :: sl in a.slaves ==> LineOk(sl.name) && sl.name != "" && LineOk(sl.link) && sl.link != a.masterLink)
    && (forall f :: f in a.choices ==> ChoiceOk(f))
  }

  lemma {:induction false} UsedApart(slaves: seq<SlaveLink>, choices: seq<Fileset>)
    requires PairwiseApart(slaves)
    ensures PairwiseApart(UsedSlaves(slaves, choices))
    decreases |slaves|
  {
    if slaves != [] {
      hide Used;
      UsedApart(slaves[1..], choices);
      var rest := UsedSlaves(slaves[1..], choices);
      forall i | 0 <= i < |rest| ensures rest[i].name != slaves[0].name && rest[i].link != slaves[0].link {
        assert rest[i] in rest;
        assert rest[i] in slaves[1..];
      }
    }
  }

  /** Being pairwise apart does not depend on order. */
  lemma ApartPermutes(xs: seq<SlaveLink>, ys: seq<SlaveLink>)
    requires PairwiseApart(xs) && multiset(xs) == multiset(ys)
    ensures PairwiseApart(ys)
  {
    forall i, j | 0 <= i < j < |ys| ensures ys[i].name != ys[j].name && ys[i].link != ys[j].link {
      var a, b := TwoPlaces(xs, ys, i, j);
    }
  }

  lemma TwoPlaces<T>(xs: seq<T>, ys: seq<T>, i: nat, j: nat) returns (a: nat, b: nat)
    requires multiset(xs) == multiset(ys) && i < j < |ys|
    ensures a < |xs| && b < |xs| && a != b && xs[a] == ys[i] && xs[b] == ys[j]
  {
    assert ys[i] in multiset(ys) && ys[j] in multiset(ys);
    assert ys[i] in xs && ys[j] in xs;
    a :| 0 <= a < |xs| && xs[a] == ys[i];
    if ys[i] != ys[j] {
      b :| 0 <= b < |xs| && xs[b] == ys[j];
    } else {
      var x := ys[i];
      assert ys == ys[..j] + [x] + ys[j + 1..];
      assert ys[..j][i] == x && x in multiset(ys[..j]);
      assert multiset(ys)[x] >= 2;
      assert xs == xs[..a] + [x] + xs[a + 1..];
      assert multiset(xs)[x] == multiset(xs[..a])[x] + 1 + multiset(xs[a + 1..])[x];
      if x in multiset(xs[..a]) {
        assert x in xs[..a];
        b :| 0 <= b < a && xs[..a][b] == x;
      } else {
        assert x in multiset(xs[a + 1..]);
        assert x in xs[a + 1..];
        var c :| 0 <= c < |xs[a + 1..]| && xs[a + 1..][c] == x;
        b := a + 1 + c;
      }
    }
  }

  lemma SortedSlaves(slaves: seq<SlaveLink>)
    requires PairwiseApart(slaves)
    ensures var r := SortBy(slaves, SlaveKey());
      && (forall sl :: sl in r <==> sl in slaves)
      && (forall i, j :: 0 <= i < j < |r| ==> Less(r[i].name, r[j].name))
      && PairwiseApart(r)
  {
    hide Less, SortBy;
    var r := SortBy(slaves, SlaveKey());
    assert DistinctKeys(slaves, SlaveKey());
    SortAscending(slaves, SlaveKey());
    SameMembers(r, slaves);
    ApartPermutes(slaves, r);
    forall i, j | 0 <= i < j < |r| ensures Less(r[i].name, r[j].name) {
      assert Less(SlaveKey()(r[i]), SlaveKey()(r[j]));
    }
  }

  lemma SameMembers<T>(xs: seq<T>, ys: seq<T>)
    requires multiset(xs) == multiset(ys)
    ensures forall x :: x in xs <==> x in ys
  {
    forall x ensures x in xs <==> x in ys { assert x in multiset(xs) <==> x in multiset(ys); }
  }

  lemma SortedChoices(choices: seq<Fileset>)
    requires DistinctChoices(choices)
    ensures var r := SortBy(choices, ChoiceKey());
      && multiset(r) == multiset(choices)
      && (forall f :: f in r <==> f in choices)
      && (forall i, j :: 0 <= i < j < |r| ==> Less(r[i].masterFile, r[j].masterFile))
      && DistinctChoices(r)
  {
    hide Less, SortBy;
    var r := SortBy(choices, ChoiceKey());
    assert DistinctKeys(choices, ChoiceKey());
    SortAscending(choices, ChoiceKey());
    SameMembers(r, choices);
    forall i, j | 0 <= i < j < |r| ensures Less(r[i].masterFile, r[j].masterFile) && r[i].masterFile != r[j].masterFile {
      assert Less(ChoiceKey()(r[i]), ChoiceKey()(r[j]));
      LessIrreflexive(r[i].masterFile);
    }
  }

  /** What `alternative_save` does to the group it writes. */
  lemma SavedIs(a: Group)
    requires Storable(a)
    ensures var s := Saved(a);
      && (forall sl :: sl in s.slaves <==> sl in a.slaves && exists f :: f in a.choices && HasSlave(f, sl.name))
      && (forall i, j :: 0 <= i < j < |s.slaves| ==> Less(s.slaves[i].name, s.slaves[j].name))
      && multiset(s.choices) == multiset(a.choices)
      && (forall i, j :: 0 <= i < j < |s.choices| ==> Less(s.choices[i].masterFile, s.choices[j].masterFile))
  {
    hide Less, SortBy, LineOk, ChoiceOk, HasSlave;
    UsedApart(a.slaves, a.choices);
    SortedSlaves(UsedSlaves(a.slaves, a.choices));
    SortedChoices(a.choices);
  }

  lemma PlainOk(slaves: seq<SlaveLink>, master: string)
    requires PairwiseApart(slaves)
    requires forall sl :: sl in slaves ==> LineOk(sl.name) && sl.name != "" && LineOk(sl.link) && sl.link != master
    ensures SlavesOk(Plain(slaves), master)
  { }

  lemma SavedPrintable(a: Group)
    requires Storable(a)
    ensures var s := Saved(a); Printable(s.(slaves := Plain(s.slaves)))
  {
    hide Less, LineOk, ChoiceOk, Used, SortBy, Plain, SlavesOk;
    var s := Saved(a);
    var used := UsedSlaves(a.slaves, a.choices);
    UsedApart(a.slaves, a.choices);
    SortedSlaves(used);
    PlainOk(s.slaves, s.masterLink);
    SortedChoices(a.choices);
    forall i | 0 <= i < |s.choices| ensures ChoiceOk(s.choices[i]) { assert s.choices[i] in s.choices; }
  }

  /**
   Round trip.  Loading a saved group gives it back with unused slaves dropped,
   slaves and choices sorted, choices with missing files removed, and a file for
   every slave of every choice, empty where the choice had none.
   */
  lemma SaveLoadRoundTrip(a: Group, present: set<string>)
    requires Storable(a)
    ensures var s := Saved(a);
      Load(Print(s), a.masterName, present)
      == Ok(s.(slaves := Plain(s.slaves), choices := ReadBack(s.choices, Plain(s.slaves), present)))
  {
    hide Load, SortBy, UsedSlaves, ReadBack, PrintSlaves, PrintChoices, Printable, Storable;
    var s := Saved(a);
    var q := s.(slaves := Plain(s.slaves));
    SavedPrintable(a);
    PrintRoundTrip(q, present);
    PrintPlain(s.slaves);
    PrintChoicesPlain(s.choices, s.slaves);
  }

  // ---- a file in full ----

  /** Mode, link, slaves with their links, an empty line, and each choice with its priority and slave files. */
  lemma WrittenFile(g: string, link: string, sl: SlaveLink, f: Fileset)
    ensures Print(Group(g, link, Auto, [sl], [f]))
         == "auto\n" + (link + "\n" + (sl.name + "\n" + (sl.link + "\n")
            + ("\n" + (f.masterFile + "\n" + (PrintInt(f.priority) + "\n" + (FileFor(f, sl.name) + "\n")) + "\n"))))
  {
    hide PrintInt, FileFor;
    assert [sl][1..] == [] && [f][1..] == [] && Line("auto") == "auto\n" && Line("") == "\n";
    assert PrintSlaves([sl]) == sl.name + "\n" + (sl.link + "\n");
    assert PrintFiles(f, [sl]) == FileFor(f, sl.name) + "\n";
    assert PrintChoices([f], [sl]) == f.masterFile + "\n" + (PrintInt(f.priority) + "\n" + (FileFor(f, sl.name) + "\n"));
  }

  /** A priority outside the range of int is refused. */
  lemma RangeRefused(n: int)
    requires n < -0x8000_0000 || n > 0x7fff_ffff
    ensures ParseInt(PrintInt(n)) == Err(PriorityRange)
  {
    StrToLDecimal(if n < 0 then -n else n);
    hide StrToL;
  }

  // ---- whatever is accepted ----

  lemma {:induction false} AcceptedSlaves(text: string, master: string, acc: seq<SlaveLink>)
    requires PairwiseApart(acc) && forall sl :: sl in acc ==> sl.link != master && sl.name != "" && !sl.updated
    ensures var r := ParseSlaves(text, master, acc);
      r.Ok? ==> PairwiseApart(r.value.0) && forall sl :: sl in r.value.0 ==> sl.link != master && sl.name != "" && !sl.updated
    decreases |text|
  {
    hide GetLine;
    var l := GetLine(text);
    if l.Ok? && l.value.0 != "" && !HasName(acc, l.value.0) {
      var l' := GetLine(l.value.1);
      if l'.Ok? && l'.value.0 != master && !HasLink(acc, l'.value.0) {
        AcceptedSlaves(l'.value.1, master, acc + [SlaveLink(l.value.0, l'.value.0, false)]);
      }
    }
  }

  lemma {:induction false} AcceptedChoices(text: string, present: set<string>, slaves: seq<SlaveLink>, acc: seq<Fileset>)
    requires DistinctChoices(acc)
    requires forall f :: f in acc ==> f.masterFile in present && f.masterFile != "" && INT_MIN <= f.priority <= INT_MAX
    ensures var r := ParseChoices(text, present, slaves, acc);
      r.Ok? ==>
        && DistinctChoices(r.value)
        && forall f :: f in r.value ==> f.masterFile in present && f.masterFile != "" && INT_MIN <= f.priority <= INT_MAX
    decreases |text|
  {
    hide GetLine, ParseFiles, StrToL;
    var l := GetLine(text);
    if l.Ok? && l.value.0 != "" && GetFileset(acc, l.value.0).None? {
      var file, l' := l.value.0, GetLine(l.value.1);
      if l'.Ok? && (file !in present || ParseInt(l'.value.0).Ok?) {
        var files := ParseFiles(l'.value.1, slaves);
        if files.Ok? {
          AcceptedChoices(files.value.1, present, slaves,
            if file in present then acc + [Fileset(file, ParseInt(l'.value.0).value, files.value.0)] else acc);
        }
      }
    }
  }

  /**
   Any group that is loaded has a mode, slaves with distinct non-empty names and
   distinct links other than its own, and distinct existing choices with priorities
   that fit an int.
   */
  lemma AcceptedGroup(text: string, name: string, present: set<string>)
    ensures var r := Load(text, name, present);
      r.Ok? ==>
        && r.value.masterName == name && r.value.status in {Auto, Manual}
        && PairwiseApart(r.value.slaves) && (forall sl :: sl in r.value.slaves ==> sl.link != r.value.masterLink && sl.name != "")
        && DistinctChoices(r.value.choices)
        && forall f :: f in r.value.choices ==> f.masterFile in present && -0x8000_0000 <= f.priority <= 0x7fff_ffff
  {
    hide GetLine, ParseSlaves, ParseChoices;
    var l := GetLine(text);
    if l.Ok? && (l.value.0 == "auto" || l.value.0 == "manual") {
      var l' := GetLine(l.value.1);
      if l'.Ok? {
        AcceptedSlaves(l'.value.1, l'.value.0, []);
        var s := ParseSlaves(l'.value.1, l'.value.0, []);
        if s.Ok? { AcceptedChoices(s.value.1, present, s.value.0, []); }
      }
    }
  }
}
