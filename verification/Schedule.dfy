/**
 The --retry schedules of start-stop-daemon (utils/start-stop-daemon.c): a
 schedule such as "TERM/5/forever/KILL/10" is compiled to a small program with at
 most one goto, and then executed.
 */
module Schedule {
  import opened Text

  /** `Forever` occurs in what is written, `Goto` in what is executed. */
  datatype Item = Timeout(secs: nat) | Signal(nr: nat) | Goto(target: nat) | Forever

  datatype Parsed = Ok(schedule: seq<Item>) | Usage | Bug

  const SIGKILL: nat := 9
  const MAXITEM: nat := 20
  const INT_MAX: nat := 0x7fff_ffff

  // ---- single items ----

  /** `parse_unsigned` in base 10: all of the string, from 0 to INT_MAX. */
  function ParseUnsigned(s: string): Option<nat> {
    match StrToL(s)
    case None => None
    case Some(v) => if 0 <= v <= INT_MAX then Some(v) else None
  }

  /** `siglist`, with the numbers of Linux. */
  function Signals(): map<string, nat> {
    map["ABRT" := 6, "ALRM" := 14, "FPE" := 8, "HUP" := 1, "ILL" := 4, "INT" := 2, "KILL" := SIGKILL, "PIPE" := 13,
        "QUIT" := 3, "SEGV" := 11, "TERM" := 15, "USR1" := 10, "USR2" := 12, "CHLD" := 17, "CONT" := 18, "STOP" := 19,
        "TSTP" := 20, "TTIN" := 21, "TTOU" := 22]
  }

  function ParseSignal(s: string): Option<nat> {
    if ParseUnsigned(s).Some? then ParseUnsigned(s)
    else if s in Signals() then Some(Signals()[s])
    else None
  }

  /** Numbers that an int does not hold are refused. */
  lemma TooLarge(n: nat)
    requires n > 0x7fff_ffff
    ensures ParseUnsigned(Decimal(n)).None?
  {
    StrToLDecimal(n);
    hide StrToL;
  }

  /** The numbers the names stand for. */
  lemma SignalNumbers()
    ensures var m := Signals(); m["HUP"] == 1 && m["INT"] == 2 && m["KILL"] == 9 && m["TERM"] == 15
    ensures var m := Signals(); m["QUIT"] == 3 && m["ILL"] == 4 && m["ABRT"] == 6 && m["FPE"] == 8 && m["SEGV"] == 11
  { }

  lemma MoreSignalNumbers()
    ensures var m := Signals(); m["USR1"] == 10 && m["USR2"] == 12 && m["PIPE"] == 13 && m["ALRM"] == 14 && m["CHLD"] == 17
    ensures var m := Signals(); m["CONT"] == 18 && m["STOP"] == 19 && m["TSTP"] == 20 && m["TTIN"] == 21 && m["TTOU"] == 22
  { }

  /** A name is read as its signal, with or without a hyphen. */
  lemma NamedSignal(name: string)
    requires name in Signals()
    ensures ParseItem(name) == Some(Signal(Signals()[name])) && ParseItem("-" + name) == Some(Signal(Signals()[name]))
  {
    assert 'A' <= name[0] <= 'Z' && |name| > 1;
    assert ("-" + name)[1..] == name && ("-" + name)[0] == '-';
    assert StrToL(name).None? by { assert !IsDigit(name[0]); }
    assert name != "forever" && "-" + name != "forever" by { assert "forever"[0] == 'f'; }
    hide Signals;
  }

  /** `parse_schedule_item`; None is a usage error. */
  function ParseItem(s: string): (r: Option<Item>)
    ensures r.Some? ==> !r.value.Goto?
  {
    if s == "forever" then Some(Forever)
    else if s != "" && IsDigit(s[0]) then
      match ParseUnsigned(s)
      case None => None
      case Some(n) => Some(Timeout(n))
    else
      match ParseSignal(if s != "" && s[0] == '-' then s[1..] else s)
      case None => None
      case Some(n) => Some(Signal(n))
  }

  // ---- splitting at slashes ----

  /** `strchrnul`: up to the first slash. */
  function Cut(s: string): (n: nat)
    ensures n <= |s|
    ensures '/' !in s[..n]
    ensures n < |s| ==> s[n] == '/'
  {
    if s == "" || s[0] == '/' then 0
    else
      var n := 1 + Cut(s[1..]);
      assert s[..n] == [s[0]] + s[1..][..n - 1];
      n
  }

  function Rest(s: string): string { if Cut(s) < |s| then s[Cut(s) + 1..] else "" }

  /** The pieces between slashes: one more than there are slashes. */
  function Split(s: string): (r: seq<string>)
    ensures |r| == 1 + Slashes(s)
    decreases |s|
  {
    NoSlash(s[..Cut(s)]);
    SlashesConcat(s[..Cut(s)], s[Cut(s)..]);
    assert s == s[..Cut(s)] + s[Cut(s)..];
    if Cut(s) == |s| then [s] else [s[..Cut(s)]] + Split(Rest(s))
  }

  function Slashes(s: string): nat { if s == "" then 0 else (if s[0] == '/' then 1 else 0) + Slashes(s[1..]) }

  lemma {:induction false} NoSlash(s: string)
    requires '/' !in s
    ensures Slashes(s) == 0
    decreases |s|
  {
    if s != "" {
      assert s[0] in s;
      NoSlash(s[1..]);
    }
  }

  lemma {:induction false} SlashesConcat(a: string, b: string)
    ensures Slashes(a + b) == Slashes(a) + Slashes(b)
    decreases |a|
  {
    if a == "" {
      assert a + b == b;
    } else {
      assert (a + b)[1..] == a[1..] + b;
      SlashesConcat(a[1..], b);
    }
  }

  /** The pieces the loop of `parse_schedule` sees: it stops at the end of the string, so not an empty last one. */
  function Pieces(s: string): seq<string>
    decreases |s|
  {
    if s == "" then [] else [s[..Cut(s)]] + Pieces(Rest(s))
  }

  predicate EndsInSlash(s: string) { s != "" && s[|s| - 1] == '/' }

  lemma {:induction false} PiecesAre(s: string)
    ensures Pieces(s) == if s == "" || EndsInSlash(s) then Split(s)[..|Split(s)| - 1] else Split(s)
    ensures s == "" || EndsInSlash(s) ==> Split(s)[|Split(s)| - 1] == ""
    decreases |s|
  {
    hide Cut, Split, Pieces, Rest, EndsInSlash, Slashes;
    var n := Cut(s);
    if s == "" {
      NoPiece();
    } else if n < |s| {
      TwoPieces(s);
      PiecesAre(Rest(s));
      RestEnds(s);
      var head, tail := [s[..n]], Split(Rest(s));
      assert (head + tail)[..|head + tail| - 1] == head + tail[..|tail| - 1];
    } else {
      OnePiece(s);
    }
  }

  lemma NoPiece()
    ensures Pieces("") == [] && Split("") == [""]
  { }

  lemma TwoPieces(s: string)
    requires Cut(s) < |s|
    ensures |Rest(s)| < |s|
    ensures Split(s) == [s[..Cut(s)]] + Split(Rest(s)) && Pieces(s) == [s[..Cut(s)]] + Pieces(Rest(s))
  { }

  lemma RestEnds(s: string)
    requires Cut(s) < |s|
    ensures EndsInSlash(s) <==> Rest(s) == "" || EndsInSlash(Rest(s))
  { }

  lemma OnePiece(s: string)
    requires s != "" && Cut(s) == |s|
    ensures Pieces(s) == [s] && Split(s) == [s] && !EndsInSlash(s)
  {
    hide Slashes;
    assert s[|s| - 1] in s[..|s|];
    assert s[..|s|] == s;
    assert Pieces("") == [];
  }

  // ---- compiling ----

  function Kept(items: seq<Item>): seq<Item> {
    if items == [] then []
    else Kept(items[..|items| - 1]) + if items[|items| - 1].Forever? then [] else [items[|items| - 1]]
  }

  predicate IsItem(piece: string) { |piece| < MAXITEM && ParseItem(piece).Some? }

  /** Every piece is short enough and an item. */
  function ParseAll(pieces: seq<string>): (r: Option<seq<Item>>)
    ensures r.Some? ==> |r.value| == |pieces| && forall i :: 0 <= i < |pieces| ==> Some(r.value[i]) == ParseItem(pieces[i])
  {
    if forall i :: 0 <= i < |pieces| ==> IsItem(pieces[i]) then
      Some(seq(|pieces|, i requires 0 <= i < |pieces| => ParseItem(pieces[i]).value))
    else None
  }

  /** "forever" at most once, and not at the end. */
  ghost predicate Sensible(items: seq<Item>) {
    AtMostOnce(items) && (items != [] ==> !items[|items| - 1].Forever?)
  }

  ghost predicate AtMostOnce(items: seq<Item>) {
    forall i, j :: 0 <= i < j < |items| ==> !(items[i].Forever? && items[j].Forever?)
  }

  /** Where "forever" is, or -1. */
  function RepeatAt(items: seq<Item>): (r: int)
    ensures -1 <= r < |items|
    ensures r >= 0 ==> items[r].Forever?
    ensures r == -1 ==> forall i :: 0 <= i < |items| ==> !items[i].Forever?
  {
    if items == [] then -1
    else
      var r := RepeatAt(items[..|items| - 1]);
      if r >= 0 then r else if items[|items| - 1].Forever? then |items| - 1 else -1
  }

  function Compiled(items: seq<Item>): seq<Item> {
    Kept(items) + if RepeatAt(items) >= 0 then [Goto(RepeatAt(items))] else []
  }

  /** What --retry means: the compiled schedule, a usage error, or an internal error. */
  ghost function Meaning(s: string, signal: nat): Parsed {
    if Slashes(s) == 0 then
      match ParseItem(s)
      case Some(Timeout(n)) => Ok([Signal(signal), Timeout(n), Signal(SIGKILL), Timeout(n)])
      case _ => Usage
    else
      match ParseAll(Pieces(s))
      case None => Usage
      case Some(items) =>
        if !Sensible(items) then Usage
        else if EndsInSlash(s) then Bug
        else Ok(Compiled(items))
  }

  // ---- the shape of what is accepted ----

  /** No `Forever`; at most one goto, at the end, and pointing strictly backwards. */
  ghost predicate WellShaped(p: seq<Item>) {
    && p != [] && (forall i :: 0 <= i < |p| ==> !p[i].Forever?)
    && (forall i :: 0 <= i < |p| && p[i].Goto? ==> i == |p| - 1 && p[i].target < i)
  }

  lemma {:induction false} KeptIs(items: seq<Item>)
    requires AtMostOnce(items)
    ensures RepeatAt(items) < 0 ==> Kept(items) == items
    ensures RepeatAt(items) >= 0 ==> Kept(items) == items[..RepeatAt(items)] + items[RepeatAt(items) + 1..]
    decreases |items|
  {
    if items != [] {
      var n := |items| - 1;
      var init, r := items[..n], RepeatAt(items[..n]);
      KeptIs(init);
      KeptLast(items);
      hide Kept, RepeatAt;
      if r >= 0 {
        assert items[r] == init[r];
        KeptTail(items, r);
      } else if items[n].Forever? {
        assert items[n + 1..] == [];
      } else {
        assert items == init + [items[n]];
      }
    }
  }

  lemma KeptLast(items: seq<Item>)
    requires items != []
    ensures var init, last := items[..|items| - 1], items[|items| - 1];
      && Kept(items) == Kept(init) + (if last.Forever? then [] else [last])
      && RepeatAt(items) ==
         if RepeatAt(init) >= 0 then RepeatAt(init) else if last.Forever? then |items| - 1 else -1
  { }

  lemma KeptTail(items: seq<Item>, r: nat)
    requires r < |items| - 1
    ensures var n := |items| - 1;
      items[..n][..r] + items[..n][r + 1..] + [items[n]] == items[..r] + items[r + 1..]
  { }

  lemma CompiledShape(items: seq<Item>)
    requires Sensible(items) && items != [] && forall i :: 0 <= i < |items| ==> !items[i].Goto?
    ensures WellShaped(Compiled(items)) && |Compiled(items)| == |items|
  {
    LoopShape(items);
    hide Kept, Compiled;
    var r := RepeatAt(items);
    var p := Compiled(items);
    if r >= 0 {
      forall i | 0 <= i < |items| - 1 ensures !p[i].Forever? {
        assert p[i] == items[if i < r then i else i + 1];
      }
    }
  }

  // ---- the parser ----

  /** What the loop has read so far, and what it keeps of it. */
  ghost predicate Reading(s: string, rest: string, items: seq<Item>, kept: seq<Item>, repeatAt: int) {
    && AtMostOnce(items) && kept == Kept(items) && repeatAt == RepeatAt(items)
    && |items| <= |Pieces(s)| && Pieces(s)[|items|..] == Pieces(rest)
    && ParseAll(Pieces(s)[..|items|]) == Some(items)
  }

  lemma StartReading(s: string)
    ensures Reading(s, s, [], [], -1)
  { }

  lemma NextPiece(s: string, rest: string, items: seq<Item>, kept: seq<Item>, repeatAt: int)
    requires Reading(s, rest, items, kept, repeatAt) && rest != ""
    ensures |items| < |Pieces(s)| && Pieces(s)[|items|] == rest[..Cut(rest)]
    ensures Pieces(s)[|items| + 1..] == Pieces(Rest(rest))
  {
    hide ParseAll, AtMostOnce, Kept, RepeatAt, Cut, Rest;
    var ps := Pieces(s);
    var n := |items|;
    assert ps[n] == ps[n..][0] == Pieces(rest)[0];
    assert ps[n + 1..] == ps[n..][1..];
  }

  /** A piece that is no item. */
  lemma BadPiece(s: string, rest: string, items: seq<Item>, kept: seq<Item>, repeatAt: int)
    requires Reading(s, rest, items, kept, repeatAt) && rest != ""
    requires Cut(rest) >= MAXITEM || ParseItem(rest[..Cut(rest)]).None?
    ensures ParseAll(Pieces(s)).None?
  {
    NextPiece(s, rest, items, kept, repeatAt);
    hide Pieces, ParseItem, Kept, RepeatAt, Cut, Rest;
  }

  lemma ParseOneMore(ps: seq<string>, n: nat, items: seq<Item>, it: Item)
    requires n < |ps| && ParseAll(ps[..n]) == Some(items) && |ps[n]| < MAXITEM && ParseItem(ps[n]) == Some(it)
    ensures ParseAll(ps[..n + 1]) == Some(items + [it])
  {
    hide ParseItem;
    var more := ps[..n + 1];
    forall i | 0 <= i < |more| ensures IsItem(more[i]) && ParseItem(more[i]) == Some((items + [it])[i]) {
      if i < n { assert more[i] == ps[..n][i]; }
    }
    assert ParseAll(more).value == items + [it];
  }

  lemma KeptSnoc(items: seq<Item>, it: Item)
    requires AtMostOnce(items) && (it.Forever? ==> RepeatAt(items) < 0)
    ensures AtMostOnce(items + [it])
    ensures !it.Forever? ==> Kept(items + [it]) == Kept(items) + [it] && RepeatAt(items + [it]) == RepeatAt(items)
    ensures it.Forever? ==> Kept(items + [it]) == Kept(items) && RepeatAt(items + [it]) == |items|
  {
    var all := items + [it];
    assert all[..|items|] == items;
    forall i, j | 0 <= i < j < |all| ensures !(all[i].Forever? && all[j].Forever?) {
      if j == |items| && it.Forever? { assert items[i] in items; }
    }
  }

  /** An item is kept. */
  lemma ReadItem(s: string, rest: string, items: seq<Item>, kept: seq<Item>, repeatAt: int, it: Item)
    requires Reading(s, rest, items, kept, repeatAt) && rest != ""
    requires Cut(rest) < MAXITEM && ParseItem(rest[..Cut(rest)]) == Some(it) && !it.Forever?
    ensures Reading(s, Rest(rest), items + [it], kept + [it], repeatAt)
  {
    hide Pieces, ParseItem, Cut, Rest, ParseAll, Kept, RepeatAt, AtMostOnce;
    NextPiece(s, rest, items, kept, repeatAt);
    ParseOneMore(Pieces(s), |items|, items, it);
    KeptSnoc(items, it);
  }

  /** The first "forever" is noted. */
  lemma ReadForever(s: string, rest: string, items: seq<Item>, kept: seq<Item>, repeatAt: int)
    requires Reading(s, rest, items, kept, repeatAt) && rest != "" && repeatAt < 0
    requires Cut(rest) < MAXITEM && ParseItem(rest[..Cut(rest)]) == Some(Forever)
    ensures Reading(s, Rest(rest), items + [Forever], kept, |items|) && |kept| == |items|
  {
    hide Pieces, ParseItem, Cut, Rest, ParseAll, Kept, RepeatAt, AtMostOnce;
    NextPiece(s, rest, items, kept, repeatAt);
    KeptIs(items);
    ParseOneMore(Pieces(s), |items|, items, Forever);
    KeptSnoc(items, Forever);
  }

  /** A second one is refused. */
  lemma ReadForeverAgain(s: string, rest: string, items: seq<Item>, kept: seq<Item>, repeatAt: int)
    requires Reading(s, rest, items, kept, repeatAt) && rest != "" && repeatAt >= 0
    requires Cut(rest) < MAXITEM && ParseItem(rest[..Cut(rest)]) == Some(Forever)
    ensures ParseAll(Pieces(s)).Some? ==> !Sensible(ParseAll(Pieces(s)).value)
  {
    NextPiece(s, rest, items, kept, repeatAt);
    hide Pieces, ParseItem, Cut, Rest, Kept;
    var ps := Pieces(s);
    if ParseAll(ps).Some? {
      SamePieces(ps, |items|, items);
      var all := ParseAll(ps).value;
      assert all[repeatAt].Forever? && all[|items|].Forever?;
    }
  }

  lemma SamePieces(ps: seq<string>, n: nat, items: seq<Item>)
    requires n <= |ps| && ParseAll(ps[..n]) == Some(items) && ParseAll(ps).Some?
    ensures forall i :: 0 <= i < n ==> ParseAll(ps).value[i] == items[i]
  { }

  lemma PiecesCount(s: string)
    requires s != ""
    ensures |Pieces(s)| == Slashes(s) + if EndsInSlash(s) then 0 else 1
  {
    PiecesAre(s);
  }

  lemma RoomLeft(s: string, rest: string, items: seq<Item>, kept: seq<Item>, repeatAt: int)
    requires Reading(s, rest, items, kept, repeatAt) && rest != ""
    ensures |items| < |Pieces(s)| && |kept| <= |items|
  {
    NextPiece(s, rest, items, kept, repeatAt);
    KeptIs(items);
  }

  /** At the end of the string. */
  lemma DoneReading(s: string, items: seq<Item>, kept: seq<Item>, repeatAt: int)
    requires Reading(s, "", items, kept, repeatAt) && Slashes(s) > 0
    ensures ParseAll(Pieces(s)) == Some(items) && |items| == |Pieces(s)| && -1 <= repeatAt
    ensures repeatAt == |kept| <==> !Sensible(items)
    ensures |kept| + (if repeatAt >= 0 then 1 else 0) == |items|
    ensures Compiled(items) == kept + if repeatAt >= 0 then [Goto(repeatAt)] else []
    ensures Sensible(items) ==> WellShaped(Compiled(items))
  {
    hide ParseItem;
    KeptIs(items);
    assert Pieces("") == [];
    assert Pieces(s)[..|items|] == Pieces(s);
    PiecesCount(s);
    hide Kept, RepeatAt, Pieces;
    if Sensible(items) {
      forall i | 0 <= i < |items| ensures !items[i].Goto? { assert Some(items[i]) == ParseItem(Pieces(s)[i]); }
      CompiledShape(items);
    }
  }

  /** `parse_schedule`: the array has room for every item, and what it finally holds is what --retry means. */
  method ParseSchedule(s: string, signal: nat) returns (r: Parsed)
    ensures r == Meaning(s, signal)
    ensures r.Ok? ==> WellShaped(r.schedule)
  {
    hide ParseItem, Kept, RepeatAt, ParseAll, Pieces, Cut, Rest, Reading, Sensible, WellShaped;
    var slashes := CountSlashes(s);
    var length := if slashes == 0 then 4 else slashes + 1;
    var schedule := new Item[length](_ => Forever);
    if slashes == 0 {
      var item := ParseItem(s);
      if item.None? || !item.value.Timeout? {
        return Usage;
      }
      schedule[0], schedule[1], schedule[2] := Signal(signal), item.value, Signal(SIGKILL);
      schedule[3] := schedule[1];
      assert schedule[..] == [Signal(signal), item.value, Signal(SIGKILL), item.value];
      FourShape(signal, item.value.secs);
      return Ok(schedule[..]);
    }
    r := ParseList(s, schedule);
  }

  /** The part for lists of items. */
  method ParseList(s: string, schedule: array<Item>) returns (r: Parsed)
    requires Slashes(s) > 0 && schedule.Length == Slashes(s) + 1
    modifies schedule
    ensures r == Meaning(s, 0)
    ensures r.Ok? ==> WellShaped(r.schedule)
  {
    hide ParseItem, Kept, RepeatAt, ParseAll, Pieces, Reading, Sensible, WellShaped, EndsInSlash;
    PiecesCount(s);
    var rest, count := s, 0;
    var repeatAt: int := -1;
    ghost var items: seq<Item> := [];
    StartReading(s);
    while rest != ""
      invariant count <= schedule.Length && Reading(s, rest, items, schedule[..count], repeatAt)
      decreases |rest|
    {
      var n := Cut(rest);
      if n >= MAXITEM {
        BadPiece(s, rest, items, schedule[..count], repeatAt);
        return Usage;
      }
      var item := ParseItem(rest[..n]);
      if item.None? {
        BadPiece(s, rest, items, schedule[..count], repeatAt);
        return Usage;
      }
      ghost var kept := schedule[..count];
      RoomLeft(s, rest, items, kept, repeatAt);
      schedule[count] := item.value;
      assert schedule[..count] == kept;
      if schedule[count].Forever? {
        if repeatAt >= 0 {
          ReadForeverAgain(s, rest, items, kept, repeatAt);
          return Usage;
        }
        ReadForever(s, rest, items, kept, repeatAt);
        repeatAt := count;
      } else {
        ReadItem(s, rest, items, kept, repeatAt, item.value);
        count := count + 1;
        assert schedule[..count] == kept + [item.value];
      }
      items := items + [item.value];
      rest := if n < |rest| then rest[n + 1..] else "";
    }
    DoneReading(s, items, schedule[..count], repeatAt);
    if repeatAt == count {
      return Usage;
    }
    if repeatAt >= 0 {
      schedule[count] := Goto(repeatAt);
      count := count + 1;
    }
    if count != schedule.Length {
      return Bug;
    }
    assert schedule[..] == Compiled(items);
    r := Ok(schedule[..]);
  }

  lemma FourShape(signal: nat, n: nat)
    ensures WellShaped([Signal(signal), Timeout(n), Signal(SIGKILL), Timeout(n)])
  { }

  method CountSlashes(s: string) returns (n: nat)
    ensures n == Slashes(s)
  {
    n := 0;
    var i := 0;
    assert s[0..] == s;
    while i < |s|
      invariant 0 <= i <= |s|
      invariant n + Slashes(s[i..]) == Slashes(s)
    {
      assert s[i..][1..] == s[i + 1..];
      if s[i] == '/' {
        n := n + 1;
      }
      i := i + 1;
    }
  }

  /**
   What a caller may write: a list is accepted exactly when each of its pieces
   is an item of less than 20 characters and "forever" occurs at most once and
   not last; a trailing slash after such a list is the one internal error.
   */
  lemma ListAccepted(s: string, signal: nat)
    requires Slashes(s) > 0
    ensures var pieces := Split(s);
      && (Meaning(s, signal).Ok? <==> ParseAll(pieces).Some? && Sensible(ParseAll(pieces).value))
      && (Meaning(s, signal).Ok? ==> Meaning(s, signal).schedule == Compiled(ParseAll(pieces).value))
      && (Meaning(s, signal).Bug? <==>
            EndsInSlash(s) && ParseAll(pieces[..|pieces| - 1]).Some? && Sensible(ParseAll(pieces[..|pieces| - 1]).value))
  {
    hide Signals, Sensible, ParseItem, Compiled, ParseAll, Split, Pieces;
    PiecesAre(s);
    if EndsInSlash(s) { LastIsBad(Split(s)); }
  }

  /** "5/5/" is such a list. */
  lemma TrailingSlash(signal: nat)
    ensures Meaning("5/5/", signal) == Bug
  {
    var s := "5/5/";
    assert s[1..] == "/5/" && s[2..] == "5/" && s[3..] == "/" && s[4..] == "";
    assert "5/"[1..] == "/" && "/"[1..] == "" && "/5/"[1..] == "5/";
    assert Slashes("/") == 1 && Slashes("5/") == 1 && Slashes("/5/") == 2 && Slashes(s) == 2;
    assert Cut("/5/") == 0 && Cut(s) == 1 && Cut("/") == 0 && Cut("5/") == 1;
    assert Rest(s) == "5/" && Rest("5/") == "";
    assert s[..1] == "5" && "5/"[..1] == "5";
    assert Pieces("") == [] && Pieces("5/") == ["5"] && Pieces(s) == ["5", "5"];
    NumeralFive();
    hide ParseItem;
    assert ParseAll(["5", "5"]).value == [Timeout(5), Timeout(5)];
  }

  lemma NumeralFive()
    ensures ParseItem("5") == Some(Timeout(5))
  {
    assert Decimal(5) == "5";
    ItemRoundTrip(Timeout(5));
  }

  lemma LastIsBad(pieces: seq<string>)
    requires pieces != [] && pieces[|pieces| - 1] == ""
    ensures ParseAll(pieces).None?
  { }

  // ---- what a schedule says, and what is executed ----

  /** The k-th action of a list as written: after "forever", what follows it is repeated endlessly. */
  function Act(items: seq<Item>, k: nat): Option<Item>
    requires items != [] ==> RepeatAt(items) < |items| - 1
  {
    var r := RepeatAt(items);
    if r < 0 then if k < |items| then Some(items[k]) else None
    else if k < r then Some(items[k])
    else Some(items[r + 1 + Remainder(k - r, |items| - r - 1)])
  }

  /** Where execution continues from a position. */
  function Resolve(p: seq<Item>, pos: nat): nat {
    if pos < |p| && p[pos].Goto? then p[pos].target else pos
  }

  /** The position of the k-th executed item. */
  function Position(p: seq<Item>, k: nat): nat {
    if k == 0 then Resolve(p, 0) else Resolve(p, Position(p, k - 1) + 1)
  }

  function Executed(p: seq<Item>, k: nat): Option<Item> {
    if Position(p, k) < |p| then Some(p[Position(p, k)]) else None
  }

  /** Without goto, position is count. */
  lemma {:induction false} PositionPlain(p: seq<Item>, k: nat)
    requires forall i :: 0 <= i < |p| ==> !p[i].Goto?
    ensures Position(p, k) == k
  {
    if k > 0 { PositionPlain(p, k - 1); }
  }

  /** With a goto at n back to r, position runs round from r to n - 1. */
  lemma {:induction false} PositionLoop(p: seq<Item>, r: nat, n: nat, k: nat)
    requires r < n && |p| == n + 1 && p[n] == Goto(r) && forall i :: 0 <= i < n ==> !p[i].Goto?
    ensures Position(p, k) == if k < r then k else r + Remainder(k - r, n - r)
  {
    if k > 0 {
      PositionLoop(p, r, n, k - 1);
      if k > r { RemainderStep(k - 1 - r, n - r); }
    }
  }

  /**
   Compilation is faithful: executing a compiled list performs exactly the
   actions written, and those after "forever" for ever.
   */
  lemma Faithful(items: seq<Item>, k: nat)
    requires Sensible(items) && items != [] && forall i :: 0 <= i < |items| ==> !items[i].Goto?
    ensures RepeatAt(items) < |items| - 1
    ensures Executed(Compiled(items), k) == Act(items, k)
  {
    var p := Compiled(items);
    var r := RepeatAt(items);
    hide Kept, RepeatAt, Compiled, Sensible, Position, Remainder;
    LoopShape(items);
    if r < 0 {
      PositionPlain(p, k);
    } else {
      PositionLoop(p, r, |items| - 1, k);
    }
  }

  lemma LoopShape(items: seq<Item>)
    requires Sensible(items) && items != [] && forall i :: 0 <= i < |items| ==> !items[i].Goto?
    ensures var r := RepeatAt(items);
      var p := Compiled(items);
      var n := |items| - 1;
      && r < n
      && (r < 0 ==> p == items)
      && (r >= 0 ==> |p| == n + 1 && p[n] == Goto(r) && forall i :: 0 <= i < n ==> p[i] == items[if i < r then i else i + 1])
  {
    hide *;
    LastStays(items);
    CompiledIs(items);
    var r := RepeatAt(items);
    if r >= 0 {
      forall i | 0 <= i < |items| - 1 ensures Compiled(items)[i] == items[if i < r then i else i + 1] { WithoutOne(items, r, i); }
    }
  }

  lemma CompiledIs(items: seq<Item>)
    requires AtMostOnce(items)
    ensures var r := RepeatAt(items);
      Compiled(items) == if r < 0 then items else items[..r] + items[r + 1..] + [Goto(r)]
  {
    hide Kept, RepeatAt, AtMostOnce;
    KeptIs(items);
    if RepeatAt(items) < 0 { assert items + [] == items; }
  }

  lemma WithoutOne(items: seq<Item>, r: nat, i: nat)
    requires r < |items| && i < |items| - 1
    ensures (items[..r] + items[r + 1..] + [Goto(r)])[i] == items[if i < r then i else i + 1]
  { }

  // ---- running ----

  /** `Refused` is exit status 2; `Running` is a run cut off because no more answers are known. */
  datatype Status = Finished(code: nat) | Refused | Running

  /**
   `run_stop_schedule`.  The k-th answer says how many processes were still
   there at the k-th action (after the signal, or at the last poll of the
   timeout).  Any finite part of any run is one of these.
   */
  method RunStop(p: seq<Item>, answers: seq<nat>, nodo: nat) returns (executed: seq<Item>, status: Status)
    requires WellShaped(p)
    ensures |executed| <= |answers| && forall k :: 0 <= k < |executed| ==> Executed(p, k) == Some(executed[k])
    ensures status.Finished? ==>
      && executed != [] && answers[|executed| - 1] == 0 && (forall k :: 0 <= k < |executed| - 1 ==> answers[k] > 0)
      && status.code == if exists k :: 0 <= k < |executed| - 1 && executed[k].Signal? then 0 else nodo
    ensures !status.Finished? ==> forall k :: 0 <= k < |executed| ==> answers[k] > 0
    ensures status.Refused? ==> Executed(p, |executed|).None?
    ensures status.Running? ==> |executed| == |answers| && Executed(p, |executed|).Some?
  {
    executed := [];
    var anyKilled := false;
    var position := 0;
    while position < |p|
      invariant 0 <= position <= |p| && |executed| <= |answers|
      invariant Resolve(p, position) == Position(p, |executed|)
      invariant forall k :: 0 <= k < |executed| ==> Executed(p, k) == Some(executed[k]) && answers[k] > 0
      invariant anyKilled <==> exists k :: 0 <= k < |executed| && executed[k].Signal?
      decreases |answers| - |executed|, if position < |p| && p[position].Goto? then 1 else 0
    {
      if p[position].Goto? {
        position := p[position].target;
      } else {
        if |executed| == |answers| {
          return executed, Running;
        }
        var left := answers[|executed|];
        var item := p[position];
        assert item in p;
        executed := executed + [item];
        if left == 0 {
          return executed, Finished(if anyKilled then 0 else nodo);
        }
        assert item.Signal? ==> executed[|executed| - 1].Signal?;
        anyKilled := anyKilled || item.Signal?;
        position := position + 1;
      }
    }
    return executed, Refused;
  }

  /** With "forever", exit status 2 is out of reach. */
  lemma ForeverNeverRefuses(items: seq<Item>, k: nat)
    requires Sensible(items) && Forever in items && forall i :: 0 <= i < |items| ==> !items[i].Goto?
    ensures Executed(Compiled(items), k).Some?
  {
    Faithful(items, k);
  }

  /** From what is written to what is done. */
  lemma RetryFaithful(s: string, signal: nat, k: nat)
    requires Meaning(s, signal).Ok?
    ensures var p := Meaning(s, signal).schedule;
      && (Slashes(s) == 0 ==> ParseItem(s).Some? && ParseItem(s).value.Timeout?)
      && (Slashes(s) == 0 ==> var wait := ParseItem(s).value;
            Executed(p, k) == if k < 4 then Some([Signal(signal), wait, Signal(SIGKILL), wait][k]) else None)
      && (Slashes(s) > 0 ==> ParseAll(Split(s)).Some? && RepeatAt(ParseAll(Split(s)).value) < |ParseAll(Split(s)).value| - 1)
      && (Slashes(s) > 0 ==> Executed(p, k) == Act(ParseAll(Split(s)).value, k))
  {
    var p := Meaning(s, signal).schedule;
    hide ParseItem, Split, Pieces, Compiled, Act, Executed, RepeatAt, Sensible, EndsInSlash;
    if Slashes(s) == 0 {
      FourExecuted(p, k);
    } else {
      ListAccepted(s, signal);
      var items := ParseAll(Split(s)).value;
      forall i | 0 <= i < |items| ensures !items[i].Goto? { assert Some(items[i]) == ParseItem(Split(s)[i]); }
      Faithful(items, k);
    }
  }

  lemma FourExecuted(p: seq<Item>, k: nat)
    requires |p| == 4 && forall i :: 0 <= i < |p| ==> !p[i].Goto?
    ensures Executed(p, k) == if k < 4 then Some(p[k]) else None
  {
    PositionPlain(p, k);
  }

  // ---- schedules as they are written ----

  /** Seconds and signal numbers that an int holds; a goto is not written. */
  predicate Writable(it: Item) {
    match it
    case Timeout(n) => n <= INT_MAX
    case Signal(n) => n <= INT_MAX
    case Goto(_) => false
    case Forever => true
  }

  function WriteItem(it: Item): string
    requires Writable(it)
  {
    match it
    case Timeout(n) => Decimal(n)
    case Signal(n) => "-" + Decimal(n)
    case Forever => "forever"
  }

  function Join(pieces: seq<string>): string
    requires pieces != []
  {
    if |pieces| == 1 then pieces[0] else pieces[0] + ("/" + Join(pieces[1..]))
  }

  /** The numeral of a number that fits. */
  lemma Numeral(n: nat)
    requires n <= INT_MAX
    ensures var d := Decimal(n);
      && d != "" && IsDigit(d[0]) && '/' !in d && |d| <= 10 && ParseUnsigned(d) == Some(n)
      && d != "forever" && "-" + d != "forever" && ("-" + d)[0] == '-' && ("-" + d)[1..] == d && '/' !in "-" + d
  {
    var d := Decimal(n);
    StrToLDecimal(n);
    DecimalShort(n, 10);
    hide StrToL, Decimal;
    assert d[0] != "forever"[0] && ("-" + d)[0] != "forever"[0];
    forall c | c in d ensures c != '/' { assert IsDigit(c); }
  }

  lemma ItemRoundTrip(it: Item)
    requires Writable(it)
    ensures ParseItem(WriteItem(it)) == Some(it) && '/' !in WriteItem(it) && |WriteItem(it)| < MAXITEM
  {
    hide Signals, ParseUnsigned, Decimal, AllDigits;
    match it
    case Timeout(n) => Numeral(n);
    case Signal(n) => Numeral(n);
    case Forever =>
      assert forall i :: 0 <= i < |"forever"| ==> "forever"[i] != '/';
  }

  lemma {:induction false} CutAt(a: string, b: string)
    requires '/' !in a && (b == "" || b[0] == '/')
    ensures Cut(a + b) == |a|
    decreases |a|
  {
    if a == "" {
      assert a + b == b;
    } else {
      assert (a + b)[1..] == a[1..] + b && (a + b)[0] == a[0] && a[0] in a;
      CutAt(a[1..], b);
    }
  }

  lemma {:induction false} SplitJoin(pieces: seq<string>)
    requires pieces != [] && forall i :: 0 <= i < |pieces| ==> '/' !in pieces[i]
    ensures Split(Join(pieces)) == pieces
    decreases |pieces|
  {
    hide Split, Cut, Join, Slashes;
    JoinStep(pieces);
    var p := pieces[0];
    if |pieces| == 1 {
      CutAt(p, "");
      SplitOne(p);
      assert p + "" == p && pieces == [p];
    } else {
      SplitJoin(pieces[1..]);
      SplitMore(p, Join(pieces[1..]));
      assert pieces == [p] + pieces[1..];
    }
  }

  lemma JoinStep(pieces: seq<string>)
    requires pieces != []
    ensures Join(pieces) == if |pieces| == 1 then pieces[0] else pieces[0] + ("/" + Join(pieces[1..]))
  { }

  lemma SplitOne(p: string)
    requires Cut(p) == |p|
    ensures Split(p) == [p]
  { }

  lemma SplitMore(p: string, rest: string)
    requires '/' !in p
    ensures Split(p + ("/" + rest)) == [p] + Split(rest)
  {
    hide Split, Cut, Slashes;
    var s := p + ("/" + rest);
    CutAt(p, "/" + rest);
    assert s[..|p|] == p && s[|p| + 1..] == rest;
    TwoPieces(s);
  }

  function WriteItems(items: seq<Item>): (r: seq<string>)
    requires forall i :: 0 <= i < |items| ==> Writable(items[i])
    ensures |r| == |items| && forall i :: 0 <= i < |items| ==> r[i] == WriteItem(items[i])
  {
    seq(|items|, i requires 0 <= i < |items| => WriteItem(items[i]))
  }

  /**
   Round trip: a list of at least two items, with "forever" at most once and not
   last, is accepted as it is written, and executed as it says.
   */
  lemma ScheduleRoundTrip(items: seq<Item>, signal: nat, k: nat)
    requires |items| >= 2 && Sensible(items) && forall i :: 0 <= i < |items| ==> Writable(items[i])
    ensures var s := Join(WriteItems(items));
      && Meaning(s, signal) == Ok(Compiled(items))
      && RepeatAt(items) < |items| - 1
      && Executed(Compiled(items), k) == Act(items, k)
  {
    hide *;
    var s := Join(WriteItems(items));
    WrittenItems(items);
    ListAccepted(s, signal);
    assert RepeatAt(items) < |items| - 1 by { LastStays(items); }
    NoGoto(items);
    Faithful(items, k);
  }

  /** The list is split and parsed into what was written. */
  lemma WrittenItems(items: seq<Item>)
    requires |items| >= 2 && forall i :: 0 <= i < |items| ==> Writable(items[i])
    ensures var s := Join(WriteItems(items)); ParseAll(Split(s)) == Some(items) && Slashes(s) > 0
  {
    var pieces := WriteItems(items);
    hide *;
    forall i | 0 <= i < |pieces| ensures |pieces[i]| < MAXITEM && ParseItem(pieces[i]) == Some(items[i]) && '/' !in pieces[i] {
      ItemRoundTrip(items[i]);
    }
    SplitJoin(pieces);
    ParsedIs(pieces, items);
  }

  lemma ParsedIs(pieces: seq<string>, items: seq<Item>)
    requires |pieces| == |items|
    requires forall i :: 0 <= i < |pieces| ==> |pieces[i]| < MAXITEM && ParseItem(pieces[i]) == Some(items[i])
    ensures ParseAll(pieces) == Some(items)
  {
    hide ParseItem;
    forall i | 0 <= i < |pieces| ensures IsItem(pieces[i]) && ParseItem(pieces[i]).value == items[i] { }
    assert ParseAll(pieces).value == items;
  }

  lemma LastStays(items: seq<Item>)
    requires Sensible(items) && items != []
    ensures RepeatAt(items) < |items| - 1 && AtMostOnce(items)
  {
    hide RepeatAt;
  }

  lemma NoGoto(items: seq<Item>)
    requires forall i :: 0 <= i < |items| ==> Writable(items[i])
    ensures forall i :: 0 <= i < |items| ==> !items[i].Goto?
  { }

  // ---- schedules as they are written, by any pieces that are items ----

  lemma PiecesAccepted(pieces: seq<string>, items: seq<Item>, signal: nat)
    requires |pieces| == |items| >= 2 && Sensible(items)
    requires forall i :: 0 <= i < |pieces| ==>
      |pieces[i]| < MAXITEM && '/' !in pieces[i] && ParseItem(pieces[i]) == Some(items[i])
    ensures Meaning(Join(pieces), signal) == Ok(Compiled(items))
  {
    hide *;
    SplitJoin(pieces);
    ParsedIs(pieces, items);
    ListAccepted(Join(pieces), signal);
  }

  /** TERM, half a minute's wait, KILL, five seconds' wait. */
  lemma CommonSchedule(signal: nat)
    ensures Meaning(Join(["TERM", "30", "KILL", "5"]), signal) == Ok([Signal(15), Timeout(30), Signal(9), Timeout(5)])
  {
    hide *;
    CommonItems();
    CompiledCommon();
    PiecesAccepted(["TERM", "30", "KILL", "5"], [Signal(15), Timeout(30), Signal(9), Timeout(5)], signal);
  }

  lemma CommonItems()
    ensures ParseItem("TERM") == Some(Signal(15)) && ParseItem("KILL") == Some(Signal(9))
    ensures ParseItem("30") == Some(Timeout(30)) && ParseItem("5") == Some(Timeout(5))
    ensures '/' !in "TERM" && '/' !in "30" && '/' !in "KILL" && '/' !in "5" && MAXITEM == 20
  {
    hide *;
    NamedTermAndKill();
    NumeralFive();
    NumeralThirty();
    NoSlashes();
  }

  lemma NamedTermAndKill()
    ensures ParseItem("TERM") == Some(Signal(15)) && ParseItem("KILL") == Some(Signal(9))
  {
    hide ParseItem;
    NamedSignal("TERM");
    NamedSignal("KILL");
  }

  lemma NoSlashes()
    ensures '/' !in "TERM" && '/' !in "30" && '/' !in "KILL" && '/' !in "5" && MAXITEM == 20
  {
    hide ParseItem, Signals;
  }

  lemma NumeralThirty()
    ensures ParseItem("30") == Some(Timeout(30))
  {
    assert Decimal(3) == "3" && Decimal(30) == "30";
    ItemRoundTrip(Timeout(30));
  }

  lemma CompiledCommon()
    ensures var items := [Signal(15), Timeout(30), Signal(9), Timeout(5)]; Sensible(items) && Compiled(items) == items
  {
    var items := [Signal(15), Timeout(30), Signal(9), Timeout(5)];
    hide RepeatAt, Kept;
    CompiledIs(items);
  }
}
