/**
 Command lines as users write them (lib/compat/getopt.c): clusters of letters,
 declared or not, options with an argument attached or following, or without the
 one they could have, long options in full or abbreviated, wrong ones, operands,
 in any order, and "--".  What getopt reads is stated letter by letter and name by
 name.
 */
module CommandLine {
  import opened Text
  import opened Getopt

  datatype Arg =
    | Operand(text: string)
    | Letters(letters: string)                                              // -abc
    | Bare(letters: string, c: char)                                        // -abC, C having an optional argument
    | Short(letters: string, c: char, arg: string, attached: bool)          // -abCARG or -abC ARG
    | Long(i: nat, text: string)                                            // --name
    | LongWith(i: nat, text: string, arg: string, attached: bool)           // --name=ARG or --name ARG
    | LongRefused(i: nat, text: string, arg: string)                        // --name=ARG, the option having no argument
    | LongBad(text: string, given: Option<string>)                          // --nonsense or --nonsense=ARG

  // ---- what may be written ----

  /** A letter of the option string, followed there by n colons exactly, as far as getopt looks. */
  predicate Declared(cfg: Config, c: char, n: nat) {
    && c != '-' && c != ':' && FirstIndex(cfg.optstring, c).Some?
    && var t := FirstIndex(cfg.optstring, c).value;
       var s := cfg.optstring;
       var one := t + 1 < |s| && s[t + 1] == ':';
       var two := one && t + 2 < |s| && s[t + 2] == ':';
       n == if two then 2 else if one then 1 else 0
  }

  predicate Undeclared(cfg: Config, c: char) { c == ':' || c !in cfg.optstring }

  /** Letters without arguments; the first one is not '-', which would make the element a long option. */
  predicate AllPlain(cfg: Config, s: string) {
    (s != "" ==> s[0] != '-') && forall i :: 0 <= i < |s| ==> Declared(cfg, s[i], 0) || Undeclared(cfg, s[i])
  }

  predicate Entry(cfg: Config, i: nat) { cfg.longopts.Some? && i < |cfg.longopts.value| }

  /** Two entries that are told apart by what they do, not only by name; getopt_long_only tells any two apart. */
  predicate Disagree(cfg: Config, i: nat, k: nat)
    requires Entry(cfg, i) && Entry(cfg, k)
  {
    var a, b := cfg.longopts.value[i], cfg.longopts.value[k];
    cfg.longOnly || a.hasArg != b.hasArg || a.flag != b.flag || a.val != b.val
  }

  /** The text is the name of an entry, in full. */
  predicate InFull(cfg: Config, i: nat, text: string) {
    && Entry(cfg, i) && cfg.longopts.value[i].name == text
    && forall j :: 0 <= j < i ==> cfg.longopts.value[j].name != text
  }

  /** No entry has that name; this is the first one it abbreviates, and it disagrees with no other it abbreviates. */
  predicate InShort(cfg: Config, i: nat, text: string) {
    && Entry(cfg, i) && text <= cfg.longopts.value[i].name
    && (forall j :: 0 <= j < |cfg.longopts.value| ==> cfg.longopts.value[j].name != text)
    && (forall j :: 0 <= j < i ==> !(text <= cfg.longopts.value[j].name))
    && (forall j :: i < j < |cfg.longopts.value| && text <= cfg.longopts.value[j].name ==> !Disagree(cfg, i, j))
  }

  predicate Spells(cfg: Config, i: nat, text: string) {
    text != "" && '=' !in text && (InFull(cfg, i, text) || InShort(cfg, i, text))
  }

  /** The text abbreviates no entry, or two that disagree, the first being the first of all. */
  predicate SpellsNothing(cfg: Config, text: string) {
    && text != "" && '=' !in text && cfg.longopts.Some?
    && var opts := cfg.longopts.value;
       && (forall j :: 0 <= j < |opts| ==> opts[j].name != text)
       && ((forall j :: 0 <= j < |opts| ==> !(text <= opts[j].name))
           || exists i, k :: 0 <= i < k < |opts| && text <= opts[i].name && text <= opts[k].name && Disagree(cfg, i, k)
                          && forall j :: 0 <= j < i ==> !(text <= opts[j].name))
  }

  predicate Valid(cfg: Config, a: Arg) {
    match a
    case Operand(t) => NonOption(t)
    case Letters(s) => !cfg.longOnly && s != "" && AllPlain(cfg, s)
    case Bare(s, c) => !cfg.longOnly && AllPlain(cfg, s) && Declared(cfg, c, 2)
    case Short(s, c, arg, attached) =>
      !cfg.longOnly && AllPlain(cfg, s) && (Declared(cfg, c, 1) || (attached && Declared(cfg, c, 2))) && (attached ==> arg != "")
    case Long(i, t) => Spells(cfg, i, t) && cfg.longopts.value[i].hasArg != 1
    case LongWith(i, t, _, attached) =>
      Spells(cfg, i, t) && (cfg.longopts.value[i].hasArg == 1 || (attached && cfg.longopts.value[i].hasArg != 0))
    case LongRefused(i, t, _) => Spells(cfg, i, t) && cfg.longopts.value[i].hasArg == 0
    case LongBad(t, _) => SpellsNothing(cfg, t)
  }

  // ---- how it is written ----

  function Written(a: Arg): seq<string> {
    match a
    case Operand(t) => [t]
    case Letters(s) => ["-" + s]
    case Bare(s, c) => ["-" + (s + [c])]
    case Short(s, c, arg, attached) => if attached then ["-" + (s + ([c] + arg))] else ["-" + (s + [c]), arg]
    case Long(_, t) => ["--" + t]
    case LongWith(_, t, arg, attached) => if attached then ["--" + (t + ("=" + arg))] else ["--" + t, arg]
    case LongRefused(_, t, arg) => ["--" + (t + ("=" + arg))]
    case LongBad(t, arg) => ["--" + (t + if arg.Some? then "=" + arg.value else "")]
  }

  // ---- what it means ----

  /** The answer for a letter: itself, or '?' if it is not declared. */
  function LetterCode(cfg: Config, c: char): int { if Undeclared(cfg, c) then '?' as int else c as int }

  function LetterCodes(cfg: Config, s: string): seq<(int, Option<string>)> {
    seq(|s|, i requires 0 <= i < |s| => (LetterCode(cfg, s[i]), None))
  }

  /** The value of a long option; one that sets a flag is reported as 0. */
  function LongCode(cfg: Config, i: nat): int
    requires Entry(cfg, i)
  {
    if cfg.longopts.value[i].flag.Some? then 0 else cfg.longopts.value[i].val
  }

  function Codes(cfg: Config, a: Arg): seq<(int, Option<string>)>
    requires Valid(cfg, a)
  {
    match a
    case Operand(_) => []
    case Letters(s) => LetterCodes(cfg, s)
    case Bare(s, c) => LetterCodes(cfg, s) + [(c as int, None)]
    case Short(s, c, arg, _) => LetterCodes(cfg, s) + [(c as int, Some(arg))]
    case Long(i, _) => [(LongCode(cfg, i), None)]
    case LongWith(i, _, arg, _) => [(LongCode(cfg, i), Some(arg))]
    case LongRefused(_, _, _) => [('?' as int, None)]
    case LongBad(_, _) => [('?' as int, None)]
  }

  /** The reading with one more argument in front. */
  function Before(cfg: Config, a: Arg, r: Reading): Reading
    requires Valid(cfg, a)
  {
    if a.Operand? then r.(operands := [a.text] + r.operands)
    else Reading(Written(a) + r.options, r.operands, Codes(cfg, a) + r.codes)
  }

  // ---- short options ----

  /** Plain letters in front of the rest of an element. */
  lemma {:induction false} LettersFirst(cfg: Config, elem: string, ls: string, tail: string, next: Option<string>)
    requires |elem| >= 2 && !IsLong(cfg, elem) && tail != ""
    requires forall i :: 0 <= i < |ls| ==> Declared(cfg, ls[i], 0) || Undeclared(cfg, ls[i])
    ensures ElementCodes(cfg, elem, ls + tail, next) == LetterCodes(cfg, ls) + ElementCodes(cfg, elem, tail, next)
    ensures UsesNext(cfg, elem, ls + tail, next) == UsesNext(cfg, elem, tail, next)
    decreases |ls|
  {
    hide IsLong, ElementCodes, UsesNext, Declared, Undeclared, LetterCode;
    if ls == "" {
      assert ls + tail == tail && LetterCodes(cfg, ls) == [];
    } else {
      var rest := ls[1..] + tail;
      LettersFirst(cfg, elem, ls[1..], tail, next);
      LetterStep(cfg, elem, ls[0], rest, next);
      assert [ls[0]] + rest == ls + tail;
      assert LetterCodes(cfg, ls) == [(LetterCode(cfg, ls[0]), None)] + LetterCodes(cfg, ls[1..]);
    }
  }

  lemma LetterStep(cfg: Config, elem: string, c: char, rest: string, next: Option<string>)
    requires |elem| >= 2 && !IsLong(cfg, elem) && (Declared(cfg, c, 0) || Undeclared(cfg, c)) && rest != ""
    ensures ElementCodes(cfg, elem, [c] + rest, next) == [(LetterCode(cfg, c), None)] + ElementCodes(cfg, elem, rest, next)
    ensures UsesNext(cfg, elem, [c] + rest, next) == UsesNext(cfg, elem, rest, next)
  {
    hide IsLong, Declared, Undeclared, Decode, LetterCode;
    OneLetter(cfg, elem, c, rest, next);
  }

  lemma OneLetter(cfg: Config, elem: string, c: char, rest: string, next: Option<string>)
    requires |elem| >= 2 && !IsLong(cfg, elem) && (Declared(cfg, c, 0) || Undeclared(cfg, c))
    ensures Decode(cfg, elem, [c] + rest, next) == Step(LetterCode(cfg, c), None, rest, rest == "", false)
  {
    hide FirstIndex;
    assert ([c] + rest)[1..] == rest;
    FirstIndexIn(cfg.optstring, c);
  }

  lemma FirstIndexIn(s: string, c: char)
    ensures FirstIndex(s, c).Some? <==> c in s
  { }

  /** The last letter of a cluster, with its argument if it has one. */
  lemma LastLetter(cfg: Config, elem: string, c: char, arg: string, next: Option<string>)
    requires |elem| >= 2 && !IsLong(cfg, elem) && (Declared(cfg, c, 1) || (arg != "" && Declared(cfg, c, 2)))
    requires arg == "" ==> next.Some?
    ensures ElementCodes(cfg, elem, [c] + arg, next) == [(c as int, if arg == "" then next else Some(arg))]
    ensures UsesNext(cfg, elem, [c] + arg, next) <==> arg == ""
  {
    LetterDecodes(cfg, elem, c, arg, next);
    hide Decode, Declared, IsLong;
  }

  lemma LetterDecodes(cfg: Config, elem: string, c: char, arg: string, next: Option<string>)
    requires |elem| >= 2 && !IsLong(cfg, elem) && (Declared(cfg, c, 1) || (arg != "" && Declared(cfg, c, 2)))
    requires arg == "" ==> next.Some?
    ensures Decode(cfg, elem, [c] + arg, next) == Step(c as int, if arg == "" then next else Some(arg), "", true, arg == "")
  {
    hide FirstIndex, IsLong;
    assert ([c] + arg)[1..] == arg;
  }

  /** An optional argument is not looked for in the next element; a required one may be missing. */
  lemma LetterAlone(cfg: Config, elem: string, c: char, next: Option<string>)
    requires |elem| >= 2 && !IsLong(cfg, elem) && (Declared(cfg, c, 2) || (Declared(cfg, c, 1) && next.None?))
    ensures var code := if Declared(cfg, c, 2) then c as int else MissingCode(cfg);
      ElementCodes(cfg, elem, [c], next) == [(code, None)] && !UsesNext(cfg, elem, [c], next)
  {
    AloneDecodes(cfg, elem, c, next);
    hide Decode, Declared, IsLong;
  }

  lemma AloneDecodes(cfg: Config, elem: string, c: char, next: Option<string>)
    requires |elem| >= 2 && !IsLong(cfg, elem) && (Declared(cfg, c, 2) || (Declared(cfg, c, 1) && next.None?))
    ensures Decode(cfg, elem, [c], next) == Step(if Declared(cfg, c, 2) then c as int else MissingCode(cfg), None, "", true, false)
  {
    hide FirstIndex, IsLong;
    assert [c][1..] == "";
  }

  /** A missing argument is reported as ':' if the option string starts with one. */
  function MissingCode(cfg: Config): int { if cfg.optstring != "" && cfg.optstring[0] == ':' then ':' as int else '?' as int }

  // ---- long options ----

  lemma {:induction false} NameEndAt(name: string, rest: string)
    requires '=' !in name && (rest == "" || rest[0] == '=')
    ensures NameEnd(name + rest) == |name|
    decreases |name|
  {
    if name == "" {
      assert name + rest == rest;
    } else {
      assert (name + rest)[1..] == name[1..] + rest && (name + rest)[0] == name[0];
      assert name[0] in name;
      NameEndAt(name[1..], rest);
    }
  }

  lemma SpelledIsFound(cfg: Config, i: nat, text: string)
    requires Spells(cfg, i, text)
    ensures LookupName(cfg.longopts.value, text, cfg.longOnly) == Found(i)
  {
    var opts := cfg.longopts.value;
    var r := First(opts, (o: LongOpt) => o.name == text);
    if InFull(cfg, i, text) {
      assert r.Some? && r.value == i;
    } else {
      assert r.None?;
      var f := First(opts, (o: LongOpt) => Abbreviates(text, o));
      assert f.Some? && f.value == i;
    }
  }

  lemma NothingIsFound(cfg: Config, text: string)
    requires SpellsNothing(cfg, text)
    ensures !LookupName(cfg.longopts.value, text, cfg.longOnly).Found?
  {
    var opts := cfg.longopts.value;
    var r := First(opts, (o: LongOpt) => o.name == text);
    assert r.None?;
    var f := First(opts, (o: LongOpt) => Abbreviates(text, o));
    if f.Some? {
      assert text <= opts[f.value].name;
      var i, k :| 0 <= i < k < |opts| && text <= opts[i].name && text <= opts[k].name && Disagree(cfg, i, k)
                  && forall j :: 0 <= j < i ==> !(text <= opts[j].name);
      assert f.value == i && Conflict(opts, text, cfg.longOnly, i, k);
    }
  }

  lemma LongDecodes(cfg: Config, elem: string, i: nat, text: string, rest: string, next: Option<string>)
    requires Spells(cfg, i, text) && |elem| >= 2 && elem[1] == '-' && (rest == "" || rest[0] == '=')
    ensures Decode(cfg, elem, text + rest, next) == DecodeFound(cfg, cfg.longopts.value[i], text + rest, next)
    ensures NameEnd(text + rest) == |text|
  {
    hide LookupName, DecodeFound, NameEnd;
    NameEndAt(text, rest);
    assert (text + rest)[..|text|] == text;
    SpelledIsFound(cfg, i, text);
  }

  lemma NothingDecodes(cfg: Config, elem: string, text: string, rest: string, next: Option<string>)
    requires SpellsNothing(cfg, text) && |elem| >= 2 && elem[1] == '-' && (rest == "" || rest[0] == '=')
    ensures Decode(cfg, elem, text + rest, next) == Step('?' as int, None, "", true, false)
  {
    hide LookupName, NameEnd;
    NameEndAt(text, rest);
    assert (text + rest)[..|text|] == text;
    NothingIsFound(cfg, text);
  }

  // ---- one argument ----

  /** An element that is an option, given how much of it and of the next one is used. */
  lemma ElementIs(cfg: Config, s: seq<string>, used: nat)
    requires s != [] && !NonOption(s[0]) && s[0] != "--" && 1 <= used <= |s| && used <= 2
    requires UsesNext(cfg, s[0], Start(cfg, s[0]), Head(s[1..])) == (used == 2)
    ensures var r := Read(cfg, s[used..]);
      Read(cfg, s) == Reading(s[..used] + r.options, r.operands, ElementCodes(cfg, s[0], Start(cfg, s[0]), Head(s[1..])) + r.codes)
  {
    hide UsesNext, ElementCodes;
  }

  lemma ShortElement(cfg: Config, letters: string)
    requires letters != "" && letters[0] != '-' && !cfg.longOnly
    ensures var e := "-" + letters;
      !NonOption(e) && e != "--" && |e| >= 2 && !IsLong(cfg, e) && Start(cfg, e) == letters
  {
    var e := "-" + letters;
    assert e[1] == letters[0] && e[1..] == letters;
  }

  lemma LongElement(cfg: Config, text: string)
    requires text != "" && cfg.longopts.Some?
    ensures var e := "--" + text; !NonOption(e) && e != "--" && |e| >= 2 && e[1] == '-' && Start(cfg, e) == text
  {
    var e := "--" + text;
    assert e[1] == '-' && e[2..] == text && |e| > 2;
  }

  lemma ReadLetters(cfg: Config, letters: string, rest: seq<string>)
    requires Valid(cfg, Letters(letters))
    ensures Read(cfg, Written(Letters(letters)) + rest) == Before(cfg, Letters(letters), Read(cfg, rest))
  {
    var n := |letters| - 1;
    var e, next := "-" + letters, Head(rest);
    ShortElement(cfg, letters);
    LettersFirst(cfg, e, letters[..n], letters[n..], next);
    OneLetter(cfg, e, letters[n], "", next);
    assert letters[..n] + letters[n..] == letters && letters[n..] == [letters[n]] + "";
    assert LetterCodes(cfg, letters) == LetterCodes(cfg, letters[..n]) + [(LetterCode(cfg, letters[n]), None)];
    hide Decode, Start, Declared, Undeclared, IsLong;
    assert ElementCodes(cfg, e, letters[n..], next) == [(LetterCode(cfg, letters[n]), None)] && !UsesNext(cfg, e, letters[n..], next);
    var s := [e] + rest;
    assert s[1..] == rest && s[..1] == [e];
    hide LetterCodes, ElementCodes, UsesNext, Read;
    ElementIs(cfg, s, 1);
  }

  lemma ReadBare(cfg: Config, a: Arg, rest: seq<string>)
    requires a.Bare? && Valid(cfg, a)
    ensures Read(cfg, Written(a) + rest) == Before(cfg, a, Read(cfg, rest))
  {
    var letters := a.letters + [a.c];
    var e, next := "-" + letters, Head(rest);
    assert letters[0] == if a.letters == "" then a.c else a.letters[0];
    ShortElement(cfg, letters);
    LettersFirst(cfg, e, a.letters, [a.c], next);
    LetterAlone(cfg, e, a.c, next);
    hide Decode, Start, Declared, Undeclared, IsLong, LetterCodes, ElementCodes, UsesNext, Read;
    var s := [e] + rest;
    assert s[1..] == rest && s[..1] == [e];
    ElementIs(cfg, s, 1);
  }

  lemma ReadShort(cfg: Config, a: Arg, rest: seq<string>)
    requires !LongViaW(cfg) && a.Short? && Valid(cfg, a)
    ensures Read(cfg, Written(a) + rest) == Before(cfg, a, Read(cfg, rest))
  {
    var w := Written(a);
    var s := w + rest;
    var tail := if a.attached then [a.c] + a.arg else [a.c] + "";
    var letters := a.letters + tail;
    assert letters[0] == if a.letters == "" then a.c else a.letters[0];
    assert w[0] == "-" + letters by { assert [a.c] + "" == [a.c]; }
    ShortElement(cfg, letters);
    var next := Head(s[1..]);
    assert !a.attached ==> s[1] == a.arg && next == Some(a.arg);
    LettersFirst(cfg, w[0], a.letters, tail, next);
    LastLetter(cfg, w[0], a.c, if a.attached then a.arg else "", next);
    hide Decode, Start, Declared, Undeclared, IsLong, LetterCodes, ElementCodes, UsesNext, Read;
    assert s[|w|..] == rest && s[..|w|] == w;
    ElementIs(cfg, s, |w|);
  }

  predicate IsLongArg(a: Arg) { a.Long? || a.LongWith? || a.LongRefused? || a.LongBad? }

  /** What follows the name in the same element. */
  function LongTail(a: Arg): string
    requires IsLongArg(a)
  {
    match a
    case LongWith(_, _, arg, attached) => if attached then "=" + arg else ""
    case LongRefused(_, _, arg) => "=" + arg
    case LongBad(_, arg) => if arg.Some? then "=" + arg.value else ""
    case _ => ""
  }

  lemma LongCodes(cfg: Config, elem: string, a: Arg, next: Option<string>)
    requires IsLongArg(a) && Valid(cfg, a) && |elem| >= 2 && elem[1] == '-'
    requires a.LongWith? && !a.attached ==> next == Some(a.arg)
    ensures var text := a.text + LongTail(a);
      && ElementCodes(cfg, elem, text, next) == Codes(cfg, a)
      && (UsesNext(cfg, elem, text, next) <==> a.LongWith? && !a.attached)
  {
    var tail := LongTail(a);
    if a.LongBad? {
      NothingDecodes(cfg, elem, a.text, tail, next);
    } else {
      LongDecodes(cfg, elem, a.i, a.text, tail, next);
    }
    assert a.LongWith? && a.attached ==> (a.text + tail)[|a.text| + 1..] == a.arg;
    hide Decode, NameEnd, Spells, SpellsNothing;
  }

  lemma ReadLong(cfg: Config, a: Arg, rest: seq<string>)
    requires !LongViaW(cfg) && IsLongArg(a) && Valid(cfg, a)
    ensures Read(cfg, Written(a) + rest) == Before(cfg, a, Read(cfg, rest))
  {
    var w := Written(a);
    var s := w + rest;
    var text := a.text + LongTail(a);
    assert w[0] == "--" + text by { assert a.text + "" == a.text; }
    assert cfg.longopts.Some?;
    LongElement(cfg, text);
    var next := Head(s[1..]);
    assert a.LongWith? && !a.attached ==> s[1] == a.arg && next == Some(a.arg);
    LongCodes(cfg, w[0], a, next);
    hide Decode, Start, NameEnd, Spells, SpellsNothing, ElementCodes, UsesNext, Read, Codes;
    assert s[|w|..] == rest && s[..|w|] == w;
    ElementIs(cfg, s, |w|);
  }

  lemma ReadOne(cfg: Config, a: Arg, rest: seq<string>)
    requires !LongViaW(cfg) && Valid(cfg, a)
    ensures Read(cfg, Written(a) + rest) == Before(cfg, a, Read(cfg, rest))
  {
    match a
    case Operand(t) =>
      assert ([t] + rest)[1..] == rest && t != "--";
    case Letters(s) => ReadLetters(cfg, s, rest);
    case Bare(_, _) => ReadBare(cfg, a, rest);
    case Short(_, _, _, _) => ReadShort(cfg, a, rest);
    case _ => ReadLong(cfg, a, rest);
  }

  // ---- whole command lines ----

  function WrittenAll(cfg: Config, args: seq<Arg>): seq<string>
    requires forall i :: 0 <= i < |args| ==> Valid(cfg, args[i])
  {
    if args == [] then [] else Written(args[0]) + WrittenAll(cfg, args[1..])
  }

  function OptionsOf(cfg: Config, args: seq<Arg>): seq<string>
    requires forall i :: 0 <= i < |args| ==> Valid(cfg, args[i])
  {
    if args == [] then [] else (if args[0].Operand? then [] else Written(args[0])) + OptionsOf(cfg, args[1..])
  }

  function OperandsOf(args: seq<Arg>): seq<string> {
    if args == [] then [] else (if args[0].Operand? then [args[0].text] else []) + OperandsOf(args[1..])
  }

  function CodesOf(cfg: Config, args: seq<Arg>): seq<(int, Option<string>)>
    requires forall i :: 0 <= i < |args| ==> Valid(cfg, args[i])
  {
    if args == [] then [] else Codes(cfg, args[0]) + CodesOf(cfg, args[1..])
  }

  /** The reading of some arguments in front of what is already read. */
  function InFront(cfg: Config, args: seq<Arg>, r: Reading): Reading
    requires forall i :: 0 <= i < |args| ==> Valid(cfg, args[i])
  {
    if args == [] then r else Before(cfg, args[0], InFront(cfg, args[1..], r))
  }

  lemma {:induction false} ReadAll(cfg: Config, args: seq<Arg>, tail: seq<string>)
    requires !LongViaW(cfg) && forall i :: 0 <= i < |args| ==> Valid(cfg, args[i])
    ensures Read(cfg, WrittenAll(cfg, args) + tail) == InFront(cfg, args, Read(cfg, tail))
    decreases |args|
  {
    hide Valid, Written, Before, Read;
    if args == [] {
      assert [] + tail == tail;
    } else {
      var rest := WrittenAll(cfg, args[1..]) + tail;
      ReadAll(cfg, args[1..], tail);
      assert WrittenAll(cfg, args) + tail == Written(args[0]) + rest;
      ReadOne(cfg, args[0], rest);
    }
  }

  lemma {:induction false} InFrontIs(cfg: Config, args: seq<Arg>, r: Reading)
    requires forall i :: 0 <= i < |args| ==> Valid(cfg, args[i])
    ensures InFront(cfg, args, r)
         == Reading(OptionsOf(cfg, args) + r.options, OperandsOf(args) + r.operands, CodesOf(cfg, args) + r.codes)
    decreases |args|
  {
    hide Valid, Written, Codes;
    if args == [] {
      assert [] + r.options == r.options && [] + r.operands == r.operands && [] + r.codes == r.codes;
    } else {
      var a, more := args[0], args[1..];
      InFrontIs(cfg, more, r);
      if a.Operand? {
        OperandHasNoCodes(cfg, a);
        Join([a.text], OperandsOf(more), r.operands);
        Join([], OptionsOf(cfg, more), r.options);
        Join([], CodesOf(cfg, more), r.codes);
      } else {
        Join(Written(a), OptionsOf(cfg, more), r.options);
        Join(Codes(cfg, a), CodesOf(cfg, more), r.codes);
        Join([], OperandsOf(more), r.operands);
      }
    }
  }

  lemma OperandHasNoCodes(cfg: Config, a: Arg)
    requires Valid(cfg, a) && a.Operand?
    ensures Codes(cfg, a) == []
  { }

  lemma Join<T>(a: seq<T>, b: seq<T>, c: seq<T>)
    ensures a + b + c == a + (b + c) && [] + b == b
  { }

  /**
   Any mixture of options and operands, followed by nothing or by "--" and more
   operands, is read as exactly those options, with their arguments and in order,
   and those operands, in order.
   */
  lemma WrittenIsRead(cfg: Config, args: seq<Arg>, more: Option<seq<string>>)
    requires !LongViaW(cfg) && forall i :: 0 <= i < |args| ==> Valid(cfg, args[i])
    ensures var tail := if more.Some? then ["--"] + more.value else [];
      Read(cfg, WrittenAll(cfg, args) + tail)
      == Reading(OptionsOf(cfg, args) + (if more.Some? then ["--"] else []),
                 OperandsOf(args) + (if more.Some? then more.value else []), CodesOf(cfg, args))
  {
    var tail := if more.Some? then ["--"] + more.value else [];
    hide Valid, WrittenAll, OptionsOf, OperandsOf, CodesOf;
    if more.Some? { assert tail[1..] == more.value; }
    var r := Read(cfg, tail);
    assert r.codes == [];
    ReadAll(cfg, args, tail);
    InFrontIs(cfg, args, r);
    assert CodesOf(cfg, args) + [] == CodesOf(cfg, args);
  }

  /** An option whose argument is missing because the command line ends there. */
  predicate Lacking(cfg: Config, a: Arg) {
    && Valid(cfg, a) && ((a.Short? && !a.attached) || (a.LongWith? && !a.attached))
  }

  /**
   At the end of a command line, an option without the argument it needs is
   reported as ':' or '?', by the first character of the option string.
   */
  lemma MissingIsRead(cfg: Config, args: seq<Arg>, a: Arg)
    requires !LongViaW(cfg) && (forall i :: 0 <= i < |args| ==> Valid(cfg, args[i])) && Lacking(cfg, a)
    ensures var code := if cfg.optstring != "" && cfg.optstring[0] == ':' then ':' as int else '?' as int;
      Read(cfg, WrittenAll(cfg, args) + [Written(a)[0]])
      == Reading(OptionsOf(cfg, args) + [Written(a)[0]], OperandsOf(args),
                 CodesOf(cfg, args) + ((if a.Short? then LetterCodes(cfg, a.letters) else []) + [(code, None)]))
  {
    var tail := [Written(a)[0]];
    LackingAlone(cfg, a);
    var r := Read(cfg, tail);
    hide Valid, WrittenAll, OptionsOf, OperandsOf, CodesOf, Read, LetterCodes, Written;
    ReadAll(cfg, args, tail);
    InFrontIs(cfg, args, r);
    assert OperandsOf(args) + [] == OperandsOf(args);
  }

  lemma LackingAlone(cfg: Config, a: Arg)
    requires !LongViaW(cfg) && Lacking(cfg, a)
    ensures Read(cfg, [Written(a)[0]])
         == Reading([Written(a)[0]], [], (if a.Short? then LetterCodes(cfg, a.letters) else []) + [(MissingCode(cfg), None)])
  {
    var e := Written(a)[0];
    var s := [e];
    assert s[1..] == [] && s[..1] == s && Read(cfg, []) == Reading([], [], []);
    if a.Short? {
      var letters := a.letters + [a.c];
      assert letters[0] == if a.letters == "" then a.c else a.letters[0];
      ShortElement(cfg, letters);
      LettersFirst(cfg, e, a.letters, [a.c], None);
      LetterAlone(cfg, e, a.c, None);
    } else {
      assert a.text + "" == a.text;
      LongElement(cfg, a.text);
      LongAlone(cfg, e, a);
    }
    hide Decode, Start, Declared, Undeclared, IsLong, LetterCodes, ElementCodes, UsesNext, Read, Spells;
    ElementIs(cfg, s, 1);
  }

  lemma LongAlone(cfg: Config, elem: string, a: Arg)
    requires a.LongWith? && !a.attached && Valid(cfg, a) && |elem| >= 2 && elem[1] == '-'
    ensures ElementCodes(cfg, elem, a.text, None) == [(MissingCode(cfg), None)] && !UsesNext(cfg, elem, a.text, None)
  {
    assert a.text + "" == a.text;
    LongDecodes(cfg, elem, a.i, a.text, "", None);
    hide Decode, NameEnd, Spells;
  }

  /** A scan of such a command line: the codes come out as written, and the operands are left from `optind` on. */
  method ScanWritten(argv: array<string>, cfg: Config, ghost args: seq<Arg>, ghost more: Option<seq<string>>)
    returns (optind: nat, codes: seq<(int, Option<string>)>)
    requires Order(cfg).Permute? && !LongViaW(cfg) && forall i :: 0 <= i < |args| ==> Valid(cfg, args[i])
    requires argv.Length > 0 && argv[1..] == WrittenAll(cfg, args) + if more.Some? then ["--"] + more.value else []
    modifies argv
    ensures codes == CodesOf(cfg, args)
    ensures 1 <= optind <= argv.Length && argv[optind..] == OperandsOf(args) + if more.Some? then more.value else []
  {
    hide Order, Valid, WrittenAll, OptionsOf, OperandsOf, CodesOf, Read, LongViaW;
    WrittenIsRead(cfg, args, more);
    optind, codes := ScanAll(argv, cfg);
    assert argv[optind..] == argv[1..][optind - 1..];
  }

  /** Without long options a second dash is a letter, which is declared nowhere, and then the others are read. */
  lemma DashAsLetter(cfg: Config, text: string, next: Option<string>)
    requires cfg.longopts.None? && '-' !in cfg.optstring && text != ""
    ensures var e := "--" + text; Decode(cfg, e, Start(cfg, e), next) == Step('?' as int, None, text, false, false)
  {
    var e := "--" + text;
    assert e[1] == '-' && e[1..] == "-" + text && ("-" + text)[1..] == text;
    FirstIndexIn(cfg.optstring, '-');
  }

  // ---- getopt_long_only: one dash for long options too ----

  /** With one dash, a long option named in full is found. */
  lemma OneDashInFull(cfg: Config, i: nat, text: string, next: Option<string>)
    requires cfg.longOnly && |text| > 1 && '=' !in text && InFull(cfg, i, text) && cfg.longopts.value[i].hasArg != 1
    ensures Decode(cfg, "-" + text, text, next) == Step(LongCode(cfg, i), None, "", true, false)
  {
    var opts := cfg.longopts.value;
    NameEndAt(text, "");
    assert text + "" == text && text[..|text|] == text;
    var r := First(opts, (o: LongOpt) => o.name == text);
    assert r.Some? && r.value == i;
    hide DecodeShort, NameEnd;
  }

  /** A single declared letter is that letter, even if it abbreviates long names. */
  lemma OneDashLetter(cfg: Config, c: char, next: Option<string>)
    requires cfg.longOnly && Declared(cfg, c, 0)
    ensures Decode(cfg, "-" + [c], [c], next) == Step(c as int, None, "", true, false)
  {
    FirstIndexIn(cfg.optstring, c);
    assert ("-" + [c])[1] == c && c in cfg.optstring && !IsLong(cfg, "-" + [c]);
    assert [c] + "" == [c];
    OneLetter(cfg, "-" + [c], c, "", next);
  }

  /** What abbreviates no name is read as letters if its first one is declared, and is otherwise wrong as a whole. */
  lemma OneDashUnknown(cfg: Config, text: string, next: Option<string>)
    requires cfg.longOnly && cfg.longopts.Some? && |text| > 1 && text[0] != '-' && '=' !in text
    requires forall j :: 0 <= j < |cfg.longopts.value| ==> !(text <= cfg.longopts.value[j].name)
    ensures text[0] !in cfg.optstring ==> Decode(cfg, "-" + text, text, next) == Step('?' as int, None, "", true, false)
    ensures Declared(cfg, text[0], 0) ==> Decode(cfg, "-" + text, text, next) == Step(text[0] as int, None, text[1..], false, false)
  {
    var e, opts := "-" + text, cfg.longopts.value;
    NameEndAt(text, "");
    assert e[1] == text[0] && text + "" == text && text[..|text|] == text;
    var f := First(opts, (o: LongOpt) => Abbreviates(text, o));
    var r := First(opts, (o: LongOpt) => o.name == text);
    assert f.None? && r.None?;
    assert LookupName(opts, text, true) == Unknown;
    FirstIndexIn(cfg.optstring, text[0]);
    hide LookupName, NameEnd, FirstIndex;
  }
}
