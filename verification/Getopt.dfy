/**
 GNU getopt with argument permutation (lib/compat/getopt.c).

 The reference reading of a command line goes once through the original
 arguments and sorts them into options (with their arguments and any "--") and
 operands.  The code instead rotates blocks of argv in place, a little at every
 call; it is proved to arrive at exactly that stable partition.
 */
module Getopt {
  import opened Text

  datatype Ordering = RequireOrder | Permute | ReturnInOrder

  /** An entry of LONGOPTS; hasArg is 0 (none), 1 (required) or 2 (optional). */
  datatype LongOpt = LongOpt(name: string, hasArg: nat, flag: Option<nat>, val: int)

  datatype Config = Config(optstring: string, longopts: Option<seq<LongOpt>>, longOnly: bool, posixlyCorrect: bool)

  /** How options and operands may be mixed (`_getopt_initialize`). */
  function Order(cfg: Config): (r: Ordering)
    ensures r == Permute <==> !cfg.posixlyCorrect && !("-" <= cfg.optstring) && !("+" <= cfg.optstring)
    ensures r == ReturnInOrder <==> "-" <= cfg.optstring
  {
    if cfg.optstring != [] && cfg.optstring[0] == '-' then ReturnInOrder
    else if cfg.optstring != [] && cfg.optstring[0] == '+' then RequireOrder
    else if cfg.posixlyCorrect then RequireOrder
    else Permute
  }

  /** "W;" makes -W a prefix of long options; such option strings are not modelled. */
  predicate LongViaW(cfg: Config) {
    match FirstIndex(cfg.optstring, 'W')
    case None => false
    case Some(t) => t + 1 < |cfg.optstring| && cfg.optstring[t + 1] == ';'
  }

  // ---- decoding one option ----

  /** The text before the first '='. */
  function NameEnd(s: string): (n: nat)
    ensures n <= |s| && (n < |s| ==> s[n] == '=') && (forall i :: 0 <= i < n ==> s[i] != '=')
  {
    if s == [] || s[0] == '=' then 0 else 1 + NameEnd(s[1..])
  }

  /** `strncmp(p->name, text, len) == 0`. */
  predicate Abbreviates(text: string, o: LongOpt) { text <= o.name }

  predicate Differ(a: LongOpt, b: LongOpt) {
    a.hasArg != b.hasArg || a.flag != b.flag || a.val != b.val
  }

  datatype Lookup = Unknown | Ambiguous | Found(index: nat)

  /** The first entry with the property. */
  function First(opts: seq<LongOpt>, p: LongOpt -> bool): (r: Option<nat>)
    ensures r.Some? ==> r.value < |opts| && p(opts[r.value]) && forall j :: 0 <= j < r.value ==> !p(opts[j])
    ensures r.None? ==> forall j :: 0 <= j < |opts| ==> !p(opts[j])
  {
    if opts == [] then None
    else if p(opts[0]) then Some(0)
    else match First(opts[1..], p) case None => None case Some(i) => Some(i + 1)
  }

  predicate Conflict(opts: seq<LongOpt>, text: string, longOnly: bool, i: nat, k: nat)
    requires i < |opts| && k < |opts|
  {
    Abbreviates(text, opts[k]) && (longOnly || Differ(opts[i], opts[k]))
  }

  /** An exact name wins; otherwise the first abbreviated one, unless a later one disagrees with it. */
  function LookupName(opts: seq<LongOpt>, text: string, longOnly: bool): Lookup {
    match First(opts, (o: LongOpt) => o.name == text)
    case Some(i) => Found(i)
    case None =>
      match First(opts, (o: LongOpt) => Abbreviates(text, o))
      case None => Unknown
      case Some(i) =>
        if exists k :: i < k < |opts| && Conflict(opts, text, longOnly, i, k) then Ambiguous else Found(i)
  }

  /** The scan of LONGOPTS. */
  method LookupLong(opts: seq<LongOpt>, text: string, longOnly: bool) returns (r: Lookup)
    ensures r == LookupName(opts, text, longOnly)
  {
    var found: Option<nat> := None;
    var ambig := false;
    var i := 0;
    while i < |opts|
      invariant 0 <= i <= |opts|
      invariant forall j :: 0 <= j < i ==> opts[j].name != text
      invariant found.None? ==> !ambig && forall j :: 0 <= j < i ==> !Abbreviates(text, opts[j])
      invariant found.Some? ==> found.value < i && Abbreviates(text, opts[found.value])
      invariant found.Some? ==> forall j :: 0 <= j < found.value ==> !Abbreviates(text, opts[j])
      invariant found.Some? ==>
        (ambig <==> exists k :: found.value < k < i && Conflict(opts, text, longOnly, found.value, k))
    {
      if Abbreviates(text, opts[i]) {
        if |text| == |opts[i].name| {
          assert opts[i].name == text;
          return Found(i);
        } else if found.None? {
          found := Some(i);
        } else if longOnly || Differ(opts[found.value], opts[i]) {
          assert Conflict(opts, text, longOnly, found.value, i);
          ambig := true;
        }
      }
      i := i + 1;
    }
    if found.None? {
      return Unknown;
    } else if ambig {
      return Ambiguous;
    } else {
      return Found(found.value);
    }
  }

  /**
   One decoding step at element `elem`, of which `rest` is still to be read.
   `ended` says that the scan moves past the element, `tookNext` that it also
   moves past the following one, whose text is the option's argument.
   */
  datatype Step = Step(code: int, arg: Option<string>, rest: string, ended: bool, tookNext: bool)

  function Missing(cfg: Config): int {
    if cfg.optstring != [] && cfg.optstring[0] == ':' then ':' as int else '?' as int
  }

  /** The element is read as a long option (line 389-392). */
  predicate IsLong(cfg: Config, elem: string)
    requires |elem| >= 2
  {
    cfg.longopts.Some? &&
    (elem[1] == '-' || (cfg.longOnly && (|elem| > 2 || elem[1] !in cfg.optstring)))
  }

  function DecodeFound(cfg: Config, o: LongOpt, rest: string, next: Option<string>): Step {
    var n := NameEnd(rest);
    if n < |rest| then
      if o.hasArg != 0 then Step(if o.flag.Some? then 0 else o.val, Some(rest[n + 1..]), "", true, false)
      else Step('?' as int, None, "", true, false)
    else if o.hasArg == 1 then
      if next.Some? then Step(if o.flag.Some? then 0 else o.val, next, "", true, true)
      else Step(Missing(cfg), None, "", true, false)
    else Step(if o.flag.Some? then 0 else o.val, None, "", true, false)
  }

  function DecodeShort(cfg: Config, rest: string, next: Option<string>): (st: Step)
    requires rest != []
    ensures st.ended || |st.rest| < |rest|
    ensures !st.ended ==> st.rest != []
    ensures st.tookNext ==> st.ended && next.Some?
  {
    var c, more := rest[0], rest[1..];
    var ended := more == [];
    match FirstIndex(cfg.optstring, c)
    case None => Step('?' as int, None, more, ended, false)
    case Some(t) =>
      var s := cfg.optstring;
      if c == ':' then Step('?' as int, None, more, ended, false)
      else if t + 1 < |s| && s[t + 1] == ':' then
        if t + 2 < |s| && s[t + 2] == ':' then
          Step(c as int, if ended then None else Some(more), "", true, false)
        else if !ended then Step(c as int, Some(more), "", true, false)
        else if next.None? then Step(Missing(cfg), None, "", true, false)
        else Step(c as int, next, "", true, true)
      else Step(c as int, None, more, ended, false)
  }

  function Decode(cfg: Config, elem: string, rest: string, next: Option<string>): (st: Step)
    requires |elem| >= 2 && rest != []
    ensures st.ended || |st.rest| < |rest|
    ensures !st.ended ==> st.rest != []
    ensures st.tookNext ==> st.ended && next.Some?
  {
    if !IsLong(cfg, elem) then DecodeShort(cfg, rest, next)
    else
      match LookupName(cfg.longopts.value, rest[..NameEnd(rest)], cfg.longOnly)
      case Ambiguous => Step('?' as int, None, "", true, false)
      case Found(i) => DecodeFound(cfg, cfg.longopts.value[i], rest, next)
      case Unknown =>
        if !cfg.longOnly || elem[1] == '-' || rest[0] !in cfg.optstring then Step('?' as int, None, "", true, false)
        else DecodeShort(cfg, rest, next)
  }

  // ---- the reference reading of a command line ----

  /** Not an option: does not start with '-', or is "-" alone. */
  predicate NonOption(a: string)
    ensures !NonOption(a) <==> |a| >= 2 && a[0] as int == 45
  {
    a == [] || a[0] != '-' || |a| == 1
  }

  /** Where the characters of an option element begin. */
  function Start(cfg: Config, elem: string): (r: string)
    requires !NonOption(elem) && elem != "--"
    ensures r != []
  {
    if cfg.longopts.Some? && elem[1] == '-' then elem[2..] else elem[1..]
  }

  function Head(s: seq<string>): Option<string> { if s == [] then None else Some(s[0]) }

  /** Whether reading `elem` from `rest` on uses up the following element. */
  predicate UsesNext(cfg: Config, elem: string, rest: string, next: Option<string>)
    requires |elem| >= 2 && rest != []
    ensures UsesNext(cfg, elem, rest, next) ==> next.Some?
    decreases |rest|
  {
    var st := Decode(cfg, elem, rest, next);
    if st.ended then st.tookNext else UsesNext(cfg, elem, st.rest, next)
  }

  /** The option codes, with their arguments, found in `elem` from `rest` on. */
  function ElementCodes(cfg: Config, elem: string, rest: string, next: Option<string>): seq<(int, Option<string>)>
    requires |elem| >= 2 && rest != []
    decreases |rest|
  {
    var st := Decode(cfg, elem, rest, next);
    [(st.code, st.arg)] + if st.ended then [] else ElementCodes(cfg, elem, st.rest, next)
  }

  /** What a command line means: its option elements, its operands, and the options read. */
  datatype Reading = Reading(options: seq<string>, operands: seq<string>, codes: seq<(int, Option<string>)>)

  function Read(cfg: Config, s: seq<string>): Reading
    decreases |s|, 0
  {
    if s == [] then Reading([], [], [])
    else if s[0] == "--" then Reading(["--"], s[1..], [])
    else if NonOption(s[0]) then
      var r := Read(cfg, s[1..]);
      r.(operands := [s[0]] + r.operands)
    else ReadElement(cfg, s, Start(cfg, s[0]))
  }

  /** Continues inside the option element s[0], of which `rest` is still to be read. */
  function ReadElement(cfg: Config, s: seq<string>, rest: string): Reading
    requires s != [] && |s[0]| >= 2 && rest != []
    decreases |s| - 1, 1
  {
    var next := Head(s[1..]);
    var used := if UsesNext(cfg, s[0], rest, next) then 2 else 1;
    var r := Read(cfg, s[used..]);
    Reading(s[..used] + r.options, r.operands, ElementCodes(cfg, s[0], rest, next) + r.codes)
  }

  // ---- exchanging two adjacent blocks of argv ----

  /** The sequence with the adjacent blocks [lo, mid) and [mid, hi) exchanged. */
  function Rotated(s: seq<string>, lo: nat, mid: nat, hi: nat): (r: seq<string>)
    requires lo <= mid <= hi <= |s|
    ensures |r| == |s|
  {
    seq(|s|, m requires 0 <= m < |s| =>
      if m < lo || hi <= m then s[m] else if m < lo + (hi - mid) then s[m + (mid - lo)] else s[m - (hi - mid)])
  }

  lemma RotatedParts(s: seq<string>, lo: nat, mid: nat, hi: nat)
    requires lo <= mid <= hi <= |s|
    ensures Rotated(s, lo, mid, hi) == s[..lo] + s[mid..hi] + s[lo..mid] + s[hi..]
  { }

  /** The sequence with the `len` elements at i and those at j swapped. */
  function Swapped(s: seq<string>, i: nat, j: nat, len: nat): (r: seq<string>)
    requires i + len <= j && j + len <= |s|
    ensures |r| == |s|
  {
    seq(|s|, m requires 0 <= m < |s| =>
      if i <= m < i + len then s[m + (j - i)] else if j <= m < j + len then s[m - (j - i)] else s[m])
  }

  method SwapBlocks(a: array<string>, i: nat, j: nat, len: nat)
    requires i + len <= j && j + len <= a.Length
    modifies a
    ensures a[..] == Swapped(old(a[..]), i, j, len)
  {
    hide Swapped;
    ghost var s := a[..];
    SwappedNone(s, i, j);
    var k := 0;
    while k < len
      invariant 0 <= k <= len
      invariant a[..] == Swapped(s, i, j, k)
    {
      SwappedMore(s, i, j, k);
      a[i + k], a[j + k] := a[j + k], a[i + k];
      k := k + 1;
    }
  }

  lemma SwappedNone(s: seq<string>, i: nat, j: nat)
    requires i <= j <= |s|
    ensures Swapped(s, i, j, 0) == s
  { }

  lemma SwappedMore(s: seq<string>, i: nat, j: nat, k: nat)
    requires i + k < j && j + k < |s|
    ensures var t := Swapped(s, i, j, k);
      Swapped(s, i, j, k + 1) == t[i + k := t[j + k]][j + k := t[i + k]]
  { }

  /** Swapping the shorter block into place leaves a smaller exchange with the same outcome. */
  lemma ShortBottom(s: seq<string>, bottom: nat, middle: nat, top: nat)
    requires bottom <= middle <= top <= |s| && middle - bottom < top - middle
    ensures var len := middle - bottom;
      Rotated(Swapped(s, bottom, top - len, len), bottom, middle, top - len) == Rotated(s, bottom, middle, top)
  { }

  lemma ShortTop(s: seq<string>, bottom: nat, middle: nat, top: nat)
    requires bottom <= middle <= top <= |s| && top - middle <= middle - bottom
    ensures var len := top - middle;
      Rotated(Swapped(s, bottom, middle, len), bottom + len, middle, top) == Rotated(s, bottom, middle, top)
  { }

  lemma RotatedDone(s: seq<string>, bottom: nat, middle: nat, top: nat)
    requires bottom <= middle <= top <= |s| && (middle == bottom || middle == top)
    ensures Rotated(s, bottom, middle, top) == s
  { }

  /** `exchange`: the shorter block goes to its place, the longer one is left split in two. */
  method Exchange(a: array<string>, lo: nat, mid: nat, hi: nat)
    requires lo <= mid <= hi <= a.Length
    modifies a
    ensures a[..] == Rotated(old(a[..]), lo, mid, hi)
  {
    hide Rotated, Swapped;
    var bottom: nat, middle: nat, top: nat := lo, mid, hi;
    while top > middle && middle > bottom
      invariant bottom <= middle <= top <= a.Length
      invariant Rotated(a[..], bottom, middle, top) == Rotated(old(a[..]), lo, mid, hi)
      decreases top - bottom
    {
      if top - middle > middle - bottom {
        var len := middle - bottom;
        ShortBottom(a[..], bottom, middle, top);
        SwapBlocks(a, bottom, top - len, len);
        top := top - len;
      } else {
        var len := top - middle;
        ShortTop(a[..], bottom, middle, top);
        SwapBlocks(a, bottom, middle, len);
        bottom := bottom + len;
      }
    }
    RotatedDone(a[..], bottom, middle, top);
  }

  // ---- the reading is a stable partition ----

  /** `s` is a shuffle of `a` and `b` that keeps the order of each. */
  predicate Shuffle(a: seq<string>, b: seq<string>, s: seq<string>) {
    if s == [] then a == [] && b == []
    else
      || (a != [] && a[0] == s[0] && Shuffle(a[1..], b, s[1..]))
      || (b != [] && b[0] == s[0] && Shuffle(a, b[1..], s[1..]))
  }

  lemma {:induction false} ShuffleRight(s: seq<string>)
    ensures Shuffle([], s, s)
    decreases |s|
  {
    if s != [] { ShuffleRight(s[1..]); }
  }

  lemma {:induction false} ShuffleMultiset(a: seq<string>, b: seq<string>, s: seq<string>)
    requires Shuffle(a, b, s)
    ensures multiset(a + b) == multiset(s)
    decreases |s|
  {
    if s != [] {
      MultisetCons(s);
      if a != [] && a[0] == s[0] && Shuffle(a[1..], b, s[1..]) {
        ShuffleMultiset(a[1..], b, s[1..]);
        MultisetCons(a);
      } else {
        ShuffleMultiset(a, b[1..], s[1..]);
        MultisetCons(b);
      }
    }
  }

  lemma MultisetCons(s: seq<string>)
    requires s != []
    ensures multiset(s) == multiset{s[0]} + multiset(s[1..])
  {
    assert s == [s[0]] + s[1..];
  }

  /** Options and operands both keep the order of the command line, and nothing is lost. */
  lemma {:induction false} ReadIsStablePartition(cfg: Config, s: seq<string>)
    ensures Shuffle(Read(cfg, s).options, Read(cfg, s).operands, s)
    decreases |s|
  {
    if s == [] {
    } else if s[0] == "--" {
      ShuffleRight(s[1..]);
      assert ["--"][1..] == [];
    } else if NonOption(s[0]) {
      ReadIsStablePartition(cfg, s[1..]);
      var r := Read(cfg, s[1..]);
      assert ([s[0]] + r.operands)[1..] == r.operands;
    } else {
      var rest := Start(cfg, s[0]);
      var used := if UsesNext(cfg, s[0], rest, Head(s[1..])) then 2 else 1;
      ReadIsStablePartition(cfg, s[used..]);
      ShufflePrefix(s[..used], Read(cfg, s[used..]).options, Read(cfg, s[used..]).operands, s[used..]);
      assert s[..used] + s[used..] == s;
    }
  }

  lemma {:induction false} ShufflePrefix(p: seq<string>, a: seq<string>, b: seq<string>, s: seq<string>)
    requires Shuffle(a, b, s)
    ensures Shuffle(p + a, b, p + s)
    decreases |p|
  {
    if p == [] {
      assert p + a == a && p + s == s;
    } else {
      ShufflePrefix(p[1..], a, b, s);
      assert (p + a)[1..] == p[1..] + a && (p + s)[1..] == p[1..] + s;
    }
  }

  // ---- what holds between calls ----

  /** The reading still to come, from argv[optind] and `nextchar` on. */
  function Ahead(cfg: Config, tail: seq<string>, nextchar: string): Reading
    requires nextchar != [] ==> tail != [] && |tail[0]| >= 2
  {
    if nextchar == [] then Read(cfg, tail) else ReadElement(cfg, tail, nextchar)
  }

  /**
   argv[first, last) are the operands skipped so far, argv[1, first) and
   argv[last, optind) the options passed, and with the rest of the command line
   these make up the reading of the original one.
   */
  ghost predicate Progress(cfg: Config, whole: Reading, cur: seq<string>,
      first: nat, last: nat, optind: nat, nextchar: string, codes: seq<(int, Option<string>)>)
  {
    && 1 <= first <= last <= optind <= |cur|
    && (nextchar != [] ==> optind < |cur| && |cur[optind]| >= 2)
    && var ahead := Ahead(cfg, cur[optind..], nextchar);
       && cur[1..first] + cur[last..optind] + ahead.options == whole.options
       && cur[first..last] + ahead.operands == whole.operands
       && codes + ahead.codes == whole.codes
  }

  lemma ExchangeKeeps(cfg: Config, whole: Reading, cur: seq<string>,
      first: nat, last: nat, optind: nat, codes: seq<(int, Option<string>)>)
    requires Progress(cfg, whole, cur, first, last, optind, "", codes)
    ensures Progress(cfg, whole, Rotated(cur, first, last, optind), first + (optind - last), optind, optind, "", codes)
  {
    var cur' := Rotated(cur, first, last, optind);
    RotatedParts(cur, first, last, optind);
    var first' := first + (optind - last);
    assert cur'[1..first'] == cur[1..first] + cur[last..optind];
    assert cur'[first'..optind] == cur[first..last];
    assert cur'[optind..] == cur[optind..];
    assert cur'[optind..optind] == [];
    assert cur'[1..first'] + [] == cur[1..first] + cur[last..optind];
  }

  lemma SettleKeeps(cfg: Config, whole: Reading, cur: seq<string>,
      first: nat, optind: nat, codes: seq<(int, Option<string>)>)
    requires Progress(cfg, whole, cur, first, first, optind, "", codes)
    ensures Progress(cfg, whole, cur, optind, optind, optind, "", codes)
  { }

  lemma SkipKeeps(cfg: Config, whole: Reading, cur: seq<string>,
      first: nat, optind: nat, codes: seq<(int, Option<string>)>)
    requires Progress(cfg, whole, cur, first, optind, optind, "", codes)
    requires optind < |cur| && NonOption(cur[optind])
    ensures Progress(cfg, whole, cur, first, optind + 1, optind + 1, "", codes)
  { }

  lemma DashesKeep(cfg: Config, whole: Reading, cur: seq<string>,
      first: nat, optind: nat, codes: seq<(int, Option<string>)>)
    requires Progress(cfg, whole, cur, first, optind, optind, "", codes)
    requires optind < |cur| && cur[optind] == "--"
    ensures var cur' := Rotated(cur, first, optind, optind + 1);
      cur'[1..first + 1] == whole.options && cur'[first + 1..] == whole.operands
    ensures first == optind ==> Rotated(cur, first, optind, optind + 1) == cur
    ensures codes == whole.codes
  { }

  lemma EndKeeps(cfg: Config, whole: Reading, cur: seq<string>,
      first: nat, optind: nat, codes: seq<(int, Option<string>)>)
    requires Progress(cfg, whole, cur, first, optind, optind, "", codes) && optind == |cur|
    ensures cur[1..first] == whole.options && cur[first..] == whole.operands && codes == whole.codes
  { }

  lemma DecodeKeeps(cfg: Config, whole: Reading, cur: seq<string>,
      first: nat, last: nat, optind: nat, nextchar: string, codes: seq<(int, Option<string>)>)
    requires nextchar != [] && Progress(cfg, whole, cur, first, last, optind, nextchar, codes)
    ensures var st := Decode(cfg, cur[optind], nextchar, Head(cur[optind + 1..]));
      Progress(cfg, whole, cur, first, last,
        optind + (if st.ended then 1 else 0) + (if st.tookNext then 1 else 0),
        if st.ended then "" else st.rest, codes + [(st.code, st.arg)])
  {
    hide Decode, Read, UsesNext, ElementCodes;
    var tail := cur[optind..];
    assert tail[0] == cur[optind] && tail[1..] == cur[optind + 1..];
    var next := Head(cur[optind + 1..]);
    var st := Decode(cfg, cur[optind], nextchar, next);
    var used := if UsesNext(cfg, tail[0], nextchar, next) then 2 else 1;
    var r := Read(cfg, tail[used..]);
    ElementStep(cfg, tail[0], nextchar, next);
    if st.ended {
      assert tail[used..] == cur[optind + used..];
      assert cur[last..optind + used] == cur[last..optind] + tail[..used];
      assert cur[1..first] + cur[last..optind + used] + r.options == cur[1..first] + cur[last..optind] + (tail[..used] + r.options);
      assert codes + ([(st.code, st.arg)] + r.codes) == codes + [(st.code, st.arg)] + r.codes;
    } else {
      var more := ElementCodes(cfg, tail[0], st.rest, next);
      assert codes + ([(st.code, st.arg)] + more + r.codes) == codes + [(st.code, st.arg)] + (more + r.codes);
    }
  }

  lemma ElementStep(cfg: Config, elem: string, rest: string, next: Option<string>)
    requires |elem| >= 2 && rest != []
    ensures var st := Decode(cfg, elem, rest, next);
      if st.ended then
        UsesNext(cfg, elem, rest, next) == st.tookNext && ElementCodes(cfg, elem, rest, next) == [(st.code, st.arg)]
      else
        && UsesNext(cfg, elem, rest, next) == UsesNext(cfg, elem, st.rest, next)
        && ElementCodes(cfg, elem, rest, next) == [(st.code, st.arg)] + ElementCodes(cfg, elem, st.rest, next)
  { }

  // ---- the scanner ----

  datatype Answer = Done | Code(code: int, arg: Option<string>)

  /** `struct _getopt_data`, with a history variable for the codes returned so far. */
  class Scanner {
    var optind: nat
    var initialized: bool
    var firstNonopt: nat
    var lastNonopt: nat
    var nextchar: string
    ghost var codes: seq<(int, Option<string>)>

    constructor ()
      ensures optind == 1 && !initialized && codes == []
    {
      optind, initialized, firstNonopt, lastNonopt, nextchar, codes := 1, false, 0, 0, "", [];
    }

    /** Before the first call, or between two calls of a permuting scan. */
    ghost predicate Scanning(cfg: Config, whole: Reading, argv: seq<string>)
      reads this
    {
      if initialized then Progress(cfg, whole, argv, firstNonopt, lastNonopt, optind, nextchar, codes)
      else optind <= 1 && codes == [] && |argv| > 0 && Read(cfg, argv[1..]) == whole
    }

    /** The state after the scan: options first, then operands from `optind` on. */
    ghost predicate Finished(whole: Reading, argv: seq<string>)
      reads this
    {
      && |argv| > 0
      && argv[1..] == whole.options + whole.operands
      && optind == 1 + |whole.options|
      && codes == whole.codes
    }

    /** `_getopt_initialize`. */
    method Initialize(ghost cfg: Config, ghost whole: Reading, ghost argv: seq<string>)
      requires Scanning(cfg, whole, argv)
      modifies this
      ensures initialized && codes == old(codes)
      ensures Progress(cfg, whole, argv, firstNonopt, lastNonopt, optind, nextchar, codes)
      ensures old(initialized) ==> optind == old(optind) && nextchar == old(nextchar)
    {
      if optind == 0 || !initialized {
        if optind == 0 {
          optind := 1;
        }
        firstNonopt, lastNonopt, nextchar := optind, optind, "";
        initialized := true;
        assert argv[1..1] + argv[1..1] + whole.options == whole.options;
      }
    }

    /** Moves the options just passed in front of the operands skipped before them. */
    method Regroup(argv: array<string>, ghost cfg: Config, ghost whole: Reading)
      requires nextchar == "" && Progress(cfg, whole, argv[..], firstNonopt, lastNonopt, optind, "", codes)
      modifies this`firstNonopt, this`lastNonopt, argv
      ensures Progress(cfg, whole, argv[..], firstNonopt, optind, optind, "", codes)
    {
      hide Progress, Rotated;
      ProgressBounds(cfg, whole, argv[..], firstNonopt, lastNonopt, optind, "", codes);
      if firstNonopt != lastNonopt && lastNonopt != optind {
        ExchangeKeeps(cfg, whole, argv[..], firstNonopt, lastNonopt, optind, codes);
        Exchange(argv, firstNonopt, lastNonopt, optind);
        firstNonopt := firstNonopt + (optind - lastNonopt);
        lastNonopt := optind;
      } else if lastNonopt != optind {
        SettleKeeps(cfg, whole, argv[..], firstNonopt, optind, codes);
        firstNonopt := optind;
      }
    }

    /** Skips operands, extending the range of those already skipped. */
    method Skip(argv: array<string>, ghost cfg: Config, ghost whole: Reading)
      requires Progress(cfg, whole, argv[..], firstNonopt, optind, optind, "", codes)
      modifies this`optind, this`lastNonopt
      ensures old(optind) <= optind == lastNonopt <= argv.Length
      ensures Progress(cfg, whole, argv[..], firstNonopt, lastNonopt, optind, "", codes)
      ensures optind < argv.Length ==> !NonOption(argv[optind])
    {
      hide Progress;
      ProgressBounds(cfg, whole, argv[..], firstNonopt, optind, optind, "", codes);
      while optind < argv.Length && NonOption(argv[optind])
        invariant old(optind) <= optind <= argv.Length
        invariant Progress(cfg, whole, argv[..], firstNonopt, optind, optind, "", codes)
      {
        SkipKeeps(cfg, whole, argv[..], firstNonopt, optind, codes);
        optind := optind + 1;
      }
      lastNonopt := optind;
    }

    /** "--": passed like an option, then everything after it is an operand. */
    method Dashes(argv: array<string>, ghost cfg: Config, ghost whole: Reading)
      requires optind == lastNonopt < argv.Length && argv[optind] == "--"
      requires Progress(cfg, whole, argv[..], firstNonopt, lastNonopt, optind, "", codes)
      modifies this`optind, this`firstNonopt, this`lastNonopt, argv
      ensures optind == argv.Length && lastNonopt == argv.Length
      ensures 1 <= firstNonopt <= argv.Length
      ensures argv[1..firstNonopt] == whole.options && argv[firstNonopt..] == whole.operands && codes == whole.codes
    {
      hide Progress, Rotated, Read;
      ProgressBounds(cfg, whole, argv[..], firstNonopt, lastNonopt, optind, "", codes);
      DashesKeep(cfg, whole, argv[..], firstNonopt, optind, codes);
      optind := optind + 1;
      if firstNonopt != lastNonopt && lastNonopt != optind {
        Exchange(argv, firstNonopt, lastNonopt, optind);
        firstNonopt := firstNonopt + (optind - lastNonopt);
      } else if firstNonopt == lastNonopt {
        firstNonopt := optind;
      }
      lastNonopt := argv.Length;
      optind := argv.Length;
    }

    /** The scan has ended: back up over the operands. */
    method Finish(argv: array<string>, ghost whole: Reading)
      requires optind == argv.Length == lastNonopt && 1 <= firstNonopt <= argv.Length
      requires argv[1..firstNonopt] == whole.options && argv[firstNonopt..] == whole.operands && codes == whole.codes
      modifies this`optind
      ensures Finished(whole, argv[..])
    {
      if firstNonopt != lastNonopt {
        optind := firstNonopt;
      }
      assert argv[..][1..] == argv[1..firstNonopt] + argv[firstNonopt..];
    }

    /** Decodes the option at argv[optind], from `nextchar` on. */
    method Take(argv: array<string>, cfg: Config, ghost whole: Reading) returns (r: Answer)
      requires !LongViaW(cfg)
      requires nextchar != "" && Progress(cfg, whole, argv[..], firstNonopt, lastNonopt, optind, nextchar, codes)
      modifies this`optind, this`nextchar, this`codes
      ensures r.Code? && codes == old(codes) + [(r.code, r.arg)]
      ensures Progress(cfg, whole, argv[..], firstNonopt, lastNonopt, optind, nextchar, codes)
      ensures optind > old(optind) || (optind == old(optind) && 0 < |nextchar| < |old(nextchar)|)
      ensures optind <= argv.Length
    {
      hide Progress, Decode, LongViaW;
      ProgressBounds(cfg, whole, argv[..], firstNonopt, lastNonopt, optind, nextchar, codes);
      DecodeKeeps(cfg, whole, argv[..], firstNonopt, lastNonopt, optind, nextchar, codes);
      var next := if optind + 1 < argv.Length then Some(argv[optind + 1]) else None;
      assert next == Head(argv[..][optind + 1..]);
      var st := Decode(cfg, argv[optind], nextchar, next);
      if st.ended {
        optind := optind + 1;
      }
      if st.tookNext {
        optind := optind + 1;
      }
      nextchar := if st.ended then "" else st.rest;
      codes := codes + [(st.code, st.arg)];
      ProgressBounds(cfg, whole, argv[..], firstNonopt, lastNonopt, optind, nextchar, codes);
      r := Code(st.code, st.arg);
    }

    /** One call of `_getopt_internal_r` with PERMUTE ordering. */
    method Next(argv: array<string>, cfg: Config, ghost whole: Reading) returns (r: Answer)
      requires Order(cfg).Permute? && !LongViaW(cfg) && (argv.Length > 0 ==> Scanning(cfg, whole, argv[..]))
      modifies this, argv
      ensures argv.Length == 0 ==> r.Done?
      ensures argv.Length > 0 && r.Done? ==> Finished(whole, argv[..]) && codes == old(codes)
      ensures r.Code? ==> Scanning(cfg, whole, argv[..]) && codes == old(codes) + [(r.code, r.arg)]
    {
      hide Progress, Read, Order, Start, NonOption, LongViaW;
      if argv.Length < 1 {
        return Done;
      }
      Initialize(cfg, whole, argv[..]);
      if nextchar == "" {
        Regroup(argv, cfg, whole);
        Skip(argv, cfg, whole);
        if optind != argv.Length && argv[optind] == "--" {
          Dashes(argv, cfg, whole);
          Finish(argv, whole);
          return Done;
        }
        if optind == argv.Length {
          EndKeeps(cfg, whole, argv[..], firstNonopt, optind, codes);
          ProgressBounds(cfg, whole, argv[..], firstNonopt, lastNonopt, optind, "", codes);
          Finish(argv, whole);
          return Done;
        }
        StartKeeps(cfg, whole, argv[..], firstNonopt, lastNonopt, optind, codes);
        nextchar := Start(cfg, argv[optind]);
      }
      r := Take(argv, cfg, whole);
    }
  }

  /** A whole scan, as a caller makes it: until the answer is -1. */
  method ScanAll(argv: array<string>, cfg: Config) returns (optind: nat, codes: seq<(int, Option<string>)>)
    requires Order(cfg).Permute? && !LongViaW(cfg) && argv.Length > 0
    modifies argv
    ensures var whole := Read(cfg, old(argv[1..]));
      && argv[1..] == whole.options + whole.operands
      && optind == 1 + |whole.options|
      && codes == whole.codes
    ensures multiset(argv[1..]) == multiset(old(argv[1..]))
  {
    hide Order, Read, LongViaW;
    ghost var whole := Read(cfg, argv[1..]);
    ghost var orig := argv[1..];
    var scanner := new Scanner();
    codes := [];
    assert argv[..][1..] == argv[1..];
    var more := true;
    while more
      invariant fresh(scanner) && codes == scanner.codes
      invariant more ==> scanner.Scanning(cfg, whole, argv[..])
      invariant !more ==> scanner.Finished(whole, argv[..])
      decreases more, |whole.codes| - |codes|
    {
      CodesBounded(cfg, whole, argv[..], scanner);
      var r := scanner.Next(argv, cfg, whole);
      if r.Done? {
        more := false;
      } else {
        codes := codes + [(r.code, r.arg)];
      }
    }
    optind := scanner.optind;
    assert argv[..][1..] == argv[1..];
    ReadIsStablePartition(cfg, orig);
    ShuffleMultiset(whole.options, whole.operands, orig);
  }

  lemma CodesBounded(cfg: Config, whole: Reading, argv: seq<string>, s: Scanner)
    requires s.Scanning(cfg, whole, argv)
    ensures |s.codes| <= |whole.codes|
  { }

  lemma ProgressBounds(cfg: Config, whole: Reading, cur: seq<string>,
      first: nat, last: nat, optind: nat, nextchar: string, codes: seq<(int, Option<string>)>)
    requires Progress(cfg, whole, cur, first, last, optind, nextchar, codes)
    ensures 1 <= first <= last <= optind <= |cur|
    ensures nextchar != [] ==> optind < |cur| && |cur[optind]| >= 2
  { }

  lemma StartKeeps(cfg: Config, whole: Reading, cur: seq<string>,
      first: nat, last: nat, optind: nat, codes: seq<(int, Option<string>)>)
    requires Progress(cfg, whole, cur, first, last, optind, "", codes)
    requires optind < |cur| && !NonOption(cur[optind]) && cur[optind] != "--"
    ensures Progress(cfg, whole, cur, first, last, optind, Start(cfg, cur[optind]), codes)
  { }
}
