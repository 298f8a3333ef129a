/**
 The status database as a write-ahead journal (lib/dpkg/dbmodify.c, with
 lib/dpkg/atomic-file.c and `writedb` of lib/dpkg/dump.c).

 Each noted package becomes a file updates/NNNN; a checkpoint replaces `status`
 atomically and then unlinks the update files one by one; opening the database
 replays what is left.  Every call is a list of file system operations, and a
 process may stop after any prefix of them.
 */
module Journal {
  import opened Text

  const MAXUPDATES: nat := 250
  const IMPORTANTMAXLEN: nat := 10
  const IMPORTANTTMP := "tmp.i"

  // ---- in-core state ----

  /** What is recorded about one package.  Only informative stanzas are dumped. */
  datatype Stanza = Stanza(informative: bool, body: string)

  const BLANK := Stanza(false, "")

  type Core = map<string, Stanza>

  function Get(c: Core, p: string): Stanza { if p in c then c[p] else BLANK }

  /** A stanza up to the details that `writedb` does not keep. */
  function Norm(s: Stanza): Stanza { if s.informative then s else BLANK }

  ghost predicate Agree(a: Core, b: Core) {
    forall p :: Norm(Get(a, p)) == Norm(Get(b, p))
  }

  function Dump(c: Core): Core { map p | p in c && c[p].informative :: c[p] }

  lemma DumpAgrees(c: Core)
    ensures Agree(Dump(c), c)
  { }

  // ---- on-disk state ----

  datatype StatusFile = Absent | Torn | Full(stanzas: Core)

  datatype File = Partial | Entry(pkg: string, stanza: Stanza)

  type Dir = map<string, File>

  datatype Disk = Disk(status: StatusFile, statusNew: StatusFile, statusOld: StatusFile, updates: Dir)

  datatype Error = NameTooLong | NameLengthsDiffer | Unparsable

  datatype Result<+T> = Ok(value: T) | Err(error: Error)

  /** `scandir(updatesdir, update_file_filter, alphasort)`. */
  function Scan(dir: Dir): Result<seq<string>> {
    var names := set n | n in dir && AllDigits(n);
    if exists n :: n in names && |n| > IMPORTANTMAXLEN then Err(NameTooLong)
    else if exists a, b :: a in names && b in names && |a| != |b| then Err(NameLengthsDiffer)
    else Ok(Sorted(names))
  }

  predicate Complete(dir: Dir, names: seq<string>) {
    forall i :: 0 <= i < |names| ==> names[i] in dir && dir[names[i]].Entry?
  }

  /** `parsedb(update, pdb_parse_update)` over the listed files, in order. */
  function Replay(c: Core, dir: Dir, names: seq<string>): Core
    requires Complete(dir, names)
    decreases |names|
  {
    if names == [] then c
    else Replay(c[dir[names[0]].pkg := dir[names[0]].stanza], dir, names[1..])
  }

  /** What opening the database would load from this disk (the parsing half of `cleanupdates`). */
  function Recover(d: Disk): Result<Core> {
    if d.status.Torn? then Err(Unparsable)
    else
      var base := if d.status.Full? then d.status.stanzas else map[];
      match Scan(d.updates)
      case Err(e) => Err(e)
      case Ok(names) =>
        if Complete(d.updates, names) then
          Ok(Replay(base, d.updates, names))
        else Err(Unparsable)
  }

  /**
   A disk is refused exactly if its status file is torn, a numbered file is only
   partly written, or the numbers are longer than 10 digits or not all of one length.
   */
  lemma RefusedIff(d: Disk)
    ensures Recover(d).Err? <==>
      || d.status.Torn?
      || exists n :: n in d.updates && AllDigits(n)
           && (d.updates[n].Partial? || |n| > 10 || exists m :: m in d.updates && AllDigits(m) && |m| != |n|)
  {
    hide AllDigits, Replay, Scan;
    ScanIff(d.updates);
    if Scan(d.updates).Ok? {
      var r := Scan(d.updates).value;
      if !Complete(d.updates, r) {
        var i :| 0 <= i < |r| && !(r[i] in d.updates && d.updates[r[i]].Entry?);
        assert r[i] in r && d.updates[r[i]].Partial?;
      } else {
        forall n | n in r ensures !d.updates[n].Partial? {
          var i :| 0 <= i < |r| && r[i] == n;
        }
      }
    }
  }

  lemma ScanIff(dir: Dir)
    ensures Scan(dir).Ok? <==>
      forall n, m :: n in dir && AllDigits(n) && m in dir && AllDigits(m) ==> |n| <= 10 && |n| == |m|
    ensures Scan(dir).Ok? ==> forall n :: n in Scan(dir).value <==> n in dir && AllDigits(n)
  {
    hide AllDigits;
  }

  // ---- file system operations ----

  datatype Op =
    | OpenStatusNew
    | WriteStatusNew(stanzas: Core)
    | UnlinkStatusOld
    | LinkStatusOld
    | RenameStatus
    | CreateTmp
    | WriteTmp(pkg: string, stanza: Stanza)
    | RenameTmp(name: string)
    | UnlinkTmp
    | UnlinkUpdate(name: string)

  /** The operation succeeds on this disk (a failure aborts the program). */
  predicate Enabled(d: Disk, op: Op) {
    match op
    case LinkStatusOld => d.statusOld.Absent?
    case RenameStatus => d.statusNew.Full?
    case WriteTmp(_, _) => IMPORTANTTMP in d.updates
    case RenameTmp(_) => IMPORTANTTMP in d.updates
    case UnlinkUpdate(name) => name in d.updates
    case _ => true
  }

  function Apply(d: Disk, op: Op): Disk {
    match op
    case OpenStatusNew => d.(statusNew := Torn)
    case WriteStatusNew(c) => d.(statusNew := Full(c))
    case UnlinkStatusOld => d.(statusOld := Absent)
    case LinkStatusOld => d.(statusOld := d.status)
    case RenameStatus => d.(status := d.statusNew, statusNew := Absent)
    case CreateTmp => d.(updates := d.updates[IMPORTANTTMP := Partial])
    case WriteTmp(p, s) => d.(updates := d.updates[IMPORTANTTMP := Entry(p, s)])
    case RenameTmp(name) =>
      if IMPORTANTTMP in d.updates then
        d.(updates := (d.updates - {IMPORTANTTMP})[name := d.updates[IMPORTANTTMP]])
      else d
    case UnlinkTmp => d.(updates := d.updates - {IMPORTANTTMP})
    case UnlinkUpdate(name) => d.(updates := d.updates - {name})
  }

  function ApplyAll(d: Disk, ops: seq<Op>): Disk
    decreases |ops|
  {
    if ops == [] then d else ApplyAll(Apply(d, ops[0]), ops[1..])
  }

  /** Which stanza each package last had renamed into the journal. */
  function Recorded(last: Core, d: Disk, op: Op): Core {
    if op.RenameTmp? && IMPORTANTTMP in d.updates && d.updates[IMPORTANTTMP].Entry?
    then last[d.updates[IMPORTANTTMP].pkg := d.updates[IMPORTANTTMP].stanza]
    else last
  }

  function RecordedAll(last: Core, d: Disk, ops: seq<Op>): Core
    decreases |ops|
  {
    if ops == [] then last else RecordedAll(Recorded(last, d, ops[0]), Apply(d, ops[0]), ops[1..])
  }

  lemma {:induction false} ApplyAllConcat(d: Disk, xs: seq<Op>, ys: seq<Op>)
    ensures ApplyAll(d, xs + ys) == ApplyAll(ApplyAll(d, xs), ys)
    decreases |xs|
  {
    if xs == [] {
      assert xs + ys == ys;
    } else {
      assert (xs + ys)[1..] == xs[1..] + ys;
      ApplyAllConcat(Apply(d, xs[0]), xs[1..], ys);
    }
  }

  lemma {:induction false} RecordedAllConcat(last: Core, d: Disk, xs: seq<Op>, ys: seq<Op>)
    ensures RecordedAll(last, d, xs + ys) == RecordedAll(RecordedAll(last, d, xs), ApplyAll(d, xs), ys)
    decreases |xs|
  {
    if xs == [] {
      assert xs + ys == ys;
    } else {
      assert (xs + ys)[1..] == xs[1..] + ys;
      RecordedAllConcat(Recorded(last, d, xs[0]), Apply(d, xs[0]), xs[1..], ys);
    }
  }

  // ---- the calls, as the operations they perform ----

  /** `writedb(statusfile, wdb_must_sync)` with ATOMIC_FILE_BACKUP. */
  function WriteDbOps(c: Core): seq<Op> {
    [OpenStatusNew, WriteStatusNew(Dump(c)), UnlinkStatusOld, LinkStatusOld, RenameStatus]
  }

  function UnlinkOps(names: seq<string>): (r: seq<Op>)
    ensures |r| == |names|
  {
    if names == [] then [] else [UnlinkUpdate(names[0])] + UnlinkOps(names[1..])
  }

  /** The names updates/lo .. updates/(hi-1), formatted with "%04d". */
  function Names(lo: nat, hi: nat): (r: seq<string>)
    requires lo <= hi
    ensures |r| == hi - lo
  {
    seq(hi - lo, i requires 0 <= i < hi - lo => Padded4(lo + i))
  }

  function CheckpointOps(c: Core, next: nat): seq<Op> {
    WriteDbOps(c) + UnlinkOps(Names(0, next))
  }

  function NoteOps(c: Core, next: nat, p: string): seq<Op> {
    [WriteTmp(p, Get(c, p)), RenameTmp(Padded4(next))]
    + ((if next + 1 > MAXUPDATES then CheckpointOps(c, next + 1) else []) + [CreateTmp])
  }

  function NextAfterNote(next: nat): nat { if next + 1 > MAXUPDATES then 0 else next + 1 }

  function ShutdownOps(c: Core, next: nat): seq<Op> { CheckpointOps(c, next) + [UnlinkTmp] }

  /** Opening for writing: incorporate and unlink leftover updates, then create the scratch file. */
  function OpenOps(d: Disk, c: Core, names: seq<string>): seq<Op> {
    (if names == [] then [] else WriteDbOps(c) + UnlinkOps(names)) + [CreateTmp]
  }

  // ---- the shape of the journal ----

  /** The numeric names present are exactly lo .. hi-1, each a complete entry. */
  ghost predicate Shape(dir: Dir, lo: nat, hi: nat) {
    && lo <= hi <= MAXUPDATES + 1
    && Complete(dir, Names(lo, hi))
    && (forall n :: n in dir && AllDigits(n) ==> lo <= Value(n) < hi && n == Padded4(Value(n)))
  }

  function Base(d: Disk): Core { if d.status.Full? then d.status.stanzas else map[] }

  lemma TmpIsNotNumeric()
    ensures !AllDigits(IMPORTANTTMP)
  {
    assert !IsDigit(IMPORTANTTMP[0]);
  }

  lemma NamesAscend(lo: nat, hi: nat)
    requires lo <= hi <= 10000
    ensures Ascending(Names(lo, hi))
  {
    forall i, j | 0 <= i < j < hi - lo ensures Less(Names(lo, hi)[i], Names(lo, hi)[j]) {
      Padded4Order(lo + i, lo + j);
    }
  }

  lemma NamesMember(lo: nat, hi: nat, n: string)
    requires lo <= hi
    ensures n in Names(lo, hi) ==> AllDigits(n) && lo <= Value(n) < hi && n == Padded4(Value(n))
    ensures AllDigits(n) && lo <= Value(n) < hi && n == Padded4(Value(n)) ==> n in Names(lo, hi)
  {
    if n in Names(lo, hi) {
      var i :| 0 <= i < hi - lo && Names(lo, hi)[i] == n;
      assert n == Padded4(lo + i);
    }
    if AllDigits(n) && lo <= Value(n) < hi && n == Padded4(Value(n)) {
      assert Names(lo, hi)[Value(n) - lo] == n;
    }
  }

  /**
   A directory of that shape lists in write order, and no name in it is
   rejected for its length.
   */
  lemma ScanShape(dir: Dir, lo: nat, hi: nat)
    requires Shape(dir, lo, hi)
    ensures Scan(dir) == Ok(Names(lo, hi))
  {
    var names := set n | n in dir && AllDigits(n);
    var r := Names(lo, hi);
    forall n ensures n in names <==> n in r { NamesMember(lo, hi, n); }
    forall n | n in names ensures |n| == 4 { Padded4Width(Value(n)); }
    NamesAscend(lo, hi);
    AscendingUnique(r, Sorted(names));
  }

  // ---- replay ----

  /** The stanza the listed files last give package p, if any. */
  function Pending(dir: Dir, names: seq<string>, p: string): Option<Stanza>
    requires Complete(dir, names)
  {
    if names == [] then None
    else
      var rest := Pending(dir, names[1..], p);
      if rest.Some? then rest
      else if dir[names[0]].pkg == p then Some(dir[names[0]].stanza) else None
  }

  lemma {:induction false} ReplayGet(c: Core, dir: Dir, names: seq<string>, p: string)
    requires Complete(dir, names)
    ensures Get(Replay(c, dir, names), p)
         == match Pending(dir, names, p) case Some(v) => v case None => Get(c, p)
    decreases |names|
  {
    if names != [] {
      ReplayGet(c[dir[names[0]].pkg := dir[names[0]].stanza], dir, names[1..], p);
    }
  }

  lemma {:induction false} ReplayAppend(c: Core, dir: Dir, names: seq<string>, n: string)
    requires Complete(dir, names + [n])
    ensures Complete(dir, names) && n in dir && dir[n].Entry?
    ensures Replay(c, dir, names + [n]) == Replay(c, dir, names)[dir[n].pkg := dir[n].stanza]
    decreases |names|
  {
    assert (names + [n])[|names|] == n;
    assert forall i :: 0 <= i < |names| ==> (names + [n])[i] == names[i];
    if names != [] {
      assert (names + [n])[1..] == names[1..] + [n];
      ReplayAppend(c[dir[names[0]].pkg := dir[names[0]].stanza], dir, names[1..], n);
    }
  }

  lemma {:induction false} ReplayFrame(c: Core, dir: Dir, dir': Dir, names: seq<string>)
    requires Complete(dir, names) && Complete(dir', names)
    requires forall i :: 0 <= i < |names| ==> dir'[names[i]] == dir[names[i]]
    ensures Replay(c, dir, names) == Replay(c, dir', names)
    decreases |names|
  {
    if names != [] {
      ReplayFrame(c[dir[names[0]].pkg := dir[names[0]].stanza], dir, dir', names[1..]);
    }
  }

  ghost predicate PendingMatches(core: Core, dir: Dir, names: seq<string>)
    requires Complete(dir, names)
  {
    forall p :: Pending(dir, names, p).Some? ==> Norm(Pending(dir, names, p).value) == Norm(Get(core, p))
  }

  /** Replaying gives back `core` over its own dump exactly when the files agree with it. */
  lemma ReplayOverDump(core: Core, dir: Dir, names: seq<string>)
    requires Complete(dir, names)
    ensures Agree(Replay(Dump(core), dir, names), core) <==> PendingMatches(core, dir, names)
  {
    DumpAgrees(core);
    forall p ensures Norm(Get(Replay(Dump(core), dir, names), p)) == Norm(Get(core, p))
                <==> (Pending(dir, names, p).Some? ==> Norm(Pending(dir, names, p).value) == Norm(Get(core, p)))
    {
      ReplayGet(Dump(core), dir, names, p);
      assert Norm(Get(Dump(core), p)) == Norm(Get(core, p));
    }
  }

  /** Replaying over a status that already holds the result changes nothing. */
  lemma ReplayHarmless(c: Core, core: Core, dir: Dir, names: seq<string>)
    requires Complete(dir, names) && Agree(Replay(c, dir, names), core)
    ensures PendingMatches(core, dir, names)
  {
    forall p | Pending(dir, names, p).Some?
      ensures Norm(Pending(dir, names, p).value) == Norm(Get(core, p))
    {
      ReplayGet(c, dir, names, p);
      assert Norm(Get(Replay(c, dir, names), p)) == Norm(Get(core, p));
    }
  }

  /** ... and keeps changing nothing as the oldest files disappear. */
  lemma PendingTail(core: Core, dir: Dir, names: seq<string>)
    requires names != [] && Complete(dir, names) && PendingMatches(core, dir, names)
    ensures Complete(dir, names[1..]) && PendingMatches(core, dir, names[1..])
  { }

  lemma {:induction false} PendingSuffix(core: Core, dir: Dir, names: seq<string>, k: nat)
    requires k <= |names| && Complete(dir, names) && PendingMatches(core, dir, names)
    ensures Complete(dir, names[k..]) && PendingMatches(core, dir, names[k..])
    decreases k
  {
    if k == 0 {
      assert names[0..] == names;
    } else {
      PendingTail(core, dir, names);
      PendingSuffix(core, dir, names[1..], k - 1);
      assert names[1..][k - 1..] == names[k..];
    }
  }

  /**
   The in-core discipline the checkpoint rests on, exactly.  A process may stop
   anywhere in the unlink loop and lose nothing if and only if every package
   with a pending update still has, in core, the stanza last written for it.
   */
  lemma CheckpointHarmlessIff(core: Core, dir: Dir, names: seq<string>)
    requires Complete(dir, names)
    ensures forall k :: 0 <= k <= |names| ==> Complete(dir, names[k..])
    ensures (forall k :: 0 <= k <= |names| ==> Agree(Replay(Dump(core), dir, names[k..]), core))
        <==> (forall p :: Pending(dir, names, p).Some? ==>
                Norm(Pending(dir, names, p).value) == Norm(Get(core, p)))
  {
    assert names[0..] == names;
    forall k | 0 <= k <= |names|
      ensures Agree(Replay(Dump(core), dir, names[k..]), core) <==> PendingMatches(core, dir, names[k..])
    {
      ReplayOverDump(core, dir, names[k..]);
    }
    if PendingMatches(core, dir, names) {
      forall k | 0 <= k <= |names| ensures PendingMatches(core, dir, names[k..]) {
        PendingSuffix(core, dir, names, k);
      }
    }
  }

  // ---- every prefix of every call is safe ----

  /** The journal lo .. hi-1 over the status file gives back exactly the recorded stanzas. */
  ghost predicate Holds(d: Disk, lo: nat, hi: nat, last: Core) {
    && !d.status.Torn?
    && Shape(d.updates, lo, hi)
    && Agree(Replay(Base(d), d.updates, Names(lo, hi)), last)
  }

  ghost predicate Sound(d: Disk, last: Core) {
    exists lo, hi :: Holds(d, lo, hi, last)
  }

  lemma {:induction false} SoundRecovers(d: Disk, last: Core)
    requires Sound(d, last)
    ensures Recover(d).Ok? && Agree(Recover(d).value, last)
  {
    var lo, hi :| Holds(d, lo, hi, last);
    ScanShape(d.updates, lo, hi);
  }

  ghost predicate SafeThroughout(d: Disk, last: Core, ops: seq<Op>)
    decreases |ops|
  {
    && Sound(d, last)
    && (ops != [] ==>
          && Enabled(d, ops[0])
          && SafeThroughout(Apply(d, ops[0]), Recorded(last, d, ops[0]), ops[1..]))
  }

  lemma {:induction false} SafePrefix(d: Disk, last: Core, ops: seq<Op>, k: nat)
    requires SafeThroughout(d, last, ops) && k <= |ops|
    ensures Sound(ApplyAll(d, ops[..k]), RecordedAll(last, d, ops[..k]))
    decreases k
  {
    if k > 0 {
      assert ops[..k][0] == ops[0] && ops[..k][1..] == ops[1..][..k - 1];
      SafePrefix(Apply(d, ops[0]), Recorded(last, d, ops[0]), ops[1..], k - 1);
    }
  }

  lemma {:induction false} SafeConcat(d: Disk, last: Core, xs: seq<Op>, ys: seq<Op>)
    requires SafeThroughout(d, last, xs)
    requires SafeThroughout(ApplyAll(d, xs), RecordedAll(last, d, xs), ys)
    ensures SafeThroughout(d, last, xs + ys)
    decreases |xs|
  {
    if xs == [] {
      assert xs + ys == ys;
    } else {
      assert (xs + ys)[0] == xs[0] && (xs + ys)[1..] == xs[1..] + ys;
      SafeConcat(Apply(d, xs[0]), Recorded(last, d, xs[0]), xs[1..], ys);
    }
  }

  lemma SafeOne(d: Disk, last: Core, op: Op)
    requires Sound(d, last) && Enabled(d, op) && Sound(Apply(d, op), Recorded(last, d, op))
    ensures SafeThroughout(d, last, [op])
    ensures ApplyAll(d, [op]) == Apply(d, op) && RecordedAll(last, d, [op]) == Recorded(last, d, op)
  { }

  lemma SafeCons(d: Disk, last: Core, op: Op, ops: seq<Op>)
    requires Sound(d, last) && Enabled(d, op) && SafeThroughout(Apply(d, op), Recorded(last, d, op), ops)
    ensures SafeThroughout(d, last, [op] + ops)
    ensures ApplyAll(d, [op] + ops) == ApplyAll(Apply(d, op), ops)
    ensures RecordedAll(last, d, [op] + ops) == RecordedAll(Recorded(last, d, op), Apply(d, op), ops)
  { }

  ghost predicate AllEnabled(d: Disk, ops: seq<Op>)
    decreases |ops|
  {
    ops == [] || (Enabled(d, ops[0]) && AllEnabled(Apply(d, ops[0]), ops[1..]))
  }

  /** Operations on status-new and status-old touch nothing that recovery reads. */
  lemma {:induction false} PrepareSafe(d: Disk, last: Core, ops: seq<Op>)
    requires Sound(d, last)
    requires forall i :: 0 <= i < |ops| ==>
      ops[i].OpenStatusNew? || ops[i].WriteStatusNew? || ops[i].UnlinkStatusOld? || ops[i].LinkStatusOld?
    requires AllEnabled(d, ops)
    ensures SafeThroughout(d, last, ops) && RecordedAll(last, d, ops) == last
    ensures ApplyAll(d, ops).status == d.status && ApplyAll(d, ops).updates == d.updates
    decreases |ops|
  {
    if ops != [] {
      var lo, hi :| Holds(d, lo, hi, last);
      assert Holds(Apply(d, ops[0]), lo, hi, last);
      PrepareSafe(Apply(d, ops[0]), last, ops[1..]);
    }
  }

  lemma AgreeTrans(a: Core, b: Core, c: Core)
    requires Agree(a, b) && Agree(c, b)
    ensures Agree(a, c)
  { }

  /** The atomic replacement: before the rename the old status, after it the new one. */
  lemma WriteDbSafe(d: Disk, lo: nat, hi: nat, last: Core, core: Core)
    requires Holds(d, lo, hi, last) && Agree(core, last)
    ensures SafeThroughout(d, last, WriteDbOps(core))
    ensures RecordedAll(last, d, WriteDbOps(core)) == last
    ensures var d' := ApplyAll(d, WriteDbOps(core));
      Holds(d', lo, hi, last) && d'.updates == d.updates && d'.status == Full(Dump(core))
    ensures PendingMatches(core, d.updates, Names(lo, hi))
  {
    var xs := WriteDbOps(core)[..4];
    assert WriteDbOps(core) == xs + [RenameStatus];
    PrepareEnabled(d, core);
    PrepareSafe(d, last, xs);
    var d4 := ApplyAll(d, xs);
    WriteDbPrepared(d, core);
    var d5 := Apply(d4, RenameStatus);
    AgreeTrans(Replay(Base(d), d.updates, Names(lo, hi)), last, core);
    ReplayHarmless(Base(d), core, d.updates, Names(lo, hi));
    ReplayOverDump(core, d.updates, Names(lo, hi));
    AgreeTrans(last, last, core);
    AgreeTrans(Replay(Dump(core), d.updates, Names(lo, hi)), core, last);
    assert Holds(d5, lo, hi, last);
    assert Holds(d4, lo, hi, last);
    SafeOne(d4, last, RenameStatus);
    SafeConcat(d, last, xs, [RenameStatus]);
    ApplyAllConcat(d, xs, [RenameStatus]);
    RecordedAllConcat(last, d, xs, [RenameStatus]);
  }

  /** A backup can be linked, since the previous one has just been removed. */
  lemma PrepareEnabled(d: Disk, core: Core)
    ensures AllEnabled(d, WriteDbOps(core)[..4])
  {
    hide Dump;
    var xs, write := WriteDbOps(core)[..4], WriteStatusNew(Dump(core));
    var d1 := Apply(d, OpenStatusNew);
    var d2 := Apply(d1, write);
    assert [LinkStatusOld][1..] == [] && AllEnabled(Apply(d2, UnlinkStatusOld), [LinkStatusOld]);
    assert [UnlinkStatusOld, LinkStatusOld][1..] == [LinkStatusOld] && AllEnabled(d2, [UnlinkStatusOld, LinkStatusOld]);
    assert xs[1..][1..] == [UnlinkStatusOld, LinkStatusOld] && xs[1..][0] == write && AllEnabled(d1, xs[1..]);
  }

  lemma ApplyTwo(d: Disk, a: Op, b: Op)
    ensures ApplyAll(d, [a, b]) == Apply(Apply(d, a), b)
  {
    assert [a, b][1..] == [b] && [b][1..] == [];
    assert ApplyAll(Apply(d, a), [b]) == Apply(Apply(d, a), b);
  }

  lemma WriteDbPrepared(d: Disk, core: Core)
    ensures ApplyAll(d, WriteDbOps(core)[..4]).statusNew == Full(Dump(core))
  {
    var xs := [OpenStatusNew, WriteStatusNew(Dump(core))];
    assert WriteDbOps(core)[..4] == xs + [UnlinkStatusOld, LinkStatusOld];
    ApplyAllConcat(d, xs, [UnlinkStatusOld, LinkStatusOld]);
    ApplyTwo(d, OpenStatusNew, WriteStatusNew(Dump(core)));
    ApplyTwo(ApplyAll(d, xs), UnlinkStatusOld, LinkStatusOld);
  }

  /** A checkpointed status with the update files lo .. hi-1 still to be unlinked. */
  ghost predicate Checkpointed(d: Disk, lo: nat, hi: nat, last: Core, core: Core) {
    && Holds(d, lo, hi, last)
    && d.status == Full(Dump(core))
    && Agree(core, last)
    && PendingMatches(core, d.updates, Names(lo, hi))
  }

  /** The unlink loops of `modstatdb_checkpoint` and `cleanupdates`. */
  lemma {:induction false} UnlinkSafe(d: Disk, lo: nat, hi: nat, last: Core, core: Core)
    requires Checkpointed(d, lo, hi, last, core)
    ensures var ops := UnlinkOps(Names(lo, hi));
      && SafeThroughout(d, last, ops)
      && RecordedAll(last, d, ops) == last
      && Holds(ApplyAll(d, ops), hi, hi, last)
      && (IMPORTANTTMP in d.updates ==> IMPORTANTTMP in ApplyAll(d, ops).updates)
    decreases hi - lo
  {
    hide Padded4, Replay;
    if lo == hi {
      assert UnlinkOps(Names(lo, hi)) == [];
    } else {
      var op := UnlinkUpdate(Padded4(lo));
      var rest := UnlinkOps(Names(lo + 1, hi));
      UnlinkOldest(d, lo, hi, last, core);
      UnlinkSafe(Apply(d, op), lo + 1, hi, last, core);
      SafeCons(d, last, op, rest);
      UnlinkOpsStep(lo, hi);
    }
  }

  lemma UnlinkOpsStep(lo: nat, hi: nat)
    requires lo < hi
    ensures UnlinkOps(Names(lo, hi)) == [UnlinkUpdate(Padded4(lo))] + UnlinkOps(Names(lo + 1, hi))
  {
    assert Names(lo, hi)[1..] == Names(lo + 1, hi);
  }

  lemma UnlinkOldest(d: Disk, lo: nat, hi: nat, last: Core, core: Core)
    requires Checkpointed(d, lo, hi, last, core) && lo < hi
    ensures Enabled(d, UnlinkUpdate(Padded4(lo)))
    ensures var d' := Apply(d, UnlinkUpdate(Padded4(lo)));
      && Checkpointed(d', lo + 1, hi, last, core)
      && (IMPORTANTTMP in d.updates ==> IMPORTANTTMP in d'.updates)
  {
    var names := Names(lo, hi);
    var d' := Apply(d, UnlinkUpdate(Padded4(lo)));
    UnlinkShape(d, lo, hi);
    PendingTail(core, d.updates, names);
    ReplayOverDump(core, d.updates, names[1..]);
    ReplayFrame(Dump(core), d.updates, d'.updates, names[1..]);
    ReplayOverDump(core, d'.updates, names[1..]);
    AgreeTrans(last, last, core);
    AgreeTrans(Replay(Dump(core), d'.updates, names[1..]), core, last);
  }

  lemma UnlinkShape(d: Disk, lo: nat, hi: nat)
    requires lo < hi && Shape(d.updates, lo, hi)
    ensures Names(lo, hi)[1..] == Names(lo + 1, hi) && Padded4(lo) in d.updates
    ensures var d' := Apply(d, UnlinkUpdate(Padded4(lo)));
      && Shape(d'.updates, lo + 1, hi)
      && (forall n :: n in Names(lo + 1, hi) ==> n in d.updates && n in d'.updates && d'.updates[n] == d.updates[n])
      && (IMPORTANTTMP in d.updates ==> IMPORTANTTMP in d'.updates)
  {
    hide Padded4, Value, Less;
    TmpIsNotNumeric();
    var names := Names(lo, hi);
    assert names[0] == Padded4(lo) && names[1..] == Names(lo + 1, hi);
    NamesAscend(lo, hi);
    AscendingDistinct(names);
  }

  lemma {:induction false} CheckpointSafe(d: Disk, lo: nat, hi: nat, last: Core, core: Core)
    requires Holds(d, lo, hi, last) && Agree(core, last)
    ensures var ops := WriteDbOps(core) + UnlinkOps(Names(lo, hi));
      && SafeThroughout(d, last, ops)
      && RecordedAll(last, d, ops) == last
      && Holds(ApplyAll(d, ops), 0, 0, last)
      && (IMPORTANTTMP in d.updates ==> IMPORTANTTMP in ApplyAll(d, ops).updates)
  {
    var d' := ApplyAll(d, WriteDbOps(core));
    WriteDbSafe(d, lo, hi, last, core);
    UnlinkSafe(d', lo, hi, last, core);
    SafeConcat(d, last, WriteDbOps(core), UnlinkOps(Names(lo, hi)));
    ApplyAllConcat(d, WriteDbOps(core), UnlinkOps(Names(lo, hi)));
    RecordedAllConcat(last, d, WriteDbOps(core), UnlinkOps(Names(lo, hi)));
    assert Names(hi, hi) == Names(0, 0) == [];
  }

  lemma NamesAvoidTmp(lo: nat, hi: nat)
    requires lo <= hi
    ensures forall i :: 0 <= i < hi - lo ==> Names(lo, hi)[i] != IMPORTANTTMP
  {
    TmpIsNotNumeric();
    forall i | 0 <= i < hi - lo ensures Names(lo, hi)[i] != IMPORTANTTMP {
      assert Names(lo, hi)[i] == Padded4(lo + i);
    }
  }

  /** The scratch file is invisible to recovery. */
  lemma TmpInvisible(d: Disk, d': Disk, lo: nat, hi: nat, last: Core)
    requires Holds(d, lo, hi, last) && d'.status == d.status
    requires forall n :: n != IMPORTANTTMP ==> (n in d'.updates <==> n in d.updates)
    requires forall n :: n != IMPORTANTTMP && n in d.updates ==> d'.updates[n] == d.updates[n]
    ensures Holds(d', lo, hi, last)
  {
    TmpIsNotNumeric();
    var names := Names(lo, hi);
    NamesAvoidTmp(lo, hi);
    assert Complete(d'.updates, names);
    ReplayFrame(Base(d), d.updates, d'.updates, names);
  }

  /** The rename that records a stanza. */
  lemma RenameRecords(d: Disk, next: nat, last: Core)
    requires Holds(d, 0, next, last) && next <= MAXUPDATES
    requires IMPORTANTTMP in d.updates && d.updates[IMPORTANTTMP].Entry?
    ensures var op := RenameTmp(Padded4(next));
      Holds(Apply(d, op), 0, next + 1, Recorded(last, d, op))
  {
    hide Padded4, Value, Less, Replay;
    TmpIsNotNumeric();
    var op := RenameTmp(Padded4(next));
    var e := d.updates[IMPORTANTTMP];
    var d' := Apply(d, op);
    var names := Names(0, next);
    assert d'.updates[Padded4(next)] == e;
    NamesAvoidTmp(0, next + 1);
    NamesAscend(0, next + 1);
    AscendingDistinct(Names(0, next + 1));
    assert Names(0, next + 1) == names + [Padded4(next)];
    forall i | 0 <= i < next ensures names[i] in d'.updates && d'.updates[names[i]] == d.updates[names[i]] {
      assert Names(0, next + 1)[i] == names[i];
    }
    assert Shape(d'.updates, 0, next + 1);
    ReplayAppend(Base(d), d'.updates, names, Padded4(next));
    ReplayFrame(Base(d), d.updates, d'.updates, names);
    RecordAgrees(Replay(Base(d), d.updates, names), last, e.pkg, e.stanza);
  }

  lemma RecordAgrees(a: Core, b: Core, p: string, s: Stanza)
    requires Agree(a, b)
    ensures Agree(a[p := s], b[p := s])
  {
    var a', b' := a[p := s], b[p := s];
    forall q ensures Norm(Get(a', q)) == Norm(Get(b', q)) {
      assert Norm(Get(a, q)) == Norm(Get(b, q));
    }
  }

  lemma CreateTmpSafe(d: Disk, lo: nat, hi: nat, last: Core)
    requires Holds(d, lo, hi, last)
    ensures SafeThroughout(d, last, [CreateTmp]) && RecordedAll(last, d, [CreateTmp]) == last
    ensures ApplyAll(d, [CreateTmp]) == Apply(d, CreateTmp)
    ensures Holds(Apply(d, CreateTmp), lo, hi, last) && IMPORTANTTMP in Apply(d, CreateTmp).updates
  {
    TmpInvisible(d, Apply(d, CreateTmp), lo, hi, last);
    SafeOne(d, last, CreateTmp);
  }

  /** A running writer between calls. */
  ghost predicate Ready(d: Disk, core: Core, next: nat, last: Core) {
    && next <= MAXUPDATES
    && Holds(d, 0, next, last)
    && Agree(core, last)
    && IMPORTANTTMP in d.updates
  }

  /** Writing and renaming the scratch file, the first half of `modstatdb_note_core`. */
  lemma RecordSafe(d: Disk, core: Core, next: nat, last: Core, p: string, s: Stanza)
    requires Ready(d, core, next, last)
    ensures var ops := [WriteTmp(p, s), RenameTmp(Padded4(next))];
      && SafeThroughout(d, last, ops)
      && RecordedAll(last, d, ops) == last[p := s]
      && Holds(ApplyAll(d, ops), 0, next + 1, last[p := s])
  {
    var w, r := WriteTmp(p, s), RenameTmp(Padded4(next));
    var d1 := Apply(d, w);
    TmpInvisible(d, d1, 0, next, last);
    RenameRecords(d1, next, last);
    SafeOne(d1, last, r);
    SafeCons(d, last, w, [r]);
    assert [w] + [r] == [w, r];
  }

  /** The checkpoint that a full journal forces, the second half of `modstatdb_note_core`. */
  lemma NoteTailSafe(d: Disk, core: Core, next: nat, last: Core)
    requires next <= MAXUPDATES && Holds(d, 0, next + 1, last) && Agree(core, last)
    ensures var ops := (if next + 1 > MAXUPDATES then CheckpointOps(core, next + 1) else []) + [CreateTmp];
      && SafeThroughout(d, last, ops)
      && RecordedAll(last, d, ops) == last
      && Ready(ApplyAll(d, ops), core, NextAfterNote(next), last)
  {
    if next + 1 > MAXUPDATES {
      var ops := CheckpointOps(core, next + 1);
      CheckpointSafe(d, 0, next + 1, last, core);
      CreateTmpSafe(ApplyAll(d, ops), 0, 0, last);
      SafeConcat(d, last, ops, [CreateTmp]);
      ApplyAllConcat(d, ops, [CreateTmp]);
      RecordedAllConcat(last, d, ops, [CreateTmp]);
    } else {
      CreateTmpSafe(d, 0, next + 1, last);
      assert [] + [CreateTmp] == [CreateTmp];
    }
  }

  lemma NoteSafe(d: Disk, core: Core, next: nat, last: Core, p: string, s: Stanza)
    requires Ready(d, core, next, last)
    ensures var c := core[p := s];
      var ops := NoteOps(c, next, p);
      && SafeThroughout(d, last, ops)
      && RecordedAll(last, d, ops) == last[p := s]
      && Ready(ApplyAll(d, ops), c, NextAfterNote(next), last[p := s])
  {
    var c, l := core[p := s], last[p := s];
    var first := [WriteTmp(p, s), RenameTmp(Padded4(next))];
    var second := (if next + 1 > MAXUPDATES then CheckpointOps(c, next + 1) else []) + [CreateTmp];
    RecordSafe(d, core, next, last, p, s);
    RecordAgrees(core, last, p, s);
    NoteTailSafe(ApplyAll(d, first), c, next, l);
    SafeConcat(d, last, first, second);
    ApplyAllConcat(d, first, second);
    RecordedAllConcat(last, d, first, second);
    assert NoteOps(c, next, p) == first + second;
  }

  lemma OpenSafe(d: Disk, lo: nat, hi: nat, last: Core)
    requires Holds(d, lo, hi, last)
    ensures Scan(d.updates) == Ok(Names(lo, hi)) && Recover(d).Ok?
    ensures var core := Recover(d).value;
      var ops := OpenOps(d, core, Names(lo, hi));
      && SafeThroughout(d, last, ops)
      && RecordedAll(last, d, ops) == last
      && Ready(ApplyAll(d, ops), core, 0, last)
  {
    ScanShape(d.updates, lo, hi);
    var core := Recover(d).value;
    var first := if Names(lo, hi) == [] then [] else WriteDbOps(core) + UnlinkOps(Names(lo, hi));
    if lo < hi {
      CheckpointSafe(d, lo, hi, last, core);
    } else {
      assert Names(lo, hi) == Names(0, 0);
      assert Holds(d, 0, 0, last);
    }
    var d1 := ApplyAll(d, first);
    CreateTmpSafe(d1, 0, 0, last);
    SafeConcat(d, last, first, [CreateTmp]);
    ApplyAllConcat(d, first, [CreateTmp]);
    RecordedAllConcat(last, d, first, [CreateTmp]);
  }

  lemma ShutdownSafe(d: Disk, core: Core, next: nat, last: Core)
    requires Ready(d, core, next, last)
    ensures var ops := ShutdownOps(core, next);
      && SafeThroughout(d, last, ops)
      && RecordedAll(last, d, ops) == last
      && Holds(ApplyAll(d, ops), 0, 0, last)
      && IMPORTANTTMP !in ApplyAll(d, ops).updates
  {
    var first := CheckpointOps(core, next);
    CheckpointSafe(d, 0, next, last, core);
    var d1 := ApplyAll(d, first);
    TmpInvisible(d1, Apply(d1, UnlinkTmp), 0, 0, last);
    SafeOne(d1, last, UnlinkTmp);
    SafeConcat(d, last, first, [UnlinkTmp]);
    ApplyAllConcat(d, first, [UnlinkTmp]);
    RecordedAllConcat(last, d, first, [UnlinkTmp]);
  }

  // ---- what status and its backup hold ----

  /** A status file with exactly the informative stanzas. */
  ghost predicate Written(f: StatusFile, core: Core) {
    && f.Full?
    && (forall p :: p in f.stanzas <==> p in core && core[p].informative)
    && forall p :: p in f.stanzas ==> f.stanzas[p] == core[p]
  }

  /** The status file of `d0` has been replaced, and is the backup. */
  ghost predicate Replaced(d0: Disk, d: Disk, core: Core) {
    Written(d.status, core) && d.statusOld == d0.status
  }

  /** Not yet replaced: the backup is the old one, missing for a moment, or already the status file itself. */
  ghost predicate Replacing(d0: Disk, d: Disk) {
    && d.status == d0.status
    && (d.statusOld == d0.statusOld || d.statusOld.Absent? || d.statusOld == d0.status)
  }

  ghost predicate Untouched(d0: Disk, d: Disk) { d.status == d0.status && d.statusOld == d0.statusOld }

  lemma DumpWritten(c: Core)
    ensures Written(Full(Dump(c)), c)
  { }

  /** Operations on the journal alone. */
  lemma {:induction false} JournalOnly(d: Disk, ops: seq<Op>)
    requires forall i :: 0 <= i < |ops| ==>
      ops[i].CreateTmp? || ops[i].WriteTmp? || ops[i].RenameTmp? || ops[i].UnlinkTmp? || ops[i].UnlinkUpdate?
    ensures Untouched(d, ApplyAll(d, ops))
    decreases |ops|
  {
    if ops != [] { JournalOnly(Apply(d, ops[0]), ops[1..]); }
  }

  lemma {:induction false} UnlinksOnly(names: seq<string>)
    ensures forall i :: 0 <= i < |names| ==> UnlinkOps(names)[i].UnlinkUpdate?
    decreases |names|
  {
    if names != [] { UnlinksOnly(names[1..]); }
  }

  /** Where `writedb` has got to after k operations. */
  lemma WriteDbBackup(d: Disk, core: Core, k: nat)
    requires k <= |WriteDbOps(core)|
    ensures var d' := ApplyAll(d, WriteDbOps(core)[..k]);
      if k == |WriteDbOps(core)| then Replaced(d, d', core) else Replacing(d, d')
  {
    DumpWritten(core);
    var ops := WriteDbOps(core);
    hide Written, Dump;
    assert |ops| == 5;
    if k >= 1 { ApplySnoc(d, ops, 0); }
    if k >= 2 { ApplySnoc(d, ops, 1); }
    if k >= 3 { ApplySnoc(d, ops, 2); }
    if k >= 4 { ApplySnoc(d, ops, 3); }
    if k == 5 { ApplySnoc(d, ops, 4); }
  }

  lemma ApplySnoc(d: Disk, ops: seq<Op>, k: nat)
    requires k < |ops|
    ensures ApplyAll(d, ops[..k + 1]) == Apply(ApplyAll(d, ops[..k]), ops[k])
    ensures k == 0 ==> ApplyAll(d, ops[..k]) == d
  {
    assert ops[..k + 1] == ops[..k] + [ops[k]];
    ApplyAllConcat(d, ops[..k], [ops[k]]);
    assert [ops[k]][1..] == [];
  }

  /** The same with journal operations after it, or between two parts. */
  lemma ThenBackup(d: Disk, core: Core, rest: seq<Op>, k: nat)
    requires forall i :: 0 <= i < |rest| ==>
      rest[i].CreateTmp? || rest[i].WriteTmp? || rest[i].RenameTmp? || rest[i].UnlinkTmp? || rest[i].UnlinkUpdate?
    requires k <= |WriteDbOps(core) + rest|
    ensures var ops := WriteDbOps(core) + rest;
      var d' := ApplyAll(d, ops[..k]);
      && (Replacing(d, d') || Replaced(d, d', core)) && (k == |ops| ==> Replaced(d, d', core))
  {
    hide WriteDbOps, Replaced, Replacing;
    var w := WriteDbOps(core);
    if k < |w| {
      assert (w + rest)[..k] == w[..k];
      WriteDbBackup(d, core, k);
    } else {
      assert (w + rest)[..k] == w + rest[..k - |w|] && w[..|w|] == w;
      WriteDbBackup(d, core, |w|);
      ApplyAllConcat(d, w, rest[..k - |w|]);
      JournalOnly(ApplyAll(d, w), rest[..k - |w|]);
      StillReplaced(d, ApplyAll(d, w), ApplyAll(ApplyAll(d, w), rest[..k - |w|]), core);
    }
  }

  lemma StillReplaced(d0: Disk, d: Disk, d': Disk, core: Core)
    requires Replaced(d0, d, core) && Untouched(d, d')
    ensures Replaced(d0, d', core)
  { }

  /** The calls that write the status file, and what they write. */
  predicate Rewrites(w: World, call: Call)
    requires Possible(w, call)
  {
    match call
    case Open => Scan(w.disk.updates).value != []
    case Note(_, _) => w.process.next >= MAXUPDATES
    case Checkpoint => true
    case Shutdown => true
  }

  function Dumped(w: World, call: Call): Core
    requires Possible(w, call)
  {
    match call
    case Open => Recover(w.disk).value
    case Note(p, s) => w.process.core[p := s]
    case _ => w.process.core
  }

  /**
   The backup.  A call that rewrites the status file leaves exactly the
   informative stanzas there, and the status file from before as the backup; other
   calls leave both alone.  A process stopped on the way leaves the old status
   file, its backup being the old one, missing, or a link to it; or it leaves both
   as at the end.
   */
  lemma Backup(w: World, call: Call, k: nat)
    requires Possible(w, call) && k <= |Ops(w, call)|
    ensures var d := ApplyAll(w.disk, Ops(w, call)[..k]);
      if !Rewrites(w, call) then Untouched(w.disk, d)
      else
        && (Replacing(w.disk, d) || Replaced(w.disk, d, Dumped(w, call)))
        && (k == |Ops(w, call)| ==> Replaced(w.disk, d, Dumped(w, call)))
  {
    hide WriteDbOps, Replaced, Replacing, Scan, Recover;
    var ops, core := Ops(w, call), Dumped(w, call);
    if !Rewrites(w, call) {
      JournalOnly(w.disk, ops[..k]);
    } else {
      match call
      case Open =>
        RestOf(Scan(w.disk.updates).value, [CreateTmp]);
        assert ops == WriteDbOps(core) + (UnlinkOps(Scan(w.disk.updates).value) + [CreateTmp]);
        ThenBackup(w.disk, core, UnlinkOps(Scan(w.disk.updates).value) + [CreateTmp], k);
      case Note(p, s) => NoteBackup(w, p, s, k);
      case Checkpoint =>
        UnlinksOnly(Names(0, w.process.next));
        ThenBackup(w.disk, core, UnlinkOps(Names(0, w.process.next)), k);
      case Shutdown =>
        RestOf(Names(0, w.process.next), [UnlinkTmp]);
        assert ops == WriteDbOps(core) + (UnlinkOps(Names(0, w.process.next)) + [UnlinkTmp]);
        ThenBackup(w.disk, core, UnlinkOps(Names(0, w.process.next)) + [UnlinkTmp], k);
    }
  }

  lemma RestOf(names: seq<string>, last: seq<Op>)
    ensures forall i :: 0 <= i < |names| ==> (UnlinkOps(names) + last)[i].UnlinkUpdate?
  {
    UnlinksOnly(names);
  }

  lemma NoteBackup(w: World, p: string, s: Stanza, k: nat)
    requires w.process.Running? && w.process.next >= MAXUPDATES && k <= |Ops(w, Note(p, s))|
    ensures var ops := Ops(w, Note(p, s));
      var d := ApplyAll(w.disk, ops[..k]);
      && (Replacing(w.disk, d) || Replaced(w.disk, d, w.process.core[p := s]))
      && (k == |ops| ==> Replaced(w.disk, d, w.process.core[p := s]))
  {
    hide *;
    var core, n, k' := w.process.core[p := s], w.process.next, if k < 2 then 0 else k - 2;
    var first := [WriteTmp(p, s), RenameTmp(Padded4(n))];
    var rest := UnlinkOps(Names(0, n + 1)) + [CreateTmp];
    NoteOpsAre(w, p, s);
    var ops := Ops(w, Note(p, s));
    if k < 2 {
      JournalOnly(w.disk, ops[..k]);
      StillReplacing(w.disk, ApplyAll(w.disk, ops[..k]));
    } else {
      var d1 := ApplyAll(w.disk, first);
      assert ops[..k] == first + (WriteDbOps(core) + rest)[..k'];
      JournalOnly(w.disk, first);
      ApplyAllConcat(w.disk, first, (WriteDbOps(core) + rest)[..k']);
      RestOf(Names(0, n + 1), [CreateTmp]);
      ThenBackup(d1, core, rest, k');
      FromThere(w.disk, d1, ApplyAll(d1, (WriteDbOps(core) + rest)[..k']), core);
    }
  }

  lemma NoteOpsAre(w: World, p: string, s: Stanza)
    requires w.process.Running? && w.process.next >= MAXUPDATES
    ensures Possible(w, Note(p, s))
    ensures var core, n := w.process.core[p := s], w.process.next;
      Ops(w, Note(p, s)) == [WriteTmp(p, s), RenameTmp(Padded4(n))] + (WriteDbOps(core) + (UnlinkOps(Names(0, n + 1)) + [CreateTmp]))
  {
    hide WriteDbOps, Padded4, UnlinkOps, Names;
  }

  lemma StillReplacing(d0: Disk, d: Disk)
    requires Untouched(d0, d)
    ensures Replacing(d0, d)
  { }

  lemma FromThere(d0: Disk, d1: Disk, d: Disk, core: Core)
    requires Untouched(d0, d1)
    ensures Replaced(d1, d, core) ==> Replaced(d0, d, core)
    ensures Replacing(d1, d) ==> Replacing(d0, d)
  { }

  // ---- runs ----

  datatype Process = Down | Running(core: Core, next: nat)

  /** `last` is the history variable: the stanza each package last had renamed in. */
  datatype World = World(disk: Disk, process: Process, last: Core)

  datatype Call = Open | Note(pkg: string, stanza: Stanza) | Checkpoint | Shutdown

  /** A call, and after how many of its file system operations the process dies, if it does. */
  datatype Event = Event(call: Call, crashAfter: Option<nat>)

  /** Only a process that is up can note, checkpoint or shut down; only a parsable disk opens. */
  predicate Possible(w: World, call: Call) {
    if call.Open? then w.process.Down? && Recover(w.disk).Ok? && Scan(w.disk.updates).Ok?
    else w.process.Running?
  }

  function Ops(w: World, call: Call): seq<Op>
    requires Possible(w, call)
  {
    match call
    case Open => OpenOps(w.disk, Recover(w.disk).value, Scan(w.disk.updates).value)
    case Note(p, s) => NoteOps(w.process.core[p := s], w.process.next, p)
    case Checkpoint => CheckpointOps(w.process.core, w.process.next)
    case Shutdown => ShutdownOps(w.process.core, w.process.next)
  }

  function After(w: World, call: Call): Process
    requires Possible(w, call)
  {
    match call
    case Open => Running(Recover(w.disk).value, 0)
    case Note(p, s) => Running(w.process.core[p := s], NextAfterNote(w.process.next))
    case Checkpoint => Running(w.process.core, 0)
    case Shutdown => Down
  }

  function Step(w: World, e: Event): World {
    if !Possible(w, e.call) then w
    else
      var ops := Ops(w, e.call);
      if e.crashAfter.Some? && e.crashAfter.value <= |ops| then
        var done := ops[..e.crashAfter.value];
        World(ApplyAll(w.disk, done), Down, RecordedAll(w.last, w.disk, done))
      else
        World(ApplyAll(w.disk, ops), After(w, e.call), RecordedAll(w.last, w.disk, ops))
  }

  function Run(w: World, es: seq<Event>): World
    decreases |es|
  {
    if es == [] then w else Run(Step(w, es[0]), es[1..])
  }

  ghost predicate WorldOk(w: World) {
    match w.process
    case Down => Sound(w.disk, w.last)
    case Running(core, next) => Ready(w.disk, core, next, w.last)
  }

  lemma {:induction false} CallSafe(w: World, call: Call)
    requires WorldOk(w) && Possible(w, call)
    ensures var ops := Ops(w, call);
      && SafeThroughout(w.disk, w.last, ops)
      && WorldOk(World(ApplyAll(w.disk, ops), After(w, call), RecordedAll(w.last, w.disk, ops)))
  {
    match call
    case Open =>
      var lo, hi :| Holds(w.disk, lo, hi, w.last);
      OpenSafe(w.disk, lo, hi, w.last);
    case Note(p, s) => NoteSafe(w.disk, w.process.core, w.process.next, w.last, p, s);
    case Checkpoint => CheckpointSafe(w.disk, 0, w.process.next, w.last, w.process.core);
    case Shutdown => ShutdownSafe(w.disk, w.process.core, w.process.next, w.last);
  }

  lemma {:induction false} StepKeeps(w: World, e: Event)
    requires WorldOk(w)
    ensures WorldOk(Step(w, e))
  {
    if Possible(w, e.call) {
      CallSafe(w, e.call);
      var ops := Ops(w, e.call);
      if e.crashAfter.Some? && e.crashAfter.value <= |ops| {
        SafePrefix(w.disk, w.last, ops, e.crashAfter.value);
      }
    }
  }

  lemma {:induction false} RunKeeps(w: World, es: seq<Event>)
    requires WorldOk(w)
    ensures WorldOk(Run(w, es))
    decreases |es|
  {
    if es != [] {
      StepKeeps(w, es[0]);
      RunKeeps(Step(w, es[0]), es[1..]);
    }
  }

  ghost predicate Initial(w: World) {
    && w.process.Down?
    && !w.disk.status.Torn?
    && (exists lo, hi :: Shape(w.disk.updates, lo, hi))
    && Recover(w.disk) == Ok(w.last)
  }

  /**
   Crash recovery.  After any run of notes, checkpoints, shutdowns and reopens,
   with a crash after any file system operation of any of them, what opening
   the database would load is, for every package, the stanza last renamed into
   the journal (or the one it started with).
   */
  lemma {:induction false} CrashRecovery(w: World, es: seq<Event>)
    requires Initial(w)
    ensures var w' := Run(w, es);
      Recover(w'.disk).Ok? && forall p :: Norm(Get(Recover(w'.disk).value, p)) == Norm(Get(w'.last, p))
  {
    InitialOk(w);
    RunKeeps(w, es);
    var w' := Run(w, es);
    if w'.process.Running? { assert Holds(w'.disk, 0, w'.process.next, w'.last); }
    SoundRecovers(w'.disk, w'.last);
  }

  lemma InitialOk(w: World)
    requires Initial(w)
    ensures WorldOk(w)
  {
    var lo, hi :| Shape(w.disk.updates, lo, hi);
    ScanShape(w.disk.updates, lo, hi);
    assert Holds(w.disk, lo, hi, w.last);
  }

  /**
   Numbering.  In every reachable writable state between calls the journal is
   exactly 0000 .. next-1 with next at most MAXUPDATES, its names list in write
   order with no length rejected, and the following call can be made with every
   one of its operations succeeding.
   */
  lemma JournalNumbering(w: World, es: seq<Event>, call: Call)
    requires Initial(w) && Run(w, es).process.Running? && !call.Open?
    ensures var w' := Run(w, es);
      var next := w'.process.next;
      && next <= 250
      && (forall n :: n in w'.disk.updates && AllDigits(n) <==> n in Names(0, next))
      && Scan(w'.disk.updates) == Ok(Names(0, next))
      && (forall n :: n in Names(0, next) ==> |n| == 4 <= IMPORTANTMAXLEN)
      && Possible(w', call)
      && forall k :: 0 <= k < |Ops(w', call)| ==> Enabled(ApplyAll(w'.disk, Ops(w', call)[..k]), Ops(w', call)[k])
  {
    InitialOk(w);
    RunKeeps(w, es);
    var w' := Run(w, es);
    var next := w'.process.next;
    forall n ensures n in w'.disk.updates && AllDigits(n) <==> n in Names(0, next) { NamesMember(0, next, n); }
    forall n | n in Names(0, next) ensures |n| == 4 {
      NamesMember(0, next, n);
      Padded4Width(Value(n));
    }
    ScanShape(w'.disk.updates, 0, next);
    CallSafe(w', call);
    forall k | 0 <= k < |Ops(w', call)|
      ensures Enabled(ApplyAll(w'.disk, Ops(w', call)[..k]), Ops(w', call)[k])
    {
      SafeEnabled(w'.disk, w'.last, Ops(w', call), k);
    }
  }

  lemma {:induction false} SafeEnabled(d: Disk, last: Core, ops: seq<Op>, k: nat)
    requires SafeThroughout(d, last, ops) && k < |ops|
    ensures Enabled(ApplyAll(d, ops[..k]), ops[k])
    decreases k
  {
    if k > 0 {
      assert ops[..k][0] == ops[0] && ops[..k][1..] == ops[1..][..k - 1];
      SafeEnabled(Apply(d, ops[0]), Recorded(last, d, ops[0]), ops[1..], k - 1);
    }
  }
}
