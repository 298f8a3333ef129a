/**
 The open status database: the static state of lib/dpkg/dbmodify.c and the
 routines that change it.  Each routine is proved to perform exactly the list
 of file system operations that `Journal` reasons about, so everything shown
 there for crash points and whole runs holds of this code.
 */
module StatusDatabase {
  import opened Text
  import opened Journal

  datatype Access = Closed | ReadOnly | LockOnly | Write

  class StatusDb {
    var disk: Disk
    var core: Core
    var nextupdate: nat
    var cstatus: Access
    ghost var last: Core      // stanza last renamed in, per package
    ghost var log: seq<Op>    // file system operations so far

    /** Between calls a writer has the journal 0 .. nextupdate-1 and its scratch file. */
    ghost predicate Valid()
      reads this
    {
      cstatus.Write? ==> Ready(disk, core, nextupdate, last)
    }

    /** From the given state, exactly `ops` have been carried out. */
    ghost predicate Did(disk0: Disk, last0: Core, log0: seq<Op>, ops: seq<Op>)
      reads this
    {
      disk == ApplyAll(disk0, ops) && last == RecordedAll(last0, disk0, ops) && log == log0 + ops
    }

    constructor (d: Disk, ghost recorded: Core)
      ensures Valid() && disk == d && last == recorded && cstatus.Closed? && core == map[] && log == []
    {
      disk, core, nextupdate, cstatus, last, log := d, map[], 0, Closed, recorded, [];
    }

    /** One system call.  Its failure would abort the program, so it must be known to succeed. */
    method Do(op: Op)
      requires Enabled(disk, op)
      modifies this`disk, this`last, this`log
      ensures disk == Apply(old(disk), op) && last == Recorded(old(last), old(disk), op)
      ensures log == old(log) + [op]
    {
      last := Recorded(last, disk, op);
      log := log + [op];
      disk := Apply(disk, op);
    }

    lemma Extend(disk0: Disk, last0: Core, log0: seq<Op>, ops: seq<Op>, op: Op, d: Disk, l: Core)
      requires d == ApplyAll(disk0, ops) && l == RecordedAll(last0, disk0, ops)
      requires disk == Apply(d, op) && last == Recorded(l, d, op) && log == log0 + ops + [op]
      ensures Did(disk0, last0, log0, ops + [op])
    {
      ApplyAllConcat(disk0, ops, [op]);
      RecordedAllConcat(last0, disk0, ops, [op]);
      assert [op][1..] == [];
    }

    lemma DidNothing()
      ensures Did(disk, last, log, UnlinkOps([])) && Did(disk, last, log, [])
    { }

    lemma Concat(disk0: Disk, last0: Core, log0: seq<Op>, xs: seq<Op>, ys: seq<Op>)
      requires Did(ApplyAll(disk0, xs), RecordedAll(last0, disk0, xs), log0 + xs, ys)
      ensures Did(disk0, last0, log0, xs + ys)
    {
      ApplyAllConcat(disk0, xs, ys);
      RecordedAllConcat(last0, disk0, xs, ys);
      assert log0 + xs + ys == log0 + (xs + ys);
    }

    /** `Do`, seen from the start of the enclosing call. */
    method Then(op: Op, ghost disk0: Disk, ghost last0: Core, ghost log0: seq<Op>, ghost ops: seq<Op>)
      requires Enabled(disk, op) && Did(disk0, last0, log0, ops)
      modifies this`disk, this`last, this`log
      ensures disk == Apply(old(disk), op) && last == Recorded(old(last), old(disk), op)
      ensures Did(disk0, last0, log0, ops + [op])
    {
      ghost var d, l := disk, last;
      Do(op);
      Extend(disk0, last0, log0, ops, op, d, l);
    }

    /** `writedb(statusfile, wdb_must_sync)`. */
    method WriteDb(c: Core)
      modifies this`disk, this`last, this`log
      ensures Did(old(disk), old(last), old(log), WriteDbOps(c)) && disk.updates == old(disk).updates
      ensures Replaced(old(disk), disk, c)
    {
      DumpWritten(c);
      ghost var d, l, g := disk, last, log;
      Then(OpenStatusNew, d, l, g, []);
      Then(WriteStatusNew(Dump(c)), d, l, g, [] + [OpenStatusNew]);
      Then(UnlinkStatusOld, d, l, g, [] + [OpenStatusNew] + [WriteStatusNew(Dump(c))]);
      ghost var three := [OpenStatusNew, WriteStatusNew(Dump(c)), UnlinkStatusOld];
      assert [] + [OpenStatusNew] + [WriteStatusNew(Dump(c))] + [UnlinkStatusOld] == three;
      Then(LinkStatusOld, d, l, g, three);
      Then(RenameStatus, d, l, g, three + [LinkStatusOld]);
      assert three + [LinkStatusOld] + [RenameStatus] == WriteDbOps(c);
    }

    /** Unlinks the listed update files in order. */
    method UnlinkUpdates(names: seq<string>)
      requires forall i, j :: 0 <= i < j < |names| ==> names[i] != names[j]
      requires forall i :: 0 <= i < |names| ==> names[i] in disk.updates
      modifies this`disk, this`last, this`log
      ensures Did(old(disk), old(last), old(log), UnlinkOps(names)) && Untouched(old(disk), disk)
    {
      ghost var d, l, g := disk, last, log;
      var i := 0;
      while i < |names|
        invariant 0 <= i <= |names|
        invariant Did(d, l, g, UnlinkOps(names[..i])) && Untouched(d, disk)
        invariant forall j :: i <= j < |names| ==> names[j] in disk.updates
      {
        UnlinkOpsSnoc(names[..i], names[i]);
        assert names[..i + 1] == names[..i] + [names[i]];
        Then(UnlinkUpdate(names[i]), d, l, g, UnlinkOps(names[..i]));
        i := i + 1;
      }
      assert names[..i] == names;
    }

    /** `modstatdb_checkpoint`. */
    method Checkpoint()
      requires cstatus.Write? && Shape(disk.updates, 0, nextupdate)
      modifies this`disk, this`last, this`log, this`nextupdate
      ensures Did(old(disk), old(last), old(log), CheckpointOps(core, old(nextupdate)))
      ensures nextupdate == 0 && Replaced(old(disk), disk, core)
    {
      ghost var d, l, g := disk, last, log;
      NamesDistinct(0, nextupdate);
      WriteDb(core);
      ghost var d1 := disk;
      UnlinkUpdates(Names(0, nextupdate));
      StillReplaced(d, d1, disk, core);
      Concat(d, l, g, WriteDbOps(core), UnlinkOps(Names(0, nextupdate)));
      nextupdate := 0;
    }

    /** `modstatdb_note_core` for a package whose in-core stanza is already `s`. */
    method NoteCore(p: string, s: Stanza)
      requires cstatus.Write? && Get(core, p) == s && IMPORTANTTMP in disk.updates
      requires Shape(ApplyAll(disk, [WriteTmp(p, s), RenameTmp(Padded4(nextupdate))]).updates, 0, nextupdate + 1)
      modifies this`disk, this`last, this`log, this`nextupdate
      ensures nextupdate == NextAfterNote(old(nextupdate))
      ensures Did(old(disk), old(last), old(log), NoteOps(core, old(nextupdate), p))
      ensures if old(nextupdate) < MAXUPDATES then Untouched(old(disk), disk) else Replaced(old(disk), disk, core)
    {
      hide Padded4, WriteDbOps, UnlinkOps, Names;
      ghost var d, l, g, n := disk, last, log, nextupdate;
      Record(p, s);
      ghost var d1, l1, g1 := disk, last, log;
      ghost var second := [];
      nextupdate := nextupdate + 1;
      if nextupdate > MAXUPDATES {
        Checkpoint();
        second := CheckpointOps(core, n + 1);
      }
      Then(CreateTmp, d1, l1, g1, second);
      Concat(d, l, g, [WriteTmp(p, s), RenameTmp(Padded4(n))], second + [CreateTmp]);
    }

    /** A package's in-core stanza changes and is noted. */
    method Note(p: string, s: Stanza)
      requires Valid() && cstatus.Write?
      modifies this
      ensures Valid() && cstatus.Write?
      ensures core == old(core)[p := s] && nextupdate == NextAfterNote(old(nextupdate))
      ensures Did(old(disk), old(last), old(log), NoteOps(core, old(nextupdate), p))
      ensures last == old(last)[p := s]
    {
      hide NoteOps, ApplyAll, RecordedAll, NextAfterNote, Padded4, Ready, Shape, Names;
      NoteReady(disk, core, nextupdate, last, p, s);
      core := core[p := s];
      NoteCore(p, s);
    }

    /** Fills the scratch file and renames it into the journal. */
    method Record(p: string, s: Stanza)
      requires IMPORTANTTMP in disk.updates
      modifies this`disk, this`last, this`log
      ensures Did(old(disk), old(last), old(log), [WriteTmp(p, s), RenameTmp(Padded4(nextupdate))])
      ensures Untouched(old(disk), disk)
    {
      ghost var d, l, g := disk, last, log;
      Then(WriteTmp(p, s), d, l, g, []);
      Then(RenameTmp(Padded4(nextupdate)), d, l, g, [] + [WriteTmp(p, s)]);
      assert [] + [WriteTmp(p, s)] + [RenameTmp(Padded4(nextupdate))] == [WriteTmp(p, s), RenameTmp(Padded4(nextupdate))];
    }

    /** The writing half of `cleanupdates`, then `createimptmp`. */
    method Incorporate(names: seq<string>)
      requires forall i, j :: 0 <= i < j < |names| ==> names[i] != names[j]
      requires forall i :: 0 <= i < |names| ==> names[i] in disk.updates
      modifies this`disk, this`last, this`log, this`nextupdate
      ensures Did(old(disk), old(last), old(log), OpenOps(old(disk), core, names))
      ensures nextupdate == 0
      ensures if names == [] then Untouched(old(disk), disk) else Replaced(old(disk), disk, core)
    {
      ghost var d, l, g := disk, last, log;
      ghost var first := [];
      if names != [] {
        WriteDb(core);
        ghost var d1 := disk;
        UnlinkUpdates(names);
        StillReplaced(d, d1, disk, core);
        first := WriteDbOps(core) + UnlinkOps(names);
        Concat(d, l, g, WriteDbOps(core), UnlinkOps(names));
      }
      nextupdate := 0;
      Then(CreateTmp, d, l, g, first);
    }

    /** The reading half of `cleanupdates`: the status file, then the update files in name order. */
    method Load() returns (r: Result<Core>)
      ensures r == Recover(disk)
    {
      hide Replay, AllDigits;
      if disk.status.Torn? {
        return Err(Unparsable);
      }
      var base := if disk.status.Full? then disk.status.stanzas else map[];
      var listed := Scan(disk.updates);
      if listed.Err? {
        return Err(listed.error);
      }
      var names, dir := listed.value, disk.updates;
      hide Scan;
      var c, i := base, 0;
      ReplayNone(base, dir);
      while i < |names|
        invariant 0 <= i <= |names| && Complete(dir, names[..i]) && c == Replay(base, dir, names[..i])
      {
        if names[i] !in dir || dir[names[i]].Partial? {
          return Err(Unparsable);
        }
        ReplaySnoc(base, dir, names, i);
        c := c[dir[names[i]].pkg := dir[names[i]].stanza];
        i := i + 1;
      }
      assert names[..i] == names;
      return Ok(c);
    }

    /** `modstatdb_open` for reading, or to take the lock only. */
    method OpenReadOnly(mode: Access) returns (r: Result<()>)
      requires cstatus.Closed? && (mode.ReadOnly? || mode.LockOnly?)
      modifies this`cstatus, this`core
      ensures mode.LockOnly? ==> r.Ok? && core == old(core)
      ensures mode.ReadOnly? ==> r.Ok? == Recover(disk).Ok?
      ensures mode.ReadOnly? && r.Ok? ==> core == Recover(disk).value
      ensures cstatus == if r.Ok? then mode else Closed
    {
      cstatus := mode;
      if mode.LockOnly? {
        return Ok(());
      }
      var loaded := Load();
      if loaded.Err? {
        cstatus := Closed;
        return Err(loaded.error);
      }
      core := loaded.value;
      return Ok(());
    }

    /**
     `modstatdb_open` for writing.  A disk that cannot be read is an error that
     leaves everything alone; any disk a previous process may have left can be read,
     and is ready for writing afterwards.
     */
    method Open() returns (r: Result<()>)
      requires cstatus.Closed?
      modifies this
      ensures Sound(old(disk), old(last)) ==> r.Ok? && Valid()
      ensures r.Ok? == Recover(old(disk)).Ok?
      ensures r.Err? ==> Recover(old(disk)) == Err(r.error) && cstatus.Closed? && disk == old(disk) && log == old(log) && core == old(core)
      ensures r.Ok? ==>
        && cstatus.Write? && nextupdate == 0 && Recover(old(disk)) == Ok(core) && Scan(old(disk).updates).Ok?
        && Did(old(disk), old(last), old(log), OpenOps(old(disk), core, Scan(old(disk).updates).value))
        && (if Scan(old(disk).updates).value == [] then Untouched(old(disk), disk) else Replaced(old(disk), disk, core))
    {
      hide Recover, Scan, OpenOps, ApplyAll, RecordedAll, Ready, Sound;
      if Sound(disk, last) {
        ghost var names := OpenReady(disk, last);
      }
      var loaded := Load();
      if loaded.Err? {
        return Err(loaded.error);
      }
      core := loaded.value;
      ScanListed(disk);
      Incorporate(Scan(disk.updates).value);
      cstatus := Write;
      return Ok(());
    }

    /** `modstatdb_shutdown` of a writer. */
    method Shutdown()
      requires Valid() && cstatus.Write?
      modifies this
      ensures cstatus.Closed? && core == map[] && Replaced(old(disk), disk, old(core))
      ensures Did(old(disk), old(last), old(log), ShutdownOps(old(core), old(nextupdate)))
      ensures Sound(disk, last)
    {
      ghost var d, l, g, n, c := disk, last, log, nextupdate, core;
      ShutdownSafe(disk, core, nextupdate, last);
      Checkpoint();
      Then(UnlinkTmp, d, l, g, CheckpointOps(c, n));
      cstatus, core := Closed, map[];
    }
  }

  lemma NamesDistinct(lo: nat, hi: nat)
    requires lo <= hi <= 10000
    ensures forall i, j :: 0 <= i < j < hi - lo ==> Names(lo, hi)[i] != Names(lo, hi)[j]
  {
    NamesAscend(lo, hi);
    AscendingDistinct(Names(lo, hi));
  }

  lemma NoteReady(d: Disk, core: Core, next: nat, last: Core, p: string, s: Stanza)
    requires Ready(d, core, next, last)
    ensures IMPORTANTTMP in d.updates
    ensures Shape(ApplyAll(d, [WriteTmp(p, s), RenameTmp(Padded4(next))]).updates, 0, next + 1)
    ensures var ops := NoteOps(core[p := s], next, p);
      && RecordedAll(last, d, ops) == last[p := s]
      && Ready(ApplyAll(d, ops), core[p := s], NextAfterNote(next), last[p := s])
  {
    RecordSafe(d, core, next, last, p, s);
    NoteSafe(d, core, next, last, p, s);
  }

  /** What is listed is there, once each. */
  lemma ScanListed(d: Disk)
    requires Recover(d).Ok?
    ensures Scan(d.updates).Ok?
    ensures var names := Scan(d.updates).value;
      && (forall i, j :: 0 <= i < j < |names| ==> names[i] != names[j])
      && (forall i :: 0 <= i < |names| ==> names[i] in d.updates)
  {
    hide Replay;
    var names := Scan(d.updates).value;
    hide Scan;
    AscendingDistinct(names) by { ScanAscends(d.updates); }
  }

  lemma ScanAscends(dir: Dir)
    requires Scan(dir).Ok?
    ensures Ascending(Scan(dir).value)
  { }

  lemma OpenReady(d: Disk, last: Core) returns (names: seq<string>)
    requires Sound(d, last)
    ensures Recover(d).Ok? && Scan(d.updates) == Ok(names)
    ensures forall i, j :: 0 <= i < j < |names| ==> names[i] != names[j]
    ensures forall i :: 0 <= i < |names| ==> names[i] in d.updates
    ensures var ops := OpenOps(d, Recover(d).value, names);
      Ready(ApplyAll(d, ops), Recover(d).value, 0, RecordedAll(last, d, ops))
  {
    var lo: nat, hi: nat :| Holds(d, lo, hi, last);
    OpenSafe(d, lo, hi, last);
    NamesDistinct(lo, hi);
    names := Names(lo, hi);
  }

  lemma {:induction false} UnlinkOpsSnoc(names: seq<string>, n: string)
    ensures UnlinkOps(names + [n]) == UnlinkOps(names) + [UnlinkUpdate(n)]
    decreases |names|
  {
    if names == [] {
      assert [n][1..] == [];
    } else {
      assert (names + [n])[1..] == names[1..] + [n];
      UnlinkOpsSnoc(names[1..], n);
    }
  }

  lemma ReplayNone(c: Core, dir: Dir)
    ensures Complete(dir, []) && Replay(c, dir, []) == c
  { }

  lemma {:induction false} ReplaySnoc(c: Core, dir: Dir, names: seq<string>, i: nat)
    requires i < |names| && Complete(dir, names[..i]) && names[i] in dir && dir[names[i]].Entry?
    ensures Complete(dir, names[..i + 1])
    ensures Replay(c, dir, names[..i + 1]) == Replay(c, dir, names[..i])[dir[names[i]].pkg := dir[names[i]].stanza]
    decreases i
  {
    if i == 0 {
      assert names[..1][1..] == [] && names[..0] == [];
    } else {
      assert forall k :: 0 <= k < i ==> names[..i][k] == names[k];
      assert names[..i][1..] == names[1..][..i - 1] && names[..i + 1][1..] == names[1..][..i];
      CompleteTail(dir, names[..i]);
      ReplaySnoc(c[dir[names[0]].pkg := dir[names[0]].stanza], dir, names[1..], i - 1);
    }
  }

  lemma CompleteTail(dir: Dir, names: seq<string>)
    requires Complete(dir, names) && names != []
    ensures Complete(dir, names[1..])
  { }
}
