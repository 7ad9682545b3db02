/** Every step of the file machine keeps its invariant; the theorems about whole runs follow. */
module FileServerProof {
  import opened Bytes
  import opened FileSpec
  import opened FileServer

  /** Process `p`, and nobody else, holds a lock on its file, an exclusive one if it writes. */
  ghost predicate OwnsFile(s: State, p: Pid)
    requires p in s.procs
  {
    s.procs[p].job.cmd.Write? && Holding(s.procs[p])
  }

  /** What a step of `p` leaves alone. */
  ghost predicate Framed(s: State, p: Pid, s': State)
    requires p in s.procs
  {
    var f := s.procs[p].job.path;
    && s'.initial == s.initial
    && s'.procs.Keys == s.procs.Keys
    && s'.procs[p].job == s.procs[p].job
    && (forall r :: r in s.procs && r != p ==> s'.procs[r] == s.procs[r])
    && (forall g :: g != f ==>
      Content(s', g) == Content(s, g) && Log(s', g) == Log(s, g) && Lookup(s'.order, g) == Lookup(s.order, g))
    && (Content(s', f) == Content(s, f) || OwnsFile(s, p))
    && (Log(s', f) == Log(s, f) || (OwnsFile(s, p) && Log(s', f) == Log(s, f) + [Commit(p, s.procs[p].effect)]))
    && (Lookup(s'.order, f) == Lookup(s.order, f) || (s.procs[p].stage == Waiting && Grantable(s, p, f, true)))
  }

  /** Which shared effect a system call has, by the stage it is made in. */
  ghost predicate TurnFits(q: Proc, t: Turn) {
    && !t.Blocked? && q.stage != Done
    && t.q.job == q.job
    && (t.Local? ==> Holding(t.q) == Holding(q))
    && (t.Create? ==> q.stage == Start && t.q.stage == Waiting)
    && (t.Grant? ==> q.stage == Waiting && Holding(t.q))
    && (t.Put? ==> (q.stage == Padding || q.stage == Writing) && Holding(t.q))
    && (t.Release? ==> q.stage == Closing && t.q == q.(stage := Done))
    && (!t.Grant? ==> t.q.seen == q.seen)
    && (Outside(t.q) ==> Outside(q))
    && (Outside(q) && t.Local? ==> t.q == q.(stage := Done, failed := t.q.failed))
    && (Outside(q) && t.Local? && q.stage != Start ==> t.q.failed)
  }

  lemma TurnOfKinds(q: Proc, file: seq<byte>, present: bool, free: bool, commits: nat, c: Choice)
    requires !TurnOf(q, file, present, free, commits, c).Blocked?
    ensures var t := TurnOf(q, file, present, free, commits, c);
            TurnFits(q, t) && (t.Grant? ==> free && t.q.seen == commits)
  {
    hide TurnOf, TurnFits;
    if q.stage == Start || q.stage == Waiting {
      EarlyTurnKinds(q, file, present, free, commits, c);
    } else if q.stage == Locked || q.stage == Positioning {
      LookTurnKinds(q, file, present, free, commits, c);
    } else {
      DataTurnKinds(q, file, present, free, commits, c);
    }
  }

  lemma EarlyTurnKinds(q: Proc, file: seq<byte>, present: bool, free: bool, commits: nat, c: Choice)
    requires !TurnOf(q, file, present, free, commits, c).Blocked? && (q.stage == Start || q.stage == Waiting)
    ensures var t := TurnOf(q, file, present, free, commits, c);
            TurnFits(q, t) && (t.Grant? ==> free && t.q.seen == commits)
  {
    hide StatTurn, SeekTurn, StreamTurn;
  }

  lemma LookTurnKinds(q: Proc, file: seq<byte>, present: bool, free: bool, commits: nat, c: Choice)
    requires !TurnOf(q, file, present, free, commits, c).Blocked? && (q.stage == Locked || q.stage == Positioning)
    ensures var t := TurnOf(q, file, present, free, commits, c); TurnFits(q, t) && !t.Grant?
  {
    hide StreamTurn;
  }

  lemma DataTurnKinds(q: Proc, file: seq<byte>, present: bool, free: bool, commits: nat, c: Choice)
    requires !TurnOf(q, file, present, free, commits, c).Blocked?
    requires q.stage != Start && q.stage != Waiting && q.stage != Locked && q.stage != Positioning
    ensures var t := TurnOf(q, file, present, free, commits, c); TurnFits(q, t) && !t.Grant?
  {
    hide StatTurn, SeekTurn;
  }

  lemma TurnKinds(s: State, p: Pid, c: Choice)
    requires p in s.procs && !Turns(s, p, c).Blocked?
    ensures TurnFits(s.procs[p], Turns(s, p, c))
    ensures Turns(s, p, c).Grant? ==>
      && Grantable(s, p, s.procs[p].job.path, s.procs[p].job.cmd.Write?)
      && Turns(s, p, c).q.seen == |Log(s, s.procs[p].job.path)|
  {
    var q, f := s.procs[p], s.procs[p].job.path;
    hide TurnFits, TurnOf, Grantable;
    TurnOfKinds(q, Content(s, f), f in s.files, Grantable(s, p, f, q.job.cmd.Write?), |Log(s, f)|, c);
  }

  lemma ApplyFrame(s: State, p: Pid, t: Turn)
    requires p in s.procs && TurnFits(s.procs[p], t)
    requires t.Put? ==> s.procs[p].job.cmd.Write?
    requires t.Grant? ==> Grantable(s, p, s.procs[p].job.path, s.procs[p].job.cmd.Write?)
    ensures Framed(s, p, Apply(s, p, t))
  {
  }

  lemma ApplyKeepsLocks(s: State, p: Pid, t: Turn)
    requires p in s.procs && TurnFits(s.procs[p], t) && LocksOk(s)
    requires t.Grant? ==> Grantable(s, p, s.procs[p].job.path, s.procs[p].job.cmd.Write?)
    ensures LocksOk(Apply(s, p, t))
  {
    hide Apply, LocksOk, Grantable;
    if t.Grant? {
      GrantKeepsLocks(s, p, t);
    } else if t.Release? {
      ReleaseKeepsLocks(s, p, t);
    } else {
      OthersKeepLocks(s, p, t);
    }
  }

  lemma OthersKeepLocks(s: State, p: Pid, t: Turn)
    requires p in s.procs && TurnFits(s.procs[p], t) && LocksOk(s) && !t.Grant? && !t.Release?
    ensures LocksOk(Apply(s, p, t))
  {
    var s' := Apply(s, p, t);
    assert Holding(t.q) == Holding(s.procs[p]) && t.q.job == s.procs[p].job;
    hide TurnFits, Holding;
    assert s'.locks == s.locks && s'.procs == s.procs[p := t.q];
    hide Apply;
    SameHolders(s, p, t.q, s');
  }

  lemma SameHolders(s: State, p: Pid, q: Proc, s': State)
    requires p in s.procs && LocksOk(s) && s'.locks == s.locks && s'.procs == s.procs[p := q]
    requires Holding(q) == Holding(s.procs[p]) && q.job == s.procs[p].job
    ensures LocksOk(s')
  {
    hide Holding;
  }

  lemma GrantKeepsLocks(s: State, p: Pid, t: Turn)
    requires p in s.procs && TurnFits(s.procs[p], t) && LocksOk(s) && t.Grant?
    requires Grantable(s, p, s.procs[p].job.path, s.procs[p].job.cmd.Write?)
    ensures LocksOk(Apply(s, p, t))
  {
    var mine := Lock(p, t.q.job.path, t.q.job.cmd.Write?);
    assert Apply(s, p, t).locks == s.locks + {mine};
    assert forall l :: l in s.locks ==> l.pid != p;
    hide Lookup;
  }

  lemma ReleaseKeepsLocks(s: State, p: Pid, t: Turn)
    requires p in s.procs && TurnFits(s.procs[p], t) && LocksOk(s) && t.Release?
    ensures LocksOk(Apply(s, p, t))
  {
    assert forall l :: l in Apply(s, p, t).locks <==> l in s.locks && l.pid != p;
    hide Lookup;
  }

  lemma StepFrame(s: State, p: Pid, c: Choice, s': State)
    requires Step(s, p, c, s') && Inv(s)
    ensures Framed(s, p, s') && LocksOk(s')
  {
    TurnKinds(s, p, c);
    assert ProcOk(s, p);
    ApplyFrame(s, p, Turns(s, p, c));
    ApplyKeepsLocks(s, p, Turns(s, p, c));
  }

  /** An exclusive owner of a file excludes every other holder of it. */
  lemma OwnerIsAlone(s: State, p: Pid, r: Pid)
    requires LocksOk(s) && p in s.procs && r in s.procs && p != r
    requires OwnsFile(s, p) && Holding(s.procs[r])
    ensures s.procs[r].job.path != s.procs[p].job.path
  {
    var l := Lock(p, s.procs[p].job.path, true);
    var m := Lock(r, s.procs[r].job.path, s.procs[r].job.cmd.Write?);
    assert l in s.locks && m in s.locks;
  }

  lemma LaterLog(s: State, s': State, f: Path, n: nat)
    requires s'.initial == s.initial && n <= |Log(s, f)| <= |Log(s', f)|
    requires Log(s', f)[..|Log(s, f)|] == Log(s, f)
    ensures Snapshot(s', f, n) == Snapshot(s, f, n)
  {
    assert Log(s', f)[..n] == Log(s', f)[..|Log(s, f)|][..n] == Log(s, f)[..n];
  }

  /** While another process holds a lock, a step of `p` changes nothing about its file. */
  lemma HeldFileUntouched(s: State, p: Pid, s': State, r: Pid)
    requires p in s.procs && Framed(s, p, s') && LocksOk(s)
    requires r in s.procs && r != p && Holding(s.procs[r])
    ensures var f := s.procs[r].job.path;
            && Content(s', f) == Content(s, f) && Log(s', f) == Log(s, f)
            && Lookup(s'.order, f) == Lookup(s.order, f)
  {
    if OwnsFile(s, p) {
      OwnerIsAlone(s, p, r);
    }
    assert Lock(r, s.procs[r].job.path, s.procs[r].job.cmd.Write?) in s.locks;
  }

  /** A step of `p` is invisible to another process: locks keep their files apart. */
  lemma OthersFramed(s: State, p: Pid, s': State, r: Pid)
    requires p in s.procs && Framed(s, p, s') && LocksOk(s)
    requires r in s.procs && r != p && ProcOk(s, r)
    ensures r in s'.procs && ProcOk(s', r)
  {
    var q, f := s.procs[r], s.procs[r].job.path;
    if Holding(q) {
      HeldFileUntouched(s, p, s', r);
    }
    assert Log(s', f)[..|Log(s, f)|] == Log(s, f);
    hide LocksOk, WriterOk, ReaderOk;
    if q.job.cmd.Write? {
      OtherWriter(s, p, s', r);
    } else {
      OtherReader(s, s', q);
    }
  }

  lemma OtherWriter(s: State, p: Pid, s': State, r: Pid)
    requires p in s.procs && Framed(s, p, s') && r in s.procs && r != p && WriterOk(s, r, s.procs[r])
    requires var f := s.procs[r].job.path;
             && |Log(s, f)| <= |Log(s', f)| && Log(s', f)[..|Log(s, f)|] == Log(s, f)
             && (Holding(s.procs[r]) ==>
                 && Content(s', f) == Content(s, f) && Log(s', f) == Log(s, f)
                 && Lookup(s'.order, f) == Lookup(s.order, f))
    ensures WriterOk(s', r, s.procs[r])
  {
    var q, f := s.procs[r], s.procs[r].job.path;
    var base, base' := Committed(s, f), Committed(s', f);
    if Holding(q) {
      LaterLog(s, s', f, |Log(s, f)|);
      assert base' == base;
    } else {
      IdleWriter(q, base, Content(s, f), base', Content(s', f));
    }
    hide WriterLocal, Committed, Framed;
  }

  lemma OtherReader(s: State, s': State, q: Proc)
    requires ReaderOk(s, q) && s'.initial == s.initial
    requires var f := q.job.path;
             && |Log(s, f)| <= |Log(s', f)| && Log(s', f)[..|Log(s, f)|] == Log(s, f)
             && (Holding(q) ==> Log(s', f) == Log(s, f))
    ensures ReaderOk(s', q)
  {
    LaterLog(s, s', q.job.path, q.seen);
    hide ReaderLocal, Snapshot;
  }

  lemma IdleWriter(q: Proc, base: seq<byte>, file: seq<byte>, base': seq<byte>, file': seq<byte>)
    requires WriterLocal(q, base, file) && !Holding(q)
    ensures WriterLocal(q, base', file')
  {
  }

  // ------------------------------------------------------------ the process that moves

  /** A reader's own calls, given that the file is its snapshot while it holds the lock. */
  lemma ReaderTurn(q: Proc, file: seq<byte>, present: bool, free: bool, commits: nat, c: Choice)
    requires !q.job.cmd.Write? && ReaderLocal(q, file)
    requires !TurnOf(q, file, present, free, commits, c).Blocked?
    ensures ReaderLocal(TurnOf(q, file, present, free, commits, c).q, file)
    ensures !TurnOf(q, file, present, free, commits, c).Put?
  {
    if q.stage == Streaming {
      hide StatTurn, SeekTurn;
    } else if q.stage == Locked || q.stage == Positioning {
      hide StreamTurn;
    } else {
      hide StatTurn, SeekTurn, StreamTurn;
    }
  }

  /** The file after a turn, as far as the moving writer is concerned. */
  function FileAfter(file: seq<byte>, t: Turn): seq<byte> {
    if t.Put? then KernelWrite(file, t.pos, t.bytes) else file
  }

  /** A writer before its offset is looked at, and after its last write: the file stays. */
  lemma WriterOutsideTurn(q: Proc, base: seq<byte>, file: seq<byte>, present: bool, free: bool, commits: nat, c: Choice)
    requires q.job.cmd.Write? && WriterLocal(q, base, file)
    requires q.stage != Positioning && q.stage != Padding && q.stage != Writing
    requires q.stage == Waiting && free ==> file == base
    requires !TurnOf(q, file, present, free, commits, c).Blocked?
    ensures var t := TurnOf(q, file, present, free, commits, c);
            !t.Put? && WriterLocal(t.q, base, file)
  {
    WrittenNothing(base, 0);
    hide Written, SeekTurn, StreamTurn;
  }

  lemma WriterSeekTurn(q: Proc, base: seq<byte>, file: seq<byte>, present: bool, free: bool, commits: nat, c: Choice)
    requires q.job.cmd.Write? && WriterLocal(q, base, file) && q.stage == Positioning
    requires !TurnOf(q, file, present, free, commits, c).Blocked?
    ensures var t := TurnOf(q, file, present, free, commits, c);
            !t.Put? && WriterLocal(t.q, base, file)
  {
    WrittenNothing(base, 0);
    WrittenNothing(base, |base|);
    if 0 <= q.job.offset <= |base| {
      WrittenNothing(base, q.job.offset);
    }
    hide Written, StatTurn, StreamTurn;
  }

  lemma WriterPadTurn(q: Proc, base: seq<byte>, file: seq<byte>, present: bool, free: bool, commits: nat, c: Choice)
    requires q.job.cmd.Write? && WriterLocal(q, base, file) && q.stage == Padding
    requires !TurnOf(q, file, present, free, commits, c).Blocked?
    ensures var t := TurnOf(q, file, present, free, commits, c);
            WriterLocal(t.q, base, FileAfter(file, t))
  {
    PadOneMore(base, q.i);
    hide Written, KernelWrite, StatTurn, SeekTurn, StreamTurn;
    var t := TurnOf(q, file, present, free, commits, c);
    assert FileAfter(file, t) == if t.Put? then KernelWrite(file, q.i, [SPACE]) else file;
    assert q.i == q.job.offset || q.i < q.job.offset;
  }

  lemma WriterDataTurn(q: Proc, base: seq<byte>, file: seq<byte>, present: bool, free: bool, commits: nat, c: Choice)
    requires q.job.cmd.Write? && WriterLocal(q, base, file) && q.stage == Writing
    requires !TurnOf(q, file, present, free, commits, c).Blocked?
    ensures var t := TurnOf(q, file, present, free, commits, c);
            WriterLocal(t.q, base, FileAfter(file, t))
  {
    var t := TurnOf(q, file, present, free, commits, c);
    if t.Put? {
      DataAfterPadding(base, q.pos, t.bytes);
      assert q.job.data[..|q.job.data|] == q.job.data;
    }
    hide Written, KernelWrite, StatTurn, SeekTurn, StreamTurn;
  }

  /** A writer's own calls: every space and the data land where the atomic write puts them. */
  lemma WriterTurn(q: Proc, base: seq<byte>, file: seq<byte>, present: bool, free: bool, commits: nat, c: Choice)
    requires q.job.cmd.Write? && WriterLocal(q, base, file)
    requires q.stage == Waiting && free ==> file == base
    requires !TurnOf(q, file, present, free, commits, c).Blocked?
    ensures var t := TurnOf(q, file, present, free, commits, c);
            WriterLocal(t.q, base, FileAfter(file, t))
  {
    hide WriterLocal, TurnOf;
    match q.stage
    case Positioning => WriterSeekTurn(q, base, file, present, free, commits, c);
    case Padding => WriterPadTurn(q, base, file, present, free, commits, c);
    case Writing => WriterDataTurn(q, base, file, present, free, commits, c);
    case _ => WriterOutsideTurn(q, base, file, present, free, commits, c);
  }

  lemma ReaderSeesCommitted(s: State, p: Pid)
    requires p in s.procs && Inv(s) && !s.procs[p].job.cmd.Write?
    requires Holding(s.procs[p]) || Grantable(s, p, s.procs[p].job.path, false)
    requires !Holding(s.procs[p]) ==> Outside(s.procs[p])
    ensures Content(s, s.procs[p].job.path) == Committed(s, s.procs[p].job.path)
  {
    var f := s.procs[p].job.path;
    assert FileOk(s, f);
    if Holding(s.procs[p]) {
      assert Lock(p, f, false) in s.locks;
    }
  }

  /** The global half of a writer's turn. */
  lemma WriterApplied(s: State, p: Pid, t: Turn, s': State)
    requires p in s.procs && WriterOk(s, p, s.procs[p]) && s.procs[p].job.cmd.Write?
    requires TurnFits(s.procs[p], t) && s' == Apply(s, p, t)
    requires var f := t.q.job.path; WriterLocal(t.q, Committed(s, f), FileAfter(Content(s, f), t))
    requires t.Grant? ==>
      t.q.seen == |Log(s, t.q.job.path)| && Lookup(s.order, t.q.job.path) == Pids(Log(s, t.q.job.path))
    ensures WriterOk(s', p, t.q)
  {
    var f := t.q.job.path;
    if t.Release? {
      assert Log(s', f) == Log(s, f) + [Commit(p, t.q.effect)];
      IdleWriter(t.q, Committed(s, f), Content(s, f), Committed(s', f), Content(s', f));
    } else {
      assert Log(s', f) == Log(s, f);
      LaterLog(s, s', f, |Log(s, f)|);
      assert Content(s', f) == FileAfter(Content(s, f), t);
    }
  }

  /** The global half of a reader's turn. */
  lemma ReaderApplied(s: State, p: Pid, t: Turn, s': State)
    requires p in s.procs && ReaderOk(s, s.procs[p]) && !s.procs[p].job.cmd.Write?
    requires TurnFits(s.procs[p], t) && s' == Apply(s, p, t)
    requires t.Grant? ==> t.q.seen == |Log(s, t.q.job.path)|
    requires ReaderLocal(t.q, Snapshot(s, t.q.job.path, t.q.seen))
    ensures ReaderOk(s', t.q)
  {
    var f := t.q.job.path;
    assert Log(s', f) == Log(s, f);
    LaterLog(s, s', f, t.q.seen);
  }

  lemma WriterStep(s: State, p: Pid, c: Choice, s': State)
    requires Step(s, p, c, s') && Inv(s) && s.procs[p].job.cmd.Write?
    ensures WriterOk(s', p, Turns(s, p, c).q)
  {
    TurnKinds(s, p, c);
    var q, f := s.procs[p], s.procs[p].job.path;
    assert ProcOk(s, p) && FileOk(s, f);
    var free := Grantable(s, p, f, true);
    if q.stage == Waiting && free {
      FreeFile(s, p, f);
    }
    WriterTurn(q, Committed(s, f), Content(s, f), f in s.files, free, |Log(s, f)|, c);
    WriterApplied(s, p, Turns(s, p, c), s');
  }

  lemma ReaderStep(s: State, p: Pid, c: Choice, s': State)
    requires Step(s, p, c, s') && Inv(s) && !s.procs[p].job.cmd.Write?
    ensures ReaderOk(s', Turns(s, p, c).q)
  {
    hide TurnOf, ReaderLocal;
    TurnKinds(s, p, c);
    var q, f, t := s.procs[p], s.procs[p].job.path, Turns(s, p, c);
    assert ProcOk(s, p);
    var free := Grantable(s, p, f, false);
    if Holding(q) || t.Grant? {
      ReaderSeesCommitted(s, p);
      assert Content(s, f) == Snapshot(s, f, |Log(s, f)|);
      hide Inv, Content, Grantable, Snapshot, Committed;
      HoldingReaderTurn(s, p, c);
    } else {
      OutsideReaderTurn(s, p, c);
      hide Inv, Content, Grantable, Snapshot, Committed;
    }
    ReaderApplied(s, p, t, s');
  }

  lemma HoldingReaderTurn(s: State, p: Pid, c: Choice)
    requires p in s.procs && !s.procs[p].job.cmd.Write? && ReaderOk(s, s.procs[p]) && !Turns(s, p, c).Blocked?
    requires Holding(s.procs[p]) || Turns(s, p, c).Grant?
    requires Content(s, s.procs[p].job.path) == Snapshot(s, s.procs[p].job.path, |Log(s, s.procs[p].job.path)|)
    ensures ReaderLocal(Turns(s, p, c).q, Snapshot(s, Turns(s, p, c).q.job.path, Turns(s, p, c).q.seen))
  {
    var q, f := s.procs[p], s.procs[p].job.path;
    hide TurnOf, Snapshot, Content, Grantable;
    TurnKinds(s, p, c);
    var file := Content(s, f);
    if Holding(q) {
      assert ReaderLocal(q, file);
    } else {
      WaitingReader(q, Snapshot(s, f, q.seen), file);
    }
    hide ReaderLocal;
    ReaderTurn(q, file, f in s.files, Grantable(s, p, f, false), |Log(s, f)|, c);
  }

  /** A reader without its lock has seen nothing yet. */
  lemma WaitingReader(q: Proc, snap: seq<byte>, file: seq<byte>)
    requires !q.job.cmd.Write? && Outside(q) && ReaderLocal(q, snap)
    ensures ReaderLocal(q, file)
  {
  }

  lemma OutsideReaderTurn(s: State, p: Pid, c: Choice)
    requires p in s.procs && !s.procs[p].job.cmd.Write? && ReaderOk(s, s.procs[p]) && !Turns(s, p, c).Blocked?
    requires !Holding(s.procs[p]) && !Turns(s, p, c).Grant?
    ensures ReaderLocal(Turns(s, p, c).q, Snapshot(s, Turns(s, p, c).q.job.path, Turns(s, p, c).q.seen))
  {
    var q, f := s.procs[p], s.procs[p].job.path;
    hide TurnOf, Snapshot, Content, Grantable, ReaderLocal;
    TurnKinds(s, p, c);
    ReaderTurn(q, Snapshot(s, f, q.seen), f in s.files, Grantable(s, p, f, false), |Log(s, f)|, c);
    SameOutside(q, Snapshot(s, f, q.seen), Content(s, f), f in s.files, Grantable(s, p, f, false), |Log(s, f)|, c);
  }

  /** What an open or a wait does, does not depend on what is in the file. */
  lemma SameOutside(q: Proc, file: seq<byte>, other: seq<byte>, present: bool, free: bool, commits: nat, c: Choice)
    requires Outside(q)
    ensures TurnOf(q, file, present, free, commits, c) == TurnOf(q, other, present, free, commits, c)
  {
  }

  /** Whoever may take the exclusive lock finds nobody else on the file. */
  lemma FreeFile(s: State, p: Pid, f: Path)
    requires Inv(s) && p in s.procs && !Holding(s.procs[p]) && Grantable(s, p, f, true)
    ensures Content(s, f) == Committed(s, f) && Lookup(s.order, f) == Pids(Log(s, f))
  {
    assert FileOk(s, f);
  }

  /** Closing a writer commits exactly what the file then holds. */
  lemma ReleaseCommits(s: State, p: Pid, t: Turn, s': State)
    requires p in s.procs && TurnFits(s.procs[p], t) && s' == Apply(s, p, t)
    requires t.Release? && s.procs[p].job.cmd.Write? && WriterOk(s, p, s.procs[p])
    ensures var f := s.procs[p].job.path;
            && Log(s', f) == Log(s, f) + [Commit(p, s.procs[p].effect)]
            && Content(s', f) == Committed(s', f)
            && Lookup(s'.order, f) == Pids(Log(s', f))
  {
    var q, f := s.procs[p], s.procs[p].job.path;
    assert Log(s', f) == Log(s, f) + [Commit(p, q.effect)];
    assert Log(s', f)[..|Log(s', f)| - 1] == Log(s, f) == Log(s, f)[..|Log(s, f)|];
    assert Log(s', f)[..|Log(s', f)|] == Log(s', f);
    assert Committed(s', f) == Written(Committed(s, f), q.effect.offset, q.effect.data);
    assert Pids(Log(s', f)) == Pids(Log(s, f)) + [p];
  }

  lemma StaysExclusive(s: State, p: Pid, t: Turn, s': State, f: Path)
    requires p in s.procs && TurnFits(s.procs[p], t) && s' == Apply(s, p, t)
    requires LocksOk(s) && Exclusive(s, f)
    requires !(t.Release? && s.procs[p].job.cmd.Write? && f == s.procs[p].job.path)
    ensures Exclusive(s', f)
  {
    var l :| l in s.locks && l.path == f && l.exclusive;
    assert l in s'.locks;
  }

  /** Any other step leaves the committed file alone, and the present one when nobody writes it. */
  lemma NoCommit(s: State, p: Pid, t: Turn, s': State, f: Path)
    requires p in s.procs && TurnFits(s.procs[p], t) && s' == Apply(s, p, t)
    requires LocksOk(s') && Framed(s, p, s') && FileOk(s, f)
    requires !Exclusive(s, f) && !Exclusive(s', f)
    requires Log(s', f) == Log(s, f)
    ensures Content(s', f) == Committed(s', f) && Lookup(s'.order, f) == Pids(Log(s', f))
  {
    var q := s.procs[p];
    LaterLog(s, s', f, |Log(s, f)|);
    if f == q.job.path && q.job.cmd.Write? {
      assert Lock(p, f, true) !in s'.locks;
      assert !Holding(t.q);
    }
  }

  lemma LogEntries(s: State, p: Pid, t: Turn, s': State, f: Path, k: nat)
    requires p in s.procs && TurnFits(s.procs[p], t) && s' == Apply(s, p, t) && Framed(s, p, s')
    requires FileOk(s, f) && ProcOk(s, p) && k < |Log(s', f)|
    ensures EntryOk(s', f, k)
  {
    if k < |Log(s, f)| {
      assert Log(s', f)[k] == Log(s, f)[k];
      assert EntryOk(s, f, k);
    } else {
      assert t.Release? && Log(s', f)[k].pid == p;
    }
  }

  lemma FilesApplied(s: State, p: Pid, t: Turn, s': State, f: Path)
    requires p in s.procs && TurnFits(s.procs[p], t) && s' == Apply(s, p, t)
    requires LocksOk(s) && LocksOk(s') && Framed(s, p, s')
    requires FileOk(s, f) && ProcOk(s, p)
    ensures FileOk(s', f)
  {
    forall k | 0 <= k < |Log(s', f)|
      ensures EntryOk(s', f, k)
    {
      LogEntries(s, p, t, s', f, k);
    }
    if t.Release? && s.procs[p].job.cmd.Write? && f == s.procs[p].job.path {
      ReleaseCommits(s, p, t, s');
    } else if Exclusive(s, f) {
      StaysExclusive(s, p, t, s', f);
    } else if !Exclusive(s', f) {
      assert Log(s', f) == Log(s, f);
      NoCommit(s, p, t, s', f);
    }
  }

  lemma StepKeepsInv(s: State, p: Pid, c: Choice, s': State)
    requires Step(s, p, c, s') && Inv(s)
    ensures Inv(s')
  {
    StepFrame(s, p, c, s');
    hide LocksOk, ProcOk, FileOk, Framed;
    forall r | r in s'.procs ensures ProcOk(s', r) {
      StepKeepsProc(s, p, c, s', r);
    }
    forall f ensures FileOk(s', f) {
      StepKeepsFile(s, p, c, s', f);
    }
  }

  lemma StepKeepsProc(s: State, p: Pid, c: Choice, s': State, r: Pid)
    requires Step(s, p, c, s') && Inv(s) && Framed(s, p, s') && r in s'.procs
    ensures ProcOk(s', r)
  {
    assert LocksOk(s) && r in s.procs && ProcOk(s, r);
    if r != p {
      hide Step, Inv, LocksOk;
      OthersFramed(s, p, s', r);
    } else {
      assert s'.procs[p] == Turns(s, p, c).q && s'.procs[p].job == s.procs[p].job;
      hide Turns, Inv, Apply, LocksOk, WriterOk, ReaderOk;
      if s.procs[p].job.cmd.Write? {
        WriterStep(s, p, c, s');
      } else {
        ReaderStep(s, p, c, s');
      }
    }
  }

  lemma StepKeepsFile(s: State, p: Pid, c: Choice, s': State, f: Path)
    requires Step(s, p, c, s') && Inv(s) && Framed(s, p, s') && LocksOk(s')
    ensures FileOk(s', f)
  {
    TurnKinds(s, p, c);
    assert FileOk(s, f) && ProcOk(s, p);
    assert LocksOk(s);
    hide Turns, Inv, TurnFits, FileOk, ProcOk, LocksOk, Framed, Apply;
    FilesApplied(s, p, Turns(s, p, c), s', f);
  }
}
