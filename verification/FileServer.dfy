/**
 Any number of helper processes running `write`, `read` and `download` on shared files, one
 system call per step, under the advisory locks of src/common/utility.c. The result is
 linearizability: files behave as if every write happened at once, in lock order, and every
 read or download sees the file between two such writes.
 */
module FileServer {
  import opened Bytes
  import opened Runs
  import opened FileSpec

  type Pid = nat
  type Path = seq<byte>

  const CHUNK_LIMIT := 16384

  datatype Command = Write | Read | Download

  /** A helper request: the header carries an offset and a data block for every command. */
  datatype Job = Job(cmd: Command, path: Path, offset: int, data: seq<byte>)

  /** Where a process stands: the next system call it makes. */
  datatype Stage =
    | Start        // open
    | Waiting      // fcntl(F_SETLKW)
    | Locked       // fstat
    | Positioning  // lseek
    | Padding      // write of one space
    | Writing      // write of the data
    | Reading      // the single read of a `read` command
    | Streaming    // the read loop of a `download`
    | Closing      // unlock and close
    | Done

  /** The part of a write command that has reached the file. */
  datatype Effect = Effect(offset: nat, data: seq<byte>)

  datatype Proc = Proc(
    job: Job,
    stage: Stage,
    size: nat,          // st_size as fstat saw it
    pos: nat,           // file position
    i: nat,             // padding loop counter
    effect: Effect,
    out: seq<byte>,     // bytes handed to the requester
    announced: nat,     // payload_len of a download response, a uint32_t
    ok: bool,           // response status 0
    complete: bool,     // the download loop met end of file
    seen: nat,          // history: committed writes of the file when the lock was granted
    found: bool,        // history: the file was there when it was opened
    failed: bool        // history: some call failed, or wrote less than asked for
  )

  datatype Lock = Lock(pid: Pid, path: Path, exclusive: bool)

  datatype Commit = Commit(pid: Pid, effect: Effect)

  datatype State = State(
    initial: map<Path, seq<byte>>,
    files: map<Path, seq<byte>>,
    locks: set<Lock>,
    procs: map<Pid, Proc>,
    log: map<Path, seq<Commit>>,   // history: writes in the order their locks were released
    order: map<Path, seq<Pid>>     // history: exclusive locks in the order they were granted
  )

  /** What the scheduler and the kernel decide: proceed, fail the call, or move `n` bytes. */
  datatype Choice = Go | Fail | Chunk(n: nat)

  function Lookup<T>(m: map<Path, seq<T>>, f: Path): seq<T> {
    if f in m then m[f] else []
  }

  function Content(s: State, f: Path): seq<byte> { Lookup(s.files, f) }

  function Log(s: State, f: Path): seq<Commit> { Lookup(s.log, f) }

  function NewProc(job: Job): Proc {
    Proc(job, Start, 0, 0, 0, Effect(0, []), [], 0, false, false, 0, false, false)
  }

  ghost predicate Init(s: State) {
    && s.files == s.initial
    && s.locks == {}
    && s.log == map[]
    && s.order == map[]
    && forall p :: p in s.procs ==> s.procs[p] == NewProc(s.procs[p].job)
  }

  /** POSIX record locks: shared locks exclude exclusive ones of other processes, and conversely. */
  ghost predicate Grantable(s: State, p: Pid, f: Path, exclusive: bool) {
    forall l :: l in s.locks && l.path == f && l.pid != p ==> !l.exclusive && !exclusive
  }

  /**
   One system call of a process: its own next record, and at most one shared effect. A file
   is created empty, its lock is granted, bytes are put into it, or its lock is released.
   */
  datatype Turn =
    | Blocked
    | Local(q: Proc)
    | Create(q: Proc)
    | Grant(q: Proc)
    | Put(q: Proc, pos: nat, bytes: seq<byte>)
    | Release(q: Proc)

  function To(q: Proc, stage: Stage): Turn {
    Local(q.(stage := stage))
  }

  function Failing(q: Proc, stage: Stage): Turn {
    Local(q.(stage := stage, failed := true))
  }

  /**
   The call made by `q`. It can see the file (`present`, `file`), whether its lock is free, and
   for the history variable the number of writes committed so far.
   */
  function TurnOf(q: Proc, file: seq<byte>, present: bool, free: bool, commits: nat, c: Choice): Turn {
    match q.stage
    case Start =>
      // a write creates a missing file, the others fail on it
      if c.Fail? then Failing(q, Done)
      else if !c.Go? then Blocked
      else if !q.job.cmd.Write? && !present then To(q, Done)
      else Create(q.(stage := Waiting, found := present))
    case Waiting =>
      if c.Fail? then Failing(q, Done)
      else if !c.Go? || !free then Blocked
      else Grant(q.(stage := Locked, seen := commits))
    case Locked =>
      if c.Fail? then Failing(q, Closing)
      else if !c.Go? then Blocked
      else StatTurn(q, |file|)
    case Positioning =>
      if c.Fail? then Failing(q, Closing)
      else if !c.Go? then Blocked
      else SeekTurn(q, |file|)
    case Padding =>
      if c.Fail? then Failing(q, Closing)
      else if !c.Go? then Blocked
      else if q.i < q.job.offset then
        Put(q.(pos := q.pos + 1, i := q.i + 1, effect := Effect(q.i + 1, [])), q.pos, [SPACE])
      else To(q, Writing)
    case Writing =>
      // fewer bytes than asked for is reported as an error
      if c.Fail? then Failing(q, Closing)
      else if c.Chunk? && c.n <= |q.job.data| then
        var part := q.job.data[..c.n];
        Put(q.(effect := Effect(q.pos, part), ok := c.n == |q.job.data|, stage := Closing,
               failed := q.failed || c.n < |q.job.data|), q.pos, part)
      else Blocked
    case Reading =>
      if c.Fail? then Failing(q, Closing)
      else if !c.Go? then Blocked
      else
        var from := Min(q.pos, |file|);
        Local(q.(out := file[from..Min(from + READ_LIMIT, |file|)], ok := true, stage := Closing))
    case Streaming => StreamTurn(q, file, c)
    case Closing => Release(q.(stage := Done))
    case Done => Blocked
  }

  /** After `fstat`: a read stops when its offset is past the end, a download announces the size. */
  function StatTurn(q: Proc, size: nat): Turn {
    match q.job.cmd
    case Write => Local(q.(size := size, stage := Positioning))
    case Read => Local(q.(size := size, stage := if q.job.offset > size then Closing else Positioning))
    case Download => Local(q.(size := size, announced := size % U32_LIMIT, ok := true, stage := Streaming))
  }

  /** `lseek`: to the end when padding is needed, else to the offset, which must not be negative. */
  function SeekTurn(q: Proc, end: nat): Turn {
    if q.job.cmd.Write? && q.job.offset > q.size then Local(q.(pos := end, i := q.size, stage := Padding))
    else if q.job.offset < 0 then To(q, Closing)
    else Local(q.(pos := q.job.offset, stage := if q.job.cmd.Write? then Writing else Reading))
  }

  /** One turn of the download loop: a chunk is read and sent, or end of file is met. */
  function StreamTurn(q: Proc, file: seq<byte>, c: Choice): Turn {
    match c
    case Fail => Failing(q, Closing)
    case Go => if q.pos < |file| then Blocked else Local(q.(complete := true, stage := Closing))
    case Chunk(n) =>
      if 1 <= n <= CHUNK_LIMIT && q.pos + n <= |file| then
        Local(q.(out := q.out + file[q.pos..q.pos + n], pos := q.pos + n))
      else Blocked
  }

  ghost function Turns(s: State, p: Pid, c: Choice): Turn
    requires p in s.procs
  {
    var q, f := s.procs[p], s.procs[p].job.path;
    TurnOf(q, Content(s, f), f in s.files, Grantable(s, p, f, q.job.cmd.Write?), |Log(s, f)|, c)
  }

  /** The system state after a turn of `p`. */
  ghost function Apply(s: State, p: Pid, t: Turn): State
    requires p in s.procs && !t.Blocked?
  {
    var f := t.q.job.path;
    var moved := s.(procs := s.procs[p := t.q]);
    match t
    case Local(_) => moved
    case Create(_) => moved.(files := if f in s.files then s.files else s.files[f := []])
    case Grant(_) =>
      moved.(
      locks := s.locks + {Lock(p, f, t.q.job.cmd.Write?)},
      order := if t.q.job.cmd.Write? then s.order[f := Lookup(s.order, f) + [p]] else s.order)
    case Put(_, pos, bytes) => moved.(files := s.files[f := KernelWrite(Content(s, f), pos, bytes)])
    case Release(q) =>
      // closing the descriptor drops the process's locks on the file
      moved.(
      locks := (set l | l in s.locks && !(l.pid == p && l.path == f)),
      log := if q.job.cmd.Write? then s.log[f := Log(s, f) + [Commit(p, q.effect)]] else s.log)
  }

  ghost predicate Step(s: State, p: Pid, c: Choice, s': State) {
    p in s.procs && !Turns(s, p, c).Blocked? && s' == Apply(s, p, Turns(s, p, c))
  }

  ghost predicate Next(s: State, s': State) {
    exists p, c :: Step(s, p, c, s')
  }

  ghost predicate Run(run: seq<State>) {
    IsRun(Init, Next, run)
  }

  // ---------------------------------------------------------------- the atomic reading

  /** The writes applied one after the other, each in one piece. */
  function Replay(file: seq<byte>, commits: seq<Commit>): seq<byte> {
    if commits == [] then file
    else
      var last := commits[|commits| - 1].effect;
      Written(Replay(file, commits[..|commits| - 1]), last.offset, last.data)
  }

  /** The file after its first `n` writes. */
  function Snapshot(s: State, f: Path, n: nat): seq<byte> {
    Replay(Lookup(s.initial, f), Log(s, f)[..Min(n, |Log(s, f)|)])
  }

  function Committed(s: State, f: Path): seq<byte> {
    Snapshot(s, f, |Log(s, f)|)
  }

  /** No lock asked for yet, or still waiting for it. */
  predicate Outside(q: Proc) {
    q.stage == Start || q.stage == Waiting
  }

  predicate Holding(q: Proc) {
    !Outside(q) && q.stage != Done
  }

  // ---------------------------------------------------------------- the invariant

  /** The lock table says exactly who is between lock and close, and exclusive means alone. */
  ghost predicate LocksOk(s: State) {
    && (forall l :: l in s.locks ==>
      && l.pid in s.procs
      && Holding(s.procs[l.pid])
      && l == Lock(l.pid, s.procs[l.pid].job.path, s.procs[l.pid].job.cmd.Write?))
    && (forall p :: p in s.procs && Holding(s.procs[p]) ==>
      Lock(p, s.procs[p].job.path, s.procs[p].job.cmd.Write?) in s.locks)
    && (forall l, m :: l in s.locks && m in s.locks && l.path == m.path && l.exclusive ==> l == m)
  }

  /**
   What a write command may leave behind, however it ends: nothing, some of the padding up to
   its offset, or its first bytes at its offset.
   */
  predicate PartOf(e: Effect, job: Job) {
    if e.data == [] then e.offset == 0 || e.offset <= job.offset
    else e.offset == job.offset && e.data <= job.data
  }

  /** A writer, seen alone: `base` is the committed file, `file` the present one. */
  predicate WriterLocal(q: Proc, base: seq<byte>, file: seq<byte>) {
    && (Holding(q) ==> file == Written(base, q.effect.offset, q.effect.data))
    && (Outside(q) || q.stage == Locked || q.stage == Positioning ==>
      q.effect == Effect(0, []) && !q.ok)
    && (q.stage == Positioning ==> q.size == |base|)
    && (q.stage == Padding ==>
      && !q.ok && q.i == q.pos && |base| <= q.i <= q.job.offset
      && file == Written(base, q.i, []))
    && (q.stage == Writing ==> !q.ok && q.pos == q.job.offset && file == Written(base, q.pos, []))
    && q.stage != Reading && q.stage != Streaming
    && PartOf(q.effect, q.job)
    && (q.ok ==> q.job.offset >= 0 && q.effect == Effect(q.job.offset, q.job.data))
    && WriterAnswers(q)
  }

  /** A writer none of whose calls failed succeeds exactly with an offset that is not negative. */
  predicate WriterAnswers(q: Proc) {
    && (q.stage == Start ==> !q.found)
    && (q.stage == Padding || q.stage == Writing ==> q.job.offset >= 0)
    && ((q.stage == Closing || q.stage == Done) && !q.failed ==> (q.ok <==> q.job.offset >= 0))
  }

  /**
   A reader that has come past opening has found its file. If none of its calls failed, it
   succeeds exactly if it found it, a read also only with an offset within the file.
   */
  predicate ReaderAnswers(q: Proc, snap: seq<byte>) {
    && (q.stage == Start ==> !q.found)
    && (q.stage != Start && q.stage != Done ==> q.found)
    && (q.ok ==> q.found)
    && (q.stage == Reading ==> 0 <= q.job.offset <= |snap|)
    && ((q.stage == Closing || q.stage == Done) && !q.failed && q.found ==>
        if q.job.cmd.Download? then q.ok && q.complete else (q.ok <==> 0 <= q.job.offset <= |snap|))
  }

  /** A reader, seen alone: what it has handed out is cut from `snap`. */
  predicate ReaderLocal(q: Proc, snap: seq<byte>) {
    && q.stage != Padding && q.stage != Writing
    && (Outside(q) || q.stage == Locked ==> !q.ok && !q.complete && q.out == [] && q.pos == 0)
    && (q.job.cmd.Read? ==>
      && (q.stage == Positioning ==> q.job.offset <= |snap|)
      && (q.stage == Reading ==> q.pos == q.job.offset <= |snap|)
      && q.stage != Streaming
      && (q.stage != Closing && q.stage != Done ==> !q.ok)
      && (q.ok ==> 0 <= q.job.offset <= |snap| && q.out == ReadBack(snap, q.job.offset)))
    && ReaderAnswers(q, snap)
    && (q.job.cmd.Download? ==>
      && q.stage != Reading && q.stage != Positioning
      && (q.stage == Streaming ==> q.ok && q.pos == |q.out|)
      && (q.ok ==> q.announced == |snap| % U32_LIMIT)
      && |q.out| <= |snap| && q.out == snap[..|q.out|]
      && (q.complete ==> q.ok && q.out == snap))
  }

  ghost predicate WriterOk(s: State, p: Pid, q: Proc) {
    var f := q.job.path;
    && WriterLocal(q, Committed(s, f), Content(s, f))
    && (Holding(q) ==> q.seen == |Log(s, f)| && Lookup(s.order, f) == Pids(Log(s, f)) + [p])
    && (q.stage == Done && q.ok ==> q.seen < |Log(s, f)| && Log(s, f)[q.seen] == Commit(p, q.effect))
  }

  ghost predicate ReaderOk(s: State, q: Proc) {
    var f := q.job.path;
    && q.seen <= |Log(s, f)|
    && (Holding(q) ==> q.seen == |Log(s, f)|)
    && ReaderLocal(q, Snapshot(s, f, q.seen))
  }

  ghost predicate ProcOk(s: State, p: Pid)
    requires p in s.procs
  {
    if s.procs[p].job.cmd.Write? then WriterOk(s, p, s.procs[p]) else ReaderOk(s, s.procs[p])
  }

  function Pids(commits: seq<Commit>): (r: seq<Pid>)
    ensures |r| == |commits|
  {
    seq(|commits|, k requires 0 <= k < |commits| => commits[k].pid)
  }

  /** Some process holds the file exclusively. */
  ghost predicate Exclusive(s: State, f: Path) {
    exists l :: l in s.locks && l.path == f && l.exclusive
  }

  /** A committed write is what one finished write command has left, and the only one of that command. */
  predicate EntryOk(s: State, f: Path, k: nat)
    requires k < |Log(s, f)|
  {
    var p := Log(s, f)[k].pid;
    && p in s.procs
    && s.procs[p].job.cmd.Write? && s.procs[p].job.path == f
    && s.procs[p].stage == Done && s.procs[p].seen == k
    && s.procs[p].effect == Log(s, f)[k].effect
  }

  ghost predicate FileOk(s: State, f: Path) {
    && (!Exclusive(s, f) ==> Content(s, f) == Committed(s, f) && Lookup(s.order, f) == Pids(Log(s, f)))
    && (forall k :: 0 <= k < |Log(s, f)| ==> EntryOk(s, f, k))
  }

  ghost predicate Inv(s: State) {
    && LocksOk(s)
    && (forall p :: p in s.procs ==> ProcOk(s, p))
    && (forall f :: FileOk(s, f))
  }
}
