/**
 The file handlers of src/server/helper/helper.c, call by call, each run by one helper
 process. Every return path is shown to leave the process without a file lock, to have asked
 for no locks but those of the handler's plan, and to have written file data only under an
 exclusive lock (the precondition of `SysWrite`).
 */
module FileHandlers {
  import opened Bytes
  import opened FileSpec
  import opened LockPlans
  import opened Streams

  const SLASH: byte := 47

  const TRANSFER_CHUNK := 8192
  const STREAM_CHUNK := 16384

  datatype Response = Response(status: int, payload: seq<byte>)

  const FAILED := Response(-1, [])

  /** What follows the last slash, or all of it: `strrchr` in `HandleHelperMove`. */
  function BaseName(path: Path): (base: Path)
    ensures SLASH !in base
    ensures |base| <= |path| && path[|path| - |base|..] == base
    ensures |base| < |path| ==> path[|path| - |base| - 1] == SLASH
  {
    if path == [] || path[|path| - 1] == SLASH then []
    else BaseName(path[..|path| - 1]) + [path[|path| - 1]]
  }

  /** Where `HandleHelperMove` puts a file: the directory, a slash, and what in the path no slash follows. */
  function MoveTarget(path: Path, directory: Path): (target: Path)
    ensures |target| > |directory| && target[..|directory|] == directory && target[|directory|] == SLASH
    ensures var base := target[|directory| + 1..];
            && SLASH !in base && |base| <= |path| && path[|path| - |base|..] == base
            && (|base| < |path| ==> path[|path| - |base| - 1] == SLASH)
  {
    var target := directory + [SLASH] + BaseName(path);
    assert target[|directory| + 1..] == BaseName(path);
    target
  }

  class HelperProcess {
    // regular files by name; a name is one file
    var files: map<Path, seq<byte>>
    // names that exist and are not regular files, and those of them that are directories
    var irregular: set<Path>
    var directories: set<Path>
    // the fcntl locks this process holds
    var held: set<Ask>
    // history: the locks it has asked for
    ghost var asked: seq<Ask>
    // no system call fails for a reason outside the arguments
    const reliable: bool

    constructor (files: map<Path, seq<byte>>, irregular: set<Path>, directories: set<Path>, reliable: bool)
      ensures this.files == files && this.irregular == irregular && this.directories == directories
      ensures held == {} && asked == [] && this.reliable == reliable
    {
      this.files, this.irregular, this.directories, this.reliable := files, irregular, directories, reliable;
      this.held, this.asked := {}, [];
    }

    function Contents(path: Path): seq<byte>
      reads this
    {
      if path in files then files[path] else []
    }

    predicate Regular(path: Path)
      reads this
    {
      path in files && path !in irregular
    }

    predicate IsDirectory(path: Path)
      reads this
    {
      path in irregular && path in directories
    }

    // ------------------------------------------------------------ system calls

    method SysOpen(path: Path, create: bool, truncate: bool) returns (ok: bool)
      modifies `files
      ensures !ok ==> files == old(files) && (reliable ==> path in irregular || (path !in old(files) && !create))
      ensures ok && path in irregular ==> files == old(files)
      ensures ok && create ==> !IsDirectory(path)
      ensures ok && path !in irregular ==>
        && (path in old(files) || create)
        && files == if truncate || path !in old(files) then old(files)[path := []] else old(files)
    {
      var fails: bool := *;
      // a directory cannot be opened for writing, a device can
      if (create && IsDirectory(path)) || (fails && (!reliable || path in irregular)) {
        return false;
      }
      ok := path in files || path in irregular || create;
      if ok && path !in irregular && (truncate || path !in files) {
        files := files[path := []];
      }
    }

    /** `fcntl(fd, F_SETLKW, ...)` asked for while holding nothing. */
    method Lock(path: Path, exclusive: bool) returns (ok: bool)
      requires held == {}
      modifies `held, `asked
      ensures asked == old(asked) + [Ask(path, exclusive)]
      ensures held == if ok then {Ask(path, exclusive)} else {}
      ensures reliable ==> ok
    {
      ok := LockMore(path, exclusive);
    }

    /** `fcntl(fd, F_SETLKW, ...)` asked for while other locks may be held. */
    method LockMore(path: Path, exclusive: bool) returns (ok: bool)
      modifies `held, `asked
      ensures asked == old(asked) + [Ask(path, exclusive)]
      ensures held == if ok then Taken(old(held), Ask(path, exclusive)) else old(held)
      ensures reliable ==> ok
    {
      asked := asked + [Ask(path, exclusive)];
      var fails: bool := *;
      ok := reliable || !fails;
      if ok {
        held := Taken(held, Ask(path, exclusive));
      }
    }

    /** `lock_file`: open an existing file, for writing if the lock is to be exclusive, and lock it. */
    method LockFile(path: Path, exclusive: bool) returns (ok: bool)
      requires held == {}
      modifies `held, `asked
      ensures KeepsTo(old(asked), asked, [Ask(path, exclusive)])
      ensures ok ==> asked == old(asked) + [Ask(path, exclusive)]
      ensures held == if ok then {Ask(path, exclusive)} else {}
      ensures ok ==> path in files || (path in irregular && (exclusive ==> path !in directories))
      ensures reliable && Regular(path) ==> ok
    {
      var fails: bool := *;
      if path !in files && (path !in irregular || (exclusive && path in directories)) {
        return false;
      }
      if fails && (!reliable || path in irregular) {
        return false;
      }
      ok := Lock(path, exclusive);
    }

    /** Closing any descriptor of a file drops the process's locks on it. */
    method Close(path: Path)
      modifies `held
      ensures held == Dropped(old(held), path)
    {
      held := Dropped(held, path);
    }

    /** A call that moves no file data and may fail. */
    method Succeeds() returns (ok: bool)
      ensures reliable ==> ok
    {
      ok := *;
      ok := ok || reliable;
    }

    /** `write` at a position of a regular file; -1, or the number of bytes taken. */
    method SysWrite(path: Path, pos: nat, bytes: seq<byte>) returns (n: int)
      requires path in files && Ask(path, true) in held
      modifies `files
      ensures -1 <= n <= |bytes|
      ensures bytes != [] ==> n != 0
      ensures reliable ==> n == |bytes|
      ensures files == old(files)[path := KernelWrite(old(files)[path], pos, bytes[..Max(n, 0)])]
    {
      n := *;
      if reliable || n < -1 || n > |bytes| || (n == 0 && bytes != []) {
        n := |bytes|;
      }
      files := files[path := KernelWrite(files[path], pos, bytes[..Max(n, 0)])];
    }

    // ------------------------------------------------------------ handlers

    /** The padding loop: spaces, one call each, from the end of file up to the offset. */
    method Pad(path: Path, size: nat, offset: nat) returns (ok: bool, ghost upTo: nat)
      requires path in files && size == |files[path]| <= offset && Ask(path, true) in held
      modifies `files
      ensures size <= upTo <= offset
      ensures files == old(files)[path := Written(old(files)[path], upTo, [])]
      ensures ok ==> upTo == offset
      ensures reliable ==> ok
    {
      ghost var base := files[path];
      WrittenNothing(base, size);
      var pos, i := size, size;
      while i < offset
        invariant size <= i == pos <= offset && path in files
        invariant files == old(files)[path := Written(base, i, [])]
      {
        PadOneMore(base, i);
        var n := SysWrite(path, pos, [SPACE]);
        if n < 0 {
          assert KernelWrite(Written(base, i, []), i, []) == Written(base, i, []);
          return false, i;
        }
        assert [SPACE][..1] == [SPACE];
        pos := pos + 1;
        i := i + 1;
      }
      return true, offset;
    }

    /** Seek or pad, then write the data: the part of a write that runs under the lock. */
    method WriteLocked(path: Path, offset: int, data: seq<byte>)
      returns (res: Response, ghost putAt: nat, ghost put: seq<byte>)
      requires path in files && Ask(path, true) in held
      modifies `files
      ensures files == old(files)[path := Written(old(files)[path], putAt, put)]
      ensures res.status == 0 ==> 0 <= offset && putAt == offset && put == data
      ensures put == [] || (putAt == offset && put <= data)
      ensures putAt == 0 || putAt <= offset
      ensures reliable ==> (res.status == 0 <==> 0 <= offset)
      ensures res.status == 0 || res.status == -1
    {
      res, putAt, put := FAILED, 0, [];
      ghost var base := files[path];
      WrittenNothing(base, 0);
      var size := |files[path]|;
      var ok := Succeeds();
      if !ok { return; }
      if offset > size {
        ok, putAt := Pad(path, size, offset);
        if !ok { return; }
      } else {
        if offset < 0 { return; }
        WrittenNothing(base, offset);
      }
      assert files[path] == Written(base, offset, []);
      var n := SysWrite(path, offset, data);
      putAt, put := offset, data[..Max(n, 0)];
      DataAfterPadding(base, offset, put);
      if n != |data| { return; }
      assert put == data;
      res := Response(0, []);
    }

    /**
     `HandleHelperWrite`. Success means the atomic write happened, whole; on every other path
     the file holds an initial part of it: some of the padding, or some of the data.
     */
    method HandleWrite(path: Path, offset: int, data: seq<byte>)
      returns (res: Response, ghost putAt: nat, ghost put: seq<byte>)
      requires held == {}
      modifies `files, `held, `asked
      ensures held == {} && irregular == old(irregular)
      ensures KeepsTo(old(asked), asked, Plan(Write(path)))
      ensures res.status == 0 ==> asked == old(asked) + Plan(Write(path))
      ensures files == old(files)
        || (path !in irregular && files == old(files)[path := Written(old(Contents(path)), putAt, put)])
      ensures res.status == 0 ==>
        && 0 <= offset && path !in irregular
        && files == old(files)[path := Written(old(Contents(path)), offset, data)]
      ensures put == [] || (putAt == offset && put <= data)
      ensures putAt == 0 || putAt <= offset
      ensures reliable ==> (res.status == 0 <==> path !in irregular && 0 <= offset)
      ensures res.status == 0 || res.status == -1
    {
      res, putAt, put := FAILED, 0, [];
      label out: {
        var isOpen := SysOpen(path, true, false);
        if !isOpen { break out; }
        WrittenNothing(old(Contents(path)), 0);
        var locked := Lock(path, true);
        if !locked { break out; }
        var ok := Succeeds();
        if !ok || path in irregular { break out; }
        res, putAt, put := WriteLocked(path, offset, data);
      }
      Close(path);
    }

    /** `HandleHelperRead`: at most 4096 bytes from the offset; a file is never changed. */
    method HandleRead(path: Path, offset: int) returns (res: Response)
      requires held == {}
      modifies `held, `asked
      ensures held == {}
      ensures KeepsTo(old(asked), asked, Plan(Read(path)))
      ensures res.status == 0 ==> asked == old(asked) + Plan(Read(path))
      ensures res.status == 0 ==>
        && Regular(path) && 0 <= offset <= |files[path]|
        && res.payload == ReadBack(files[path], offset)
      ensures res.status != 0 ==> res == FAILED
      ensures reliable ==> (res.status == 0 <==> Regular(path) && 0 <= offset <= |files[path]|)
    {
      res := FAILED;
      label out: {
        var locked := LockFile(path, false);
        if !locked { break out; }
        var ok := Succeeds();
        if !ok || path in irregular { break out; }
        if offset > |files[path]| || offset < 0 { break out; }
        ok := Succeeds();
        if !ok { break out; }
        res := Response(0, files[path][offset..Min(offset + READ_LIMIT, |files[path]|)]);
      }
      Close(path);
    }

    /** `HandleHelperDownload`: the announced length is followed by that many bytes unless sending fails. */
    method HandleDownload(path: Path, requester: OutStream) returns (res: Response, announced: nat)
      requires held == {}
      modifies `held, `asked, requester
      ensures held == {}
      ensures KeepsTo(old(asked), asked, Plan(Download(path)))
      ensures res.status == 0 ==> asked == old(asked) + Plan(Download(path))
      ensures res.status == 0 ==>
        && Regular(path)
        && announced == |files[path]| % U32_LIMIT
        && old(requester.written) <= requester.written <= old(requester.written) + files[path]
      ensures res.status != 0 ==> requester.written == old(requester.written)
      ensures res.status == 0 && requester.reliable && reliable ==>
        requester.written == old(requester.written) + files[path]
      ensures reliable ==> (res.status == 0 <==> Regular(path))
    {
      res, announced := FAILED, 0;
      if path !in files && path !in irregular { return; }
      label out: {
        var locked := Lock(path, false);
        if !locked { break out; }
        var ok := Succeeds();
        if !ok || path in irregular { break out; }
        res := Response(0, []);
        announced := |files[path]| % U32_LIMIT;
        StreamLocked(path, requester);
      }
      Close(path);
    }

    /** The download loop: up to end of file, a failing read, or a failing send. */
    method StreamLocked(path: Path, requester: OutStream)
      requires path in files && Ask(path, false) in held
      modifies requester
      ensures old(requester.written) <= requester.written <= old(requester.written) + files[path]
      ensures requester.reliable && reliable ==> requester.written == old(requester.written) + files[path]
    {
      var pos := 0;
      ghost var before, file := requester.written, files[path];
      assert file[..0] == [];
      while pos < |files[path]|
        invariant pos <= |file| && file == files[path]
        invariant requester.written == before + file[..pos]
      {
        var ok := Succeeds();
        if !ok { return; }
        var n: nat :| 1 <= n <= STREAM_CHUNK && pos + n <= |files[path]|;
        var sent, k := WriteAll(requester, files[path][pos..pos + n]);
        assert file[..pos] + file[pos..pos + n][..k] == file[..pos + k];
        if sent < 0 { return; }
        pos := pos + n;
      }
      assert file[..pos] == file;
    }

    /** `HandleHelperUpload`: the file is emptied on opening, then holds a prefix of what arrives. */
    method HandleUpload(path: Path, source: InStream) returns (res: Response)
      requires held == {}
      modifies `files, `held, `asked, source
      ensures held == {}
      ensures KeepsTo(old(asked), asked, Plan(Upload(path)))
      ensures res.status == 0 ==> asked == old(asked) + Plan(Upload(path))
      ensures res.status != 0 ==>
        files == old(files) || (path !in irregular && files == old(files)[path := []])
      ensures res.status == 0 && path !in irregular ==>
        && path in files
        && files == old(files)[path := files[path]]
        && files[path] <= old(source.unread)
        && (reliable && source.reliable ==> files[path] == old(source.unread) && source.unread == [])
      ensures path in irregular ==> files == old(files)
      ensures reliable && path !in irregular ==> res.status == 0
    {
      res := FAILED;
      label out: {
        var isOpen := SysOpen(path, true, true);
        if !isOpen { break out; }
        var locked := Lock(path, true);
        if !locked { break out; }
        res := Response(0, []);
        if path in irregular { break out; }
        var pos := 0;
        ghost var all := source.unread;
        while true
          invariant held == {Ask(path, true)} && path in files && pos == |files[path]|
          invariant asked == old(asked) + [Ask(path, true)]
          invariant files == old(files)[path := files[path]]
          invariant files[path] + source.unread == all
          decreases |source.unread|
        {
          var n, chunk := source.Read(STREAM_CHUNK);
          if n <= 0 { break out; }
          ghost var sofar := files[path];
          var took := WriteFile(path, pos, chunk);
          assert sofar + chunk[..took] <= all;
          if took < n { break out; }
          pos := pos + n;
        }
      }
      Close(path);
    }

    /** `writeAll` onto the end of a file: all of `bytes`, or a part when a call fails. */
    method WriteFile(path: Path, pos: nat, bytes: seq<byte>) returns (took: nat)
      requires path in files && pos == |files[path]| && Ask(path, true) in held
      modifies `files
      ensures took <= |bytes| && (reliable ==> took == |bytes|)
      ensures path in files && files == old(files)[path := old(files)[path] + bytes[..took]]
    {
      took := 0;
      while took < |bytes|
        invariant took <= |bytes| && path in files
        invariant files[path] == old(files)[path] + bytes[..took]
        invariant files == old(files)[path := files[path]]
      {
        var n := SysWrite(path, pos + took, bytes[took..]);
        if n <= 0 { return; }
        assert bytes[took..][..n] == bytes[took..took + n];
        assert files[path] == old(files)[path] + bytes[..took] + bytes[took..took + n];
        assert bytes[..took] + bytes[took..took + n] == bytes[..took + n];
        took := took + n;
      }
    }

    /** `HandlerHelperCreateFile` without `-d`: the file exists and is empty. */
    method HandleCreate(path: Path) returns (res: Response)
      requires held == {}
      modifies `files, `held, `asked
      ensures held == {} && irregular == old(irregular)
      ensures KeepsTo(old(asked), asked, Plan(Create(path)))
      ensures res.status == 0 ==> asked == old(asked) + Plan(Create(path))
      ensures files == old(files) || (path !in irregular && files == old(files)[path := []])
      ensures res.status == 0 && path !in irregular ==> files == old(files)[path := []]
      ensures reliable && path !in irregular ==> res.status == 0
    {
      res := FAILED;
      var isOpen := SysOpen(path, true, true);
      if !isOpen { return; }
      var locked := LockFile(path, true);
      if locked {
        res := Response(0, []);
      }
      // close(fd) already drops the lock taken through the second descriptor
      Close(path);
      Close(path);
    }

    /** `HandleHelperChmod`: only the lock discipline; permissions are not part of this model. */
    method HandleChmod(path: Path) returns (res: Response)
      requires held == {}
      modifies `held, `asked
      ensures held == {}
      ensures KeepsTo(old(asked), asked, Plan(Chmod(path)))
      ensures res.status == 0 ==> asked == old(asked) + Plan(Chmod(path))
      // a directory cannot be opened for the lock
      ensures res.status == 0 ==> path in files || (path in irregular && !IsDirectory(path))
      ensures reliable && Regular(path) ==> res.status == 0
    {
      res := FAILED;
      var locked := LockFile(path, true);
      if !locked { return; }
      var ok := Succeeds();
      if ok {
        res := Response(0, []);
      }
      Close(path);
    }

    /** `HandleHelperDelete`: the name is gone, or nothing has changed. Only a directory goes without a lock. */
    method HandleDelete(path: Path) returns (res: Response)
      requires held == {}
      modifies this
      ensures held == {}
      ensures KeepsTo(old(asked), asked, Plan(Delete(path)))
      ensures res.status == 0 ==> asked == old(asked) + if old(IsDirectory(path)) then [] else Plan(Delete(path))
      ensures res.status == 0 ==> path in old(files) || path in old(irregular)
      ensures files == if res.status == 0 then old(files) - {path} else old(files)
      ensures irregular == if res.status == 0 then old(irregular) - {path} else old(irregular)
      ensures directories == if res.status == 0 then old(directories) - {path} else old(directories)
      ensures reliable && old(Regular(path)) ==> res.status == 0
    {
      res := FAILED;
      if path !in files && path !in irregular { return; }
      label out: {
        if IsDirectory(path) {
          // rmdir may find the directory not empty
          var empty: bool := *;
          if !empty { break out; }
        } else {
          var locked := LockFile(path, true);
          if !locked { break out; }
          var unlinked := Succeeds();
          if !unlinked { break out; }
        }
        files, irregular, directories := files - {path}, irregular - {path}, directories - {path};
        res := Response(0, []);
      }
      Close(path);
    }

    /** `HandleHelperMove`: the content travels unchanged into a directory, to a name that was not taken. */
    method HandleMove(path: Path, directory: Path) returns (res: Response)
      requires held == {}
      modifies `files, `held, `asked
      ensures held == {} && irregular == old(irregular)
      ensures KeepsTo(old(asked), asked, Plan(Move(path)))
      ensures res.status == 0 ==> asked == old(asked) + Plan(Move(path))
      ensures res.status != 0 ==> files == old(files)
      ensures res.status == 0 ==>
        && IsDirectory(directory) && path in old(files)
        && MoveTarget(path, directory) !in old(files) && MoveTarget(path, directory) !in irregular
        && files == (old(files) - {path})[MoveTarget(path, directory) := old(files)[path]]
      ensures reliable && old(Regular(path)) ==>
        (res.status == 0 <==>
          && IsDirectory(directory)
          && MoveTarget(path, directory) !in old(files) && MoveTarget(path, directory) !in irregular)
    {
      hide MoveTarget;
      res := FAILED;
      label out: {
        var locked := LockFile(path, true);
        if !locked || path !in files { break out; }
        if !IsDirectory(directory) { break out; }
        var target := MoveTarget(path, directory);
        if target in files || target in irregular { break out; }
        var ok := Succeeds();
        if !ok { break out; }
        files := (files - {path})[target := files[path]];
        res := Response(0, []);
      }
      Close(path);
    }

    /** The copy loop: up to end of file, a failing read, or a failing or short write. */
    method CopyLocked(source: Path, dest: Path) returns (ok: bool, ghost eof: bool, ghost taken: nat)
      requires source in files && dest in files && files[dest] == [] && Ask(dest, true) in held
      modifies `files
      ensures dest in files && files == old(files)[dest := files[dest]]
      ensures ok ==> taken <= |old(files)[source]| && files[dest] == old(files)[source][..taken]
      ensures ok && eof ==> taken == |old(files)[source]|
      ensures reliable ==> ok && eof
    {
      eof, taken := true, 0;
      var pos := 0;
      ghost var found := files[source];
      while pos < |files[source]|
        invariant source in files && dest in files && files[source] == found
        invariant files == old(files)[dest := files[dest]]
        invariant pos <= |found| && files[dest] == found[..pos] && taken == pos
        decreases |found| - pos
      {
        var readable := Succeeds();
        if !readable {
          return true, false, pos;
        }
        var n := Min(TRANSFER_CHUNK, |files[source]| - pos);
        var chunk := files[source][pos..pos + n];
        assert found[..pos] + chunk == found[..pos + n];
        var took := SysWrite(dest, pos, chunk);
        if took != n {
          return false, true, pos;
        }
        assert chunk[..n] == chunk;
        pos, taken := pos + n, pos + n;
      }
      return true, true, pos;
    }

    /**
     `HandleHelperTransfer` after its path checks: the copy loop under two locks. The
     destination is emptied before anything is read, and the loop takes a failing read for end
     of file. So what a successful transfer has delivered is the first `taken` bytes of what
     the reads could find; it is the source exactly when all of it was read and source and
     destination are different files, or the source was empty.
     */
    method HandleTransfer(source: Path, dest: Path, recipientExists: bool)
      returns (res: Response, ghost eof: bool, ghost taken: nat)
      requires held == {}
      modifies `files, `held, `asked
      ensures held == {} && irregular == old(irregular)
      ensures KeepsTo(old(asked), asked, Plan(Transfer(source, dest)))
      ensures res.status == 0 ==> asked == old(asked) + Plan(Transfer(source, dest))
      ensures res.status == 0 && source !in irregular && dest !in irregular ==>
        && source in old(files) && dest in files && recipientExists
        && files == old(files)[dest := files[dest]]
        && (files[dest] == old(files)[source] <==>
            taken == |old(files)[source]| && (source != dest || old(files)[source] == []))
        && var found := if source == dest then [] else old(files)[source];
           taken <= |found| && files[dest] == found[..taken] && (eof ==> taken == |found|)
      ensures reliable ==> eof
      ensures forall f :: f in old(files) && f != dest ==> f in files && files[f] == old(files)[f]
      ensures reliable && source !in irregular && dest !in irregular ==>
        (res.status == 0 <==> source in old(files) && recipientExists)
    {
      res, eof, taken := FAILED, true, 0;
      label out: {
        var isOpen := SysOpen(source, false, false);
        if !isOpen { break out; }
        var locked := Lock(source, false);
        if !locked { break out; }
        isOpen := SysOpen(dest, true, true);
        if !isOpen || !recipientExists { break out; }
        locked := LockMore(dest, true);
        assert asked == old(asked) + Plan(Transfer(source, dest));
        if !locked { break out; }
        res := Response(0, []);
        if source in irregular || dest in irregular { break out; }
        var copied: bool;
        copied, eof, taken := CopyLocked(source, dest);
        if !copied { res := FAILED; }
      }
      Close(source);
      Close(dest);
    }
  }
}
