/**
  flushAppendOnlyFile and aofWrite: moving the buffer to the file while write(2) and
  ftruncate(2) may fail in every way.
 */
module AofFlush {
  import opened Text
  import opened Resp

  /** Outcome of one write(2): some bytes (at most those asked for), EINTR, or an error. */
  datatype WriteOutcome = Wrote(n: nat) | Interrupted | Failed

  datatype Policy = FsyncNo | FsyncAlways | FsyncEverysec

  /** What one call of the flush meets. A list of write outcomes that runs dry counts as an
      error; noFsync is no-appendfsync-on-rewrite with a child active. */
  datatype Env = Env(policy: Policy, unixtime: int, fsyncPending: bool, noFsync: bool,
                     writes: seq<WriteOutcome>, truncOk: bool)

  /** The fields of the server that the flush touches, with the content of the file. */
  datatype Output = Output(file: Bytes, buf: Bytes, size: int, postponedStart: int, lastFsync: int,
                           fsyncOffset: int, writeOk: bool, delayed: nat)

  datatype Flushed = Flushed(out: Output, exited: bool, queuedFsync: bool)

  // ----- specification ------------------------------------------------------

  function Min(a: nat, b: nat): nat {
    if a < b then a else b
  }

  /** aofWrite, with `left` bytes to go and `tot` written so far. */
  function WriteAll(left: nat, tot: nat, writes: seq<WriteOutcome>): (n: int)
    ensures n == -1 || tot <= n <= tot + left
    ensures n == -1 ==> tot == 0 && left > 0
    ensures tot == 0 && left > 0 ==> n != 0
    decreases |writes|
  {
    if left == 0 then tot
    else if writes == [] then (if tot > 0 then tot else -1)
    else
      match writes[0]
      case Interrupted => WriteAll(left, tot, writes[1..])
      case Failed => if tot > 0 then tot else -1
      case Wrote(n) => var k := Min(n, left); WriteAll(left - k, tot + k, writes[1..])
  }

  function Zeros(n: nat): Bytes {
    seq(n, _ => '\0')
  }

  /** ftruncate to any size. */
  function Resize(file: Bytes, size: nat): (r: Bytes)
    ensures |r| == size
  {
    if size <= |file| then file[..size] else file + Zeros(size - |file|)
  }

  /** Does this call write, rather than return or postpone? */
  predicate Attempts(o: Output, force: bool, env: Env) {
    && o.buf != ""
    && !(env.policy == FsyncEverysec && !force && env.fsyncPending &&
         (o.postponedStart == 0 || env.unixtime - o.postponedStart < 2))
  }

  /** The try_fsync part. */
  function TryFsync(o: Output, pending: bool, env: Env): Flushed {
    if env.noFsync then Flushed(o, false, false)
    else if env.policy == FsyncAlways then
      Flushed(o.(fsyncOffset := o.size, lastFsync := env.unixtime), false, false)
    else if env.policy == FsyncEverysec && env.unixtime > o.lastFsync then
      if pending then Flushed(o.(lastFsync := env.unixtime), false, false)
      else Flushed(o.(fsyncOffset := o.size, lastFsync := env.unixtime), false, true)
    else Flushed(o, false, false)
  }

  /** flushAppendOnlyFile(force) */
  function Flush(o: Output, force: bool, env: Env): Flushed {
    if o.buf == "" then
      if env.policy == FsyncEverysec && o.fsyncOffset != o.size && env.unixtime > o.lastFsync && !env.fsyncPending
      then TryFsync(o, false, env) else Flushed(o, false, false)
    else if !Attempts(o, force, env) then
      Flushed(if o.postponedStart == 0 then o.(postponedStart := env.unixtime) else o, false, false)
    else
      var pending := env.policy == FsyncEverysec && env.fsyncPending;
      var o1 := o.(delayed := if pending && !force then o.delayed + 1 else o.delayed, postponedStart := 0);
      Write(o1, pending, env)
  }

  /** The write and its error handling. */
  function Write(o: Output, pending: bool, env: Env): Flushed {
    var n := WriteAll(|o.buf|, 0, env.writes);
    if n == |o.buf| then
      TryFsync(o.(file := o.file + o.buf, size := o.size + n, buf := "", writeOk := true), pending, env)
    else
      var file1 := if n > 0 then o.file + o.buf[..n] else o.file;
      var undone := n > 0 && env.truncOk && o.size >= 0;
      var file2 := if undone then Resize(file1, o.size) else file1;
      if env.policy == FsyncAlways then Flushed(o.(file := file2), true, false)
      else if n > 0 && !undone then
        Flushed(o.(file := file2, size := o.size + n, buf := o.buf[n..], writeOk := false), false, false)
      else Flushed(o.(file := file2, writeOk := false), false, false)
  }

  // ----- what it guarantees -------------------------------------------------

  predicate SizeKnown(o: Output) {
    o.size == |o.file|
  }

  /** Nothing is lost, doubled or reordered between file and buffer, and the recorded size
      stays the size of the file, whatever the system calls do. */
  lemma FlushPreserves(o: Output, force: bool, env: Env)
    requires SizeKnown(o)
    ensures var r := Flush(o, force, env);
            !r.exited ==> r.out.file + r.out.buf == o.file + o.buf && SizeKnown(r.out)
    ensures Flush(o, force, env).exited ==> env.policy == FsyncAlways
  {
    if Attempts(o, force, env) {
      var n := WriteAll(|o.buf|, 0, env.writes);
      if n == |o.buf| {
        assert (o.file + o.buf) + "" == o.file + o.buf;
      } else if n > 0 {
        assert o.buf[..n] + o.buf[n..] == o.buf;
        Assoc(o.file, o.buf[..n], o.buf[n..]);
        assert Resize(o.file + o.buf[..n], |o.file|) == o.file;
      }
    }
  }

  /** A short write is taken back with ftruncate although the recorded size is not the size of the
      file. */
  predicate BadUndo(o: Output, force: bool, env: Env) {
    && Attempts(o, force, env) && 0 < WriteAll(|o.buf|, 0, env.writes) < |o.buf|
    && env.truncOk && 0 <= o.size != |o.file|
  }

  /** A flush that does not exit keeps the bytes of file and buffer if and only if it does not undo a
      short write with a wrong size, whatever the recorded size was before. */
  lemma UndoNeedsTrueSize(o: Output, force: bool, env: Env)
    requires !Flush(o, force, env).exited
    ensures var r := Flush(o, force, env).out; r.file + r.buf == o.file + o.buf <==> !BadUndo(o, force, env)
  {
    var r := Flush(o, force, env).out;
    if Attempts(o, force, env) {
      var n := WriteAll(|o.buf|, 0, env.writes);
      if n == |o.buf| {
        assert (o.file + o.buf) + "" == o.file + o.buf;
      } else if BadUndo(o, force, env) {
        assert |r.file + r.buf| != |o.file + o.buf|;
      } else if n > 0 {
        assert o.buf[..n] + o.buf[n..] == o.buf;
        Assoc(o.file, o.buf[..n], o.buf[n..]);
        assert Resize(o.file + o.buf[..n], |o.file|) == o.file;
      }
    }
  }

  /** Only a prefix of the pending bytes ever reaches the file, also when the flush ends in exit(1),
      unless a short write is undone with a wrong size. */
  lemma FlushOnlyAppends(o: Output, force: bool, env: Env)
    requires !BadUndo(o, force, env)
    ensures o.file <= Flush(o, force, env).out.file <= o.file + o.buf
  {
    if Attempts(o, force, env) {
      var n := WriteAll(|o.buf|, 0, env.writes);
      if 0 < n < |o.buf| {
        assert Resize(o.file + o.buf[..n], |o.file|) == o.file;
        assert o.file + o.buf[..n] == (o.file + o.buf)[..|o.file| + n];
      }
    }
  }

  // ----- what it moves ------------------------------------------------------

  /** How many bytes the kernel is ready to take before the first error. */
  function Capacity(writes: seq<WriteOutcome>): nat {
    if writes == [] then 0
    else
      match writes[0]
      case Interrupted => Capacity(writes[1..])
      case Failed => 0
      case Wrote(n) => n + Capacity(writes[1..])
  }

  /** aofWrite goes on over interruptions and short writes until an error or the end, and reports an
      error only when it wrote nothing at all. */
  lemma {:induction false} WriteAllTakes(left: nat, tot: nat, writes: seq<WriteOutcome>)
    ensures var k := tot + Min(left, Capacity(writes));
            WriteAll(left, tot, writes) == if k == 0 && left > 0 then -1 else k
    decreases |writes|
  {
    if left > 0 && writes != [] {
      match writes[0]
      case Interrupted => WriteAllTakes(left, tot, writes[1..]);
      case Failed =>
      case Wrote(n) => WriteAllTakes(left - Min(n, left), tot + Min(n, left), writes[1..]);
    }
  }

  /** There is something to write and no reason to wait for a pending fsync. */
  predicate MayWrite(o: Output, force: bool, env: Env) {
    && o.buf != ""
    && (force || env.policy != FsyncEverysec || !env.fsyncPending ||
        (o.postponedStart != 0 && o.postponedStart + 2 <= env.unixtime))
  }

  /** A write that the kernel takes wholly moves the whole buffer to the file. */
  lemma CompleteFlush(o: Output, force: bool, env: Env)
    requires MayWrite(o, force, env) && Capacity(env.writes) >= |o.buf|
    ensures var r := Flush(o, force, env);
            && !r.exited
            && r.out.file == o.file + o.buf && r.out.buf == "" && r.out.size == o.size + |o.buf|
            && r.out.writeOk && r.out.postponedStart == 0
  {
    WriteAllTakes(|o.buf|, 0, env.writes);
  }

  /** A write that stops after k bytes: exit under ALWAYS; else these k bytes move from buffer to file,
      or none if they could be taken back, and the error is remembered. */
  lemma ShortFlush(o: Output, force: bool, env: Env)
    requires MayWrite(o, force, env) && Capacity(env.writes) < |o.buf|
    ensures var r, k := Flush(o, force, env), Capacity(env.writes);
            && (r.exited <==> env.policy == FsyncAlways)
            && (!r.exited ==>
                  && !r.out.writeOk && r.out.postponedStart == 0 && !r.queuedFsync
                  && r.out.lastFsync == o.lastFsync && r.out.fsyncOffset == o.fsyncOffset
                  && (if k > 0 && env.truncOk && o.size >= 0
                      then (SizeKnown(o) ==> r.out.file == o.file) && r.out.buf == o.buf && r.out.size == o.size
                      else r.out.file == o.file + o.buf[..k] && r.out.buf == o.buf[k..] && r.out.size == o.size + k))
  {
    WriteAllTakes(|o.buf|, 0, env.writes);
    var k := Capacity(env.writes);
    if SizeKnown(o) && k > 0 {
      assert Resize(o.file + o.buf[..k], |o.file|) == o.file;
    }
    if k == 0 {
      assert o.file + o.buf[..k] == o.file;
    }
  }

  /** A call that does not write leaves file and buffer alone; a postponed one remembers when the
      waiting began. */
  lemma NoWrite(o: Output, force: bool, env: Env)
    requires !MayWrite(o, force, env)
    ensures var r := Flush(o, force, env);
            && !r.exited
            && r.out.file == o.file && r.out.buf == o.buf && r.out.size == o.size && r.out.writeOk == o.writeOk
            && r.out.postponedStart == (if o.buf != "" && o.postponedStart == 0 then env.unixtime else o.postponedStart)
  {
  }

  /** A background fsync is queued exactly under EVERYSEC, once per second, when none is pending, fsync
      is not suspended, and everything was written: by this call, or earlier and not synced since. */
  lemma QueuesFsyncIff(o: Output, force: bool, env: Env)
    ensures Flush(o, force, env).queuedFsync <==>
            && env.policy == FsyncEverysec && !env.noFsync && !env.fsyncPending && env.unixtime > o.lastFsync
            && (if o.buf == "" then o.fsyncOffset != o.size else Capacity(env.writes) >= |o.buf|)
  {
    WriteAllTakes(|o.buf|, 0, env.writes);
  }

  /** What a sync covers: after a queued fsync, and under ALWAYS after every completed write unless
      fsync is suspended, the offset synced up to is the end of the file and the buffer is empty. */
  lemma SyncCovers(o: Output, force: bool, env: Env)
    ensures var r := Flush(o, force, env);
            r.queuedFsync || (env.policy == FsyncAlways && !env.noFsync && o.buf != "" && Capacity(env.writes) >= |o.buf|) ==>
              && r.out.fsyncOffset == r.out.size && r.out.buf == "" && r.out.lastFsync == env.unixtime
              && (SizeKnown(o) ==> r.out.fsyncOffset == |o.file| + |o.buf|)
  {
    WriteAllTakes(|o.buf|, 0, env.writes);
  }

  /** Otherwise the offset stays; but a write completed under EVERYSEC while an fsync is pending counts
      as that second's fsync. A write that does not wait for a pending fsync is counted. */
  lemma NoSync(o: Output, force: bool, env: Env)
    ensures var r := Flush(o, force, env);
            var late := env.policy == FsyncEverysec && env.fsyncPending && MayWrite(o, force, env);
            && (!r.queuedFsync && !(env.policy == FsyncAlways && !env.noFsync && o.buf != "" && Capacity(env.writes) >= |o.buf|) ==>
                  && r.out.fsyncOffset == o.fsyncOffset
                  && r.out.lastFsync == (if late && Capacity(env.writes) >= |o.buf| && !env.noFsync && env.unixtime > o.lastFsync
                                         then env.unixtime else o.lastFsync))
            && r.out.delayed == o.delayed + (if late && !force then 1 else 0)
  {
    WriteAllTakes(|o.buf|, 0, env.writes);
  }

  /** A background fsync is queued only when none is pending. */
  lemma NeverTwoFsyncs(o: Output, force: bool, env: Env)
    requires Flush(o, force, env).queuedFsync
    ensures env.policy == FsyncEverysec && !env.fsyncPending && !env.noFsync
  {
  }

  /** What happens between two calls: bytes are fed to the buffer, then the flush runs. */
  datatype Turn = Turn(fed: Bytes, env: Env)

  function Grown(o: Output, fed: Bytes): Output {
    o.(buf := o.buf + fed)
  }

  /** Does one of these unforced calls, one after the other, get to write? */
  predicate Attempted(o: Output, turns: seq<Turn>)
    decreases |turns|
  {
    turns != [] &&
    var o1 := Grown(o, turns[0].fed);
    Attempts(o1, false, turns[0].env) || Attempted(Flush(o1, false, turns[0].env).out, turns[1..])
  }

  /** A buffer postponed at `start` is written at the latest by the first call two or more
      seconds later, whatever calls come in between and whatever is fed meanwhile. */
  lemma {:induction false} PostponedIsWritten(o: Output, turns: seq<Turn>, last: Turn)
    requires o.buf != "" && o.postponedStart != 0
    requires last.env.unixtime - o.postponedStart >= 2
    ensures Attempted(o, turns + [last])
    decreases |turns|
  {
    if turns == [] {
      assert [last] == turns + [last];
    } else {
      var o1 := Grown(o, turns[0].fed);
      assert (turns + [last])[1..] == turns[1..] + [last];
      if !Attempts(o1, false, turns[0].env) {
        assert Flush(o1, false, turns[0].env).out == o1;
        PostponedIsWritten(o1, turns[1..], last);
      }
    }
  }

  /** From the first call that had to wait for an fsync: at the latest the first call two or more
      seconds later writes. */
  lemma PostponedOnceIsWritten(o: Output, first: Turn, turns: seq<Turn>, last: Turn)
    requires o.buf + first.fed != "" && o.postponedStart == 0
    requires first.env.unixtime != 0 && last.env.unixtime - first.env.unixtime >= 2
    ensures Attempted(o, [first] + turns + [last])
  {
    var o1 := Grown(o, first.fed);
    assert ([first] + turns + [last])[1..] == turns + [last];
    if !Attempts(o1, false, first.env) {
      PostponedIsWritten(Flush(o1, false, first.env).out, turns, last);
    }
  }

  /** The server after feeding and flushing turn by turn; None once it exited. */
  function After(o: Output, turns: seq<Turn>): Option<Output>
    decreases |turns|
  {
    if turns == [] then Some(o)
    else
      var r := Flush(Grown(o, turns[0].fed), false, turns[0].env);
      if r.exited then None else After(r.out, turns[1..])
  }

  function AllFed(turns: seq<Turn>): Bytes {
    if turns == [] then "" else turns[0].fed + AllFed(turns[1..])
  }

  /** Whatever the system calls do, after any turns file and buffer hold what they held and everything
      fed, in order. */
  lemma {:induction false} TurnsConserve(o: Output, turns: seq<Turn>)
    requires SizeKnown(o)
    ensures var r := After(o, turns);
            r.Some? ==> SizeKnown(r.value) && r.value.file + r.value.buf == o.file + o.buf + AllFed(turns)
    decreases |turns|
  {
    hide Flush;
    if turns == [] {
      assert o.file + o.buf + "" == o.file + o.buf;
    } else {
      var o1 := Grown(o, turns[0].fed);
      var r := Flush(o1, false, turns[0].env);
      FlushPreserves(o1, false, turns[0].env);
      Assoc(o.file, o.buf, turns[0].fed);
      Assoc(o.file + o.buf, turns[0].fed, AllFed(turns[1..]));
      if !r.exited { TurnsConserve(r.out, turns[1..]); }
    }
  }

  /** And as soon as one call may write and the kernel takes all of it, the file alone holds all of
      that: earlier failures lose nothing. */
  lemma CompleteFlushCatchesUp(o: Output, turns: seq<Turn>, force: bool, env: Env)
    requires SizeKnown(o) && After(o, turns).Some?
    requires var o1 := After(o, turns).value; MayWrite(o1, force, env) && Capacity(env.writes) >= |o1.buf|
    ensures var r := Flush(After(o, turns).value, force, env);
            !r.exited && r.out.file == o.file + o.buf + AllFed(turns) && r.out.buf == "" && SizeKnown(r.out)
  {
    hide Flush;
    hide After;
    TurnsConserve(o, turns);
    CompleteFlush(After(o, turns).value, force, env);
  }

  // ----- the code -----------------------------------------------------------

  /** aofWrite: returns the bytes written, -1 when the first write fails. */
  method AofWrite(file: Bytes, buf: Bytes, writes: seq<WriteOutcome>) returns (written: int, file': Bytes)
    ensures written == WriteAll(|buf|, 0, writes)
    ensures file' == if written > 0 then file + buf[..written] else file
  {
    var totwritten: nat, len: nat, i := 0, |buf|, 0;
    file' := file;
    while len != 0
      invariant 0 <= i <= |writes| && len + totwritten == |buf|
      invariant file' == file + buf[..totwritten]
      invariant WriteAll(len, totwritten, writes[i..]) == WriteAll(|buf|, 0, writes)
      decreases |writes| - i
    {
      if i == |writes| {
        return if totwritten > 0 then totwritten else -1, file';
      }
      assert writes[i..][1..] == writes[i + 1..];
      match writes[i] {
        case Interrupted =>
        case Failed => return if totwritten > 0 then totwritten else -1, file';
        case Wrote(n) =>
          var nwritten := Min(n, len);
          assert buf[..totwritten] + buf[totwritten..totwritten + nwritten] == buf[..totwritten + nwritten];
          Assoc(file, buf[..totwritten], buf[totwritten..totwritten + nwritten]);
          file' := file' + buf[totwritten..totwritten + nwritten];
          len := len - nwritten;
          totwritten := totwritten + nwritten;
      }
      i := i + 1;
    }
    written := totwritten;
  }

  /** The part of the server state behind the append only file. */
  class AofFile {
    var file: Bytes
    var aofBuf: Bytes
    var currentSize: int
    var flushPostponedStart: int
    var lastFsync: int
    var fsyncOffset: int
    var lastWriteOk: bool
    var delayedFsync: nat

    ghost function View(): Output
      reads this
    {
      Output(file, aofBuf, currentSize, flushPostponedStart, lastFsync, fsyncOffset, lastWriteOk, delayedFsync)
    }

    constructor (content: Bytes)
      ensures View() == Output(content, "", |content|, 0, 0, |content|, true, 0)
    {
      file, aofBuf, currentSize := content, "", |content|;
      flushPostponedStart, lastFsync, fsyncOffset, lastWriteOk, delayedFsync := 0, 0, |content|, true, 0;
    }

    /** flushAppendOnlyFile */
    method FlushAppendOnlyFile(force: bool, env: Env) returns (exited: bool, queuedFsync: bool)
      modifies this
      ensures Flushed(View(), exited, queuedFsync) == Flush(old(View()), force, env)
    {
      exited, queuedFsync := false, false;
      var syncInProgress := false;
      if aofBuf == "" {
        if !(env.policy == FsyncEverysec && fsyncOffset != currentSize && env.unixtime > lastFsync &&
             !env.fsyncPending) {
          return;
        }
        queuedFsync := DoFsync(false, env);
        return;
      }
      if env.policy == FsyncEverysec { syncInProgress := env.fsyncPending; }
      if env.policy == FsyncEverysec && !force && syncInProgress {
        if flushPostponedStart == 0 {
          flushPostponedStart := env.unixtime;
          return;
        } else if env.unixtime - flushPostponedStart < 2 {
          return;
        }
        delayedFsync := delayedFsync + 1;
      }
      flushPostponedStart := 0;
      exited, queuedFsync := DoWrite(syncInProgress, env);
    }

    method DoWrite(syncInProgress: bool, env: Env) returns (exited: bool, queuedFsync: bool)
      modifies this
      ensures Flushed(View(), exited, queuedFsync) == Write(old(View()), syncInProgress, env)
    {
      exited, queuedFsync := false, false;
      var nwritten;
      nwritten, file := AofWrite(file, aofBuf, env.writes);
      if nwritten != |aofBuf| {
        if nwritten != -1 && env.truncOk && currentSize >= 0 {
          file := Resize(file, currentSize);
          nwritten := -1;
        }
        if env.policy == FsyncAlways {
          exited := true;
          return;
        }
        lastWriteOk := false;
        if nwritten > 0 {
          currentSize := currentSize + nwritten;
          aofBuf := aofBuf[nwritten..];
        }
        return;
      }
      assert aofBuf[..nwritten] == aofBuf;
      lastWriteOk := true;
      currentSize := currentSize + nwritten;
      aofBuf := "";
      queuedFsync := DoFsync(syncInProgress, env);
    }

    method DoFsync(syncInProgress: bool, env: Env) returns (queuedFsync: bool)
      modifies this`fsyncOffset, this`lastFsync
      ensures Flushed(View(), false, queuedFsync) == TryFsync(old(View()), syncInProgress, env)
    {
      queuedFsync := false;
      if env.noFsync { return; }
      if env.policy == FsyncAlways {
        fsyncOffset := currentSize;
        lastFsync := env.unixtime;
      } else if env.policy == FsyncEverysec && env.unixtime > lastFsync {
        if !syncInProgress {
          queuedFsync := true;
          fsyncOffset := currentSize;
        }
        lastFsync := env.unixtime;
      }
    }
  }
}
