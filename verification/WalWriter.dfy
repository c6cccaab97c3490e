/**
 The log's single writer: buffered writes, group commit, fsync, acknowledgements and the reset
 that compaction asks for. Every I/O call may fail; the outcomes are parameters.
 */
module WalWriter {
  import opened Bytes
  import C = WalCodec

  function Flatten(frames: seq<seq<Byte>>): seq<Byte> {
    if frames == [] then [] else Flatten(frames[..|frames| - 1]) + frames[|frames| - 1]
  }

  lemma {:induction false} FlattenConcat(a: seq<seq<Byte>>, b: seq<seq<Byte>>)
    ensures Flatten(a + b) == Flatten(a) + Flatten(b)
  {
    if b == [] {
      assert a + b == a;
    } else {
      var front, last := b[..|b| - 1], b[|b| - 1];
      FlattenConcat(a, front);
      assert (a + b)[..|a + b| - 1] == a + front;
      ConcatAssociates(Flatten(a), Flatten(front), last);
    }
  }

  lemma FlattenAppend(frames: seq<seq<Byte>>, frame: seq<Byte>)
    ensures Flatten(frames + [frame]) == Flatten(frames) + frame
  {
    assert (frames + [frame])[..|frames|] == frames;
  }

  /** How the I/O calls of one request turn out; `spill` is how far a partial write got. */
  datatype Io = Io(write: bool, flush: bool, sync: bool, close: bool, open: bool, spill: nat)

  /** Every call of a reset succeeds: flush and fsync, close, reopen, then write, flush and fsync. */
  predicate ResetWorks(io: Io, io2: Io) {
    io.flush && io.sync && io.close && io.open && io2.write && io2.flush && io2.sync
  }

  datatype Ack = Ack(request: nat, ok: bool)

  /** One answer for each waiting request. */
  function AcksFor(requests: seq<nat>, ok: bool): (acks: seq<Ack>)
    ensures |acks| == |requests|
  {
    if requests == [] then [] else AcksFor(requests[..|requests| - 1], ok) + [Ack(requests[|requests| - 1], ok)]
  }

  lemma EmptyFlat(frame: seq<Byte>)
    ensures Flatten([]) == [] && Flatten([frame]) == frame
  {
  }

  lemma FewAcks(request: nat, ok: bool)
    ensures AcksFor([], ok) == [] && AcksFor([request], ok) == [Ack(request, ok)]
  {
  }

  /** The first `n` frames lie within the fsynced bytes. */
  ghost predicate Covered(frames: seq<seq<Byte>>, n: int, synced: seq<Byte>) {
    0 <= n <= |frames| && |Flatten(frames[..n])| <= |synced|
  }

  lemma AllCovered(frames: seq<seq<Byte>>, synced: seq<Byte>)
    requires |Flatten(frames)| <= |synced|
    ensures Covered(frames, |frames|, synced)
  {
    assert frames[..|frames|] == frames;
  }

  lemma StillCovered(frames: seq<seq<Byte>>, n: int, synced: seq<Byte>, data: seq<Byte>)
    requires Covered(frames, n, synced)
    ensures Covered(frames + [data], n, synced)
  {
    assert (frames + [data])[..n] == frames[..n];
  }

  /** `s` cut at `n`, or at its end. */
  function Cut<T>(s: seq<T>, n: nat): nat {
    if n <= |s| then n else |s|
  }

  class Writer {
    const always: bool
    const flushRecords: nat
    const flushBytes: nat

    var synced: seq<Byte>            // in the file and fsynced
    var written: seq<Byte>           // in the file, not fsynced
    var buffer: seq<Byte>            // still in the process
    var pendingRecords: nat
    var pendingBytes: nat
    var pendingAcks: seq<nat>
    var acks: seq<Ack>               // sent, oldest first
    var fatal: bool
    var broken: bool                 // the buffered writer's sticky error
    var usable: bool                 // the file handle

    ghost var frames: seq<seq<Byte>> // appended since the last reset, oldest first
    ghost var acked: nat             // how many of them were acknowledged without error
    ghost var torn: seq<Byte>        // the frame whose write failed, if one did

    /** The bytes of the log in append order, wherever they are. */
    ghost function Log(): seq<Byte>
      reads this`synced, this`written, this`buffer
    {
      synced + written + buffer
    }

    /** How many frames are sure to be on disk. */
    ghost function Durable(): int
      reads this
    {
      |frames| - pendingRecords
    }

    /** What holds at every point of a request. */
    ghost predicate Shape()
      reads this
    {
      && Log() == Flatten(frames) + torn
      && pendingRecords <= |frames| && Covered(frames, Durable(), synced)
      && acked <= |frames| && (always ==> acked <= Durable())
      && (!fatal ==> torn == [] && usable && !broken && pendingBytes == |written| + |buffer|)
    }

    /** What holds whenever the writer is back waiting for a request. */
    ghost predicate Valid()
      reads this
    {
      && Shape() && pendingAcks == []
      && flushRecords > 0 && flushBytes > 0 && pendingRecords <= flushRecords
      && (!fatal ==> pendingRecords < flushRecords && pendingBytes < flushBytes)
    }

    /** Opens the log on what is in the file, a whole number of frames. */
    constructor (always: bool, flushRecords: nat, flushBytes: nat, file: seq<Byte>, ghost kept: seq<seq<Byte>>)
      requires flushRecords > 0 && flushBytes > 0 && file == Flatten(kept)
      ensures Valid() && Log() == synced == file && frames == kept && torn == [] && !fatal && acks == []
      ensures acked == |kept| && Durable() == |kept|
      ensures this.always == always && this.flushRecords == flushRecords && this.flushBytes == flushBytes
    {
      this.always, this.flushRecords, this.flushBytes := always, flushRecords, flushBytes;
      synced, written, buffer := file, [], [];
      pendingRecords, pendingBytes, pendingAcks, acks := 0, 0, [], [];
      fatal, broken, usable := false, false, true;
      frames, acked, torn := kept, |kept|, [];
      AllCovered(kept, file);
    }

    /** A buffered write: some of the bytes may spill into the file, the order never changes. */
    method Write(data: seq<Byte>, spill: nat)
      modifies this`written, this`buffer
      ensures Log() == old(Log()) + data && |written| + |buffer| == old(|written| + |buffer|) + |data|
    {
      var all := buffer + data;
      var n := Cut(all, spill);
      written, buffer := written + all[..n], all[n..];
      assert written + buffer == old(written) + all;
    }

    /** Flushes the buffer and fsyncs; a failure keeps the bytes in order and loses no count. */
    method Flush(io: Io) returns (ok: bool)
      modifies this`synced, this`written, this`buffer, this`broken, this`pendingRecords, this`pendingBytes
      ensures Log() == old(Log())
      ensures ok == (usable && io.sync && (old(buffer) != [] ==> io.flush && !old(broken)))
      ensures ok ==> synced == Log() && written == [] && buffer == [] && broken == old(broken)
      ensures ok ==> pendingRecords == 0 && pendingBytes == 0
      ensures !ok ==> synced == old(synced) && pendingRecords == old(pendingRecords) && pendingBytes == old(pendingBytes)
    {
      if buffer != [] {
        if broken || !usable || !io.flush {
          var n := Cut(buffer, io.spill);
          written, buffer, broken := written + buffer[..n], buffer[n..], true;
          assert written + buffer == old(written + buffer);
          return false;
        }
        written, buffer := written + buffer, [];
      }
      if !usable || !io.sync {
        return false;
      }
      synced, written := synced + written, [];
      pendingRecords, pendingBytes := 0, 0;
      return true;
    }

    /** Sends the same answer to every request waiting for the fsync. */
    method AckPending(ok: bool)
      modifies this`acks, this`pendingAcks
      ensures pendingAcks == [] && acks == old(acks) + AcksFor(old(pendingAcks), ok)
    {
      var i, waiting := 0, pendingAcks;
      while i < |waiting|
        invariant 0 <= i <= |waiting| && acks == old(acks) + AcksFor(waiting[..i], ok)
      {
        acks := acks + [Ack(waiting[i], ok)];
        i := i + 1;
        assert waiting[..i][..i - 1] == waiting[..i - 1];
      }
      assert waiting[..i] == waiting;
      pendingAcks := [];
    }

    /** Writes a frame into the buffer and counts it. */
    method Enqueue(data: seq<Byte>, spill: nat)
      requires Shape() && !fatal
      modifies this`written, this`buffer, this`frames, this`pendingRecords, this`pendingBytes
      ensures Shape() && frames == old(frames) + [data] && pendingRecords == old(pendingRecords) + 1
    {
      hide Flatten, Covered;
      Write(data, spill);
      FlattenAppend(frames, data);
      StillCovered(frames, Durable(), synced, data);
      frames, pendingRecords, pendingBytes := frames + [data], pendingRecords + 1, pendingBytes + |data|;
    }

    /** Flushes, fsyncs and answers whoever waits. */
    method Commit(io: Io) returns (ok: bool)
      requires Shape()
      modifies this`synced, this`written, this`buffer, this`broken, this`pendingRecords, this`pendingBytes,
               this`fatal, this`acks, this`pendingAcks
      ensures Shape() && Log() == old(Log()) && fatal == (old(fatal) || !ok)
      ensures ok ==> synced == Log() && Durable() == |frames| && pendingBytes == 0 && written == [] && buffer == []
      ensures !ok ==> pendingRecords == old(pendingRecords)
      ensures !old(fatal) ==> ok == (io.sync && (old(buffer) != [] ==> io.flush))
      ensures pendingAcks == [] && acks == old(acks) + AcksFor(old(pendingAcks), ok)
    {
      hide Flatten, Covered;
      ok := Flush(io);
      fatal := fatal || !ok;
      AckPending(ok);
      if ok {
        AllCovered(frames, synced);
      }
    }

    /**
     One append. In sync mode "always" a nil answer means the frame and everything before it is
     fsynced; in "batch" mode it only means the frame is written in order.
     */
    method Append(request: nat, data: seq<Byte>, io: Io)
      requires Valid()
      modifies this
      ensures Valid() && Answered(old(acks), acks, request)
      ensures var ok := acks[|old(acks)|].ok;
              && (ok ==> frames == old(frames) + [data] && acked == |frames|)
              && (ok && always ==> synced == Flatten(frames))
              && (old(fatal) ==> !ok && Log() == old(Log()))
              && (!old(fatal) && io.write && io.flush && io.sync ==> ok && !fatal)
      ensures var ok := acks[|old(acks)|].ok;
              && (ok ==> torn == [] && !old(fatal))
              && (!ok ==> fatal && acked == old(acked))
              && (!ok && old(fatal) ==> frames == old(frames) && torn == old(torn))
              && (!ok && !old(fatal) && data != [] ==>
                    frames + (if torn == [] then [] else [torn]) == old(frames) + [data])
      ensures Durable() >= old(Durable())
    {
      hide Flatten, Covered, AcksFor, Log, Answered;
      AnswerSent(acks, request, true);
      AnswerSent(acks, request, false);
      if fatal {
        acks := acks + [Ack(request, false)];
        return;
      }
      if !io.write {
        WriteFails(data, io.spill);
        acks := acks + [Ack(request, false)];
        return;
      }
      Enqueue(data, io.spill);
      Settle(request, io);
    }

    /** Sends a frame to the writer and waits for its answer. */
    method Submit(request: nat, data: seq<Byte>, io: Io) returns (ok: bool)
      requires Valid() && data != []
      modifies this
      ensures Valid() && Durable() >= old(Durable()) && acked == (if ok then |frames| else old(acked))
      ensures ok ==> !old(fatal) && frames == old(frames) + [data] && torn == []
      ensures !ok ==> fatal
      ensures !ok && old(fatal) ==> frames == old(frames) && torn == old(torn)
      ensures !ok && !old(fatal) ==> Sent(frames, torn, old(frames), data)
      ensures !old(fatal) && io.write && io.flush && io.sync ==> ok && !fatal
    {
      hide Shape, Log, Flatten, Covered;
      var sent := |acks|;
      Append(request, data, io);
      ok := acks[sent].ok;
    }

    /** Asks the writer to start the log afresh with a mark and waits for its answer. */
    method SubmitReset(request: nat, mark: seq<Byte>, io: Io, io2: Io) returns (ok: bool)
      requires Valid()
      modifies this
      ensures Valid()
      ensures ok ==> frames == [mark] && torn == [] && acked == 1 && Durable() == 1
      ensures !ok ==>
                || (fatal && frames == old(frames) && torn == old(torn) && acked == old(acked) && Durable() >= old(Durable()))
                || (fatal && frames == [] && torn == mark && acked == 0)
      ensures !old(fatal) && ResetWorks(io, io2) ==> ok && !fatal
    {
      hide Shape, Log, Flatten, Covered;
      var sent := |acks|;
      Reset(request, mark, io, io2);
      ok := acks[sent].ok;
    }

    /** Answers at once in "batch" mode, after the fsync in "always", and commits a full group. */
    method Settle(request: nat, io: Io)
      requires Shape() && !fatal && pendingAcks == [] && frames != []
      requires flushRecords > 0 && flushBytes > 0 && pendingRecords <= flushRecords
      modifies this`synced, this`written, this`buffer, this`broken, this`pendingRecords, this`pendingBytes,
               this`fatal, this`acks, this`pendingAcks, this`acked
      ensures Valid() && Log() == old(Log()) && Durable() >= old(Durable())
      ensures var ok := if always then !fatal else true;
              && acks == old(acks) + [Ack(request, ok)]
              && acked == (if ok then |frames| else old(acked))
              && (ok && always ==> synced == Log())
      ensures io.flush && io.sync ==> !fatal
    {
      hide Flatten, Covered, AcksFor, Log;
      if !always {
        acks, acked := acks + [Ack(request, true)], |frames|;
      } else {
        pendingAcks := [request];
      }
      if always || pendingRecords >= flushRecords || pendingBytes >= flushBytes {
        FewAcks(request, true);
        FewAcks(request, false);
        assert acks + [] == acks;
        var ok := Commit(io);
        if ok && always {
          acked := |frames|;
        }
      }
    }

    /** A failed write leaves a torn frame behind and stops the log for good. */
    method WriteFails(data: seq<Byte>, spill: nat)
      requires Valid() && !fatal
      modifies this`written, this`buffer, this`fatal, this`broken, this`torn
      ensures Valid() && fatal && torn == data
    {
      Write(data, spill);
      fatal, broken, torn := true, true, data;
    }

    /** The timer: flushes what is pending, so batch acknowledgements do not wait for more traffic. */
    method Tick(io: Io)
      requires Valid()
      modifies this
      ensures Valid() && frames == old(frames) && torn == old(torn) && Log() == old(Log()) && acks == old(acks)
      ensures acked == old(acked) && Durable() >= old(Durable()) && (old(fatal) ==> fatal)
      ensures !old(fatal) && io.flush && io.sync ==> Durable() == |frames| && !fatal
    {
      hide Flatten, Covered, AcksFor, Log;
      if pendingRecords == 0 && buffer == [] {
        return;
      }
      FewAcks(0, true);
      FewAcks(0, false);
      var ok := Commit(io);
    }

    /** Compaction's reset: everything old is fsynced first, then the file holds only the mark. */
    method Reset(request: nat, mark: seq<Byte>, io: Io, io2: Io)
      requires Valid()
      modifies this
      ensures Valid() && Answered(old(acks), acks, request)
      ensures var ok := acks[|old(acks)|].ok;
              && (ok ==> frames == [mark] && torn == [] && acked == 1 && Durable() == 1)
              && (ok ==> synced == mark && written == [] && buffer == [])
              && (!ok ==> fatal)
              && (!ok ==> || (frames == old(frames) && torn == old(torn) && acked == old(acked) && Durable() >= old(Durable()))
                          || (frames == [] && torn == mark && acked == 0))
      ensures old(fatal) ==> fatal
      ensures !old(fatal) && ResetWorks(io, io2) ==> acks[|old(acks)|].ok && !fatal
    {
      hide Flatten, Covered, AcksFor, Log;
      FewAcks(0, true);
      FewAcks(0, false);
      var ok := Commit(io);
      if ok {
        ok := io.close && io.open;
        usable := ok;
        fatal := fatal || !ok;
      }
      if ok {
        ghost var buffered;
        ok, buffered := Restart(mark, io2);
      }
      acks := acks + [Ack(request, ok)];
    }

    /** Truncates the file and writes the mark. */
    method Restart(mark: seq<Byte>, io: Io) returns (ok: bool, ghost buffered: bool)
      requires usable && pendingRecords == 0 && pendingBytes == 0
      modifies this`synced, this`written, this`buffer, this`broken, this`pendingRecords, this`pendingBytes,
               this`fatal, this`frames, this`acked, this`torn
      ensures Shape() && pendingRecords == 0 && fatal == (old(fatal) || !ok)
      ensures ok ==> frames == [mark] && torn == [] && acked == 1
      ensures ok ==> synced == mark && written == [] && buffer == [] && pendingBytes == 0
      ensures !ok ==> frames == [] && torn == mark && acked == 0
      ensures ok <==> io.write && io.sync && (buffered ==> io.flush)
    {
      hide Flatten, Covered;
      EmptyFlat(mark);
      synced, written, buffer, broken := [], [], [], false;
      frames, acked, torn := [], 0, mark;
      assert Log() == [];
      hide Log;
      Write(mark, io.spill);
      assert Log() == mark;
      ok, buffered := false, buffer != [];
      if io.write {
        ok := Flush(io);
      } else {
        broken := true;
      }
      fatal := fatal || !ok;
      if ok {
        frames, torn, acked := [mark], [], 1;
      }
      AllCovered(frames, synced);
    }

    ghost predicate Encodes(crc: C.Checksum, rs: seq<C.Record>)
      reads this`frames, this`torn
    {
      Encoded(crc, rs, frames, torn)
    }

    /**
     Group commit: whatever part of the unsynced bytes a crash leaves, replay returns a prefix of
     append order. It holds every acknowledged record in sync mode "always"; in "batch" mode, unless
     I/O failed, fewer than `flushRecords` records and `flushBytes` bytes are lost.
     */
    lemma CrashLosesSuffix(crc: C.Checksum, accepts: C.Record -> bool, rs: seq<C.Record>, disk: seq<Byte>)
      returns (survivors: nat)
      requires Valid() && Encodes(crc, rs) && C.AllValid(accepts, rs)
      requires synced <= disk <= synced + written
      ensures Durable() <= survivors <= |rs| && C.Replay(crc, accepts, disk).records == rs[..survivors]
      ensures always ==> acked <= survivors
      ensures !fatal ==> |frames| - survivors < flushRecords && |Log()| - |disk| < flushBytes
    {
      hide C.FrameOf, C.Replay, C.Valid;
      LogIsFrames(crc, rs);
      var k := |disk|;
      assert Log()[..k] == disk;
      survivors := C.CrashKeepsPrefix(crc, accepts, rs, k);
      FlattenIsFrames(crc, rs[..Durable()], frames[..Durable()]);
    }

    lemma LogIsFrames(crc: C.Checksum, rs: seq<C.Record>)
      requires Valid() && Encodes(crc, rs)
      ensures Log() == C.FramesOf(crc, rs)
    {
      hide C.FrameOf;
      FlattenIsFrames(crc, rs[..|frames|], frames);
      if torn == [] {
        assert rs[..|frames|] == rs;
      } else {
        assert rs == rs[..|frames|] + [rs[|frames|]];
        C.FramesOfConcat(crc, rs[..|frames|], [rs[|frames|]]);
        assert C.FramesOf(crc, [rs[|frames|]]) == torn + C.FramesOf(crc, []);
      }
    }
  }

  /** The frames before and one more, which may be only half written. */
  ghost predicate Sent(frames: seq<seq<Byte>>, torn: seq<Byte>, before: seq<seq<Byte>>, data: seq<Byte>) {
    frames + (if torn == [] then [] else [torn]) == before + [data]
  }

  /** The log is the encoding of these records, the last of them perhaps only half written. */
  ghost predicate Encoded(crc: C.Checksum, rs: seq<C.Record>, frames: seq<seq<Byte>>, torn: seq<Byte>) {
    && |rs| == |frames| + (if torn == [] then 0 else 1)
    && (forall i :: 0 <= i < |frames| ==> frames[i] == C.FrameOf(crc, rs[i]))
    && (torn != [] ==> torn == C.FrameOf(crc, rs[|frames|]))
  }

  lemma {:induction false} FlattenIsFrames(crc: C.Checksum, rs: seq<C.Record>, frames: seq<seq<Byte>>)
    requires |rs| == |frames| && forall i :: 0 <= i < |rs| ==> frames[i] == C.FrameOf(crc, rs[i])
    ensures Flatten(frames) == C.FramesOf(crc, rs)
  {
    hide C.FrameOf;
    if rs != [] {
      var n := |rs| - 1;
      FlattenIsFrames(crc, rs[..n], frames[..n]);
      assert rs == rs[..n] + [rs[n]];
      C.FramesOfConcat(crc, rs[..n], [rs[n]]);
      assert C.FramesOf(crc, [rs[n]]) == C.FrameOf(crc, rs[n]) + C.FramesOf(crc, []);
    }
  }

  /** Exactly one answer was sent, to this request. */
  predicate Answered(before: seq<Ack>, after: seq<Ack>, request: nat) {
    |after| == |before| + 1 && after[..|before|] == before && after[|before|].request == request
  }

  lemma AnswerSent(before: seq<Ack>, request: nat, ok: bool)
    ensures Answered(before, before + [Ack(request, ok)], request)
    ensures (before + [Ack(request, ok)])[|before|].ok == ok
  {
  }
}
