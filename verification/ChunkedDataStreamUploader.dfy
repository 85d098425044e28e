/** The uploader object (net/chunked_data_stream_uploader.cc), with completion callbacks that call
    back into it. Every call from outside leaves the object as ChunkedUpload says. */
module ChunkedDataStreamUploader {
  import opened Wrappers
  import opened ChunkedUpload

  class Uploading {
    var pendingReadBufferLength: Option<nat>
    var pendingInternalRead: bool
    var isFinalChunk: bool
    var isFrontOfStream: bool
    var initializedSuccessfully: bool
    var isEof: bool
    var callback: Option<nat>
    var issued: nat
    ghost var answers: seq<Answer>
    ghost var cut: set<nat>
    ghost var taken: seq<byte>
    ghost var eofSignals: nat
    ghost var uploads: nat
    ghost var inits: seq<bool>

    ghost function Abs(): Uploader
      reads this
    {
      Uploader(pendingReadBufferLength, pendingInternalRead, isFinalChunk, isFrontOfStream, initializedSuccessfully,
               isEof, callback, issued, answers, cut, taken, eofSignals, uploads, inits)
    }

    constructor ()
      ensures Abs() == Fresh
    {
      pendingReadBufferLength, pendingInternalRead, isFinalChunk, isFrontOfStream := None, false, false, true;
      initializedSuccessfully, isEof, callback := false, false, None;
      issued, answers, cut, taken, eofSignals, uploads, inits := 0, [], {}, [], 0, 0, [];
    }

    /** The delegate fills the buffer; a result of zero or an error hands over nothing. */
    method OnRead(length: nat, data: seq<byte>) returns (bytesRead: nat)
      requires |data| <= length
      modifies `taken
      ensures bytesRead == |data| && taken == old(taken) + data
    {
      taken := taken + data;
      return |data|;
    }

    /** Base class. */
    method SetIsFinalChunk()
      requires !isEof
      modifies `isEof, `eofSignals
      ensures isEof && eofSignals == old(eofSignals) + 1
    {
      isEof, eofSignals := true, eofSignals + 1;
    }

    /** Base class: runs the callback of the pending read, which may call back in. */
    method OnReadCompleted(bytesRead: nat, ghost data: seq<byte>, whenDone: seq<Call>)
      requires initializedSuccessfully && callback.Some? && bytesRead == |data| && (bytesRead != 0 || isEof)
      requires Coordinated(Completed(Abs(), data)) && DoAll(Completed(Abs(), data), whenDone).Some?
      modifies this
      ensures Some(Abs()) == DoAll(Completed(old(Abs()), data), whenDone)
      decreases whenDone, 1
    {
      var read := callback.value;
      callback := None;
      answers := answers + [Answer(read, data, isEof, true)];
      PerformAll(whenDone);
    }

    /** The end of Upload: drops the buffer, and completes the read if it was pending. `u` is the object
        before the attempt. */
    method FinishRead(ghost u: Uploader, bytesRead: nat, ghost data: seq<byte>, whenDone: seq<Call>)
      requires Abs().(held := None, pendingInternalRead := false) == Attempt(u, data)
      requires u.held.Some? && !u.isEof && u.eofSignals == 0 && (u.isFinalChunk || data != [])
      requires pendingInternalRead == u.pendingInternalRead == u.callback.Some?
      requires pendingInternalRead ==> u.initialized
      requires bytesRead == |Delivery(u, data)|
      requires pendingInternalRead ==> DoAll(Completed(Attempt(u, data), Delivery(u, data)), whenDone).Some?
      modifies this
      ensures Some(Abs()) == if old(pendingInternalRead)
                             then DoAll(Completed(Attempt(u, data), Delivery(u, data)), whenDone)
                             else Some(Attempt(u, data))
      decreases whenDone, 2
    {
      pendingReadBufferLength := None;
      if pendingInternalRead {
        pendingInternalRead := false;
        AttemptCoordinated(u, data);
        OnReadCompleted(bytesRead, Delivery(u, data), whenDone);
      }
    }

    /** The result is None for ERR_IO_PENDING. */
    method Upload(data: seq<byte>, whenDone: seq<Call>) returns (bytesRead: Option<nat>)
      requires pendingReadBufferLength.Some? && |data| <= pendingReadBufferLength.value
      requires !isEof && eofSignals == 0 && (pendingInternalRead <==> callback.Some?)
      requires pendingInternalRead ==> initializedSuccessfully
      requires pendingInternalRead && (isFinalChunk || data != []) ==>
                 DoAll(Completed(Attempt(Abs(), data), Delivery(Abs(), data)), whenDone).Some?
      modifies this
      ensures bytesRead == if old(isFinalChunk) then Some(0) else if data == [] then None else Some(|data|)
      ensures Some(Abs()) ==
              if bytesRead.Some? && old(pendingInternalRead)
              then DoAll(Completed(Attempt(old(Abs()), data), Delivery(old(Abs()), data)), whenDone)
              else Some(Attempt(old(Abs()), data))
      decreases whenDone, 3
    {
      ghost var u := Abs();
      isFrontOfStream := false;
      uploads := uploads + 1;
      var count := 0;
      if isFinalChunk {
        SetIsFinalChunk();
      } else {
        count := OnRead(pendingReadBufferLength.value, data);
        if count <= 0 {
          assert old(taken) + data == old(taken);
          pendingInternalRead := true;
          return None;
        }
      }
      FinishRead(u, count, data, whenDone);
      return Some(count);
    }

    method InitInternal() returns (ok: bool)
      ensures ok == isFrontOfStream
    {
      if isFrontOfStream {
        return true;
      } else {
        return false;
      }
    }

    method ReadInternal(length: nat, data: seq<byte>, whenDone: seq<Call>) returns (bytesRead: Option<nat>)
      requires pendingReadBufferLength.None? && 0 < length && |data| <= length
      requires !isEof && eofSignals == 0 && !pendingInternalRead && callback.None?
      modifies this
      ensures bytesRead == if old(isFinalChunk) then Some(0) else if data == [] then None else Some(|data|)
      ensures Abs() == Attempt(old(Abs()).(held := Some(length)), data)
      decreases whenDone, 4
    {
      pendingReadBufferLength := Some(length);
      bytesRead := Upload(data, whenDone);
    }

    method ResetInternal()
      modifies this
      ensures Abs() == old(Abs()).(held := None, pendingInternalRead := false, isFinalChunk := false)
    {
      pendingReadBufferLength := None;
      pendingInternalRead := false;
      isFinalChunk := false;
    }

    /** Base class. */
    method ResetBase()
      modifies this
      ensures Abs() == Apply(old(Abs()), Reset)
    {
      initializedSuccessfully, isEof, eofSignals := false, false, 0;
      cut := cut + if callback.Some? then {callback.value} else {};
      callback := None;
      ResetInternal();
    }

    /** Base class. */
    method InitBase()
      modifies this
      ensures Abs() == Apply(old(Abs()), Init)
    {
      ResetBase();
      var ok := InitInternal();
      initializedSuccessfully := ok;
      inits := inits + [ok];
    }

    /** Base class: keeps the callback when the read stays pending. */
    method ReadBase(length: nat, data: seq<byte>, whenDone: seq<Call>)
      requires Coordinated(Abs()) && Enabled(Abs(), Read(length, data))
      modifies this
      ensures Abs() == Apply(old(Abs()), Read(length, data))
      decreases whenDone, 5
    {
      var read := issued;
      issued := issued + 1;
      var result := Some(0);
      ghost var final := isFinalChunk || isEof;
      if !isEof {
        result := ReadInternal(length, data, whenDone);
      }
      if result.None? {
        callback := Some(read);
      } else {
        answers := answers + [Answer(read, if final then [] else data, isEof, false)];
      }
    }

    method UploadWhenReady(isFinal: bool, data: seq<byte>, whenDone: seq<Call>)
      requires Coordinated(Abs()) && Do(Abs(), Call(Op.UploadWhenReady(isFinal, data), whenDone)).Some?
      modifies this
      ensures Some(Abs()) == Do(old(Abs()), Call(Op.UploadWhenReady(isFinal, data), whenDone))
      decreases whenDone, 4
    {
      StepCoordinated(Abs(), Op.UploadWhenReady(isFinal, data));
      isFinalChunk := isFinal;
      if pendingInternalRead {
        var bytesRead := Upload(data, whenDone);
      }
    }

    method Perform(c: Call)
      requires Coordinated(Abs()) && Do(Abs(), c).Some?
      modifies this
      ensures Some(Abs()) == Do(old(Abs()), c)
      decreases c, 6
    {
      match c.op
      case Init => InitBase();
      case Reset => ResetBase();
      case Read(length, data) => ReadBase(length, data, c.whenDone);
      case UploadWhenReady(isFinal, data) =>
        assert c == Call(Op.UploadWhenReady(isFinal, data), c.whenDone);
        UploadWhenReady(isFinal, data, c.whenDone);
    }

    /** The calls one after the other, each with whatever happens inside its completion callback. */
    method PerformAll(calls: seq<Call>)
      requires Coordinated(Abs()) && DoAll(Abs(), calls).Some?
      modifies this
      ensures Some(Abs()) == DoAll(old(Abs()), calls)
      decreases calls, 0
    {
      if calls == [] {
        return;
      }
      DoCoordinated(Abs(), calls[0]);
      Perform(calls[0]);
      PerformAll(calls[1..]);
    }
  }

  lemma {:induction false} DoCoordinated(u: Uploader, c: Call)
    requires Coordinated(u) && Do(u, c).Some?
    ensures Coordinated(Do(u, c).value)
  {
    StepCoordinated(u, c.op);
    if Completes(u, c.op) {
      NestedIsSequential(Apply(u, c.op), c.whenDone);
      ExecCoordinated(Apply(u, c.op), FlatAll(Apply(u, c.op), c.whenDone));
    }
  }

  lemma {:induction false} ExecCoordinated(u: Uploader, ops: seq<Op>)
    requires Coordinated(u) && Exec(u, ops).Some?
    ensures Coordinated(Exec(u, ops).value)
    decreases |ops|
  {
    if ops != [] {
      StepCoordinated(u, ops[0]);
      ExecCoordinated(Apply(u, ops[0]), ops[1..]);
    }
  }
}
