/** What a caller of the upload coordinator sees, told from the calls alone: a stream that is at its end
    from the first read it answers with the final chunk announced, and answers every other read as
    soon as it has bytes. The coordinator of ChunkedUpload, with its buffer and its flags, and the base
    class's, does just that. */
module ChunkedStream {
  import opened Wrappers
  import opened ChunkedUpload

  /** What the last UploadWhenReady said, if there has been one since the last reset. */
  function LastAnnounced(ops: seq<Op>): bool {
    ops != [] &&
    match ops[|ops| - 1]
    case UploadWhenReady(isFinal, _) => isFinal
    case Read(_, _) => LastAnnounced(ops[..|ops| - 1])
    case _ => false
  }

  predicate NothingRead(ops: seq<Op>) {
    forall op | op in ops :: !op.Read?
  }

  datatype Stream = Stream(
    ended: bool,
    waiting: Option<nat>,   // the read that waits for bytes
    length: nat,            // how many the last read asked for
    issued: nat,
    answers: seq<Answer>,
    cut: set<nat>,
    ready: bool,            // the last initialisation succeeded, and no reset came after it
    inits: seq<bool>)

  const Start := Stream(false, None, 0, 0, [], {}, false, [])

  function Next(s: Stream, final: bool, unread: bool, op: Op): Stream {
    match op
    case Init => Forgotten(s).(ready := unread, inits := s.inits + [unread])
    case Reset => Forgotten(s)
    case Read(length, data) =>
      var asked := s.(issued := s.issued + 1, length := length);
      if s.ended || final then asked.(ended := true, answers := s.answers + [Answer(s.issued, [], true, false)])
      else if data != [] then asked.(answers := s.answers + [Answer(s.issued, data, false, false)])
      else asked.(waiting := Some(s.issued))
    case UploadWhenReady(isFinal, data) =>
      if s.waiting.None? then s
      else if isFinal then
        s.(ended := true, waiting := None, answers := s.answers + [Answer(s.waiting.value, [], true, true)])
      else if data != [] then
        s.(waiting := None, answers := s.answers + [Answer(s.waiting.value, data, false, true)])
      else s
  }

  function Forgotten(s: Stream): Stream {
    s.(ended := false, waiting := None, ready := false,
       cut := s.cut + if s.waiting.Some? then {s.waiting.value} else {})
  }

  function StreamOf(ops: seq<Op>): Stream {
    if ops == [] then Start
    else
      var before := ops[..|ops| - 1];
      Next(StreamOf(before), LastAnnounced(before), NothingRead(before), ops[|ops| - 1])
  }

  predicate Told(s: Stream, final: bool, unread: bool, u: Uploader) {
    && u.isFinalChunk == final && u.isFrontOfStream == unread
    && u.isEof == s.ended && u.callback == s.waiting && u.issued == s.issued
    && u.held == (if s.waiting.Some? then Some(s.length) else None)
    && u.answers == s.answers && u.cut == s.cut
    && u.initialized == s.ready && u.inits == s.inits
    && (s.ended || s.waiting.Some? ==> !unread)
  }

  lemma OneMore(ops: seq<Op>, op: Op)
    ensures StreamOf(ops + [op]) == Next(StreamOf(ops), LastAnnounced(ops), NothingRead(ops), op)
    ensures LastAnnounced(ops + [op]) ==
            if op.UploadWhenReady? then op.isFinal else if op.Read? then LastAnnounced(ops) else false
    ensures NothingRead(ops + [op]) <==> NothingRead(ops) && !op.Read?
  {
    assert (ops + [op])[..|ops|] == ops;
  }

  lemma ReadTold(s: Stream, final: bool, unread: bool, u: Uploader, length: nat, data: seq<byte>)
    requires Coordinated(u) && Enabled(u, Read(length, data)) && Told(s, final, unread, u)
    ensures Told(Next(s, final, unread, Read(length, data)), final, false, Apply(u, Read(length, data)))
  {
  }

  lemma UploadTold(s: Stream, final: bool, unread: bool, u: Uploader, isFinal: bool, data: seq<byte>)
    requires Coordinated(u) && Told(s, final, unread, u)
    ensures Told(Next(s, final, unread, Op.UploadWhenReady(isFinal, data)), isFinal, unread,
                 Apply(u, Op.UploadWhenReady(isFinal, data)))
  {
  }

  lemma ResetTold(s: Stream, final: bool, unread: bool, u: Uploader, op: Op)
    requires Coordinated(u) && Told(s, final, unread, u) && (op.Init? || op.Reset?)
    ensures Told(Next(s, final, unread, op), false, unread, Apply(u, op))
  {
  }

  predicate ToldBy(ops: seq<Op>, u: Uploader) {
    Told(StreamOf(ops), LastAnnounced(ops), NothingRead(ops), u)
  }

  lemma StepTold(ops: seq<Op>, u: Uploader, op: Op)
    requires Coordinated(u) && Enabled(u, op) && ToldBy(ops, u)
    ensures ToldBy(ops + [op], Apply(u, op))
  {
    OneMore(ops, op);
    match op
    case Read(length, data) => ReadTold(StreamOf(ops), LastAnnounced(ops), NothingRead(ops), u, length, data);
    case UploadWhenReady(isFinal, data) =>
      UploadTold(StreamOf(ops), LastAnnounced(ops), NothingRead(ops), u, isFinal, data);
    case _ => ResetTold(StreamOf(ops), LastAnnounced(ops), NothingRead(ops), u, op);
  }

  lemma {:induction false} RunTold(done: seq<Op>, u: Uploader, ops: seq<Op>)
    requires Coordinated(u) && ToldBy(done, u) && Exec(u, ops).Some?
    ensures ToldBy(done + ops, Exec(u, ops).value)
    decreases |ops|
  {
    if ops == [] {
      assert done + ops == done;
    } else {
      StepTold(done, u, ops[0]);
      StepCoordinated(u, ops[0]);
      RunTold(done + [ops[0]], Apply(u, ops[0]), ops[1..]);
      assert done + [ops[0]] + ops[1..] == done + ops;
    }
  }

  /** Over every run: what the coordinator has answered, to which read, when and with what, whether it
      is at end of file or has a read waiting, and how initialisation went, is what the stream does. */
  lemma RunIsStream(ops: seq<Op>, u: Uploader)
    requires Exec(Fresh, ops) == Some(u)
    ensures var s := StreamOf(ops);
            && u.answers == s.answers && u.callback == s.waiting && u.isEof == s.ended && u.cut == s.cut
            && u.issued == s.issued && u.inits == s.inits && u.initialized == s.ready
            && u.isFinalChunk == LastAnnounced(ops) && u.isFrontOfStream == NothingRead(ops)
            && u.held == (if s.waiting.Some? then Some(s.length) else None)
  {
    RunTold([], Fresh, ops);
    assert [] + ops == ops;
  }

  /** A read is answered at once, without bytes and at end of file, once the final chunk has been
      announced, read waiting or not at the time; otherwise at once if there are bytes, with them. */
  lemma FinalChunkEndsStream(ops: seq<Op>, u: Uploader, length: nat, data: seq<byte>)
    requires Exec(Fresh, ops) == Some(u) && Enabled(u, Read(length, data))
    ensures var v := Apply(u, Read(length, data));
            if u.isEof || LastAnnounced(ops) then
              v.isEof && v.answers == u.answers + [Answer(u.issued, [], true, false)]
            else if data != [] then v.answers == u.answers + [Answer(u.issued, data, false, false)]
            else v.answers == u.answers && v.callback == Some(u.issued)
  {
    RunIsStream(ops, u);
  }
}
