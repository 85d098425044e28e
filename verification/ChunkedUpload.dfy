/** The coordinator between a body stream and the network layer (net/chunked_data_stream_uploader.cc),
    with as much of its base class as its calls need: the base class keeps the callback of one
    outstanding read, stops reading at end of file, and forgets both when it is reset. */
module ChunkedUpload {
  import opened Wrappers

  type byte = bv8

  /** How a read was answered: with data, or, at end of file, with none. */
  datatype Answer = Answer(read: nat, data: seq<byte>, atEof: bool, byCallback: bool)

  datatype Uploader = Uploader(
    held: Option<nat>,         // length of the pending read's buffer
    pendingInternalRead: bool,
    isFinalChunk: bool,
    isFrontOfStream: bool,
    initialized: bool,         // base class
    isEof: bool,               // base class
    callback: Option<nat>,     // base class: the read whose callback it keeps
    issued: nat,               // history from here: reads issued
    answers: seq<Answer>,
    cut: set<nat>,             // reads cut off by a reset
    taken: seq<byte>,          // what OnRead has handed over, in order
    eofSignals: nat,           // end-of-file signals since the last reset
    uploads: nat,              // upload attempts
    inits: seq<bool>)          // results of initialisation

  const Fresh := Uploader(None, false, false, true, false, false, None, 0, [], {}, [], 0, 0, [])

  /** A call from outside. `data` is what OnRead hands over if it is asked; nothing for its results
      up to zero. */
  datatype Op =
    | Init
    | Read(length: nat, data: seq<byte>)
    | UploadWhenReady(isFinal: bool, data: seq<byte>)
    | Reset

  /** The network layer initialises before it reads, and has one read outstanding at a time. */
  predicate Enabled(u: Uploader, op: Op) {
    match op
    case Init => true
    case Read(length, data) => u.initialized && u.callback.None? && 0 < length && |data| <= length
    case UploadWhenReady(_, data) => u.held.Some? ==> |data| <= u.held.value
    case Reset => true
  }

  function Answered(u: Uploader, read: nat, data: seq<byte>, byCallback: bool): Uploader {
    u.(answers := u.answers + [Answer(read, data, u.isEof, byCallback)])
  }

  function AfterReset(u: Uploader): Uploader {
    u.(initialized := false, isEof := false, callback := None, eofSignals := 0,
       cut := u.cut + if u.callback.Some? then {u.callback.value} else {},
       held := None, pendingInternalRead := false, isFinalChunk := false)
  }

  function AfterRead(u: Uploader, length: nat, data: seq<byte>): Uploader {
    var v := u.(issued := u.issued + 1);
    if u.isEof then Answered(v, u.issued, [], false)
    else
      var w := v.(isFrontOfStream := false, uploads := u.uploads + 1);
      if u.isFinalChunk then Answered(w.(isEof := true, eofSignals := u.eofSignals + 1), u.issued, [], false)
      else if data == [] then w.(held := Some(length), pendingInternalRead := true, callback := Some(u.issued))
      else Answered(w.(taken := u.taken + data), u.issued, data, false)
  }

  function AfterUpload(u: Uploader, isFinal: bool, data: seq<byte>): Uploader {
    var v := u.(isFinalChunk := isFinal);
    if !u.pendingInternalRead || u.callback.None? then v
    else
      var w := v.(isFrontOfStream := false, uploads := u.uploads + 1);
      var done := w.(held := None, pendingInternalRead := false, callback := None);
      if isFinal then Answered(done.(isEof := true, eofSignals := u.eofSignals + 1), u.callback.value, [], true)
      else if data == [] then w
      else Answered(done.(taken := u.taken + data), u.callback.value, data, true)
  }

  /** What a call comes to, as far as it goes before any completion callback runs. */
  function Apply(u: Uploader, op: Op): Uploader {
    match op
    case Init => AfterReset(u).(initialized := u.isFrontOfStream, inits := u.inits + [u.isFrontOfStream])
    case Reset => AfterReset(u)
    case Read(length, data) => AfterRead(u, length, data)
    case UploadWhenReady(isFinal, data) => AfterUpload(u, isFinal, data)
  }

  function Exec(u: Uploader, ops: seq<Op>): Option<Uploader>
    decreases |ops|
  {
    if ops == [] then Some(u)
    else if Enabled(u, ops[0]) then Exec(Apply(u, ops[0]), ops[1..])
    else None
  }

  // ---------------------------------------------------------------------------------------
  // Invariants
  // ---------------------------------------------------------------------------------------

  /** A read is pending exactly when a buffer is held, and exactly when the base class keeps a callback. */
  predicate Coordinated(u: Uploader) {
    && (u.pendingInternalRead <==> u.held.Some?)
    && (u.pendingInternalRead <==> u.callback.Some?)
    && (u.pendingInternalRead ==> u.initialized && !u.isEof)
    && u.eofSignals == (if u.isEof then 1 else 0)
    && (u.isFrontOfStream <==> u.uploads == 0)
  }

  function Count(answers: seq<Answer>, read: nat): nat {
    if answers == [] then 0
    else Count(answers[..|answers| - 1], read) + if answers[|answers| - 1].read == read then 1 else 0
  }

  /** In how many ways `read` has been dealt with: answered, cut off, or still outstanding. */
  function Fates(u: Uploader, read: nat): nat {
    Count(u.answers, read) + (if read in u.cut then 1 else 0) + (if u.callback == Some(read) then 1 else 0)
  }

  ghost predicate Accounted(u: Uploader) {
    forall read: nat :: Fates(u, read) == if read < u.issued then 1 else 0
  }

  function Delivered(answers: seq<Answer>): seq<byte> {
    if answers == [] then [] else Delivered(answers[..|answers| - 1]) + answers[|answers| - 1].data
  }

  /** Answers come in the order of their reads, and one without data only at end of file. */
  predicate AnswersOk(u: Uploader) {
    && (forall i, j | 0 <= i < j < |u.answers| :: u.answers[i].read < u.answers[j].read)
    && (forall i | 0 <= i < |u.answers| :: u.answers[i].read < u.issued)
    && (forall i | 0 <= i < |u.answers| && u.callback.Some? :: u.answers[i].read < u.callback.value)
    && (u.callback.Some? ==> u.callback.value < u.issued)
    && (forall i | 0 <= i < |u.answers| :: u.answers[i].data == [] <==> u.answers[i].atEof)
  }

  ghost predicate Inv(u: Uploader) {
    Coordinated(u) && Accounted(u) && AnswersOk(u) && Delivered(u.answers) == u.taken
  }

  lemma CountOneMore(answers: seq<Answer>, a: Answer, read: nat)
    ensures Count(answers + [a], read) == Count(answers, read) + if a.read == read then 1 else 0
    ensures Delivered(answers + [a]) == Delivered(answers) + a.data
  {
    assert (answers + [a])[..|answers|] == answers;
  }

  lemma AnsweredFates(u: Uploader, answered: nat, data: seq<byte>, byCallback: bool, read: nat)
    ensures Fates(Answered(u, answered, data, byCallback), read) == Fates(u, read) + if answered == read then 1 else 0
    ensures Delivered(Answered(u, answered, data, byCallback).answers) == Delivered(u.answers) + data
  {
    CountOneMore(u.answers, Answer(answered, data, u.isEof, byCallback), read);
  }

  lemma ReadFates(u: Uploader, length: nat, data: seq<byte>, read: nat)
    requires u.callback.None?
    ensures Fates(AfterRead(u, length, data), read) == Fates(u, read) + if read == u.issued then 1 else 0
    ensures Delivered(u.answers) == u.taken ==>
              Delivered(AfterRead(u, length, data).answers) == AfterRead(u, length, data).taken
  {
    var v := AfterRead(u, length, data);
    if v.answers != u.answers {
      var given := if u.isEof || u.isFinalChunk then [] else data;
      var before := v.(answers := u.answers);
      AnsweredFates(before, u.issued, given, false, read);
      assert v == Answered(before, u.issued, given, false);
      assert Fates(before, read) == Fates(u, read);
    }
  }

  lemma UploadFates(u: Uploader, isFinal: bool, data: seq<byte>, read: nat)
    ensures Fates(AfterUpload(u, isFinal, data), read) == Fates(u, read)
    ensures Delivered(u.answers) == u.taken ==>
              Delivered(AfterUpload(u, isFinal, data).answers) == AfterUpload(u, isFinal, data).taken
  {
    var v := AfterUpload(u, isFinal, data);
    if v.answers != u.answers {
      var given := if isFinal then [] else data;
      var before := v.(answers := u.answers);
      AnsweredFates(before, u.callback.value, given, true, read);
      assert v == Answered(before, u.callback.value, given, true);
    }
  }

  lemma StepFates(u: Uploader, op: Op, read: nat)
    requires Coordinated(u) && AnswersOk(u) && Enabled(u, op)
    requires Fates(u, read) == if read < u.issued then 1 else 0
    ensures Fates(Apply(u, op), read) == if read < Apply(u, op).issued then 1 else 0
  {
    match op
    case Read(length, data) => ReadFates(u, length, data, read);
    case UploadWhenReady(isFinal, data) => UploadFates(u, isFinal, data, read);
    case _ =>
  }

  lemma AnsweredOk(u: Uploader, read: nat, data: seq<byte>, byCallback: bool)
    requires AnswersOk(u) && u.callback.None? && read < u.issued && (data == [] <==> u.isEof)
    requires forall i | 0 <= i < |u.answers| :: u.answers[i].read < read
    ensures AnswersOk(Answered(u, read, data, byCallback))
  {
  }

  lemma ReadAnswers(u: Uploader, length: nat, data: seq<byte>)
    requires AnswersOk(u) && u.callback.None?
    ensures AnswersOk(AfterRead(u, length, data))
  {
    var v := AfterRead(u, length, data);
    if v.answers != u.answers {
      AnsweredOk(v.(answers := u.answers), u.issued, if u.isEof || u.isFinalChunk then [] else data, false);
    }
  }

  lemma UploadAnswers(u: Uploader, isFinal: bool, data: seq<byte>)
    requires AnswersOk(u) && (u.pendingInternalRead ==> !u.isEof)
    ensures AnswersOk(AfterUpload(u, isFinal, data))
  {
    var v := AfterUpload(u, isFinal, data);
    if v.answers != u.answers {
      AnsweredOk(v.(answers := u.answers), u.callback.value, if isFinal then [] else data, true);
    }
  }

  lemma StepAnswers(u: Uploader, op: Op)
    requires Coordinated(u) && AnswersOk(u) && Enabled(u, op)
    ensures AnswersOk(Apply(u, op))
  {
    match op
    case Read(length, data) => ReadAnswers(u, length, data);
    case UploadWhenReady(isFinal, data) => UploadAnswers(u, isFinal, data);
    case _ =>
  }

  lemma StepBytes(u: Uploader, op: Op)
    requires Coordinated(u) && Enabled(u, op) && Delivered(u.answers) == u.taken
    ensures Delivered(Apply(u, op).answers) == Apply(u, op).taken
  {
    match op
    case Read(length, data) => ReadFates(u, length, data, 0);
    case UploadWhenReady(isFinal, data) => UploadFates(u, isFinal, data, 0);
    case _ =>
  }

  lemma StepAccounted(u: Uploader, op: Op)
    requires Coordinated(u) && AnswersOk(u) && Accounted(u) && Enabled(u, op)
    ensures Accounted(Apply(u, op))
  {
    forall read: nat ensures Fates(Apply(u, op), read) == if read < Apply(u, op).issued then 1 else 0 {
      StepFates(u, op, read);
    }
  }

  lemma StepInv(u: Uploader, op: Op)
    requires Inv(u) && Enabled(u, op)
    ensures Inv(Apply(u, op))
  {
    StepCoordinated(u, op);
    StepAnswers(u, op);
    StepBytes(u, op);
    StepAccounted(u, op);
  }

  lemma {:induction false} ExecInv(u: Uploader, ops: seq<Op>)
    requires Inv(u)
    ensures Exec(u, ops).Some? ==> Inv(Exec(u, ops).value)
    decreases |ops|
  {
    if ops != [] && Enabled(u, ops[0]) {
      StepInv(u, ops[0]);
      ExecInv(Apply(u, ops[0]), ops[1..]);
    }
  }

  // ---------------------------------------------------------------------------------------
  // Main results over runs
  // ---------------------------------------------------------------------------------------

  /** Every read issued is answered once, or cut off by a reset, or still outstanding. */
  lemma EveryReadHasOneFate(ops: seq<Op>, u: Uploader, read: nat)
    requires Exec(Fresh, ops) == Some(u) && read < u.issued
    ensures Count(u.answers, read) <= 1
    ensures Count(u.answers, read) == 1 <==> read !in u.cut && u.callback != Some(read)
    ensures read in u.cut ==> u.callback != Some(read)
  {
    FreshInv();
    ExecInv(Fresh, ops);
    assert Fates(u, read) == 1;
  }

  lemma FreshInv()
    ensures Inv(Fresh)
  {
    forall read: nat ensures Fates(Fresh, read) == 0 {}
  }

  /** The network gets, in the order of its reads, exactly the bytes that OnRead handed over; an
      answer without bytes says end of file; end of file is signalled at most once between resets. */
  lemma BytesInOrder(ops: seq<Op>, u: Uploader)
    requires Exec(Fresh, ops) == Some(u)
    ensures Delivered(u.answers) == u.taken && AnswersOk(u)
    ensures u.eofSignals <= 1 && (u.eofSignals == 1 <==> u.isEof)
  {
    FreshInv();
    ExecInv(Fresh, ops);
  }

  predicate NoReset(ops: seq<Op>) {
    Reset !in ops && Init !in ops
  }

  /** After end of file nothing more is taken from the stream until a reset. */
  lemma {:induction false} NothingAfterEof(u: Uploader, ops: seq<Op>)
    requires Coordinated(u) && u.isEof && NoReset(ops) && Exec(u, ops).Some?
    ensures var v := Exec(u, ops).value; v.isEof && v.taken == u.taken && v.uploads == u.uploads
    decreases |ops|
  {
    if ops != [] {
      assert ops[0] in ops;
      StepCoordinated(u, ops[0]);
      NothingAfterEof(Apply(u, ops[0]), ops[1..]);
    }
  }

  lemma StepCoordinated(u: Uploader, op: Op)
    requires Coordinated(u) && Enabled(u, op)
    ensures Coordinated(Apply(u, op))
  {
  }

  /** Initialisation succeeds exactly until the first upload attempt, across resets. */
  lemma {:induction false} InitOnlyBeforeFirstUpload(u: Uploader, ops: seq<Op>)
    requires Coordinated(u) && Exec(u, ops).Some?
    ensures var v := Exec(u, ops).value;
            |u.inits| <= |v.inits| && v.inits[..|u.inits|] == u.inits && u.uploads <= v.uploads
    ensures var v := Exec(u, ops).value;
            u.uploads > 0 ==> forall k | |u.inits| <= k < |v.inits| :: !v.inits[k]
    ensures var v := Exec(u, ops).value;
            v.uploads == 0 ==> forall k | |u.inits| <= k < |v.inits| :: v.inits[k]
    decreases |ops|
  {
    if ops != [] {
      var w := Apply(u, ops[0]);
      StepCoordinated(u, ops[0]);
      InitOnlyBeforeFirstUpload(w, ops[1..]);
      var v := Exec(u, ops).value;
      assert w.inits[..|u.inits|] == u.inits;
      assert v.inits[..|u.inits|] == v.inits[..|w.inits|][..|u.inits|];
      if |w.inits| > |u.inits| {
        assert v.inits[|u.inits|] == v.inits[..|w.inits|][|u.inits|] == u.isFrontOfStream;
      }
    }
  }

  // ---------------------------------------------------------------------------------------
  // Completion callbacks that call back in
  // ---------------------------------------------------------------------------------------

  /** A call, and what the completion callback does in turn if this call runs it. */
  datatype Call = Call(op: Op, whenDone: seq<Call>)

  /** The call answers the pending read, and so runs its callback. */
  predicate Completes(u: Uploader, op: Op) {
    op.UploadWhenReady? && u.pendingInternalRead && u.callback.Some? && (op.isFinal || op.data != [])
  }

  /** The state once the call and everything inside it is over; None if something in it is not enabled. */
  function Do(u: Uploader, c: Call): Option<Uploader>
    decreases c
  {
    if !Enabled(u, c.op) then None
    else if Completes(u, c.op) then DoAll(Apply(u, c.op), c.whenDone)
    else Some(Apply(u, c.op))
  }

  function DoAll(u: Uploader, cs: seq<Call>): Option<Uploader>
    decreases cs
  {
    if cs == [] then Some(u)
    else
      match Do(u, cs[0])
      case None => None
      case Some(v) => DoAll(v, cs[1..])
  }

  /** The calls in the order in which they begin. */
  function Flat(u: Uploader, c: Call): seq<Op>
    decreases c
  {
    [c.op] + if Completes(u, c.op) then FlatAll(Apply(u, c.op), c.whenDone) else []
  }

  function FlatAll(u: Uploader, cs: seq<Call>): seq<Op>
    decreases cs
  {
    if cs == [] then []
    else Flat(u, cs[0]) + match Do(u, cs[0])
                          case None => []
                          case Some(v) => FlatAll(v, cs[1..])
  }

  lemma {:induction false} ExecConcat(u: Uploader, xs: seq<Op>, ys: seq<Op>)
    requires Exec(u, xs).Some?
    ensures Exec(u, xs + ys) == Exec(Exec(u, xs).value, ys)
    decreases |xs|
  {
    if xs == [] {
      assert xs + ys == ys;
    } else {
      assert (xs + ys)[1..] == xs[1..] + ys;
      ExecConcat(Apply(u, xs[0]), xs[1..], ys);
    }
  }

  /** Calls made from inside a completion callback, to any depth, come to what the same calls come
      to one after the other. So what holds over runs holds with re-entrant callbacks. */
  lemma {:induction false} NestedIsSequential(u: Uploader, cs: seq<Call>)
    requires DoAll(u, cs).Some?
    ensures Exec(u, FlatAll(u, cs)) == DoAll(u, cs)
    decreases cs
  {
    if cs != [] {
      var v := Do(u, cs[0]).value;
      OneNestedIsSequential(u, cs[0]);
      NestedIsSequential(v, cs[1..]);
      ExecConcat(u, Flat(u, cs[0]), FlatAll(v, cs[1..]));
    }
  }

  lemma {:induction false} OneNestedIsSequential(u: Uploader, c: Call)
    requires Do(u, c).Some?
    ensures Exec(u, Flat(u, c)) == Do(u, c)
    decreases c
  {
    assert Flat(u, c)[1..] == if Completes(u, c.op) then FlatAll(Apply(u, c.op), c.whenDone) else [];
    if Completes(u, c.op) {
      NestedIsSequential(Apply(u, c.op), c.whenDone);
    }
  }

  /** Upload, up to the completion callback. */
  function Attempt(u: Uploader, data: seq<byte>): Uploader {
    var w := u.(isFrontOfStream := false, uploads := u.uploads + 1);
    if u.isFinalChunk then w.(isEof := true, eofSignals := u.eofSignals + 1, held := None, pendingInternalRead := false)
    else if data == [] then w.(pendingInternalRead := true)
    else w.(taken := u.taken + data, held := None, pendingInternalRead := false)
  }

  /** The base class takes its callback out before it runs it. */
  function Completed(u: Uploader, data: seq<byte>): Uploader
    requires u.callback.Some?
  {
    Answered(u.(callback := None), u.callback.value, data, true)
  }

  /** What an attempt at a pending read delivers. */
  function Delivery(u: Uploader, data: seq<byte>): seq<byte> {
    if u.isFinalChunk then [] else data
  }

  lemma AttemptCoordinated(u: Uploader, data: seq<byte>)
    requires u.held.Some? && !u.isEof && u.eofSignals == 0 && u.pendingInternalRead && u.callback.Some?
    requires u.initialized && (u.isFinalChunk || data != [])
    ensures Coordinated(Completed(Attempt(u, data), Delivery(u, data)))
  {
  }
}
