/**
 How commitments travel from the gRPC stream to the select loop of `SubmitBidGRPC`: a receiving
 goroutine, an unbuffered channel, an error channel with one slot, a close, and a select that
 takes any branch that is ready.
 */
module CommitmentStream {
  import opened Types
  import opened Bids

  datatype Producer = Receiving | Sending(c: Commitment) | Failing(eof: bool) | Closing | Done

  datatype Consumer = Selecting | Marking | Left(exit: Exit)

  /** How the stream goes on after its last commitment; a silent one keeps `Recv` waiting. */
  datatype Ending = Eof | Broken | Silent

  /** `script` and `ending` are what the stream still has to give; `received` what `Recv` has given. */
  datatype State = State(
    script: seq<Commitment>,
    ending: Ending,
    producer: Producer,
    errCh: Option<bool>,
    closed: bool,
    ctxDone: bool,
    consumer: Consumer,
    received: seq<Commitment>,
    commitments: seq<Commitment>)

  datatype Step =
    | Cancel         // the context times out
    | RecvCommitment
    | RecvEnd        // the stream ends, by EOF or by an error
    | RecvCancelled  // Recv reports the cancelled context, whatever was still to come
    | PutError       // errCh <- err
    | CloseChannel   // close(commitmentsCh)
    | HandOver       // commitmentsCh <- commitment meets the select
    | FinishMarking  // the loop body has updated the store
    | SelectDone     // case <-ctx.Done()
    | SelectError    // case err := <-errCh
    | SelectClosed   // case _, ok := <-commitmentsCh with !ok

  function Start(script: seq<Commitment>, ending: Ending): State {
    State(script, ending, Receiving, None, false, false, Selecting, [], [])
  }

  predicate Enabled(s: State, step: Step) {
    match step
    case Cancel => !s.ctxDone
    case RecvCommitment => s.producer.Receiving? && s.script != []
    case RecvEnd => s.producer.Receiving? && s.script == [] && !s.ending.Silent?
    case RecvCancelled => s.producer.Receiving? && s.ctxDone
    case PutError => s.producer.Failing? && s.errCh.None?
    case CloseChannel => s.producer.Closing?
    case HandOver => s.producer.Sending? && s.consumer.Selecting?
    case FinishMarking => s.consumer.Marking?
    case SelectDone => s.consumer.Selecting? && s.ctxDone
    case SelectError => s.consumer.Selecting? && s.errCh.Some?
    case SelectClosed => s.consumer.Selecting? && s.closed
  }

  function Next(s: State, step: Step): State
    requires Enabled(s, step)
  {
    match step
    case Cancel => s.(ctxDone := true)
    case RecvCommitment =>
      s.(script := s.script[1..], received := s.received + [s.script[0]], producer := Sending(s.script[0]))
    case RecvEnd => s.(producer := Failing(s.ending.Eof?))
    case RecvCancelled => s.(producer := Failing(false))
    case PutError => s.(errCh := Some(s.producer.eof), producer := Closing)
    case CloseChannel => s.(closed := true, producer := Done)
    case HandOver => s.(commitments := s.commitments + [s.producer.c], producer := Receiving, consumer := Marking)
    case FinishMarking => s.(consumer := Selecting)
    case SelectDone => s.(consumer := Left(CtxDone))
    case SelectError => s.(errCh := None, consumer := Left(StreamError(s.errCh.value)))
    case SelectClosed => s.(consumer := Left(ChannelClosed))
  }

  /** The state a schedule leads to, if every step of it is possible. */
  function Exec(s: State, schedule: seq<Step>): Option<State> {
    if schedule == [] then Some(s) else
    match Exec(s, schedule[..|schedule| - 1])
    case None => None
    case Some(t) =>
      var step := schedule[|schedule| - 1];
      if Enabled(t, step) then Some(Next(t, step)) else None
  }

  ghost predicate Invariant(s: State, script: seq<Commitment>, ending: Ending) {
    && s.ending == ending
    && s.received + s.script == script
    && s.received == s.commitments + (if s.producer.Sending? then [s.producer.c] else [])
    && (s.closed <==> s.producer.Done?)
    && (s.errCh.Some? ==> s.producer.Closing? || s.producer.Done?)
    && ((s.producer.Closing? || s.producer.Done?) && !(s.consumer.Left? && s.consumer.exit.StreamError?) ==> s.errCh.Some?)
    && ((s.producer == Failing(true) || s.errCh == Some(true) || s.consumer == Left(StreamError(true))) ==>
          ending.Eof? && s.script == [])
    && (s.consumer.Left? ==>
          match s.consumer.exit
          case CtxDone => s.ctxDone
          case StreamError(_) => s.producer.Closing? || s.producer.Done?
          case ChannelClosed => s.closed)
  }

  lemma NextKeepsInvariant(s: State, step: Step, script: seq<Commitment>, ending: Ending)
    requires Invariant(s, script, ending) && Enabled(s, step)
    ensures Invariant(Next(s, step), script, ending)
  {
    if step.RecvCommitment? {
      assert s.script == [s.script[0]] + s.script[1..];
      assert s.received + [s.script[0]] + s.script[1..] == script;
    }
  }

  lemma {:induction false} ExecKeepsInvariant(script: seq<Commitment>, ending: Ending, schedule: seq<Step>)
    requires Exec(Start(script, ending), schedule).Some?
    ensures Invariant(Exec(Start(script, ending), schedule).value, script, ending)
  {
    if schedule != [] {
      var before := schedule[..|schedule| - 1];
      ExecKeepsInvariant(script, ending, before);
      NextKeepsInvariant(Exec(Start(script, ending), before).value, schedule[|schedule| - 1], script, ending);
    }
  }

  /**
   Nothing is reordered or invented, and at most one commitment is lost: under every schedule the
   collected list is a prefix of what the stream handed out, missing at most the last one. An exit
   by the error channel or by the closed channel misses none; a clean end means the whole script.
   */
  lemma CollectedIsPrefix(script: seq<Commitment>, ending: Ending, schedule: seq<Step>)
    requires Exec(Start(script, ending), schedule).Some?
    ensures var s := Exec(Start(script, ending), schedule).value;
            && s.commitments <= s.received <= script
            && |s.received| <= |s.commitments| + 1
            && (s.consumer.Left? && !s.consumer.exit.CtxDone? ==> s.commitments == s.received)
            && (s.consumer == Left(StreamError(true)) ==> s.commitments == script && ending.Eof?)
  {
    ExecKeepsInvariant(script, ending, schedule);
  }

  /** The error channel's one slot is always free when the producer wants it. */
  lemma ErrorSlotIsFree(script: seq<Commitment>, ending: Ending, schedule: seq<Step>)
    requires Exec(Start(script, ending), schedule).Some?
    ensures var s := Exec(Start(script, ending), schedule).value;
            s.producer.Failing? ==> Enabled(s, PutError)
  {
    ExecKeepsInvariant(script, ending, schedule);
  }

  /** Only a cancellation can end the wait for a stream that has fallen silent. */
  predicate Waits(s: State) {
    s.consumer.Selecting? && s.producer.Receiving? && s.script == [] && s.ending.Silent? && !s.ctxDone
  }

  /** The next step of a system whose consumer is still in its loop; `leave` is its way out. */
  function Progress(s: State, leave: Step): Step {
    if s.consumer.Marking? then FinishMarking else
    match s.producer
    case Receiving => if s.script != [] then RecvCommitment else if s.ending.Silent? then RecvCancelled else RecvEnd
    case Sending(_) => HandOver
    case Failing(_) => PutError
    case Closing => CloseChannel
    case Done => leave
  }

  /** While the consumer is in its loop, a step other than a cancellation is possible unless the stream is silent. */
  lemma NoDeadlock(script: seq<Commitment>, ending: Ending, schedule: seq<Step>)
    requires Exec(Start(script, ending), schedule).Some?
    ensures var s := Exec(Start(script, ending), schedule).value;
            !s.consumer.Left? ==> ((exists step: Step :: Enabled(s, step) && !step.Cancel?) <==> !Waits(s))
  {
    var s := Exec(Start(script, ending), schedule).value;
    ExecKeepsInvariant(script, ending, schedule);
    if !s.consumer.Left? && !Waits(s) {
      assert Enabled(s, Progress(s, SelectClosed)) && !Progress(s, SelectClosed).Cancel?;
    }
  }

  /** An upper bound on the steps still to come. */
  function Remaining(s: State): nat {
    4 * |s.script|
    + (match s.producer
       case Receiving => 3
       case Sending(_) => 5
       case Failing(_) => 2
       case Closing => 1
       case Done => 0)
    + (match s.consumer case Marking => 2 case Selecting => 1 case Left(_) => 0)
    + (if s.ctxDone then 0 else 1)
  }

  lemma NextUsesUp(s: State, step: Step)
    requires Enabled(s, step)
    ensures Remaining(Next(s, step)) < Remaining(s)
  {
    if step.RecvCommitment? {
      assert |s.script[1..]| == |s.script| - 1;
    }
  }

  /** Every schedule is finite, so with the timeout and `LeftBehind` the submission always returns. */
  lemma {:induction false} ScheduleIsBounded(script: seq<Commitment>, ending: Ending, schedule: seq<Step>)
    requires Exec(Start(script, ending), schedule).Some?
    ensures |schedule| + Remaining(Exec(Start(script, ending), schedule).value) <= 4 * |script| + 5
  {
    if schedule != [] {
      var before := schedule[..|schedule| - 1];
      ScheduleIsBounded(script, ending, before);
      NextUsesUp(Exec(Start(script, ending), before).value, schedule[|schedule| - 1]);
    }
  }

  predicate Stuck(s: State) {
    forall step: Step :: !Enabled(s, step)
  }

  /**
   Where everything has come to rest the consumer has left, and the receiving goroutine is left
   behind, blocked for good on its channel, exactly if a received commitment was not collected;
   that only happens after a cancellation.
   */
  lemma LeftBehind(script: seq<Commitment>, ending: Ending, schedule: seq<Step>)
    requires Exec(Start(script, ending), schedule).Some?
    requires Stuck(Exec(Start(script, ending), schedule).value)
    ensures var s := Exec(Start(script, ending), schedule).value;
            && s.consumer.Left?
            && (s.producer.Done? || s.producer.Sending?)
            && (s.producer.Sending? <==> s.commitments != s.received)
            && (s.producer.Sending? ==> s.consumer == Left(CtxDone))
  {
    var s := Exec(Start(script, ending), schedule).value;
    ExecKeepsInvariant(script, ending, schedule);
    assert !Enabled(s, Progress(s, SelectClosed)) && !Enabled(s, Cancel) && !Enabled(s, RecvCancelled);
    assert !Enabled(s, RecvEnd) && !Enabled(s, RecvCommitment) && !Enabled(s, PutError) && !Enabled(s, CloseChannel);
    assert |s.received| == |s.commitments| + if s.producer.Sending? then 1 else 0;
  }

  /** What the caller of the submission sees. */
  function SessionOf(s: State): Session
    requires s.consumer.Left?
  {
    Streamed(s.commitments, s.consumer.exit)
  }

  /**
   Whether a finished submission reports an error. It reports none exactly if it left by the closed
   channel or read an EOF; having left by the closed channel it has all that was received, and what
   the stream ended with lies unread in the error channel.
   */
  lemma CleanExitIff(script: seq<Commitment>, ending: Ending, schedule: seq<Step>)
    requires Exec(Start(script, ending), schedule).Some?
    requires Exec(Start(script, ending), schedule).value.consumer.Left?
    ensures var s := Exec(Start(script, ending), schedule).value;
            && (SessionError(SessionOf(s)).None? <==>
                s.consumer == Left(ChannelClosed) || (ending.Eof? && s.consumer == Left(StreamError(true))))
            && (s.consumer == Left(ChannelClosed) ==> s.commitments == s.received && s.errCh.Some?)
            && (s.consumer == Left(ChannelClosed) && !ending.Eof? ==> s.errCh == Some(false))
  {
    var s := Exec(Start(script, ending), schedule).value;
    ExecKeepsInvariant(script, ending, schedule);
    if s.errCh.Some? {
      var eof := s.errCh.value;
      assert s.errCh == if eof then Some(true) else Some(false);
    }
  }

  lemma {:induction false} ExecOn(s: State, a: seq<Step>, t: State, b: seq<Step>)
    requires Exec(s, a) == Some(t)
    ensures Exec(s, a + b) == Exec(t, b)
  {
    if b == [] {
      assert a + b == a;
    } else {
      var last := |b| - 1;
      ExecOn(s, a, t, b[..last]);
      assert (a + b)[..|a + b| - 1] == a + b[..last];
    }
  }

  /** From any state of the loop on, without a cancellation, the consumer may take either way out at the end. */
  lemma {:induction false} Continue(s: State, script: seq<Commitment>, ending: Ending, leave: Step)
    returns (rest: seq<Step>, t: State)
    requires Invariant(s, script, ending) && !s.consumer.Left? && (ending.Silent? ==> s.ctxDone)
    requires leave.SelectClosed? || leave.SelectError?
    ensures Exec(s, rest) == Some(t) && Cancel !in rest
    ensures if leave.SelectClosed? then t.consumer == Left(ChannelClosed)
            else t.consumer.Left? && t.consumer.exit.StreamError? && (!ending.Eof? ==> !t.consumer.exit.eof)
    decreases Remaining(s)
  {
    var step := Progress(s, leave);
    var n := Next(s, step);
    NextKeepsInvariant(s, step, script, ending);
    NextUsesUp(s, step);
    var first := ExecExtend(s, [], s, step);
    if n.consumer.Left? {
      rest, t := first, n;
    } else {
      var more;
      more, t := Continue(n, script, ending, leave);
      ExecOn(s, first, n, more);
      rest := first + more;
    }
  }

  /**
   A stream error that is not EOF need not be reported. For every stream that breaks, or falls silent
   until it is cancelled, and after every schedule that has not ended the loop, one continuation
   reports the error and another returns without it; neither needs a further cancellation.
   */
  lemma BrokenStreamMayLookClean(script: seq<Commitment>, ending: Ending, schedule: seq<Step>)
    requires !ending.Eof? && Exec(Start(script, ending), schedule).Some?
    requires var s := Exec(Start(script, ending), schedule).value;
             !s.consumer.Left? && (ending.Silent? ==> s.ctxDone)
    ensures exists rest :: Cancel !in rest && EndsWith(script, ending, schedule + rest, None)
    ensures exists rest :: Cancel !in rest && EndsWith(script, ending, schedule + rest, Some(StreamBroken))
  {
    var s := Exec(Start(script, ending), schedule).value;
    ExecKeepsInvariant(script, ending, schedule);
    var lost, t := Continue(s, script, ending, SelectClosed);
    ExecOn(Start(script, ending), schedule, s, lost);
    assert EndsWith(script, ending, schedule + lost, None);
    var reported, u := Continue(s, script, ending, SelectError);
    ExecOn(Start(script, ending), schedule, s, reported);
    assert EndsWith(script, ending, schedule + reported, Some(StreamBroken));
  }

  /** The schedule ends the submission with that error, or without one. */
  predicate EndsWith(script: seq<Commitment>, ending: Ending, schedule: seq<Step>, error: Option<SubmitError>) {
    var s := Exec(Start(script, ending), schedule);
    s.Some? && s.value.consumer.Left? && SessionError(SessionOf(s.value)) == error
  }

  // ---------------------------------------------------------------- without a cancellation

  /** As long as nothing was cancelled, the producer ends only as the stream does, and says how. */
  ghost predicate Uncancelled(s: State) {
    && !s.ctxDone
    && s.consumer != Left(CtxDone)
    && (s.producer.Failing? || s.producer.Closing? || s.producer.Done? ==> s.script == [] && !s.ending.Silent?)
    && (s.producer.Failing? ==> s.producer.eof == s.ending.Eof?)
    && (s.errCh.Some? ==> s.errCh.value == s.ending.Eof?)
    && (s.consumer.Left? && s.consumer.exit.StreamError? ==> s.consumer.exit.eof == s.ending.Eof?)
  }

  lemma {:induction false} ExecUncancelled(script: seq<Commitment>, ending: Ending, schedule: seq<Step>)
    requires Exec(Start(script, ending), schedule).Some? && Cancel !in schedule
    ensures Uncancelled(Exec(Start(script, ending), schedule).value)
  {
    if schedule != [] {
      ExecUncancelled(script, ending, schedule[..|schedule| - 1]);
    }
  }

  /** The schedule ends the submission, and nothing is cancelled. */
  predicate Finishes(script: seq<Commitment>, ending: Ending, schedule: seq<Step>) {
    Cancel !in schedule && Exec(Start(script, ending), schedule).Some? &&
    Exec(Start(script, ending), schedule).value.consumer.Left?
  }

  /**
   A submission that finishes without a cancellation returns every commitment of the stream, however
   it left the loop. The stream has then ended, and one that ended well is reported without an error.
   */
  lemma UncancelledIsWhole(script: seq<Commitment>, ending: Ending, schedule: seq<Step>)
    requires Finishes(script, ending, schedule)
    ensures var s := Exec(Start(script, ending), schedule).value;
            && s.commitments == script && !ending.Silent?
            && (ending.Eof? ==> SessionError(SessionOf(s)).None?)
  {
    ExecKeepsInvariant(script, ending, schedule);
    ExecUncancelled(script, ending, schedule);
  }

  /** The submission reports an error exactly if the stream broke. */
  predicate ReportsRightly(script: seq<Commitment>, ending: Ending, schedule: seq<Step>) {
    EndsWith(script, ending, schedule, if ending.Broken? then Some(StreamBroken) else None)
  }

  /** The report is right under every schedule without a cancellation exactly if the stream does not break. */
  lemma ReportIsRightIff(script: seq<Commitment>, ending: Ending)
    ensures (forall schedule :: Finishes(script, ending, schedule) ==> ReportsRightly(script, ending, schedule)) <==>
            !ending.Broken?
  {
    if ending.Broken? {
      BrokenStreamMayLookClean(script, ending, []);
      var rest :| Cancel !in rest && EndsWith(script, ending, [] + rest, None);
      assert [] + rest == rest;
      assert Finishes(script, ending, rest) && !ReportsRightly(script, ending, rest);
    } else {
      forall schedule | Finishes(script, ending, schedule) ensures ReportsRightly(script, ending, schedule) {
        UncancelledIsWhole(script, ending, schedule);
      }
    }
  }

  // ---------------------------------------------------------------- schedules that do occur

  /** The first `k` commitments have been worked off, and the receiver is back at the stream. */
  function Collected(script: seq<Commitment>, ending: Ending, k: nat): State
    requires k <= |script|
  {
    State(script[k..], ending, Receiving, None, false, false, Selecting, script[..k], script[..k])
  }

  lemma {:induction false} CollectFirst(script: seq<Commitment>, ending: Ending, k: nat) returns (schedule: seq<Step>)
    requires k <= |script|
    ensures Exec(Start(script, ending), schedule) == Some(Collected(script, ending, k))
  {
    if k == 0 {
      schedule := [];
    } else {
      var s := Collected(script, ending, k - 1);
      schedule := CollectFirst(script, ending, k - 1);
      assert script[k - 1..][1..] == script[k..] && script[..k - 1] + [script[k - 1]] == script[..k];
      var sent := s.(script := script[k..], received := script[..k], producer := Sending(script[k - 1]));
      schedule := ExecExtend(Start(script, ending), schedule, s, RecvCommitment);
      schedule := ExecExtend(Start(script, ending), schedule, sent, HandOver);
      schedule := ExecExtend(Start(script, ending), schedule, Next(sent, HandOver), FinishMarking);
    }
  }

  /**
   Any one commitment of a stream can be lost: after collecting those before it, its goroutine is
   blocked for good when the cancellation comes between its receipt and the select.
   */
  lemma AnyCommitmentMayBeLost(script: seq<Commitment>, ending: Ending, k: nat) returns (schedule: seq<Step>)
    requires k < |script|
    ensures Exec(Start(script, ending), schedule).Some?
    ensures var s := Exec(Start(script, ending), schedule).value;
            && Stuck(s) && s.producer == Sending(script[k])
            && s.consumer == Left(CtxDone) && s.commitments == script[..k] && s.received == script[..k + 1]
  {
    var s := Collected(script, ending, k);
    schedule := CollectFirst(script, ending, k);
    assert script[..k] + [script[k]] == script[..k + 1];
    var t := s.(script := script[k + 1..], received := script[..k + 1], producer := Sending(script[k]));
    schedule := ExecExtend(Start(script, ending), schedule, s, RecvCommitment);
    schedule := ExecExtend(Start(script, ending), schedule, t, Cancel);
    schedule := ExecExtend(Start(script, ending), schedule, Next(t, Cancel), SelectDone);
  }

  /**
   Every outcome the bid manager is proved against does arise: for any list of commitments and any
   exit some stream and some schedule give exactly these.
   */
  lemma EverySessionArises(received: seq<Commitment>, exit: Exit) returns (ending: Ending, schedule: seq<Step>)
    ensures Exec(Start(received, ending), schedule).Some?
    ensures var s := Exec(Start(received, ending), schedule).value;
            s.consumer.Left? && SessionOf(s) == Streamed(received, exit)
  {
    ending := if exit == StreamError(true) then Eof else Broken;
    var s0, s := Start(received, ending), Collected(received, ending, |received|);
    schedule := CollectFirst(received, ending, |received|);
    assert received[..|received|] == received;
    if exit.CtxDone? {
      schedule := ExecExtend(s0, schedule, s, Cancel);
      schedule := ExecExtend(s0, schedule, Next(s, Cancel), SelectDone);
    } else {
      schedule := ExecExtend(s0, schedule, s, RecvEnd);
      var t := s.(producer := Failing(ending.Eof?));
      schedule := ExecExtend(s0, schedule, t, PutError);
      t := t.(errCh := Some(ending.Eof?), producer := Closing);
      if exit.ChannelClosed? {
        schedule := ExecExtend(s0, schedule, t, CloseChannel);
        t := t.(closed := true, producer := Done);
        schedule := ExecExtend(s0, schedule, t, SelectClosed);
      } else {
        schedule := ExecExtend(s0, schedule, t, SelectError);
      }
    }
  }

  lemma ExecExtend(s: State, schedule: seq<Step>, t: State, step: Step) returns (longer: seq<Step>)
    requires Exec(s, schedule) == Some(t) && Enabled(t, step)
    ensures longer == schedule + [step] && Exec(s, longer) == Some(Next(t, step))
  {
    longer := schedule + [step];
    assert longer[..|schedule|] == schedule;
  }
}
