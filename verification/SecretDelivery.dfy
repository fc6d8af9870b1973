/**
 The secret-delivery exchange between the launcher and the selected child, up to the completion.
 Three descriptions of it are compared: the nested control flow of the relay, a fold of its
 transition function, and the list of frame sequences it is meant to accept.
 */
module SecretDelivery {
  import opened Wrappers
  import opened Protocol

  datatype Kind =
    | ObservationRequest
    | SnapshotRequestV1
    | SnapshotRequestV2
    | BindingRequestV1
    | BindingRequestV2
    | BindingRequestV3
    | BindingRequestV4
    | CompletionKind
    | AnotherKind

  /**
   One inbound frame: its message kind (`AnotherKind` also when it has none), whether it decodes as
   the request of that kind, and what it decodes to as a completion.
   */
  datatype Frame = Frame(kind: Kind, decodes: bool, completion: Option<Completion>)

  datatype State =
    | AwaitPreludeOrLegacyOrCompletion
    | PreludeResponded
    | SnapshotResponded
    | SnapshotV2Responded
    | LegacyBound
    | V2Bound
    | V3Bound
    | V4Bound

  datatype Error = Mismatch | Unavailable | CallbackFailed

  type Result<+T> = Wrappers.Result<T, Error>

  predicate IsRequest(kind: Kind) { kind != CompletionKind && kind != AnotherKind }

  // ---------------------------------------------------------------- the pure parts of the relay

  function Advance(state: State, kind: Kind): Result<State> {
    match (state, kind)
    case (AwaitPreludeOrLegacyOrCompletion, ObservationRequest) => Ok(PreludeResponded)
    case (PreludeResponded, SnapshotRequestV1) => Ok(SnapshotResponded)
    case (PreludeResponded, SnapshotRequestV2) => Ok(SnapshotV2Responded)
    case (AwaitPreludeOrLegacyOrCompletion, BindingRequestV1) => Ok(LegacyBound)
    case (SnapshotResponded, BindingRequestV2) => Ok(V2Bound)
    case (SnapshotResponded, BindingRequestV3) => Ok(V3Bound)
    case (SnapshotV2Responded, BindingRequestV4) => Ok(V4Bound)
    case (_, CompletionKind) => Ok(state)
    case (_, AnotherKind) => Ok(state)
    case _ => Err(Mismatch)
  }

  predicate IsBound(state: State) {
    state.LegacyBound? || state.V2Bound? || state.V3Bound? || state.V4Bound?
  }

  predicate MayRefuse(state: State) {
    state.PreludeResponded? || state.SnapshotResponded? || state.SnapshotV2Responded?
  }

  function DecodedCompletion(f: Frame): Result<Completion> {
    if f.completion.Some? then Ok(f.completion.value) else Err(Unavailable)
  }

  function ParseCompletionForState(f: Frame, state: State): Result<Completion> {
    if !IsBound(state) then Err(Mismatch)
    else if IsRequest(f.kind) then Err(Mismatch)
    else DecodedCompletion(f)
  }

  function ParsePreBindingRefusal(f: Frame, state: State): Result<Option<Completion>> {
    if f.kind != CompletionKind then Ok(None)
    else if !MayRefuse(state) then Err(Mismatch)
    else if f.completion.None? then Err(Unavailable)
    else if f.completion.value.body.outcome != Failed then Err(Mismatch)
    else Ok(f.completion)
  }

  // ---------------------------------------------------------------- the fold of the transition function

  /** The requests that were answered, and how the exchange ended. */
  datatype Course = Course(result: Result<Completion>, calls: seq<Kind>, left: seq<Frame>)

  /** The frame that ends the exchange in a state. */
  function Conclude(state: State, f: Frame): Result<Completion> {
    if state.AwaitPreludeOrLegacyOrCompletion? then DecodedCompletion(f)
    else if IsBound(state) then ParseCompletionForState(f, state)
    else
      match ParsePreBindingRefusal(f, state)
      case Ok(Some(done)) => Ok(done)
      case Ok(None) => Err(Mismatch)
      case Err(e) => Err(e)
  }

  /** Requests advance the state for as long as they come; the first other frame ends the exchange. */
  function Fold(state: State, frames: seq<Frame>, answered: set<Kind>): Course
    decreases |frames|
  {
    if frames == [] then Course(Err(Unavailable), [], [])
    else
      var f, rest := frames[0], frames[1..];
      if !IsRequest(f.kind) then Course(Conclude(state, f), [], rest)
      else
        var next := Advance(state, f.kind);
        if next.Err? || !f.decodes then Course(Err(Mismatch), [], rest)
        else if f.kind !in answered then Course(Err(CallbackFailed), [f.kind], rest)
        else
          var after := Fold(next.value, rest, answered);
          after.(calls := [f.kind] + after.calls)
  }

  // ---------------------------------------------------------------- the accepted frame sequences

  datatype Letter = Request(kind: Kind) | AnyCompletion | FailedCompletion

  const WORDS: set<seq<Letter>> := {
    [AnyCompletion],
    [Request(BindingRequestV1), AnyCompletion],
    [Request(ObservationRequest), FailedCompletion],
    [Request(ObservationRequest), Request(SnapshotRequestV1), FailedCompletion],
    [Request(ObservationRequest), Request(SnapshotRequestV1), Request(BindingRequestV2), AnyCompletion],
    [Request(ObservationRequest), Request(SnapshotRequestV1), Request(BindingRequestV3), AnyCompletion],
    [Request(ObservationRequest), Request(SnapshotRequestV2), FailedCompletion],
    [Request(ObservationRequest), Request(SnapshotRequestV2), Request(BindingRequestV4), AnyCompletion]
  }

  predicate Reads(f: Frame, letter: Letter, answered: set<Kind>) {
    match letter
    case Request(kind) => f.kind == kind && f.decodes && kind in answered
    case AnyCompletion => !IsRequest(f.kind) && f.completion.Some?
    case FailedCompletion =>
      f.kind == CompletionKind && f.completion.Some? && f.completion.value.body.outcome == Failed
  }

  /** The word is spelled by the first frames. */
  ghost predicate Spells(frames: seq<Frame>, word: seq<Letter>, answered: set<Kind>) {
    |word| <= |frames| && forall i :: 0 <= i < |word| ==> Reads(frames[i], word[i], answered)
  }

  /** The words that can still be read from a state. */
  function WordsFrom(state: State): set<seq<Letter>> {
    match state
    case AwaitPreludeOrLegacyOrCompletion => WORDS
    case PreludeResponded => {
      [FailedCompletion],
      [Request(SnapshotRequestV1), FailedCompletion],
      [Request(SnapshotRequestV1), Request(BindingRequestV2), AnyCompletion],
      [Request(SnapshotRequestV1), Request(BindingRequestV3), AnyCompletion],
      [Request(SnapshotRequestV2), FailedCompletion],
      [Request(SnapshotRequestV2), Request(BindingRequestV4), AnyCompletion] }
    case SnapshotResponded => {
      [FailedCompletion], [Request(BindingRequestV2), AnyCompletion], [Request(BindingRequestV3), AnyCompletion] }
    case SnapshotV2Responded => { [FailedCompletion], [Request(BindingRequestV4), AnyCompletion] }
    case _ => { [AnyCompletion] }
  }

  /** The word concludes in the state, or begins with a request that leads to a state of the rest. */
  predicate Continues(state: State, word: seq<Letter>) {
    || (word == [AnyCompletion] && (state.AwaitPreludeOrLegacyOrCompletion? || IsBound(state)))
    || (word == [FailedCompletion] && MayRefuse(state))
    || (&& word != [] && word[0].Request? && IsRequest(word[0].kind)
        && Advance(state, word[0].kind).Ok?
        && word[1..] in WordsFrom(Advance(state, word[0].kind).value))
  }

  lemma WordsStep(state: State, word: seq<Letter>)
    ensures word in WordsFrom(state) <==> Continues(state, word)
  {
    if state.AwaitPreludeOrLegacyOrCompletion? {
      FirstLetter(word);
    } else if state.PreludeResponded? {
      SecondLetter(word);
    } else {
      SplitsAs(word, Request(BindingRequestV2), [AnyCompletion], [Request(BindingRequestV2), AnyCompletion]);
      SplitsAs(word, Request(BindingRequestV3), [AnyCompletion], [Request(BindingRequestV3), AnyCompletion]);
      SplitsAs(word, Request(BindingRequestV4), [AnyCompletion], [Request(BindingRequestV4), AnyCompletion]);
    }
  }

  lemma FirstLetter(word: seq<Letter>)
    ensures word in WORDS <==> Continues(AwaitPreludeOrLegacyOrCompletion, word)
  {
    var (o, s1, s2) := (Request(ObservationRequest), Request(SnapshotRequestV1), Request(SnapshotRequestV2));
    var (b2, b3, b4) := (Request(BindingRequestV2), Request(BindingRequestV3), Request(BindingRequestV4));
    SplitsAs(word, Request(BindingRequestV1), [AnyCompletion], [Request(BindingRequestV1), AnyCompletion]);
    SplitsAs(word, o, [FailedCompletion], [o, FailedCompletion]);
    SplitsAs(word, o, [s1, FailedCompletion], [o, s1, FailedCompletion]);
    SplitsAs(word, o, [s2, FailedCompletion], [o, s2, FailedCompletion]);
    SplitsAs(word, o, [s1, b2, AnyCompletion], [o, s1, b2, AnyCompletion]);
    SplitsAs(word, o, [s1, b3, AnyCompletion], [o, s1, b3, AnyCompletion]);
    SplitsAs(word, o, [s2, b4, AnyCompletion], [o, s2, b4, AnyCompletion]);
  }

  lemma SecondLetter(word: seq<Letter>)
    ensures word in WordsFrom(PreludeResponded) <==> Continues(PreludeResponded, word)
  {
    var (s1, s2) := (Request(SnapshotRequestV1), Request(SnapshotRequestV2));
    var (b2, b3, b4) := (Request(BindingRequestV2), Request(BindingRequestV3), Request(BindingRequestV4));
    SplitsAs(word, s1, [FailedCompletion], [s1, FailedCompletion]);
    SplitsAs(word, s2, [FailedCompletion], [s2, FailedCompletion]);
    SplitsAs(word, s1, [b2, AnyCompletion], [s1, b2, AnyCompletion]);
    SplitsAs(word, s1, [b3, AnyCompletion], [s1, b3, AnyCompletion]);
    SplitsAs(word, s2, [b4, AnyCompletion], [s2, b4, AnyCompletion]);
  }

  lemma SplitsAs(word: seq<Letter>, head: Letter, tail: seq<Letter>, whole: seq<Letter>)
    requires whole == [head] + tail
    ensures word == whole <==> word != [] && word[0] == head && word[1..] == tail
  {
    if word != [] {
      assert word == [word[0]] + word[1..];
    }
  }

  lemma ConcludeIsOneLetter(state: State, f: Frame, answered: set<Kind>)
    requires !IsRequest(f.kind)
    ensures Conclude(state, f).Ok? <==>
              if MayRefuse(state) then Reads(f, FailedCompletion, answered) else Reads(f, AnyCompletion, answered)
    ensures Conclude(state, f).Ok? ==> f.completion == Some(Conclude(state, f).value)
  {
  }

  /** Whatever the fold accepts spells a word, and it reads exactly that word and answers each request in it. */
  lemma {:induction false} FoldIsSound(state: State, frames: seq<Frame>, answered: set<Kind>)
    returns (word: seq<Letter>)
    requires Fold(state, frames, answered).result.Ok?
    ensures word in WordsFrom(state) && word != [] && Spells(frames, word, answered)
    ensures var c := Fold(state, frames, answered);
            && c.left == frames[|word|..]
            && frames[|word| - 1].completion == Some(c.result.value)
            && |c.calls| == |word| - 1
            && forall i :: 0 <= i < |word| - 1 ==> word[i] == Request(c.calls[i])
    decreases |frames|
  {
    var f := frames[0];
    if !IsRequest(f.kind) {
      ConcludeIsOneLetter(state, f, answered);
      word := if MayRefuse(state) then [FailedCompletion] else [AnyCompletion];
      WordsStep(state, word);
    } else {
      var next := Advance(state, f.kind).value;
      var tail := FoldIsSound(next, frames[1..], answered);
      word := [Request(f.kind)] + tail;
      assert word[1..] == tail;
      WordsStep(state, word);
      assert frames[1..][|tail|..] == frames[|word|..];
      assert forall i :: 0 < i < |word| ==> frames[i] == frames[1..][i - 1];
    }
  }

  /** Every word is accepted. */
  lemma {:induction false} FoldIsComplete(state: State, frames: seq<Frame>, answered: set<Kind>, word: seq<Letter>)
    requires word in WordsFrom(state) && Spells(frames, word, answered)
    ensures Fold(state, frames, answered).result.Ok?
    decreases |frames|
  {
    WordsStep(state, word);
    var f := frames[0];
    assert Reads(f, word[0], answered);
    if word[0].Request? {
      assert forall i :: 0 <= i < |word[1..]| ==> frames[1..][i] == frames[i + 1] && word[1..][i] == word[i + 1];
      FoldIsComplete(Advance(state, f.kind).value, frames[1..], answered, word[1..]);
    } else {
      ConcludeIsOneLetter(state, f, answered);
    }
  }

  function StageOf(state: State): nat {
    match state
    case AwaitPreludeOrLegacyOrCompletion => 0
    case PreludeResponded => 1
    case SnapshotResponded => 2
    case SnapshotV2Responded => 2
    case _ => 3
  }

  function StageReached(kind: Kind): nat {
    match kind
    case ObservationRequest => 1
    case SnapshotRequestV1 => 2
    case SnapshotRequestV2 => 2
    case _ => 3
  }

  /** The requests come in strictly rising order, all beyond a stage: none comes twice. */
  predicate Rising(stage: nat, calls: seq<Kind>)
    decreases |calls|
  {
    calls == [] || (StageReached(calls[0]) > stage && Rising(StageReached(calls[0]), calls[1..]))
  }

  lemma {:induction false} RisingHasNoRepeat(stage: nat, calls: seq<Kind>, i: nat, j: nat)
    requires Rising(stage, calls) && i < j < |calls|
    ensures calls[i] != calls[j]
    ensures StageReached(calls[j]) > stage
    decreases |calls|
  {
    var (head, tail) := (StageReached(calls[0]), calls[1..]);
    if i > 0 {
      RisingHasNoRepeat(head, tail, i - 1, j - 1);
    } else if j > 1 {
      RisingHasNoRepeat(head, tail, 0, j - 1);
    }
  }

  /** The state only moves forward, so no callback can run twice, whatever the child sends. */
  lemma {:induction false} CallbacksRise(state: State, frames: seq<Frame>, answered: set<Kind>)
    ensures Rising(StageOf(state), Fold(state, frames, answered).calls)
    decreases |frames|
  {
    if frames != [] && IsRequest(frames[0].kind) && Advance(state, frames[0].kind).Ok? {
      var next := Advance(state, frames[0].kind).value;
      assert StageOf(next) == StageReached(frames[0].kind) > StageOf(state);
      CallbacksRise(next, frames[1..], answered);
      var after := Fold(next, frames[1..], answered).calls;
      assert ([frames[0].kind] + after)[1..] == after;
    }
  }

  lemma CallbacksRunOnce(frames: seq<Frame>, answered: set<Kind>, i: nat, j: nat)
    requires i < j < |Fold(AwaitPreludeOrLegacyOrCompletion, frames, answered).calls|
    ensures var calls := Fold(AwaitPreludeOrLegacyOrCompletion, frames, answered).calls; calls[i] != calls[j]
  {
    CallbacksRise(AwaitPreludeOrLegacyOrCompletion, frames, answered);
    RisingHasNoRepeat(0, Fold(AwaitPreludeOrLegacyOrCompletion, frames, answered).calls, i, j);
  }

  // ---------------------------------------------------------------- the nested control flow

  /** The child's end of the session, and the callbacks that have run. */
  class Session {
    var inbound: seq<Frame>
    var calls: seq<Kind>
    const answered: set<Kind>

    constructor (inbound: seq<Frame>, answered: set<Kind>)
      ensures this.inbound == inbound && this.calls == [] && this.answered == answered
    {
      this.inbound := inbound;
      this.calls := [];
      this.answered := answered;
    }

    method Read() returns (r: Result<Frame>)
      modifies this`inbound
      ensures old(inbound) == [] ==> r == Err(Unavailable) && inbound == []
      ensures old(inbound) != [] ==> r == Ok(old(inbound)[0]) && inbound == old(inbound)[1..]
    {
      if inbound == [] { return Err(Unavailable); }
      r := Ok(inbound[0]);
      inbound := inbound[1..];
    }

    /** Decode the request, run its callback and write the response. */
    method Answer(f: Frame) returns (r: Result<()>)
      modifies this`calls
      ensures !f.decodes ==> r == Err(Mismatch) && calls == old(calls)
      ensures f.decodes ==> calls == old(calls) + [f.kind]
      ensures f.decodes ==> r == if f.kind in answered then Ok(()) else Err(CallbackFailed)
    {
      if !f.decodes { return Err(Mismatch); }
      calls := calls + [f.kind];
      return if f.kind in answered then Ok(()) else Err(CallbackFailed);
    }

    /**
     The relay up to the completion. It is the fold of the transition function, except that a first
     frame of a snapshot kind is decoded as a completion instead of being refused.
     */
    method Exchange() returns (r: Result<Completion>)
      modifies this
      ensures old(inbound) == [] || !IsSnapshot(old(inbound)[0].kind) ==>
        Course(r, calls, inbound)
          == (var c := Fold(AwaitPreludeOrLegacyOrCompletion, old(inbound), answered);
              c.(calls := old(calls) + c.calls))
      ensures old(inbound) != [] && IsSnapshot(old(inbound)[0].kind) ==>
        r == DecodedCompletion(old(inbound)[0]) && calls == old(calls) && inbound == old(inbound)[1..]
      ensures r == Exchanged(old(inbound), answered)
    {
      var state := AwaitPreludeOrLegacyOrCompletion;
      var first := Read();
      if first.Err? { return Err(Unavailable); }
      match first.value.kind {
        case BindingRequestV1 =>
          var advanced := Advance(state, first.value.kind);
          if advanced.Err? { return Err(Mismatch); }
          state := advanced.value;
          var answer := Answer(first.value);
          if answer.Err? { return Err(answer.error); }
          var value := Read();
          if value.Err? { return Err(Unavailable); }
          return ParseCompletionForState(value.value, state);
        case ObservationRequest =>
          r := Observed(first.value);
        case BindingRequestV2 => return Err(Mismatch);
        case BindingRequestV3 => return Err(Mismatch);
        case BindingRequestV4 => return Err(Mismatch);
        case _ => return DecodedCompletion(first.value);
      }
    }

    method Observed(first: Frame) returns (r: Result<Completion>)
      requires first.kind == ObservationRequest
      modifies this
      ensures Course(r, calls, inbound)
        == (var c := Fold(AwaitPreludeOrLegacyOrCompletion, [first] + old(inbound), answered);
            c.(calls := old(calls) + c.calls))
    {
      var state := AwaitPreludeOrLegacyOrCompletion;
      var advanced := Advance(state, first.kind);
      if advanced.Err? { return Err(Mismatch); }
      state := advanced.value;
      var answer := Answer(first);
      if answer.Err? { return Err(answer.error); }
      assert ([first] + old(inbound))[1..] == old(inbound);
      var snapshot := Read();
      if snapshot.Err? { return Err(Unavailable); }
      var refusal := ParsePreBindingRefusal(snapshot.value, state);
      if refusal.Err? { return Err(refusal.error); }
      if refusal.value.Some? { return Ok(refusal.value.value); }
      advanced := Advance(state, snapshot.value.kind);
      if advanced.Err? { return Err(Mismatch); }
      state := advanced.value;
      if !state.SnapshotResponded? && !state.SnapshotV2Responded? { return Err(Mismatch); }
      answer := Answer(snapshot.value);
      if answer.Err? { return Err(answer.error); }
      r := Snapshotted(state);
    }

    method Snapshotted(snapshotState: State) returns (r: Result<Completion>)
      requires snapshotState.SnapshotResponded? || snapshotState.SnapshotV2Responded?
      modifies this
      ensures Course(r, calls, inbound)
        == (var c := Fold(snapshotState, old(inbound), answered); c.(calls := old(calls) + c.calls))
    {
      var state := snapshotState;
      var binding := Read();
      if binding.Err? { return Err(Unavailable); }
      var refusal := ParsePreBindingRefusal(binding.value, state);
      if refusal.Err? { return Err(refusal.error); }
      if refusal.value.Some? { return Ok(refusal.value.value); }
      var advanced := Advance(state, binding.value.kind);
      if advanced.Err? { return Err(Mismatch); }
      state := advanced.value;
      match binding.value.kind {
        case BindingRequestV2 =>
        case BindingRequestV3 =>
        case BindingRequestV4 =>
        case _ => return Err(Mismatch);
      }
      var answer := Answer(binding.value);
      if answer.Err? { return Err(answer.error); }
      var value := Read();
      if value.Err? { return Err(Unavailable); }
      return ParseCompletionForState(value.value, state);
    }
  }

  predicate IsSnapshot(kind: Kind) { kind == SnapshotRequestV1 || kind == SnapshotRequestV2 }

  /** What `Exchange` yields on a frame sequence. */
  function Exchanged(frames: seq<Frame>, answered: set<Kind>): Result<Completion> {
    if frames != [] && IsSnapshot(frames[0].kind) then DecodedCompletion(frames[0])
    else Fold(AwaitPreludeOrLegacyOrCompletion, frames, answered).result
  }

  /**
   The exchange yields a completion exactly for the listed frame sequences, and for one more: a
   first frame of a snapshot kind that decodes as a completion.
   */
  lemma ExchangeAcceptsExactly(frames: seq<Frame>, answered: set<Kind>)
    ensures Exchanged(frames, answered).Ok? <==>
      || (exists word <- WORDS :: Spells(frames, word, answered))
      || (frames != [] && IsSnapshot(frames[0].kind) && frames[0].completion.Some?)
  {
    var start := AwaitPreludeOrLegacyOrCompletion;
    if Fold(start, frames, answered).result.Ok? {
      var word := FoldIsSound(start, frames, answered);
      assert word in WORDS;
    }
    if word :| word in WORDS && Spells(frames, word, answered) {
      FoldIsComplete(start, frames, answered, word);
    }
    if frames != [] && IsSnapshot(frames[0].kind) {
      assert Advance(start, frames[0].kind).Err?;
    }
  }

  /**
   The nested control flow and the transition function agree exactly when the exchange does not open
   with a snapshot.
   */
  lemma NestedAgreesWithFold(frames: seq<Frame>, answered: set<Kind>)
    ensures Exchanged(frames, answered) == Fold(AwaitPreludeOrLegacyOrCompletion, frames, answered).result
            <==> frames == [] || !IsSnapshot(frames[0].kind)
  {
  }
}
