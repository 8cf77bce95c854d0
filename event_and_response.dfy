/**
 * The class `EventAndResponse` of Helper.cs: when its game event is raised it
 * fans the event out to up to five response channels, each fired only when it
 * has at least one persistent listener, in the fixed order generic, int, bool,
 * float, string, the typed channels receiving the matching payload field of
 * the game event.
 *
 * What the listeners do is not visible here: firing a channel is recorded as
 * an entry of a trace of invocations, in the order they happen.
 */
module EventAndResponse {
  import opened Wrappers

  /** The payload fields of a game event. */
  datatype GameEvent = GameEvent(sentInt: int, sentBool: bool, sentFloat: real, sentString: string)

  /** A response channel, seen through `GetPersistentEventCount`: the number of
      listeners set up in the editor. Listeners added at run time are not counted. */
  datatype UnityEvent = UnityEvent(persistentCount: nat)

  /** A binder. `gameEvent` is a reference and may be null. */
  datatype EventAndResponse = EventAndResponse(
    name: string,
    gameEvent: Option<GameEvent>,
    genericResponse: UnityEvent,
    sentIntResponse: UnityEvent,
    sentBoolResponse: UnityEvent,
    sentFloatResponse: UnityEvent,
    sentStringResponse: UnityEvent)

  /** The five channels. */
  datatype Channel = Generic | SentInt | SentBool | SentFloat | SentString

  /** One call of a channel's `Invoke`, with the argument it was given. */
  datatype Invocation =
    | InvokeGeneric
    | InvokeInt(i: int)
    | InvokeBool(b: bool)
    | InvokeFloat(f: real)
    | InvokeString(s: string)

  /** How raising the event ends: normally, or with a null-reference exception
      when a typed channel fires while `gameEvent` is null. */
  datatype Outcome = Completed | NullReference

  /** The invocations performed, in order, and how the run ended. */
  datatype Run = Run(calls: seq<Invocation>, outcome: Outcome)

  /** Where each channel stands in the dispatch order. */
  function Rank(ch: Channel): nat
  {
    match ch
    case Generic => 0
    case SentInt => 1
    case SentBool => 2
    case SentFloat => 3
    case SentString => 4
  }

  /** The order in which `EventRaised` considers the channels. */
  const DispatchOrder: seq<Channel> := [Generic, SentInt, SentBool, SentFloat, SentString]

  /** The channel an invocation belongs to. */
  function ChannelOf(call: Invocation): Channel
  {
    match call
    case InvokeGeneric => Generic
    case InvokeInt(_) => SentInt
    case InvokeBool(_) => SentBool
    case InvokeFloat(_) => SentFloat
    case InvokeString(_) => SentString
  }

  function Response(binder: EventAndResponse, ch: Channel): UnityEvent
  {
    match ch
    case Generic => binder.genericResponse
    case SentInt => binder.sentIntResponse
    case SentBool => binder.sentBoolResponse
    case SentFloat => binder.sentFloatResponse
    case SentString => binder.sentStringResponse
  }

  /** A channel fires exactly when it has at least one persistent listener. */
  predicate HasListeners(binder: EventAndResponse, ch: Channel)
  {
    Response(binder, ch).persistentCount >= 1
  }

  /** The call of `ch`: the generic channel takes no argument, a typed channel
      its own payload field, read from the (non-null) game event. */
  function Invoke(ch: Channel, gameEvent: Option<GameEvent>): (call: Invocation)
    requires ch == Generic || gameEvent.Some?
    ensures ChannelOf(call) == ch
  {
    match ch
    case Generic => InvokeGeneric
    case SentInt => InvokeInt(gameEvent.value.sentInt)
    case SentBool => InvokeBool(gameEvent.value.sentBool)
    case SentFloat => InvokeFloat(gameEvent.value.sentFloat)
    case SentString => InvokeString(gameEvent.value.sentString)
  }

  /** `ch` if it has listeners, nothing otherwise. */
  function Step(binder: EventAndResponse, ch: Channel): seq<Channel>
  {
    if HasListeners(binder, ch) then [ch] else []
  }

  /** The channels among `chs` that have listeners, in the order of `chs`. */
  function Armed(binder: EventAndResponse, chs: seq<Channel>): seq<Channel>
  {
    if chs == [] then [] else Step(binder, chs[0]) + Armed(binder, chs[1..])
  }

  /** Fire the channels `chs` one after the other. A typed channel reads the
      payload, so with a null `gameEvent` the run stops there with an exception. */
  function Fire(chs: seq<Channel>, gameEvent: Option<GameEvent>): Run
  {
    if chs == [] then Run([], Completed)
    else if chs[0] != Generic && gameEvent.None? then Run([], NullReference)
    else
      var rest := Fire(chs[1..], gameEvent);
      Run([Invoke(chs[0], gameEvent)] + rest.calls, rest.outcome)
  }

  /** What raising the event does: the reference definition `EventRaised` is proved against. */
  function Dispatch(binder: EventAndResponse): Run
  {
    Fire(Armed(binder, DispatchOrder), binder.gameEvent)
  }

  /** The invocations `calls` already made, followed by the run `r`. */
  function After(calls: seq<Invocation>, r: Run): Run
  {
    Run(calls + r.calls, r.outcome)
  }

  /** The filter over the dispatch order, written out channel by channel. */
  lemma ArmedInDispatchOrder(binder: EventAndResponse)
    ensures Armed(binder, DispatchOrder) ==
              Step(binder, Generic) + (Step(binder, SentInt) + (Step(binder, SentBool)
              + (Step(binder, SentFloat) + (Step(binder, SentString) + []))))
  {
    var o0 := DispatchOrder;
    var o1 := [SentInt, SentBool, SentFloat, SentString];
    var o2 := [SentBool, SentFloat, SentString];
    var o3 := [SentFloat, SentString];
    var o4 := [SentString];
    assert o0[0] == Generic && o0[1..] == o1;
    assert o1[0] == SentInt && o1[1..] == o2;
    assert o2[0] == SentBool && o2[1..] == o3;
    assert o3[0] == SentFloat && o3[1..] == o4;
    assert o4[0] == SentString && o4[1..] == [];
    assert Armed(binder, o4) == Step(binder, SentString) + [];
    assert Armed(binder, o3) == Step(binder, SentFloat) + Armed(binder, o4);
    assert Armed(binder, o2) == Step(binder, SentBool) + Armed(binder, o3);
    assert Armed(binder, o1) == Step(binder, SentInt) + Armed(binder, o2);
  }

  /** One `if` of `EventRaised`: after the run `r`, if it completed, consider channel `ch`. */
  function Consider(binder: EventAndResponse, ch: Channel, r: Run): Run
  {
    if r.outcome != Completed || !HasListeners(binder, ch) then r
    else if ch != Generic && binder.gameEvent.None? then Run(r.calls, NullReference)
    else Run(r.calls + [Invoke(ch, binder.gameEvent)], Completed)
  }

  /** The run `r`, followed, if it completed, by firing `rest`. */
  function Continue(r: Run, rest: seq<Channel>, gameEvent: Option<GameEvent>): Run
  {
    if r.outcome == Completed then After(r.calls, Fire(rest, gameEvent)) else r
  }

  /** Firing a channel's step and then `rest` is considering the channel, then firing `rest`. */
  lemma ConsiderThenFire(binder: EventAndResponse, r: Run, ch: Channel, rest: seq<Channel>)
    ensures Continue(r, Step(binder, ch) + rest, binder.gameEvent)
            == Continue(Consider(binder, ch, r), rest, binder.gameEvent)
  {
    if HasListeners(binder, ch) {
      assert ([ch] + rest)[0] == ch && ([ch] + rest)[1..] == rest;
      if r.outcome == Completed && (ch == Generic || binder.gameEvent.Some?) {
        var tail := Fire(rest, binder.gameEvent);
        assert r.calls + ([Invoke(ch, binder.gameEvent)] + tail.calls)
            == r.calls + [Invoke(ch, binder.gameEvent)] + tail.calls;
      }
    } else {
      assert [] + rest == rest;
    }
  }

  /** The dispatch is the five `if`s of `EventRaised` in a row. */
  lemma DispatchIsFiveSteps(binder: EventAndResponse)
    ensures Dispatch(binder) ==
              Consider(binder, SentString, Consider(binder, SentFloat, Consider(binder, SentBool,
              Consider(binder, SentInt, Consider(binder, Generic, Run([], Completed))))))
  {
    var e := binder.gameEvent;
    var afterString: seq<Channel> := [];
    var afterFloat := Step(binder, SentString) + afterString;
    var afterBool := Step(binder, SentFloat) + afterFloat;
    var afterInt := Step(binder, SentBool) + afterBool;
    var afterGeneric := Step(binder, SentInt) + afterInt;
    var r0 := Run([], Completed);
    ArmedInDispatchOrder(binder);
    assert Dispatch(binder) == Continue(r0, Step(binder, Generic) + afterGeneric, e) by {
      var d := Fire(Step(binder, Generic) + afterGeneric, e);
      assert [] + d.calls == d.calls;
    }
    ConsiderThenFire(binder, r0, Generic, afterGeneric);
    var r1 := Consider(binder, Generic, r0);
    ConsiderThenFire(binder, r1, SentInt, afterInt);
    var r2 := Consider(binder, SentInt, r1);
    ConsiderThenFire(binder, r2, SentBool, afterBool);
    var r3 := Consider(binder, SentBool, r2);
    ConsiderThenFire(binder, r3, SentFloat, afterFloat);
    var r4 := Consider(binder, SentFloat, r3);
    ConsiderThenFire(binder, r4, SentString, afterString);
    var r5 := Consider(binder, SentString, r4);
    assert r5.calls + [] == r5.calls;
  }

  /** `EventRaised`: checks the five channels in turn and invokes those with listeners. */
  method EventRaised(binder: EventAndResponse) returns (calls: seq<Invocation>, outcome: Outcome)
    ensures Run(calls, outcome) == Dispatch(binder)
  {
    var e := binder.gameEvent;
    DispatchIsFiveSteps(binder);
    calls := [];
    if binder.genericResponse.persistentCount >= 1 {
      calls := calls + [InvokeGeneric];
    }
    ghost var r := Run(calls, Completed);
    assert r == Consider(binder, Generic, Run([], Completed));
    if binder.sentIntResponse.persistentCount >= 1 {
      if e.None? { return calls, NullReference; }
      calls := calls + [InvokeInt(e.value.sentInt)];
    }
    assert Run(calls, Completed) == Consider(binder, SentInt, r);
    r := Run(calls, Completed);
    if binder.sentBoolResponse.persistentCount >= 1 {
      if e.None? { return calls, NullReference; }
      calls := calls + [InvokeBool(e.value.sentBool)];
    }
    assert Run(calls, Completed) == Consider(binder, SentBool, r);
    r := Run(calls, Completed);
    if binder.sentFloatResponse.persistentCount >= 1 {
      if e.None? { return calls, NullReference; }
      calls := calls + [InvokeFloat(e.value.sentFloat)];
    }
    assert Run(calls, Completed) == Consider(binder, SentFloat, r);
    r := Run(calls, Completed);
    if binder.sentStringResponse.persistentCount >= 1 {
      if e.None? { return calls, NullReference; }
      calls := calls + [InvokeString(e.value.sentString)];
    }
    outcome := Completed;
  }

  // ---------------------------------------------------------------------------
  // Properties of the reference definition
  // ---------------------------------------------------------------------------

  /** A channel survives the filter exactly when it was offered and has listeners. */
  lemma {:induction false} InArmed(binder: EventAndResponse, chs: seq<Channel>, ch: Channel)
    ensures ch in Armed(binder, chs) <==> ch in chs && HasListeners(binder, ch)
  {
    if chs != [] {
      InArmed(binder, chs[1..], ch);
      assert chs == [chs[0]] + chs[1..];
    }
  }

  /** Channels in strictly increasing dispatch order; in particular none twice. */
  ghost predicate StrictlyOrdered(chs: seq<Channel>)
  {
    forall i, j :: 0 <= i < j < |chs| ==> Rank(chs[i]) < Rank(chs[j])
  }

  /** Filtering keeps the order of what it keeps. */
  lemma {:induction false} ArmedKeepsOrder(binder: EventAndResponse, chs: seq<Channel>)
    requires StrictlyOrdered(chs)
    ensures StrictlyOrdered(Armed(binder, chs))
  {
    if chs != [] {
      var tail := Armed(binder, chs[1..]);
      ArmedKeepsOrder(binder, chs[1..]);
      forall k | 0 <= k < |tail| ensures Rank(chs[0]) < Rank(tail[k]) {
        InArmed(binder, chs[1..], tail[k]);
        var m :| 0 <= m < |chs[1..]| && chs[1..][m] == tail[k];
        assert chs[m + 1] == tail[k];
      }
    }
  }

  /** The dispatch order is strictly increasing and holds every channel. */
  lemma DispatchOrderIsComplete()
    ensures StrictlyOrdered(DispatchOrder)
    ensures forall ch :: ch in DispatchOrder
  {
    forall ch ensures ch in DispatchOrder {
      assert DispatchOrder[Rank(ch)] == ch;
    }
  }

  /** With a payload present, every channel of `chs` is invoked, in order, with its payload. */
  lemma {:induction false} FireWithPayload(chs: seq<Channel>, e: GameEvent)
    ensures Fire(chs, Some(e)).outcome == Completed
    ensures |Fire(chs, Some(e)).calls| == |chs|
    ensures forall k :: 0 <= k < |chs| ==> Fire(chs, Some(e)).calls[k] == Invoke(chs[k], Some(e))
  {
    if chs != [] {
      FireWithPayload(chs[1..], e);
    }
  }

  /**
   * With a game event bound, raising it completes, invokes each channel if and
   * only if it has a persistent listener, keeps the order generic, int, bool,
   * float, string (so invokes no channel twice), and hands each typed channel
   * its own payload field.
   */
  lemma DispatchWithEvent(binder: EventAndResponse)
    requires binder.gameEvent.Some?
    ensures Dispatch(binder).outcome == Completed
    ensures forall ch :: (exists k :: 0 <= k < |Dispatch(binder).calls| && ChannelOf(Dispatch(binder).calls[k]) == ch)
                         <==> HasListeners(binder, ch)
    ensures forall i, j :: 0 <= i < j < |Dispatch(binder).calls| ==>
              Rank(ChannelOf(Dispatch(binder).calls[i])) < Rank(ChannelOf(Dispatch(binder).calls[j]))
    ensures forall k :: 0 <= k < |Dispatch(binder).calls| ==>
              Dispatch(binder).calls[k] == Invoke(ChannelOf(Dispatch(binder).calls[k]), binder.gameEvent)
  {
    var armed := Armed(binder, DispatchOrder);
    var calls := Dispatch(binder).calls;
    FireWithPayload(armed, binder.gameEvent.value);
    DispatchOrderIsComplete();
    ArmedKeepsOrder(binder, DispatchOrder);
    forall ch ensures (exists k :: 0 <= k < |calls| && ChannelOf(calls[k]) == ch) <==> HasListeners(binder, ch) {
      InArmed(binder, DispatchOrder, ch);
      if HasListeners(binder, ch) {
        var k :| 0 <= k < |armed| && armed[k] == ch;
        assert ChannelOf(calls[k]) == ch;
      }
    }
  }

  /**
   * With a null game event, the generic channel still fires if it has
   * listeners; the first typed channel with listeners then raises a
   * null-reference exception, and nothing after it is invoked.
   */
  lemma DispatchWithoutEvent(binder: EventAndResponse)
    requires binder.gameEvent.None?
    ensures Dispatch(binder).outcome == NullReference <==> exists ch :: ch != Generic && HasListeners(binder, ch)
    ensures Dispatch(binder).calls == if HasListeners(binder, Generic) then [InvokeGeneric] else []
  {
    var typed := Step(binder, SentInt) + (Step(binder, SentBool)
                 + (Step(binder, SentFloat) + (Step(binder, SentString) + [])));
    ArmedInDispatchOrder(binder);
    ConsiderThenFire(binder, Run([], Completed), Generic, typed);
    assert Dispatch(binder) == Continue(Run([], Completed), Step(binder, Generic) + typed, None) by {
      var d := Fire(Step(binder, Generic) + typed, None);
      assert [] + d.calls == d.calls;
    }
    assert typed == [] <==> forall ch :: ch != Generic ==> !HasListeners(binder, ch) by {
      if typed != [] {
        assert HasListeners(binder, SentInt) || HasListeners(binder, SentBool)
            || HasListeners(binder, SentFloat) || HasListeners(binder, SentString);
      }
    }
    if typed != [] {
      assert typed[0] != Generic;
    }
  }

  /** The int channel alone has listeners and the event sends 42: exactly one
      invocation, of the int channel, with 42. */
  lemma OnlyIntChannelListening(binder: EventAndResponse)
    requires binder.gameEvent.Some? && binder.gameEvent.value.sentInt == 42
    requires HasListeners(binder, SentInt)
    requires forall ch :: ch != SentInt ==> !HasListeners(binder, ch)
    ensures Dispatch(binder) == Run([InvokeInt(42)], Completed)
  {
    ArmedInDispatchOrder(binder);
    assert !HasListeners(binder, Generic) && !HasListeners(binder, SentBool);
    assert !HasListeners(binder, SentFloat) && !HasListeners(binder, SentString);
    assert Armed(binder, DispatchOrder) == [SentInt];
    FireWithPayload([SentInt], binder.gameEvent.value);
  }
}
