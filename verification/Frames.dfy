/** How frames cut the message stream: batching loses, reorders and repeats nothing. */
module Frames {
  import opened Runtime
  import opened Replica
  import opened ScreenLaws

  /** One frame on a channel: the screen, what is left, and whether another repaint is requested. */
  function Frame(s: Screen, channel: seq<RuntimeEvent>): (Screen, seq<RuntimeEvent>, bool) {
    var n := if |channel| < MAX_RUNTIME_EVENTS_PER_FRAME then |channel| else MAX_RUNTIME_EVENTS_PER_FRAME;
    (AfterMessages(s, channel[..n]), channel[n..], n == MAX_RUNTIME_EVENTS_PER_FRAME)
  }

  datatype ChannelStep = Arrive(messages: seq<RuntimeEvent>) | PaintFrame

  function AfterSteps(s: Screen, steps: seq<ChannelStep>): (Screen, seq<RuntimeEvent>) {
    if steps == [] then (s, [])
    else
      var (screen, channel) := AfterSteps(s, steps[..|steps| - 1]);
      match steps[|steps| - 1]
      case Arrive(messages) => (screen, channel + messages)
      case PaintFrame => (Frame(screen, channel).0, Frame(screen, channel).1)
  }

  function Arrived(steps: seq<ChannelStep>): seq<RuntimeEvent> {
    if steps == [] then []
    else
      var step := steps[|steps| - 1];
      Arrived(steps[..|steps| - 1]) + if step.Arrive? then step.messages else []
  }

  /** The screen is the in-order fold over what has arrived, except for what the channel still holds. */
  predicate IsFoldOf(s: Screen, arrived: seq<RuntimeEvent>, screen: Screen, channel: seq<RuntimeEvent>) {
    && |channel| <= |arrived| && channel == arrived[|arrived| - |channel|..]
    && screen == AfterMessages(s, arrived[..|arrived| - |channel|])
  }

  /** However arrivals and frames interleave, nothing is lost, reordered or shown twice. */
  lemma {:induction false} FramesAreTransparent(s: Screen, steps: seq<ChannelStep>)
    ensures IsFoldOf(s, Arrived(steps), AfterSteps(s, steps).0, AfterSteps(s, steps).1)
  {
    hide AfterMessages, Frame, IsFoldOf;
    if steps == [] {
      EmptyIsFold(s);
    } else {
      var before, step := steps[..|steps| - 1], steps[|steps| - 1];
      var screen, channel, arrived := AfterSteps(s, before).0, AfterSteps(s, before).1, Arrived(before);
      FramesAreTransparent(s, before);
      if step.Arrive? {
        ArrivalKeepsFold(s, arrived, screen, channel, step.messages);
      } else {
        assert Arrived(steps) == arrived;
        PaintKeepsFold(s, arrived, screen, channel);
      }
    }
  }

  lemma EmptyIsFold(s: Screen)
    ensures IsFoldOf(s, [], s, [])
  {
  }

  lemma ArrivalKeepsFold(s: Screen, arrived: seq<RuntimeEvent>, screen: Screen, channel: seq<RuntimeEvent>,
                         messages: seq<RuntimeEvent>)
    requires IsFoldOf(s, arrived, screen, channel)
    ensures IsFoldOf(s, arrived + messages, screen, channel + messages)
  {
    hide AfterMessages;
    var m := |arrived| - |channel|;
    assert (arrived + messages)[..m] == arrived[..m];
    assert (arrived + messages)[m..] == arrived[m..] + messages;
  }

  lemma PaintKeepsFold(s: Screen, arrived: seq<RuntimeEvent>, screen: Screen, channel: seq<RuntimeEvent>)
    requires IsFoldOf(s, arrived, screen, channel)
    ensures IsFoldOf(s, arrived, Frame(screen, channel).0, Frame(screen, channel).1)
  {
    hide AfterMessages;
    var m := |arrived| - |channel|;
    var n := if |channel| < MAX_RUNTIME_EVENTS_PER_FRAME then |channel| else MAX_RUNTIME_EVENTS_PER_FRAME;
    MessagesConcat(s, arrived[..m], channel[..n]);
    assert arrived[..m] + channel[..n] == arrived[..m + n];
    assert channel[n..] == arrived[m + n..];
  }

  lemma {:induction false} MessagesConcat(s: Screen, xs: seq<RuntimeEvent>, ys: seq<RuntimeEvent>)
    ensures AfterMessages(s, xs + ys) == AfterMessages(AfterMessages(s, xs), ys)
  {
    hide AfterMessage;
    if ys == [] {
      assert xs + ys == xs;
    } else {
      assert (xs + ys)[..|xs + ys| - 1] == xs + ys[..|ys| - 1];
      MessagesConcat(s, xs, ys[..|ys| - 1]);
    }
  }

  /** Frames on a channel until it is empty: the final screen and the number of frames. */
  function Drained(s: Screen, channel: seq<RuntimeEvent>): (Screen, nat)
    decreases |channel|
  {
    if channel == [] then (s, 0)
    else
      var (screen, rest, repaint) := Frame(s, channel);
      var (last, frames) := Drained(screen, rest);
      (last, frames + 1)
  }

  /**
   Draining n messages takes the ceiling of n / 1024 frames and gives the in-order fold; a frame that leaves
   messages behind always requests the repaint that receives them.
   */
  lemma {:induction false} DrainingTakesCeilingFrames(s: Screen, channel: seq<RuntimeEvent>)
    ensures Drained(s, channel).0 == AfterMessages(s, channel)
    ensures (Drained(s, channel).1 - 1) * 1024 < |channel| <= Drained(s, channel).1 * 1024
    ensures Frame(s, channel).1 != [] ==> Frame(s, channel).2
    decreases |channel|
  {
    hide AfterMessages;
    if channel == [] {
      DrainedNothing(s);
    } else {
      var screen, rest := Frame(s, channel).0, Frame(s, channel).1;
      DrainingTakesCeilingFrames(screen, rest);
      var n := |channel| - |rest|;
      MessagesConcat(s, channel[..n], rest);
      assert channel[..n] + rest == channel;
      assert Drained(s, channel) == (Drained(screen, rest).0, Drained(screen, rest).1 + 1);
      hide Drained, Frame;
    }
  }

  lemma DrainedNothing(s: Screen)
    ensures AfterMessages(s, []) == s
  {
  }

  /** A frame is the same as receiving its messages one action at a time. */
  lemma {:induction false} FrameIsActions(s: Screen, messages: seq<RuntimeEvent>) returns (actions: seq<UiAction>)
    ensures Delivered(actions) == messages && forall i | 0 <= i < |actions| :: IsPassive(actions[i])
    ensures ScreenAfter(s, actions) == AfterMessages(s, messages)
  {
    hide AfterMessage;
    if messages == [] {
      actions := [];
    } else {
      var before := FrameIsActions(s, messages[..|messages| - 1]);
      actions := before + [ReceiveMessage(messages[|messages| - 1])];
      assert actions[..|before|] == before;
    }
  }
}
