/** The open/closed behaviour of a `CustomSelect` as a pure reducer: the
    props a caller mounts the widget with, the four kinds of user event, and
    what each event does to the visibility flag and to the `handleChange`
    notifications it emits. */
module SelectMachine {
  import opened Optional
  import opened SelectOptions

  /** The caller-owned data of one widget, after defaults are applied.
      The widget never changes any of it. */
  datatype Props = Props(name: string, options: seq<Opt>, value: string, placeholder: string)

  /** One call `handleChange(name, value)`. */
  datatype Notification = Notification(name: string, value: string)

  /** A tap on the trigger, on the backdrop, the system's request to close
      the modal, or a tap on the option row at index `row`. */
  datatype Event = TapTrigger | TapBackdrop | RequestClose | TapOption(row: nat)

  /** The visibility after an event and the notifications it emitted. */
  datatype Outcome = Outcome(visible: bool, emitted: seq<Notification>)

  /** The props as the component receives them: `options` defaults to the
      empty list and `placeholder` to "Select an option" when omitted. */
  function Mount(name: string, options: Option<seq<Opt>>, value: string,
                 placeholder: Option<string>): Props
  {
    Props(name, options.GetOr([]), value, placeholder.GetOr(DefaultPlaceholder))
  }

  /** The option rows that exist: all options, in order, while the modal is
      visible, and none while it is hidden. */
  function Rows(p: Props, visible: bool): seq<Opt> {
    if visible then p.options else []
  }

  /** One event. A tap on a row index that is not rendered reaches no
      handler and changes nothing. */
  function Step(p: Props, visible: bool, e: Event): Outcome {
    match e
    case TapTrigger => Outcome(!visible, [])
    case TapBackdrop => Outcome(false, [])
    case RequestClose => Outcome(false, [])
    case TapOption(i) =>
      if i < |Rows(p, visible)| then Outcome(false, [Notification(p.name, Rows(p, visible)[i].value)])
      else Outcome(visible, [])
  }

  /** A sequence of events from visibility `visible`: the final visibility and
      every notification, in order of emission. */
  function Run(p: Props, visible: bool, events: seq<Event>): Outcome
    decreases |events|
  {
    if events == [] then Outcome(visible, [])
    else
      var first := Step(p, visible, events[0]);
      var rest := Run(p, first.visible, events[1..]);
      Outcome(rest.visible, first.emitted + rest.emitted)
  }

  /** The number of option taps among `events`, delivered or not. */
  function OptionTaps(events: seq<Event>): nat {
    if events == [] then 0
    else (if events[0].TapOption? then 1 else 0) + OptionTaps(events[1..])
  }

  /** The number of option taps among `events` that land on a rendered row,
      with the visibility threaded through each event: never more than the
      option taps. */
  function Delivered(p: Props, visible: bool, events: seq<Event>): (n: nat)
    ensures n <= OptionTaps(events)
    decreases |events|
  {
    if events == [] then 0
    else
      var e := events[0];
      (if e.TapOption? && e.row < |Rows(p, visible)| then 1 else 0) +
      Delivered(p, Step(p, visible, e).visible, events[1..])
  }

  /** Every notification carries the widget's `name` unchanged and the key
      of one of its options. */
  ghost predicate FromProps(p: Props, log: seq<Notification>) {
    forall k :: 0 <= k < |log| ==> log[k].name == p.name && HasValue(p.options, log[k].value)
  }

  /** From the initial closed state, nothing opens and nothing is emitted
      before the first trigger tap: backdrop taps, requests to close and
      option taps on the hidden list all leave the widget closed and silent. */
  lemma {:induction false} ClosedUntilTriggerTap(p: Props, events: seq<Event>)
    requires forall k :: 0 <= k < |events| ==> !events[k].TapTrigger?
    ensures Run(p, false, events) == Outcome(false, [])
    decreases |events|
  {
    if events != [] {
      ClosedUntilTriggerTap(p, events[1..]);
    }
  }

  /** An option tap emits exactly when the list is shown and the index is
      one of its rows; otherwise it reaches no handler. */
  lemma TapDeliveredIffRowShown(p: Props, visible: bool, i: nat)
    ensures Step(p, visible, TapOption(i)).emitted != [] <==> (visible && i < |p.options|)
  {
  }

  /** A trigger tap flips visibility and emits nothing; two taps restore the
      original visibility. */
  lemma TriggerToggles(p: Props, visible: bool)
    ensures Step(p, visible, TapTrigger) == Outcome(!visible, [])
    ensures Run(p, visible, [TapTrigger, TapTrigger]) == Outcome(visible, [])
  {
    assert [TapTrigger, TapTrigger][1..] == [TapTrigger];
  }

  /** A backdrop tap and a request to close both close the modal from either
      state, emit nothing, and closing twice is closing once. */
  lemma CloseIsIdempotent(p: Props, visible: bool, e: Event, e': Event)
    requires e == TapBackdrop || e == RequestClose
    requires e' == TapBackdrop || e' == RequestClose
    ensures Step(p, visible, e) == Outcome(false, [])
    ensures Step(p, Step(p, visible, e).visible, e') == Step(p, visible, e)
  {
  }

  /** A tap on row `i` while open emits exactly one notification, the
      widget's name with that option's key, and closes the modal. */
  lemma OptionTapEmitsOnce(p: Props, i: nat)
    requires i < |p.options|
    ensures Step(p, true, TapOption(i)) == Outcome(false, [Notification(p.name, p.options[i].value)])
  {
  }

  /** A tap on an index that is not a rendered row, because the list is
      hidden or the index is past the last option, changes nothing and emits
      nothing. With no options an open list stays open. */
  lemma UndeliveredTapIsInert(p: Props, visible: bool, i: nat)
    requires !(visible && i < |p.options|)
    ensures Step(p, visible, TapOption(i)) == Outcome(visible, [])
  {
  }

  /** Running two sequences one after the other is running their
      concatenation. */
  lemma {:induction false} RunAppend(p: Props, visible: bool, a: seq<Event>, b: seq<Event>)
    ensures Run(p, visible, a + b) ==
      var ra := Run(p, visible, a);
      var rb := Run(p, ra.visible, b);
      Outcome(rb.visible, ra.emitted + rb.emitted)
    decreases |a|
  {
    if a == [] {
      assert a + b == b;
    } else {
      assert (a + b)[0] == a[0];
      assert (a + b)[1..] == a[1..] + b;
      RunAppend(p, Step(p, visible, a[0]).visible, a[1..], b);
    }
  }

  /** Every notification ever emitted names this widget and carries the key
      of an existing option: nothing outside `options` is ever emitted. */
  lemma {:induction false} RunEmitsOnlyOptionValues(p: Props, visible: bool, events: seq<Event>)
    ensures FromProps(p, Run(p, visible, events).emitted)
    decreases |events|
  {
    if events != [] {
      var first := Step(p, visible, events[0]);
      RunEmitsOnlyOptionValues(p, first.visible, events[1..]);
      var rest := Run(p, first.visible, events[1..]);
      assert FromProps(p, first.emitted) by {
        if events[0].TapOption? && events[0].row < |Rows(p, visible)| {
          assert p.options[events[0].row].value == first.emitted[0].value;
        }
      }
      var log := first.emitted + rest.emitted;
      forall k | 0 <= k < |log|
        ensures log[k].name == p.name && HasValue(p.options, log[k].value)
      {
        if k >= |first.emitted| {
          assert log[k] == rest.emitted[k - |first.emitted|];
        }
      }
    }
  }

  /** Exactly one notification per option tap that lands on a rendered row,
      and none from any other event. */
  lemma {:induction false} RunEmitsOncePerDeliveredTap(p: Props, visible: bool, events: seq<Event>)
    ensures |Run(p, visible, events).emitted| == Delivered(p, visible, events)
    decreases |events|
  {
    if events != [] {
      RunEmitsOncePerDeliveredTap(p, Step(p, visible, events[0]).visible, events[1..]);
    }
  }

  /** Hence never more notifications than option taps: trigger taps,
      backdrop taps and requests to close emit nothing. */
  lemma RunEmitsAtMostOncePerTap(p: Props, visible: bool, events: seq<Event>)
    ensures |Run(p, visible, events).emitted| <= OptionTaps(events)
  {
    RunEmitsOncePerDeliveredTap(p, visible, events);
  }

  /** Empty `options`: the modal can open, but there is never a row to tap,
      so no event sequence emits anything. */
  lemma {:induction false} EmptyOptionsNeverEmit(p: Props, visible: bool, events: seq<Event>)
    requires p.options == []
    ensures Run(p, visible, events).emitted == []
    decreases |events|
  {
    if events != [] {
      EmptyOptionsNeverEmit(p, Step(p, visible, events[0]).visible, events[1..]);
    }
  }

  /** Only trigger taps: the visibility flips once per tap and nothing is
      emitted. */
  lemma {:induction false} TriggerTapsAlternate(p: Props, visible: bool, events: seq<Event>)
    requires forall k :: 0 <= k < |events| ==> events[k] == TapTrigger
    ensures Run(p, visible, events) == Outcome(visible != (|events| % 2 == 1), [])
    decreases |events|
  {
    if events != [] {
      TriggerTapsAlternate(p, !visible, events[1..]);
    }
  }

  /** Whatever came before, a sequence that ends with a backdrop tap, a
      request to close or a delivered option tap leaves the modal closed. */
  lemma {:induction false} EndsClosedAfterClose(p: Props, visible: bool, events: seq<Event>, last: Event)
    requires last == TapBackdrop || last == RequestClose ||
             (last.TapOption? && last.row < |Rows(p, Run(p, visible, events).visible)|)
    ensures !Run(p, visible, events + [last]).visible
  {
    RunAppend(p, visible, events, [last]);
    assert [last][1..] == [];
  }

  /** A widget mounted without a placeholder and with an empty value shows
      "Select an option", whatever its options. */
  lemma MountedDefaultPlaceholder(name: string, options: Option<seq<Opt>>)
    ensures var p := Mount(name, options, "", None);
            TriggerLabel(p.value, p.options, p.placeholder) == Some("Select an option")
  {
  }

  /** A widget mounted without options never calls `handleChange`, whatever
      its events. */
  lemma MountedWithoutOptionsNeverEmits(name: string, value: string, placeholder: Option<string>,
                                        events: seq<Event>)
    ensures Run(Mount(name, None, value, placeholder), false, events).emitted == []
  {
    EmptyOptionsNeverEmit(Mount(name, None, value, placeholder), false, events);
  }
}
