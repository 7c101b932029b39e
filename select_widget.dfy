/** The `CustomSelect` component instance: the props it was mounted with,
    its `isVisible` state and the `handleChange` calls it has made. Each
    event handler updates the state in place, as `setIsVisible` does, and
    each event-handler method is proved to agree with the reducer
    `SelectMachine.Step`. */
module SelectWidget {
  import opened Optional
  import opened SelectOptions
  import opened SelectMachine

  class CustomSelect {
    /** The caller's props; the widget reads them and never changes them. */
    const props: Props
    /** Whether the modal with the option rows is shown. */
    var isVisible: bool
    /** Every `handleChange(name, value)` call so far, oldest first. */
    var calls: seq<Notification>

    /** Mounting: defaults are applied to omitted props and the widget
        starts closed, having notified nobody. */
    constructor (name: string, options: Option<seq<Opt>>, value: string, placeholder: Option<string>)
      ensures props == Mount(name, options, value, placeholder)
      ensures !isVisible && calls == []
    {
      props := Mount(name, options, value, placeholder);
      isVisible := false;
      calls := [];
    }

    /** The option rows currently rendered. */
    function VisibleRows(): (rows: seq<Opt>)
      reads this
    {
      Rows(props, isVisible)
    }

    /** What is on screen: the trigger text, and the caption of every
        rendered row in order (none while the modal is hidden). */
    method Render() returns (trigger: Option<string>, rowCaptions: seq<string>)
      ensures trigger == TriggerLabel(props.value, props.options, props.placeholder)
      ensures |rowCaptions| == (if isVisible then |props.options| else 0)
      ensures forall i :: 0 <= i < |rowCaptions| ==> rowCaptions[i] == props.options[i].caption
    {
      trigger := TriggerLabel(props.value, props.options, props.placeholder);
      rowCaptions := RowLabels(VisibleRows());
    }

    /** `handleSelect`: notify the caller of `selectedValue`, then close.
        The value is passed on without checking it against the options. */
    method HandleSelect(selectedValue: string)
      modifies this
      ensures calls == old(calls) + [Notification(props.name, selectedValue)]
      ensures !isVisible
    {
      calls := calls + [Notification(props.name, selectedValue)];
      isVisible := false;
    }

    /** The trigger's `onPress`: toggles the modal, notifies nobody. */
    method TapTrigger()
      modifies this
      ensures isVisible == !old(isVisible) && calls == old(calls)
      ensures Step(props, old(isVisible), Event.TapTrigger) == Outcome(isVisible, [])
    {
      isVisible := !isVisible;
    }

    /** The backdrop's `onPress`: closes the modal, notifies nobody. */
    method TapBackdrop()
      modifies this
      ensures !isVisible && calls == old(calls)
      ensures Step(props, old(isVisible), Event.TapBackdrop) == Outcome(isVisible, [])
    {
      isVisible := false;
    }

    /** The modal's `onRequestClose`: closes the modal, notifies nobody. */
    method RequestClose()
      modifies this
      ensures !isVisible && calls == old(calls)
      ensures Step(props, old(isVisible), Event.RequestClose) == Outcome(isVisible, [])
    {
      isVisible := false;
    }

    /** The `onPress` of row `i`. Rows exist only while the modal is shown,
        one per option. Exactly one notification, with the widget's name
        and that option's key, is appended and the modal closes. */
    method TapOption(i: nat)
      requires i < |VisibleRows()|
      modifies this
      ensures calls == old(calls) + [Notification(props.name, props.options[i].value)]
      ensures !isVisible
      ensures Step(props, old(isVisible), Event.TapOption(i)) ==
              Outcome(isVisible, calls[|old(calls)|..])
    {
      HandleSelect(props.options[i].value);
    }
  }
}
