# CustomSelect dropdown widget, modelled in Dafny

`CustomSelect` is a React Native dropdown. A pressable trigger shows the
current selection's label, or a placeholder. Tapping the trigger opens a modal
that lists the options. Tapping an option calls the caller's
`handleChange(name, value)` and closes the modal. The widget is "controlled":
it never changes `value` or `options`. It only reports the choice to its
caller.

This model keeps the two pieces of real logic and drops the rendering:

- **Trigger text** (`SelectOptions`). `Opt` is the option record. `Find` is
  the forward first-match scan done by `Array.prototype.find`. `TriggerLabel`
  is the expression `value ? options.find(...)?.label : placeholder`, with
  `Option<string>` standing for `undefined`. Dafny reserves the word `label`,
  so the option's `label` field is called `caption` here.
- **Open/closed state machine** (`SelectMachine`, `SelectWidget`).
  `SelectMachine.Step` is a pure reducer. It maps the props, the visibility
  flag and one event (trigger tap, backdrop tap, system request-close, or a
  tap on option row `i`) to the new flag and the notifications emitted.
  `SelectMachine.Run` folds `Step` over a sequence of events. The lemmas beside
  them state toggling, idempotent closing, exactly-once emission and what may be
  emitted. `SelectWidget.CustomSelect` is the component instance as a class.
  Its field `isVisible` is the state from `useState(false)`. Its field `calls`
  logs every `handleChange` call. Each event handler is a method, and each
  event-handler method's contract ties the new state to `Step`.

A non-empty value that matches no option shows no text, not the
placeholder: `find` yields `undefined` and so does `?.label`
(`src/CustomSelect.tsx:53`). `TriggerLabel` gives `None` in that case; see
`UnmatchedValueShowsNothing` and `TwoOptionExample`.

## Model

| member | source | states |
|---|---|---|
| SelectOptions.Find | src/CustomSelect.tsx:53 | no result exactly when no option has the key; otherwise the result is the option at the lowest index whose key matches |
| SelectOptions.FirstMatchUnique | src/CustomSelect.tsx:53 | if index `i` is the first option whose key matches, the lookup returns exactly that option |
| SelectOptions.FindAppend | src/CustomSelect.tsx:53 | first match wins across a concatenation: a match in the front part shadows any later option with the same key |
| SelectOptions.TriggerLabel | src/CustomSelect.tsx:53 | an empty value shows the placeholder; a non-empty value shows some text exactly when an option has that key, and that text is the label of the lowest-index match |
| SelectOptions.EmptyValueShowsPlaceholder | src/CustomSelect.tsx:53 | an empty value shows the placeholder even when an option has the key `""` |
| SelectOptions.UnmatchedValueShowsNothing | src/CustomSelect.tsx:53 | a non-empty value that no option has shows no text, which is not the placeholder |
| SelectOptions.TwoOptionExample | src/CustomSelect.tsx:53 | with options a/Alpha and b/Beta, value "b" shows "Beta" and value "z" shows nothing |
| SelectOptions.RowLabels | src/CustomSelect.tsx:69-79 | one row caption per option, in input order, each the label of its own option |
| SelectMachine.MountedDefaultPlaceholder | src/CustomSelect.tsx:28 | a widget mounted without a placeholder and with an empty value shows "Select an option", whatever its options |
| SelectMachine.MountedWithoutOptionsNeverEmits | src/CustomSelect.tsx:25 | a widget mounted without options falls back to the empty list and never calls `handleChange`, whatever its events |
| SelectMachine.TapDeliveredIffRowShown | src/CustomSelect.tsx:58-59 | an option tap emits if and only if the list is shown and the index is one of its rows |
| SelectMachine.ClosedUntilTriggerTap | src/CustomSelect.tsx:36 | from the initial closed state, any events before the first trigger tap leave the widget closed and emit nothing |
| SelectMachine.TriggerToggles | src/CustomSelect.tsx:50 | a trigger tap inverts visibility and emits nothing; two taps restore the original visibility |
| SelectMachine.CloseIsIdempotent | src/CustomSelect.tsx:62-66 | backdrop tap and request-close close the modal from either state, emit nothing, and a second close changes nothing |
| SelectMachine.OptionTapEmitsOnce | src/CustomSelect.tsx:38-41 | tapping row `i` while open emits exactly one notification, the name with option `i`'s key, and closes the modal |
| SelectMachine.UndeliveredTapIsInert | src/CustomSelect.tsx:58-59 | a tap on an index that is not a rendered row (list hidden, or index past the last option) changes nothing and emits nothing |
| SelectMachine.RunAppend | src/CustomSelect.tsx:36-75 | running two event sequences one after the other equals running their concatenation; the logs concatenate |
| SelectMachine.RunEmitsOnlyOptionValues | src/CustomSelect.tsx:69-75 | after any events, every notification carries the widget's name unchanged and the key of an existing option |
| SelectMachine.RunEmitsOncePerDeliveredTap | src/CustomSelect.tsx:38-41 | after any events, the number of notifications equals the number of option taps that landed on a shown row |
| SelectMachine.RunEmitsAtMostOncePerTap | src/CustomSelect.tsx:38-41 | after any events there are no more notifications than option taps |
| SelectMachine.EmptyOptionsNeverEmit | src/CustomSelect.tsx:69-75 | with no options, no sequence of events emits anything |
| SelectMachine.TriggerTapsAlternate | src/CustomSelect.tsx:50 | `n` trigger taps flip visibility `n` times and emit nothing |
| SelectMachine.EndsClosedAfterClose | src/CustomSelect.tsx:38-66 | after any history, a backdrop tap, request-close or delivered option tap leaves the modal closed |
| SelectWidget.CustomSelect.constructor | src/CustomSelect.tsx:23-36 | props are the given ones with defaults applied; the widget starts closed with no calls made |
| SelectWidget.CustomSelect.Render | src/CustomSelect.tsx:52-79 | the trigger text is `TriggerLabel` of the props; the row captions are the option labels in order while open, and there are none while closed |
| SelectWidget.CustomSelect.HandleSelect | src/CustomSelect.tsx:38-41 | appends exactly one call `(name, selectedValue)` without checking the value against the options, then closes |
| SelectWidget.CustomSelect.TapTrigger | src/CustomSelect.tsx:50 | inverts `isVisible`, makes no call, and agrees with `Step` |
| SelectWidget.CustomSelect.TapBackdrop | src/CustomSelect.tsx:64-66 | clears `isVisible`, makes no call, and agrees with `Step` |
| SelectWidget.CustomSelect.RequestClose | src/CustomSelect.tsx:58-62 | clears `isVisible`, makes no call, and agrees with `Step` |
| SelectWidget.CustomSelect.TapOption | src/CustomSelect.tsx:72-77 | only callable on a rendered row; appends exactly the call `(name, options[i].value)`, closes, and agrees with `Step` |

## Left out

- Styling and theming are left out as purely presentational: the style sheet, colours, `fontSize`, style merging and `IconComponent`.
- React and React Native machinery is left out: re-render scheduling of `useState`, `Modal` animation and transparency, `FlatList` virtualisation, `keyExtractor`, and touch hit-testing. Taps are abstract events. Which of the nested touchables receives a tap is the toolkit's choice.
- The ordering between the `handleChange` call and the scheduled state update is modelled as the call first, then the flag, as written. Any re-render the caller's handler causes is outside the model.
- `handleChange` itself is the caller's code. It is modelled only as an entry appended to the `calls` log.
- `handleChange` is assumed to return normally. If it throws, `setIsVisible(false)` at `src/CustomSelect.tsx:40` never runs and the modal stays open; the model always closes.
- `setIsVisible(!isVisible)` at `src/CustomSelect.tsx:50` reads the flag of the last render. The model applies each event to the state left by the previous one, so `TriggerTapsAlternate` and `Run` assume a re-render between taps.
- Props are taken as a fixed snapshot (`const props`). A caller passing new props is a new render and is not modelled as an event.
- Debouncing and double-fire are not modelled. The code has none, and the order in which events arrive belongs to the host toolkit.
- `src/types/react-native-select-component.d.ts` declares types for a foreign library. It has no behaviour and is not part of this model.
