# Proofs about the display firmware

This project models the parts of the firmware and its image tool whose correctness spans many
functions and many steps, and proves what they are for. Each file is one module. Code that changes
state is a class or a method with loops, proved equal to a function on values; the main results are
lemmas about those functions, over every input and every run. The tables and numbers that such a function
rests on, as the lines of a bus mode, the bits of a pixel format or the kinds of a property, are stated
once more by lemmas that write them out.

| files | what they model | the main results |
|---|---|---|
| `Navigation`, `UiProtocol`, `GroupSwitching` | the navigation service, the controller that applies its events later, the overlay stack, deferred group renders with roll-back | `OverlayProtocol`, `NavigationNamesLastSwitch`, `OnlyDeferredRollbackDisagrees`, `SettledViewIsShownIff`, `BackRetraces` |
| `Slider`, `Settings` | sliders with optimistic writes, the owner of the brightness, configurations pushed from another thread, debounced and coalesced persistence | `NoChangeIsLost`, `FlashConverges`, `SliderConvergesIff`, `EverythingAgreesIff`, `LeftAloneEverythingAgrees`, `AcceptedIsNearest`, `KnobRoundTripsIff` |
| `WidgetDispatch`, `PropertyConversion` | three-phase event handlers racing with local writes and with showing, hiding and detaching a widget | `NeverLosesUpdatesIff`, `DetachedIsUntouched`, `TypesNeverChange` |
| `Rle`, `Unpacking`, `Planes`, `Strides` (with `ImageFormat`) | run-length compression, sub-byte pixels, strides with palettes and alpha planes | `Rle.RoundTrip`, `WorstCase`, `PixelOfImage`, `UnpackInvertsPackRows`, `RestoredIff`, `EveryPixelKept`, `ConsistentIff` |
| `Mspi`, `Panel` | lazily programmed bus registers, chunked pixel writes under a held chip enable | `LazyIsEager`, `ConfigurationIsOnTheWire`, `WriteShowsPicture`, `WriteOnWire`, `WriteIsExactIff`, `RectangleIsReadIff` |
| `Cbor`, `CborConfig`, `CborRoundTrip`, `CborEncoder`, `CborDecoder` | the CBOR form of the UI configuration, its encoder into a buffer and its backtracking decoder | `RoundTripIff`, `DecodeEncode`, `CborEncoder.Encode`, `CborDecoder.DecodePayload` |
| `UiModel`, `UiValidator`, `WidgetOrder`, `UiParser` | the configuration model, its validator, z-ordered insertion, conversion to and from CBOR records | `StoredAndLoadedIff`, `ModelRoundTripIff`, `UiValidator.AcceptedIff`, `VerdictInAnyOrder`, `AddedIsStable` |

`Common` holds machine integers and division facts. `dafny verify dfyconfig.toml` checks everything.

## Where a promise does not hold

A promise that the code does not keep on all inputs is stated as an if-and-only-if, with a concrete
failing input or run beside it:

- Two different groups that both fail their deferred first render, queued back to back, leave an
  active group that is not rendered (`SettledViewIsShownIff`, `TwoFailuresStrandTheView`).
- A deferred render that rolls back is not reported to the navigation service
  (`OnlyDeferredRollbackDisagrees`, `RollbackGoesUnreported`); over whole runs navigation
  names the group of the last applied switch (`NavigationNamesLastSwitch`).
- The brightness is set, read for the announcement and announced in three separate pieces. A
  configuration pushed in between can leave the announcement of the old brightness last, and every
  slider with it (`SliderConvergesIff`, `PushStrandsSliders`). Flash is right all the same
  (`FlashConverges`).
- A request that the panel refuses is not answered, so the slider keeps what it asked for
  (`SliderConvergesIff`, `RefusalStrandsSlider`).
- A range under half a step makes two knob positions one (`KnobRoundTripsIff`, `NarrowRangeCollapses`).
- A property that is drawn from the delivered value and that two dispatchers feed can end up showing the
  older value (`NeverLosesUpdatesIff`, `TwoFeedsLoseAnUpdate`). Properties redrawn from the store cannot.
- A text with a zero byte, a double that no float holds, and every list change on the bus
  (`PublishedComesBackIff`).
- The last literal packet of the compressor can exceed the 127 blocks its control byte can say
  (`Rle.RoundTrip`, `OverlongLosesData`).
- Shrinking an indexed image without columns loses the agreement of header and data
  (`ConsistentIff`, `ShrinkingWithoutColumns`); `set_data` stores a new header even when it refuses the
  data (`LvglImage.SetData`).
- A DMA channel that does not start is overlooked, because its result is overwritten: the driver reports
  success although other bytes were on the wire (`WriteIsExactIff`, `UnfedGoesUnnoticed`).
- A chip enable can stay asserted after a failure (`ExchangedInPart`, `StreamEndsInPart`,
  `HardwareEnableIsLeft`).
- Addresses are cut to 16 bits without a check (`RectangleIsReadIff`, `OffsetWrapsRound`), and
  `set_window` accepts a corner equal to the resolution (`WriteSucceedsIff`, `WriteBesideScreenSucceeds`).
- An empty list of texts decodes as an empty list of integers (`CborRoundTrip.RoundTripIff`,
  `EmptyListsLookAlike`).
- Widgets that are not in z-order come back sorted (`ModelRoundTripIff`, `AddedSameIff`).

The binding documentation of the panel says that `max-buf-size` counts pixels; the code counts bytes,
and so does `Panel`.

## Assumptions

- Event channels and work queues are FIFO and lossless; each channel has one worker, which handles one
  event at a time. The event bus is not part of this model.
- A service call and an event handler are one step each where the code holds the LVGL lock. The
  three phases of a widget's handler are steps of their own in `WidgetDispatch`, and so are the pieces of
  the settings handlers in `Settings`: comparing, setting, reading and queueing the brightness, and the
  two halves of the persistence handler.
- In `Settings` one delivery of an announcement reaches all sliders in one step; `WidgetDispatch` takes
  the delivery to a single widget apart. The LVGL lock around setting the brightness and the mutex around
  storing it are one step, and so is storing a configuration.
- The widgets that write a property themselves, the slider and the toggle, redraw it from the store. A
  slider under the finger is redrawn when it is let go, which `Slider` and `Settings` model;
  `WidgetDispatch` takes it as redrawn at once.
- One thread at a time pushes a configuration, and it takes the stored one into use before the next.
- Memory is sequentially consistent; what the code does under one mutex is one step.
- Whether an overlay can be built, a group renders, a pin moves, a buffer is there, DMA starts, a
  transaction ends in time and the panel accepts a brightness are inputs, so the results hold for all of
  them. Saving to flash succeeds.
- A transaction whose DMA channel did not start clocks out as many bytes as its packet has, and any
  bytes at all.
- Doubles are reals in `Slider` and `Settings` and eight-byte patterns in the configuration; casts
  between floats, doubles and integers are parameters of `PropertyConversion`, and widening a float to a
  double loses nothing.
- The CBOR primitives follow RFC 8949: section 3 for heads, written in their shortest form, and
  section 3.2.2 for lists and maps of open length. A primitive that fails leaves the cursor, and
  closing a container by force goes back to just behind its head. Texts are shorter than 2^32 bytes.
- The panel driver gets a chunk size of at least 1 (with 0 its loop would not end) and a buffer of at
  least width times height times the bytes of a pixel, a product that fits an `int`.
- A transaction that timed out has not ended, so a hardware chip enable is still asserted then.
- The padding appended before compression may hold any bytes.

## Model

| member | source | states |
|---|---|---|
| Navigation.HandledKeepsNesting | app/src/domain/ui_domain/services/navigation_service.cpp:219-237 | Every request, accepted or refused, extends the published events so that shows and closes of overlays stay paired with nothing in between, and the overlay field is always exactly what those events leave open. |
| Navigation.OverlayBlocksGroups | app/src/domain/ui_domain/services/navigation_service.cpp:92-113 | While an overlay is open, next, previous, go-to and back are refused, change nothing and publish nothing. |
| Navigation.AnswersAre | app/src/domain/ui_domain/services/navigation_service.cpp:92-217 | Which go-to, show and close requests are accepted, what they change and publish, and with which status the others are refused. |
| Navigation.MovesAreRemembered | app/src/domain/ui_domain/services/navigation_service.cpp:92-162 | A request that moves on appends the group it leaves to the last eight; one that does not move leaves the history alone. |
| Navigation.MovesArePublished | app/src/domain/ui_domain/services/navigation_service.cpp:92-183 | A move publishes exactly the group it went to, once, and no move publishes nothing. |
| Navigation.HistoryIsLastEight | app/src/domain/ui_domain/services/navigation_service.cpp:60-67 | After any walk of accepted moves the rotating eight-slot array holds exactly the last eight groups that were left, oldest first. |
| Navigation.PushedLastEight | app/src/domain/ui_domain/services/navigation_service.cpp:60-67 | One rotating push refines "append, then keep the last eight". |
| Navigation.BackRetraces | app/src/domain/ui_domain/services/navigation_service.cpp:164-183 | After any walk, each of the next min(n, 8) Back calls is accepted, publishes exactly the group before on the path, and takes exactly one entry. |
| Navigation.BackConsumesOnlyWhenAccepted | app/src/domain/ui_domain/services/navigation_service.cpp:164-183 | Back succeeds if and only if there is an entry, no overlay is open and the group is still configured; a refused Back keeps every field, an accepted one removes just the top entry. |
| Navigation.NextCycles | app/src/domain/ui_domain/services/navigation_service.cpp:132-146 | k Next gestures reach the k-th following group in id order with wrap-around, so as many of them as there are groups visit all of them and return. |
| Navigation.PreviousUndoesNext | app/src/domain/ui_domain/services/navigation_service.cpp:148-162 | Previous after Next is back at the same group, at every position including the wrap. |
| Navigation.IndexOf | app/src/domain/ui_domain/services/navigation_service.cpp:81-90 | The first position of an id, none before it. |
| Navigation.NavigationService.SetGroupIds | app/src/domain/ui_domain/services/navigation_service.cpp:43-50 | The ids are a permutation of those given, ascending; nothing else changes. |
| Navigation.NavigationService.SetActiveGroupId | app/src/domain/ui_domain/services/navigation_service.cpp:52-58 | Only the active group changes; history and overlay stay. |
| Navigation.NavigationService.PushHistory | app/src/domain/ui_domain/services/navigation_service.cpp:60-67 | The in-place array rotation is the push on sequences that HistoryIsLastEight is about. |
| Navigation.NavigationService.RequestGroup | app/src/domain/ui_domain/services/navigation_service.cpp:92-113 | Status, new state and what is to be published are those of the request relation, for every state and id. |
| Navigation.NavigationService.FindGroup | app/src/domain/ui_domain/services/navigation_service.cpp:81-90 | The loop finds the first position, or the length exactly when the id is unknown. |
| Navigation.NavigationService.Next | app/src/domain/ui_domain/services/navigation_service.cpp:132-146 | New state, status and the one event appended to the channel are those of the request relation. |
| Navigation.NavigationService.Previous | app/src/domain/ui_domain/services/navigation_service.cpp:148-162 | As Next, in the other direction. |
| Navigation.NavigationService.GoToGroup | app/src/domain/ui_domain/services/navigation_service.cpp:120-130 | As RequestGroup, with the event published after the lock is released. |
| Navigation.NavigationService.Back | app/src/domain/ui_domain/services/navigation_service.cpp:164-183 | As the relation of BackConsumesOnlyWhenAccepted. |
| Navigation.NavigationService.ShowOverlay | app/src/domain/ui_domain/services/navigation_service.cpp:185-203 | Accepted only without an open overlay; stores the id before the event is published. |
| Navigation.NavigationService.CloseOverlay | app/src/domain/ui_domain/services/navigation_service.cpp:205-217 | Refused without an overlay; clears the id and publishes the close for it. |
| Navigation.NavigationService.Handle | app/src/domain/ui_domain/services/navigation_service.cpp:219-237 | The dispatch over all intents is the function HandledKeepsNesting is proved about. |
| UiProtocol.OverlayProtocol | app/src/controllers/ui_controller.cpp:350-442 | Over every run, with any mix of requests, scrim taps, handled events, overlays that fail to build or mount and renders that fail: the published events are well nested, at most one overlay is stacked, and when the queue is empty the stack is exactly the overlay navigation holds, mounted for that screen. |
| UiProtocol.StepKeepsInvariant | app/src/controllers/ui_controller.cpp:350-442 | Every single step of the combined system keeps the invariant behind OverlayProtocol. |
| UiProtocol.HandleKeepsInvariant | app/src/controllers/ui_controller.cpp:350-384 | The same for the bus worker applying one event, whether the views succeed or fail. |
| UiProtocol.HeadFits | app/src/controllers/ui_controller.cpp:350-384 | The next event to apply always fits the stack: a close for the open overlay, or no close at all. |
| UiProtocol.FailedShow | app/src/controllers/ui_controller.cpp:395-436 | A show that fails is always reconciled: the close for that very screen ends up first in the queue. |
| UiProtocol.GroupSwitchesFindNoOverlay | app/src/controllers/ui_controller.cpp:386-393 | Whenever the controller applies a group switch, no overlay is on the stack. |
| UiProtocol.OverlayEventsAlternate | app/src/domain/ui_domain/services/navigation_service.cpp:185-217 | In what is published, shows and closes strictly alternate; a show is directly followed by its own close. |
| UiProtocol.OnlyDeferredRollbackDisagrees | app/src/controllers/ui_controller.cpp:386-393 | View and navigation, in agreement before a step, disagree after it if and only if the step is a deferred render that fails for a group that is active and not rendered, with no switch queued behind it. |
| UiProtocol.NavigationNamesLastSwitch | app/src/controllers/ui_controller.cpp:386-393 | Over every run from start-up, whenever no switch is queued, navigation names exactly the group on which the view ended when a switch was last applied, so the two agree if and only if the view is on that group. |
| UiProtocol.NavigationAgreesUnlessMissed | app/src/controllers/ui_controller.cpp:386-393 | In particular, whenever no switch is queued, they agree if the view has not gone back since that switch, and disagree if it has gone back once. |
| UiProtocol.RollbackGoesUnreported | app/src/views/main_view.cpp:124-148 | The run that goes wrong: a group is asked for, its event handled, its deferred render fails; navigation goes on naming it and the view shows the one before. |
| UiProtocol.RunJobMovesIff | app/src/views/main_view.cpp:109-148 | A deferred render changes the active group exactly when it fails for a group that is active and not rendered. |
| UiProtocol.PushAnswers | app/src/views/overlay_host.cpp:71-102 | Four overlays fit; a fifth and one that fails to render are refused and change nothing; otherwise the new one is on top, rendered and activated. |
| UiProtocol.ScrimTapDismisses | app/src/views/overlay_host.cpp:218-257 | In every reachable state a tap beside an open overlay clears the overlay navigation holds and queues its close. |
| UiProtocol.OverlayHost.UpdateVisibility | app/src/views/overlay_host.cpp:178-188 | The container is hidden exactly when the stack is empty. |
| UiProtocol.OverlayHost.Mount | app/src/views/overlay_host.cpp:104-129 | Mounting succeeds exactly when the group is or gets rendered, and then leaves it activated. |
| UiProtocol.OverlayHost.Push | app/src/views/overlay_host.cpp:71-102 | A group without screens is refused; otherwise stack and status are those of the push relation, a failed mount leaves the stack as it was, and a pushed entry gets a scrim of its own. |
| UiProtocol.OverlayHost.Pop | app/src/views/overlay_host.cpp:131-139 | Removes exactly the top entry, or refuses on an empty stack. |
| UiProtocol.OverlayHost.OnScrimClicked | app/src/views/overlay_host.cpp:218-257 | A tap on the scrim of the top entry asks navigation to close; a tap on any other scrim, or with nothing stacked, does nothing; the stack itself stays in both cases. |
| UiProtocol.UiController.DispatchNext | app/src/controllers/ui_controller.cpp:350-384 | Taking the oldest event and applying it is exactly the step of the system that the invariants are about. |
| UiProtocol.UiController.OnNavigationChanged | app/src/controllers/ui_controller.cpp:350-384 | The handler refines the applied-event relation on views, overlays, navigation and queue together. |
| UiProtocol.UiController.ShowGroup | app/src/controllers/ui_controller.cpp:386-393 | The view switches, and navigation takes over whatever group the view ended up on. |
| UiProtocol.UiController.ShowOverlay | app/src/controllers/ui_controller.cpp:395-436 | A show that fails to build or mount leaves the stack as it was and publishes the close; the state of the settings is asked for exactly after a show that succeeded. |
| UiProtocol.UiController.CloseOverlay | app/src/controllers/ui_controller.cpp:438-442 | Pops the stack and touches nothing else. |
| GroupSwitching.StepKeepsCoherent | app/src/views/main_view.cpp:73-148 | In every reachable state a group's activation is requested exactly when it is the active one, and it is activated exactly when requested and rendered; every switch, deferred job and failure keeps this. |
| GroupSwitching.RollBackKeepsCoherent | app/src/views/main_view.cpp:124-148 | So does a failed render that rolls back to the previous group, whatever was selected since. |
| GroupSwitching.AtMostOneVisible | app/src/views/screens/screen_group.cpp:52-105 | After any run at most one group is visible, and only the active one. |
| GroupSwitching.SettledViewIsShownIff | app/src/views/main_view.cpp:73-148 | With deferred rendering, every run that has emptied its job queue shows its active group rendered and activated if and only if at most one group can still fail its first render. |
| GroupSwitching.OneAtRiskIsSafe | app/src/views/main_view.cpp:124-148 | The safe direction, for every order of switches and job completions. |
| GroupSwitching.TwoFailuresStrandTheView | app/src/views/main_view.cpp:124-148 | The run that goes wrong: two failing groups queued back to back leave an active group that is not rendered. |
| GroupSwitching.TwoAtRiskIsNotSafe | app/src/views/main_view.cpp:124-148 | Hence no system with two such groups is safe. |
| GroupSwitching.InlineViewIsAlwaysShown | app/src/views/main_view.cpp:200-221 | Without a dispatcher every render is inline and the active group is always shown, whatever fails. |
| GroupSwitching.SwitchAnswers | app/src/views/main_view.cpp:73-122 | Which switches succeed, which one queues a render and for which groups, and that only the old and the new group are touched. |
| GroupSwitching.RenderAnswers | app/src/views/main_view.cpp:200-221 | The first render succeeds exactly when there is an active group that is or gets rendered, and then shows it; otherwise nothing changes. |
| GroupSwitching.ScreenGroup.AddScreen | app/src/views/screens/screen_group.cpp:27-38 | A screen goes behind all that are not above it and in front of the others, and the screens stay in z-order. |
| GroupSwitching.ScreenGroup.EnsureRendered | app/src/views/screens/screen_group.cpp:52-66 | Renders at most once; success exactly when the group is rendered afterwards; a requested activation is applied then. |
| GroupSwitching.ScreenGroup.Activate | app/src/views/screens/screen_group.cpp:74-78 | Records the request and applies it as far as the group is rendered. |
| GroupSwitching.ScreenGroup.ApplyActivation | app/src/views/screens/screen_group.cpp:80-92 | Shows and activates only what is requested, rendered and not yet active. |
| GroupSwitching.ScreenGroup.Deactivate | app/src/views/screens/screen_group.cpp:94-105 | Withdraws the request and hides. |
| GroupSwitching.MainView.GetOrCreateGroup | app/src/views/main_view.cpp:38-47 | Returns the group of that id, adding a fresh one only if there was none. |
| GroupSwitching.MainView.SetActiveGroup | app/src/views/main_view.cpp:73-122 | Flags, active id, job queue and status are those of the switch relation, in the inline and in the deferred case. |
| GroupSwitching.MainView.ShowInstead | app/src/views/main_view.cpp:96-111 | Hides the previous group before the new one is asked to show. |
| GroupSwitching.MainView.RenderGroupOrRollBack | app/src/views/main_view.cpp:124-148 | When the render fails and the failed group is still the active one, the view goes back to the previous group, or to none; when a later switch moved on, nothing is undone. |
| GroupSwitching.MainView.RunNextJob | app/src/views/main_view.cpp:109-122 | The oldest deferred render is taken off the queue and done. |
| GroupSwitching.MainView.Render | app/src/views/main_view.cpp:200-221 | The first render of the view renders and shows the active group. |
| Slider.KnobRoundTripsIff | app/src/views/widgets/controls/slider_control/slider_control.cpp:41-68 | ToIndex(ToValue(i)) is i at every position of the knob if and only if the range is at least half a step. |
| Slider.InsideRoundTrips | app/src/views/widgets/controls/slider_control/slider_control.cpp:60-68 | Below the clamp a position maps to min + i * step and back to itself. |
| Slider.TopRoundTrips | app/src/views/widgets/controls/slider_control/slider_control.cpp:60-68 | The last position, cut off at the top of the range, still reads back as itself. |
| Slider.NarrowRangeCollapses | app/src/views/widgets/controls/slider_control/slider_control.cpp:41-58 | A range under half a step has two positions and the second reads back as the first. |
| Slider.ScaleIsDerived | app/src/views/widgets/controls/slider_control/slider_control.cpp:41-58 | For any three numbers, in any order and sign, the derived scale has min <= max, a positive step and at least one step. |
| Slider.ScaleCovers | app/src/views/widgets/controls/slider_control/slider_control.cpp:41-58 | The derived scale has the two bounds it was given, in order, the step it was given or 1, and the number of steps nearest to the range, at least one. |
| Slider.IndexIsNearest | app/src/views/widgets/controls/slider_control/slider_control.cpp:60-68 | The index of a value is a position of the knob, and no position is nearer to the value. |
| Slider.KnobFollows | app/src/views/widgets/controls/slider_control/slider_control.cpp:117-127 | A shown knob that nobody holds stands at the index of the value that arrived, over the range that arrived. |
| Slider.KnobIsLeftAlone | app/src/views/widgets/controls/slider_control/slider_control.cpp:117-127 | A knob under the finger, or of a hidden control, is moved by no value and no range. |
| Slider.DragAsksIff | app/src/views/widgets/controls/slider_control/slider_control.cpp:99-115 | A drag asks for a value exactly when the range is not empty, and then stores that very value, which lies inside the range; otherwise it stores and asks nothing. |
| Slider.ShownReacts | app/src/views/widgets/widget_base.cpp:106-116 | Showing applies the stored range and value and makes the control react; hiding only ends that. |
| Slider.SliderControl.ApplyRange | app/src/views/widgets/controls/slider_control/slider_control.cpp:41-58 | Scale and knob are recomputed from the three stored properties. |
| Slider.SliderControl.UpdateSlider | app/src/views/widgets/controls/slider_control/slider_control.cpp:117-127 | The knob moves to the index of the value unless it is being dragged. |
| Slider.SliderControl.OnValueEvent | app/src/views/widgets/controls/slider_control/slider_control.cpp:19-39 | An inbound value is stored always and moves the knob only while the control is shown. |
| Slider.SliderControl.OnRangeEvent | app/src/views/widgets/controls/slider_control/slider_control.cpp:19-39 | The three parts of a range arrive one after the other and end in the scale of all three. |
| Slider.SliderControl.OnActivated | app/src/views/widgets/widget_base.cpp:106-114 | Showing the control replays the stored properties. |
| Slider.SliderControl.OnValueChanged | app/src/views/widgets/controls/slider_control/slider_control.cpp:99-115 | A drag stores the value of the position at once and asks for exactly that value, only when it changed. |
| Slider.SliderControl.OnReleased | app/src/views/widgets/controls/slider_control/slider_control.cpp:99-115 | Letting go puts the knob back on the stored value. |
| Settings.NoChangeIsLost | app/src/domain/settings_domain/services/settings_persistence_service.cpp:46-101 | In every reachable state, pushed configurations included, in which flash does not hold the brightness in use: an announcement is queued or being made, or the id is pending with its timer armed or about to be, or a request to persist or a write is outstanding; and no id is ever pending twice. |
| Settings.RunLosesNothing | app/src/domain/settings_domain/services/settings_persistence_service.cpp:46-101 | The same invariant from any state that has it, over every run. |
| Settings.OwnStepDecreases | app/src/domain/display_domain/services/display_service.cpp:142-166 | Every step the system takes on its own strictly decreases one measure, so it cannot go on for ever. |
| Settings.DeliveryDecreases | app/src/domain/display_domain/services/display_service.cpp:142-166 | In particular handling a message costs more than all the messages it sends. |
| Settings.QuietMeansNothingToDo | app/src/domain/settings_domain/services/settings_persistence_service.cpp:77-101 | Measure zero, no step of its own enabled, and nothing queued, armed, pending or being written are one and the same. |
| Settings.SlidersConverge | app/src/domain/display_domain/services/display_service.cpp:142-194 | Whatever the sliders were configured with and whatever is dragged, asked for, pushed or added: once no message is queued or being made, every slider stores the brightness in use and has the range of the owner, if the last announcement was not late and nothing was refused since. |
| Settings.SliderConvergesIff | app/src/domain/display_domain/services/display_service.cpp:142-179 | A slider stores the brightness in use if and only if the panel did not refuse what the slider asked for since an announcement last reached it, or, if it asked for nothing since, the last announcement was not late, that is, still carried the value in use when it was queued. |
| Settings.SlidersHoldTheFact | app/src/domain/display_domain/services/display_service.cpp:168-179 | Once nothing is queued or being made, every slider has the range of the owner and stores what it asked for since an announcement last reached it, or else the value last announced. |
| Settings.OrderlyIsNeverLate | app/src/domain/display_domain/services/display_service.cpp:142-179 | No announcement is late in a run in which no thread sets the brightness between the other reading it for its payload and queueing the payload. |
| Settings.UnpushedIsOrderly | app/src/domain/display_domain/configuration/display_configuration_manager.cpp:47-77 | Every run without a pushed configuration is such a run. |
| Settings.PushStrandsSliders | app/src/domain/display_domain/services/display_service.cpp:279-297 | The run that goes wrong: a configuration pushed in that gap; everything drains and every slider is left with the old brightness. |
| Settings.RefusalStrandsSlider | app/src/domain/display_domain/services/display_service.cpp:159-165 | The other one: the panel refuses a dragged value, nothing is announced, and the slider keeps it. |
| Settings.KnobsConverge | app/src/views/widgets/controls/slider_control/slider_control.cpp:117-127 | Once nothing is queued or being made, the knob of every shown, untouched slider stands at the value the slider stores, which is the brightness in use under the condition of SliderConvergesIff. |
| Settings.PublishedRangeIsKept | app/src/domain/display_domain/services/display_service.cpp:181-194 | Every position over the published range asks for a whole value the owner stores without clamping or rounding. |
| Settings.AcceptedIsNearest | app/src/domain/display_domain/services/display_service.cpp:142-166 | For every request, however far out of range, the value taken is a whole number from 10 to 255 and no other one is nearer; of two equally near ones it is the larger. |
| Settings.DraggedWillAgree | app/src/views/widgets/widget_base.cpp:167-187 | A drag's optimistic store and its request agree: applying the request gives what was stored. |
| Settings.ComesToRest | app/src/domain/settings_domain/services/settings_persistence_service.cpp:77-101 | From every valid state there is a way to rest within the measure. |
| Settings.LeftAloneEverythingAgrees | app/src/domain/display_domain/services/display_service.cpp:299-327 | After any run without such a gap on a panel that accepts, every way to go on until rest ends with flash and every slider holding the brightness in use. |
| Settings.FlashConverges | app/src/domain/display_domain/services/display_service.cpp:299-327 | At rest flash holds the brightness in use, whatever was pushed, late or refused. |
| Settings.EverythingAgreesIff | app/src/domain/display_domain/services/display_service.cpp:142-179 | At rest, flash and all sliders hold the brightness in use if and only if the condition of SliderConvergesIff holds for every slider. |
| Settings.RequestAtOnce | app/src/domain/display_domain/services/display_service.cpp:142-166 | The pieces in which the system takes a request (compare, set, read, queue) make up the handler of the service when nothing comes between. |
| Settings.StateAtOnce | app/src/domain/display_domain/services/display_service.cpp:123-130 | So do the pieces of the answer to a state request. |
| Settings.ReloadAtOnce | app/src/domain/display_domain/services/display_service.cpp:279-297 | So do the pieces of taking a pushed configuration into use. |
| Settings.LoopIsPublishNext | app/src/domain/settings_domain/services/settings_persistence_service.cpp:85-101 | The publishing loop is the system's one-message step taken once for each swapped-out id, in order. |
| Settings.DisplayService.OnBrightnessChangeRequested | app/src/domain/display_domain/services/display_service.cpp:142-166 | A request the panel accepts leaves the brightness at the whole number from 10 to 255 nearest to it and announces it, with the rest of the configuration as it was; a request for the value in use or one the panel refuses changes and announces nothing. |
| Settings.DisplayService.SetBrightness | app/src/domain/display_domain/services/display_service.cpp:241-252 | Asks the driver, and takes the brightness over exactly when the panel accepts it. |
| Settings.DisplayService.OnStateRequested | app/src/domain/display_domain/services/display_service.cpp:116-140 | Answers with the value and the range and changes nothing. |
| Settings.DisplayService.PublishBrightnessValue | app/src/domain/display_domain/services/display_service.cpp:168-179 | Appends one Changed with the value in use. |
| Settings.DisplayService.Persist | app/src/domain/display_domain/services/display_service.cpp:299-308 | Schedules a write, at most one at a time. |
| Settings.DisplayService.BeginWrite | app/src/domain/display_domain/services/display_service.cpp:318-327 | The configuration is copied when the write begins, so later changes need a write of their own. |
| Settings.DisplayService.EndWrite | app/src/domain/display_domain/services/display_service.cpp:318-327 | Flash then holds the copy, blanking included. |
| Settings.DisplayService.Reload | app/src/domain/display_domain/services/display_service.cpp:279-297 | Refused without a stored configuration; otherwise the driver is given its blanking and then its brightness, the whole configuration is taken into use and the brightness announced, whatever the panel says. |
| Settings.SettingsPersistenceService.OnChanged | app/src/domain/settings_domain/services/settings_persistence_service.cpp:46-67 | The id is recorded unless it is pending already, and the timer is armed anew; ids stay distinct. |
| Settings.SettingsPersistenceService.RecordPending | app/src/domain/settings_domain/services/settings_persistence_service.cpp:58-64 | The part of it under the lock. |
| Settings.SettingsPersistenceService.RearmTimer | app/src/domain/settings_domain/services/settings_persistence_service.cpp:64-67 | The part of it behind the lock. |
| Settings.SettingsPersistenceService.PublishPendingPersistRequests | app/src/domain/settings_domain/services/settings_persistence_service.cpp:85-101 | Swaps the pending ids out and appends one request for each, in order. |
| WidgetDispatch.NeverLosesUpdatesIff | app/src/views/widgets/widget_base.cpp:167-272 | A widget on screen ends every run, local writes included, with the stored value applied to each property, whenever no handler is in flight and no replay is left, if and only if no property that is drawn from the delivered value is fed by two dispatchers; a property redrawn from the store, as the value of a slider or toggle is, may be fed by any number and moved as well. |
| WidgetDispatch.SingleFeedIsSafe | app/src/views/widgets/widget_base.cpp:167-283 | The safe direction for every interleaving of the three handler phases with local writes, showing, hiding, replaying and detaching, hidden widgets and controls that are both fed and moved included. |
| WidgetDispatch.TwoFeedsLoseAnUpdate | app/src/views/widgets/indicators/indicator_base.cpp:115-133 | The run that goes wrong, for a property drawn from the delivered value as the indicators draw theirs: with two dispatchers the older value can be shown last and stay. |
| WidgetDispatch.DetachedIsUntouched | app/src/views/widgets/widget_dispatch_guard.h:35-48 | After Detach no step of any run reaches the widget. |
| WidgetDispatch.StoreTracksWrites | app/src/views/widgets/widget_base.cpp:167-256 | Hidden, detached or not, the store holds what was delivered or set locally last for each property. |
| WidgetDispatch.ReplayCatchesUp | app/src/views/widgets/widget_base.cpp:274-283 | Replaying makes exactly the replayed properties equal to the store and changes nothing else. |
| WidgetDispatch.TurnsAre | app/src/views/widgets/widget_base.cpp:235-283 | While a widget that is being shown replays its store nothing else runs but handlers that have not come to the lock; otherwise an attached widget can be shown, hidden and detached at any time, and rendered while it is not shown. |
| WidgetDispatch.ShownAtOnce | app/src/views/widgets/widget_base.cpp:106-112 | Showing a rendered widget together with all it replays can always be run to its end, and then everything is applied as it is stored. |
| WidgetDispatch.HiddenAtOnce | app/src/views/widgets/widget_base.cpp:89-116 | Hiding, detaching and rendering change one flag each and nothing that is stored or shown. |
| WidgetDispatch.MovedAtOnce | app/src/views/widgets/controls/toggle_control/toggle_control.cpp:58-65 | The move of a user changes what is stored and what is shown of the one property, and nothing else. |
| WidgetDispatch.EventAtOnce | app/src/views/widgets/widget_base.cpp:235-272 | The three phases of a handler with nothing in between can always be run, and then the value is stored, and shown exactly if the widget is attached, rendered and shown. |
| WidgetDispatch.WidgetPropertyStore.Find | app/src/views/widgets/widget_property_store.cpp:16-25 | The position of the property, or the end exactly when it is not registered. |
| WidgetDispatch.WidgetPropertyStore.Register | app/src/views/widgets/widget_property_store.cpp:27-46 | Adds the property at the end or replaces it in place, with its default, its change effect and the type of the default as declared type; the other entries and their order stay. |
| WidgetDispatch.WidgetPropertyStore.Set | app/src/views/widgets/widget_property_store.cpp:70-80 | Stores the value exactly when the property is registered; order, effects and declared types stay. |
| WidgetDispatch.WidgetPropertyStore.Get | app/src/views/widgets/widget_property_store.cpp:82-88 | The stored value, or the empty value for an unknown property. |
| WidgetDispatch.WidgetPropertyStore.GetDeclaredAlternative | app/src/views/widgets/widget_property_store.cpp:62-68 | The type the property was registered with, or that of the empty value for an unknown property. |
| WidgetDispatch.WidgetDispatchGuard.Detach | app/src/views/widgets/widget_dispatch_guard.h:44-48 | From then on the guard has no owner. |
| WidgetDispatch.WidgetBase.HandlerStore | app/src/views/widgets/widget_base.cpp:249-256 | The first phase of the handler is the system's arrival of a value. |
| WidgetDispatch.WidgetBase.HandlerCheck | app/src/views/widgets/widget_base.cpp:258-266 | The second phase reads both flags under the guard. |
| WidgetDispatch.WidgetBase.HandlerNotify | app/src/views/widgets/widget_base.cpp:268-271 | The third phase shows the property only if attached, ready and active at that moment. |
| WidgetDispatch.WidgetBase.NotifyPropertyChanged | app/src/views/widgets/widget_base.cpp:159-165 | Shows the property only on a ready and active widget. |
| WidgetDispatch.WidgetBase.OnPropertyChanged | app/src/views/widgets/controls/slider_control/slider_control.cpp:19-39 | A property drawn from the store shows what is stored, whatever it is notified with; any other shows the value it is notified with. |
| WidgetDispatch.WidgetBase.OnControlEvent | app/src/views/widgets/controls/toggle_control/toggle_control.cpp:58-65 | A control the user moves shows the value already, and the store and the outbound bindings follow; together this is the local write of the system. |
| WidgetDispatch.WidgetBase.Publish | app/src/views/widgets/widget_base.cpp:173-186 | The event of a binding carries the converted value under its key, and the selector under its own if the binding has one. |
| WidgetDispatch.WidgetBase.SetPropertyLocal | app/src/views/widgets/widget_base.cpp:167-187 | A local write stores a registered property and publishes the value, with its selector, on exactly the outbound bindings of that property, in order; an unknown property is ignored. |
| WidgetDispatch.WidgetBase.OnEvent | app/src/views/widgets/widget_base.cpp:235-272 | The three phases with nothing in between are store, then notify. |
| WidgetDispatch.WidgetBase.OnActivated | app/src/views/widgets/widget_base.cpp:106-112 | Showing a rendered widget leaves it with the whole store applied. |
| WidgetDispatch.WidgetBase.ReplayProperties | app/src/views/widgets/widget_base.cpp:274-283 | The loop over the registered types applies the whole store. |
| WidgetDispatch.WidgetBase.OnDeactivated | app/src/views/widgets/widget_base.cpp:114-116 | Only the flag changes. |
| WidgetDispatch.WidgetBase.DetachDispatch | app/src/views/widgets/widget_base.cpp:89-91 | Only the guard changes. |
| PropertyConversion.CoercedIsDeclared | app/src/views/widgets/property_value_conversion.h:24-65 | A bus value either fills the property in its registered type or is dropped, and which of the two is decided by the kinds alone: texts fill texts, numbers and flags fill the other three. |
| PropertyConversion.PublishedComesBackIff | app/src/views/widgets/property_value_conversion.h:24-82 | For casts that widen exactly, a published value is read back unchanged if and only if it is an int, a bool, a double that is the widening of some float, or a text without a zero byte. |
| PropertyConversion.ZeroForTheRest | app/src/views/widgets/property_value_conversion.h:67-82 | Lists, maps and values never set go out as the number zero. |
| PropertyConversion.NumbersKeepTheirValue | app/src/views/widgets/property_value_conversion.h:24-82 | Kind by kind, what a number or a flag from the bus becomes in a property of each type: the same number, cast where the kinds differ, and true exactly when it is not zero. |
| WidgetDispatch.TypesNeverChange | app/src/views/widgets/property_value_conversion.h:18-23 | Over every run of the widget, nothing it stores, shows or is about to show ever changes type. |
| Rle.RoundTrip | tools/LVGLImage.py:1229-1253 | For data of whole blocks the packets written are the packets read back if and only if the last literal packet has at most 127 blocks, and then decoding gives exactly the data. |
| Rle.PaddedRoundTrip | tools/LVGLImage.py:505-514 | The same through the padding to whole blocks: the original is what its stored length cuts out. |
| Rle.PacketsAreWellShaped | tools/LVGLImage.py:1234-1307 | A repeat packet has 16 to 127 blocks; a literal packet that is not the last has 127, or fewer and then a repeat of at least 17 behind it; only the last can be longer, up to 142. |
| Rle.ParseIff | tools/LVGLImage.py:1242-1249 | Any packets of whole blocks are read back as written exactly when none has more than 127 literals. |
| Rle.OverlongIsMisread | tools/LVGLImage.py:1298-1305 | A literal packet beyond 127 blocks is never read back as itself. |
| Rle.OverlongLosesData | tools/LVGLImage.py:1298-1305 | A concrete input: 128 bytes that decode to a single byte. |
| Rle.OverlongCanSurvive | tools/LVGLImage.py:1298-1305 | Why the equivalence is about packets: 128 other bytes are overlong too, are misread as other packets, and still decode to themselves. |
| Rle.PacketsExpand | tools/LVGLImage.py:1234-1253 | Before any encoding, the packets stand for exactly the blocks, in order. |
| Rle.RunIsMaximal | tools/LVGLImage.py:1255-1275 | The counted run is all equal and the block behind it differs. |
| Rle.LiteralCountBounds | tools/LVGLImage.py:1277-1307 | A literal count is between 1 and what is left, and ends where a run longer than the threshold, the cap or the data ends it. |
| Rle.SizeBound | tools/LVGLImage.py:1234-1253 | For n blocks the output is at most the input plus n / 127 rounded up. |
| Rle.WorstCase | tools/LVGLImage.py:1234-1253 | The compressed data of k blocks is at most (k + 126) / 127 bytes longer than the data. |
| Rle.GetRepeatCount | tools/LVGLImage.py:1255-1275 | The loop returns the length of the leading run, at most 127, and 0 on less than a block. |
| Rle.GetNonrepeatCount | tools/LVGLImage.py:1277-1307 | The loop with its three exits returns the literal count of the specification, the uncapped exit included. |
| Rle.NextPacket | tools/LVGLImage.py:1235-1251 | One pass of the loop emits one packet and moves to behind it, or stops on less than a block. |
| Rle.RleCompress | tools/LVGLImage.py:1229-1253 | The loop over index and memory views writes exactly the specified packets. |
| Unpacking.PixelOfImage | tools/LVGLImage.py:224-264 | For every width and height, value (y, x) of the result is field x mod n of byte x / n of row y, most significant first. |
| Unpacking.AlphaIsSpreadEvenly | tools/LVGLImage.py:224-264 | In each alpha format transparent is 0, opaque is 255 and the levels between are evenly apart; an index is kept as it is. |
| Unpacking.ImageUnpacksByRows | tools/LVGLImage.py:233-264 | Rows of ceil(w * bpp / 8) bytes give exactly h * w values, row by row. |
| Unpacking.RowsComeOut | tools/LVGLImage.py:233-264 | The column counter is back at zero after every row, whatever the rows hold. |
| Unpacking.RowPixelAt | tools/LVGLImage.py:224-264 | Within one row, pixel x comes from byte x / n at place x mod n. |
| Unpacking.UnpackInvertsPack | tools/LVGLImage.py:224-264 | Within one row of any width, unpacking inverts packing; alpha-only values come back spread over 0 to 255. |
| Unpacking.UnpackInvertsPackRows | tools/LVGLImage.py:224-264 | Unpacking an image packed row by row gives back all h * w pixels, for every width and height. |
| Unpacking.PackedRowsUnpack | tools/LVGLImage.py:224-264 | The part of it about the rows: each packed row has the bytes of a stride and unpacks to its pixels. |
| Unpacking.UnpackColors | tools/LVGLImage.py:233-264 | The nested loops with their early stop at the end of a row compute the specified values. |
| Unpacking.UnpackByte | tools/LVGLImage.py:250-262 | The inner loop takes the fields of one byte up to the end of the row. |
| Planes.ChangeThenRestore | tools/LVGLImage.py:582-596 | A plane whose stride is changed and changed back is itself if and only if only zeros were cut off in between. |
| Planes.GrowThenRestore | tools/LVGLImage.py:582-596 | Growing and cutting back is always the identity, whatever lies behind the plane. |
| Planes.ShrinkThenRestore | tools/LVGLImage.py:582-596 | Cutting and growing back is the identity exactly when every cut byte was zero. |
| Planes.RowBytesKept | tools/LVGLImage.py:582-596 | Byte x of row y is the same before and after for every byte both strides reach. |
| Planes.ChangedLength | tools/LVGLImage.py:582-596 | A changed plane is h rows of the new stride. |
| Planes.HoldsIff | tools/LVGLImage.py:582-596 | The rows are all there exactly when stride times height bytes are. |
| Planes.AreaIsProduct | tools/LVGLImage.py:710-723 | Rows laid end to end are stride times height bytes. |
| Strides.AlignedIsLeast | tools/LVGLImage.py:448-459 | The aligned stride is a multiple of the alignment, at least the default, and no smaller multiple is. |
| Strides.DefaultIsLeast | tools/LVGLImage.py:461-463 | The default stride is the least number of bytes whose bits hold a row of pixels, with the bits of every format written out. |
| Strides.EveryPixelKept | tools/LVGLImage.py:549-614 | After any accepted change every byte that holds bits of any pixel of any row lies inside the new row and is the same. |
| Strides.EveryAlphaKept | tools/LVGLImage.py:549-614 | So it is with the alpha of every pixel of RGB565A8. |
| Strides.LengthIs | tools/LVGLImage.py:700-725 | The length of the data by format: four bytes for each palette entry, the rows, and the half-stride rows of the alpha plane. |
| ImageFormat.BitsAre | tools/LVGLImage.py:130-156 | The bits of a pixel in every one of the formats. |
| ImageFormat.EveryIndexHasItsColor | tools/LVGLImage.py:158-173 | An indexed format has as many palette entries as its bits can tell apart, and no other format has a palette. |
| Strides.AcceptedIff | tools/LVGLImage.py:549-580 | An adjustment is accepted exactly when the stride is zero with a usable alignment or no smaller than the default, or there is nothing to change. |
| Strides.ConsistentIff | tools/LVGLImage.py:598-614 | An accepted adjustment keeps the data as long as the header says, with exactly one exception: an indexed image without columns that shrinks. |
| Strides.ShrinkingWithoutColumns | tools/LVGLImage.py:710-723 | A concrete image for that exception. |
| Strides.PaletteKept | tools/LVGLImage.py:598-614 | Every palette byte survives in place. |
| Strides.PixelsKept | tools/LVGLImage.py:598-614 | Every bitmap byte both strides reach survives at its row and column. |
| Strides.AlphaKept | tools/LVGLImage.py:598-614 | So does every byte of the half-stride alpha plane of RGB565A8. |
| Strides.BackAgainIff | tools/LVGLImage.py:549-614 | Data changed to a stride and back is what it was if and only if a smaller stride cut off only zeros, in bitmap and alpha plane. |
| Strides.MiscountedNeverBack | tools/LVGLImage.py:549-614 | With a miscounted palette it never is: the data grows. |
| Strides.RestoredIff | tools/LVGLImage.py:549-614 | Going to any accepted stride and back through the public call restores the image exactly under the stated condition on strides and padding. |
| Strides.PngKeepsImageIff | tools/LVGLImage.py:830-888 | Writing a PNG drops and restores the row padding in place; the condition under which the image is unchanged afterwards, both ways. |
| Strides.ChangedStride | tools/LVGLImage.py:582-596 | The loop over the rows computes the changed plane. |
| Strides.LvglImage.SetData | tools/LVGLImage.py:731-758 | Accepted exactly when the length fits the header; on a refusal for the length the header is already the new one. |
| Strides.LvglImage.AdjustStride | tools/LVGLImage.py:549-614 | The fields end up as in the specified change, which EveryPixelKept, DefaultIsLeast and AcceptedIff are about, and a refusal changes nothing. |
| Strides.LvglImage.ChangeTo | tools/LVGLImage.py:563-614 | The part behind the alignment: strides below the default are refused. |
| Strides.LvglImage.NewData | tools/LVGLImage.py:598-614 | Palette, bitmap and alpha plane are cut, changed and joined as specified. |
| Mspi.LazyIsEager | drivers/mspi/mspi_esp32.c:724-817 | Over any sequence of configuration and transfer calls, failing ones included, programming the registers only when marked dirty gives the same bus, statuses and visible events as programming them every time. |
| Mspi.CallsAgree | drivers/mspi/mspi_esp32.c:724-968 | The same for a single call from any state whose registers are current or marked dirty. |
| Mspi.UpdatesAgree | drivers/mspi/mspi_esp32.c:724-817 | The same for the update itself. |
| Mspi.TransceiveUsesConfiguration | drivers/mspi/mspi_esp32.c:908-968 | At every transfer the hardware registers equal the device configuration of that moment, whatever came before. |
| Mspi.ConfigureKeepsCurrent | drivers/mspi/mspi_esp32.c:823-902 | A configuration call, even one that fails part-way, never leaves stale registers unmarked. |
| Mspi.PacketsUseRegisters | drivers/mspi/mspi_esp32.c:640-718 | Every packet is clocked out with those registers, and sending changes nothing but the chip enable. |
| Mspi.ModeIsOnTheWire | drivers/mspi/mspi_esp32.c:64-112 | For each of the eleven I/O modes, on how many lines every command, address and data symbol of a transfer is clocked, whatever becomes of the transfer. |
| Mspi.ConfigurationIsOnTheWire | drivers/mspi/mspi_esp32.c:823-902 | After a configuration that succeeded, every symbol of the next transfer is clocked with the clock mode, pin, polarity and timing it asked for, and with those of before where it asked for nothing. |
| Mspi.ConfigurationIsRemembered | drivers/mspi/mspi_esp32.c:823-902 | The I/O mode, pin and polarity the driver keeps are those asked for, field by field, and a new pin or polarity lets go of a held device. |
| Mspi.ConfigureSucceedsIff | drivers/mspi/mspi_esp32.c:823-902 | A configuration succeeds exactly when it asks for nothing else than the driver knows, for a clock mode there is, and for a frequency that is not too high and can be derived. |
| Mspi.RefusedConfiguration | drivers/mspi/mspi_esp32.c:823-902 | A configuration refused part-way is as if only what comes before had been asked for: nothing, the I/O mode alone, or all but the frequency, whose timing is the old one or what the failed calculation left. |
| Mspi.AlignsIff | drivers/mspi/mspi_esp32.c:783-817 | The clock is aligned exactly when the registers are programmed, in mode 3, on a chip that needs it, with a pin for the chip enable. |
| Mspi.TransferFailsIff | drivers/mspi/mspi_esp32.c:640-718 | Exactly when a packet is too long, has no buffer or times out, and that the first two touch nothing. |
| Mspi.WindowIsByPolarity | drivers/mspi/mspi_esp32.c:908-968 | A transfer that succeeds is framed by its chip enable: active level first unless the device was held, inactive level last unless it is to be held, high or low by the polarity, nothing but symbols in between. |
| Mspi.PacketOnTheWire | drivers/mspi/mspi_esp32.c:640-718 | A packet is its opcode cut to 16 bits, its address and its bytes, or for a read the dummy bits of the timing in force and as many bytes as asked for. |
| Mspi.MspiController.constructor | drivers/mspi/mspi_esp32.c:1138-1200 | After a reset everything is still marked to be programmed. |
| Mspi.MspiController.CsGpioSet | drivers/mspi/mspi_esp32.c:115-133 | The pin moves, or the call fails and it does not. |
| Mspi.MspiController.Shift | drivers/mspi/mspi_esp32.c:581-615 | One hardware transaction asserts, clocks and releases or keeps the hardware chip enable. |
| Mspi.MspiController.Transfer | drivers/mspi/mspi_esp32.c:640-718 | Size limit, buffer preparation, the transaction and its timeout; when a DMA channel does not start, other bytes are clocked out and the result is that of the transaction all the same, as in the code. |
| Mspi.MspiController.UpdateTransferConfig | drivers/mspi/mspi_esp32.c:724-817 | Registers, lines and dummy bits become those of the specified update, which ModeIsOnTheWire and ConfigurationIsOnTheWire read on the wire; the mark is cleared; the alignment transaction is sent on the same condition. |
| Mspi.MspiController.DevConfig | drivers/mspi/mspi_esp32.c:823-902 | Device configuration, mark and status become those of the specified configuration, which ConfigurationIsOnTheWire reads on the wire field by field; the fields set before a failing one stay set and marked. |
| Mspi.MspiController.TransferAll | drivers/mspi/mspi_esp32.c:948-957 | The packet loop stops at the first failure. |
| Mspi.MspiController.Transceive | drivers/mspi/mspi_esp32.c:908-968 | Device selection, lazy update, packets and release, in the order and under the conditions of the code. |
| Mspi.MspiController.Exchange | drivers/mspi/mspi_esp32.c:931-968 | The same without the update. |
| Mspi.MspiController.SelectDevice | drivers/mspi/mspi_esp32.c:935-946 | Selects by pin unless the device is held already. |
| Mspi.MspiController.ReleaseDevice | drivers/mspi/mspi_esp32.c:958-966 | Releases unless held and successful. |
| Panel.WriteShowsPicture | drivers/display/display_elco5300.c:278-328 | Without faults an accepted write succeeds, and byte by byte the panel is sent the columns, the pages and the memory write on one line, and then on four lines, for every row, column and byte of a pixel, the byte of the buffer at that place, with nothing behind the last one. |
| Panel.RefusedIff | drivers/display/display_elco5300.c:246-298 | A rectangle is refused exactly when it is empty or starts beyond the screen as it is turned. |
| Panel.WriteOnWire | drivers/display/display_elco5300.c:278-328 | For every rectangle, buffer, chunk size and fault, from any state in which the driver holds no device: a write is refused without touching the bus; or puts four messages on the wire, each in one chip-enable window, the last being the pixels; or stops at some message having sent a prefix of those bytes and let go of the device, and whether the line is still asserted is said by the fault alone. |
| Panel.WriteIsExactIff | drivers/display/display_elco5300.c:278-328 | A successful write shows the panel its own addresses and pixels if and only if every address message and chunk whose DMA channel did not start was clocked out as it is all the same. |
| Panel.StreamIsOneTransfer | drivers/display/display_elco5300.c:300-325 | Chunks of any size refine one transfer: a successful stream is one command header and then the bytes carried, inside a single chip-enable window. |
| Panel.StreamIsExactIff | drivers/display/display_elco5300.c:300-325 | The same for the pixels alone: a successful stream is its own bytes if and only if every chunk was carried as it is. |
| Panel.FedIsCarried | drivers/mspi/mspi_esp32.c:689-700 | Without a DMA channel that does not start, everything is carried as it is. |
| Panel.StreamEndsInPart | drivers/display/display_elco5300.c:300-325 | A stream that fails at any chunk sent a prefix, and the driver has let go of the device; whether the line itself is still asserted is said exactly by fault, sizes and configuration. |
| Panel.WriteSucceedsIff | drivers/display/display_elco5300.c:278-328 | Without bus faults a write succeeds exactly when the rectangle is not empty, starts on the screen, and the bus takes the addresses and the largest chunk. |
| Panel.CleanStream | drivers/display/display_elco5300.c:300-325 | The part of it about the chunks. |
| Panel.TransmittedWhole | drivers/display/display_elco5300.c:57-116 | One successful transmission is one message in one window, or its part of a longer one. |
| Panel.TransmittedExactlyIff | drivers/mspi/mspi_esp32.c:689-700 | It puts its own bytes on the wire if and only if those are what was carried. |
| Panel.TransmittedInPart | drivers/display/display_elco5300.c:57-116 | One failed transmission sent a prefix of its message and let go; the line is still asserted exactly as for ExchangedInPart. |
| Panel.ExchangedInPart | drivers/mspi/mspi_esp32.c:931-968 | A failed exchange sent a prefix and let go of the device; its chip enable is still asserted exactly when a pin that was set would not release or an earlier failure left it so, or when the enable is that of the hardware and was asserted before or the timeout stopped a packet within the size limit. |
| Panel.HardwareEnableIsLeft | drivers/mspi/mspi_esp32.c:958-966 | A concrete fault at a later chunk that leaves a hardware chip enable asserted. |
| Panel.UnfedGoesUnnoticed | drivers/mspi/mspi_esp32.c:691-700 | A concrete DMA fault after which the panel got another byte and the driver reports success. |
| Panel.SpanIsReadIff | drivers/display/display_elco5300.c:246-276 | The panel reads back the first and last column or page from the four address bytes if and only if the span ends within 16 bits. |
| Panel.RectangleIsReadIff | drivers/display/display_elco5300.c:246-298 | An accepted rectangle reaches the panel as it is if and only if, with the offsets of the panel, it ends within 16 bits in both directions. |
| Panel.OffsetWrapsRound | drivers/display/display_elco5300.c:246-276 | A rectangle that the offset takes beyond 16 bits is accepted and addressed at the other edge. |
| Panel.WriteBesideScreenSucceeds | drivers/display/display_elco5300.c:285-298 | A write whose corner is the first column behind the screen succeeds, and the panel reads just that column. |
| Panel.Co5300.Transmit | drivers/display/display_elco5300.c:57-116 | The transmission the lemmas are about, through the bus object. |
| Panel.Co5300.SendCommand | drivers/display/display_elco5300.c:57-116 | A command with its parameters in single mode. |
| Panel.Co5300.SendAddresses | drivers/display/display_elco5300.c:246-276 | Column and then page addresses, stopping at the first failure. |
| Panel.Co5300.SendChunk | drivers/display/display_elco5300.c:306-321 | The first chunk carries the command, the last one releases. |
| Panel.Co5300.Stream | drivers/display/display_elco5300.c:300-325 | The loop over pointer, remaining and flags is the specified stream. |
| Panel.Co5300.Write | drivers/display/display_elco5300.c:278-328 | The whole call, refusals included, is the write that WriteShowsPicture and WriteOnWire are about. |
| Cbor.NumberOfBigEndian | app/src/configuration/cbor/cbor_ui_config/cbor_ui_config_cbor_decode.cpp:43-174 | Section 3 of RFC 8949: a number is read back from its big-endian bytes. |
| Cbor.HeadIsRead | app/src/configuration/cbor/cbor_ui_config/cbor_ui_config_cbor_decode.cpp:43-174 | Section 3: the shortest head of any major type and argument below 2^32 is read back, and nothing behind it. |
| Cbor.Uint32IsRead | app/src/configuration/cbor/cbor_ui_config/cbor_ui_config_cbor_decode.cpp:217-253 | An unsigned integer comes back and the cursor is just behind it, inside lists of known or open length. |
| Cbor.Int32IsRead | app/src/configuration/cbor/cbor_ui_config/cbor_ui_config_cbor_decode.cpp:43-174 | A signed integer of either major type comes back. |
| Cbor.BoolIsRead | app/src/configuration/cbor/cbor_ui_config/cbor_ui_config_cbor_decode.cpp:43-174 | A boolean comes back. |
| Cbor.Float64IsRead | app/src/configuration/cbor/cbor_ui_config/cbor_ui_config_cbor_decode.cpp:43-174 | A double comes back bit by bit. |
| Cbor.TextIsRead | app/src/configuration/cbor/cbor_ui_config/cbor_ui_config_cbor_decode.cpp:43-174 | A text comes back with any bytes and any length below 2^32. |
| Cbor.HeadIsStandard | app/src/configuration/cbor/cbor_ui_config/cbor_ui_config_cbor_encode.cpp:30-70 | Section 3 of RFC 8949: every head written is the initial byte of its major type and the argument in the fewest bytes, most significant first. |
| Cbor.ScalarsAreStandard | app/src/configuration/cbor/cbor_ui_config/cbor_ui_config_cbor_encode.cpp:42-58 | Sections 3.1 and 3.3: the bytes written for integers, booleans, doubles and texts are the standard ones. |
| Cbor.AnyHeadIsRead | app/src/configuration/cbor/cbor_ui_config/cbor_ui_config_cbor_decode.cpp:43-174 | Section 3: heads in any width, shortest or not, and heads of indefinite length are read; the reserved ones are refused. |
| CborConfig.PropertyKeepsBackups | app/src/configuration/cbor/cbor_ui_config/cbor_ui_config_cbor_decode.cpp:176-186 | Whatever the payload, a property restores every backup it took. |
| CborConfig.PropertiesMoveOn | app/src/configuration/cbor/cbor_ui_config/cbor_ui_config_cbor_decode.cpp:188-215 | Whatever the payload, the cursor never moves back or past the end. |
| CborConfig.ContainersAreStandard | app/src/configuration/cbor/cbor_ui_config/cbor_ui_config_cbor_encode.cpp:72-83 | Section 3.2.2: lists and maps of open length begin and end with the standard bytes. |
| CborConfig.ValueLayout | app/src/configuration/cbor/cbor_ui_config/cbor_ui_config_cbor_encode.cpp:42-70 | A property is its key and then its value, and the initial byte says which of the kinds the value is. |
| CborConfig.GridLayout | app/src/configuration/cbor/cbor_ui_config/cbor_ui_config_cbor_encode.cpp:85-97 | The fields of a grid in their order. |
| CborConfig.PlaceLayout | app/src/configuration/cbor/cbor_ui_config/cbor_ui_config_cbor_encode.cpp:99-121 | The fields of a position and of a size in their order. |
| CborConfig.BindingLayout | app/src/configuration/cbor/cbor_ui_config/cbor_ui_config_cbor_encode.cpp:123-140 | The fields of a binding in their order. |
| CborConfig.WidgetLayout | app/src/configuration/cbor/cbor_ui_config/cbor_ui_config_cbor_encode.cpp:142-160 | The fields of a widget in their order. |
| CborConfig.ScreenLayout | app/src/configuration/cbor/cbor_ui_config/cbor_ui_config_cbor_encode.cpp:162-182 | The fields of a screen in their order. |
| CborConfig.UiLayout | app/src/configuration/cbor/cbor_ui_config/cbor_ui_config_cbor_encode.cpp:184-200 | The fields of the whole record in their order. |
| CborRoundTrip.RoundTripIff | app/src/configuration/cbor/cbor_ui_config/cbor_ui_config_cbor_decode.cpp:416-466 | For every nesting of screens, widgets, bindings and values, decoding gives back exactly what was encoded if and only if no empty list of texts is in it. |
| CborRoundTrip.DecodeEncode | app/src/configuration/cbor/cbor_ui_config/cbor_ui_config_cbor_decode.cpp:470-479 | Decoding what was encoded always succeeds, uses every byte, leaves no backup, and is the original up to those lists. |
| CborRoundTrip.ValueIsRead | app/src/configuration/cbor/cbor_ui_config/cbor_ui_config_cbor_decode.cpp:43-174 | Ordered choice never picks a wrong alternative: each of the eight kinds is read back as itself, with the cursor restored before each attempt. |
| CborRoundTrip.TextsAreNoInts | app/src/configuration/cbor/cbor_ui_config/cbor_ui_config_cbor_decode.cpp:43-174 | A list of texts that is not empty fails as a list of integers at its first item. |
| CborRoundTrip.EmptyListsLookAlike | app/src/configuration/cbor/cbor_ui_config/cbor_ui_config_cbor_encode.cpp:42-58 | The exception: empty lists of texts and of integers have the same bytes. |
| CborRoundTrip.PropertiesAreRead | app/src/configuration/cbor/cbor_ui_config/cbor_ui_config_cbor_decode.cpp:188-215 | Present properties come back, and absent ones decode as absent from the list that follows. |
| CborRoundTrip.GridIsRead | app/src/configuration/cbor/cbor_ui_config/cbor_ui_config_cbor_decode.cpp:217-229 | Grid settings come back. |
| CborRoundTrip.BindingIsRead | app/src/configuration/cbor/cbor_ui_config/cbor_ui_config_cbor_decode.cpp:255-272 | A binding with its selector comes back. |
| CborRoundTrip.WidgetIsRead | app/src/configuration/cbor/cbor_ui_config/cbor_ui_config_cbor_decode.cpp:274-339 | A widget comes back with its nested lists. |
| CborRoundTrip.ScreenIsRead | app/src/configuration/cbor/cbor_ui_config/cbor_ui_config_cbor_decode.cpp:341-414 | A screen comes back with all its widgets. |
| CborRoundTrip.UiIsRead | app/src/configuration/cbor/cbor_ui_config/cbor_ui_config_cbor_decode.cpp:416-466 | The whole record comes back, inside whatever else the payload holds. |
| CborRoundTrip.ManyReadsBack | app/src/configuration/cbor/cbor_ui_config/cbor_ui_config_cbor_decode.cpp:274-339 | A loop over an open list reads every item and stops at the break, for any item reader that reads back. |
| CborRoundTrip.ListedReadsBack | app/src/configuration/cbor/cbor_ui_config/cbor_ui_config_cbor_decode.cpp:274-339 | So does the list with its opening and closing. |
| CborEncoder.Encode | app/src/configuration/cbor/cbor_ui_config/cbor_ui_config_cbor_encode.cpp:204-213 | Succeeds if and only if the bytes fit the payload, and then the payload starts with exactly them. |
| CborEncoder.Encoder.EncodeEntry | app/src/configuration/cbor/cbor_ui_config/cbor_ui_config_cbor_encode.cpp:30-40 | Appends exactly the bytes of a key and its text to the buffer if they fit, and fails otherwise with what was written before still there. |
| CborEncoder.Encoder.EncodeValue | app/src/configuration/cbor/cbor_ui_config/cbor_ui_config_cbor_encode.cpp:42-58 | Appends exactly the bytes of the alternative that is there to the buffer if they fit, and fails otherwise with what was written before still there. |
| CborEncoder.Encoder.EncodeProperty | app/src/configuration/cbor/cbor_ui_config/cbor_ui_config_cbor_encode.cpp:60-70 | Appends exactly the bytes of a key and its value to the buffer if they fit, and fails otherwise with what was written before still there. |
| CborEncoder.Encoder.EncodeProperties | app/src/configuration/cbor/cbor_ui_config/cbor_ui_config_cbor_encode.cpp:72-83 | Appends exactly the bytes of a map, or nothing for absent properties to the buffer if they fit, and fails otherwise with what was written before still there. |
| CborEncoder.Encoder.EncodeGrid | app/src/configuration/cbor/cbor_ui_config/cbor_ui_config_cbor_encode.cpp:85-97 | Appends exactly the bytes of a grid to the buffer if they fit, and fails otherwise with what was written before still there. |
| CborEncoder.Encoder.EncodePosition | app/src/configuration/cbor/cbor_ui_config/cbor_ui_config_cbor_encode.cpp:99-109 | Appends exactly the bytes of a position to the buffer if they fit, and fails otherwise with what was written before still there. |
| CborEncoder.Encoder.EncodeSize | app/src/configuration/cbor/cbor_ui_config/cbor_ui_config_cbor_encode.cpp:111-121 | Appends exactly the bytes of a size to the buffer if they fit, and fails otherwise with what was written before still there. |
| CborEncoder.Encoder.EncodeBinding | app/src/configuration/cbor/cbor_ui_config/cbor_ui_config_cbor_encode.cpp:123-140 | Appends exactly the bytes of a binding to the buffer if they fit, and fails otherwise with what was written before still there. |
| CborEncoder.Encoder.EncodeWidget | app/src/configuration/cbor/cbor_ui_config/cbor_ui_config_cbor_encode.cpp:142-160 | Appends exactly the bytes of a widget to the buffer if they fit, and fails otherwise with what was written before still there. |
| CborEncoder.Encoder.EncodeScreen | app/src/configuration/cbor/cbor_ui_config/cbor_ui_config_cbor_encode.cpp:162-182 | Appends exactly the bytes of a screen to the buffer if they fit, and fails otherwise with what was written before still there. |
| CborEncoder.Encoder.EncodeUi | app/src/configuration/cbor/cbor_ui_config/cbor_ui_config_cbor_encode.cpp:184-200 | Appends exactly the bytes of the whole configuration to the buffer if they fit, and fails otherwise with what was written before still there. |
| CborDecoder.DecodePayload | app/src/configuration/cbor/cbor_ui_config/cbor_ui_config_cbor_decode.cpp:470-479 | Result and consumed length are those of the specified reading, for every payload, malformed ones included. |
| CborDecoder.Decoder.DecodeEntry | app/src/configuration/cbor/cbor_ui_config/cbor_ui_config_cbor_decode.cpp:31-41 | Result and decoder state afterwards are those of the specified reading of an entry, for every payload and state. |
| CborDecoder.Decoder.DecodeValue | app/src/configuration/cbor/cbor_ui_config/cbor_ui_config_cbor_decode.cpp:43-174 | Result and decoder state afterwards are those of the specified reading with each alternative tried from the same restored cursor, count and backups, for every payload and state. |
| CborDecoder.Decoder.DecodeContainer | app/src/configuration/cbor/cbor_ui_config/cbor_ui_config_cbor_decode.cpp:88-172 | Result and decoder state afterwards are those of the specified reading of the three list and map alternatives, for every payload and state. |
| CborDecoder.Decoder.DecodeProperty | app/src/configuration/cbor/cbor_ui_config/cbor_ui_config_cbor_decode.cpp:176-186 | Result and decoder state afterwards are those of the specified reading of a property, for every payload and state. |
| CborDecoder.Decoder.DecodeProperties | app/src/configuration/cbor/cbor_ui_config/cbor_ui_config_cbor_decode.cpp:188-215 | Result and decoder state afterwards are those of the specified reading with the map given up for absent when it does not start, for every payload and state. |
| CborDecoder.Decoder.DecodeGrid | app/src/configuration/cbor/cbor_ui_config/cbor_ui_config_cbor_decode.cpp:217-229 | Result and decoder state afterwards are those of the specified reading of a grid, closed by force on a failure, for every payload and state. |
| CborDecoder.Decoder.DecodePosition | app/src/configuration/cbor/cbor_ui_config/cbor_ui_config_cbor_decode.cpp:231-241 | Result and decoder state afterwards are those of the specified reading of a position, for every payload and state. |
| CborDecoder.Decoder.DecodeSize | app/src/configuration/cbor/cbor_ui_config/cbor_ui_config_cbor_decode.cpp:243-253 | Result and decoder state afterwards are those of the specified reading of a size, for every payload and state. |
| CborDecoder.Decoder.DecodeBinding | app/src/configuration/cbor/cbor_ui_config/cbor_ui_config_cbor_decode.cpp:255-272 | Result and decoder state afterwards are those of the specified reading of a binding, for every payload and state. |
| CborDecoder.Decoder.DecodeBindings | app/src/configuration/cbor/cbor_ui_config/cbor_ui_config_cbor_decode.cpp:301-327 | Result and decoder state afterwards are those of the specified reading of the list of bindings, for every payload and state. |
| CborDecoder.Decoder.DecodeWidget | app/src/configuration/cbor/cbor_ui_config/cbor_ui_config_cbor_decode.cpp:274-339 | Result and decoder state afterwards are those of the specified reading of a widget, for every payload and state. |
| CborDecoder.Decoder.DecodeWidgets | app/src/configuration/cbor/cbor_ui_config/cbor_ui_config_cbor_decode.cpp:375-402 | Result and decoder state afterwards are those of the specified reading of the list of widgets, for every payload and state. |
| CborDecoder.Decoder.DecodeScreen | app/src/configuration/cbor/cbor_ui_config/cbor_ui_config_cbor_decode.cpp:341-414 | Result and decoder state afterwards are those of the specified reading of a screen, for every payload and state. |
| CborDecoder.Decoder.DecodeScreens | app/src/configuration/cbor/cbor_ui_config/cbor_ui_config_cbor_decode.cpp:428-454 | Result and decoder state afterwards are those of the specified reading of the list of screens, for every payload and state. |
| CborDecoder.Decoder.DecodeUi | app/src/configuration/cbor/cbor_ui_config/cbor_ui_config_cbor_decode.cpp:416-466 | Result and decoder state afterwards are those of the specified reading of the whole record, for every payload and state. |
| UiValidator.AcceptedIff | app/src/domain/ui_domain/configuration/parsers/ui_configuration_validator.cpp:23-358 | A configuration is accepted if and only if it is sound, said over names and values alone: at most 24 screens with ids of their own, each of a known type and with a grid that is not empty, one of them in the active group if there are any, and on each screen widgets of a known type with ids of their own, not empty, no larger than the grid and starting inside it, with properties of the 28 names, each a bool, a text or a number as its name wants it, and bindings of known targets, channels and directions. |
| UiValidator.PropertyOkIff | app/src/domain/ui_domain/configuration/parsers/ui_configuration_validator.cpp:282-312 | A property passes if and only if its key is one of the three flag names and its value a bool, one of the text names and its value a text, or one of the number names and its value an int or a double. |
| UiValidator.NamedProblemIsThere | app/src/domain/ui_domain/configuration/parsers/ui_configuration_validator.cpp:112-358 | The problem a refusal names is there. |
| UiValidator.VerdictInAnyOrder | app/src/domain/ui_domain/configuration/parsers/ui_configuration_validator.cpp:112-358 | The verdict, down to the kind of problem it names, does not depend on the order of any screen's widgets. |
| UiValidator.ScreenInAnyOrder | app/src/domain/ui_domain/configuration/parsers/ui_configuration_validator.cpp:181-358 | The same for one screen. |
| UiValidator.DistinctIff | app/src/domain/ui_domain/configuration/parsers/ui_configuration_validator.cpp:190-203 | The id set that grows along the list accepts exactly the lists that hold each id once, as a multiset. |
| UiValidator.TypeFrom | app/src/domain/ui_domain/models/widget_property.h:46-95 | The first name that the key spells. |
| UiValidator.GetType | app/src/domain/ui_domain/models/widget_property.h:89-95 | The search over the names returns the first that matches, or nothing for a key that is none. |
| UiValidator.Validate | app/src/domain/ui_domain/configuration/parsers/ui_configuration_validator.cpp:112-125 | The sub-checks in their order: none if and only if the configuration is sound (AcceptedIff), or else the first problem. |
| UiValidator.ValidateScreenId | app/src/domain/ui_domain/configuration/parsers/ui_configuration_validator.cpp:127-136 | Refuses exactly when two screens share an id. |
| UiValidator.ValidateScreenType | app/src/domain/ui_domain/configuration/parsers/ui_configuration_validator.cpp:138-151 | Refuses exactly when some screen has no known type. |
| UiValidator.ValidateScreenGrid | app/src/domain/ui_domain/configuration/parsers/ui_configuration_validator.cpp:153-161 | Refuses exactly when some grid is empty in one direction. |
| UiValidator.ValidateActiveScreenGroupId | app/src/domain/ui_domain/configuration/parsers/ui_configuration_validator.cpp:163-174 | Refuses exactly when there are screens and none of them is in the active group. |
| UiValidator.ValidateScreens | app/src/domain/ui_domain/configuration/parsers/ui_configuration_validator.cpp:176-179 | The first screen with a problem decides. |
| UiValidator.ValidateWidgets | app/src/domain/ui_domain/configuration/parsers/ui_configuration_validator.cpp:181-188 | The six widget checks in their order. |
| UiValidator.ValidateWidgetId | app/src/domain/ui_domain/configuration/parsers/ui_configuration_validator.cpp:190-203 | Refuses exactly when two widgets of the screen share an id. |
| UiValidator.ValidateWidgetType | app/src/domain/ui_domain/configuration/parsers/ui_configuration_validator.cpp:205-230 | Refuses exactly when some widget has no known type. |
| UiValidator.ValidateWidgetSize | app/src/domain/ui_domain/configuration/parsers/ui_configuration_validator.cpp:232-255 | Refuses exactly when some widget is empty or larger than the grid. |
| UiValidator.ValidateWidgetPosition | app/src/domain/ui_domain/configuration/parsers/ui_configuration_validator.cpp:257-280 | Refuses exactly when some widget starts outside the grid. |
| UiValidator.ValidateWidgetProperties | app/src/domain/ui_domain/configuration/parsers/ui_configuration_validator.cpp:282-312 | Refuses exactly when some property is not one of the 28 names with a value of the kind its name wants (PropertyOkIff). |
| UiValidator.ValidateWidgetBindings | app/src/domain/ui_domain/configuration/parsers/ui_configuration_validator.cpp:316-358 | Refuses exactly when some binding fails one of its checks. |
| UiValidator.CheckBindings | app/src/domain/ui_domain/configuration/parsers/ui_configuration_validator.cpp:316-358 | The loop over the bindings of one widget. |
| WidgetOrder.AddedSameIff | app/src/domain/ui_domain/models/screen_configuration.h:47-55 | Adding widgets one by one gives the same list if and only if they were in z-order. |
| WidgetOrder.AddedIsSorted | app/src/domain/ui_domain/models/screen_configuration.h:47-55 | It always gives a list in z-order that is a permutation. |
| WidgetOrder.AddedIsStable | app/src/domain/ui_domain/models/screen_configuration.h:47-55 | On every level the widgets keep the order they were added in. |
| WidgetOrder.InsertedInOrder | app/src/domain/ui_domain/models/screen_configuration.h:47-55 | One insertion keeps the order. |
| WidgetOrder.InsertedAt | app/src/domain/ui_domain/models/screen_configuration.h:47-55 | The upper bound is where the recursive insertion puts the widget. |
| WidgetOrder.LevelOfInserted | app/src/domain/ui_domain/models/screen_configuration.h:47-55 | A widget joins its level at the end and leaves the other levels alone. |
| WidgetOrder.Screen.AddWidget | app/src/domain/ui_domain/models/screen_configuration.h:47-55 | The search and the insertion in place are that insertion. |
| UiParser.StoredAndLoadedIff | app/src/domain/ui_domain/configuration/parsers/ui_configuration_cbor_parser.cpp:155-273 | From the model through bytes and back: the decoder reads every byte, and a valid configuration comes back unchanged if and only if its widgets were in z-order and its own properties hold no empty list of texts. |
| UiParser.ModelRoundTripIff | app/src/domain/ui_domain/configuration/parsers/ui_configuration_cbor_parser.cpp:155-273 | Without the bytes in between: Deserialize(Serialize(c)) is c for a valid c if and only if its widgets were in z-order, in whatever order the maps were written. |
| UiParser.SerializedComesBack | app/src/domain/ui_domain/configuration/parsers/ui_configuration_cbor_parser.cpp:155-273 | Otherwise it comes back valid with its widgets stably sorted. |
| UiParser.LoadedIsStable | app/src/domain/ui_domain/configuration/parsers/ui_configuration_cbor_parser.cpp:212-273 | What was loaded once is stored and loaded unchanged from then on. |
| UiParser.SortedSameIff | app/src/domain/ui_domain/configuration/parsers/ui_configuration_cbor_parser.cpp:212-273 | Sorting the screens changes nothing exactly when all are in z-order. |
| UiParser.ValidIsFaithfulIff | app/src/domain/ui_domain/configuration/parsers/ui_configuration_cbor_parser.cpp:155-210 | Of a valid configuration only its own properties can hold the list the codec confuses. |
| UiParser.ValueComesBack | app/src/domain/ui_domain/configuration/parsers/ui_configuration_cbor_parser.cpp:25-105 | Every kind of property value survives both conversions. |
| UiParser.PropertiesComeBack | app/src/domain/ui_domain/configuration/parsers/ui_configuration_cbor_parser.cpp:275-296 | Property maps do, with empty maps written as absent. |
| UiParser.BindingComesBack | app/src/domain/ui_domain/configuration/parsers/ui_configuration_cbor_parser.cpp:107-151 | A binding does, and an absent selector survives its placeholder. |
| UiParser.WidgetComesBack | app/src/domain/ui_domain/configuration/parsers/ui_configuration_cbor_parser.cpp:155-273 | A widget does. |
| UiParser.ScreensComeBack | app/src/domain/ui_domain/configuration/parsers/ui_configuration_cbor_parser.cpp:155-273 | Screens do, with their widgets sorted. |
| UiParser.BindingFields | app/src/domain/ui_domain/configuration/parsers/ui_configuration_cbor_parser.cpp:107-151 | Field by field, the record of a binding and the binding of a record. |
| UiParser.WidgetFields | app/src/domain/ui_domain/configuration/parsers/ui_configuration_cbor_parser.cpp:155-273 | Field by field, the record of a widget and the widget of a record. |
| UiParser.ScreenFields | app/src/domain/ui_domain/configuration/parsers/ui_configuration_cbor_parser.cpp:155-273 | Field by field, the record of a screen and the screen of a record. |
| UiParser.UiFields | app/src/domain/ui_domain/configuration/parsers/ui_configuration_cbor_parser.cpp:155-273 | What is written says version 1; any other version is refused, and so is what the validator refuses, with its problem. |
| UiParser.FirstOfKeyStays | app/src/domain/ui_domain/configuration/parsers/ui_configuration_cbor_parser.cpp:275-296 | Of several entries with one key the first stays. |
| UiParser.Serialize | app/src/domain/ui_domain/configuration/parsers/ui_configuration_cbor_parser.cpp:155-210 | Refuses with the validator's problem, fails on a value that was never set, and otherwise gives a record of the model. |
| UiParser.Deserialize | app/src/domain/ui_domain/configuration/parsers/ui_configuration_cbor_parser.cpp:212-273 | Loops, maps and AddWidget compute the specified model, and the validator has the last word. |
| UiParser.ToCborPropertyValue | app/src/domain/ui_domain/configuration/parsers/ui_configuration_cbor_parser.cpp:25-67 | A record of the value, or the exception exactly for a value that was never set. |
| UiParser.ToCborBindings | app/src/domain/ui_domain/configuration/parsers/ui_configuration_cbor_parser.cpp:107-128 | Records of the bindings, one for one. |
| UiParser.ToCborScreens | app/src/domain/ui_domain/configuration/parsers/ui_configuration_cbor_parser.cpp:155-210 | Records of the screens, one for one. |
| UiParser.FromCborPropertyValue | app/src/domain/ui_domain/configuration/parsers/ui_configuration_cbor_parser.cpp:69-105 | The value of the record. |
| UiParser.FromCborBindings | app/src/domain/ui_domain/configuration/parsers/ui_configuration_cbor_parser.cpp:130-151 | The bindings of the records, with the target cast to 16 bits. |
| UiParser.DeserializeScreen | app/src/domain/ui_domain/configuration/parsers/ui_configuration_cbor_parser.cpp:212-273 | The screen of the record, widgets added one by one. |
| UiParser.DeserializeScreens | app/src/domain/ui_domain/configuration/parsers/ui_configuration_cbor_parser.cpp:212-273 | The screens of the records, one for one. |

## Left out

- Settings.SlidersConverge: does not model rounding between double and float, because the range of the display consists of whole numbers.
- Settings.PublishedRangeIsKept: covers the three constants of the brightness setting, the only setting in the repository.
- Mspi.MspiController.Transfer: does not model what a receiving transfer stores in its buffer.
- CborDecoder.Decoder.DecodeValue: does not model a bound on the depth of backups; the ten states of the entry point suffice for the fixed depth of the schema.
- CborEncoder.Encode: says nothing about the bytes left in the payload when it fails.
- UiValidator.Validate: names the kind of problem, not the message and the ids in it.
- UiParser.Serialize: maps and lists are values; sharing of screens and widgets through `shared_ptr` is not modelled.
- LVGL drawing, themes, fonts, frames and the individual indicators: user-interface calls without logic of their own; rendering is "succeeds or fails".
- What a property's change effect leads to, the configuration of widgets and the selector filter of a binding: only which dispatcher feeds which property is kept.
- Overlay auto-close timers, which the controller never enables, and stacks deeper than the controller can build.
- Exceptions for lack of memory in the controller, and a render dispatcher that drops a job.
- `cbor_*_size.h`: it rests on a size builder that is not part of this model.
- CBOR of the display configuration, generated the same way as that of the UI.
- PNG reading and writing, colour quantisation, LZ4, premultiplication, sRGB conversion, C-array text, and pixels of 16, 24 and 32 bits.
- `bit_extend`: no claim, since it does not invert the RGB565 packing.
- Panel commands for sleep, blanking, orientation, brightness and pixel format, which are single transmissions.
- The clock divider that the timing configuration computes; the clock's success or failure is an input.
- Mutexes and interrupts, the grid layout and the touch driver.
