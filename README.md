# React learning project, week 1: the state logic of the demo components

This project models, in Dafny, the state held by the demo components of a
small React teaching project and proves what their handlers promise:

- **To-do list** (`RenderingLogic.tsx`): the `{id, text, completed}` records;
  the 'all' / 'active' / 'completed' views; `toggleTodo`, which flips one
  record immutably; `addTodo`, which appends a record whose id is the
  largest id plus one. The same file holds the `isLoggedIn`, `showContent`
  and `selectedTab` cells and the guards that depend on them. Module
  `TodoList` (pure functions over sequences) and module `RenderingLogic`
  (the component's state cells as a class, plus its render guards).
- **Menu** (`App.tsx`): the open flag of the week-1 section and the nullable
  submenu selection. Re-selecting the selected submenu clears it. At most
  one content panel shows. Module `App`.
- **Timer and counter** (`StateAndLifecycle.tsx`): `ClassTimer`'s
  `isRunning`, `time` and `timerID`, and its lifecycle methods. Its one
  resource is the interval it registers with the host. `FunctionCounter`'s
  `count` and `lastUpdate`. Module `StateAndLifecycle`. The timer is
  specified by a value-level model (`TimerState` and the `After…`
  functions). The class `ClassTimer` and the host's interval registry
  `IntervalHost` are proved against that model.
- **Event handlers** (`EventHandling.tsx`): the click counter, the cursor
  position, the controlled text input and the two-field form. Module
  `EventHandling`.

Each handler is one atomic, sequential transition. Time is an abstract
clock value passed in by the caller. An interval handle is an opaque
positive number minted by the host's registry. One timer update cycle is
the event's state update followed by `componentDidUpdate`, which receives
the `isRunning` from before the update. The files are `wrappers.dfy`
(an `Option` type), `todo_list.dfy`, `rendering_logic.dfy`, `app.dfy`,
`state_and_lifecycle.dfy` and `event_handling.dfy`.

## Model

| member | source | states |
|---|---|---|
| TodoList.Shows | src/tutorials/week1/RenderingLogic.tsx:62-68 | 'all' shows every record; 'active' shows exactly the records not completed and 'completed' exactly the completed ones |
| TodoList.Filter | src/tutorials/week1/RenderingLogic.tsx:64-66 | the filtered list holds exactly the records of the list with the requested flag and is no longer than the list |
| TodoList.FilterIsSubsequence | src/tutorials/week1/RenderingLogic.tsx:64-66 | filtering keeps the records it keeps in their original order |
| TodoList.FilterConcat | src/tutorials/week1/RenderingLogic.tsx:64-66 | filtering a concatenation is the concatenation of the filtered parts |
| TodoList.FilterPartition | src/tutorials/week1/RenderingLogic.tsx:63-66 | the completed and active views together hold every record exactly as often as the list, so their lengths sum to the list's length |
| TodoList.FilterCounts | src/tutorials/week1/RenderingLogic.tsx:63-66 | a view holds each record with its flag exactly as often as the list, and no other record |
| TodoList.FilteredTodos | src/tutorials/week1/RenderingLogic.tsx:61-70 | 'all' returns the list itself; every view is an in-order subsequence of the list containing exactly the records the tab shows, with their multiplicities |
| TodoList.Flipped | src/tutorials/week1/RenderingLogic.tsx:75 | the matching record's copy has its flag inverted and keeps its id and text |
| TodoList.Toggled | src/tutorials/week1/RenderingLogic.tsx:73-77 | toggling keeps length, order, ids and texts, flips the flag of the records with that id and keeps every other record identical |
| TodoList.ToggleKeepsIds | src/tutorials/week1/RenderingLogic.tsx:74-76 | toggling keeps the id sequence, so distinct ids stay distinct |
| TodoList.ToggleAbsent | src/tutorials/week1/RenderingLogic.tsx:74-76 | toggling an id no record carries leaves the list unchanged |
| TodoList.ToggleTwice | src/tutorials/week1/RenderingLogic.tsx:74-76 | toggling the same id twice restores the list |
| TodoList.ToggleOne | src/tutorials/week1/RenderingLogic.tsx:73-77 | with distinct ids, toggling the id of record k replaces record k by its flipped copy and nothing else |
| TodoList.ToggleMovesBetweenViews | src/tutorials/week1/RenderingLogic.tsx:61-77 | with distinct ids, toggling one record moves it from the view of its old flag to the view of its new flag: one view shrinks by one, the other grows by one |
| TodoList.MaxId | src/tutorials/week1/RenderingLogic.tsx:82 | on a non-empty list the maximum id bounds every id and is the id of some record |
| TodoList.Appended | src/tutorials/week1/RenderingLogic.tsx:80-86 | the list is kept as a prefix and one record is appended with the given text, not completed, with an id one above some existing id and above every existing id |
| TodoList.AppendKeepsDistinct | src/tutorials/week1/RenderingLogic.tsx:80-86 | appending keeps ids distinct |
| TodoList.AppendedViews | src/tutorials/week1/RenderingLogic.tsx:61-86 | the new record is last on the active view and the completed view is unchanged |
| TodoList.InitialTodosWellFormed | src/tutorials/week1/RenderingLogic.tsx:32-38 | the initial list has ids 1 to 5, which are distinct |
| RenderingLogic.Render | src/tutorials/week1/RenderingLogic.tsx:98-170 | the welcome message and the welcome-back block show exactly when logged in; the content paragraph, rather than the "hidden" one, shows exactly when showContent (lines 106-110); the three tab buttons show in the order all, active, completed, and a button is marked active exactly when it is the selected tab (lines 127, 133, 139); the list shows the selected view; the empty-list message shows exactly when no record belongs to the view, says "completed" only on the completed tab, and never shows on 'all' while the list is non-empty |
| RenderingLogic.RenderingLogicComponent.constructor | src/tutorials/week1/RenderingLogic.tsx:29-38 | logged out, content shown, 'all' tab, the initial list; the invariant (non-empty list, distinct ids) holds |
| RenderingLogic.RenderingLogicComponent.LogIn | src/tutorials/week1/RenderingLogic.tsx:54 | sets the logged-in flag and changes no other cell |
| RenderingLogic.RenderingLogicComponent.LogOut | src/tutorials/week1/RenderingLogic.tsx:47 | clears the logged-in flag and changes no other cell |
| RenderingLogic.RenderingLogicComponent.ToggleShowContent | src/tutorials/week1/RenderingLogic.tsx:102 | flips the show-content flag and changes no other cell |
| RenderingLogic.RenderingLogicComponent.SelectTab | src/tutorials/week1/RenderingLogic.tsx:126-143 | sets the selected tab and changes no other cell |
| RenderingLogic.RenderingLogicComponent.ToggleTodo | src/tutorials/week1/RenderingLogic.tsx:73-77 | the list becomes its toggled copy, the invariant is kept, and no other cell changes |
| RenderingLogic.RenderingLogicComponent.AddTodo | src/tutorials/week1/RenderingLogic.tsx:80-86 | the list becomes its appended copy, the invariant is kept (so the list never empties), and no other cell changes |
| RenderingLogic.RenderingLogicComponent.ClickItem | src/tutorials/week1/RenderingLogic.tsx:148-153 | clicking a listed item flips exactly the record it shows, in place, and nothing else |
| App.SwitchedSubMenu | src/App.tsx:17-19 | the new selection is the clicked key exactly when it was not selected, and null exactly when it was |
| App.SwitchKeepsDomain | src/App.tsx:11-19 | switching to one of the five keys keeps the selection null or one of the five keys |
| App.SwitchTwice | src/App.tsx:17-19 | clicking the same header twice leaves that key selected if it was selected before, and nothing selected otherwise |
| App.Selected | src/App.tsx:45-109 | the keys whose panel guard holds are exactly the listed keys equal to the selection |
| App.SelectedAtMostOne | src/App.tsx:45-109 | among distinct keys, the selected ones are just the selection, if it is one of them |
| App.RenderMenu | src/App.tsx:36-109 | at most one panel shows, the selected one, and only while the section is open; while open the five headers show in order and a header is marked active exactly when its key is the selection; while closed no header shows |
| App.AppComponent.constructor | src/App.tsx:10-11 | the section starts open with 'jsx' selected |
| App.AppComponent.ToggleWeek1 | src/App.tsx:13-15 | flips the open flag and keeps the selection |
| App.AppComponent.SwitchSubMenu | src/App.tsx:17-19 | the selection becomes the switched selection and the open flag is kept |
| App.AppComponent.ClickSubMenuHeader | src/App.tsx:36-104 | a header click, possible only while open, switches to that header's key and keeps the selection in its domain |
| StateAndLifecycle.Initial | src/tutorials/week1/StateAndLifecycle.tsx:71-79 | the timer starts not running, with no handle and no live interval, which satisfies the discipline |
| StateAndLifecycle.AfterToggle | src/tutorials/week1/StateAndLifecycle.tsx:124-128 | flips isRunning and changes nothing else |
| StateAndLifecycle.AfterStart | src/tutorials/week1/StateAndLifecycle.tsx:107-113 | registers a fresh interval and stores its handle, overwriting any held handle |
| StateAndLifecycle.AfterStop | src/tutorials/week1/StateAndLifecycle.tsx:116-121 | afterwards no handle is held; the held interval, if any, is cleared; with no handle it is a no-op |
| StateAndLifecycle.AfterTick | src/tutorials/week1/StateAndLifecycle.tsx:108-111 | a tick sets time and changes nothing else |
| StateAndLifecycle.AfterDidUpdate | src/tutorials/week1/StateAndLifecycle.tsx:88-98 | a fresh interval is registered exactly on a false-to-true change of isRunning, the handle is released on true-to-false, and nothing happens when isRunning is unchanged |
| StateAndLifecycle.Unmounted | src/tutorials/week1/StateAndLifecycle.tsx:101-104 | unmounting leaves no handle held and, under the discipline, no interval live |
| StateAndLifecycle.Cycle | src/tutorials/week1/StateAndLifecycle.tsx:88-128 | one update cycle, an event followed by componentDidUpdate: a toggle click flips isRunning and a tick never does; a tick sets time when an interval is live; a tick arriving when no interval is live leaves the state unchanged, because the browser delivers ticks only for live intervals |
| StateAndLifecycle.Run | src/tutorials/week1/StateAndLifecycle.tsx:88-128 | a sequence of update cycles ends with isRunning flipped exactly when the sequence holds an odd number of toggle clicks |
| StateAndLifecycle.CycleKeepsDiscipline | src/tutorials/week1/StateAndLifecycle.tsx:88-128 | every update cycle keeps "handle held iff running, and it is the only live interval"; a toggle flips isRunning; a tick never changes isRunning or the handle and changes time only while running |
| StateAndLifecycle.RunKeepsDiscipline | src/tutorials/week1/StateAndLifecycle.tsx:88-128 | after any number of update cycles a handle is held exactly while running and at most one interval is live |
| StateAndLifecycle.StoppedTimeIsFrozen | src/tutorials/week1/StateAndLifecycle.tsx:107-121 | while stopped, ticks change nothing |
| StateAndLifecycle.StopIdempotent | src/tutorials/week1/StateAndLifecycle.tsx:116-121 | stopping twice is stopping once |
| StateAndLifecycle.StartWhileHeldLeaks | src/tutorials/week1/StateAndLifecycle.tsx:107-113 | starting while a handle is held leaves the old interval live with no handle to clear it, hence the explicit precondition of ClassTimer.StartTimer |
| StateAndLifecycle.IntervalHost.SetInterval | src/tutorials/week1/StateAndLifecycle.tsx:108-112 | the host registers a new interval under a fresh handle |
| StateAndLifecycle.IntervalHost.ClearInterval | src/tutorials/week1/StateAndLifecycle.tsx:118 | the cleared interval is no longer live |
| StateAndLifecycle.ClassTimer.constructor | src/tutorials/week1/StateAndLifecycle.tsx:71-80 | the component starts in the initial state with its own registry |
| StateAndLifecycle.ClassTimer.StartTimer | src/tutorials/week1/StateAndLifecycle.tsx:107-113 | behaves as AfterStart, and may only be called with no handle held |
| StateAndLifecycle.ClassTimer.StopTimer | src/tutorials/week1/StateAndLifecycle.tsx:116-121 | behaves as AfterStop |
| StateAndLifecycle.ClassTimer.ToggleTimer | src/tutorials/week1/StateAndLifecycle.tsx:124-128 | behaves as AfterToggle |
| StateAndLifecycle.ClassTimer.Tick | src/tutorials/week1/StateAndLifecycle.tsx:108-111 | behaves as AfterTick while the interval is held |
| StateAndLifecycle.ClassTimer.ComponentDidUpdate | src/tutorials/week1/StateAndLifecycle.tsx:88-98 | behaves as AfterDidUpdate and re-establishes the discipline after a state update |
| StateAndLifecycle.ClassTimer.ComponentWillUnmount | src/tutorials/week1/StateAndLifecycle.tsx:101-104 | releases the interval: no handle held and nothing live |
| StateAndLifecycle.ClassTimer.OnToggleClick | src/tutorials/week1/StateAndLifecycle.tsx:124-136 | one toggle update cycle, as Cycle, keeping the discipline |
| StateAndLifecycle.ClassTimer.OnIntervalTick | src/tutorials/week1/StateAndLifecycle.tsx:108-111 | one tick update cycle, as Cycle, keeping the discipline |
| StateAndLifecycle.FunctionCounter.constructor | src/tutorials/week1/StateAndLifecycle.tsx:32-48 | count starts at 0 and the mount run of the effect stamps lastUpdate |
| StateAndLifecycle.FunctionCounter.CountEffect | src/tutorials/week1/StateAndLifecycle.tsx:45-48 | lastUpdate is refreshed exactly when count changed |
| StateAndLifecycle.FunctionCounter.OnIncrementClick | src/tutorials/week1/StateAndLifecycle.tsx:55 | count grows by exactly one and lastUpdate is refreshed |
| EventHandling.FormChanged | src/tutorials/week1/EventHandling.tsx:87-93 | the named field gets the value and every other field keeps its value |
| EventHandling.FormKeysStayFixed | src/tutorials/week1/EventHandling.tsx:154-174 | updating username or email keeps the form's keys exactly {username, email} |
| EventHandling.EventHandlingComponent.constructor | src/tutorials/week1/EventHandling.tsx:27-33 | no clicks, cursor at (0, 0), empty input, empty username and email |
| EventHandling.EventHandlingComponent.HandleClick | src/tutorials/week1/EventHandling.tsx:39-42 | the click count grows by exactly one; nothing else changes |
| EventHandling.EventHandlingComponent.HandleMouseMove | src/tutorials/week1/EventHandling.tsx:51-56 | the position becomes exactly (clientX, clientY); nothing else changes |
| EventHandling.EventHandlingComponent.HandleInputChange | src/tutorials/week1/EventHandling.tsx:59-61 | the text becomes the input value verbatim; nothing else changes |
| EventHandling.EventHandlingComponent.HandleFormChange | src/tutorials/week1/EventHandling.tsx:87-93 | the form becomes its keyed update; nothing else changes |
| EventHandling.EventHandlingComponent.OnUsernameChange | src/tutorials/week1/EventHandling.tsx:156-162 | only the username field changes and the keys stay fixed |
| EventHandling.EventHandlingComponent.OnEmailChange | src/tutorials/week1/EventHandling.tsx:165-171 | only the email field changes and the keys stay fixed |
| EventHandling.EventHandlingComponent.HandleSubmit | src/tutorials/week1/EventHandling.tsx:64-67 | changes no state and records exactly the form as entered |
| EventHandling.EventHandlingComponent.HandleKeyPress | src/tutorials/week1/EventHandling.tsx:80-84 | changes no state and logs exactly when the key is Enter |
| EventHandling.EventHandlingComponent.HandleParamClick | src/tutorials/week1/EventHandling.tsx:45-48 | changes no state and logs the given parameter |
| EventHandling.EventHandlingComponent.HandleParentClick | src/tutorials/week1/EventHandling.tsx:70-72 | changes no state and logs its fixed message |
| EventHandling.EventHandlingComponent.HandleChildClick | src/tutorials/week1/EventHandling.tsx:74-77 | changes no state and logs its fixed message |

## Left out

- `src/tutorials/week1/JSXExample.tsx` and `src/tutorials/week1/ComponentsAndProps.tsx` are not part of this model: they hold constants and props-to-markup rendering, with no state.
- Markup, CSS class strings, arrow glyphs and headings are not modelled. Only the guards that decide what is shown are modelled: auth block, welcome message, shown or hidden content paragraph, active tab button, list items, empty-list message, submenu headers and panels.
- `console.log` is output and is not modelled. The handlers that only log are modelled by the value they would log.
- `preventDefault` in `handleSubmit` and `stopPropagation` in `handleChildClick` are browser event-dispatch behaviour. The model does not capture page navigation or event bubbling.
- `Date` and `toLocaleTimeString` are replaced by an abstract clock value (`nat`) that the caller passes in.
- The real-time behaviour of `setInterval` and `clearInterval` (the 1000 ms period) is not modelled. A tick is an explicit event, delivered only while an interval is live.
- React's asynchronous, batched `setState` is not modelled. Each handler is one atomic transition. So the model does not capture lost updates when several `toggleTodo`/`addTodo` calls are batched: both read the `todos` they closed over rather than using an updater. The same holds for `FunctionCounter`'s `setCount(count + 1)` (src/tutorials/week1/StateAndLifecycle.tsx:55), which reads the `count` it closed over.
- Numbers are unbounded integers. JavaScript's double-precision numbers (ids, counters, coordinates) are not modelled.
- TodoList.Appended: requires a non-empty list. On an empty list `Math.max()` is `-Infinity` and the new id is `-Infinity`, which the integer model cannot represent. The component invariant keeps the list non-empty, so `RenderingLogicComponent.AddTodo` needs no extra precondition. No button in the component calls `addTodo`.
- StateAndLifecycle.ClassTimer.StartTimer: requires that no handle is held. As written it would overwrite a held handle; `StartWhileHeldLeaks` shows the leak. `componentDidUpdate` only calls it on a false-to-true change, when no handle is held.
- StateAndLifecycle.IntervalHost: one registry per timer. Intervals registered by other components are not modelled.
- `componentDidMount` only logs and is not modelled. The mount-time `useEffect` of `FunctionCounter` (log and cleanup log) is not modelled either.
