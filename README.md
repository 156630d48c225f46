# A verified model of the Formica React Native tracker

The repository has two drafts of one client-side tracking engine. The newer draft is
`src/tracker.ts`, the `FormicaTracker` namespace. The older draft is `tracker.ts`.

Both drafts interpret a tracker configuration:
- **Triggers** fire on host events: app-state changes, navigation changes (older draft only)
  and custom events (newer draft only).
- **Filters** decide whether a firing counts. `calculateFilter` is a closed 24-operator switch,
  and `validate` ANDs the filters of a trigger.
- **Variables** are resolved per firing: device facts, a script, the app state, the route,
  the view duration and custom-event properties.
- **Event templates** have each backtick placeholder (`` `name` ``) replaced by the variable's
  value. `findMatches` collects the matches of /`.*?`/g, and `resolveMapping` substitutes them.

Built events go into a queue. A periodic worker drains it. The newer draft drains first in,
first out (`shift`), gated on a connectivity flag, and posts the batch. The older draft drains
last in, first out (`pop`), with no gate, and logs the batch.

The model is written in Dafny, module by module:

| module | file | contents |
|---|---|---|
| `Common` | common.dfy | `Option`; `Result` with `Thrown` for a JavaScript exception |
| `JsText` | js_text.dfy | `toLowerCase` (ASCII), `trim`, `startsWith`, `endsWith`, `indexOf`/`includes`, `replace` with a string pattern, `split(sep)[0]` |
| `Filters` | filters.dfy | `calculateFilter`, `validate`, and their negation, case and conjunction laws |
| `Templates` | templates.dfy | the lazy regular-expression scan, `findMatches` and `resolveMapping` as methods, a positional reference reading and the agreement between the two |
| `KeyValue` | key_value.dfy | the `KeyValueMap` filled by `map[key] = value` in a `forEach` |
| `Schemas` | schemas.dfy | trigger, variable, event and tracker schemas; the listeners `initListener` binds |
| `Events` | events.dfy | `buildEvent` of each draft: the older one resolves an actor, the newer one has none |
| `Variables` | variables.dfy | host answers, script values, the custom-event property, the route, the decimal text of the duration |
| `Tracker` | tracker.dfy | the newer draft: dispatch, `getTrackers`, the `run` guard, the timer, and the `Engine` class holding the module state |
| `LegacyTracker` | legacy_tracker.dfy | the older draft: built-in configuration, route resolution, and the `LegacyEngine` class with the `pop` drain |

Stateful parts are classes whose methods update fields: the queue, the timer, the
configuration, the token, the connectivity flag and the listeners. Each such method is
proved against a pure function that specifies it. Loops in the source are loops here:
- the `shift` and `pop` drains;
- the `exec` loop of `findMatches`;
- the `forEach` of `resolveMapping`, variable resolution and `buildEvent`.

The network, `eval`, the regular-expression engine, `parseFloat`, the host platform and the
interval scheduler are not modelled. Their answers are parameters:
- `Runtime.regexTest` and `Runtime.parseFloat`;
- `Host.evaluate` and the device fields;
- the `accessToken`, `response` and `reachable` arguments of the engine methods.

Each scheduled callback is a method call.

## Model

| member | source | states |
|---|---|---|
| JsText.TrimEmptyIff | src/tracker.ts:43-54 | `s.trim().length == 0` exactly when every character of `s` is ECMAScript white space or a line terminator |
| JsText.TrimStartDropsSpace | src/tracker.ts:43-54 | trimming the front removes only white space, and stops at the first character that is not white space |
| JsText.TrimEndDropsSpace | src/tracker.ts:43-54 | trimming the back removes only white space, and stops at the last character that is not white space |
| JsText.LowerFixedIff | src/tracker.ts:318-319 | a lowered string has no upper-case letter; lowering changes a string exactly when it has one |
| JsText.LowerIdempotent | src/tracker.ts:318-319 | lowering twice is lowering once |
| JsText.IndexOfFirst | src/tracker.ts:425 | `indexOf` returns the first index where the pattern occurs; it returns -1 only when the pattern occurs nowhere |
| JsText.IncludesIff | src/tracker.ts:324-325 | `includes` holds exactly when the pattern occurs at some index |
| JsText.Before | tracker.ts:338 | `split("-")[0]` is a prefix of the key, has no `-`, and is followed by `-` when shorter than the key |
| JsText.BeforeWithoutSeparator | tracker.ts:338 | a key without `-` is kept whole |
| Filters.OperatorOf | src/tracker.ts:311-375 | the switch reads each operator text as the case of that name, and any other text as unrecognised |
| Filters.OperatorNamesDistinct | src/tracker.ts:311-375 | each of the 24 operators is read back from its own text, so no two operators share a text |
| Filters.NegationPair | src/tracker.ts:316-371 | each `notX` filter returns the negation of its `isX` sibling on the same operands (equals, contains, startsWith, endsWith, regex, each with an IgnoreCase form), and throws exactly when the sibling throws; the older draft's switch (tracker.ts:253-308) is identical |
| Filters.IgnoreCaseIsLowered | src/tracker.ts:318-371 | an IgnoreCase string operator is its plain sibling on both operands lowered; an IgnoreCase regex operator lowers the subject only, never the pattern |
| Filters.IgnoreCaseInvariant | src/tracker.ts:318-371 | an IgnoreCase operator's result does not change when an operand's case changes (for regex, the subject's case only) |
| Filters.PlainIsCaseSensitive | src/tracker.ts:316-319 | `isEquals` rejects "A" against "a", while `isEqualsIgnoreCase` accepts the pair |
| Filters.NumericNaNIsFalse | src/tracker.ts:348-355 | a numeric comparison is false when either side does not parse as a number |
| Filters.UnrecognisedFails | src/tracker.ts:372-373 | a filter whose operator text is none of the 24 fails, whatever its operands |
| Filters.EveryPassesIff | src/tracker.ts:213-215 | the filters pass exactly when each filter passes, in both drafts (tracker.ts:160-162 is identical) |
| Filters.ValidatePassesIff | src/tracker.ts:213-215 | `validate` is true exactly when every filter passes; an empty list always passes |
| Filters.EveryFailsIff | src/tracker.ts:214 | `every` is false exactly when some filter fails after all filters before it passed |
| Filters.EveryTotal | src/tracker.ts:311-375 | with every left variable resolved and no regex operator, validation never throws |
| Filters.AppStateActivePasses | src/tracker.ts:311-317 | the filter `appState isEquals "active"` passes when `appState` is "active" |
| Filters.RegexIgnoreCaseLowersSubject | src/tracker.ts:360-363 | `isRegexMatchIgnoreCase` on subject "V12" hands "v12" to the regex engine, with the pattern unchanged |
| KeyValue.BindKeys | src/tracker.ts:416 | after the `forEach` assignments the object's keys are exactly the assigned keys |
| KeyValue.BindLastWins | src/tracker.ts:416 | a key holds the value of its last assignment |
| KeyValue.BindStep | src/tracker.ts:184-186 | each assignment extends the object by its one entry |
| KeyValue.BindSingle | src/tracker.ts:184-186 | a single assignment gives a one-entry object |
| Templates.ScanResult | src/tracker.ts:421 | the lazy `` `.*?` `` stops at the first backtick (match) or line terminator (no match here) |
| Templates.ScanStopsAt | src/tracker.ts:421 | conversely, the first character that is not plain is where the scan stops |
| Templates.SpansAreSpans | src/tracker.ts:421 | every match is two backticks around characters that are neither a backtick nor a line terminator |
| Templates.ExecSpans | src/tracker.ts:431-440 | each `exec` from `lastIndex` yields the next match of the left-to-right match list, and null when none is left |
| Templates.FindMatches | src/tracker.ts:431-440 | the `exec` loop returns exactly the left-to-right list of matches, each a placeholder; identical in tracker.ts:373-382 |
| Templates.ReplaceEachStep | src/tracker.ts:422-426 | one `forEach` turn replaces the first occurrence of the current match with its variable's value |
| Templates.ResolveMapping | src/tracker.ts:420-429 | `resolveMapping` returns the template after each match, in order, replaced at its first remaining occurrence; identical in tracker.ts:362-371 |
| Templates.ResolvedIsPositional | src/tracker.ts:420-429 | when no value contains a backtick, this equals putting each value in its own placeholder's place |
| Templates.FirstOccurrenceAfterDead | src/tracker.ts:425 | the first occurrence of a placeholder's text is the placeholder itself once everything before it is inert |
| Templates.WholePlaceholder | src/tracker.ts:420-429 | a template that is one placeholder resolves to that variable's value ("undefined" when unresolved) |
| Templates.NoBacktickUnchanged | src/tracker.ts:420-429 | a template without a backtick has no match and comes back unchanged |
| Templates.DashResolved | src/tracker.ts:420-429 | `` `x`-`y` `` resolves to the two values around the dash when no value holds a backtick |
| Templates.ExampleDashTemplate | src/tracker.ts:420-429 | `` `a`-`b` `` with a = "1" and b = "2" resolves to "1-2" |
| Templates.ValueReplacedAgain | src/tracker.ts:422-426 | a value that reads as a later placeholder is itself replaced by that placeholder's value |
| Templates.ExampleValueReplacedAgain | src/tracker.ts:422-426 | with a = "`` `b` ``" and b = "2", `` `a`-`b` `` resolves to "2-`` `b` ``" |
| Templates.ExamplePositionalReading | src/tracker.ts:422-426 | the positional reading of the same template gives "`` `b` ``-2", so the two readings differ |
| Schemas.TriggerListenersIff | src/tracker.ts:179-211 | a tracker's triggers bind a listener exactly for each trigger whose name listens to something, and it listens to that |
| Schemas.RegistrationsIff | src/tracker.ts:67 | the nested `forEach` binds a listener exactly for each trigger of each tracker whose name listens to something |
| Events.EventOfShape | tracker.ts:354-360 | the built event copies the name; it has an actor exactly when the schema has an actor template, and then the actor is that template resolved; its keys are exactly the mapping names; each name holds the resolved template of its last mapping |
| Events.BuildVariables | src/tracker.ts:416 | the `forEach` fills the fields with each mapping's resolved template, in order |
| Events.BuildEvent | tracker.ts:354-360 | the older draft's `buildEvent` returns the event its schema specifies, with the actor template resolved |
| Events.ActorlessEventOfShape | src/tracker.ts:413-418 | the newer draft's event never has an actor, whatever the schema carries; its name, keys and values are those the older draft builds from the same schema |
| Events.BuildActorlessEvent | src/tracker.ts:413-418 | the newer draft's `buildEvent` returns the name and the fields, and no actor |
| Variables.CustomPropertyCases | src/tracker.ts:391-396 | `customEventProperty` is the payload's entry when the payload is present, the property is non-empty and the payload owns it; otherwise "" |
| Variables.CustomPropertyIgnoresOtherKeys | src/tracker.ts:391-396 | payload entries other than the named property never matter |
| Variables.RouteOfShape | tracker.ts:333-341 | no history gives ""; an empty history array throws; otherwise the route is the last key's prefix before its first `-`, has no `-`, and is the whole key when the key has none |
| Variables.RouteOfKey | tracker.ts:333-341 | a last key `name-suffix`, with no `-` in `name`, gives the route `name` |
| Variables.BeforeKeepsPrefix | tracker.ts:338 | cutting `p + t` at a separator absent from `p` keeps `p` and cuts `t` |
| Variables.DecimalRoundTrip | src/tracker.ts:389-390 | the duration's decimal text is non-empty digits, without a leading zero, that read back as the duration |
| Variables.DecimalInjective | src/tracker.ts:389-390 | different durations give different texts |
| Tracker.ListenerForCases | src/tracker.ts:179-211 | "appState" binds the app-state listener, "timer" binds nothing, and every other name binds a custom-event listener for that name |
| Tracker.ListenerForName | src/tracker.ts:180-198 | binding from a source's own trigger name gives back that source |
| Tracker.ReactNativeOnlyIff | src/tracker.ts:120 | a tracker is retained exactly when the response has it and its platform is "ReactNative" |
| Tracker.ReactNativeOnlyAppend | src/tracker.ts:120 | the platform filter keeps the original order |
| Tracker.ReactNativeOnlyKeepsAll | src/tracker.ts:120 | a list of React Native trackers is kept whole, so filtering twice is filtering once |
| Tracker.UrlTenant | src/tracker.ts:121-122 | the batch url is base + "/event-listener/event/send-events/" + tenant; the sync url is base + "/event-listener/event/send-event/" + tenant + "/sync"; the tenant reads back from each |
| Tracker.UrlsInjective | src/tracker.ts:121-122 | on one base, different tenants get different urls |
| Tracker.UrlsDistinct | src/tracker.ts:121-122 | on one base, the batch url never equals the sync url |
| Tracker.GuardAcceptsIff | src/tracker.ts:43-54 | `run` goes on exactly when both urls, the username, the client and the tenant each hold a character that is not white space, and the password is non-empty |
| Tracker.GuardUrlFirst | src/tracker.ts:43-46 | a missing url is reported first, whatever else is missing |
| Tracker.SpacePasswordAccepted | src/tracker.ts:47-50 | a one-space password passes the check, while a one-space username is rejected |
| Tracker.SingleCharBlank | src/tracker.ts:43-54 | a one-character value is blank exactly when the character is white space |
| Tracker.ResolveFrame | src/tracker.ts:377-400 | only `viewDuration` reads the timer and only `customEventProperty` reads the payload; `reactNavigationRoute` and unknown types give "" |
| Tracker.ResolveVariables | src/tracker.ts:184-186 | the `forEach` assigns each schema name its resolved value, in order |
| Tracker.VariablesOfShape | src/tracker.ts:184-186 | the variables' keys are exactly the schema names; the last schema of a name decides its value |
| Tracker.UnsetDurationReadsZero | src/tracker.ts:173-175 | as written, ticks before the first reset keep the counter NaN, which reads as 0 |
| Tracker.TicksAfterResetAsWritten | src/tracker.ts:169-175 | as written, after a reset the counter is 100·n after n ticks |
| Tracker.Engine.constructor | src/tracker.ts:16-37 | the initial module state: empty queue, empty configuration, no token, and connected (the `isConnected` flag starts true at src/tracker.ts:129) |
| Tracker.Engine.Track | src/tracker.ts:74-76 | `track` appends the payload and changes no other element |
| Tracker.Engine.SendEvent | src/tracker.ts:218-220 | `sendEvent` appends the event and changes no other element |
| Tracker.Engine.Authenticate | src/tracker.ts:88-110 | the token is the answer's access token, or undefined when the request fails |
| Tracker.Engine.GetTrackers | src/tracker.ts:112-126 | a response stores the React Native trackers, both urls and the auth server url; a failed request changes nothing |
| Tracker.Engine.CheckNetworkConnection | src/tracker.ts:129-145 | the flag is whether the auth server answered |
| Tracker.Engine.FlushCycle | src/tracker.ts:147-161 | when connected, the whole queue is posted in insertion order and the queue is empty; when disconnected, the queue is unchanged and nothing is posted; an empty batch is not posted |
| Tracker.Engine.Tick | src/tracker.ts:173-175 | a tick adds 100 |
| Tracker.Engine.ResetTimer | src/tracker.ts:169-171 | a reset sets the counter to 0 |
| Tracker.Engine.TickTimes | src/tracker.ts:165-167 | n runs of the 100 ms interval add 100·n |
| Tracker.Engine.OnAppStateChange | src/tracker.ts:181-194 | variables are resolved with the duration before the reset; the counter ends at 0; the built event, which has no actor, is enqueued exactly when validation passes |
| Tracker.Engine.OnCustomEvent | src/tracker.ts:197-210 | variables are resolved with the payload; the timer is never reset; the built event, which has no actor, is enqueued exactly when validation passes |
| Tracker.Engine.Run | src/tracker.ts:41-70 | `run` stops at the first failed argument check with nothing changed; otherwise it stores the arguments and starts the engine |
| Tracker.Engine.Start | src/tracker.ts:55-67 | the arguments are stored, then authentication, configuration, the network check and the listeners follow |
| Tracker.Engine.Store | src/tracker.ts:55-60 | the six arguments are kept in the module state |
| Tracker.Engine.Configure | src/tracker.ts:61-67 | the token, the configuration, the flag and one listener per trigger of the retained trackers |
| Tracker.Engine.Listen | src/tracker.ts:67 | one listener is appended per trigger of each retained tracker that binds one |
| Tracker.FifoScenario | src/tracker.ts:147-161 | two tracked events are posted in the order they were tracked |
| Tracker.DurationScenario | src/tracker.ts:181-194 | from start-up, n ticks and then an app-state change report the duration 100·n in an event with no actor, and the counter is left at 0 |
| Tracker.DurationEvent | src/tracker.ts:413-418 | the mapping duration = `` `d` `` over a `viewDuration` variable `d` yields the decimal duration |
| LegacyTracker.ListenerForCases | tracker.ts:128-158 | "route" binds the navigation listener, "appState" the app-state listener, and any other name nothing |
| LegacyTracker.DefaultRegistrations | tracker.ts:102-106 | `run` binds an app-state listener and a navigation listener for the built-in tracker |
| LegacyTracker.DefaultEventActor | tracker.ts:66-69 | the built-in event is named "test" and its actor is the literal "test" |
| LegacyTracker.ResolveCases | tracker.ts:314-331 | `appState` is the firing's payload, or "" on a navigation firing; an unknown type is ""; only a route variable on an empty history throws |
| LegacyTracker.VariablesThrowIff | tracker.ts:314-341 | resolution stops exactly on a navigation firing with an empty history array when the tracker has a route variable |
| LegacyTracker.ResolveVariables | tracker.ts:132-135 | the `forEach` assigns each variable in order, and an exception ends it |
| LegacyTracker.ReverseAt | tracker.ts:112-115 | element i of the reversal is element n-1-i of the queue |
| LegacyTracker.ReverseTwo | tracker.ts:112-115 | two queued events come out swapped |
| LegacyTracker.LifoReordersTwoEvents | tracker.ts:112-115 | for two different events, the drain order differs from the send order |
| LegacyTracker.LegacyEngine.constructor | tracker.ts:12 | the queue starts empty |
| LegacyTracker.LegacyEngine.Run | tracker.ts:102-106 | `run` binds the listeners of the built-in tracker |
| LegacyTracker.LegacyEngine.SendEvent | tracker.ts:165-167 | `sendEvent` appends the event and changes no other element |
| LegacyTracker.LegacyEngine.Flush | tracker.ts:108-122 | the `pop` drain returns the queue reversed and leaves it empty, with no connectivity check; an empty batch is not logged |
| LegacyTracker.LegacyEngine.OnFiring | tracker.ts:128-158 | a firing whose resolution throws enqueues nothing; otherwise the built event is enqueued exactly when validation passes |
| LegacyTracker.LifoScenario | tracker.ts:108-122 | two events sent in order are logged in the opposite order |

## Left out

- Network calls through axios are not modelled. This covers the authentication request, the configuration request, the reachability request, the batch `post` and `call` (the sync post of src/tracker.ts:78-86). Their answers are method arguments (`accessToken`, `response`, `reachable`), and `FlushCycle` returns the post it would make.
- The `authServerUrl == undefined` early return (src/tracker.ts:132) is not modelled, because the field starts as "" and is only ever assigned strings.
- `eval` of script variables is the opaque `Host.evaluate`. Its `None` stands for a throw, null or undefined.
- `RegExp` compilation and matching in filters is the opaque `Runtime.regexTest`. Its `None` stands for a pattern that does not compile, which throws. Only the negation and subject-lowering structure is checked.
- `Number.parseFloat` is the opaque `Runtime.parseFloat`. Its `None` stands for NaN. Real numbers stand in for doubles.
- Lower: `toLowerCase` is modelled on the ASCII letters only. Letters outside ASCII are kept as they are.
- ReplaceFirst: the `$`-patterns that `String.replace` expands in a replacement text are not modelled. The value is inserted literally.
- Lookup: a variable missing from the variables object is substituted as the text "undefined", as the code does.
- Calculate: a missing left variable follows each operator's JavaScript behaviour on `undefined`. Loose equality is false. String methods and `toLowerCase` throw (`Thrown`). `parseFloat` gives NaN. `exec` reads the text "undefined".
- Tracker.Resolve: `viewDuration` is the decimal text of a whole number. In the source it is a number, and the model does not capture how a number behaves in filters (`==` against a string, string methods throwing).
- Tracker.Engine: `viewDuration` starts at 0, which is the evidently intended behaviour. The counter as written is modelled separately (see Findings).
- Variables.CustomProperty: payload values are strings. In the source the payload is `KeyValueMap<any>` and `event.custom[property]` is returned as it is (src/tracker.ts:391-396), so it can be a number, a boolean, an object, null or undefined. The model does not capture what such a value then does: loose `==` coerces it in filters, `toLowerCase` and `includes` throw on it, and `replace` inserts `String(v)` (for example "[object Object]") into templates.
- CustomPropertyCases: states the lookup for string payload values only, for the reason on the Variables.CustomProperty line.
- Tracker.Engine.OnCustomEvent: takes the payload with string values only, for the reason on the Variables.CustomProperty line.
- Keys inherited through the prototype chain (`variables["toString"]`) are not modelled. A map lookup sees own keys only.
- Tracker.Resolve: the `appState` variable reads the host's current state (`AppState.currentState`), not the listener's payload, as the code does.
- Tracker.ListenerFor: a trigger named "route" in the newer draft has no case of its own, so it becomes a custom-event listener named "route". Its `reactNavigationRoute` variable type resolves to "".
- Concurrency during `await`, the 3-minute re-authentication interval and the exception that rejects `run`'s promise are not modelled. Each method runs to completion.
- `setInterval` scheduling is not modelled. Each tick, each worker run and each firing is a method call.
- App.tsx is not part of this model. It only mounts the navigation container and calls the older `run`.

## Findings

| source | as written | input that shows it | evidently intended | confidence | as-written member | corrected member |
|---|---|---|---|---|---|---|
| tracker.ts:112-115 | the worker drains the queue with `pop`, so a batch lists events newest first | send e1, then e2 (e1 ≠ e2); the logged batch is [e2, e1] | the batch in sending order, as the newer draft does with `shift` (src/tracker.ts:153-156) | not executed | LegacyTracker.LifoReordersTwoEvents | Tracker.Engine.FlushCycle |
| src/tracker.ts:35-37 | the module object is initialised with `screenViewDuration: 0`, while the timer adds to `viewDuration`, so ticks before the first app-state change give `undefined + 100`, NaN, which `viewDuration \|\| 0` reports as 0 | n ticks with no earlier app-state change; the first app-state firing reports 0 instead of 100·n | the counter starts at 0, so the first screen's duration is reported like every other | not executed | Tracker.UnsetDurationReadsZero | Tracker.DurationScenario |
