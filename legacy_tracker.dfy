/**
 * The older draft of the tracking engine (tracker.ts): one hard-wired tracker, listeners
 * for navigation and app-state changes, events with an actor, and a worker that drains
 * the queue with `pop`, last in first out, and logs the batch.
 */
module LegacyTracker {
  import opened Common
  import opened Filters
  import opened KeyValue
  import opened Templates
  import opened Schemas
  import opened Events
  import opened Variables

  // ---------------------------------------------------------------- dispatch

  /** What a listener of the older draft listens to. */
  datatype Source = Navigation | AppStateChange

  /** The switch of `initListener`: "route" and "appState" bind a listener, every other name binds nothing. */
  function ListenerFor(name: string): Option<Source> {
    if name == "route" then Some(Navigation)
    else if name == "appState" then Some(AppStateChange)
    else None
  }

  lemma ListenerForCases(name: string)
    ensures ListenerFor(name) == Some(Navigation) <==> name == "route"
    ensures ListenerFor(name) == Some(AppStateChange) <==> name == "appState"
    ensures ListenerFor(name).None? <==> name != "route" && name != "appState"
  {
  }

  // ---------------------------------------------------------------- the built-in configuration

  const ScriptCode: string := "(()=>{" + "return 15 + 30;})()"

  /** The one tracker of `trackerConfig`: both triggers without filters, six variables, and the event "test". */
  const DefaultTracker: TrackerSchema := TrackerSchema(
    [TriggerSchema("appState", []), TriggerSchema("route", [])],
    [ VariableSchema(AppStateVariable, "appState", NoOption),
      VariableSchema(DeviceName, "deviceName", NoOption),
      VariableSchema(DeviceId, "deviceId", NoOption),
      VariableSchema(IpAddress, "ipAddress", NoOption),
      VariableSchema(Javascript, "javascript", Script(ScriptCode)),
      VariableSchema(Route, "route", NoOption)],
    EventSchema("test", Some("test"), [
      VariableMapping("appState", "`appState`"),
      VariableMapping("deviceName", "`deviceName`"),
      VariableMapping("deviceId", "`deviceId`"),
      VariableMapping("ipAddress", "`ipAddress`"),
      VariableMapping("javascript", "`javascript`"),
      VariableMapping("route", "`route`")]),
    None)

  /** Both built-in triggers bind a listener of their own kind. */
  lemma DefaultRegistrations()
    ensures Registrations([DefaultTracker], ListenerFor) ==
      [Listener(AppStateChange, DefaultTracker.triggers[0], DefaultTracker),
       Listener(Navigation, DefaultTracker.triggers[1], DefaultTracker)]
  {
    var ts := DefaultTracker.triggers;
    assert ts[1..][1..] == [];
    assert ListenerFor(ts[0].name) == Some(AppStateChange);
    assert ListenerFor(ts[1..][0].name) == Some(Navigation);
  }

  /** The built-in event is named "test" and its actor template, which holds no placeholder, is the literal "test". */
  lemma DefaultEventActor(vars: map<string, string>)
    ensures EventOf(DefaultTracker.event, vars).name == "test"
    ensures EventOf(DefaultTracker.event, vars).actor == Some("test")
  {
    NoBacktickUnchanged("test", vars);
  }

  // ---------------------------------------------------------------- variables

  /** What a firing carries: the navigation state's history keys (if it has a history array), or the new app state. */
  datatype Firing = NavigationState(history: Option<seq<string>>) | AppStateChanged(state: string)

  /** `resolveTrackerVariable` of the older draft; `Thrown` when the route lookup throws. */
  function Resolve(s: VariableSchema, host: Host, firing: Firing): Result<string> {
    match s.kind
    case Javascript => Ok(ScriptValue(s.option, host))
    case AppStateVariable => Ok(if firing.AppStateChanged? then firing.state else "")
    case DeviceId => Ok(host.deviceId)
    case DeviceName => Ok(host.deviceName)
    case IpAddress => Ok(host.ipAddress)
    case Route => if firing.NavigationState? then RouteOf(firing.history) else Ok("")
    case _ => Ok("")
  }

  /**
   * The `appState` variable is the firing's new state, or "" on a navigation firing; a type
   * the older draft does not know is ""; only a route variable on a navigation firing whose
   * history is an empty array throws.
   */
  lemma ResolveCases(s: VariableSchema, host: Host, firing: Firing)
    ensures s.kind == AppStateVariable ==> Resolve(s, host, firing) == Ok(if firing.AppStateChanged? then firing.state else "")
    ensures s.kind in {ReactNavigationRoute, ViewDuration, CustomEventProperty} || s.kind.OtherType? ==> Resolve(s, host, firing) == Ok("")
    ensures s.kind == Route && firing.AppStateChanged? ==> Resolve(s, host, firing) == Ok("")
    ensures Resolve(s, host, firing).Thrown? <==> s.kind == Route && firing == NavigationState(Some([]))
  {
  }

  /** Every variable of the tracker resolves without throwing. */
  predicate AllResolve(schemas: seq<VariableSchema>, host: Host, firing: Firing) {
    forall i :: 0 <= i < |schemas| ==> Resolve(schemas[i], host, firing).Ok?
  }

  /** The variables of a firing, or `Thrown` when resolving one of them throws and the listener stops. */
  function VariablesOf(schemas: seq<VariableSchema>, host: Host, firing: Firing): Result<map<string, string>> {
    if AllResolve(schemas, host, firing) then
      Ok(Bind(seq(|schemas|, i requires 0 <= i < |schemas| && Resolve(schemas[i], host, firing).Ok? =>
        (schemas[i].name, Resolve(schemas[i], host, firing).value))))
    else Thrown
  }

  /** Resolution stops exactly on a navigation firing with an empty history, when the tracker has a route variable. */
  lemma VariablesThrowIff(schemas: seq<VariableSchema>, host: Host, firing: Firing)
    ensures VariablesOf(schemas, host, firing).Thrown? <==>
      firing == NavigationState(Some([])) && exists i :: 0 <= i < |schemas| && schemas[i].kind == Route
  {
    forall i | 0 <= i < |schemas| {
      ResolveCases(schemas[i], host, firing);
    }
  }

  /** The `forEach` over the tracker's variable schemas; an exception ends it. */
  method ResolveVariables(schemas: seq<VariableSchema>, host: Host, firing: Firing) returns (r: Result<map<string, string>>)
    ensures r == VariablesOf(schemas, host, firing)
  {
    var vars := map[];
    ghost var pairs: seq<(string, string)> := [];
    for i := 0 to |schemas|
      invariant |pairs| == i
      invariant forall j :: 0 <= j < i ==> Resolve(schemas[j], host, firing).Ok?
      invariant forall j :: 0 <= j < i ==> pairs[j] == (schemas[j].name, Resolve(schemas[j], host, firing).value)
      invariant vars == Bind(pairs)
    {
      var value := Resolve(schemas[i], host, firing);
      if value.Thrown? {
        return Thrown;
      }
      assert (pairs + [(schemas[i].name, value.value)])[..i] == pairs;
      pairs := pairs + [(schemas[i].name, value.value)];
      vars := vars[schemas[i].name := value.value];
    }
    assert pairs == seq(|schemas|, i requires 0 <= i < |schemas| && Resolve(schemas[i], host, firing).Ok? =>
      (schemas[i].name, Resolve(schemas[i], host, firing).value));
    r := Ok(vars);
  }

  // ---------------------------------------------------------------- the queue

  /** The sequence back to front. */
  function Reverse<T>(q: seq<T>): seq<T>
    decreases |q|
  {
    if |q| == 0 then [] else Reverse(q[1..]) + [q[0]]
  }

  /** Element `i` of the reversal is element `|q| - 1 - i` of the sequence. */
  lemma {:induction false} ReverseAt<T>(q: seq<T>)
    ensures |Reverse(q)| == |q|
    ensures forall i :: 0 <= i < |q| ==> Reverse(q)[i] == q[|q| - 1 - i]
    decreases |q|
  {
    if |q| > 0 {
      ReverseAt(q[1..]);
    }
  }

  lemma ReverseTwo<T>(a: T, b: T)
    ensures Reverse([a, b]) == [b, a]
  {
    assert [a, b][1..] == [b];
    assert [b][1..] == [];
    assert Reverse([b]) == [b];
  }

  /** With two different events queued, the drain hands them out in the opposite order. */
  lemma LifoReordersTwoEvents(e1: Event, e2: Event)
    requires e1 != e2
    ensures Reverse([e1, e2]) == [e2, e1]
    ensures Reverse([e1, e2]) != [e1, e2]
  {
    ReverseTwo(e1, e2);
    assert [e2, e1][0] != [e1, e2][0];
  }

  /** The module state of tracker.ts; the interval scheduler and the host listeners are method calls. */
  class LegacyEngine {
    var queue: seq<Event>
    var listeners: seq<Listener<Source>>

    constructor()
      ensures queue == [] && listeners == []
    {
      queue := [];
      listeners := [];
    }

    /** `run`: bind a listener per trigger of the built-in tracker. */
    method Run()
      modifies this`listeners
      ensures listeners == old(listeners) + Registrations([DefaultTracker], ListenerFor)
    {
      listeners := listeners + Registrations([DefaultTracker], ListenerFor);
    }

    /** `sendEvent(event)`: append to the queue. */
    method SendEvent(e: Event)
      modifies this`queue
      ensures queue == old(queue) + [e]
    {
      queue := queue + [e];
    }

    /**
     * One run of the client worker: drain the queue with `pop` into a batch, with no
     * network check, and log the batch if it is not empty.
     */
    method Flush() returns (logged: Option<seq<Event>>)
      modifies this`queue
      ensures queue == []
      ensures logged.Some? <==> |old(queue)| > 0
      ensures logged.Some? ==> logged.value == Reverse(old(queue))
    {
      var events: seq<Event> := [];
      while |queue| > 0
        invariant queue == old(queue)[..|queue|]
        invariant events == Reverse(old(queue)[|queue|..])
        decreases |queue|
      {
        var m := |queue|;
        var e := queue[m - 1];
        assert old(queue)[m - 1..][1..] == old(queue)[m..];
        queue := queue[..m - 1];
        events := events + [e];
      }
      assert old(queue)[0..] == old(queue);
      logged := if |events| > 0 then Some(events) else None;
      ReverseAt(old(queue));
    }

    /**
     * A listener of either kind: resolve the variables for the firing, validate, and
     * enqueue the built event when validation passes; an exception ends the listener
     * with nothing enqueued.
     */
    method OnFiring(trigger: TriggerSchema, tracker: TrackerSchema, host: Host, firing: Firing, rt: Runtime)
      returns (outcome: Result<bool>)
      modifies this`queue
      ensures VariablesOf(tracker.variables, host, firing).Thrown? ==> outcome == Thrown
      ensures VariablesOf(tracker.variables, host, firing).Ok? ==>
        outcome == Validate(trigger.filters, VariablesOf(tracker.variables, host, firing).value, rt)
      ensures queue == old(queue) +
        if outcome == Ok(true) then [EventOf(tracker.event, VariablesOf(tracker.variables, host, firing).value)] else []
    {
      var resolved := ResolveVariables(tracker.variables, host, firing);
      if resolved.Thrown? {
        return Thrown;
      }
      outcome := Validate(trigger.filters, resolved.value, rt);
      if outcome == Ok(true) {
        var e := BuildEvent(tracker.event, resolved.value);
        SendEvent(e);
      }
    }
  }

  /** Two events sent in order are logged in the opposite order. */
  method LifoScenario(e1: Event, e2: Event) returns (logged: Option<seq<Event>>)
    ensures logged == Some([e2, e1])
  {
    var engine := new LegacyEngine();
    engine.SendEvent(e1);
    engine.SendEvent(e2);
    assert engine.queue == [e1, e2];
    logged := engine.Flush();
    ReverseTwo(e1, e2);
  }
}
