/**
 * The tracker configuration both drafts interpret: trackers, each with the triggers that
 * fire it, the variables a firing resolves, and the schema of the event it builds.
 */
module Schemas {
  import opened Common
  import opened Filters

  /** A trigger: the event source it listens to, and the filters a firing must pass. */
  datatype TriggerSchema = TriggerSchema(name: string, filters: seq<Filter>)

  /** The `type` of a tracker variable; the older draft knows `route`, the newer one the last three. */
  datatype VariableType =
    | DeviceId | DeviceName | IpAddress | AppStateVariable | Javascript
    | Route
    | ReactNavigationRoute | ViewDuration | CustomEventProperty
    | OtherType(text: string)  // any other type text a configuration may carry

  /** The `option` of a tracker variable: none, `{code}` for a script, `{property}` for a custom event property. */
  datatype VariableOption = NoOption | Script(code: string) | Property(property: string)

  datatype VariableSchema = VariableSchema(kind: VariableType, name: string, option: VariableOption)

  /** One field of an event: its name and the template of its value. */
  datatype VariableMapping = VariableMapping(name: string, value: string)

  /** The event a tracker builds; only the older draft has an actor template. */
  datatype EventSchema = EventSchema(name: string, actorMapping: Option<string>, variableMappings: seq<VariableMapping>)

  /** A tracker; only the newer draft's configuration names a platform. */
  datatype TrackerSchema = TrackerSchema(
    triggers: seq<TriggerSchema>,
    variables: seq<VariableSchema>,
    event: EventSchema,
    platform: Option<string>)

  // ---------------------------------------------------------------- initListener

  /** A listener `initListener` bound: the source it listens to, for one trigger of one tracker. */
  datatype Listener<S> = Listener(source: S, trigger: TriggerSchema, tracker: TrackerSchema)

  /** The listeners bound for the triggers of one tracker; `bind` says what a trigger name listens to, if anything. */
  function TriggerListeners<S>(tracker: TrackerSchema, triggers: seq<TriggerSchema>, bind: string -> Option<S>): seq<Listener<S>>
    decreases |triggers|
  {
    if |triggers| == 0 then []
    else
      (match bind(triggers[0].name)
        case None => []
        case Some(source) => [Listener(source, triggers[0], tracker)])
      + TriggerListeners(tracker, triggers[1..], bind)
  }

  /** `trackers.forEach(tracker => tracker.triggers.forEach(trigger => initListener(...)))`. */
  function Registrations<S>(trackers: seq<TrackerSchema>, bind: string -> Option<S>): seq<Listener<S>>
    decreases |trackers|
  {
    if |trackers| == 0 then []
    else TriggerListeners(trackers[0], trackers[0].triggers, bind) + Registrations(trackers[1..], bind)
  }

  lemma {:induction false} TriggerListenersIff<S>(tracker: TrackerSchema, triggers: seq<TriggerSchema>, bind: string -> Option<S>, l: Listener<S>)
    ensures l in TriggerListeners(tracker, triggers, bind) <==>
      l.tracker == tracker && l.trigger in triggers && bind(l.trigger.name) == Some(l.source)
    decreases |triggers|
  {
    if |triggers| > 0 {
      TriggerListenersIff(tracker, triggers[1..], bind, l);
      assert triggers == [triggers[0]] + triggers[1..];
    }
  }

  /**
   * A listener is bound exactly for each trigger of each tracker whose name listens to
   * something, and it listens to what the name says.
   */
  lemma {:induction false} RegistrationsIff<S>(trackers: seq<TrackerSchema>, bind: string -> Option<S>, l: Listener<S>)
    ensures l in Registrations(trackers, bind) <==>
      l.tracker in trackers && l.trigger in l.tracker.triggers && bind(l.trigger.name) == Some(l.source)
    decreases |trackers|
  {
    if |trackers| > 0 {
      RegistrationsIff(trackers[1..], bind, l);
      TriggerListenersIff(trackers[0], trackers[0].triggers, bind, l);
      assert trackers == [trackers[0]] + trackers[1..];
    }
  }
}
