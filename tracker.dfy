/**
 * The newer draft of the tracking engine (src/tracker.ts): a configuration fetched per
 * platform, listeners for app-state changes and for custom events, a view-duration timer,
 * and a queue that a periodic worker drains, first in first out, while the network is reachable.
 */
module Tracker {
  import opened Common
  import opened JsText
  import opened Filters
  import opened KeyValue
  import opened Templates
  import opened Schemas
  import opened Events
  import opened Variables

  // ---------------------------------------------------------------- dispatch

  /** What a listener of the newer draft listens to. */
  datatype Source = AppStateChange | CustomEvent(eventName: string)

  /** The switch of `initListener`: "appState" listens to app-state changes, "timer" binds nothing, any other name is a custom event of that name. */
  function ListenerFor(name: string): Option<Source> {
    if name == "appState" then Some(AppStateChange)
    else if name == "timer" then None
    else Some(CustomEvent(name))
  }

  /** The dispatch, stated per outcome in both directions. */
  lemma ListenerForCases(name: string)
    ensures ListenerFor(name) == Some(AppStateChange) <==> name == "appState"
    ensures ListenerFor(name).None? <==> name == "timer"
    ensures ListenerFor(name) == Some(CustomEvent(name)) <==> name != "appState" && name != "timer"
    ensures ListenerFor(name).Some? && ListenerFor(name).value.CustomEvent? ==> ListenerFor(name).value.eventName == name
  {
  }

  /** The trigger name a source is bound from. */
  function TriggerNameOf(source: Source): string {
    match source
    case AppStateChange => "appState"
    case CustomEvent(n) => n
  }

  /** Binding from a source's own name gives back that source, unless a custom event is named "appState" or "timer". */
  lemma ListenerForName(source: Source)
    requires source.CustomEvent? ==> source.eventName != "appState" && source.eventName != "timer"
    ensures ListenerFor(TriggerNameOf(source)) == Some(source)
  {
  }

  // ---------------------------------------------------------------- configuration

  datatype TrackerResponse = TrackerResponse(authServerUrl: string, eventApiUrl: string, trackers: seq<TrackerSchema>)

  /** `trackers.filter(tracker => tracker.platform == "ReactNative")`. */
  function ReactNativeOnly(ts: seq<TrackerSchema>): seq<TrackerSchema>
    decreases |ts|
  {
    if |ts| == 0 then []
    else (if ts[0].platform == Some("ReactNative") then [ts[0]] else []) + ReactNativeOnly(ts[1..])
  }

  /** A tracker is retained exactly when it is one of the response's and its platform is "ReactNative". */
  lemma {:induction false} ReactNativeOnlyIff(ts: seq<TrackerSchema>, t: TrackerSchema)
    ensures t in ReactNativeOnly(ts) <==> t in ts && t.platform == Some("ReactNative")
    decreases |ts|
  {
    if |ts| > 0 {
      ReactNativeOnlyIff(ts[1..], t);
      assert ts == [ts[0]] + ts[1..];
    }
  }

  /** The filter keeps the original order: filtering a concatenation concatenates the filtered parts. */
  lemma {:induction false} ReactNativeOnlyAppend(a: seq<TrackerSchema>, b: seq<TrackerSchema>)
    ensures ReactNativeOnly(a + b) == ReactNativeOnly(a) + ReactNativeOnly(b)
    decreases |a|
  {
    if |a| == 0 {
      assert a + b == b;
    } else {
      assert (a + b)[0] == a[0] && (a + b)[1..] == a[1..] + b;
      ReactNativeOnlyAppend(a[1..], b);
    }
  }

  /** A list of React Native trackers is kept whole, so filtering twice is filtering once. */
  lemma {:induction false} ReactNativeOnlyKeepsAll(ts: seq<TrackerSchema>)
    requires forall i :: 0 <= i < |ts| ==> ts[i].platform == Some("ReactNative")
    ensures ReactNativeOnly(ts) == ts
    decreases |ts|
  {
    if |ts| > 0 {
      ReactNativeOnlyKeepsAll(ts[1..]);
    }
  }

  const AsyncPath: string := "/event-listener/event/send-events/"
  const SyncPath: string := "/event-listener/event/send-event/"

  /** The batch ingestion url: the configured base, the path, the tenant. */
  function AsyncUrl(base: string, tenant: string): string {
    base + AsyncPath + tenant
  }

  /** The single-event ingestion url: the configured base, the path, the tenant, "/sync". */
  function SyncUrl(base: string, tenant: string): string {
    base + SyncPath + tenant + "/sync"
  }

  /** The tenant can be read back from either url. */
  lemma UrlTenant(base: string, tenant: string)
    ensures AsyncUrl(base, tenant)[|base| + |AsyncPath|..] == tenant
    ensures SyncUrl(base, tenant)[|base| + |SyncPath|..|SyncUrl(base, tenant)| - 5] == tenant
    ensures EndsWith(SyncUrl(base, tenant), "/sync")
  {
  }

  /** Different tenants on one base get different urls. */
  lemma UrlsInjective(base: string, t1: string, t2: string)
    ensures AsyncUrl(base, t1) == AsyncUrl(base, t2) ==> t1 == t2
    ensures SyncUrl(base, t1) == SyncUrl(base, t2) ==> t1 == t2
  {
    UrlTenant(base, t1);
    UrlTenant(base, t2);
  }

  /** On one base the batch url and the single-event url never coincide, whatever the tenants. */
  lemma UrlsDistinct(base: string, t1: string, t2: string)
    ensures AsyncUrl(base, t1) != SyncUrl(base, t2)
  {
    var a, s := AsyncUrl(base, t1), SyncUrl(base, t2);
    assert a[|base| + 32] == AsyncPath[32] == 's';
    assert s[|base| + 32] == SyncPath[32] == '/';
  }

  // ---------------------------------------------------------------- the argument guard of run

  /** The arguments of `FormicaTracker.run`; `None` stands for null or undefined. */
  datatype RunArguments = RunArguments(
    serviceUrl: Option<string>,
    tenant: Option<string>,
    username: Option<string>,
    password: Option<string>,
    client: Option<string>,
    authServiceUrl: Option<string>)

  datatype GuardOutcome = Accepted | MissingServiceUrl | MissingCredentials | MissingTenant

  /** Null, undefined, or nothing but white space once trimmed. */
  predicate Blank(s: Option<string>) {
    s.None? || |Trim(s.value)| == 0
  }

  /** The three checks at the top of `run`, in order; the password is checked by length only. */
  function Guard(a: RunArguments): GuardOutcome {
    if Blank(a.serviceUrl) || Blank(a.authServiceUrl) then MissingServiceUrl
    else if Blank(a.username) || a.password.None? || |a.password.value| == 0 || Blank(a.client) then MissingCredentials
    else if Blank(a.tenant) then MissingTenant
    else Accepted
  }

  /** A value with some character that is not white space. */
  predicate Visible(s: Option<string>) {
    s.Some? && exists i :: 0 <= i < |s.value| && !IsJsSpace(s.value[i])
  }

  /**
   * The guard accepts exactly when both urls, the username, the client and the tenant each
   * hold a character that is not white space, and the password is any non-empty string.
   */
  lemma GuardAcceptsIff(a: RunArguments)
    ensures Guard(a) == Accepted <==>
      Visible(a.serviceUrl) && Visible(a.authServiceUrl) && Visible(a.username) &&
      a.password.Some? && |a.password.value| > 0 && Visible(a.client) && Visible(a.tenant)
  {
    forall s: Option<string> ensures Blank(s) <==> !Visible(s) {
      if s.Some? {
        TrimEmptyIff(s.value);
      }
    }
  }

  /** A missing url is reported first, whatever else is missing. */
  lemma GuardUrlFirst(a: RunArguments)
    requires Blank(a.serviceUrl) || Blank(a.authServiceUrl)
    ensures Guard(a) == MissingServiceUrl
  {
  }

  /** A password of one white-space character passes the guard that rejects such a username. */
  lemma SpacePasswordAccepted(u: char, t: char, c: char, a: char, x: char, space: char)
    requires !IsJsSpace(u) && !IsJsSpace(t) && !IsJsSpace(c) && !IsJsSpace(a) && !IsJsSpace(x) && IsJsSpace(space)
    ensures Guard(RunArguments(Some([u]), Some([t]), Some([x]), Some([space]), Some([c]), Some([a]))) == Accepted
    ensures Guard(RunArguments(Some([u]), Some([t]), Some([space]), Some([x]), Some([c]), Some([a]))) == MissingCredentials
  {
    SingleCharBlank(u);
    SingleCharBlank(t);
    SingleCharBlank(x);
    SingleCharBlank(c);
    SingleCharBlank(a);
    SingleCharBlank(space);
  }

  /** A one-character value is blank exactly when the character is white space. */
  lemma SingleCharBlank(c: char)
    ensures Blank(Some([c])) <==> IsJsSpace(c)
  {
    TrimEmptyIff([c]);
  }

  // ---------------------------------------------------------------- variables

  /** `resolveTrackerVariable` of the newer draft; `custom` is the payload of a custom-event firing. */
  function Resolve(s: VariableSchema, host: Host, duration: nat, custom: Option<map<string, string>>): string {
    match s.kind
    case Javascript => ScriptValue(s.option, host)
    case AppStateVariable => OrEmpty(host.currentAppState)
    case DeviceId => host.deviceId
    case DeviceName => host.deviceName
    case IpAddress => host.ipAddress
    case ViewDuration => Decimal(duration)
    case CustomEventProperty => CustomProperty(custom, s.option)
    case _ => ""
  }

  /**
   * Only a `viewDuration` variable reads the timer and only a `customEventProperty` variable
   * reads the firing's payload; the route types have no branch and resolve to "".
   */
  lemma ResolveFrame(s: VariableSchema, host: Host, d1: nat, d2: nat, c1: Option<map<string, string>>, c2: Option<map<string, string>>)
    ensures s.kind != ViewDuration ==> Resolve(s, host, d1, c1) == Resolve(s, host, d2, c1)
    ensures s.kind != CustomEventProperty ==> Resolve(s, host, d1, c1) == Resolve(s, host, d1, c2)
    ensures s.kind in {ReactNavigationRoute, Route} || s.kind.OtherType? ==> Resolve(s, host, d1, c1) == ""
  {
  }

  /** The assignments `trackerVariables[schema.name] = resolveTrackerVariable(schema, event)`, in order. */
  function VariablePairs(schemas: seq<VariableSchema>, host: Host, duration: nat, custom: Option<map<string, string>>): seq<(string, string)> {
    seq(|schemas|, i requires 0 <= i < |schemas| => (schemas[i].name, Resolve(schemas[i], host, duration, custom)))
  }

  /** The variables of a firing. */
  function VariablesOf(schemas: seq<VariableSchema>, host: Host, duration: nat, custom: Option<map<string, string>>): map<string, string> {
    Bind(VariablePairs(schemas, host, duration, custom))
  }

  /** The `forEach` over the tracker's variable schemas. */
  method ResolveVariables(schemas: seq<VariableSchema>, host: Host, duration: nat, custom: Option<map<string, string>>)
    returns (vars: map<string, string>)
    ensures vars == VariablesOf(schemas, host, duration, custom)
  {
    ghost var pairs := VariablePairs(schemas, host, duration, custom);
    vars := map[];
    for i := 0 to |schemas|
      invariant vars == Bind(pairs[..i])
    {
      BindStep(pairs, i);
      vars := vars[schemas[i].name := Resolve(schemas[i], host, duration, custom)];
    }
    assert pairs[..|schemas|] == pairs;
  }

  /** The variables of a firing have exactly the schema names as keys; the last schema of a name decides its value. */
  lemma VariablesOfShape(schemas: seq<VariableSchema>, host: Host, duration: nat, custom: Option<map<string, string>>)
    ensures VariablesOf(schemas, host, duration, custom).Keys == set i | 0 <= i < |schemas| :: schemas[i].name
    ensures forall i :: 0 <= i < |schemas| && (forall j :: i < j < |schemas| ==> schemas[j].name != schemas[i].name) ==>
      VariablesOf(schemas, host, duration, custom)[schemas[i].name] == Resolve(schemas[i], host, duration, custom)
  {
    var pairs := VariablePairs(schemas, host, duration, custom);
    BindKeys(pairs);
    assert KeysOf(pairs) == set i | 0 <= i < |schemas| :: schemas[i].name by {
      assert forall i :: 0 <= i < |schemas| ==> pairs[i].0 == schemas[i].name;
    }
    forall i | 0 <= i < |schemas| && (forall j :: i < j < |schemas| ==> schemas[j].name != schemas[i].name)
      ensures Bind(pairs)[schemas[i].name] == Resolve(schemas[i], host, duration, custom)
    {
      BindLastWins(pairs, i);
    }
  }

  // ---------------------------------------------------------------- the timer as written

  /**
   * The counter as the source keeps it: the object starts with `screenViewDuration` only,
   * so `viewDuration` is undefined, and `undefined + 100` is NaN until the first reset.
   */
  datatype Duration = NotANumber | Millis(ms: nat)

  function TickAsWritten(d: Duration): Duration {
    match d
    case NotANumber => NotANumber
    case Millis(ms) => Millis(ms + 100)
  }

  function TicksAsWritten(d: Duration, n: nat): Duration
    decreases n
  {
    if n == 0 then d else TickAsWritten(TicksAsWritten(d, n - 1))
  }

  /** `globalVariables.viewDuration || 0`: NaN reads as 0. */
  function ReadAsWritten(d: Duration): nat {
    match d
    case NotANumber => 0
    case Millis(ms) => ms
  }

  /** Before the first app-state change, the duration reads 0 however long the screen was shown. */
  lemma {:induction false} UnsetDurationReadsZero(n: nat)
    ensures TicksAsWritten(NotANumber, n) == NotANumber
    ensures ReadAsWritten(TicksAsWritten(NotANumber, n)) == 0
    decreases n
  {
    if n > 0 {
      UnsetDurationReadsZero(n - 1);
    }
  }

  /** After a reset the counter runs as intended. */
  lemma {:induction false} TicksAfterResetAsWritten(n: nat)
    ensures TicksAsWritten(Millis(0), n) == Millis(100 * n)
    decreases n
  {
    if n > 0 {
      TicksAfterResetAsWritten(n - 1);
    }
  }

  // ---------------------------------------------------------------- the engine

  /** What the worker hands to `_axios.post`: the url and the batch. */
  datatype Post = Post(url: string, events: seq<Event>)

  /**
   * The module state of src/tracker.ts. The network, the host and the interval scheduler
   * are outside: their answers are the arguments of the methods, and each scheduled
   * callback is a method call.
   */
  class Engine {
    var queue: seq<Event>
    var viewDuration: nat
    var connected: bool
    var token: Option<string>
    var trackers: seq<TrackerSchema>
    var eventApiUrl: string
    var syncEventApiUrl: string
    var authServerUrl: string
    var tenant: string
    var serviceUrl: string
    var authServiceUrl: string
    var username: string
    var password: string
    var client: string
    var listeners: seq<Listener<Source>>

    /** The module's initial state; the duration counter starts at 0 (see `Duration` for the source's NaN). */
    constructor()
      ensures queue == [] && viewDuration == 0 && connected && token.None?
      ensures trackers == [] && eventApiUrl == "" && syncEventApiUrl == "" && authServerUrl == ""
      ensures tenant == "" && serviceUrl == "" && authServiceUrl == "" && username == "" && password == "" && client == ""
      ensures listeners == []
    {
      queue := [];
      viewDuration := 0;
      connected := true;
      token := None;
      trackers := [];
      eventApiUrl, syncEventApiUrl, authServerUrl := "", "", "";
      tenant, serviceUrl, authServiceUrl, username, password, client := "", "", "", "", "", "";
      listeners := [];
    }

    /** `FormicaTracker.track(payload)`: append to the queue. */
    method Track(payload: Event)
      modifies this`queue
      ensures queue == old(queue) + [payload]
    {
      queue := queue + [payload];
    }

    /** `sendEvent(event)`: append to the queue. */
    method SendEvent(e: Event)
      modifies this`queue
      ensures queue == old(queue) + [e]
    {
      Track(e);
    }

    /** `initAuthenticateWorkers`: the token of the answer, or undefined when the request fails. */
    method Authenticate(accessToken: Option<string>)
      modifies this`token
      ensures token == accessToken
    {
      token := accessToken;
    }

    /** `getTrackers`: keep the React Native trackers and derive both ingestion urls; a failed request changes nothing. */
    method GetTrackers(response: Option<TrackerResponse>)
      modifies this`trackers, this`eventApiUrl, this`syncEventApiUrl, this`authServerUrl
      ensures response.None? ==> (trackers == old(trackers) && eventApiUrl == old(eventApiUrl) &&
        syncEventApiUrl == old(syncEventApiUrl) && authServerUrl == old(authServerUrl))
      ensures response.Some? ==> (trackers == ReactNativeOnly(response.value.trackers) &&
        eventApiUrl == AsyncUrl(response.value.eventApiUrl, tenant) &&
        syncEventApiUrl == SyncUrl(response.value.eventApiUrl, tenant) &&
        authServerUrl == response.value.authServerUrl)
    {
      if response.Some? {
        var data := response.value;
        trackers := ReactNativeOnly(data.trackers);
        eventApiUrl := AsyncUrl(data.eventApiUrl, tenant);
        syncEventApiUrl := SyncUrl(data.eventApiUrl, tenant);
        authServerUrl := data.authServerUrl;
      }
    }

    /** `checkNetworkConnection`: whether the auth server answered. */
    method CheckNetworkConnection(reachable: bool)
      modifies this`connected
      ensures connected == reachable
    {
      connected := reachable;
    }

    /**
     * One run of the client worker: check the network; when connected, drain the queue
     * with `shift` into a batch and post the batch if it is not empty.
     */
    method FlushCycle(reachable: bool) returns (post: Option<Post>)
      modifies this`queue, this`connected
      ensures connected == reachable
      ensures reachable ==> queue == []
      ensures !reachable ==> queue == old(queue)
      ensures post.Some? <==> reachable && |old(queue)| > 0
      ensures post.Some? ==> post.value == Post(eventApiUrl, old(queue))
    {
      CheckNetworkConnection(reachable);
      if !connected {
        return None;
      }
      var events: seq<Event> := [];
      while |queue| > 0
        invariant events + queue == old(queue)
        invariant connected == reachable
        decreases |queue|
      {
        var e := queue[0];
        queue := queue[1..];
        events := events + [e];
      }
      assert events == old(queue) by {
        assert events + queue == events + [];
      }
      post := if |events| > 0 then Some(Post(eventApiUrl, events)) else None;
    }

    /** `timerHandler`: 100 ms more. */
    method Tick()
      modifies this`viewDuration
      ensures viewDuration == old(viewDuration) + 100
    {
      viewDuration := viewDuration + 100;
    }

    /** `resetTimer`. */
    method ResetTimer()
      modifies this`viewDuration
      ensures viewDuration == 0
    {
      viewDuration := 0;
    }

    /** `n` runs of the timer interval. */
    method TickTimes(n: nat)
      modifies this`viewDuration
      ensures viewDuration == old(viewDuration) + 100 * n
    {
      for i := 0 to n
        invariant viewDuration == old(viewDuration) + 100 * i
      {
        Tick();
      }
    }

    /**
     * The app-state listener: resolve the variables (with the duration so far), reset the
     * timer, validate, and enqueue the built event when validation passes. A filter that
     * throws ends the listener with nothing enqueued.
     */
    method OnAppStateChange(trigger: TriggerSchema, tracker: TrackerSchema, host: Host, rt: Runtime) returns (outcome: Result<bool>)
      modifies this`queue, this`viewDuration
      ensures viewDuration == 0
      ensures outcome == Validate(trigger.filters, VariablesOf(tracker.variables, host, old(viewDuration), None), rt)
      ensures queue == old(queue) +
        if outcome == Ok(true) then [ActorlessEventOf(tracker.event, VariablesOf(tracker.variables, host, old(viewDuration), None))] else []
      ensures |queue| > |old(queue)| ==> queue[|queue| - 1].actor == None
    {
      var vars := ResolveVariables(tracker.variables, host, viewDuration, None);
      ResetTimer();
      outcome := Validate(trigger.filters, vars, rt);
      if outcome == Ok(true) {
        var e := BuildActorlessEvent(tracker.event, vars);
        SendEvent(e);
      }
    }

    /** A custom-event listener: like the app-state one with the payload at hand, and it never resets the timer. */
    method OnCustomEvent(trigger: TriggerSchema, tracker: TrackerSchema, host: Host, args: Option<map<string, string>>, rt: Runtime)
      returns (outcome: Result<bool>)
      modifies this`queue
      ensures viewDuration == old(viewDuration)
      ensures outcome == Validate(trigger.filters, VariablesOf(tracker.variables, host, viewDuration, args), rt)
      ensures queue == old(queue) +
        if outcome == Ok(true) then [ActorlessEventOf(tracker.event, VariablesOf(tracker.variables, host, viewDuration, args))] else []
      ensures |queue| > |old(queue)| ==> queue[|queue| - 1].actor == None
    {
      var vars := ResolveVariables(tracker.variables, host, viewDuration, args);
      outcome := Validate(trigger.filters, vars, rt);
      if outcome == Ok(true) {
        var e := BuildActorlessEvent(tracker.event, vars);
        SendEvent(e);
      }
    }

    /**
     * `FormicaTracker.run`: check the arguments, then start the engine with them.
     */
    method Run(args: RunArguments, accessToken: Option<string>, response: Option<TrackerResponse>, reachable: bool)
      returns (outcome: GuardOutcome)
      modifies this
      ensures outcome == Guard(args)
      ensures outcome != Accepted ==> unchanged(this)
      ensures outcome == Accepted ==>
        args.serviceUrl.Some? && args.tenant.Some? && args.username.Some? &&
        args.password.Some? && args.client.Some? && args.authServiceUrl.Some?
      ensures outcome == Accepted ==> tenant == args.tenant.value && serviceUrl == args.serviceUrl.value
      ensures outcome == Accepted ==> authServiceUrl == args.authServiceUrl.value && username == args.username.value
      ensures outcome == Accepted ==> password == args.password.value && client == args.client.value
      ensures outcome == Accepted ==> Started(accessToken, response, reachable)
      ensures queue == old(queue) && viewDuration == old(viewDuration)
    {
      outcome := Guard(args);
      if outcome != Accepted {
        return;
      }
      Start(args.serviceUrl.value, args.tenant.value, args.username.value, args.password.value,
        args.client.value, args.authServiceUrl.value, accessToken, response, reachable);
    }

    /**
     * After the arguments are stored: the token of the authentication, the configuration
     * and urls of the response (those of before when the request failed), the network
     * flag, and one listener per trigger of the retained trackers.
     */
    twostate predicate Started(accessToken: Option<string>, response: Option<TrackerResponse>, reachable: bool)
      reads this
    {
      && token == accessToken && connected == reachable
      && (response.Some? ==>
            && trackers == ReactNativeOnly(response.value.trackers)
            && eventApiUrl == AsyncUrl(response.value.eventApiUrl, tenant)
            && syncEventApiUrl == SyncUrl(response.value.eventApiUrl, tenant)
            && authServerUrl == response.value.authServerUrl)
      && (response.None? ==>
            && trackers == old(trackers) && eventApiUrl == old(eventApiUrl)
            && syncEventApiUrl == old(syncEventApiUrl) && authServerUrl == old(authServerUrl))
      && listeners == old(listeners) + Registrations(trackers, ListenerFor)
    }

    /** The body of `run` once the arguments passed: store them, then configure the engine. */
    method Start(serviceUrl': string, tenant': string, username': string, password': string, client': string,
      authServiceUrl': string, accessToken: Option<string>, response: Option<TrackerResponse>, reachable: bool)
      modifies this
      ensures tenant == tenant' && serviceUrl == serviceUrl' && authServiceUrl == authServiceUrl'
      ensures username == username' && password == password' && client == client'
      ensures Started(accessToken, response, reachable)
      ensures queue == old(queue) && viewDuration == old(viewDuration)
    {
      Store(serviceUrl', tenant', username', password', client', authServiceUrl');
      Configure(accessToken, response, reachable);
    }

    /** The assignments at the top of `run` that keep the arguments in `trackerConfig`. */
    method Store(serviceUrl': string, tenant': string, username': string, password': string, client': string,
      authServiceUrl': string)
      modifies this`serviceUrl, this`tenant, this`username, this`password, this`client, this`authServiceUrl
      ensures tenant == tenant' && serviceUrl == serviceUrl' && authServiceUrl == authServiceUrl'
      ensures username == username' && password == password' && client == client'
    {
      authServiceUrl := authServiceUrl';
      serviceUrl := serviceUrl';
      tenant := tenant';
      username := username';
      password := password';
      client := client';
    }

    /** Authenticate, fetch the configuration, check the network and bind a listener per trigger. */
    method Configure(accessToken: Option<string>, response: Option<TrackerResponse>, reachable: bool)
      modifies this`token, this`trackers, this`eventApiUrl, this`syncEventApiUrl, this`authServerUrl
      modifies this`connected, this`listeners
      ensures Started(accessToken, response, reachable)
    {
      Authenticate(accessToken);
      GetTrackers(response);
      CheckNetworkConnection(reachable);
      Listen();
    }

    /** The `forEach` of `run` that calls `initListener` for each trigger of each retained tracker. */
    method Listen()
      modifies this`listeners
      ensures listeners == old(listeners) + Registrations(trackers, ListenerFor)
    {
      listeners := listeners + Registrations(trackers, ListenerFor);
    }
  }

  // ---------------------------------------------------------------- scenarios

  /** Two tracked events are posted in the order they were tracked. */
  method FifoScenario(e1: Event, e2: Event) returns (post: Option<Post>)
    ensures post == Some(Post("", [e1, e2]))
  {
    var engine := new Engine();
    engine.Track(e1);
    engine.Track(e2);
    assert engine.queue == [e1, e2];
    post := engine.FlushCycle(true);
  }

  /**
   * The first screen, shown for `n` timer ticks from start-up: the app-state change that
   * ends it reports "`d`" as 100·n in decimal, and leaves the timer at 0 for the next screen.
   */
  method DurationScenario(n: nat, host: Host, rt: Runtime) returns (e: Event, after: nat)
    ensures e.actor == None && e.variables == map["duration" := Decimal(100 * n)]
    ensures after == 0
  {
    var engine := new Engine();
    var schema := VariableSchema(ViewDuration, "d", NoOption);
    var tracker := TrackerSchema([], [schema], EventSchema("screen", None, [VariableMapping("duration", "`d`")]), Some("ReactNative"));
    engine.TickTimes(n);
    var outcome := engine.OnAppStateChange(TriggerSchema("appState", []), tracker, host, rt);
    DurationEvent(n, host);
    e := engine.queue[|engine.queue| - 1];
    after := engine.viewDuration;
  }

  /** The event built from one duration variable `d` and the mapping duration = `d`. */
  lemma {:induction false} DurationEvent(n: nat, host: Host)
    ensures ActorlessEventOf(EventSchema("screen", None, [VariableMapping("duration", "`d`")]),
      VariablesOf([VariableSchema(ViewDuration, "d", NoOption)], host, 100 * n, None)).variables
      == map["duration" := Decimal(100 * n)]
  {
    var schema := VariableSchema(ViewDuration, "d", NoOption);
    var pairs := VariablePairs([schema], host, 100 * n, None);
    assert pairs == [("d", Decimal(100 * n))];
    BindSingle("d", Decimal(100 * n));
    var vars := Bind(pairs);
    WholePlaceholder("d", vars);
    assert ['`'] + "d" + ['`'] == "`d`";
    var fields := FieldPairs([VariableMapping("duration", "`d`")], vars);
    assert fields == [("duration", Decimal(100 * n))];
    BindSingle("duration", Decimal(100 * n));
  }
}
