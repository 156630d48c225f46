/**
 * `buildEvent`: an event takes its name from the schema and each of its fields from a
 * template resolved against the variables of the firing. The older draft also resolves an
 * actor template; the newer draft's event has no actor.
 */
module Events {
  import opened Common
  import opened KeyValue
  import opened Templates
  import opened Schemas

  /** A tracked event; `actor` is present exactly in events of the older draft. */
  datatype Event = Event(name: string, actor: Option<string>, variables: map<string, string>)

  /** The assignments `variables[mapping.name] = resolveMapping(mapping.value)`, in order. */
  function FieldPairs(ms: seq<VariableMapping>, vars: map<string, string>): seq<(string, string)> {
    seq(|ms|, i requires 0 <= i < |ms| => (ms[i].name, Resolved(ms[i].value, vars)))
  }

  /** The names of the mappings. */
  function Names(ms: seq<VariableMapping>): set<string> {
    set i | 0 <= i < |ms| :: ms[i].name
  }

  /** No later mapping has the name of mapping `i`. */
  predicate LastNamed(ms: seq<VariableMapping>, i: nat)
    requires i < |ms|
  {
    forall j :: i < j < |ms| ==> ms[j].name != ms[i].name
  }

  /** The event the older draft's `buildEvent(schema, vars)` returns. */
  function EventOf(schema: EventSchema, vars: map<string, string>): Event {
    Event(
      schema.name,
      match schema.actorMapping
        case None => None
        case Some(a) => Some(Resolved(a, vars)),
      Bind(FieldPairs(schema.variableMappings, vars)))
  }

  /**
   * The built event copies the name, resolves the actor template when there is one, has
   * exactly the mapping names as keys, and gives each name the resolved template of the
   * last mapping with that name.
   */
  lemma EventOfShape(schema: EventSchema, vars: map<string, string>)
    ensures EventOf(schema, vars).name == schema.name
    ensures EventOf(schema, vars).actor.Some? <==> schema.actorMapping.Some?
    ensures schema.actorMapping.Some? ==> EventOf(schema, vars).actor.value == Resolved(schema.actorMapping.value, vars)
    ensures EventOf(schema, vars).variables.Keys == Names(schema.variableMappings)
    ensures forall i :: 0 <= i < |schema.variableMappings| && LastNamed(schema.variableMappings, i) ==>
      EventOf(schema, vars).variables[schema.variableMappings[i].name] == Resolved(schema.variableMappings[i].value, vars)
  {
    var ms := schema.variableMappings;
    var pairs := FieldPairs(ms, vars);
    BindKeys(pairs);
    assert KeysOf(pairs) == Names(ms) by {
      assert forall i :: 0 <= i < |ms| ==> pairs[i].0 == ms[i].name;
    }
    forall i | 0 <= i < |ms| && LastNamed(ms, i)
      ensures Bind(pairs)[ms[i].name] == Resolved(ms[i].value, vars)
    {
      BindLastWins(pairs, i);
    }
  }

  /** The `forEach` of `buildEvent`, which assigns one field per mapping. */
  method BuildVariables(ms: seq<VariableMapping>, vars: map<string, string>) returns (fields: map<string, string>)
    ensures fields == Bind(FieldPairs(ms, vars))
  {
    ghost var pairs := FieldPairs(ms, vars);
    fields := map[];
    for i := 0 to |ms|
      invariant fields == Bind(pairs[..i])
    {
      var value := ResolveMapping(ms[i].value, vars);
      BindStep(pairs, i);
      fields := fields[ms[i].name := value];
    }
    assert pairs[..|ms|] == pairs;
  }

  /** The older draft's `buildEvent(eventSchema, trackerVariables)`. */
  method BuildEvent(schema: EventSchema, vars: map<string, string>) returns (e: Event)
    ensures e == EventOf(schema, vars)
  {
    var actor: Option<string> := None;
    if schema.actorMapping.Some? {
      var a := ResolveMapping(schema.actorMapping.value, vars);
      actor := Some(a);
    }
    var fields := BuildVariables(schema.variableMappings, vars);
    e := Event(schema.name, actor, fields);
  }

  /** The event the newer draft's `buildEvent(schema, vars)` returns: a name and fields, never an actor. */
  function ActorlessEventOf(schema: EventSchema, vars: map<string, string>): Event {
    Event(schema.name, None, Bind(FieldPairs(schema.variableMappings, vars)))
  }

  /**
   * The newer draft's event has no actor, whatever the schema carries; its name, keys and
   * values are those the older draft builds from the same schema.
   */
  lemma ActorlessEventOfShape(schema: EventSchema, vars: map<string, string>)
    ensures ActorlessEventOf(schema, vars).actor == None
    ensures ActorlessEventOf(schema, vars).name == schema.name
    ensures ActorlessEventOf(schema, vars).variables == EventOf(schema, vars).variables
    ensures ActorlessEventOf(schema, vars).variables.Keys == Names(schema.variableMappings)
    ensures forall i :: 0 <= i < |schema.variableMappings| && LastNamed(schema.variableMappings, i) ==>
      ActorlessEventOf(schema, vars).variables[schema.variableMappings[i].name] == Resolved(schema.variableMappings[i].value, vars)
  {
    EventOfShape(schema, vars);
  }

  /** The newer draft's `buildEvent(eventSchema, trackerVariables)`, which never reads `actorMapping`. */
  method BuildActorlessEvent(schema: EventSchema, vars: map<string, string>) returns (e: Event)
    ensures e == ActorlessEventOf(schema, vars)
    ensures e.actor == None
  {
    var fields := BuildVariables(schema.variableMappings, vars);
    e := Event(schema.name, None, fields);
  }
}
