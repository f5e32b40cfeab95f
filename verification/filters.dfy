/**
 The filter configuration a hog function is triggered by: event entries,
 action entries, top-level property conditions and the "filter test accounts"
 flag, together with the records the compiler reads from outside the filter
 dictionary (the team's test-account filters and the resolved actions).
 */
module Filters {
  import opened Results

  /** Where a property lives: on the event itself or on the event's person. */
  datatype Scope = EventScope | PersonScope

  /** The comparison operators that the compiled programs exercise. */
  datatype Operator = Exact | IContains | NotIContains

  /** One `{key, value, operator, type}` property filter. */
  datatype PropertyCondition = PropertyCondition(key: string, value: string, operator: Operator, scope: Scope)

  /** An entry of `filters["events"]`: an optional event name and its own property filters. */
  datatype EventEntry = EventEntry(name: Option<string>, properties: seq<PropertyCondition>)

  /** An entry of `filters["actions"]`: a reference to an action by id. */
  datatype ActionEntry = ActionEntry(id: int)

  /** One step of an action; a url, when present, is matched with `contains`. */
  datatype ActionStep = ActionStep(event: Option<string>, url: Option<string>, properties: seq<PropertyCondition>)

  datatype Action = Action(steps: seq<ActionStep>)

  /** The whole filter dictionary; absent keys are empty sequences or `false`. */
  datatype FilterSpec = FilterSpec(
    events: seq<EventEntry>,
    actions: seq<ActionEntry>,
    properties: seq<PropertyCondition>,
    filterTestAccounts: bool)

  datatype Team = Team(testAccountFilters: seq<PropertyCondition>)

  /** The filter dictionary `{}`. */
  const NoFilters := FilterSpec([], [], [], false)
}
