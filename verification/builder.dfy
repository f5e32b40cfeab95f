/**
 The builder from a hog function's filter configuration to a boolean
 expression tree. Each event entry and each action entry becomes one AND
 group; the top-level properties and the test-account filter are copied
 into every group; the groups are OR'd together. Without entries the result
 is the AND of the copied conditions, and with nothing at all it is `True`.
 */
module Builder {
  import opened Results
  import opened Filters
  import opened Expressions

  datatype BuildError = ActionNotFound(id: int)

  /** The field chain under which a scope keeps a property. */
  function ScopeChain(scope: Scope): seq<string> {
    match scope
    case EventScope => ["properties"]
    case PersonScope => ["person", "properties"]
  }

  function ComparisonOf(op: Operator): CmpOp {
    match op
    case Exact => Eq
    case IContains => ILike
    case NotIContains => NotILike
  }

  /** The literal an operator compares against: unchanged for `exact`, wrapped in `%` wildcards otherwise. */
  function Literal(op: Operator, value: string): (lit: string)
    ensures op == Exact ==> lit == value
    ensures op != Exact ==>
      |lit| == |value| + 2 && lit[0] == '%' && lit[|lit| - 1] == '%' && lit[1..|lit| - 1] == value
  {
    if op == Exact then value else "%" + value + "%"
  }

  /** A property condition as a comparison of its field with its literal. */
  function ConditionExpr(c: PropertyCondition): Expr {
    Compare(ComparisonOf(c.operator), Field(ScopeChain(c.scope) + [c.key]), Const(Literal(c.operator, c.value)))
  }

  function Conditions(ps: seq<PropertyCondition>): (es: seq<Expr>)
    ensures |es| == |ps|
    ensures forall i :: 0 <= i < |ps| ==> es[i] == ConditionExpr(ps[i])
  {
    seq(|ps|, i requires 0 <= i < |ps| => ConditionExpr(ps[i]))
  }

  /** A list of property conditions as one expression: a single condition stands alone. */
  function PropertiesExpr(ps: seq<PropertyCondition>): Expr {
    if |ps| == 0 then True
    else if |ps| == 1 then ConditionExpr(ps[0])
    else And(Conditions(ps))
  }

  /** `event = name`. */
  function EventNameExpr(name: string): Expr {
    Compare(Eq, Field(["event"]), Const(name))
  }

  /** `properties.$current_url like '%url%'`. */
  function UrlContainsExpr(url: string): Expr {
    Compare(Like, Field(["properties", "$current_url"]), Const("%" + url + "%"))
  }

  /** The conditions of one action step, in order: event name, url, own properties. */
  function StepConditions(step: ActionStep): seq<Expr> {
    (if step.event.Some? then [EventNameExpr(step.event.value)] else [])
    + (if step.url.Some? then [UrlContainsExpr(step.url.value)] else [])
    + (if |step.properties| > 0 then [PropertiesExpr(step.properties)] else [])
  }

  /** AND of a step's conditions: a single condition stands alone, none is `True`. */
  function StepExpr(step: ActionStep): Expr {
    var cs := StepConditions(step);
    if |cs| == 0 then True else if |cs| == 1 then cs[0] else And(cs)
  }

  /** The expressions of an action's steps, in order. */
  function StepExprs(action: Action): (es: seq<Expr>)
    ensures |es| == |action.steps|
    ensures forall i :: 0 <= i < |es| ==> es[i] == StepExpr(action.steps[i])
  {
    seq(|action.steps|, i requires 0 <= i < |action.steps| => StepExpr(action.steps[i]))
  }

  /** OR of an action's steps: a single step stands alone, none is `True`. */
  function ActionExpr(action: Action): Expr {
    var steps := action.steps;
    if |steps| == 0 then True
    else if |steps| == 1 then StepExpr(steps[0])
    else Or(StepExprs(action))
  }

  /**
   The conditions copied into every group: one comparison per test-account
   filter of the team (when requested), then one per top-level property.
   */
  function CommonExprs(spec: FilterSpec, team: Team): seq<Expr> {
    (if spec.filterTestAccounts then Conditions(team.testAccountFilters) else [])
    + Conditions(spec.properties)
  }

  /** The conditions an event entry contributes to its own group. */
  function EventConditions(entry: EventEntry): seq<Expr> {
    (if entry.name.Some? then [EventNameExpr(entry.name.value)] else [])
    + (if |entry.properties| > 0 then [PropertiesExpr(entry.properties)] else [])
  }

  /** One group: the common conditions followed by the entry's own, AND'ed. */
  function Group(common: seq<Expr>, own: seq<Expr>): (g: Expr)
    ensures |common + own| > 0 ==>
      g.And? && |g.exprs| == |common| + |own| && g.exprs[..|common|] == common && g.exprs[|common|..] == own
    ensures |common + own| == 0 ==> g == True
  {
    if |common + own| == 0 then True else And(common + own)
  }

  function EventGroups(events: seq<EventEntry>, common: seq<Expr>): (gs: seq<Expr>)
    ensures |gs| == |events|
    ensures forall i :: 0 <= i < |events| ==> gs[i] == Group(common, EventConditions(events[i]))
  {
    seq(|events|, i requires 0 <= i < |events| => Group(common, EventConditions(events[i])))
  }

  /** A group carries the common conditions as its leading operands. */
  predicate CarriesCommon(g: Expr, common: seq<Expr>) {
    |common| == 0 || (g.And? && |common| <= |g.exprs| && g.exprs[..|common|] == common)
  }

  /** True when every referenced action id is resolved. */
  predicate AllResolved(entries: seq<ActionEntry>, actions: map<int, Action>) {
    forall i :: 0 <= i < |entries| ==> entries[i].id in actions
  }

  /**
   One group per action entry, in order; fails on the first entry whose
   action is not in `actions`.
   */
  function ActionGroups(entries: seq<ActionEntry>, actions: map<int, Action>, common: seq<Expr>)
    : (r: Result<seq<Expr>, BuildError>)
    ensures r.Success? <==> AllResolved(entries, actions)
    ensures r.Success? ==>
      |r.value| == |entries| &&
      forall i :: 0 <= i < |entries| ==> r.value[i] == Group(common, [ActionExpr(actions[entries[i].id])])
    ensures r.Failure? ==>
      exists i :: 0 <= i < |entries| && entries[i].id == r.error.id && r.error.id !in actions
                  && AllResolved(entries[..i], actions)
  {
    if |entries| == 0 then Success([])
    else if entries[0].id !in actions then
      assert AllResolved(entries[..0], actions);
      Failure(ActionNotFound(entries[0].id))
    else
      match ActionGroups(entries[1..], actions, common)
      case Failure(err) =>
        ghost var j :| 0 <= j < |entries[1..]| && entries[1..][j].id == err.id && err.id !in actions
                       && AllResolved(entries[1..][..j], actions);
        assert entries[1..][..j] == entries[1..j + 1];
        assert AllResolved(entries[..j + 1], actions);
        Failure(err)
      case Success(rest) =>
        Success([Group(common, [ActionExpr(actions[entries[0].id])])] + rest)
  }

  /**
   The expression a filter configuration compiles to, given the team's
   test-account filters and the resolved actions.
   */
  function Build(spec: FilterSpec, team: Team, actions: map<int, Action>): (r: Result<Expr, BuildError>)
    ensures r.Success? <==> AllResolved(spec.actions, actions)
    ensures r.Failure? ==>
      r.error.id !in actions && exists i :: 0 <= i < |spec.actions| && spec.actions[i].id == r.error.id
    ensures r.Success? && |spec.events| + |spec.actions| > 0 ==>
      r.value.Or? && |r.value.exprs| == |spec.events| + |spec.actions| &&
      forall k :: 0 <= k < |r.value.exprs| ==> CarriesCommon(r.value.exprs[k], CommonExprs(spec, team))
    ensures r.Success? && |spec.events| + |spec.actions| == 0 ==>
      r.value == (if |CommonExprs(spec, team)| > 0 then And(CommonExprs(spec, team)) else True)
  {
    var common := CommonExprs(spec, team);
    match ActionGroups(spec.actions, actions, common)
    case Failure(err) => Failure(err)
    case Success(actionGroups) =>
      var groups := EventGroups(spec.events, common) + actionGroups;
      if |groups| > 0 then Success(Or(groups))
      else if |common| > 0 then Success(And(common))
      else Success(True)
  }

  /**
   The groups are the event entries' groups in order, followed by the
   action entries' groups in order.
   */
  lemma BuildGroupOrder(spec: FilterSpec, team: Team, actions: map<int, Action>)
    requires Build(spec, team, actions).Success? && |spec.events| + |spec.actions| > 0
    ensures var gs := Build(spec, team, actions).value.exprs;
            var common := CommonExprs(spec, team);
            (forall i :: 0 <= i < |spec.events| ==> gs[i] == Group(common, EventConditions(spec.events[i]))) &&
            (forall j :: 0 <= j < |spec.actions| ==>
               gs[|spec.events| + j] == Group(common, [ActionExpr(actions[spec.actions[j].id])]))
  {
    var common := CommonExprs(spec, team);
    var groups := ActionGroups(spec.actions, actions, common);
    assert groups.Success?;
    var eventGroups := EventGroups(spec.events, common);
    assert Build(spec, team, actions) == Success(Or(eventGroups + groups.value));
  }
}
