/**
 The compiler from a filter configuration to a bytecode program: build the
 expression tree, emit it post-order and put the program header in front.
 */
module Compiler {
  import opened Results
  import opened Filters
  import opened Expressions
  import opened Bytecode
  import opened Decoder
  import opened Builder

  /** Prepends the header to the emitted tree; the result decodes back to the tree. */
  function Assemble(e: Expr): (program: seq<Value>)
    ensures |program| >= 2 && program[0] == Str(HEADER)
    ensures Decode(program) == Some(e)
  {
    DecodeAssembled(e);
    [Str(HEADER)] + Emit(e)
  }

  function Compile(spec: FilterSpec, team: Team, actions: map<int, Action>): (r: Result<seq<Value>, BuildError>)
    ensures r.Success? <==> AllResolved(spec.actions, actions)
    ensures r.Success? ==> |r.value| >= 2 && r.value[0] == Str(HEADER) && Decode(r.value) == Some(Build(spec, team, actions).value)
    ensures r.Failure? ==> r.error.id !in actions
  {
    match Build(spec, team, actions)
    case Failure(err) => Failure(err)
    case Success(e) => Success(Assemble(e))
  }

  /**
   With no entries, no properties and no test-account filter in effect the
   program is the header and the constant true, whatever the team and the
   resolved actions hold.
   */
  lemma CompileNothing(spec: FilterSpec, team: Team, actions: map<int, Action>)
    requires spec.events == [] && spec.actions == [] && spec.properties == []
    requires !spec.filterTestAccounts || team.testAccountFilters == []
    ensures Compile(spec, team, actions) == Success([Str(HEADER), Int(TRUE)])
  {
    assert CommonExprs(spec, team) == [];
    assert EventGroups(spec.events, []) + [] == [];
    assert Build(spec, team, actions) == Success(True);
    assert Emit(True) == [Int(TRUE)];
    assert Assemble(True) == [Str(HEADER), Int(TRUE)];
  }

  /**
   A property comparison pushes its literal, then its field chain innermost
   key first, then looks the chain up and compares.
   */
  lemma ConditionEncoding(c: PropertyCondition)
    ensures c.scope == EventScope ==>
      Emit(ConditionExpr(c)) == [Int(STRING), Str(Literal(c.operator, c.value)),
                                 Int(STRING), Str(c.key), Int(STRING), Str("properties"),
                                 Int(GET_GLOBAL), Int(2), Int(OpCode(ComparisonOf(c.operator)))]
    ensures c.scope == PersonScope ==>
      Emit(ConditionExpr(c)) == [Int(STRING), Str(Literal(c.operator, c.value)),
                                 Int(STRING), Str(c.key), Int(STRING), Str("properties"), Int(STRING), Str("person"),
                                 Int(GET_GLOBAL), Int(3), Int(OpCode(ComparisonOf(c.operator)))]
  {
  }

  /** The operators' opcodes and literals. */
  lemma OperatorEncoding(value: string)
    ensures OpCode(ComparisonOf(Exact)) == 11 && Literal(Exact, value) == value
    ensures OpCode(ComparisonOf(IContains)) == 18 && Literal(IContains, value) == "%" + value + "%"
    ensures OpCode(ComparisonOf(NotIContains)) == 20 && Literal(NotIContains, value) == "%" + value + "%"
  {
  }

  /** An AND or OR emits its operands from the last to the first, then the opcode and the count. */
  lemma CombinatorEncoding(xs: seq<Expr>)
    ensures Emit(And(xs)) == EmitInOrder(Reverse(xs)) + [Int(AND), Int(|xs|)]
    ensures Emit(Or(xs)) == EmitInOrder(Reverse(xs)) + [Int(OR), Int(|xs|)]
  {
    EmitAllReversed(xs);
  }

  /** The event-name test pushes the name, then the one-key chain `event`, then compares for equality. */
  lemma EventNameEncoding(name: string)
    ensures Emit(EventNameExpr(name)) ==
      [Int(STRING), Str(name), Int(STRING), Str("event"), Int(GET_GLOBAL), Int(1), Int(EQ)]
  {
  }

  /** An action step's url is matched with `like` against `%url%` on `properties.$current_url`. */
  lemma UrlContainsEncoding(url: string)
    ensures Emit(UrlContainsExpr(url)) ==
      [Int(STRING), Str("%" + url + "%"), Int(STRING), Str("$current_url"), Int(STRING), Str("properties"),
       Int(GET_GLOBAL), Int(2), Int(LIKE)]
  {
  }

  /** Once the tree is built, the program is the header followed by the tree's emission. */
  lemma CompileBuilt(spec: FilterSpec, team: Team, actions: map<int, Action>, e: Expr)
    requires Build(spec, team, actions) == Success(e)
    ensures Compile(spec, team, actions) == Success([Str(HEADER)] + Emit(e))
  {
  }

  /**
   A property list of one condition emits that comparison alone, ending in
   its comparison opcode with no `3, 1`; a longer list emits its comparisons
   last first under one AND carrying the list's length.
   */
  lemma PropertiesEncoding(ps: seq<PropertyCondition>)
    ensures |ps| == 0 ==> Emit(PropertiesExpr(ps)) == [Int(TRUE)]
    ensures |ps| == 1 ==>
      var program := Emit(PropertiesExpr(ps));
      program == Emit(ConditionExpr(ps[0])) && program[|program| - 1] == Int(OpCode(ComparisonOf(ps[0].operator)))
    ensures |ps| >= 2 ==>
      Emit(PropertiesExpr(ps)) == EmitInOrder(Reverse(Conditions(ps))) + [Int(AND), Int(|ps|)]
  {
    if |ps| >= 2 {
      CombinatorEncoding(Conditions(ps));
    }
  }

  /**
   A step's conditions are its event name, its url match and its own
   properties, in that order, each only when present; a single condition
   stands alone and several are AND'ed, emitted last first.
   */
  lemma StepEncoding(step: ActionStep)
    ensures var cs := StepConditions(step);
      && |cs| == (if step.event.Some? then 1 else 0) + (if step.url.Some? then 1 else 0)
                 + (if |step.properties| > 0 then 1 else 0)
      && (step.event.Some? ==> cs[0] == EventNameExpr(step.event.value))
      && (step.url.Some? ==> cs[if step.event.Some? then 1 else 0] == UrlContainsExpr(step.url.value))
      && (|step.properties| > 0 ==> cs[|cs| - 1] == PropertiesExpr(step.properties))
    ensures var cs := StepConditions(step);
      && (|cs| == 0 ==> Emit(StepExpr(step)) == [Int(TRUE)])
      && (|cs| == 1 ==> Emit(StepExpr(step)) == Emit(cs[0]))
      && (|cs| >= 2 ==> Emit(StepExpr(step)) == EmitInOrder(Reverse(cs)) + [Int(AND), Int(|cs|)])
  {
    var cs := StepConditions(step);
    if |cs| >= 2 {
      CombinatorEncoding(cs);
    }
  }

  /**
   An action with n >= 2 steps is an OR of n operands, its steps emitted
   last first; a single step stands alone and no steps give `True`.
   */
  lemma ActionEncoding(action: Action)
    ensures |action.steps| == 0 ==> Emit(ActionExpr(action)) == [Int(TRUE)]
    ensures |action.steps| == 1 ==> Emit(ActionExpr(action)) == Emit(StepExpr(action.steps[0]))
    ensures |action.steps| >= 2 ==>
      Emit(ActionExpr(action)) == EmitInOrder(Reverse(StepExprs(action))) + [Int(OR), Int(|action.steps|)]
  {
    if |action.steps| >= 2 {
      CombinatorEncoding(StepExprs(action));
    }
  }
}
