/**
 A decoder for compiled filter programs: it runs the program on a stack of
 expression trees, each instruction popping the operands it consumes and
 pushing the node it builds. It is the partner of the emitter: decoding an
 emitted program gives back the tree it was emitted from, so every emitted
 expression leaves exactly one value on the stack.
 */
module Decoder {
  import opened Results
  import opened Expressions
  import opened Bytecode

  function CmpOpOfCode(code: int): Option<CmpOp> {
    if code == EQ then Some(Eq)
    else if code == LIKE then Some(Like)
    else if code == ILIKE then Some(ILike)
    else if code == NOT_ILIKE then Some(NotILike)
    else None
  }

  predicate AllConst(st: seq<Expr>) {
    forall k :: 0 <= k < |st| ==> st[k].Const?
  }

  /** The keys held by a run of pushed string constants, top of stack first. */
  function Keys(st: seq<Expr>): (keys: seq<string>)
    requires AllConst(st)
    ensures |keys| == |st|
    ensures forall k :: 0 <= k < |st| ==> st[k] == Const(keys[k])
  {
    seq(|st|, k requires 0 <= k < |st| => st[k].value)
  }

  /** The stack a run of chain pushes leaves, outermost key on top. */
  function Consts(chain: seq<string>): (st: seq<Expr>)
    ensures |st| == |chain| && AllConst(st)
    ensures Keys(st) == chain
  {
    seq(|chain|, k requires 0 <= k < |chain| => Const(chain[k]))
  }

  /** The effect of one instruction: how many entries it spans and the stack it leaves. */
  datatype Stepped = Stepped(width: nat, stack: seq<Expr>)

  /**
   Executes the instruction at the head of `p` on a stack whose top is
   `st[0]`; `None` when it is malformed or finds too few operands.
   */
  function Step(p: seq<Value>, st: seq<Expr>): (r: Option<Stepped>)
    requires |p| > 0
    ensures r.Some? ==> 1 <= r.value.width <= |p|
  {
    if p[0] == Int(TRUE) then Some(Stepped(1, [True] + st))
    else if p[0].Int? && CmpOpOfCode(p[0].i).Some? then
      if |st| < 2 then None
      else Some(Stepped(1, [Compare(CmpOpOfCode(p[0].i).value, st[0], st[1])] + st[2..]))
    else if |p| < 2 then None
    else if p[0] == Int(STRING) && p[1].Str? then Some(Stepped(2, [Const(p[1].s)] + st))
    else if p[0] == Int(GET_GLOBAL) && p[1].Int? && 0 <= p[1].i <= |st| && AllConst(st[..p[1].i]) then
      Some(Stepped(2, [Field(Keys(st[..p[1].i]))] + st[p[1].i..]))
    else if p[0] == Int(AND) && p[1].Int? && 0 <= p[1].i <= |st| then
      Some(Stepped(2, [And(st[..p[1].i])] + st[p[1].i..]))
    else if p[0] == Int(OR) && p[1].Int? && 0 <= p[1].i <= |st| then
      Some(Stepped(2, [Or(st[..p[1].i])] + st[p[1].i..]))
    else None
  }

  /** Runs a whole program; `None` as soon as one instruction fails. */
  function Run(p: seq<Value>, st: seq<Expr>): Option<seq<Expr>>
    decreases |p|
  {
    if |p| == 0 then Some(st)
    else
      match Step(p, st)
      case None => None
      case Some(s) => Run(p[s.width..], s.stack)
  }

  /** Running a program that starts with an instruction `ins` of known effect. */
  lemma RunInstruction(ins: seq<Value>, rest: seq<Value>, st: seq<Expr>, st': seq<Expr>)
    requires |ins| > 0 && Step(ins + rest, st) == Some(Stepped(|ins|, st'))
    ensures Run(ins + rest, st) == Run(rest, st')
  {
  }

  /** Checks the header and decodes the single expression the program leaves. */
  function Decode(program: seq<Value>): Option<Expr> {
    if |program| == 0 || program[0] != Str(HEADER) then None
    else
      match Run(program[1..], [])
      case Some(st) => if |st| == 1 then Some(st[0]) else None
      case None => None
  }

  lemma StepTrue(rest: seq<Value>, st: seq<Expr>)
    ensures Step([Int(TRUE)] + rest, st) == Some(Stepped(1, [True] + st))
  {
  }

  lemma StepString(s: string, rest: seq<Value>, st: seq<Expr>)
    ensures Step([Int(STRING), Str(s)] + rest, st) == Some(Stepped(2, [Const(s)] + st))
  {
  }

  lemma StepGetGlobal(chain: seq<string>, rest: seq<Value>, st: seq<Expr>)
    ensures Step([Int(GET_GLOBAL), Int(|chain|)] + rest, Consts(chain) + st) == Some(Stepped(2, [Field(chain)] + st))
  {
  }

  lemma StepCompare(op: CmpOp, left: Expr, right: Expr, rest: seq<Value>, st: seq<Expr>)
    ensures Step([Int(OpCode(op))] + rest, [left, right] + st) == Some(Stepped(1, [Compare(op, left, right)] + st))
  {
  }

  lemma StepAnd(xs: seq<Expr>, rest: seq<Value>, st: seq<Expr>)
    ensures Step([Int(AND), Int(|xs|)] + rest, xs + st) == Some(Stepped(2, [And(xs)] + st))
  {
  }

  lemma StepOr(xs: seq<Expr>, rest: seq<Value>, st: seq<Expr>)
    ensures Step([Int(OR), Int(|xs|)] + rest, xs + st) == Some(Stepped(2, [Or(xs)] + st))
  {
  }

  lemma {:induction false} RunPushKeys(chain: seq<string>, rest: seq<Value>, st: seq<Expr>)
    ensures Run(PushKeys(chain) + rest, st) == Run(rest, Consts(chain) + st)
  {
    if |chain| == 0 {
      assert PushKeys(chain) + rest == rest;
      assert Consts(chain) + st == st;
    } else {
      var ins := [Int(STRING), Str(chain[0])];
      assert PushKeys(chain) + rest == PushKeys(chain[1..]) + (ins + rest);
      RunPushKeys(chain[1..], ins + rest, st);
      StepString(chain[0], rest, Consts(chain[1..]) + st);
      RunInstruction(ins, rest, Consts(chain[1..]) + st, [Const(chain[0])] + (Consts(chain[1..]) + st));
      assert [Const(chain[0])] + (Consts(chain[1..]) + st) == Consts(chain) + st;
    }
  }

  /** Running an emitted expression pushes exactly that expression. */
  lemma {:induction false} RunEmit(e: Expr, rest: seq<Value>, st: seq<Expr>)
    ensures Run(Emit(e) + rest, st) == Run(rest, [e] + st)
    decreases e, 1
  {
    match e
    case True =>
      StepTrue(rest, st);
      RunInstruction([Int(TRUE)], rest, st, [e] + st);
    case Const(s) =>
      StepString(s, rest, st);
      RunInstruction([Int(STRING), Str(s)], rest, st, [e] + st);
    case Field(chain) =>
      var ins := [Int(GET_GLOBAL), Int(|chain|)];
      assert Emit(e) + rest == PushKeys(chain) + (ins + rest);
      RunPushKeys(chain, ins + rest, st);
      StepGetGlobal(chain, rest, st);
      RunInstruction(ins, rest, Consts(chain) + st, [e] + st);
    case Compare(op, left, right) =>
      RunEmitCompare(op, left, right, rest, st);
    case And(xs) =>
      RunEmitAnd(xs, rest, st);
    case Or(xs) =>
      RunEmitOr(xs, rest, st);
  }

  lemma {:induction false} RunEmitCompare(op: CmpOp, left: Expr, right: Expr, rest: seq<Value>, st: seq<Expr>)
    ensures Run(Emit(Compare(op, left, right)) + rest, st) == Run(rest, [Compare(op, left, right)] + st)
    decreases Compare(op, left, right), 0
  {
    var ins := [Int(OpCode(op))];
    assert Emit(Compare(op, left, right)) + rest == Emit(right) + (Emit(left) + (ins + rest));
    RunEmit(right, Emit(left) + (ins + rest), st);
    RunEmit(left, ins + rest, [right] + st);
    assert [left] + ([right] + st) == [left, right] + st;
    StepCompare(op, left, right, rest, st);
    RunInstruction(ins, rest, [left, right] + st, [Compare(op, left, right)] + st);
  }

  lemma {:induction false} RunEmitAnd(xs: seq<Expr>, rest: seq<Value>, st: seq<Expr>)
    ensures Run(Emit(And(xs)) + rest, st) == Run(rest, [And(xs)] + st)
    decreases And(xs), 0
  {
    var ins := [Int(AND), Int(|xs|)];
    assert Emit(And(xs)) + rest == EmitAll(xs) + (ins + rest);
    RunEmitAll(xs, ins + rest, st);
    StepAnd(xs, rest, st);
    RunInstruction(ins, rest, xs + st, [And(xs)] + st);
  }

  lemma {:induction false} RunEmitOr(xs: seq<Expr>, rest: seq<Value>, st: seq<Expr>)
    ensures Run(Emit(Or(xs)) + rest, st) == Run(rest, [Or(xs)] + st)
    decreases Or(xs), 0
  {
    var ins := [Int(OR), Int(|xs|)];
    assert Emit(Or(xs)) + rest == EmitAll(xs) + (ins + rest);
    RunEmitAll(xs, ins + rest, st);
    StepOr(xs, rest, st);
    RunInstruction(ins, rest, xs + st, [Or(xs)] + st);
  }

  /** Running emitted operands pushes them so that the first operand ends on top. */
  lemma {:induction false} RunEmitAll(xs: seq<Expr>, rest: seq<Value>, st: seq<Expr>)
    ensures Run(EmitAll(xs) + rest, st) == Run(rest, xs + st)
    decreases xs
  {
    if |xs| == 0 {
      assert EmitAll(xs) + rest == rest;
      assert xs + st == st;
    } else {
      var x, tl := xs[0], xs[1..];
      var tail := Emit(x) + rest;
      assert EmitAll(xs) == EmitAll(tl) + Emit(x);
      assert EmitAll(xs) + rest == EmitAll(tl) + tail;
      RunEmitAll(tl, tail, st);
      RunEmit(x, rest, tl + st);
      assert [x] + (tl + st) == xs + st;
    }
  }

  /** Every emitted expression has a net stack effect of exactly one value. */
  lemma NetStackEffect(e: Expr, st: seq<Expr>)
    ensures Run(Emit(e), st) == Some([e] + st)
  {
    RunEmit(e, [], st);
    assert Emit(e) + [] == Emit(e);
  }

  /** Decoding a program assembled from a tree gives back that tree. */
  lemma DecodeAssembled(e: Expr)
    ensures Decode([Str(HEADER)] + Emit(e)) == Some(e)
  {
    var p := [Str(HEADER)] + Emit(e);
    assert p[1..] == Emit(e);
    NetStackEffect(e, []);
    assert [e] + [] == [e];
  }
}
