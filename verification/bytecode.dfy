/**
 The flat bytecode of a compiled filter: a header string followed by a
 post-order stack-machine encoding of the expression tree. Every entry is
 either a string or an integer.
 */
module Bytecode {
  import opened Expressions

  datatype Value = Str(s: string) | Int(i: int)

  /** Program header marker. */
  const HEADER: string := "_h"

  /** Opcodes that appear in compiled filter programs. */
  const GET_GLOBAL: int := 1
  const AND: int := 3
  const OR: int := 4
  const EQ: int := 11
  const LIKE: int := 17
  const ILIKE: int := 18
  const NOT_ILIKE: int := 20
  const TRUE: int := 29
  const STRING: int := 32

  function OpCode(op: CmpOp): int {
    match op
    case Eq => EQ
    case Like => LIKE
    case ILike => ILIKE
    case NotILike => NOT_ILIKE
  }

  /** Pushes the keys of a field chain, last (innermost) key first. */
  function PushKeys(chain: seq<string>): (r: seq<Value>)
    ensures |r| == 2 * |chain|
    ensures forall i :: 0 <= i < |r| ==>
      r[i] == (if i % 2 == 0 then Int(STRING) else Str(chain[|chain| - 1 - i / 2]))
  {
    if |chain| == 0 then []
    else
      var tail := PushKeys(chain[1..]);
      var r := tail + [Int(STRING), Str(chain[0])];
      assert forall i :: 0 <= i < |tail| ==> r[i] == tail[i];
      r
  }

  /**
   Post-order emission. A comparison emits its right operand (the value)
   before its left operand (the field); AND/OR emit their operands last
   first, then the opcode and the operand count.
   */
  function Emit(e: Expr): seq<Value>
    decreases e
  {
    match e
    case True => [Int(TRUE)]
    case Const(s) => [Int(STRING), Str(s)]
    case Field(chain) => PushKeys(chain) + [Int(GET_GLOBAL), Int(|chain|)]
    case Compare(op, left, right) => Emit(right) + Emit(left) + [Int(OpCode(op))]
    case And(xs) => EmitAll(xs) + [Int(AND), Int(|xs|)]
    case Or(xs) => EmitAll(xs) + [Int(OR), Int(|xs|)]
  }

  /** The operands of a combinator, emitted from the last to the first. */
  function EmitAll(xs: seq<Expr>): seq<Value>
    decreases xs
  {
    if |xs| == 0 then [] else EmitAll(xs[1..]) + Emit(xs[0])
  }

  /** Operand programs concatenated in list order (the reference the emitter is compared with). */
  function EmitInOrder(xs: seq<Expr>): seq<Value>
  {
    if |xs| == 0 then [] else Emit(xs[0]) + EmitInOrder(xs[1..])
  }

  function Reverse<T>(xs: seq<T>): (r: seq<T>)
    ensures |r| == |xs|
    ensures forall i :: 0 <= i < |xs| ==> r[i] == xs[|xs| - 1 - i]
  {
    if |xs| == 0 then [] else Reverse(xs[1..]) + [xs[0]]
  }

  lemma {:induction false} EmitInOrderAppend(a: seq<Expr>, b: seq<Expr>)
    ensures EmitInOrder(a + b) == EmitInOrder(a) + EmitInOrder(b)
  {
    if |a| == 0 {
      assert a + b == b;
    } else {
      assert (a + b)[0] == a[0];
      assert (a + b)[1..] == a[1..] + b;
      EmitInOrderAppend(a[1..], b);
    }
  }

  /** Combinator operands are emitted in reverse list order. */
  lemma {:induction false} EmitAllReversed(xs: seq<Expr>)
    ensures EmitAll(xs) == EmitInOrder(Reverse(xs))
  {
    if |xs| > 0 {
      EmitAllReversed(xs[1..]);
      EmitInOrderAppend(Reverse(xs[1..]), [xs[0]]);
      assert EmitInOrder([xs[0]]) == Emit(xs[0]);
    }
  }

  /** Emitting the operands `x :: xs` emits `xs` first and `x` last. */
  lemma EmitAllCons(x: Expr, xs: seq<Expr>)
    ensures EmitAll([x] + xs) == EmitAll(xs) + Emit(x)
  {
  }

  /** The operands of `a + b` are emitted as those of `b`, then those of `a`. */
  lemma {:induction false} EmitAllAppend(a: seq<Expr>, b: seq<Expr>)
    ensures EmitAll(a + b) == EmitAll(b) + EmitAll(a)
  {
    if |a| == 0 {
      assert a + b == b;
    } else {
      assert (a + b)[0] == a[0] && (a + b)[1..] == a[1..] + b;
      EmitAllAppend(a[1..], b);
    }
  }
}
