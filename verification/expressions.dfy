/** The boolean expression tree the builder produces and the emitter consumes. */
module Expressions {

  /** Comparison kinds: equality, `like`, `ilike` and `not ilike`. */
  datatype CmpOp = Eq | Like | ILike | NotILike

  /**
   An expression node. `Field(chain)` looks up a key chain on the event,
   outermost key first (`["person", "properties", "name"]`); `And`/`Or`
   are n-ary and keep their operand order.
   */
  datatype Expr =
    | True
    | Const(value: string)
    | Field(chain: seq<string>)
    | Compare(op: CmpOp, left: Expr, right: Expr)
    | And(exprs: seq<Expr>)
    | Or(exprs: seq<Expr>)
}
