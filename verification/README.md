# Hog-function filter compiler

This project models the compiler that turns a hog function's `filters` into a
program for the HogQL bytecode virtual machine. The compiler runs
`hog_function_filters_to_expr` and then `create_bytecode`. The model has three stages:

1. **Filters** (`filters.dfy`). These are the filter dictionary's parts:
   - event entries, with an optional name and their own property filters;
   - action entries, which refer to an action by id;
   - top-level property conditions (`key`, `value`, `operator`, `type`);
   - the `filter_test_accounts` flag.

   The team's test-account filters and the resolved actions are given as
   separate inputs.
2. **Builder** (`builder.dfy`, module `Builder`). It turns the filters into an expression tree
   (`Expressions.Expr`: `True`, `Const`, `Field(chain)`, `Compare`, n-ary
   `And`/`Or`).
   - Each event entry and each action entry becomes one AND group.
   - One comparison per test-account filter, then one per top-level property,
     are placed at the front of every group.
   - The groups are OR'd together.
   - With no entries, the result is the AND of those copied conditions.
   - With nothing at all, the result is `True`.
   - An unknown action id fails with `ActionNotFound`.
3. **Emitter and assembler** (`bytecode.dfy`, `compiler.dfy`). The emitter
   writes the tree post-order into a flat sequence of strings and integers,
   and the assembler puts the `"_h"` header in front.
   - A comparison emits its value before its field.
   - A field chain is pushed innermost key first, then `1, n`.
   - AND/OR emit their operands from the last to the first, then `3, n` / `4, n`.
   - The opcodes are 32 (push string), 1 (get global), 11 (eq), 17 (like),
     18 (ilike), 20 (not ilike), 3 (and), 4 (or) and 29 (true).

The emitter's partner is a decoder (`decoder.dfy`). It runs a program on a
stack of expression trees, so that each instruction pops the operands it
consumes and pushes the node it builds. Decoding the program assembled from any
tree gives back that tree (`Decoder.DecodeAssembled`). It follows that every
emitted expression has a net stack effect of exactly one value. `snapshots.dfy`
proves that the fixture filters compile to exactly the five recorded programs.

The compiler (`posthog/cdp/filters.py`, `posthog/hogql/bytecode.py`) is not
part of this model. Its encoding and grouping are reconstructed from the five
inline snapshots in `posthog/cdp/test/test_filters.py`. In the full snapshot,
the root is an OR of two groups (`4, 2`). The top-level properties and the
test-account filter are repeated inside each group (`3, 4` and `3, 5`).

Choices the recorded programs do not pin down, made here:
- A group with no conditions is `True`.
- The team's test-account filters join the common conditions one comparison
  per filter, as the top-level properties do.
- A property list of one condition is that condition. A longer list is an AND,
  and an empty one is `True`. This is how an event entry's or a step's own
  properties are added to it.
- A step's conditions come in this order: event name, url, own properties.
  One condition stands alone, and none gives `True`.
- An action with one step is that step. An action with several steps is their
  OR, and one with no steps is `True`.
- Event entries come before action entries, each kind in its given order.

## Model

| member | source | states |
|---|---|---|
| Builder.ActionGroups | posthog/cdp/test/test_filters.py:42-61 | succeeds iff every referenced action id is resolved, then gives one group per action entry in order, each carrying the action's expression; on failure names an unresolved id, and all entries before it were resolved |
| Builder.Build | posthog/cdp/test/test_filters.py:60-63 | fails exactly when an action is unresolved; with entries the root is an OR with one group per entry, each group carrying the test-account and then the top-level property comparisons first; without entries it is the AND of those conditions, or `True` when there are none |
| Builder.BuildGroupOrder | posthog/cdp/test/test_filters.py:155-265 | the OR's operands are the event entries' groups in order, then the action entries' groups in order |
| Bytecode.PushKeys | posthog/cdp/test/test_filters.py:128-137 | a field chain is pushed as `32, key` pairs, innermost key first |
| Bytecode.EmitAllReversed | posthog/cdp/test/test_filters.py:124-152 | combinator operands are emitted in reverse list order: equal to emitting the reversed list front to back |
| Bytecode.EmitAllAppend | posthog/cdp/test/test_filters.py:176-211 | the operands `a + b` are emitted as `b`'s programs followed by `a`'s |
| Decoder.RunEmit | posthog/cdp/test/test_filters.py:68-92 | running an emitted expression in front of any program and stack is the same as pushing that expression: each instruction consumes only what the preceding instructions pushed |
| Decoder.RunEmitAll | posthog/cdp/test/test_filters.py:68-92 | running emitted operands pushes them all, first operand on top, which is where the AND/OR count pops them from |
| Decoder.NetStackEffect | posthog/cdp/test/test_filters.py:68-92 | every emitted expression leaves exactly one value on top of the stack it started with |
| Decoder.DecodeAssembled | posthog/cdp/test/test_filters.py:155-265 | decoding a header-prefixed emitted program gives back the expression it was emitted from |
| Compiler.Assemble | posthog/cdp/test/test_filters.py:60-63 | the program starts with the `"_h"` header and decodes back to the tree it was assembled from |
| Compiler.Compile | posthog/cdp/test/test_filters.py:60-63 | succeeds iff every referenced action is resolved; a compiled program starts with the header and decodes to the built expression |
| Compiler.CompileNothing | posthog/cdp/test/test_filters.py:65-66 | with no entries, no properties and no test-account filter in effect, the program is exactly `"_h", 29`, with no combinator |
| Compiler.ConditionEncoding | posthog/cdp/test/test_filters.py:128-149 | a property comparison is `32, literal`, then the chain innermost key first, then `1, 2` for an event property or `1, 3` for a person property, then the operator's opcode |
| Compiler.OperatorEncoding | posthog/cdp/test/test_filters.py:177-209 | `exact` maps to 11 with the value unchanged; `icontains` maps to 18 and `not_icontains` to 20, both with the value wrapped as `%v%` |
| Compiler.CombinatorEncoding | posthog/cdp/test/test_filters.py:124-152 | AND and OR emit their operands from the last to the first, then the opcode (3 or 4) and the operand count |
| Compiler.EventNameEncoding | posthog/cdp/test/test_filters.py:81-87 | an event-name test is `32, name, 32, "event", 1, 1, 11` |
| Compiler.UrlContainsEncoding | posthog/cdp/test/test_filters.py:99-107 | an action step's `contains` url match is `like` (17) against `%url%` on `properties.$current_url` |
| Compiler.PropertiesEncoding | posthog/cdp/test/test_filters.py:68-92 | for every property list: one condition emits just its comparison, ending in the comparison opcode with no `3, 1`; two or more emit their comparisons last first under `3, n`; none emits `29` |
| Compiler.StepEncoding | posthog/cdp/test/test_filters.py:99-116 | for every action step: its conditions are event name, url match and own properties, in that order, each only when present; one condition stands alone, two or more are emitted last first under `3, n`, none is `29` |
| Compiler.ActionEncoding | posthog/cdp/test/test_filters.py:95-121 | for every action: n >= 2 steps give an OR of n operands with the steps emitted last first (`4, n`); one step is that step alone; no steps give `29` |
| Snapshots.SnapshotEmpty | posthog/cdp/test/test_filters.py:65-66 | the empty filter dictionary compiles to `["_h", 29]` |
| Snapshots.SnapshotEvents | posthog/cdp/test/test_filters.py:68-93 | the events-only fixture compiles to the recorded program: url ilike, event eq, `3, 2`, `4, 1` |
| Snapshots.SnapshotActions | posthog/cdp/test/test_filters.py:95-122 | the actions-only fixture compiles to the recorded program: url like, event eq, `3, 2`, `3, 1`, `4, 1` |
| Snapshots.SnapshotProperties | posthog/cdp/test/test_filters.py:124-153 | the properties-only fixture compiles to the recorded program: name first, then email, then `3, 2` |
| Snapshots.SnapshotFull | posthog/cdp/test/test_filters.py:155-266 | the full fixture compiles to the recorded program: the action group (`3, 4`), then the event group (`3, 5`), then `4, 2` |
| Snapshots.BuildFull | posthog/cdp/test/test_filters.py:14-58 | the full fixture builds to an OR of the event group (test-account, email, name, event, url) and the action group (test-account, email, name, step) |

## Left out

- Operators other than `exact`, `icontains` and `not_icontains` are not modelled. These include `is_not`, `regex`, `is_set`, the numeric comparisons and `in`. Their encodings never appear in the recorded programs, so `Filters.Operator` is a closed type with only these three.
- Action steps support only `contains` url matching. Url matching by `exact` or `regex` is not exercised, and neither are the selector, tag, href and text step fields.
- Group-scoped properties (`type: group`) and cohort filters are not modelled. Only the event and person scopes appear.
- Property values are strings. List and numeric values are not exercised.
- Malformed filter entries, unknown operators and unknown property types are not modelled. They cannot be represented in the closed filter datatypes, so the builder has no error path for them.
- The database fallback for actions missing from the passed mapping is not modelled, and neither are the fixture's database writes. An action missing from the mapping is reported as `ActionNotFound`.
- The JSON dump/load round trip of the program is not modelled. The program is treated directly as a sequence.
- The virtual machine's evaluation of a program against an event is not modelled. The decoder rebuilds the expression tree; it does not evaluate it.
- Sorting entries by their `order` key is not modelled: events precede actions.
- `ee/hogai/schema_generator/nodes.py` (language-model orchestration and a database query) and `posthog/temporal/data_imports/util.py` (S3 file copying) are outside this compiler and are not modelled.
