# Flattening nested classes

This project models the class-flattening pass of a compiler in Dafny,
`flattenClasses` in `compiler/passes/flattenClasses.cpp`, and proves what the
pass guarantees.

The pass works on the whole-program tree. Some class definitions sit inside
the body of another class. The pass moves each of these to the end of its
module's top-level block. It runs in two phases:

1. **Collection.** It scans every node of `gAsts` with `isInnerClass` and
   gathers the nested classes into a vector with `add_exclusive`. Each
   class appears once, in the order it was first met.
2. **Relocation.** For each collected class, in that order, it finds the
   module with `getModule`. It then unlinks the class's definition
   (`def->remove()`) and appends it to the module's block
   (`mod->block->insertAtTail(def)`).

The model has four modules:

- `Seqs` (`seqs.dfy`) holds the containers as sequences.
  - `AddExclusive` is `Vec::add_exclusive`.
  - `Keep` is an order-preserving filter, used to say what unlinking a
    node does.
- `Ast` (`ast.dfy`) models the tree.
  - A `SymbolTable` is fixed while the pass runs. It holds node kinds,
    symbols with their kind, type and `defPoint`, and the symbol of each
    class type.
  - A `Layout` is what the pass changes: the contents of each block, keyed by
    the symbol that owns it, and the `parentSymbol` of every placed node.
  - The class `Program` holds the layout in mutable fields. Its methods
    `Remove` and `InsertAtTail` are the two tree edits the pass makes.
  - `ModuleOf`/`GetModule` walk the chain of enclosing symbols, as
    `getModule` does.
- `FlattenPass` (`flatten.dfy`) holds the pass itself.
  - `IsInnerClass` models the nesting test.
  - `Collected` specifies the first loop; `Relocate` and `RelocateAll`
    specify the second; `Flatten` specifies the whole pass.
  - The methods `CollectNestedClasses`, `MoveToModule`, `MoveToModules`
    and `FlattenClasses` are the imperative pass. Each is proved equal to
    its specification function.
- `FlattenProps` (`flatten_props.dfy`) proves what the pass promises:
  - classification and first-encounter order;
  - order in the blocks that lose definitions and in the module blocks
    that gain them;
  - every relocated class lands in its original module;
  - nothing nested is left, and a second run changes nothing;
  - no definition is lost or duplicated.

Two consequences of how `isInnerClass` is written shape the model:

- **Any definition of a class-typed symbol counts**
  (`compiler/passes/flattenClasses.cpp:12`). The test accepts every
  `DefExpr` whose symbol has a class type, not only the class's own
  definition. A variable whose type is a nested class also yields that
  class. This is why the collection must be exclusive.
- **Classes in a function body stay put**
  (`compiler/passes/flattenClasses.cpp:14`). Only classes whose defining
  scope has a class type are accepted. A class defined in a function body
  is never collected, so it is not moved. `NoInnerClassRemains` states
  the guarantee in exactly these terms: after the pass no scanned node is
  accepted.

## Model

| member | source | states |
|---|---|---|
| Ast.ParentSymbol | compiler/passes/flattenClasses.cpp:14 | a symbol's `defPoint->parentSymbol` exists exactly when its definition is placed, and in a well-formed layout it owns the block that holds that definition |
| Ast.ParentType | compiler/passes/flattenClasses.cpp:13-14 | a class type is answered only through an existing parent symbol with that type, which is never a module or a function |
| FlattenPass.Nested | compiler/passes/flattenClasses.cpp:12-15 | a nested class has a type symbol whose definition is placed in a block |
| FlattenPass.DefOf | compiler/passes/flattenClasses.cpp:36 | the definition node of a class is a `DefExpr` of the class's own type symbol |
| FlattenPass.IsInnerClass | compiler/passes/flattenClasses.cpp:8-22 | an answer `ct` comes only from a definition node whose symbol has class type `ct`, with `ct`'s own definition in a class-typed scope |
| FlattenProps.InnerClassDetected | compiler/passes/flattenClasses.cpp:11-17 | for a definition of a class-typed symbol, the answer is that class exactly when the class's definition sits in a class-typed scope |
| FlattenProps.NotInnerUnderModuleOrFunction | compiler/passes/flattenClasses.cpp:13-15 | a class defined directly in a module or function body is never answered |
| FlattenProps.InnerIsNotOuter | compiler/passes/flattenClasses.cpp:14-21 | the answer is the inner class, whose defining scope is a different, class-typed symbol, not the class itself |
| Seqs.AddExclusive | compiler/passes/flattenClasses.cpp:29 | the element ends up present, earlier elements keep their positions, the vector grows by one exactly when the element was absent, and no duplicates are introduced |
| FlattenPass.Collected | compiler/passes/flattenClasses.cpp:26-31 | the collection has no duplicates; it holds every class accepted during the scan and nothing else, and each one is nested |
| FlattenProps.CollectedPrefix | compiler/passes/flattenClasses.cpp:27-30 | scanning more nodes only appends to the collection |
| FlattenProps.FirstHitPosition | compiler/passes/flattenClasses.cpp:27-30 | a class first accepted at scan position k comes right after everything collected before k |
| FlattenProps.CollectedFirstEncounterOrder | compiler/passes/flattenClasses.cpp:27-30 | classes are collected in the order they were first accepted |
| FlattenPass.CollectNestedClasses | compiler/passes/flattenClasses.cpp:26-31 | the first loop, which only reads the tree, returns exactly `Collected` of the unchanged layout |
| Ast.ModuleOf | compiler/passes/flattenClasses.cpp:35 | a found module is a module symbol, found only for a known symbol |
| Ast.GetModule | compiler/passes/flattenClasses.cpp:35 | for a symbol whose chain ends at a module, the answer is a module symbol |
| Ast.GetModuleInherited | compiler/passes/flattenClasses.cpp:35 | a non-module symbol on a rooted chain has a defining scope with the same module, so nesting depth does not matter |
| Ast.ReparentKeepsModuleOf | compiler/passes/flattenClasses.cpp:37-38 | moving a definition directly under the module its chain ends at changes no symbol's module |
| Ast.Detach | compiler/passes/flattenClasses.cpp:37 | unlinking keeps the blocks well formed, clears only that node's parent, and filters only that node out of every block |
| Seqs.KeepOneIsDelete | compiler/passes/flattenClasses.cpp:37 | in a duplicate-free block, filtering out one element joins the elements before and after it, in order |
| Ast.Append | compiler/passes/flattenClasses.cpp:38 | appending keeps the blocks well formed, makes the node the last element of the target block with that owner as parent, and leaves other blocks alone |
| Ast.MoveFacts | compiler/passes/flattenClasses.cpp:37-38 | unlink then append keeps the layout well formed: every block loses the node, the target gains it last, and only its parent changes |
| Ast.Program.Remove | compiler/passes/flattenClasses.cpp:37 | the in-place unlink of a placed node leaves the program valid, with the layout `Detach` describes |
| Ast.Program.InsertAtTail | compiler/passes/flattenClasses.cpp:38 | the in-place append of an unplaced node leaves the program valid, with the layout `Append` describes |
| FlattenPass.Relocate | compiler/passes/flattenClasses.cpp:35-38 | one relocation keeps the layout well formed and places, keys and modules unchanged; the definition leaves every block, becomes last in its module's block, and gets the module as parent |
| FlattenPass.MoveToModule | compiler/passes/flattenClasses.cpp:35-38 | the loop body on the program state is exactly `Relocate` |
| FlattenPass.RelocateAll | compiler/passes/flattenClasses.cpp:34-39 | relocating any rooted classes in order keeps the layout well formed and every symbol's module unchanged |
| FlattenPass.RelocateAllStep | compiler/passes/flattenClasses.cpp:34-39 | handling one more class is one more `Relocate`, and that class's chain still ends at a module |
| FlattenPass.MoveToModules | compiler/passes/flattenClasses.cpp:34-39 | the second loop leaves the program valid with the layout `RelocateAll` gives for the collected list |
| FlattenPass.Flatten | compiler/passes/flattenClasses.cpp:24-40 | the whole pass keeps the layout well formed with the same blocks and placed nodes |
| FlattenPass.FlattenClasses | compiler/passes/flattenClasses.cpp:24-40 | the pass leaves the program valid with layout `Flatten(old layout)`: the collection uses only the unchanged tree |
| FlattenProps.RelocateAllLastParent | compiler/passes/flattenClasses.cpp:35-38 | handling the last class sets its definition's parent to its original module |
| FlattenProps.RelocateAllLastBlock | compiler/passes/flattenClasses.cpp:37-38 | handling the last class filters its definition out of every block and appends it to its original module's block |
| FlattenProps.RelocateAllBlocks | compiler/passes/flattenClasses.cpp:34-39 | after relocating distinct classes, each block is its old contents minus all moved definitions, in order, followed by the definitions moved into it, in list order |
| FlattenProps.RelocateAllMoves | compiler/passes/flattenClasses.cpp:35-38 | each relocated definition's parent is the module its chain ended at before the pass |
| FlattenProps.RelocateAllKeepsOthers | compiler/passes/flattenClasses.cpp:34-39 | every node not relocated keeps its parent |
| FlattenProps.ModuleBlockAfterFlatten | compiler/passes/flattenClasses.cpp:34-39 | a module's block keeps all its statements in order and gains the definitions of its nested classes after them, in collection order |
| FlattenProps.ScopeBlockAfterFlatten | compiler/passes/flattenClasses.cpp:37 | a non-module block loses exactly the collected definitions; the rest stay in order |
| FlattenProps.NestedClassReachesModule | compiler/passes/flattenClasses.cpp:34-39 | each collected class, however deep, ends up directly in the block of the module of its whole original chain, which its enclosing scope shares, and not in an intermediate class |
| FlattenProps.NoInnerClassRemains | compiler/passes/flattenClasses.cpp:24-40 | after the pass no scanned node is accepted by `isInnerClass` |
| FlattenProps.FlattenIdempotent | compiler/passes/flattenClasses.cpp:24-40 | a second run collects nothing and leaves the layout unchanged |
| FlattenProps.DefinitionPointsPreserved | compiler/passes/flattenClasses.cpp:36-38 | the same nodes are placed before and after; a node found in a block has that block's owner as parent; each placed node occurs exactly once in its parent's block |

## Left out

- The C test driver that calls the library's init and finalize entry points
  and its exported functions is runtime glue with no logic; it is not part
  of this model.
- The global `gAsts` registry and how it is filled are not modelled. The
  scanned nodes are a parameter of the pass, in the order given.
- The internals of `Vec`, `alist`, `Expr::remove` and
  `BlockStmt::insertAtTail` are not part of this model. They are modelled by
  their effect on sequences.
- The constant-time pointer unlink of `remove` is modelled as a search for
  the node's index followed by a splice.
- The C++ casts `toDefExpr` and `toClassType` are modelled as tags on nodes
  and types.
- A missing `defPoint` or `parentSymbol` would be a null pointer in
  `isInnerClass` and crash. Here it reads as a failed cast, so the node is
  not accepted.
- Ast.ModuleOf: the `getModule` walk follows at most as many links as
  there are symbols. A chain longer than that, which can only be a cycle,
  counts as not reaching a module.
- FlattenPass.FlattenClasses: it requires every collected class's chain
  to end at a module. The source leaves the behaviour undefined otherwise.
- The loop body of the second loop is its own method, `MoveToModule`.
- Name resolution, type checking and code generation before or after the
  pass are not modelled. The symbol table is fixed, so no symbol is
  created, removed or renamed.
- Only one definition point per node is tracked. Statements other than
  definitions appear in blocks only as node ids.
