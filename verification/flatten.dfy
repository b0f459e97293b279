/** The class-flattening pass: every class defined inside another class's
    body is moved to the end of its module's top-level block.

    The pass runs in two phases. A read-only scan over every node collects
    the nested classes, each once, in the order first met; then each
    collected class's definition is unlinked from its block and appended to
    its module's block. */
module FlattenPass {
  import opened Seqs
  import opened Ast

  /** Class `c` is defined inside a scope whose owning symbol has a class
      type. */
  predicate Nested(st: SymbolTable, l: Layout, c: ClassId)
    ensures Nested(st, l, c) ==>
      c in st.classSym && ParentSymbol(st, l, st.classSym[c]).Some?
  {
    c in st.classSym && ParentType(st, l, st.classSym[c]).ClassType?
  }

  /** `isInnerClass`: for a definition node whose symbol has class type
      `ct`, answer `ct` when the definition of `ct` sits in a class-typed
      scope; for every other node answer nothing. Any definition whose
      symbol has that class type qualifies, not only the class's own
      definition. */
  function IsInnerClass(st: SymbolTable, l: Layout, n: NodeId): (r: Option<ClassId>)
    ensures r.Some? ==>
      n in st.nodes && st.nodes[n].DefExpr? && st.nodes[n].sym in st.syms
      && st.syms[st.nodes[n].sym].typ == ClassType(r.value)
      && Nested(st, l, r.value)
  {
    if n in st.nodes && st.nodes[n].DefExpr? && st.nodes[n].sym in st.syms then
      match st.syms[st.nodes[n].sym].typ
      case ClassType(ct) => if Nested(st, l, ct) then Some(ct) else None
      case OtherType => None
    else None
  }

  /** What the first loop of the pass builds from the nodes `nodes`:
      `add_exclusive` of every class `isInnerClass` accepts, in scan order.
      It holds each accepted class exactly once and nothing else. */
  function Collected(st: SymbolTable, l: Layout, nodes: seq<NodeId>): (r: seq<ClassId>)
    ensures NoDup(r)
    ensures forall c :: c in r ==> Nested(st, l, c)
    ensures forall c :: c in r ==> exists i :: 0 <= i < |nodes| && IsInnerClass(st, l, nodes[i]) == Some(c)
    ensures forall i :: 0 <= i < |nodes| && IsInnerClass(st, l, nodes[i]).Some? ==>
      IsInnerClass(st, l, nodes[i]).value in r
  {
    if nodes == [] then []
    else
      var front := nodes[..|nodes| - 1];
      var prev := Collected(st, l, front);
      assert forall i :: 0 <= i < |front| ==> front[i] == nodes[i];
      match IsInnerClass(st, l, nodes[|nodes| - 1])
      case Some(c) => AddExclusive(prev, c)
      case None => prev
  }

  /** Every class in `cs` has a type symbol whose chain of enclosing symbols
      ends at a module, so `getModule` finds one. */
  predicate RootedAll(st: SymbolTable, l: Layout, cs: seq<ClassId>) {
    forall c :: c in cs ==> c in st.classSym && Rooted(st, l, st.classSym[c])
  }

  /** `ct->symbol->defPoint`: the node that defines class `c`. */
  function DefOf(st: SymbolTable, c: ClassId): (n: NodeId)
    requires TableOk(st) && c in st.classSym
    ensures n in st.nodes && st.nodes[n] == DefExpr(st.classSym[c])
  {
    st.syms[st.classSym[c]].defPoint
  }

  /** One step of the second loop: unlink the definition of `c` from its
      block and append it to the block of the module its chain ends at.
      Only that node moves; every block loses it and the module's block
      gains it as its last element; no symbol's module changes. */
  function Relocate(st: SymbolTable, l: Layout, c: ClassId): (r: Layout)
    requires TableOk(st) && LayoutOk(st, l)
    requires c in st.classSym && Rooted(st, l, st.classSym[c])
    ensures LayoutOk(st, r)
    ensures r.blocks.Keys == l.blocks.Keys && r.parent.Keys == l.parent.Keys
    ensures r.parent == l.parent[DefOf(st, c) := GetModule(st, l, st.classSym[c])]
    ensures forall o :: o in l.blocks ==>
      r.blocks[o] == Keep(l.blocks[o], [DefOf(st, c)])
        + (if o == GetModule(st, l, st.classSym[c]) then [DefOf(st, c)] else [])
    ensures forall s :: s in st.syms && Rooted(st, l, s) ==>
      Rooted(st, r, s) && GetModule(st, r, s) == GetModule(st, l, s)
  {
    var s := st.classSym[c];
    var def := DefOf(st, c);
    var mod := GetModule(st, l, s);
    GetModuleInherited(st, l, s);
    RelocateFacts(st, l, c);
    Append(Detach(l, def), mod, def)
  }

  lemma RelocateFacts(st: SymbolTable, l: Layout, c: ClassId)
    requires TableOk(st) && LayoutOk(st, l)
    requires c in st.classSym && Rooted(st, l, st.classSym[c])
    requires DefOf(st, c) in l.parent
    ensures var def := DefOf(st, c); var mod := GetModule(st, l, st.classSym[c]);
      var r := Append(Detach(l, def), mod, def);
      && LayoutOk(st, r)
      && r.blocks.Keys == l.blocks.Keys && r.parent.Keys == l.parent.Keys
      && r.parent == l.parent[def := mod]
      && (forall o :: o in l.blocks ==>
           r.blocks[o] == Keep(l.blocks[o], [def]) + (if o == mod then [def] else []))
      && (forall s :: s in st.syms && Rooted(st, l, s) ==>
           Rooted(st, r, s) && GetModule(st, r, s) == GetModule(st, l, s))
  {
    var s := st.classSym[c];
    var def := DefOf(st, c);
    var mod := GetModule(st, l, s);
    MoveFacts(st, l, def, mod);
    ReparentKeepsModules(st, l, Append(Detach(l, def), mod, def), s, mod);
  }

  lemma ReparentKeepsModules(st: SymbolTable, l: Layout, r: Layout, s0: SymId, m: SymId)
    requires TableOk(st)
    requires s0 in st.syms && st.syms[s0].kind != ModuleSym
    requires ModuleOf(st, l, s0, |st.syms|) == Some(m)
    requires r.parent == l.parent[st.syms[s0].defPoint := m]
    ensures forall s :: s in st.syms && Rooted(st, l, s) ==>
      Rooted(st, r, s) && GetModule(st, r, s) == GetModule(st, l, s)
  {
    forall s | s in st.syms && Rooted(st, l, s)
      ensures Rooted(st, r, s) && GetModule(st, r, s) == GetModule(st, l, s)
    {
      ReparentKeepsModuleOf(st, l, r, s0, m, s, |st.syms|);
    }
  }

  /** What the second loop does to the layout after handling the classes
      `cs`, in order. The layout stays well formed, no node is created or
      lost, and every symbol keeps its module. */
  function RelocateAll(st: SymbolTable, l: Layout, cs: seq<ClassId>): (r: Layout)
    requires TableOk(st) && LayoutOk(st, l) && RootedAll(st, l, cs)
    ensures LayoutOk(st, r)
    ensures r.blocks.Keys == l.blocks.Keys && r.parent.Keys == l.parent.Keys
    ensures forall s :: s in st.syms && Rooted(st, l, s) ==>
      Rooted(st, r, s) && GetModule(st, r, s) == GetModule(st, l, s)
    decreases |cs|
  {
    if cs == [] then l
    else
      var R := RelocateAll(st, l, cs[..|cs| - 1]);
      Relocate(st, R, cs[|cs| - 1])
  }

  /** The second loop's step: handling one more class is one more
      `Relocate` on the layout reached so far. */
  lemma RelocateAllStep(st: SymbolTable, l: Layout, cs: seq<ClassId>, i: nat)
    requires TableOk(st) && LayoutOk(st, l) && RootedAll(st, l, cs) && i < |cs|
    ensures RootedAll(st, l, cs[..i]) && RootedAll(st, l, cs[..i + 1])
    ensures Rooted(st, RelocateAll(st, l, cs[..i]), st.classSym[cs[i]])
    ensures RelocateAll(st, l, cs[..i + 1]) == Relocate(st, RelocateAll(st, l, cs[..i]), cs[i])
  {
    assert cs[..i + 1][..i] == cs[..i];
    assert cs[i] in cs;
  }

  /** The whole pass on a layout: collect from the unchanged layout, then
      relocate what was collected. */
  function Flatten(st: SymbolTable, l: Layout, gAsts: seq<NodeId>): (r: Layout)
    requires TableOk(st) && LayoutOk(st, l) && RootedAll(st, l, Collected(st, l, gAsts))
    ensures LayoutOk(st, r)
    ensures r.blocks.Keys == l.blocks.Keys && r.parent.Keys == l.parent.Keys
  {
    RelocateAll(st, l, Collected(st, l, gAsts))
  }

  /** The first loop of `flattenClasses`: scan every node of `gAsts`, in
      order, and `add_exclusive` each class `isInnerClass` accepts. The tree
      is only read. */
  method CollectNestedClasses(prog: Program, gAsts: seq<NodeId>) returns (allNestedClasses: seq<ClassId>)
    ensures allNestedClasses == Collected(prog.table, prog.Snapshot(), gAsts)
  {
    allNestedClasses := [];
    for i := 0 to |gAsts|
      invariant allNestedClasses == Collected(prog.table, prog.Snapshot(), gAsts[..i])
    {
      assert gAsts[..i + 1][..i] == gAsts[..i];
      var inner := IsInnerClass(prog.table, prog.Snapshot(), gAsts[i]);
      if inner.Some? {
        allNestedClasses := AddExclusive(allNestedClasses, inner.value);
      }
    }
    assert gAsts[..|gAsts|] == gAsts;
  }

  /** The body of the second loop of `flattenClasses` for one class `ct`:
      find its module with `getModule`, unlink its definition and append it
      to the module's block. */
  method MoveToModule(prog: Program, ct: ClassId)
    requires prog.Valid() && ct in prog.table.classSym
    requires Rooted(prog.table, prog.Snapshot(), prog.table.classSym[ct])
    modifies prog
    ensures prog.Valid()
    ensures prog.Snapshot() == Relocate(prog.table, old(prog.Snapshot()), ct)
  {
    var mod := GetModule(prog.table, prog.Snapshot(), prog.table.classSym[ct]);
    var def := prog.table.syms[prog.table.classSym[ct]].defPoint;
    GetModuleInherited(prog.table, prog.Snapshot(), prog.table.classSym[ct]);
    prog.Remove(def);
    prog.InsertAtTail(mod, def);
  }

  /** The second loop of `flattenClasses`: handle each collected class, in
      order. */
  method MoveToModules(prog: Program, allNestedClasses: seq<ClassId>)
    requires prog.Valid() && RootedAll(prog.table, prog.Snapshot(), allNestedClasses)
    modifies prog
    ensures prog.Valid()
    ensures prog.Snapshot() == RelocateAll(prog.table, old(prog.Snapshot()), allNestedClasses)
  {
    ghost var scanned := prog.Snapshot();
    for i := 0 to |allNestedClasses|
      invariant prog.Valid()
      invariant prog.Snapshot() == RelocateAll(prog.table, scanned, allNestedClasses[..i])
    {
      RelocateAllStep(prog.table, scanned, allNestedClasses, i);
      MoveToModule(prog, allNestedClasses[i]);
    }
    assert allNestedClasses[..|allNestedClasses|] == allNestedClasses;
  }

  /** `flattenClasses`: collect the nested classes from the unchanged tree,
      and only then move each collected class's definition to the tail of
      its module's block. */
  method FlattenClasses(prog: Program, gAsts: seq<NodeId>)
    requires prog.Valid()
    requires RootedAll(prog.table, prog.Snapshot(), Collected(prog.table, prog.Snapshot(), gAsts))
    modifies prog
    ensures prog.Valid()
    ensures prog.Snapshot() == Flatten(prog.table, old(prog.Snapshot()), gAsts)
  {
    var allNestedClasses := CollectNestedClasses(prog, gAsts);
    MoveToModules(prog, allNestedClasses);
  }
}
