/** The part of the compiler's whole-program tree that the class-flattening
    pass reads and changes.

    The symbol table (what each node defines, each symbol's kind, type and
    definition node, each class type's symbol) is fixed while the pass runs.
    What the pass changes is the layout: which block (statement list) holds
    each definition node. A block is owned by a symbol (a module's top-level
    block, a class body, a function body), and the owner of the block that
    holds a node is that node's `parentSymbol`. */
module Ast {
  import opened Seqs

  datatype Option<T> = None | Some(value: T)

  type NodeId = nat
  type SymId = nat
  type ClassId = nat

  /** What a symbol is: a module, a type, a function or anything else. */
  datatype SymKind = ModuleSym | TypeSym | FnSym | VarSym

  /** A symbol's type, as far as the pass can tell: a class type (for which
      `toClassType` succeeds) or some other type. */
  datatype Type = ClassType(cls: ClassId) | OtherType

  /** A symbol with its kind, its type (`sym->type`) and the node that
      defines it (`sym->defPoint`). */
  datatype Symbol = Symbol(kind: SymKind, typ: Type, defPoint: NodeId)

  /** A tree node: a definition of a symbol (`DefExpr`) or anything else. */
  datatype Node = DefExpr(sym: SymId) | OtherExpr

  /** The facts the pass reads but never changes: node kinds, symbols and
      the symbol of each class type (`ct->symbol`). */
  datatype SymbolTable = SymbolTable(
    nodes: map<NodeId, Node>,
    syms: map<SymId, Symbol>,
    classSym: map<ClassId, SymId>)

  /** What the pass changes: the contents of every block, keyed by the
      symbol that owns it, and the `parentSymbol` of every node that sits in
      a block. */
  datatype Layout = Layout(
    blocks: map<SymId, seq<NodeId>>,
    parent: map<NodeId, SymId>)

  /** A symbol table produced by the front end: definitions and symbols
      point at each other one to one, every class type has its own type
      symbol whose type is that class, and modules and functions do not have
      a class type. */
  predicate TableOk(st: SymbolTable) {
    (forall s :: s in st.syms ==>
      st.syms[s].defPoint in st.nodes && st.nodes[st.syms[s].defPoint] == DefExpr(s))
    && (forall n :: n in st.nodes && st.nodes[n].DefExpr? ==>
      st.nodes[n].sym in st.syms && st.syms[st.nodes[n].sym].defPoint == n)
    && (forall s :: s in st.syms && st.syms[s].typ.ClassType? ==>
      st.syms[s].typ.cls in st.classSym)
    && (forall c :: c in st.classSym ==>
      st.classSym[c] in st.syms && st.syms[st.classSym[c]].kind == TypeSym
      && st.syms[st.classSym[c]].typ == ClassType(c))
    && (forall s :: s in st.syms && st.syms[s].kind == TypeSym && st.syms[s].typ.ClassType? ==>
      st.classSym[st.syms[s].typ.cls] == s)
    && (forall s :: s in st.syms && st.syms[s].kind in {ModuleSym, FnSym} ==>
      st.syms[s].typ == OtherType)
  }

  /** The blocks and the parent links agree: a node in a block has that
      block's owner as parent, a node with a parent sits in the parent's
      block, and no block lists a node twice. So every placed node sits in
      exactly one block, exactly once. */
  predicate BlocksOk(l: Layout) {
    (forall o, n :: o in l.blocks && n in l.blocks[o] ==> n in l.parent && l.parent[n] == o)
    && (forall n :: n in l.parent ==> l.parent[n] in l.blocks && n in l.blocks[l.parent[n]])
    && (forall o :: o in l.blocks ==> NoDup(l.blocks[o]))
  }

  /** A well-formed layout: blocks are owned by modules, types or functions,
      and every module has its top-level block. */
  predicate LayoutOk(st: SymbolTable, l: Layout) {
    BlocksOk(l)
    && (forall o :: o in l.blocks ==> o in st.syms && st.syms[o].kind != VarSym)
    && (forall s :: s in st.syms && st.syms[s].kind == ModuleSym ==> s in l.blocks)
  }

  /** `s->defPoint->parentSymbol`: the symbol owning the block that holds
      the definition of `s`, if that definition sits in a block. */
  function ParentSymbol(st: SymbolTable, l: Layout, s: SymId): (r: Option<SymId>)
    ensures r.Some? <==> s in st.syms && st.syms[s].defPoint in l.parent
    ensures BlocksOk(l) && r.Some? ==>
      r.value in l.blocks && st.syms[s].defPoint in l.blocks[r.value]
  {
    if s in st.syms && st.syms[s].defPoint in l.parent
    then Some(l.parent[st.syms[s].defPoint])
    else None
  }

  /** `s->defPoint->parentSymbol->type`; a missing link reads as a type
      that is not a class. */
  function ParentType(st: SymbolTable, l: Layout, s: SymId): (t: Type)
    ensures t.ClassType? ==>
      ParentSymbol(st, l, s).Some? && ParentSymbol(st, l, s).value in st.syms
      && st.syms[ParentSymbol(st, l, s).value].typ == t
    ensures TableOk(st) && t.ClassType? ==>
      st.syms[ParentSymbol(st, l, s).value].kind !in {ModuleSym, FnSym}
  {
    match ParentSymbol(st, l, s)
    case Some(p) => if p in st.syms then st.syms[p].typ else OtherType
    case None => OtherType
  }

  /** The walk behind `getModule`: a module is its own module; any other
      symbol has the module of the symbol it is defined in. At most `fuel`
      links are followed. */
  function ModuleOf(st: SymbolTable, l: Layout, s: SymId, fuel: nat): (r: Option<SymId>)
    ensures r.Some? ==> r.value in st.syms && st.syms[r.value].kind == ModuleSym
    ensures r.Some? ==> s in st.syms
    decreases fuel
  {
    if s !in st.syms then None
    else if st.syms[s].kind == ModuleSym then Some(s)
    else if fuel == 0 then None
    else match ParentSymbol(st, l, s)
      case None => None
      case Some(p) => ModuleOf(st, l, p, fuel - 1)
  }

  /** The chain of enclosing symbols of `s` ends at a module. A chain that
      reaches a module without repeating a symbol has at most as many links
      as there are symbols. */
  predicate Rooted(st: SymbolTable, l: Layout, s: SymId) {
    ModuleOf(st, l, s, |st.syms|).Some?
  }

  /** `getModule`: the module the chain of enclosing symbols of `s` ends at. */
  function GetModule(st: SymbolTable, l: Layout, s: SymId): (m: SymId)
    requires Rooted(st, l, s)
    ensures m in st.syms && st.syms[m].kind == ModuleSym
  {
    ModuleOf(st, l, s, |st.syms|).value
  }

  /** Giving the walk more fuel does not change an answer it already found. */
  lemma {:induction false} ModuleOfMoreFuel(st: SymbolTable, l: Layout, s: SymId, f: nat, g: nat)
    requires f <= g && ModuleOf(st, l, s, f).Some?
    ensures ModuleOf(st, l, s, g) == ModuleOf(st, l, s, f)
    decreases f
  {
    if s in st.syms && st.syms[s].kind != ModuleSym {
      var p := ParentSymbol(st, l, s).value;
      ModuleOfMoreFuel(st, l, p, f - 1, g - 1);
    }
  }

  /** A symbol that is not a module is defined in a block, and it has the
      same module as the symbol owning that block: a class nested at any
      depth belongs to the module of its outermost enclosing class. */
  lemma GetModuleInherited(st: SymbolTable, l: Layout, s: SymId)
    requires Rooted(st, l, s) && st.syms[s].kind != ModuleSym
    ensures ParentSymbol(st, l, s).Some?
    ensures Rooted(st, l, ParentSymbol(st, l, s).value)
    ensures GetModule(st, l, s) == GetModule(st, l, ParentSymbol(st, l, s).value)
  {
    var n := |st.syms|;
    var p := ParentSymbol(st, l, s).value;
    ModuleOfMoreFuel(st, l, p, n - 1, n);
  }

  /** A symbol whose definition sits in its own body never reaches a module. */
  lemma {:induction false} SelfParentNotRooted(st: SymbolTable, l: Layout, s: SymId, f: nat)
    requires s in st.syms && st.syms[s].kind != ModuleSym
    requires ParentSymbol(st, l, s) == Some(s)
    ensures ModuleOf(st, l, s, f) == None
    decreases f
  {
    if f > 0 {
      SelfParentNotRooted(st, l, s, f - 1);
    }
  }

  /** Re-parenting the definition of `s0` directly under the module `m` its
      chain ends at changes no symbol's module, `s0`'s included. */
  lemma {:induction false} ReparentKeepsModuleOf(
    st: SymbolTable, l: Layout, r: Layout, s0: SymId, m: SymId, x: SymId, f: nat)
    requires TableOk(st)
    requires s0 in st.syms && st.syms[s0].kind != ModuleSym
    requires ModuleOf(st, l, s0, |st.syms|) == Some(m)
    requires r.parent == l.parent[st.syms[s0].defPoint := m]
    requires ModuleOf(st, l, x, f).Some?
    ensures ModuleOf(st, r, x, f) == ModuleOf(st, l, x, f)
    decreases f
  {
    if st.syms[x].kind != ModuleSym {
      if x == s0 {
        if f <= |st.syms| {
          ModuleOfMoreFuel(st, l, s0, f, |st.syms|);
        } else {
          ModuleOfMoreFuel(st, l, s0, |st.syms|, f);
        }
        assert ParentSymbol(st, r, x) == Some(m);
      } else {
        assert st.nodes[st.syms[x].defPoint] == DefExpr(x);
        assert st.syms[x].defPoint != st.syms[s0].defPoint;
        assert ParentSymbol(st, r, x) == ParentSymbol(st, l, x);
        ReparentKeepsModuleOf(st, l, r, s0, m, ParentSymbol(st, l, x).value, f - 1);
      }
    }
  }

  /** `def->remove()`: take node `n` out of the block that holds it, and
      clear its parent. Every block is filtered; only the parent's block
      held `n`. */
  function Detach(l: Layout, n: NodeId): (r: Layout)
    requires BlocksOk(l) && n in l.parent
    ensures BlocksOk(r)
    ensures r.blocks.Keys == l.blocks.Keys && r.parent == l.parent - {n}
    ensures forall o :: o in l.blocks ==> r.blocks[o] == Keep(l.blocks[o], [n])
  {
    DetachOthers(l, n);
    DetachKeepsBlocksOk(l, n);
    var p := l.parent[n];
    Layout(l.blocks[p := Keep(l.blocks[p], [n])], l.parent - {n})
  }

  /** A node with a parent occurs in no other block. */
  lemma DetachOthers(l: Layout, n: NodeId)
    requires BlocksOk(l) && n in l.parent
    ensures forall o :: o in l.blocks && o != l.parent[n] ==> Keep(l.blocks[o], [n]) == l.blocks[o]
  {
    forall o | o in l.blocks && o != l.parent[n]
      ensures Keep(l.blocks[o], [n]) == l.blocks[o]
    {
      KeepNothing(l.blocks[o], [n]);
    }
  }

  lemma DetachKeepsBlocksOk(l: Layout, n: NodeId)
    requires BlocksOk(l) && n in l.parent
    ensures BlocksOk(Layout(l.blocks[l.parent[n] := Keep(l.blocks[l.parent[n]], [n])], l.parent - {n}))
  {
    var p := l.parent[n];
    var s := l.blocks[p];
    var r := Layout(l.blocks[p := Keep(s, [n])], l.parent - {n});
    forall o, x | o in r.blocks && x in r.blocks[o]
      ensures x in r.parent && r.parent[x] == o
    {
      if o == p {
        KeepMember(s, [n], x);
      } else {
        assert x in l.blocks[o];
      }
    }
    forall x | x in r.parent
      ensures r.parent[x] in r.blocks && x in r.blocks[r.parent[x]]
    {
      assert x != n && x in l.parent;
      KeepMember(s, [n], x);
    }
    KeepNoDup(s, [n]);
    assert forall o :: o in r.blocks ==> NoDup(r.blocks[o]);
  }

  /** In a well-formed layout a node that has a parent occurs exactly once
      in its parent's block. */
  lemma OccursOnce(l: Layout, n: NodeId)
    requires BlocksOk(l) && n in l.parent
    ensures multiset(l.blocks[l.parent[n]])[n] == 1
  {
    var s := l.blocks[l.parent[n]];
    var i :| 0 <= i < |s| && s[i] == n;
    assert s == s[..i] + [n] + s[i + 1..];
    assert n !in s[..i] && n !in s[i + 1..];
    assert multiset(s) == multiset(s[..i]) + multiset{n} + multiset(s[i + 1..]);
  }

  /** Rearranging nodes among the same blocks keeps the layout well formed
      whenever the blocks and parents still agree. */
  lemma SameOwnersOk(st: SymbolTable, l: Layout, r: Layout)
    requires LayoutOk(st, l) && BlocksOk(r) && r.blocks.Keys == l.blocks.Keys
    ensures LayoutOk(st, r)
  {
  }

  /** `block->insertAtTail(n)`: make the unplaced node `n` the last element
      of the block owned by `m`. */
  function Append(l: Layout, m: SymId, n: NodeId): (r: Layout)
    requires BlocksOk(l) && m in l.blocks && n !in l.parent
    ensures BlocksOk(r)
    ensures r.blocks.Keys == l.blocks.Keys && r.parent == l.parent[n := m]
    ensures r.blocks[m] == l.blocks[m] + [n]
    ensures forall o :: o in l.blocks && o != m ==> r.blocks[o] == l.blocks[o]
  {
    Layout(l.blocks[m := l.blocks[m] + [n]], l.parent[n := m])
  }

  /** Unlinking a placed node and appending it to some block keeps the
      layout well formed; the node leaves every block and lands last in the
      target block, and only its parent changes. */
  lemma MoveFacts(st: SymbolTable, l: Layout, n: NodeId, m: SymId)
    requires LayoutOk(st, l) && n in l.parent && m in l.blocks
    ensures var r := Append(Detach(l, n), m, n);
      && LayoutOk(st, r)
      && r.blocks.Keys == l.blocks.Keys && r.parent.Keys == l.parent.Keys
      && r.parent == l.parent[n := m]
      && (forall o :: o in l.blocks ==>
           r.blocks[o] == Keep(l.blocks[o], [n]) + (if o == m then [n] else []))
  {
    MoveParent(l, n, m);
    MoveBlocks(l, n, m);
    MoveOk(st, l, n, m);
  }

  /* The three facts of `MoveFacts`, each proved on its own so that no one
     proof carries the whole layout. */

  lemma MoveParent(l: Layout, n: NodeId, m: SymId)
    requires BlocksOk(l) && n in l.parent && m in l.blocks
    ensures Append(Detach(l, n), m, n).parent == l.parent[n := m]
  {
    RemoveThenSet(l.parent, n, m);
  }

  /** Clearing a key and then setting it is the same as setting it. */
  lemma RemoveThenSet(p: map<NodeId, SymId>, n: NodeId, m: SymId)
    ensures (p - {n})[n := m] == p[n := m]
  {
  }

  lemma MoveBlocks(l: Layout, n: NodeId, m: SymId)
    requires BlocksOk(l) && n in l.parent && m in l.blocks
    ensures var r := Append(Detach(l, n), m, n);
      forall o :: o in l.blocks ==> r.blocks[o] == Keep(l.blocks[o], [n]) + (if o == m then [n] else [])
  {
  }

  lemma MoveOk(st: SymbolTable, l: Layout, n: NodeId, m: SymId)
    requires LayoutOk(st, l) && n in l.parent && m in l.blocks
    ensures var r := Append(Detach(l, n), m, n);
      LayoutOk(st, r) && r.blocks.Keys == l.blocks.Keys && r.parent.Keys == l.parent.Keys
  {
  }

  /** The whole-program tree as the pass sees it: a fixed symbol table and
      blocks whose contents the pass rearranges in place. */
  class Program {
    const table: SymbolTable
    var blocks: map<SymId, seq<NodeId>>
    var parent: map<NodeId, SymId>

    constructor (table: SymbolTable, layout: Layout)
      requires TableOk(table) && LayoutOk(table, layout)
      ensures Valid() && this.table == table && Snapshot() == layout
    {
      this.table := table;
      blocks := layout.blocks;
      parent := layout.parent;
    }

    /** The current layout of the tree. */
    function Snapshot(): Layout
      reads this
    {
      Layout(blocks, parent)
    }

    ghost predicate Valid()
      reads this
    {
      TableOk(table) && LayoutOk(table, Snapshot())
    }

    /** `Expr::remove`: unlink node `n` from its block; the nodes before and
        after it stay in order and become neighbours. */
    method Remove(n: NodeId)
      requires Valid() && n in parent
      modifies this
      ensures Valid() && Snapshot() == Detach(old(Snapshot()), n)
    {
      ghost var l := Snapshot();
      var p := parent[n];
      var s := blocks[p];
      var i := IndexOf(s, n);
      var spliced := s[..i] + s[i + 1..];
      assert spliced == Keep(s, [n]) by {
        KeepOneIsDelete(s, i);
      }
      ghost var r := Detach(l, n);
      assert r.blocks == l.blocks[p := spliced] by {
        DetachOthers(l, n);
      }
      SameOwnersOk(table, l, r);
      blocks := blocks[p := spliced];
      parent := parent - {n};
    }

    /** `BlockStmt::insertAtTail`: append the unplaced node `n` to the block
        owned by `m`, which becomes its parent. */
    method InsertAtTail(m: SymId, n: NodeId)
      requires Valid() && m in blocks && n !in parent
      modifies this
      ensures Valid() && Snapshot() == Append(old(Snapshot()), m, n)
    {
      SameOwnersOk(table, Snapshot(), Append(Snapshot(), m, n));
      blocks := blocks[m := blocks[m] + [n]];
      parent := parent[n := m];
    }
  }
}
