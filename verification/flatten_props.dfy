/** What the class-flattening pass guarantees, stated over the functions
    that specify its two loops. */
module FlattenProps {
  import opened Seqs
  import opened Ast
  import opened FlattenPass

  // ---------------------------------------------------------------------
  // The nesting test

  /** `isInnerClass` accepts exactly the definitions whose symbol has a
      class type whose own definition sits in a class-typed scope. */
  lemma InnerClassDetected(st: SymbolTable, l: Layout, n: NodeId, c: ClassId)
    requires n in st.nodes && st.nodes[n].DefExpr? && st.nodes[n].sym in st.syms
    requires st.syms[st.nodes[n].sym].typ == ClassType(c)
    ensures IsInnerClass(st, l, n) == Some(c) <==> Nested(st, l, c)
  {
  }

  /** A class defined directly in a module or a function is not inner. */
  lemma NotInnerUnderModuleOrFunction(st: SymbolTable, l: Layout, n: NodeId, c: ClassId)
    requires TableOk(st) && c in st.classSym
    requires ParentSymbol(st, l, st.classSym[c]).Some?
    requires ParentSymbol(st, l, st.classSym[c]).value in st.syms
    requires st.syms[ParentSymbol(st, l, st.classSym[c]).value].kind in {ModuleSym, FnSym}
    ensures IsInnerClass(st, l, n) != Some(c)
  {
  }

  /** The answer is the inner class, never its outer class: in a tree
      whose chains end at modules, a class is never defined in its own
      body. */
  lemma InnerIsNotOuter(st: SymbolTable, l: Layout, n: NodeId, c: ClassId)
    requires TableOk(st) && LayoutOk(st, l)
    requires IsInnerClass(st, l, n) == Some(c)
    requires Rooted(st, l, st.classSym[c])
    ensures ParentType(st, l, st.classSym[c]).ClassType?
    ensures ParentSymbol(st, l, st.classSym[c]) != Some(st.classSym[c])
    ensures ParentType(st, l, st.classSym[c]) != ClassType(c)
  {
    var s := st.classSym[c];
    var p := ParentSymbol(st, l, s).value;
    if p == s {
      SelfParentNotRooted(st, l, s, |st.syms|);
    }
    assert p in l.blocks;
  }

  // ---------------------------------------------------------------------
  // The collection

  /** Scanning more nodes only appends to what was collected. */
  lemma {:induction false} CollectedPrefix(st: SymbolTable, l: Layout, nodes: seq<NodeId>, k: nat)
    requires k <= |nodes|
    ensures |Collected(st, l, nodes[..k])| <= |Collected(st, l, nodes)|
    ensures Collected(st, l, nodes)[..|Collected(st, l, nodes[..k])|] == Collected(st, l, nodes[..k])
    decreases |nodes|
  {
    if k < |nodes| {
      var front := nodes[..|nodes| - 1];
      assert front[..k] == nodes[..k];
      CollectedPrefix(st, l, front, k);
    } else {
      assert nodes[..k] == nodes;
    }
  }

  /** The class first accepted at position `k` sits, in the collection,
      right after everything collected from the nodes before `k`. */
  lemma FirstHitPosition(st: SymbolTable, l: Layout, nodes: seq<NodeId>, k: nat, c: ClassId)
    requires k < |nodes| && IsInnerClass(st, l, nodes[k]) == Some(c)
    requires forall j :: 0 <= j < k ==> IsInnerClass(st, l, nodes[j]) != Some(c)
    ensures |Collected(st, l, nodes[..k])| < |Collected(st, l, nodes)|
    ensures Collected(st, l, nodes)[|Collected(st, l, nodes[..k])|] == c
  {
    var before := nodes[..k];
    var upto := nodes[..k + 1];
    assert upto[..k] == before && upto[k] == nodes[k];
    assert Collected(st, l, upto) == Collected(st, l, before) + [c];
    CollectedPrefix(st, l, nodes, k + 1);
  }

  /** The collection lists classes in the order of their first acceptance
      during the scan. */
  lemma CollectedFirstEncounterOrder(
    st: SymbolTable, l: Layout, nodes: seq<NodeId>, i: nat, j: nat, ki: nat, kj: nat)
    requires i < j < |Collected(st, l, nodes)|
    requires ki < |nodes| && IsInnerClass(st, l, nodes[ki]) == Some(Collected(st, l, nodes)[i])
    requires forall k :: 0 <= k < ki ==> IsInnerClass(st, l, nodes[k]) != Some(Collected(st, l, nodes)[i])
    requires kj < |nodes| && IsInnerClass(st, l, nodes[kj]) == Some(Collected(st, l, nodes)[j])
    requires forall k :: 0 <= k < kj ==> IsInnerClass(st, l, nodes[k]) != Some(Collected(st, l, nodes)[j])
    ensures ki < kj
  {
    var r := Collected(st, l, nodes);
    FirstHitPosition(st, l, nodes, ki, r[i]);
    FirstHitPosition(st, l, nodes, kj, r[j]);
    assert i == |Collected(st, l, nodes[..ki])|;
    assert j == |Collected(st, l, nodes[..kj])|;
    if kj <= ki {
      assert nodes[..ki][..kj] == nodes[..kj];
      CollectedPrefix(st, l, nodes[..ki], kj);
      assert false;
    }
  }

  // ---------------------------------------------------------------------
  // Where relocated definitions go

  /** The definition nodes of the classes `cs`, in order. */
  function Defs(st: SymbolTable, cs: seq<ClassId>): (r: seq<NodeId>)
    requires TableOk(st) && forall c :: c in cs ==> c in st.classSym
    ensures |r| == |cs| && forall i :: 0 <= i < |cs| ==> r[i] == DefOf(st, cs[i])
  {
    if cs == [] then [] else Defs(st, cs[..|cs| - 1]) + [DefOf(st, cs[|cs| - 1])]
  }

  /** A class's definition is among the definitions of `cs` exactly when
      the class is in `cs`: distinct classes have distinct definitions. */
  lemma DefsMember(st: SymbolTable, cs: seq<ClassId>, c: ClassId)
    requires TableOk(st) && c in st.classSym && forall c' :: c' in cs ==> c' in st.classSym
    ensures DefOf(st, c) in Defs(st, cs) <==> c in cs
  {
    if DefOf(st, c) in Defs(st, cs) {
      var i :| 0 <= i < |cs| && Defs(st, cs)[i] == DefOf(st, c);
      assert st.nodes[DefOf(st, c)] == DefExpr(st.classSym[cs[i]]);
      assert cs[i] == c;
    }
    if c in cs {
      var i :| 0 <= i < |cs| && cs[i] == c;
      assert Defs(st, cs)[i] == DefOf(st, c);
    }
  }

  /** The definitions of the classes in `cs` whose module is `m`, in the
      order of `cs`: what the pass appends to `m`'s block. */
  function DefsInto(st: SymbolTable, l: Layout, cs: seq<ClassId>, m: SymId): (r: seq<NodeId>)
    requires TableOk(st) && RootedAll(st, l, cs)
    ensures forall x :: x in r ==> x in Defs(st, cs)
    ensures !(m in st.syms && st.syms[m].kind == ModuleSym) ==> r == []
  {
    if cs == [] then []
    else
      var c := cs[|cs| - 1];
      DefsInto(st, l, cs[..|cs| - 1], m)
        + (if GetModule(st, l, st.classSym[c]) == m then [DefOf(st, c)] else [])
  }

  /** Handling the last class of `cs` reparents its definition to the
      module its chain ends at in the original layout. */
  lemma RelocateAllLastParent(st: SymbolTable, l: Layout, cs: seq<ClassId>)
    requires TableOk(st) && LayoutOk(st, l) && RootedAll(st, l, cs) && cs != []
    ensures var c := cs[|cs| - 1];
      RelocateAll(st, l, cs).parent
        == RelocateAll(st, l, cs[..|cs| - 1]).parent[DefOf(st, c) := GetModule(st, l, st.classSym[c])]
  {
    var c := cs[|cs| - 1];
    assert c in cs;
  }

  /** Handling the last class of `cs` removes its definition from every
      block and appends it to the block of its original module. */
  lemma RelocateAllLastBlock(st: SymbolTable, l: Layout, cs: seq<ClassId>, o: SymId)
    requires TableOk(st) && LayoutOk(st, l) && RootedAll(st, l, cs) && cs != []
    requires o in l.blocks
    ensures var c := cs[|cs| - 1]; var d := DefOf(st, c);
      RelocateAll(st, l, cs).blocks[o]
        == Keep(RelocateAll(st, l, cs[..|cs| - 1]).blocks[o], [d])
          + (if o == GetModule(st, l, st.classSym[c]) then [d] else [])
  {
    var c := cs[|cs| - 1];
    assert c in cs;
  }

  /** Appending one definition to a list of definitions. */
  lemma DefsSnoc(st: SymbolTable, cs: seq<ClassId>)
    requires TableOk(st) && (forall c :: c in cs ==> c in st.classSym) && cs != []
    ensures Defs(st, cs) == Defs(st, cs[..|cs| - 1]) + [DefOf(st, cs[|cs| - 1])]
  {
  }

  /** After relocating the distinct classes `cs` in order, every block holds
      its old contents minus the relocated definitions, still in order,
      followed (for a module) by the definitions relocated into it, in the
      order of `cs`. */
  lemma {:induction false} RelocateAllBlocks(st: SymbolTable, l: Layout, cs: seq<ClassId>, o: SymId)
    requires TableOk(st) && LayoutOk(st, l) && RootedAll(st, l, cs) && NoDup(cs)
    requires o in l.blocks
    ensures RelocateAll(st, l, cs).blocks[o] == Keep(l.blocks[o], Defs(st, cs)) + DefsInto(st, l, cs, o)
    decreases |cs|
  {
    if cs == [] {
      KeepNothing(l.blocks[o], []);
    } else {
      var pre := cs[..|cs| - 1];
      var c := cs[|cs| - 1];
      var d := DefOf(st, c);
      assert NoDup(pre) && c !in pre;
      RelocateAllBlocks(st, l, pre, o);
      RelocateAllLastBlock(st, l, cs, o);
      DefsMember(st, pre, c);
      DefsSnoc(st, cs);
      var B := DefsInto(st, l, pre, o);
      var tail: seq<NodeId> := if o == GetModule(st, l, st.classSym[c]) then [d] else [];
      KeepStep(l.blocks[o], Defs(st, pre), d, B, tail,
        RelocateAll(st, l, pre).blocks[o], RelocateAll(st, l, cs).blocks[o]);
    }
  }

  /** Removing one more element from a filtered block followed by other
      elements that do not include it. */
  lemma KeepStep(
    s: seq<NodeId>, drop: seq<NodeId>, d: NodeId, b: seq<NodeId>, tail: seq<NodeId>,
    mid: seq<NodeId>, result: seq<NodeId>)
    requires mid == Keep(s, drop) + b && d !in b
    requires result == Keep(mid, [d]) + tail
    ensures result == Keep(s, drop + [d]) + (b + tail)
  {
    assert Keep(b, [d]) == b by {
      KeepNothing(b, [d]);
    }
    assert Keep(mid, [d]) == Keep(Keep(s, drop), [d]) + Keep(b, [d]) by {
      KeepAppend(Keep(s, drop), b, [d]);
    }
    assert Keep(Keep(s, drop), [d]) == Keep(s, drop + [d]) by {
      KeepKeep(s, drop, [d]);
    }
    assert Keep(s, drop + [d]) + b + tail == Keep(s, drop + [d]) + (b + tail);
  }

  /** Setting one key of a map leaves every other key's value alone. */
  lemma MapSetOther(p: map<NodeId, SymId>, k: NodeId, v: SymId, x: NodeId)
    requires x != k && x in p
    ensures x in p[k := v] && p[k := v][x] == p[x]
  {
  }

  /** Distinct classes have distinct definitions. */
  lemma DefOfInjective(st: SymbolTable, c: ClassId, c': ClassId)
    requires TableOk(st) && c in st.classSym && c' in st.classSym && c != c'
    ensures DefOf(st, c) != DefOf(st, c')
  {
    assert st.nodes[DefOf(st, c)] == DefExpr(st.classSym[c]);
    assert st.nodes[DefOf(st, c')] == DefExpr(st.classSym[c']);
  }

  /** Every relocated class's definition now has the module its chain ended
      at, in the tree before the pass, as its parent. */
  lemma {:induction false} RelocateAllMoves(st: SymbolTable, l: Layout, cs: seq<ClassId>, c: ClassId)
    requires TableOk(st) && LayoutOk(st, l) && RootedAll(st, l, cs) && c in cs
    ensures DefOf(st, c) in RelocateAll(st, l, cs).parent
    ensures RelocateAll(st, l, cs).parent[DefOf(st, c)] == GetModule(st, l, st.classSym[c])
    decreases |cs|
  {
    var pre := cs[..|cs| - 1];
    var last := cs[|cs| - 1];
    RelocateAllLastParent(st, l, cs);
    if c != last {
      assert c in pre;
      RelocateAllMoves(st, l, pre, c);
      DefOfInjective(st, c, last);
      MapSetOther(RelocateAll(st, l, pre).parent, DefOf(st, last),
        GetModule(st, l, st.classSym[last]), DefOf(st, c));
    }
  }

  /** A node whose definition was not relocated keeps its parent. */
  lemma {:induction false} RelocateAllKeepsOthers(st: SymbolTable, l: Layout, cs: seq<ClassId>, n: NodeId)
    requires TableOk(st) && LayoutOk(st, l) && RootedAll(st, l, cs)
    requires n in l.parent && n !in Defs(st, cs)
    ensures RelocateAll(st, l, cs).parent[n] == l.parent[n]
    decreases |cs|
  {
    if cs != [] {
      var pre := cs[..|cs| - 1];
      DefsSnoc(st, cs);
      RelocateAllLastParent(st, l, cs);
      RelocateAllKeepsOthers(st, l, pre, n);
    }
  }

  /** A definition sitting directly in a module's block is not the
      definition of a nested class. */
  lemma NotNestedInModule(st: SymbolTable, l: Layout, cs: seq<ClassId>, m: SymId, x: NodeId)
    requires TableOk(st) && LayoutOk(st, l)
    requires forall c :: c in cs ==> c in st.classSym && Nested(st, l, c)
    requires m in st.syms && st.syms[m].kind == ModuleSym
    requires m in l.blocks && x in l.blocks[m]
    ensures x !in Defs(st, cs)
  {
  }

  /** A class whose definition sits in a module's block is not nested. */
  lemma InModuleNotNested(st: SymbolTable, r: Layout, c: ClassId)
    requires TableOk(st) && c in st.classSym
    requires DefOf(st, c) in r.parent
    requires r.parent[DefOf(st, c)] in st.syms && st.syms[r.parent[DefOf(st, c)]].kind == ModuleSym
    ensures !Nested(st, r, c)
  {
  }

  /** Whether a class is nested depends only on the parent of its
      definition. */
  lemma NestedSameParent(st: SymbolTable, l: Layout, r: Layout, c: ClassId)
    requires TableOk(st) && c in st.classSym
    requires DefOf(st, c) in l.parent && DefOf(st, c) in r.parent
    requires r.parent[DefOf(st, c)] == l.parent[DefOf(st, c)]
    ensures Nested(st, r, c) <==> Nested(st, l, c)
  {
  }

  // ---------------------------------------------------------------------
  // The whole pass

  /** A module's block keeps all its statements, in order, and gains the
      definitions of the nested classes of that module, in collection
      order. */
  lemma ModuleBlockAfterFlatten(st: SymbolTable, l: Layout, gAsts: seq<NodeId>, m: SymId)
    requires TableOk(st) && LayoutOk(st, l) && RootedAll(st, l, Collected(st, l, gAsts))
    requires m in st.syms && st.syms[m].kind == ModuleSym
    ensures Flatten(st, l, gAsts).blocks[m]
      == l.blocks[m] + DefsInto(st, l, Collected(st, l, gAsts), m)
  {
    var cs := Collected(st, l, gAsts);
    RelocateAllBlocks(st, l, cs, m);
    forall x | x in l.blocks[m]
      ensures x !in Defs(st, cs)
    {
      NotNestedInModule(st, l, cs, m, x);
    }
    KeepNothing(l.blocks[m], Defs(st, cs));
  }

  /** Any block that is not a module's loses exactly the nested class
      definitions it held; its other statements stay, in order. */
  lemma ScopeBlockAfterFlatten(st: SymbolTable, l: Layout, gAsts: seq<NodeId>, o: SymId)
    requires TableOk(st) && LayoutOk(st, l) && RootedAll(st, l, Collected(st, l, gAsts))
    requires o in l.blocks && st.syms[o].kind != ModuleSym
    ensures Flatten(st, l, gAsts).blocks[o]
      == Keep(l.blocks[o], Defs(st, Collected(st, l, gAsts)))
  {
    RelocateAllBlocks(st, l, Collected(st, l, gAsts), o);
  }

  /** Each collected class, whatever its depth, lands directly in the block
      of its module, the module every enclosing class also belongs to; it
      came from a class-typed scope and not from that module. */
  lemma NestedClassReachesModule(st: SymbolTable, l: Layout, gAsts: seq<NodeId>, c: ClassId)
    requires TableOk(st) && LayoutOk(st, l) && RootedAll(st, l, Collected(st, l, gAsts))
    requires c in Collected(st, l, gAsts)
    ensures var s := st.classSym[c]; var m := GetModule(st, l, s);
      && ParentSymbol(st, Flatten(st, l, gAsts), s) == Some(m)
      && st.syms[m].kind == ModuleSym
      && ParentSymbol(st, l, s).Some? && ParentSymbol(st, l, s) != Some(m)
      && Rooted(st, l, ParentSymbol(st, l, s).value)
      && GetModule(st, l, ParentSymbol(st, l, s).value) == m
  {
    var cs := Collected(st, l, gAsts);
    RelocateAllMoves(st, l, cs, c);
    GetModuleInherited(st, l, st.classSym[c]);
  }

  /** After the pass no node of the scan is accepted by `isInnerClass`. */
  lemma NoInnerClassRemains(st: SymbolTable, l: Layout, gAsts: seq<NodeId>, i: nat)
    requires TableOk(st) && LayoutOk(st, l) && RootedAll(st, l, Collected(st, l, gAsts))
    requires i < |gAsts|
    ensures IsInnerClass(st, Flatten(st, l, gAsts), gAsts[i]) == None
  {
    var cs := Collected(st, l, gAsts);
    var r := Flatten(st, l, gAsts);
    var a := IsInnerClass(st, r, gAsts[i]);
    if a.Some? {
      var c := a.value;
      var s := st.classSym[c];
      var d := DefOf(st, c);
      if c in cs {
        RelocateAllMoves(st, l, cs, c);
        InModuleNotNested(st, r, c);
      } else {
        DefsMember(st, cs, c);
        assert d in l.parent;
        RelocateAllKeepsOthers(st, l, cs, d);
        NestedSameParent(st, l, r, c);
      }
    }
  }

  /** A second run over the flattened tree collects nothing, so it changes
      nothing: the pass is idempotent. */
  lemma FlattenIdempotent(st: SymbolTable, l: Layout, gAsts: seq<NodeId>)
    requires TableOk(st) && LayoutOk(st, l) && RootedAll(st, l, Collected(st, l, gAsts))
    ensures Collected(st, Flatten(st, l, gAsts), gAsts) == []
    ensures Flatten(st, Flatten(st, l, gAsts), gAsts) == Flatten(st, l, gAsts)
  {
    var r := Flatten(st, l, gAsts);
    forall i | 0 <= i < |gAsts|
      ensures IsInnerClass(st, r, gAsts[i]) == None
    {
      NoInnerClassRemains(st, l, gAsts, i);
    }
    if Collected(st, r, gAsts) != [] {
      assert Collected(st, r, gAsts)[0] in Collected(st, r, gAsts);
    }
  }

  /** No definition is created, lost or duplicated: every node that sat in
      a block before the pass sits afterwards in exactly one block, exactly
      once, and no other node does. */
  lemma DefinitionPointsPreserved(st: SymbolTable, l: Layout, gAsts: seq<NodeId>, n: NodeId)
    requires TableOk(st) && LayoutOk(st, l) && RootedAll(st, l, Collected(st, l, gAsts))
    ensures var r := Flatten(st, l, gAsts);
      (n in r.parent <==> n in l.parent)
      && (forall o :: o in r.blocks && n in r.blocks[o] ==> n in l.parent && o == r.parent[n])
      && (n in l.parent ==> multiset(r.blocks[r.parent[n]])[n] == 1)
  {
    var r := Flatten(st, l, gAsts);
    Placement(l, r, n);
  }

  /** Placement facts for one node of a well-formed layout that has the
      same placed nodes as `l`. */
  lemma Placement(l: Layout, r: Layout, n: NodeId)
    requires BlocksOk(r) && r.parent.Keys == l.parent.Keys
    ensures n in r.parent <==> n in l.parent
    ensures forall o :: o in r.blocks && n in r.blocks[o] ==> n in l.parent && o == r.parent[n]
    ensures n in l.parent ==> multiset(r.blocks[r.parent[n]])[n] == 1
  {
    if n in r.parent {
      OccursOnce(r, n);
    }
  }


}
