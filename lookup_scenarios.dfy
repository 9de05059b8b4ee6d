/**
  Two small hierarchies on which the lookups are worked out: a subclass that
  overrides a method of its superclass, and a class whose two interfaces
  both extend one interface that declares the method (the same interface is
  reached twice).
 */
module LookupScenarios {
  import opened JavaTypes
  import opened Descriptors
  import opened ClassHierarchy

  const FOO: MethodInfo := MethodInfo("foo", [], Primitive(Void))
  const BAR: MethodInfo := MethodInfo("bar", [], Primitive(Void))

  /** `java.lang.Object` (0), `Base` (1) declaring `foo()V`, and `Sub` (2) extending `Base` and overriding it. */
  function OverrideGraph(): ClassGraph
  {
    ClassGraph([
      ClassNode("java.lang.Object", None, [], []),
      ClassNode("Base", Some(0), [], [FOO]),
      ClassNode("Sub", Some(1), [], [FOO])])
  }

  /**
    `java.lang.Object` (0); interface `I` (1) declaring `bar()V`; interfaces
    `J` (2) and `K` (3), both extending `I`; `C` (4) implementing `J` and `K`;
    and `Sub` (5) extending `C`.
   */
  function DiamondGraph(): ClassGraph
  {
    ClassGraph([
      ClassNode("java.lang.Object", None, [], []),
      ClassNode("I", None, [], [BAR]),
      ClassNode("J", None, [1], []),
      ClassNode("K", None, [1], []),
      ClassNode("C", Some(0), [2, 3], []),
      ClassNode("Sub", Some(4), [], [])])
  }

  lemma VoidNoArgsDescriptor(m: MethodInfo)
    requires m.params == [] && m.returnType == Primitive(Void)
    ensures MethodDescriptor(m) == Ok("()V")
  {
    assert PrimitiveCode(Void) == Some('V');
    assert "(" + "" + ")" + "V" == "()V";
  }

  /**
    Looking `foo()V` up from `Sub`: the inherited lookup returns `Base`'s
    declaration, while the declared-only lookup returns `Sub`'s own.
   */
  lemma OverrideScenario()
    ensures OverrideGraph().Valid()
    ensures SuperLookup(OverrideGraph(), 2, "foo", "()V") == Ok(MethodRef(1, 0))
    ensures DeclaredLookup(OverrideGraph(), 2, "foo", "()V") == Ok(MethodRef(2, 0))
  {
    var g := OverrideGraph();
    assert g.Valid() by {
      forall c | 0 <= c < |g.nodes| ensures LinksBelow(g.nodes[c], c) { }
    }
    VoidNoArgsDescriptor(FOO);
    DeclaredSearchFindsFirst(g, 1, "foo", "()V", 0);
    DeclaredSearchFindsFirst(g, 2, "foo", "()V", 0);
    assert Chain(g, 2)[1] == 1;
    NearestSuperclassWins(g, 2, "foo", "()V", 0);
  }

  lemma DiamondValid()
    ensures DiamondGraph().Valid()
  {
    var g := DiamondGraph();
    forall c | 0 <= c < |g.nodes| ensures LinksBelow(g.nodes[c], c) { }
  }

  lemma DiamondTop()
    ensures DiamondGraph().Valid()
    ensures Visits(DiamondGraph(), 0) == [0] && Visits(DiamondGraph(), 1) == [1]
  {
    DiamondValid();
    var g := DiamondGraph();
    assert g.nodes[0].superclass == None && g.nodes[0].interfaces == [];
    assert g.nodes[1].superclass == None && g.nodes[1].interfaces == [];
    assert InterfaceVisits(g, 0, 0) == [] && InterfaceVisits(g, 1, 0) == [];
  }

  /** Both `J` and `K` search themselves, then `I`. */
  lemma DiamondBranch(x: ClassId)
    requires x == 2 || x == 3
    ensures DiamondGraph().Valid()
    ensures Visits(DiamondGraph(), x) == [x, 1]
  {
    DiamondTop();
    var g := DiamondGraph();
    assert InterfaceVisits(g, x, 1) == [];
    assert InterfaceVisits(g, x, 0) == [1];
  }

  lemma DiamondClass()
    ensures DiamondGraph().Valid()
    ensures Visits(DiamondGraph(), 4) == [4, 0, 2, 1, 3, 1]
  {
    DiamondTop();
    DiamondBranch(2);
    DiamondBranch(3);
    var g := DiamondGraph();
    assert InterfaceVisits(g, 4, 1) == [3, 1];
    assert InterfaceVisits(g, 4, 0) == [2, 1, 3, 1];
  }

  /**
    The inherited search from `Sub` in the diamond examines `C`, `Object`,
    `J`, `I`, `K` and `I` again: `I` is reached once through each of `C`'s
    interfaces.
   */
  lemma DiamondOrder()
    ensures DiamondGraph().Valid()
    ensures SuperSearchOrder(DiamondGraph(), 5) == [4, 0, 2, 1, 3, 1]
  {
    DiamondClass();
    var g := DiamondGraph();
    assert InterfaceVisits(g, 5, 0) == [];
  }

  /** Looking `bar()V` up from `Sub` in the diamond returns `I`'s declaration. */
  lemma DiamondFound()
    ensures DiamondGraph().Valid()
    ensures SuperLookup(DiamondGraph(), 5, "bar", "()V") == Ok(MethodRef(1, 0))
  {
    DiamondOrder();
    var g := DiamondGraph();
    VoidNoArgsDescriptor(BAR);
    DeclaredSearchFindsFirst(g, 1, "bar", "()V", 0);
    ScanFindsFirst(g, [4, 0, 2, 1, 3, 1], "bar", "()V", 3);
  }

  /** Asking for a method nobody in the diamond declares fails with an error about `Sub` itself. */
  lemma DiamondNotFound()
    ensures DiamondGraph().Valid()
    ensures SuperLookup(DiamondGraph(), 5, "baz", "()V") == Err(NotFound(5, "baz", "()V"))
  {
    DiamondOrder();
    var g := DiamondGraph();
    DeclaredSearchMissing(g, 1, "baz", "()V");
    SuperLookupNotFound(g, 5, "baz", "()V");
  }
}
