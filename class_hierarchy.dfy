/**
  The class hierarchy the method locator walks, and the specification of the
  locator's two searches.

  Each class node holds what reflection reports: its name, its superclass
  (absent for a root), its directly implemented interfaces in declaration
  order and its declared methods in the order `getDeclaredMethods` returns
  them. Classes are named by their position in the graph, and every
  superclass or interface link points to a smaller position; that position is
  the rank that makes the graph acyclic and the searches terminate. Interfaces
  may be reached along several paths.

  `DeclaredSearch` is `findMethod2` on one class. `Visits` lists the classes in
  the order `findSuperMethod2` examines them, and `ScanClasses` is the first
  outcome, along such a list, that is not "missing"; the lemmas below show
  what that order is.
 */
module ClassHierarchy {
  import opened JavaTypes
  import opened Descriptors

  datatype ClassNode = ClassNode(
    name: string,
    superclass: Option<ClassId>,
    interfaces: seq<ClassId>,
    declaredMethods: seq<MethodInfo>)

  datatype ClassGraph = ClassGraph(nodes: seq<ClassNode>) {
    predicate Has(c: ClassId)
    {
      c < |nodes|
    }

    /** Every link points to a class of smaller rank. */
    predicate Valid()
    {
      forall c :: 0 <= c < |nodes| ==> LinksBelow(nodes[c], c)
    }
  }

  predicate LinksBelow(n: ClassNode, c: ClassId)
  {
    && (n.superclass.Some? ==> n.superclass.value < c)
    && (forall i :: 0 <= i < |n.interfaces| ==> n.interfaces[i] < c)
  }

  /** A `java.lang.reflect.Method`: the `index`-th method declared by class `owner`. */
  datatype MethodRef = MethodRef(owner: ClassId, index: nat)

  /**
    What a search step yields: a method, `null` (`Missing`), or the
    exception that `makeDescriptor` threw while comparing descriptors.
   */
  datatype Search = Found(ref: MethodRef) | Missing | Raised(failure: Failure)

  /** `m` is the method asked for: same name and same descriptor. */
  predicate Matches(m: MethodInfo, name: string, desc: string)
  {
    m.name == name && MethodDescriptor(m) == Ok(desc)
  }

  /** `m` has the name asked for but its descriptor cannot be made. */
  predicate Unencodable(m: MethodInfo, name: string)
  {
    m.name == name && MethodDescriptor(m).Err?
  }

  /**
    Examining the `i`-th declared method of `c`. The name is compared first and
    the descriptor is only made when the names agree, as Java's `&&` does.
   */
  function MatchAt(g: ClassGraph, c: ClassId, i: nat, name: string, desc: string): Search
    requires g.Has(c) && i < |g.nodes[c].declaredMethods|
  {
    var m := g.nodes[c].declaredMethods[i];
    if m.name != name then Missing
    else
      match MethodDescriptor(m)
      case Err(e) => Raised(e)
      case Ok(d) => if d == desc then Found(MethodRef(c, i)) else Missing
  }

  /** The declared-only search from position `i` on. */
  function DeclaredFrom(g: ClassGraph, c: ClassId, i: nat, name: string, desc: string): (r: Search)
    requires g.Has(c) && i <= |g.nodes[c].declaredMethods|
    ensures r.Found? ==> r.ref.owner == c && i <= r.ref.index < |g.nodes[c].declaredMethods|
    ensures r.Raised? ==> r.failure.BadType?
    decreases |g.nodes[c].declaredMethods| - i
  {
    if i == |g.nodes[c].declaredMethods| then Missing
    else
      var s := MatchAt(g, c, i, name, desc);
      if s != Missing then s else DeclaredFrom(g, c, i + 1, name, desc)
  }

  /** `findMethod2`: the search of the methods `c` itself declares. */
  function DeclaredSearch(g: ClassGraph, c: ClassId, name: string, desc: string): Search
    requires g.Has(c)
  {
    DeclaredFrom(g, c, 0, name, desc)
  }

  /**
    The classes `findSuperMethod2(c)` examines, in order: `c`, then everything
    its superclass search examines, then everything the searches of its
    interfaces examine, interface by interface. Revisits are kept.
   */
  function Visits(g: ClassGraph, c: ClassId): (r: seq<ClassId>)
    requires g.Valid() && g.Has(c)
    ensures |r| > 0 && r[0] == c
    ensures forall k :: 0 <= k < |r| ==> r[k] <= c
    ensures AllIn(g, r)
    decreases c, 1, 0
  {
    [c]
    + (match g.nodes[c].superclass case Some(s) => Visits(g, s) case None => [])
    + InterfaceVisits(g, c, 0)
  }

  /** The classes `searchInterfaces(c)` examines from the `k`-th interface of `c` on. */
  function InterfaceVisits(g: ClassGraph, c: ClassId, k: nat): (r: seq<ClassId>)
    requires g.Valid() && g.Has(c) && k <= |g.nodes[c].interfaces|
    ensures forall j :: 0 <= j < |r| ==> r[j] < c
    ensures AllIn(g, r)
    decreases c, 0, |g.nodes[c].interfaces| - k
  {
    var ifs := g.nodes[c].interfaces;
    if k == |ifs| then []
    else
      assert LinksBelow(g.nodes[c], c);
      Visits(g, ifs[k]) + InterfaceVisits(g, c, k + 1)
  }

  predicate AllIn(g: ClassGraph, cs: seq<ClassId>)
  {
    forall k :: 0 <= k < |cs| ==> g.Has(cs[k])
  }

  /** The first outcome along `cs` that is not `Missing`, or `Missing`. */
  function ScanClasses(g: ClassGraph, cs: seq<ClassId>, name: string, desc: string): (r: Search)
    requires AllIn(g, cs)
    ensures r.Found? ==> r.ref.owner in cs
    ensures r.Raised? ==> r.failure.BadType?
  {
    if cs == [] then Missing
    else
      var s := DeclaredSearch(g, cs[0], name, desc);
      if s != Missing then s else ScanClasses(g, cs[1..], name, desc)
  }

  /** `c` followed by its superclass chain up to the root. */
  function Chain(g: ClassGraph, c: ClassId): (r: seq<ClassId>)
    requires g.Valid() && g.Has(c)
    ensures |r| > 0 && r[0] == c
    ensures forall k :: 0 <= k < |r| ==> r[k] <= c
    ensures AllIn(g, r)
    decreases c
  {
    [c] + match g.nodes[c].superclass case Some(s) => Chain(g, s) case None => []
  }

  /**
    The interface searches of the classes of `cs`, the LAST class of `cs`
    first: for a chain, the topmost ancestor's interfaces come first and the
    bottom class's interfaces last.
   */
  function TopDownInterfaces(g: ClassGraph, cs: seq<ClassId>): (r: seq<ClassId>)
    requires g.Valid() && AllIn(g, cs)
    ensures AllIn(g, r)
  {
    if cs == [] then []
    else TopDownInterfaces(g, cs[1..]) + InterfaceVisits(g, cs[0], 0)
  }

  /** The classes `findSuperClassMethod(c)` examines: its superclass's search, then its own interfaces' searches. */
  function SuperSearchOrder(g: ClassGraph, c: ClassId): (r: seq<ClassId>)
    requires g.Valid() && g.Has(c) && g.nodes[c].superclass.Some?
    ensures AllIn(g, r)
    ensures forall k :: 0 <= k < |r| ==> r[k] < c
  {
    assert LinksBelow(g.nodes[c], c);
    Visits(g, g.nodes[c].superclass.value) + InterfaceVisits(g, c, 0)
  }

  /** `findMethod`: the declared-only search, with `null` turned into a not-found error. */
  function DeclaredLookup(g: ClassGraph, c: ClassId, name: string, desc: string): Result<MethodRef>
    requires g.Has(c)
  {
    match DeclaredSearch(g, c, name, desc)
    case Found(m) => Ok(m)
    case Raised(e) => Err(e)
    case Missing => Err(NotFound(c, name, desc))
  }

  /** `findSuperClassMethod`: the inherited search, with `null` turned into a not-found error about `c`. */
  function SuperLookup(g: ClassGraph, c: ClassId, name: string, desc: string): Result<MethodRef>
    requires g.Valid() && g.Has(c) && g.nodes[c].superclass.Some?
  {
    match ScanClasses(g, SuperSearchOrder(g, c), name, desc)
    case Found(m) => Ok(m)
    case Raised(e) => Err(e)
    case Missing => Err(NotFound(c, name, desc))
  }

  // ----- The declared-only search -----

  /**
    If the `k`-th declared method is the first one that matches, and no
    earlier method with the queried name fails to encode, the declared search
    finds the `k`-th method.
   */
  lemma {:induction false} DeclaredSearchFindsFirst(g: ClassGraph, c: ClassId, name: string, desc: string, k: nat)
    requires g.Has(c) && k < |g.nodes[c].declaredMethods|
    requires Matches(g.nodes[c].declaredMethods[k], name, desc)
    requires forall j :: 0 <= j < k ==> !Matches(g.nodes[c].declaredMethods[j], name, desc)
    requires forall j :: 0 <= j < k ==> !Unencodable(g.nodes[c].declaredMethods[j], name)
    ensures DeclaredSearch(g, c, name, desc) == Found(MethodRef(c, k))
  {
    var i := k;
    while i > 0
      invariant 0 <= i <= k
      invariant DeclaredFrom(g, c, i, name, desc) == Found(MethodRef(c, k))
    {
      i := i - 1;
      assert MatchAt(g, c, i, name, desc) == Missing;
    }
  }

  /**
    The declared search finds nothing exactly when no declared method
    matches and none with the queried name fails to encode.
   */
  lemma {:induction false} DeclaredSearchMissing(g: ClassGraph, c: ClassId, name: string, desc: string)
    requires g.Has(c)
    ensures DeclaredSearch(g, c, name, desc) == Missing <==>
            forall j :: 0 <= j < |g.nodes[c].declaredMethods| ==>
              !Matches(g.nodes[c].declaredMethods[j], name, desc) && !Unencodable(g.nodes[c].declaredMethods[j], name)
  {
    var ms := g.nodes[c].declaredMethods;
    var i := |ms|;
    while i > 0
      invariant 0 <= i <= |ms|
      invariant DeclaredFrom(g, c, i, name, desc) == Missing <==>
                forall j :: i <= j < |ms| ==> !Matches(ms[j], name, desc) && !Unencodable(ms[j], name)
    {
      i := i - 1;
    }
  }

  /**
    Whatever the declared search finds is a method `c` itself declares, with
    the queried name and descriptor: it never returns an inherited method.
   */
  lemma DeclaredSearchFound(g: ClassGraph, c: ClassId, name: string, desc: string)
    requires g.Has(c)
    requires DeclaredSearch(g, c, name, desc).Found?
    ensures var m := DeclaredSearch(g, c, name, desc).ref;
            m.owner == c && m.index < |g.nodes[c].declaredMethods|
            && Matches(g.nodes[c].declaredMethods[m.index], name, desc)
  {
    var ms := g.nodes[c].declaredMethods;
    var i := 0;
    while DeclaredFrom(g, c, i, name, desc) == Missing || MatchAt(g, c, i, name, desc) == Missing
      invariant 0 <= i <= |ms|
      invariant DeclaredFrom(g, c, i, name, desc) == DeclaredSearch(g, c, name, desc)
      decreases |ms| - i
    {
      i := i + 1;
    }
  }

  // ----- Scanning a list of classes -----

  /** Scanning `a + b` is scanning `a`, and only if that finds nothing, scanning `b`. */
  lemma {:induction false} ScanAppend(g: ClassGraph, a: seq<ClassId>, b: seq<ClassId>, name: string, desc: string)
    requires AllIn(g, a) && AllIn(g, b)
    ensures AllIn(g, a + b)
    ensures ScanClasses(g, a + b, name, desc) ==
            var sa := ScanClasses(g, a, name, desc);
            if sa != Missing then sa else ScanClasses(g, b, name, desc)
  {
    if a != [] {
      assert (a + b)[1..] == a[1..] + b;
      ScanAppend(g, a[1..], b, name, desc);
    } else {
      assert a + b == b;
    }
  }

  /**
    If `cs[k]` is the first class along `cs` whose declared search is not
    `Missing`, the scan yields that class's outcome.
   */
  lemma {:induction false} ScanFindsFirst(g: ClassGraph, cs: seq<ClassId>, name: string, desc: string, k: nat)
    requires AllIn(g, cs) && k < |cs|
    requires forall j :: 0 <= j < k ==> DeclaredSearch(g, cs[j], name, desc) == Missing
    requires DeclaredSearch(g, cs[k], name, desc) != Missing
    ensures ScanClasses(g, cs, name, desc) == DeclaredSearch(g, cs[k], name, desc)
  {
    if k > 0 {
      ScanFindsFirst(g, cs[1..], name, desc, k - 1);
    }
  }

  /** The scan yields `Missing` exactly when every class along `cs` does. */
  lemma {:induction false} ScanMissing(g: ClassGraph, cs: seq<ClassId>, name: string, desc: string)
    requires AllIn(g, cs)
    ensures ScanClasses(g, cs, name, desc) == Missing <==>
            forall j :: 0 <= j < |cs| ==> DeclaredSearch(g, cs[j], name, desc) == Missing
  {
    if cs != [] {
      ScanMissing(g, cs[1..], name, desc);
      assert forall j :: 1 <= j < |cs| ==> cs[j] == cs[1..][j - 1];
    }
  }

  /**
    An interface reached a second time changes nothing: dropping a later
    occurrence of a class that already occurs earlier leaves the outcome as
    it was.
   */
  lemma RevisitHarmless(g: ClassGraph, a: seq<ClassId>, x: ClassId, b: seq<ClassId>, d: seq<ClassId>, name: string, desc: string)
    requires AllIn(g, a) && g.Has(x) && AllIn(g, b) && AllIn(g, d)
    ensures AllIn(g, a + [x] + b + [x] + d) && AllIn(g, a + [x] + b + d)
    ensures ScanClasses(g, a + [x] + b + [x] + d, name, desc) == ScanClasses(g, a + [x] + b + d, name, desc)
  {
    var p := a + [x] + b;
    assert a + [x] + b + [x] + d == p + ([x] + d);
    assert a + [x] + b + d == p + d;
    ScanAppend(g, p, [x] + d, name, desc);
    ScanAppend(g, p, d, name, desc);
    if ScanClasses(g, p, name, desc) == Missing {
      ScanMissing(g, p, name, desc);
      assert p[|a|] == x;
      assert ([x] + d)[1..] == d;
    }
  }

  // ----- The order of the inherited search -----

  /**
    The search from `c` examines all of `c`'s superclass chain first, and only
    then the interfaces, those of the topmost ancestor first.
   */
  lemma {:induction false} VisitsSplit(g: ClassGraph, c: ClassId)
    requires g.Valid() && g.Has(c)
    ensures AllIn(g, Chain(g, c))
    ensures Visits(g, c) == Chain(g, c) + TopDownInterfaces(g, Chain(g, c))
    decreases c
  {
    var ch := Chain(g, c);
    assert ch[1..] == match g.nodes[c].superclass case Some(s) => Chain(g, s) case None => [];
    match g.nodes[c].superclass
    case None =>
      assert TopDownInterfaces(g, ch[1..]) == [];
    case Some(s) =>
      VisitsSplit(g, s);
      ChainStep(g, c);
      var cs, td, iv := Chain(g, s), TopDownInterfaces(g, Chain(g, s)), InterfaceVisits(g, c, 0);
      assert Visits(g, c) == [c] + (cs + td) + iv;
      assert ch == [c] + cs;
      Regroup([c], cs, td, iv);
  }

  lemma Regroup(x: seq<ClassId>, a: seq<ClassId>, b: seq<ClassId>, d: seq<ClassId>)
    ensures x + (a + b) + d == (x + a) + (b + d)
  {
  }

  /** One step up the chain: the chain above `c` is its superclass's chain. */
  lemma ChainStep(g: ClassGraph, c: ClassId)
    requires g.Valid() && g.Has(c) && g.nodes[c].superclass.Some?
    ensures g.nodes[c].superclass.value < c
    ensures Chain(g, c)[1..] == Chain(g, g.nodes[c].superclass.value)
    ensures TopDownInterfaces(g, Chain(g, c)) ==
            TopDownInterfaces(g, Chain(g, g.nodes[c].superclass.value)) + InterfaceVisits(g, c, 0)
  {
    assert LinksBelow(g.nodes[c], c);
  }

  /**
    The order of `findSuperClassMethod(c)`: the proper superclass chain of `c`,
    then the interface searches of the whole chain, from the topmost ancestor
    down to `c` itself.
   */
  lemma SuperSearchSplit(g: ClassGraph, c: ClassId)
    requires g.Valid() && g.Has(c) && g.nodes[c].superclass.Some?
    ensures AllIn(g, Chain(g, c))
    ensures SuperSearchOrder(g, c) == Chain(g, c)[1..] + TopDownInterfaces(g, Chain(g, c))
  {
    var s := g.nodes[c].superclass.value;
    ChainStep(g, c);
    VisitsSplit(g, s);
    var cs, td, iv := Chain(g, s), TopDownInterfaces(g, Chain(g, s)), InterfaceVisits(g, c, 0);
    assert SuperSearchOrder(g, c) == Visits(g, s) + iv;
    Reassociate(cs, td, iv);
  }

  lemma Reassociate(a: seq<ClassId>, b: seq<ClassId>, d: seq<ClassId>)
    ensures (a + b) + d == a + (b + d)
  {
  }

  /**
    Superclass declarations win over interfaces: the inherited lookup takes
    the outcome of scanning the proper superclass chain whenever that scan
    finds something, and looks at interfaces only when every class on the
    chain declares nothing that matches.
   */
  lemma ChainBeforeInterfaces(g: ClassGraph, c: ClassId, name: string, desc: string)
    requires g.Valid() && g.Has(c) && g.nodes[c].superclass.Some?
    ensures AllIn(g, Chain(g, c))
    ensures var onChain := ScanClasses(g, Chain(g, c)[1..], name, desc);
            var inInterfaces := ScanClasses(g, TopDownInterfaces(g, Chain(g, c)), name, desc);
            SuperLookup(g, c, name, desc) ==
              match (if onChain != Missing then onChain else inInterfaces)
              case Found(m) => Ok(m)
              case Raised(e) => Err(e)
              case Missing => Err(NotFound(c, name, desc))
  {
    SuperSearchSplit(g, c);
    var ch := Chain(g, c);
    assert AllIn(g, ch[1..]);
    ScanAppend(g, ch[1..], TopDownInterfaces(g, ch), name, desc);
  }

  /**
    The nearest superclass that declares the method wins: if the `k`-th class
    of the proper chain is the first whose declared search finds something,
    the inherited lookup returns what that class declares.
   */
  lemma NearestSuperclassWins(g: ClassGraph, c: ClassId, name: string, desc: string, k: nat)
    requires g.Valid() && g.Has(c) && g.nodes[c].superclass.Some?
    requires k + 1 < |Chain(g, c)|
    requires forall j :: 1 <= j <= k ==> DeclaredSearch(g, Chain(g, c)[j], name, desc) == Missing
    requires DeclaredSearch(g, Chain(g, c)[k + 1], name, desc).Found?
    ensures SuperLookup(g, c, name, desc) == Ok(DeclaredSearch(g, Chain(g, c)[k + 1], name, desc).ref)
  {
    ChainBeforeInterfaces(g, c, name, desc);
    var proper := Chain(g, c)[1..];
    assert proper[k] == Chain(g, c)[k + 1];
    assert forall j :: 0 <= j < k ==> proper[j] == Chain(g, c)[j + 1];
    ScanFindsFirst(g, proper, name, desc, k);
  }

  /**
    What the inherited lookup returns is never declared by `c` itself: it is
    a method declared by a class ranked below `c`, on the search order, that
    matches the query.
   */
  lemma SuperLookupFound(g: ClassGraph, c: ClassId, name: string, desc: string)
    requires g.Valid() && g.Has(c) && g.nodes[c].superclass.Some?
    requires SuperLookup(g, c, name, desc).Ok?
    ensures var m := SuperLookup(g, c, name, desc).value;
            && m.owner < c
            && m.owner in SuperSearchOrder(g, c)
            && DeclaredSearch(g, m.owner, name, desc) == Found(m)
            && m.index < |g.nodes[m.owner].declaredMethods|
            && Matches(g.nodes[m.owner].declaredMethods[m.index], name, desc)
  {
    SuperSearchSplit(g, c);
    var order := SuperSearchOrder(g, c);
    var k := ScanHit(g, order, name, desc);
    DeclaredSearchFound(g, order[k], name, desc);
  }

  /** The position along `cs` whose outcome the scan yields, when it is not `Missing`. */
  lemma {:induction false} ScanHit(g: ClassGraph, cs: seq<ClassId>, name: string, desc: string) returns (k: nat)
    requires AllIn(g, cs)
    requires ScanClasses(g, cs, name, desc) != Missing
    ensures k < |cs|
    ensures ScanClasses(g, cs, name, desc) == DeclaredSearch(g, cs[k], name, desc)
    ensures forall j :: 0 <= j < k ==> DeclaredSearch(g, cs[j], name, desc) == Missing
  {
    if DeclaredSearch(g, cs[0], name, desc) != Missing {
      k := 0;
    } else {
      var k' := ScanHit(g, cs[1..], name, desc);
      k := k' + 1;
    }
  }

  /**
    A failed inherited lookup reports the queried class, name and descriptor,
    not a class met on the way, and it fails this way exactly when no class
    along the search order declares a match or a broken candidate.
   */
  lemma SuperLookupNotFound(g: ClassGraph, c: ClassId, name: string, desc: string)
    requires g.Valid() && g.Has(c) && g.nodes[c].superclass.Some?
    ensures SuperLookup(g, c, name, desc).Err? && SuperLookup(g, c, name, desc).error.NotFound? ==>
            SuperLookup(g, c, name, desc).error == NotFound(c, name, desc)
    ensures SuperLookup(g, c, name, desc) == Err(NotFound(c, name, desc)) <==>
            forall j :: 0 <= j < |SuperSearchOrder(g, c)| ==> DeclaredSearch(g, SuperSearchOrder(g, c)[j], name, desc) == Missing
  {
    SuperSearchSplit(g, c);
    ScanMissing(g, SuperSearchOrder(g, c), name, desc);
  }

  /** The declared-only lookup fails with not-found, about `c`, exactly when `c` declares no candidate. */
  lemma DeclaredLookupNotFound(g: ClassGraph, c: ClassId, name: string, desc: string)
    requires g.Has(c)
    ensures DeclaredLookup(g, c, name, desc) == Err(NotFound(c, name, desc)) <==>
            forall j :: 0 <= j < |g.nodes[c].declaredMethods| ==>
              !Matches(g.nodes[c].declaredMethods[j], name, desc) && !Unencodable(g.nodes[c].declaredMethods[j], name)
    ensures DeclaredLookup(g, c, name, desc).Ok? ==> DeclaredLookup(g, c, name, desc).value.owner == c
  {
    DeclaredSearchMissing(g, c, name, desc);
  }
}
