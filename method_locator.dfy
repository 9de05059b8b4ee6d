/**
  The method locator of `RuntimeSupport`: `findMethod2`, `findMethod`,
  `findSuperMethod2`, `searchInterfaces` and `findSuperClassMethod`, written
  as the Java code runs them (early-return index loops and recursion over the
  superclass, then the interfaces), each proved equal to its specification in
  `ClassHierarchy`. A Java `null` result is `Missing`; an exception thrown by
  `makeDescriptor` inside the search is `Raised` and leaves the search at once.
 */
module MethodLocator {
  import opened JavaTypes
  import opened Descriptors
  import opened ClassHierarchy

  /** `findMethod2`: the first method `c` itself declares with this name and descriptor. */
  method FindMethod2(g: ClassGraph, c: ClassId, name: string, desc: string) returns (r: Search)
    requires g.Has(c)
    ensures r == DeclaredSearch(g, c, name, desc)
  {
    var methods := g.nodes[c].declaredMethods;
    var n := |methods|;
    var i := 0;
    while i < n
      invariant 0 <= i <= n
      invariant DeclaredFrom(g, c, i, name, desc) == DeclaredSearch(g, c, name, desc)
    {
      if methods[i].name == name {
        var d := MakeMethodDescriptor(methods[i]);
        if d.Err? {
          return Raised(d.error);
        }
        if d.value == desc {
          return Found(MethodRef(c, i));
        }
      }
      i := i + 1;
    }
    return Missing;
  }

  /** `findMethod(Class, String, String)`: the declared-only lookup; `null` becomes a not-found error about `c`. */
  method FindMethod(g: ClassGraph, c: ClassId, name: string, desc: string) returns (r: Result<MethodRef>)
    requires g.Has(c)
    ensures r == DeclaredLookup(g, c, name, desc)
    ensures r.Ok? ==> r.value.owner == c
  {
    var m := FindMethod2(g, c, name, desc);
    match m
    case Found(ref) => r := Ok(ref);
    case Raised(e) => r := Err(e);
    case Missing => r := Err(NotFound(c, name, desc));
  }

  /**
    `findSuperMethod2`: `c`'s own declarations, then (recursively) its
    superclass, then its interfaces; the first non-null result is returned.
   */
  method FindSuperMethod2(g: ClassGraph, c: ClassId, name: string, desc: string) returns (r: Search)
    requires g.Valid() && g.Has(c)
    ensures r == ScanClasses(g, Visits(g, c), name, desc)
    decreases c, 1
  {
    var above := match g.nodes[c].superclass case Some(s) => Visits(g, s) case None => [];
    var ifs := InterfaceVisits(g, c, 0);
    assert Visits(g, c) == [c] + above + ifs;
    ScanAppend(g, [c] + above, ifs, name, desc);
    ScanAppend(g, [c], above, name, desc);
    r := FindMethod2(g, c, name, desc);
    if r != Missing {
      return;
    }
    var superClass := g.nodes[c].superclass;
    if superClass.Some? {
      assert LinksBelow(g.nodes[c], c);
      r := FindSuperMethod2(g, superClass.value, name, desc);
      if r != Missing {
        return;
      }
    }
    r := SearchInterfaces(g, c, name, desc);
  }

  /** `searchInterfaces`: the inherited search of each interface of `c` in turn, until one finds something. */
  method SearchInterfaces(g: ClassGraph, c: ClassId, name: string, desc: string) returns (r: Search)
    requires g.Valid() && g.Has(c)
    ensures r == ScanClasses(g, InterfaceVisits(g, c, 0), name, desc)
    decreases c, 0
  {
    r := Missing;
    var interfaces := g.nodes[c].interfaces;
    assert LinksBelow(g.nodes[c], c);
    var i := 0;
    while i < |interfaces|
      invariant 0 <= i <= |interfaces|
      invariant r == Missing
      invariant ScanClasses(g, InterfaceVisits(g, c, i), name, desc) == ScanClasses(g, InterfaceVisits(g, c, 0), name, desc)
    {
      ScanAppend(g, Visits(g, interfaces[i]), InterfaceVisits(g, c, i + 1), name, desc);
      r := FindSuperMethod2(g, interfaces[i], name, desc);
      if r != Missing {
        return;
      }
      i := i + 1;
    }
  }

  /**
    `findSuperClassMethod`: the inherited search starting at the superclass of
    `c`, then `c`'s own interfaces; nothing found is an error about `c`. The
    Java code dereferences the superclass unchecked, so `c` must have one.
   */
  method FindSuperClassMethod(g: ClassGraph, c: ClassId, name: string, desc: string) returns (r: Result<MethodRef>)
    requires g.Valid() && g.Has(c) && g.nodes[c].superclass.Some?
    ensures r == SuperLookup(g, c, name, desc)
    ensures r.Ok? ==> r.value.owner < c
  {
    assert LinksBelow(g.nodes[c], c);
    var superClass := g.nodes[c].superclass.value;
    ScanAppend(g, Visits(g, superClass), InterfaceVisits(g, c, 0), name, desc);
    var m := FindSuperMethod2(g, superClass, name, desc);
    if m == Missing {
      m := SearchInterfaces(g, c, name, desc);
    }
    match m
    case Found(ref) => r := Ok(ref);
    case Raised(e) => r := Err(e);
    case Missing => r := Err(NotFound(c, name, desc));
    if r.Ok? {
      SuperLookupFound(g, c, name, desc);
    }
  }

  /** The deprecated `findMethod(Object, String, String)`: the declared-only lookup on the class of `self`. */
  method FindMethodOf(g: ClassGraph, self: Instance, name: string, desc: string) returns (r: Result<MethodRef>)
    requires g.Has(self.cls)
    ensures r == DeclaredLookup(g, self.cls, name, desc)
    ensures r.Ok? ==> r.value.owner == self.cls
  {
    r := FindMethod(g, self.cls, name, desc);
  }

  /** The deprecated `findSuperMethod(Object, String, String)`: the inherited lookup on the class of `self`. */
  method FindSuperMethod(g: ClassGraph, self: Instance, name: string, desc: string) returns (r: Result<MethodRef>)
    requires g.Valid() && g.Has(self.cls) && g.nodes[self.cls].superclass.Some?
    ensures r == SuperLookup(g, self.cls, name, desc)
    ensures r.Ok? ==> r.value.owner < self.cls
  {
    r := FindSuperClassMethod(g, self.cls, name, desc);
  }
}
