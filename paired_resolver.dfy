/**
  `find2Methods`: the call a generated proxy class makes, once per
  intercepted method, to store two methods side by side in its `Method[]`
  table: at `index` the method the proxy's superclass (or an interface)
  provides, and at `index + 1` the proxy's own forwarding method, or `null`
  when no such name is given.

  The Java statement `methods[index + 1] = lookup` evaluates the lookup before
  the array store and its bounds check, so a failed lookup stores nothing; the
  store at `index + 1` happens before the superclass lookup runs, so a failure
  of that lookup leaves `index + 1` already written. `index + 1` is computed
  in 32-bit arithmetic.
 */
module PairedResolver {
  import opened JavaTypes
  import opened ClassHierarchy
  import opened MethodLocator

  /** Java's `index + 1` on an `int`: the largest `int` wraps to the smallest. */
  function NextIndex(index: Int32): (r: Int32)
    ensures index < 0x7fff_ffff ==> r == index + 1
    ensures index == 0x7fff_ffff ==> r < 0
  {
    if index == 0x7fff_ffff then -0x8000_0000 else index + 1
  }

  /** The value stored at `index + 1`: `null` without a name, else the declared-only lookup. */
  function ThisSide(g: ClassGraph, c: ClassId, thisMethod: Option<string>, desc: string): Result<Option<MethodRef>>
    requires g.Has(c)
  {
    match thisMethod
    case None => Ok(None)
    case Some(name) =>
      match DeclaredLookup(g, c, name, desc)
      case Ok(m) => Ok(Some(m))
      case Err(e) => Err(e)
  }

  predicate InBounds(i: int, length: nat)
  {
    0 <= i < length
  }

  /** What a `find2Methods` call does: how it ends, and the contents of the array afterwards. */
  datatype Effect = Effect(outcome: Outcome, table: seq<Option<MethodRef>>)

  /**
    The effect of `find2Methods` on class `c` and an array holding `table`,
    case by case in the order the Java code meets them: the this-side lookup,
    the store at `index + 1`, the superclass lookup, the store at `index`.
    Only those two slots can change, and a failing this-side lookup changes
    nothing.
   */
  function Find2Effect(g: ClassGraph, c: ClassId, superMethod: string, thisMethod: Option<string>,
                       index: Int32, desc: string, table: seq<Option<MethodRef>>): (e: Effect)
    requires g.Valid() && g.Has(c) && g.nodes[c].superclass.Some?
    ensures |e.table| == |table|
    ensures forall k :: 0 <= k < |table| && k != index && k != NextIndex(index) ==> e.table[k] == table[k]
    ensures e.outcome == Pass <==>
            && ThisSide(g, c, thisMethod, desc).Ok?
            && SuperLookup(g, c, superMethod, desc).Ok?
            && InBounds(index, |table|) && InBounds(NextIndex(index), |table|)
    ensures e.outcome == Pass ==>
            && e.table[index] == Some(SuperLookup(g, c, superMethod, desc).value)
            && e.table[NextIndex(index)] == ThisSide(g, c, thisMethod, desc).value
    ensures ThisSide(g, c, thisMethod, desc).Err? ==> e == Effect(Fail(ThisSide(g, c, thisMethod, desc).error), table)
    ensures e.outcome.Fail? && e.table != table ==>
            && ThisSide(g, c, thisMethod, desc).Ok? && InBounds(NextIndex(index), |table|)
            && (SuperLookup(g, c, superMethod, desc).Err? || !InBounds(index, |table|))
  {
    var next := NextIndex(index);
    match ThisSide(g, c, thisMethod, desc)
    case Err(err) => Effect(Fail(err), table)
    case Ok(here) =>
      if !InBounds(next, |table|) then Effect(Fail(IndexOutOfBounds(next)), table)
      else
        var written := table[next := here];
        match SuperLookup(g, c, superMethod, desc)
        case Err(err) => Effect(Fail(err), written)
        case Ok(m) =>
          if !InBounds(index, |table|) then Effect(Fail(IndexOutOfBounds(index)), written)
          else Effect(Pass, written[index := Some(m)])
  }

  /** `find2Methods(Class, String, String, int, String, Method[])`. */
  method Find2Methods(g: ClassGraph, c: ClassId, superMethod: string, thisMethod: Option<string>,
                      index: Int32, desc: string, methods: array<Option<MethodRef>>)
    returns (r: Outcome)
    requires g.Valid() && g.Has(c) && g.nodes[c].superclass.Some?
    modifies methods
    ensures r == Find2Effect(g, c, superMethod, thisMethod, index, desc, old(methods[..])).outcome
    ensures methods[..] == Find2Effect(g, c, superMethod, thisMethod, index, desc, old(methods[..])).table
  {
    var thisSide: Option<MethodRef> := None;
    if thisMethod.Some? {
      var found := FindMethod(g, c, thisMethod.value, desc);
      if found.Err? {
        return Fail(found.error);
      }
      thisSide := Some(found.value);
    }
    var next := NextIndex(index);
    if !InBounds(next, methods.Length) {
      return Fail(IndexOutOfBounds(next));
    }
    methods[next] := thisSide;
    var superSide := FindSuperClassMethod(g, c, superMethod, desc);
    if superSide.Err? {
      return Fail(superSide.error);
    }
    if !InBounds(index, methods.Length) {
      return Fail(IndexOutOfBounds(index));
    }
    methods[index] := Some(superSide.value);
    return Pass;
  }

  /**
    The deprecated `find2Methods(Object, String, String, int, String, Method[])`:
    the same two stores, with both lookups made on the class of `self`.
   */
  method Find2MethodsOf(g: ClassGraph, self: Instance, superMethod: string, thisMethod: Option<string>,
                        index: Int32, desc: string, methods: array<Option<MethodRef>>)
    returns (r: Outcome)
    requires g.Valid() && g.Has(self.cls) && g.nodes[self.cls].superclass.Some?
    modifies methods
    ensures r == Find2Effect(g, self.cls, superMethod, thisMethod, index, desc, old(methods[..])).outcome
    ensures methods[..] == Find2Effect(g, self.cls, superMethod, thisMethod, index, desc, old(methods[..])).table
  {
    var thisSide: Option<MethodRef> := None;
    if thisMethod.Some? {
      var found := FindMethodOf(g, self, thisMethod.value, desc);
      if found.Err? {
        return Fail(found.error);
      }
      thisSide := Some(found.value);
    }
    var next := NextIndex(index);
    if !InBounds(next, methods.Length) {
      return Fail(IndexOutOfBounds(next));
    }
    methods[next] := thisSide;
    var superSide := FindSuperMethod(g, self, superMethod, desc);
    if superSide.Err? {
      return Fail(superSide.error);
    }
    if !InBounds(index, methods.Length) {
      return Fail(IndexOutOfBounds(index));
    }
    methods[index] := Some(superSide.value);
    return Pass;
  }
}
