/**
  A reader for the descriptors the encoder writes, following the grammar of
  sections 4.3.2 and 4.3.3 of The Java Virtual Machine Specification. It is
  the encoder's partner: reading back what `Desc` and `Descriptor` wrote gives
  the original types, so two method shapes have the same descriptor exactly
  when they are the same shape, which is what lets `findMethod2` compare
  methods by descriptor string.

  The round trip needs the class names to be real binary names: no ';'
  (which ends a name in a descriptor) and no '/' (which the encoder writes
  for '.').
 */
module DescriptorParser {
  import opened JavaTypes
  import opened Descriptors

  /** The primitive kind a one-character code stands for. */
  function KindOfCode(ch: char): (r: Option<PrimitiveKind>)
    ensures r.Some? ==> PrimitiveCode(r.value) == Some(ch)
  {
    match ch
    case 'V' => Some(Void)
    case 'I' => Some(Int)
    case 'B' => Some(Byte)
    case 'J' => Some(Long)
    case 'D' => Some(Double)
    case 'F' => Some(Float)
    case 'C' => Some(Char)
    case 'S' => Some(Short)
    case 'Z' => Some(Boolean)
    case _ => None
  }

  /** An internal-form name turned back into a binary name: every '/' becomes '.'. */
  function Dotted(name: string): (r: string)
    ensures |r| == |name|
    ensures forall i :: 0 <= i < |name| ==> r[i] == (if name[i] == '/' then '.' else name[i])
  {
    seq(|name|, i requires 0 <= i < |name| => if name[i] == '/' then '.' else name[i])
  }

  /** The position of the first ';' in `s` at or after `i`, or `|s|` when there is none. */
  function SemicolonFrom(s: string, i: nat): (j: nat)
    requires i <= |s|
    ensures i <= j <= |s|
    ensures j < |s| ==> s[j] == ';'
    ensures forall k :: i <= k < j ==> s[k] != ';'
    decreases |s| - i
  {
    if i == |s| || s[i] == ';' then i else SemicolonFrom(s, i + 1)
  }

  /** Reads one field descriptor from the front of `s`; gives the type and what follows it. */
  function ParseField(s: string): (r: Option<(TypeShape, string)>)
    ensures r.Some? ==> |r.value.1| < |s|
    decreases |s|
  {
    if |s| == 0 then None
    else if s[0] == '[' then
      match ParseField(s[1..])
      case None => None
      case Some((c, rest)) => Some((ArrayOf(c), rest))
    else if s[0] == 'L' then
      var j := SemicolonFrom(s, 1);
      if j < |s| then Some((Reference(Dotted(s[1..j])), s[j + 1..])) else None
    else
      match KindOfCode(s[0])
      case None => None
      case Some(k) => Some((Primitive(k), s[1..]))
  }

  /** Reads field descriptors up to and including the closing ')'. */
  function ParseParams(s: string): (r: Option<(seq<TypeShape>, string)>)
    ensures r.Some? ==> |r.value.1| < |s|
    decreases |s|
  {
    if |s| == 0 then None
    else if s[0] == ')' then Some(([], s[1..]))
    else
      match ParseField(s)
      case None => None
      case Some((t, rest)) =>
        match ParseParams(rest)
        case None => None
        case Some((ts, after)) => Some(([t] + ts, after))
  }

  /** Reads a whole method descriptor; an empty return part reads as an absent return type. */
  function ParseMethod(s: string): Option<(seq<TypeShape>, Option<TypeShape>)>
  {
    if |s| == 0 || s[0] != '(' then None
    else
      match ParseParams(s[1..])
      case None => None
      case Some((ps, rest)) =>
        if rest == [] then Some((ps, None))
        else
          match ParseField(rest)
          case None => None
          case Some((t, after)) => if after == [] then Some((ps, Some(t))) else None
  }

  /** The class name inside `t`, if any, is a binary name: no ';' and no '/'. */
  predicate WellNamed(t: TypeShape)
  {
    ElementType(t).Reference? ==> ';' !in ElementType(t).className && '/' !in ElementType(t).className
  }

  predicate AllWellNamed(ps: seq<TypeShape>)
  {
    forall i :: 0 <= i < |ps| ==> WellNamed(ps[i])
  }

  /** Reading back the internal form of a binary name gives the name. */
  lemma DottedSlashed(name: string)
    requires '/' !in name
    ensures Dotted(Slashed(name)) == name
  {
  }

  /** Reading the encoding of `t`, followed by anything, gives `t` and leaves that rest. */
  lemma {:induction false} FieldRoundTrip(t: TypeShape, rest: string)
    requires Encodable(t) && WellNamed(t)
    ensures ParseField(Desc(t).value + rest) == Some((t, rest))
  {
    var s := Desc(t).value + rest;
    match t
    case ArrayOf(c) =>
      assert s[1..] == Desc(c).value + rest;
      FieldRoundTrip(c, rest);
    case Primitive(k) =>
      assert s[1..] == rest;
    case Reference(n) =>
      var inner := Slashed(n);
      assert s == "L" + inner + ";" + rest;
      var j := SemicolonFrom(s, 1);
      assert s[|n| + 1] == ';';
      forall k | 1 <= k < |n| + 1 ensures s[k] != ';' {
        assert s[k] == inner[k - 1];
        assert n[k - 1] != ';';
      }
      assert j == |n| + 1;
      assert s[1..j] == inner;
      DottedSlashed(n);
      assert s[j + 1..] == rest;
  }

  /** Reading the parameter encoding of `ps`, then ')', gives `ps` and leaves what follows. */
  lemma {:induction false} ParamsRoundTrip(ps: seq<TypeShape>, rest: string)
    requires AllEncodable(ps)
    requires AllWellNamed(ps)
    ensures ParseParams(ParamsDesc(ps).value + ")" + rest) == Some((ps, rest))
    decreases |ps|
  {
    var s := ParamsDesc(ps).value + ")" + rest;
    if ps == [] {
      assert s == ")" + rest;
      assert s[1..] == rest;
    } else {
      var p, tail := ps[0], ps[1..];
      assert ps == [p] + tail;
      assert WellNamed(p);
      assert AllEncodable(tail) && AllWellNamed(tail);
      ParamsDescCons(p, tail);
      var d, pt := Desc(p).value, ParamsDesc(tail).value;
      var more := pt + ")" + rest;
      calc {
        s;
        (d + pt) + ")" + rest;
        d + (pt + ")" + rest);
      }
      assert s[0] == d[0];
      FieldRoundTrip(p, more);
      ParamsRoundTrip(tail, rest);
      assert ParseField(s) == Some((p, more));
      assert ParseParams(more) == Some((tail, rest));
    }
  }

  /** Reading a descriptor gives back the parameter types and the return type it encodes. */
  lemma MethodRoundTrip(ps: seq<TypeShape>, ret: Option<TypeShape>)
    requires Descriptor(ps, ret).Ok?
    requires AllWellNamed(ps) && (ret.Some? ==> WellNamed(ret.value))
    ensures ParseMethod(Descriptor(ps, ret).value) == Some((ps, ret))
  {
    var d := Descriptor(ps, ret).value;
    var p := ParamsDesc(ps).value;
    match ret
    case None =>
      assert d == "(" + (p + ")" + []);
      assert d[1..] == p + ")" + [];
      ParamsRoundTrip(ps, []);
      assert ParseParams(d[1..]) == Some((ps, []));
    case Some(t) =>
      var r := Desc(t).value;
      assert d == "(" + (p + ")" + r);
      assert d[1..] == p + ")" + r;
      ParamsRoundTrip(ps, r);
      assert ParseParams(d[1..]) == Some((ps, r));
      assert r + [] == r;
      FieldRoundTrip(t, []);
      assert ParseField(r) == Some((t, []));
  }

  /**
    Descriptors are canonical keys: two method shapes whose class names are
    binary names have the same descriptor only when they have the same
    parameter types and the same return type.
   */
  lemma DescriptorInjective(ps: seq<TypeShape>, ret: Option<TypeShape>, ps': seq<TypeShape>, ret': Option<TypeShape>)
    requires AllWellNamed(ps) && (ret.Some? ==> WellNamed(ret.value))
    requires AllWellNamed(ps') && (ret'.Some? ==> WellNamed(ret'.value))
    requires Descriptor(ps, ret).Ok? && Descriptor(ps, ret) == Descriptor(ps', ret')
    ensures ps == ps' && ret == ret'
  {
    MethodRoundTrip(ps, ret);
    MethodRoundTrip(ps', ret');
  }

  /** The same for single field descriptors. */
  lemma FieldInjective(t: TypeShape, t': TypeShape)
    requires WellNamed(t) && WellNamed(t')
    requires Desc(t).Ok? && Desc(t) == Desc(t')
    ensures t == t'
  {
    FieldRoundTrip(t, []);
    FieldRoundTrip(t', []);
    assert Desc(t).value + [] == Desc(t).value;
  }
}
