/**
  The method-descriptor encoder of `RuntimeSupport`: the `makeDescriptor`
  overloads and `makeDesc`. A descriptor is the string of section 4.3.3 of
  The Java Virtual Machine Specification (method descriptors), built from the
  field descriptors of section 4.3.2, with class names in the internal form of
  section 4.2.1 (every '.' of the binary name replaced by '/').

  `Desc`, `ParamsDesc` and `Descriptor` are the specification; `AppendDesc`
  and `MakeDescriptor` are the buffer-appending Java code, proved equal to it.
 */
module Descriptors {
  import opened JavaTypes

  /** The one-character code of a recognised primitive kind, none for any other. */
  function PrimitiveCode(k: PrimitiveKind): Option<char>
  {
    match k
    case Void => Some('V')
    case Int => Some('I')
    case Byte => Some('B')
    case Long => Some('J')
    case Double => Some('D')
    case Float => Some('F')
    case Char => Some('C')
    case Short => Some('S')
    case Boolean => Some('Z')
    case OtherPrimitive(_) => None
  }

  /** The characters a field descriptor can start with: '[', 'L' or a primitive code. */
  predicate StartsField(ch: char)
  {
    ch == '[' || ch == 'L' || ch == 'V' || ch == 'I' || ch == 'B' || ch == 'J'
    || ch == 'D' || ch == 'F' || ch == 'C' || ch == 'S' || ch == 'Z'
  }

  /** A binary class name in internal form: every '.' becomes '/'. */
  function Slashed(name: string): (r: string)
    ensures |r| == |name|
    ensures forall i :: 0 <= i < |name| ==> r[i] == (if name[i] == '.' then '/' else name[i])
  {
    seq(|name|, i requires 0 <= i < |name| => if name[i] == '.' then '/' else name[i])
  }

  /**
    The field descriptor of `t` (`makeDesc`). It fails exactly when the
    element type is a primitive outside the nine-entry table, and the error
    names that primitive; a successful encoding starts with one of the
    characters a field descriptor can start with.
   */
  function Desc(t: TypeShape): (r: Result<string>)
    ensures r.Ok? <==> Encodable(t)
    ensures r.Err? ==> r.error == BadType(ElementType(t).kind.name)
    ensures r.Ok? ==> |r.value| > 0 && StartsField(r.value[0])
  {
    match t
    case ArrayOf(c) =>
      (match Desc(c)
       case Ok(d) => Ok("[" + d)
       case Err(e) => Err(e))
    case Primitive(k) =>
      (match PrimitiveCode(k)
       case Some(ch) => Ok([ch])
       case None => Err(BadType(k.name)))
    case Reference(n) => Ok("L" + Slashed(n) + ";")
  }

  /**
    The parameter part of a descriptor: the field descriptors of `ps` in
    order, with no separators. The first parameter that cannot be encoded
    decides the error.
   */
  function ParamsDesc(ps: seq<TypeShape>): (r: Result<string>)
    ensures r.Ok? <==> AllEncodable(ps)
    ensures r.Err? ==> r.error.BadType?
  {
    if ps == [] then Ok("")
    else
      match ParamsDesc(ps[..|ps| - 1])
      case Err(e) => Err(e)
      case Ok(front) =>
        match Desc(ps[|ps| - 1])
        case Err(e) => Err(e)
        case Ok(d) => Ok(front + d)
  }

  /**
    The method descriptor `(` params `)` ret. A missing (Java `null`) return
    type leaves nothing after the `)`; `void` is written `V`.
   */
  function Descriptor(ps: seq<TypeShape>, ret: Option<TypeShape>): (r: Result<string>)
    ensures r.Ok? <==> AllEncodable(ps) && (ret.Some? ==> Encodable(ret.value))
    ensures r.Ok? ==> |r.value| >= 2 && r.value[0] == '('
    ensures r.Err? ==> r.error.BadType?
  {
    match ParamsDesc(ps)
    case Err(e) => Err(e)
    case Ok(p) =>
      match ret
      case None => Ok("(" + p + ")")
      case Some(t) =>
        match Desc(t)
        case Err(e) => Err(e)
        case Ok(d) => Ok("(" + p + ")" + d)
  }

  /** The descriptor reflection gives a declared method: its return type is never absent. */
  function MethodDescriptor(m: MethodInfo): Result<string>
  {
    Descriptor(m.params, Some(m.returnType))
  }

  /**
    `makeDesc(sbuf, type)`: appends the field descriptor of `t` to the buffer
    `sbuf`, one '[' per array layer before the element. On a bad type the
    Java code throws and the buffer is abandoned, so no partial encoding
    escapes.
   */
  method AppendDesc(sbuf: string, t: TypeShape) returns (r: Result<string>)
    ensures Desc(t).Ok? ==> r == Ok(sbuf + Desc(t).value)
    ensures Desc(t).Err? ==> r == Err(Desc(t).error)
    decreases t
  {
    match t
    case ArrayOf(c) =>
      r := AppendDesc(sbuf + "[", c);
      if r.Ok? {
        assert sbuf + "[" + Desc(c).value == sbuf + ("[" + Desc(c).value);
      }
    case Primitive(k) =>
      match PrimitiveCode(k) {
        case Some(ch) => r := Ok(sbuf + [ch]);
        case None => r := Err(BadType(k.name));
      }
    case Reference(n) =>
      r := Ok(sbuf + "L" + Slashed(n) + ";");
      assert sbuf + "L" + Slashed(n) + ";" == sbuf + ("L" + Slashed(n) + ";");
  }

  /** `makeDescriptor(Class[] params, Class retType)`: the buffer loop over the parameters. */
  method MakeDescriptor(params: seq<TypeShape>, retType: Option<TypeShape>) returns (r: Result<string>)
    ensures r == Descriptor(params, retType)
  {
    var sbuf := "(";
    var i := 0;
    while i < |params|
      invariant 0 <= i <= |params|
      invariant ParamsDesc(params[..i]).Ok?
      invariant sbuf == "(" + ParamsDesc(params[..i]).value
    {
      var next := AppendDesc(sbuf, params[i]);
      if next.Err? {
        ParamsDescFirstError(params, i);
        return Err(next.error);
      }
      ParamsDescSnoc(params, i);
      sbuf := next.value;
      i := i + 1;
    }
    assert params[..i] == params;
    sbuf := sbuf + ")";
    if retType.Some? {
      r := AppendDesc(sbuf, retType.value);
    } else {
      r := Ok(sbuf);
    }
  }

  /** `makeDescriptor(Method m)`: the descriptor of a declared method. */
  method MakeMethodDescriptor(m: MethodInfo) returns (r: Result<string>)
    ensures r == MethodDescriptor(m)
  {
    r := MakeDescriptor(m.params, Some(m.returnType));
  }

  /**
    `makeDescriptor(String params, Class retType)`: the given prefix is kept
    as it is and the return type's encoding follows it.
   */
  method MakeDescriptorWithPrefix(params: string, retType: TypeShape) returns (r: Result<string>)
    ensures r.Ok? <==> Encodable(retType)
    ensures r.Ok? ==> |r.value| > |params| && r.value[..|params|] == params
    ensures r.Ok? ==> Desc(retType) == Ok(r.value[|params|..])
    ensures r.Err? ==> r.error == BadType(ElementType(retType).kind.name)
  {
    r := AppendDesc(params, retType);
  }

  /**
    When the parameters before `k` encode and `ps[k]` does not, the parameter
    encoding fails with the error of `ps[k]`: the first bad parameter is the
    one reported.
   */
  lemma {:induction false} ParamsDescFirstError(ps: seq<TypeShape>, k: nat)
    requires k < |ps|
    requires forall j :: 0 <= j < k ==> Encodable(ps[j])
    requires !Encodable(ps[k])
    ensures ParamsDesc(ps) == Err(Desc(ps[k]).error)
    decreases |ps|
  {
    var front := ps[..|ps| - 1];
    if k < |ps| - 1 {
      assert front[k] == ps[k];
      forall j | 0 <= j < k ensures Encodable(front[j]) {
        assert front[j] == ps[j];
      }
      ParamsDescFirstError(front, k);
    } else {
      assert forall j :: 0 <= j < |front| ==> front[j] == ps[j];
    }
  }

  /** Extending the parameters by `ps[i]` appends the encoding of `ps[i]`. */
  lemma ParamsDescSnoc(ps: seq<TypeShape>, i: nat)
    requires i < |ps|
    requires ParamsDesc(ps[..i]).Ok? && Desc(ps[i]).Ok?
    ensures ParamsDesc(ps[..i + 1]) == Ok(ParamsDesc(ps[..i]).value + Desc(ps[i]).value)
  {
    assert ps[..i + 1][..i] == ps[..i];
  }

  /** The parameter encoding of `[p] + ps` is that of `p` followed by that of `ps`. */
  lemma {:induction false} ParamsDescCons(p: TypeShape, ps: seq<TypeShape>)
    requires Encodable(p) && AllEncodable(ps)
    ensures ParamsDesc([p] + ps) == Ok(Desc(p).value + ParamsDesc(ps).value)
    decreases |ps|
  {
    var all := [p] + ps;
    if ps == [] {
      assert all[..|all| - 1] == [];
      assert "" + Desc(p).value == Desc(p).value + "";
    } else {
      var front, last := ps[..|ps| - 1], ps[|ps| - 1];
      assert AllEncodable(front) by {
        assert forall i :: 0 <= i < |front| ==> front[i] == ps[i];
      }
      ParamsDescCons(p, front);
      var dp, df, dl := Desc(p).value, ParamsDesc(front).value, Desc(last).value;
      assert ParamsDesc(ps) == Ok(df + dl);
      assert ParamsDesc(all) == Ok((dp + df) + dl) by {
        assert all[..|all| - 1] == [p] + front;
        assert all[|all| - 1] == last;
      }
      assert (dp + df) + dl == dp + (df + dl);
    }
  }

  /**
    A descriptor is exactly `(`, the parameters' encodings concatenated in
    order, `)`, and then the return type's encoding or nothing when the
    return type is absent.
   */
  lemma {:induction false} DescriptorLayout(ps: seq<TypeShape>, ret: Option<TypeShape>)
    requires Descriptor(ps, ret).Ok?
    ensures var d := Descriptor(ps, ret).value;
            var p := ParamsDesc(ps).value;
            && d[..|p| + 2] == "(" + p + ")"
            && (ret.None? ==> |d| == |p| + 2 && d[|d| - 1] == ')')
            && (ret.Some? ==> d[|p| + 2..] == Desc(ret.value).value)
  {
  }

  /**
    An array of `Dimensions(t)` layers encodes as exactly that many '['
    followed by the encoding of its (non-array) element type.
   */
  lemma {:induction false} ArrayEncoding(t: TypeShape)
    requires Encodable(t)
    ensures var d := Desc(t).value;
            var n := Dimensions(t);
            && |d| > n
            && (forall i :: 0 <= i < n ==> d[i] == '[')
            && d[n] != '['
            && d[n..] == Desc(ElementType(t)).value
  {
    match t
    case ArrayOf(c) =>
      ArrayEncoding(c);
      assert Desc(t).value == "[" + Desc(c).value;
    case Primitive(_) =>
    case Reference(_) =>
  }

  /**
    The primitive table: each of the nine primitive kinds encodes as a single
    character of "VIBJDFCSZ", no two kinds share one, and any other kind is a
    "bad type" error that carries its name.
   */
  lemma PrimitiveEncoding(k: PrimitiveKind, k': PrimitiveKind)
    ensures Desc(Primitive(k)).Ok? ==> |Desc(Primitive(k)).value| == 1 && Desc(Primitive(k)).value[0] in "VIBJDFCSZ"
    ensures k.OtherPrimitive? ==> Desc(Primitive(k)) == Err(BadType(k.name))
    ensures !k.OtherPrimitive? ==> Desc(Primitive(k)).Ok?
    ensures Desc(Primitive(k)).Ok? && Desc(Primitive(k)) == Desc(Primitive(k')) ==> k == k'
  {
  }

  /**
    A reference type encodes as 'L', its name with every '.' turned into '/',
    and ';'. The name part holds no '.' and the encoding ends in ';'.
   */
  lemma ReferenceEncoding(name: string)
    ensures var d := Desc(Reference(name)).value;
            && |d| == |name| + 2
            && d[0] == 'L' && d[|d| - 1] == ';'
            && d[1..|d| - 1] == Slashed(name)
            && '.' !in d[1..|d| - 1]
  {
    var d := Desc(Reference(name)).value;
    assert d[1..|d| - 1] == Slashed(name);
  }

  /** The worked examples: `(I[I)V`, `[[D` and `La/b/C;`. */
  lemma DescriptorExamples()
    ensures Descriptor([Primitive(Int), ArrayOf(Primitive(Int))], Some(Primitive(Void))) == Ok("(I[I)V")
    ensures Desc(ArrayOf(ArrayOf(Primitive(Double)))) == Ok("[[D")
    ensures Desc(Reference("a.b.C")) == Ok("La/b/C;")
    ensures Descriptor([], None) == Ok("()")
  {
    assert Slashed("a.b.C") == "a/b/C";
    assert "L" + "a/b/C" + ";" == "La/b/C;";
    assert PrimitiveCode(Double) == Some('D') && PrimitiveCode(Int) == Some('I') && PrimitiveCode(Void) == Some('V');
    assert Desc(ArrayOf(Primitive(Double))) == Ok("[D") by { assert "[" + "D" == "[D"; }
    assert "[" + "[D" == "[[D";
    var ps := [Primitive(Int), ArrayOf(Primitive(Int))];
    assert ps[..1] == [Primitive(Int)];
    assert ps[..1][..0] == [];
    assert ParamsDesc(ps[..1]) == Ok("I") by { assert "" + "I" == "I"; }
    assert Desc(ps[1]) == Ok("[I") by { assert "[" + "I" == "[I"; }
    assert ParamsDesc(ps) == Ok("I[I") by { assert "I" + "[I" == "I[I"; }
    assert "(" + "I[I" + ")" + "V" == "(I[I)V";
    assert "(" + "" + ")" == "()";
  }
}
