# javassist `RuntimeSupport`: descriptor encoder and method locator

This project models the part of `javassist.util.proxy.RuntimeSupport` that
classes generated by the proxy factory call at run time, and proves
properties of it. The model has three parts.

- **Descriptor encoder** (`makeDescriptor` ×3, `makeDesc`). It writes the
  JVM method descriptor of a parameter list and a return type: `(`, the
  parameters' field descriptors, `)`, and then the return type's field
  descriptor. Arrays encode as `[` and their component. The nine primitives
  encode as `V I B J D F C S Z`. A reference type encodes as `L`, its binary
  name with `.` replaced by `/`, and `;`. This is the format of sections
  4.3.2, 4.3.3 and 4.2.1 of The Java Virtual Machine Specification. Any
  other primitive class is a "bad type" error. A reader for the same grammar
  is the encoder's partner: it shows that descriptors are canonical keys.
- **Method locator** (`findMethod2`, `findMethod`, `findSuperMethod2`,
  `searchInterfaces`, `findSuperClassMethod`, `findSuperMethod`, `error`). It
  runs a depth-first search for a method with a given name and descriptor.
  The search covers a finite, acyclic graph of classes and interfaces.
  - Each node holds its declared methods, an optional superclass and an
    ordered list of interfaces.
  - A class is named by its rank: every superclass or interface link points
    to a smaller rank.
  - The search order is specified as a list of classes (`Visits`,
    `SuperSearchOrder`) scanned for the first outcome that is not `Missing`.
  - The Java code's loops and recursion are methods proved equal to that
    specification.
- **Paired resolver** (both `find2Methods` overloads). It stores the
  superclass-side method at `methods[index]` and the proxy's own method at
  `methods[index + 1]` of a caller's array. It is a method with
  `modifies methods`, specified by the pure function `Find2Effect`.

Errors the Java code throws are values here:
- `Failure.NotFound(class, name, desc)` is the `RuntimeException` from
  `error`.
- `Failure.BadType(name)` is the exception from `makeDesc`.
- `Failure.IndexOutOfBounds(i)` is the array store failing.

A search step yields `Found`, `Missing` (Java `null`) or `Raised`. `Raised` is
a bad-type exception thrown by `makeDescriptor` while descriptors are being
compared. It leaves the whole search at once.

The interface order is the one the Java code follows. Every class on the
superclass chain is checked before any interface (`ChainBeforeInterfaces`).
After that come the interface searches of every chain member. The topmost
ancestor's interfaces are searched first and the queried class's own
interfaces last (`SuperSearchSplit`). So the interfaces of every ancestor are
searched, not only those of the queried class.

Files:
- `java_types.dfy`: the types, errors and result wrappers.
- `descriptors.dfy`: the encoder.
- `descriptor_parser.dfy`: the reader and the round trip.
- `class_hierarchy.dfy`: the graph and the search specification.
- `method_locator.dfy`: the Java lookups as methods.
- `paired_resolver.dfy`: `find2Methods`.
- `lookup_scenarios.dfy`: worked hierarchies.

## Model

| member | source | states |
|---|---|---|
| Descriptors.Desc | src/main/javassist/util/proxy/RuntimeSupport.java:222-252 | The field descriptor of a type. It fails exactly when the element type is a primitive outside the nine-entry table. The error names that primitive. A successful encoding starts with `[`, `L` or a primitive code. |
| Descriptors.ParamsDesc | src/main/javassist/util/proxy/RuntimeSupport.java:200-201 | The parameters' encodings, concatenated. It succeeds exactly when every parameter can be encoded; otherwise the error is a bad type. |
| Descriptors.Descriptor | src/main/javassist/util/proxy/RuntimeSupport.java:197-208 | It succeeds exactly when all parameters and the present return type can be encoded. The result starts with `(` and has at least two characters. A failure is a bad type. |
| Descriptors.AppendDesc | src/main/javassist/util/proxy/RuntimeSupport.java:222-252 | `makeDesc` appends exactly the type's field descriptor to the buffer. On a bad type the result is that error, with no partial text. |
| Descriptors.MakeDescriptor | src/main/javassist/util/proxy/RuntimeSupport.java:197-208 | The buffer loop over the parameters, then `)`, then the return type (when it is not `null`), equals `Descriptor`. |
| Descriptors.MakeMethodDescriptor | src/main/javassist/util/proxy/RuntimeSupport.java:186-189 | A reflected method's descriptor is `Descriptor` of its parameter types and its return type. |
| Descriptors.MakeDescriptorWithPrefix | src/main/javassist/util/proxy/RuntimeSupport.java:216-220 | The given prefix is kept unchanged, and exactly the return type's encoding follows it. It fails exactly when the return type cannot be encoded, with that bad type. |
| Descriptors.ParamsDescFirstError | src/main/javassist/util/proxy/RuntimeSupport.java:200-201 | The first parameter that cannot be encoded is the one whose error is reported. |
| Descriptors.ParamsDescCons | src/main/javassist/util/proxy/RuntimeSupport.java:200-201 | The encoding of `p` followed by `ps` is `p`'s encoding followed by that of `ps`: the parameters are written in order. |
| Descriptors.DescriptorLayout | src/main/javassist/util/proxy/RuntimeSupport.java:197-208 | A descriptor is `(` + the parameters' encodings + `)`, followed by the return type's encoding. A `null` return type leaves the `)` as the last character. |
| Descriptors.ArrayEncoding | src/main/javassist/util/proxy/RuntimeSupport.java:223-226 | An n-dimensional array encodes as exactly n `[` characters, followed by the encoding of its non-array element type. |
| Descriptors.PrimitiveEncoding | src/main/javassist/util/proxy/RuntimeSupport.java:227-247 | The nine primitives encode as single, distinct characters of `VIBJDFCSZ`. Any other primitive is `BadType` carrying its name, never a partial encoding. |
| Descriptors.ReferenceEncoding | src/main/javassist/util/proxy/RuntimeSupport.java:249-251 | A reference type encodes as `L` + the name with every `.` turned into `/` + `;`. The name part holds no `.`. |
| Descriptors.DescriptorExamples | src/main/javassist/util/proxy/RuntimeSupport.java:197-252 | Concrete encodings: `(I[I)V`, `[[D`, `La/b/C;` and `()`. |
| DescriptorParser.KindOfCode | src/main/javassist/util/proxy/RuntimeSupport.java:227-247 | Decoding a primitive code gives a kind that the table maps back to that code. |
| DescriptorParser.FieldRoundTrip | src/main/javassist/util/proxy/RuntimeSupport.java:222-252 | Reading a field encoding back, followed by any text, gives the original type and leaves that text. Class names must be binary names. |
| DescriptorParser.ParamsRoundTrip | src/main/javassist/util/proxy/RuntimeSupport.java:197-203 | Reading the parameter encoding back, up to `)`, gives the parameter list. |
| DescriptorParser.MethodRoundTrip | src/main/javassist/util/proxy/RuntimeSupport.java:197-208 | Reading a method descriptor back gives the parameter types and the return type, or no return type for `null`. |
| DescriptorParser.DescriptorInjective | src/main/javassist/util/proxy/RuntimeSupport.java:176-177 | Two method shapes have equal descriptors only when they have equal parameter and return types. So comparing by descriptor string compares shapes. |
| DescriptorParser.FieldInjective | src/main/javassist/util/proxy/RuntimeSupport.java:222-252 | Two types with equal field descriptors are equal. |
| DescriptorParser.DottedSlashed | src/main/javassist/util/proxy/RuntimeSupport.java:250 | Turning `/` back into `.` undoes the internal-form conversion of a binary name. |
| ClassHierarchy.DeclaredFrom | src/main/javassist/util/proxy/RuntimeSupport.java:172-181 | A method found from position `i` on is one that `c` itself declares, at position `i` or later. A raised error is a bad type. |
| ClassHierarchy.Visits | src/main/javassist/util/proxy/RuntimeSupport.java:145-158 | The search from `c` examines `c` first, and only classes ranked at or below `c`. |
| ClassHierarchy.InterfaceVisits | src/main/javassist/util/proxy/RuntimeSupport.java:160-170 | The interface search of `c` examines only classes ranked strictly below `c`. |
| ClassHierarchy.ScanClasses | src/main/javassist/util/proxy/RuntimeSupport.java:145-170 | A method found by scanning a list of classes is owned by a class on that list. A raised error is a bad type. |
| ClassHierarchy.Chain | src/main/javassist/util/proxy/RuntimeSupport.java:150-155 | The superclass chain starts at `c` and climbs only to lower-ranked classes. |
| ClassHierarchy.SuperSearchOrder | src/main/javassist/util/proxy/RuntimeSupport.java:129-133 | `findSuperClassMethod(c)` examines only classes ranked strictly below `c`. |
| ClassHierarchy.DeclaredSearchFindsFirst | src/main/javassist/util/proxy/RuntimeSupport.java:172-181 | Suppose the `k`-th declared method is the first that matches, and no earlier method with that name fails to encode. Then `findMethod2` returns the `k`-th method: the first match in declaration order. |
| ClassHierarchy.DeclaredSearchMissing | src/main/javassist/util/proxy/RuntimeSupport.java:172-181 | `findMethod2` returns `null` exactly when no declared method matches and none with that name fails to encode. |
| ClassHierarchy.DeclaredSearchFound | src/main/javassist/util/proxy/RuntimeSupport.java:172-181 | What `findMethod2` returns is declared by the class itself, never inherited, and matches both name and descriptor. |
| ClassHierarchy.DeclaredLookupNotFound | src/main/javassist/util/proxy/RuntimeSupport.java:103-109 | `findMethod` fails with a not-found error about the queried class, name and descriptor exactly when that class declares no candidate. Its result is owned by that class. |
| ClassHierarchy.ScanAppend | src/main/javassist/util/proxy/RuntimeSupport.java:145-170 | Scanning `a + b` is scanning `a`, and scanning `b` only if `a` yields nothing (the early returns). |
| ClassHierarchy.ScanFindsFirst | src/main/javassist/util/proxy/RuntimeSupport.java:145-170 | The scan yields the outcome of the first class along the order whose declared search is not `null`. |
| ClassHierarchy.ScanMissing | src/main/javassist/util/proxy/RuntimeSupport.java:145-170 | The scan yields `null` exactly when every class along the order does. |
| ClassHierarchy.ScanHit | src/main/javassist/util/proxy/RuntimeSupport.java:145-170 | A scan that yields something names the position it came from; every earlier class yielded `null`. |
| ClassHierarchy.RevisitHarmless | src/main/javassist/util/proxy/RuntimeSupport.java:160-170 | An interface reached a second time (a diamond) cannot change the outcome. |
| ClassHierarchy.VisitsSplit | src/main/javassist/util/proxy/RuntimeSupport.java:145-158 | `findSuperMethod2(c)` examines the whole superclass chain of `c` first. It then examines the interfaces of the chain's classes, topmost ancestor first. |
| ClassHierarchy.ChainStep | src/main/javassist/util/proxy/RuntimeSupport.java:150-155 | The chain above `c` is its superclass's chain. The superclass's interfaces are searched before `c`'s own. |
| ClassHierarchy.SuperSearchSplit | src/main/javassist/util/proxy/RuntimeSupport.java:129-133 | `findSuperClassMethod(c)` examines `c`'s proper superclass chain, then the interfaces of the chain, from the topmost ancestor down to `c`'s own. |
| ClassHierarchy.ChainBeforeInterfaces | src/main/javassist/util/proxy/RuntimeSupport.java:129-138 | Any class on the proper superclass chain takes precedence over every interface. Interfaces are consulted only when the whole chain yields `null`. |
| ClassHierarchy.NearestSuperclassWins | src/main/javassist/util/proxy/RuntimeSupport.java:129-138 | The nearest superclass that declares a match supplies the result. |
| ClassHierarchy.SuperLookupFound | src/main/javassist/util/proxy/RuntimeSupport.java:129-138 | The inherited lookup never returns a method of `c` itself. It returns a lower-ranked class's declared method that is on the search order and matches the query. |
| ClassHierarchy.SuperLookupNotFound | src/main/javassist/util/proxy/RuntimeSupport.java:129-143 | A not-found failure names the original class, name and descriptor, not an intermediate node. It happens exactly when every class on the search order yields `null`. |
| MethodLocator.FindMethod2 | src/main/javassist/util/proxy/RuntimeSupport.java:172-181 | The early-return loop equals the declared-only search. The descriptor is made only when the name matches. |
| MethodLocator.FindMethod | src/main/javassist/util/proxy/RuntimeSupport.java:103-109 | Equals the declared lookup: `null` becomes `NotFound` about the queried class. A result is owned by that class. |
| MethodLocator.FindSuperMethod2 | src/main/javassist/util/proxy/RuntimeSupport.java:145-158 | The recursion (own methods, then superclass, then interfaces) equals scanning `Visits(c)`. |
| MethodLocator.SearchInterfaces | src/main/javassist/util/proxy/RuntimeSupport.java:160-170 | The loop over the interfaces equals scanning their searches in declaration order. |
| MethodLocator.FindSuperClassMethod | src/main/javassist/util/proxy/RuntimeSupport.java:129-138 | Equals the inherited lookup. A result is owned by a class ranked below `c`. |
| MethodLocator.FindMethodOf | src/main/javassist/util/proxy/RuntimeSupport.java:89-95 | The deprecated `Object` overload is the declared lookup on the object's class. |
| MethodLocator.FindSuperMethod | src/main/javassist/util/proxy/RuntimeSupport.java:117-121 | The deprecated `Object` overload is the inherited lookup on the object's class. |
| PairedResolver.NextIndex | src/main/javassist/util/proxy/RuntimeSupport.java:56 | `index + 1` in 32-bit arithmetic. It is `index + 1` below the largest `int`, and negative at the largest `int`. |
| PairedResolver.Find2Effect | src/main/javassist/util/proxy/RuntimeSupport.java:52-59 | Only slots `index` and `index + 1` can change. The call succeeds exactly when both lookups succeed and both slots are in bounds; then the slots hold the superclass-side and this-side results. A failing this-side lookup leaves the array untouched. A failed call that changed the array did so after the this-side lookup succeeded. |
| PairedResolver.Find2Methods | src/main/javassist/util/proxy/RuntimeSupport.java:52-59 | The in-place array update and outcome are `Find2Effect` of the old contents. |
| PairedResolver.Find2MethodsOf | src/main/javassist/util/proxy/RuntimeSupport.java:71-78 | The deprecated `Object` overload has the same effect on the object's class. |
| LookupScenarios.OverrideScenario | src/main/javassist/util/proxy/RuntimeSupport.java:103-138 | `Sub` overrides `Base.foo()V`. The inherited lookup from `Sub` gives `Base`'s method, while the declared lookup gives `Sub`'s. |
| LookupScenarios.DiamondOrder | src/main/javassist/util/proxy/RuntimeSupport.java:145-170 | In a diamond of interfaces, the search order reaches the shared interface once through each branch. |
| LookupScenarios.DiamondFound | src/main/javassist/util/proxy/RuntimeSupport.java:129-138 | The method declared by the shared interface is found through the first branch. |
| LookupScenarios.DiamondNotFound | src/main/javassist/util/proxy/RuntimeSupport.java:129-143 | A method declared nowhere fails with a not-found error about the queried class. |

## Left out

- `DefaultMethodHandler` and `default_interceptor`
  (`RuntimeSupport.java:31-43`) are left out. They only make a reflective
  `Method.invoke` call, with no logic of their own.
- `makeSerializedProxy` (`RuntimeSupport.java:261-273`) is left out. It is
  serialization glue: `instanceof` dispatch and calls into `ProxyFactory`
  and `SerializedProxy`, which are not part of this model.
- `SecurityActions.getDeclaredMethods` is privileged reflection and is not
  part of this model. A class node's `declaredMethods` sequence stands for
  the array it returns, in the order it returns them.
- `Class.getSuperclass`, `getInterfaces`, `getName`, `isArray` and
  `isPrimitive` are reflection. They are replaced by the fields of
  `ClassNode` and the shape of `TypeShape`. A `Method` object is a
  `MethodRef` (declaring class and position).
- Class identity is a rank in a finite graph. Graphs with cycles cannot be
  expressed; the JVM rejects circular class hierarchies anyway.
- Exception message text (`"not found name:desc in cls"`, `"bad type: …"`)
  is not modelled. Errors carry their data instead.
- A `null` `methods` array, `null` class or `null` name, and the
  `NullPointerException`s they would cause, are not modelled.
- MethodLocator.FindSuperClassMethod requires the class to have a
  superclass. The Java code dereferences `getSuperclass()` unchecked, so the
  `NullPointerException` for a root class or an interface is not modelled.
- DescriptorParser.MethodRoundTrip needs class names that are binary names,
  with no `;` and no `/`. For other names the encoder's output can be
  ambiguous, and only the encoder's properties are stated.
- The deprecated `Object self` overloads are modelled through `Instance`,
  which carries only the object's runtime class, because `getClass()` is all
  they use.
