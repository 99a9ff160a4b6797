/**
 * The annotation processor that generates `AutoRequest`: for every method of an
 * interface annotated `@OneHttp` it adds two functions that call the Retrofit
 * service through `SubscriberKt.toSubscribe`. Program elements are an abstract
 * tree (`Element`) and generated functions are values (`FunSpec`); the code
 * generation library and the file output are not modelled.
 */
module HttpProcessor {
  import opened Wrappers
  import opened JvmText

  // ---------------------------------------------------------------------------
  // toKotlinType

  /** `String.toKotlinType()`: the Java names the generated Kotlin must not use, renamed. */
  function ToKotlinType(name: string): string
  {
    if name == "Integer" then "Int"
    else if name == "java.lang" then "kotlin"
    else if name == "java.util" then "kotlin.collections"
    else name
  }

  /** Renaming twice is renaming once: no renamed name is itself renamed. */
  lemma ToKotlinTypeIdempotent(name: string)
    ensures ToKotlinType(ToKotlinType(name)) == ToKotlinType(name)
    ensures ToKotlinType(name) != name ==> name in {"Integer", "java.lang", "java.util"}
  {
  }

  // ---------------------------------------------------------------------------
  // Elements and asClassNameCustomize

  /** `NestingKind` of a type element. */
  datatype NestingKind = TopLevel | Member | Local | Anonymous

  /**
   * A program element: a package, a class or interface (with its nesting kind,
   * simple name and enclosing element), or any other element, such as the
   * method that encloses a local class.
   */
  datatype Element =
    | PackageElement(qualifiedName: string)
    | TypeElement(nesting: NestingKind, simpleName: string, enclosing: Element)
    | OtherElement(enclosing: Element)

  /** KotlinPoet's `ClassName(packageName, simpleNames)`. */
  datatype ClassName = ClassName(packageName: string, simpleNames: seq<string>)

  /** The message of the `require` that rejects local and anonymous classes. */
  const UnexpectedType := "unexpected type testing"

  /** `getPackage(type)`: the first package among the enclosing elements. */
  function PackageOf(e: Element): string
  {
    match e
    case PackageElement(q) => q
    case TypeElement(_, _, enclosing) => PackageOf(enclosing)
    case OtherElement(enclosing) => PackageOf(enclosing)
  }

  /** The nesting kind and simple name of each class in the unbroken run from `e` outwards, innermost first. */
  function TypeChain(e: Element): seq<(NestingKind, string)>
  {
    if e.TypeElement? then [(e.nesting, e.simpleName)] + TypeChain(e.enclosing) else []
  }

  /**
   * The names the `while` loop collects from `e` outwards, innermost first and
   * renamed, or the `require` failure at the first local or anonymous class.
   */
  function InnerNames(e: Element): Result<seq<string>, string>
  {
    match e
    case TypeElement(nesting, name, enclosing) =>
      if nesting != TopLevel && nesting != Member then Failure(UnexpectedType)
      else
        Prepend([ToKotlinType(name)], InnerNames(enclosing))
    case _ => Success([])
  }

  /** `names` put before the collected names, unless collecting failed. */
  function Prepend(names: seq<string>, r: Result<seq<string>, string>): Result<seq<string>, string>
  {
    match r
    case Failure(msg) => Failure(msg)
    case Success(rest) => Success(names + rest)
  }

  lemma PrependTwice(names: seq<string>, more: seq<string>, r: Result<seq<string>, string>)
    ensures Prepend(names, Prepend(more, r)) == Prepend(names + more, r)
    ensures Prepend([], r) == r
  {
    if r.Success? {
      assert names + (more + r.value) == names + more + r.value;
      assert [] + r.value == r.value;
    }
  }

  function Reverse<T>(s: seq<T>): (r: seq<T>)
    ensures |r| == |s| && forall i :: 0 <= i < |s| ==> r[i] == s[|s| - 1 - i]
  {
    if s == [] then [] else Reverse(s[1..]) + [s[0]]
  }

  /** `asClassNameCustomize()` of a type element. */
  function ClassNameOf(t: Element): Result<ClassName, string>
  {
    match InnerNames(t)
    case Failure(msg) => Failure(msg)
    case Success(names) => Success(ClassName(ToKotlinType(PackageOf(t)), Reverse(names)))
  }

  /**
   * The collected names are those of the type chain, innermost first, renamed;
   * collecting fails exactly when some class of the chain is local or anonymous.
   */
  lemma {:induction false} InnerNamesOfChain(e: Element)
    ensures InnerNames(e).Failure? <==>
      exists i :: 0 <= i < |TypeChain(e)| && TypeChain(e)[i].0 in {Local, Anonymous}
    ensures InnerNames(e).Failure? ==> InnerNames(e).error == UnexpectedType
    ensures InnerNames(e).Success? ==>
      var names := InnerNames(e).value;
      |names| == |TypeChain(e)| &&
      forall i :: 0 <= i < |names| ==> names[i] == ToKotlinType(TypeChain(e)[i].1)
  {
    if e.TypeElement? {
      InnerNamesOfChain(e.enclosing);
      var chain := TypeChain(e);
      assert chain == [(e.nesting, e.simpleName)] + TypeChain(e.enclosing);
      if e.nesting == TopLevel || e.nesting == Member {
        if InnerNames(e.enclosing).Failure? {
          var i :| 0 <= i < |TypeChain(e.enclosing)| && TypeChain(e.enclosing)[i].0 in {Local, Anonymous};
          assert chain[i + 1] == TypeChain(e.enclosing)[i];
        } else {
          forall i | 0 <= i < |chain|
            ensures chain[i].0 !in {Local, Anonymous}
          {
            if i > 0 {
              assert chain[i] == TypeChain(e.enclosing)[i - 1];
            }
          }
        }
      } else {
        assert chain[0] == (e.nesting, e.simpleName);
      }
    }
  }

  /**
   * A class name lists the classes outermost first and ends with the type's
   * own simple name; every name and the package are renamed by `ToKotlinType`.
   */
  lemma ClassNameShape(t: Element)
    requires t.TypeElement? && ClassNameOf(t).Success?
    ensures ClassNameOf(t).value.packageName == ToKotlinType(PackageOf(t))
    ensures var names := ClassNameOf(t).value.simpleNames;
      && |names| == |TypeChain(t)|
      && names[|names| - 1] == ToKotlinType(t.simpleName)
      && forall i :: 0 <= i < |names| ==> names[i] == ToKotlinType(TypeChain(t)[|names| - 1 - i].1)
  {
    InnerNamesOfChain(t);
  }

  /** A member class is named by its enclosing class's name followed by its own. */
  lemma NestedClassName(t: Element)
    requires t.TypeElement? && t.enclosing.TypeElement? && ClassNameOf(t).Success?
    ensures ClassNameOf(t.enclosing).Success?
    ensures ClassNameOf(t).value.packageName == ClassNameOf(t.enclosing).value.packageName
    ensures ClassNameOf(t).value.simpleNames == ClassNameOf(t.enclosing).value.simpleNames + [ToKotlinType(t.simpleName)]
  {
    var inner := InnerNames(t.enclosing).value;
    assert Reverse([ToKotlinType(t.simpleName)] + inner) == Reverse(inner) + [ToKotlinType(t.simpleName)] by {
      assert ([ToKotlinType(t.simpleName)] + inner)[1..] == inner;
    }
  }

  /** `java.util.Map.Entry` becomes `kotlin.collections` with the names `Map`, `Entry`. */
  lemma MapEntryClassName()
    ensures ClassNameOf(TypeElement(Member, "Entry", TypeElement(TopLevel, "Map", PackageElement("java.util"))))
         == Success(ClassName("kotlin.collections", ["Map", "Entry"]))
  {
    var map_ := TypeElement(TopLevel, "Map", PackageElement("java.util"));
    var entry := TypeElement(Member, "Entry", map_);
    assert ToKotlinType("Map") == "Map" && ToKotlinType("Entry") == "Entry";
    assert InnerNames(PackageElement("java.util")) == Success([]);
    assert InnerNames(map_) == Prepend(["Map"], Success([]));
    assert ["Map"] + [] == ["Map"] && ["Entry"] + ["Map"] == ["Entry", "Map"];
    assert InnerNames(entry) == Success(["Entry", "Map"]);
    assert Reverse(["Entry", "Map"]) == ["Map", "Entry"];
  }

  /**
   * `TypeElement.asClassNameCustomize()`: walk outwards collecting renamed simple
   * names while the element is a class or interface, reverse them and pair them
   * with the renamed package.
   */
  method AsClassNameCustomize(t: Element) returns (r: Result<ClassName, string>)
    requires t.TypeElement?
    ensures r == ClassNameOf(t)
  {
    var names: seq<string> := [];
    var e := t;
    PrependTwice([], [], InnerNames(t));
    while e.TypeElement?
      invariant InnerNames(t) == Prepend(names, InnerNames(e))
      invariant PackageOf(e) == PackageOf(t)
      decreases e
    {
      if e.nesting != TopLevel && e.nesting != Member {
        return Failure(UnexpectedType);
      }
      PrependTwice(names, [ToKotlinType(e.simpleName)], InnerNames(e.enclosing));
      names := names + [ToKotlinType(e.simpleName)];
      e := e.enclosing;
    }
    assert names + [] == names;
    names := Reverse(names);
    r := Success(ClassName(ToKotlinType(PackageOf(t)), names));
  }

  // ---------------------------------------------------------------------------
  // The generated service call

  /** A method parameter: the text of its type (`asType()`) and its simple name. */
  datatype Parameter = Parameter(typeText: string, simpleName: string)

  /** The argument a leading parameter becomes: its value looked up in `mParams` and converted. */
  function ArgText(p: Parameter): string
  {
    p.typeText + ".valueOf(mParams.get(\"" + p.simpleName + "\")), "
  }

  /** The arguments of `ps`, in order. */
  function ArgsText(ps: seq<Parameter>): string
  {
    if ps == [] then "" else ArgsText(ps[..|ps| - 1]) + ArgText(ps[|ps| - 1])
  }

  /** Every parameter but the last; the last receives `mParams` itself. */
  function Leading(ps: seq<Parameter>): seq<Parameter>
  {
    if ps == [] then [] else ps[..|ps| - 1]
  }

  /** The text before the arguments: the cast of `mService` and the method name. */
  function CallHead(serviceName: string, methodName: string): string
  {
    "(mService as " + serviceName + ")." + methodName + "("
  }

  /** `observableParamStr`: the call of the service method the generated functions make. */
  function CallText(serviceName: string, methodName: string, ps: seq<Parameter>): string
  {
    CallHead(serviceName, methodName) + ArgsText(Leading(ps)) + "mParams)"
  }

  /** The arguments of a prefix are a prefix of the arguments. */
  lemma {:induction false} ArgsTextPrefix(ps: seq<Parameter>, j: nat)
    requires j <= |ps|
    ensures |ArgsText(ps[..j])| <= |ArgsText(ps)|
    ensures ArgsText(ps) == ArgsText(ps[..j]) + ArgsText(ps)[|ArgsText(ps[..j])|..]
  {
    if j < |ps| {
      var n := |ps| - 1;
      assert ps[..j] == ps[..n][..j];
      ArgsTextPrefix(ps[..n], j);
      var a, b := ArgsText(ps[..n][..j]), ArgsText(ps[..n]);
      assert ArgsText(ps) == b + ArgText(ps[n]);
      assert b == a + b[|a|..];
      assert ArgsText(ps)[|a|..] == b[|a|..] + ArgText(ps[n]);
    } else {
      assert ps[..j] == ps;
    }
  }

  /**
   * The call text opens with the cast service and the method name, then holds,
   * in declaration order, `<type>.valueOf(mParams.get("<name>")), ` for every
   * parameter but the last, and closes with `mParams)`.
   */
  lemma CallTextArguments(serviceName: string, methodName: string, ps: seq<Parameter>, i: nat)
    requires i + 1 < |ps|
    ensures OccursAt(CallText(serviceName, methodName, ps), ArgText(ps[i]),
                     |CallHead(serviceName, methodName)| + |ArgsText(ps[..i])|)
  {
    var lead := Leading(ps);
    assert lead[..i + 1][..i] == ps[..i] && lead[..i + 1][i] == ps[i];
    ArgsTextPrefix(lead, i + 1);
    var pre := ArgsText(lead[..i + 1]);
    var head, args, arg := CallHead(serviceName, methodName), ArgsText(ps[..i]), ArgText(ps[i]);
    var rest := ArgsText(lead)[|pre|..];
    assert pre == args + arg;
    assert ArgsText(lead) == pre + rest;
    Regroup(head, args, arg, rest, "mParams)");
    OccursBetween(head + args, arg, rest + "mParams)");
  }

  /** Regrouping a concatenation of five texts. */
  lemma Regroup(a: string, b: string, c: string, d: string, e: string)
    ensures a + ((b + c) + d) + e == (a + b) + c + (d + e)
  {
  }

  /** A text occurs where it is placed between two others. */
  lemma OccursBetween(before: string, sub: string, after: string)
    ensures OccursAt(before + sub + after, sub, |before|)
  {
    assert (before + sub + after)[|before|..|before| + |sub|] == sub;
  }

  /** The call text begins with the cast service and method name and ends with `mParams)`. */
  lemma CallTextEnds(serviceName: string, methodName: string, ps: seq<Parameter>)
    ensures var s := CallText(serviceName, methodName, ps);
      && OccursAt(s, CallHead(serviceName, methodName), 0)
      && OccursAt(s, "mParams)", |s| - 8)
      && (|ps| <= 1 ==> s == CallHead(serviceName, methodName) + "mParams)")
  {
    var s := CallText(serviceName, methodName, ps);
    var head := CallHead(serviceName, methodName);
    assert s[..|head|] == head;
    assert s[|s| - 8..] == "mParams)";
  }

  /** Building `observableParamStr` with a `StringBuilder` and an index loop. */
  method ObservableParamStr(serviceName: string, methodName: string, ps: seq<Parameter>) returns (s: string)
    ensures s == CallText(serviceName, methodName, ps)
  {
    s := "(mService as " + serviceName + ")." + methodName + "(";
    var last := |ps| - 1;
    var i := 0;
    while i < last
      invariant 0 <= i <= |Leading(ps)|
      invariant s == CallHead(serviceName, methodName) + ArgsText(ps[..i])
    {
      assert ps[..i + 1][..i] == ps[..i];
      s := s + ps[i].typeText + ".valueOf(mParams.get(\"" + ps[i].simpleName + "\")), ";
      i := i + 1;
    }
    assert ps[..i] == Leading(ps);
    s := s + "mParams)";
  }

  // ---------------------------------------------------------------------------
  // The ignore rule

  /** The marker annotation's simple name. */
  const IgnoreMarker := "OneHttpIgnore"

  /** Some annotation's type name contains `OneHttpIgnore`. */
  predicate IsIgnored(annotationTypes: seq<string>)
  {
    exists i | 0 <= i < |annotationTypes| :: Contains(annotationTypes[i], IgnoreMarker)
  }

  /** The `run loop@` scan of the annotation mirrors, stopping at the first match. */
  method HasIgnoreAnnotation(annotationTypes: seq<string>) returns (ignored: bool)
    ensures ignored == IsIgnored(annotationTypes)
  {
    for i := 0 to |annotationTypes|
      invariant forall j :: 0 <= j < i ==> !Contains(annotationTypes[j], IgnoreMarker)
    {
      if Contains(annotationTypes[i], IgnoreMarker) {
        return true;
      }
    }
    return false;
  }

  // ---------------------------------------------------------------------------
  // Generated functions

  /** The declared type of a generated function's parameter. */
  datatype ParamType =
    | SuccessCallback(dataType: string)   // (data: <returnClass>) -> Unit
    | ErrorCallback                       // ((t: Throwable) -> Unit)?
    | BooleanFlag                         // Boolean
    | ParamMap                            // ConcurrentHashMap<String?, Any?>
    | ParamMapBlock                       // ConcurrentHashMap<String?, Any?>.() -> Unit
    | ParamPairs                          // vararg Pair<String?, Any?>

  datatype ParamSpec = ParamSpec(name: string, paramType: ParamType, defaultValue: Option<string>)

  /** The visibility modifier a generated function carries. */
  datatype Visibility = Public | Private

  /** A generated function or constructor: its name, parameters, body and visibility. */
  datatype FunSpec = FunSpec(name: string, params: seq<ParamSpec>, body: string, visibility: Visibility)

  /** The private, parameterless primary constructor of `AutoRequest`. */
  const PrivateConstructor := FunSpec("constructor", [], "", Private)

  /** A method of a service interface, as the processor reads it. */
  datatype MethodElement = MethodElement(
    simpleName: string,
    annotationTypes: seq<string>,
    parameters: seq<Parameter>,
    dataType: string)   // the response data type, `asTypeNameCustomize()` of the type argument

  /** An interface annotated `@OneHttp`. */
  datatype Service = Service(qualifiedName: string, methods: seq<MethodElement>)

  /** `params(params)`: replaces the parameter map. */
  const ParamsFromMap := FunSpec("params", [ParamSpec("params", ParamMap, None)], "mParams = params\n return this", Public)

  /** `params { ... }`: a new parameter map filled by the block. */
  const ParamsFromBlock := FunSpec("params", [ParamSpec("block", ParamMapBlock, None)],
    "mParams = object : ConcurrentHashMap<String?, Any?>() { init { block(this) }}\nreturn this", Public)

  /** `params(vararg pairs)`: stores every pair whose key and value are not null. */
  const ParamsFromPairs := FunSpec("params", [ParamSpec("pairs", ParamPairs, None)],
    "pairs.forEach {if (it.first != null && it.second != null) {mParams[it.first] = it.second}}\nreturn this", Public)

  /** The three `params` overloads `AutoRequest` always has. */
  function ParamsOverloads(): seq<FunSpec>
  {
    [ParamsFromMap, ParamsFromBlock, ParamsFromPairs]
  }

  /** The overload with every callback and flag, subscribing to the service call `callText`. */
  function FullOverloadWith(callText: string, m: MethodElement): FunSpec
  {
    FunSpec(m.simpleName,
            [ ParamSpec("onSucc", SuccessCallback(m.dataType), None),
              ParamSpec("onError", ErrorCallback, Some("null")),
              ParamSpec("needLoading", BooleanFlag, Some("true")),
              ParamSpec("overrideErrorSuper", BooleanFlag, Some("true")) ],
            "com.jeahwan.onehttp.SubscriberKt.toSubscribe(" + callText
              + ", onSucc, onError, needLoading, overrideErrorSuper)", Public)
  }

  /** The full overload of a service method. */
  function FullOverload(serviceName: string, m: MethodElement): FunSpec
  {
    FullOverloadWith(CallText(serviceName, m.simpleName, m.parameters), m)
  }

  /** The overload with only `onSucc`, which calls the full one with the defaults. */
  function ShortOverload(m: MethodElement): FunSpec
  {
    FunSpec(m.simpleName, [ParamSpec("onSucc", SuccessCallback(m.dataType), None)],
            m.simpleName + "(onSucc,null,true, true)", Public)
  }

  /** The two functions generated for a method that is not ignored. */
  function Overloads(serviceName: string, m: MethodElement): (fs: seq<FunSpec>)
    ensures |fs| == 2
  {
    [FullOverload(serviceName, m), ShortOverload(m)]
  }

  /** The functions generated for one method: none when it is ignored. */
  function MethodFunctions(serviceName: string, m: MethodElement): seq<FunSpec>
  {
    if IsIgnored(m.annotationTypes) then [] else Overloads(serviceName, m)
  }

  /** The functions generated for the methods of one service, in order. */
  function MethodsFunctions(serviceName: string, ms: seq<MethodElement>): seq<FunSpec>
  {
    if ms == [] then []
    else
      MethodsFunctions(serviceName, ms[..|ms| - 1]) + MethodFunctions(serviceName, ms[|ms| - 1])
  }

  /** The functions generated for every service, in order. */
  function ServicesFunctions(services: seq<Service>): seq<FunSpec>
  {
    if services == [] then []
    else
      var s := services[|services| - 1];
      ServicesFunctions(services[..|services| - 1]) + MethodsFunctions(s.qualifiedName, s.methods)
  }

  /** The methods that are not ignored, in order. */
  function Kept(ms: seq<MethodElement>): (kept: seq<MethodElement>)
    ensures |kept| <= |ms|
  {
    if ms == [] then []
    else Kept(ms[..|ms| - 1]) + (if IsIgnored(ms[|ms| - 1].annotationTypes) then [] else [ms[|ms| - 1]])
  }

  /**
   * Every kept method yields exactly two functions, the full and the short
   * overload, both with the method's name; ignored methods yield none.
   */
  lemma {:induction false} MethodsFunctionsPairs(serviceName: string, ms: seq<MethodElement>)
    ensures |MethodsFunctions(serviceName, ms)| == 2 * |Kept(ms)|
    ensures forall i :: 0 <= i < |Kept(ms)| ==>
      && MethodsFunctions(serviceName, ms)[2 * i] == FullOverload(serviceName, Kept(ms)[i])
      && MethodsFunctions(serviceName, ms)[2 * i + 1] == ShortOverload(Kept(ms)[i])
  {
    if ms != [] {
      MethodsFunctionsPairs(serviceName, ms[..|ms| - 1]);
    }
  }

  /** The kept methods are exactly the methods of the service that are not ignored. */
  lemma {:induction false} KeptAreNotIgnored(ms: seq<MethodElement>)
    ensures forall m :: m in Kept(ms) <==> m in ms && !IsIgnored(m.annotationTypes)
  {
    if ms != [] {
      var n := |ms| - 1;
      KeptAreNotIgnored(ms[..n]);
      assert ms == ms[..n] + [ms[n]];
    }
  }

  /** A single method is kept exactly when it is not ignored. */
  lemma KeptOne(m: MethodElement)
    ensures Kept([m]) == if IsIgnored(m.annotationTypes) then [] else [m]
  {
    assert [m][..0] == [];
  }

  /**
   * `Kept` is the order-preserving filter: it distributes over concatenation,
   * so the kept methods keep their relative order.
   */
  lemma {:induction false} KeptConcat(a: seq<MethodElement>, b: seq<MethodElement>)
    ensures Kept(a + b) == Kept(a) + Kept(b)
  {
    if b == [] {
      assert a + b == a;
    } else {
      var p, m := b[..|b| - 1], b[|b| - 1];
      var last := if IsIgnored(m.annotationTypes) then [] else [m];
      calc {
        Kept(a + b);
        { assert a + b == (a + p) + [m]; }
        Kept((a + p) + [m]);
        { KeptSnoc(a + p, m); }
        Kept(a + p) + last;
        { KeptConcat(a, p); }
        Kept(a) + Kept(p) + last;
        { KeptSnoc(p, m); assert p + [m] == b; }
        Kept(a) + Kept(b);
      }
    }
  }

  /** Appending one method appends it to the kept ones exactly when it is not ignored. */
  lemma KeptSnoc(ms: seq<MethodElement>, m: MethodElement)
    ensures Kept(ms + [m]) == Kept(ms) + if IsIgnored(m.annotationTypes) then [] else [m]
  {
    assert (ms + [m])[..|ms|] == ms;
  }

  /** Removing the ignored methods changes nothing in the output. */
  lemma {:induction false} IgnoredMethodsContributeNothing(serviceName: string, ms: seq<MethodElement>)
    ensures MethodsFunctions(serviceName, Kept(ms)) == MethodsFunctions(serviceName, ms)
  {
    if ms != [] {
      var n := |ms| - 1;
      IgnoredMethodsContributeNothing(serviceName, ms[..n]);
      var k := Kept(ms[..n]);
      if IsIgnored(ms[n].annotationTypes) {
        assert Kept(ms) == k;
        assert MethodsFunctions(serviceName, ms) == MethodsFunctions(serviceName, ms[..n]) + [];
      } else {
        var k2 := k + [ms[n]];
        assert Kept(ms) == k2;
        assert k2[..|k|] == k && k2[|k2| - 1] == ms[n];
        assert MethodsFunctions(serviceName, k2) == MethodsFunctions(serviceName, k) + MethodFunctions(serviceName, ms[n]);
      }
    }
  }

  /** Each generated function (after the `params` overloads) bears the name of a kept method. */
  lemma GeneratedNames(serviceName: string, ms: seq<MethodElement>, j: nat)
    requires j < |MethodsFunctions(serviceName, ms)|
    ensures exists m :: m in ms && !IsIgnored(m.annotationTypes) && MethodsFunctions(serviceName, ms)[j].name == m.simpleName
  {
    MethodsFunctionsPairs(serviceName, ms);
    KeptAreNotIgnored(ms);
    var m := Kept(ms)[j / 2];
    assert m in Kept(ms);
  }

  /** The short overload calls the full one with the full one's default values. */
  lemma ShortOverloadUsesDefaults(serviceName: string, m: MethodElement)
    ensures var full := FullOverload(serviceName, m);
      && full.name == ShortOverload(m).name
      && ShortOverload(m).params == full.params[..1]
      && (forall p :: p in full.params[1..] ==> p.defaultValue.Some?)
      && ShortOverload(m).body == full.name + "(onSucc," + full.params[1].defaultValue.value + ","
           + full.params[2].defaultValue.value + ", " + full.params[3].defaultValue.value + ")"
  {
  }

  /** KotlinPoet's `TypeSpec.Builder` for `AutoRequest`, as far as its functions go. */
  class TypeBuilder {
    var functions: seq<FunSpec>

    constructor ()
      ensures functions == []
    {
      functions := [];
    }

    /** `addFunction(f)`. */
    method AddFunction(f: FunSpec)
      modifies this
      ensures functions == old(functions) + [f]
    {
      functions := functions + [f];
    }
  }

  /** The body of the inner loop of `process`: skip an ignored method, else add its two overloads. */
  method AddMethodFunctions(requestClass: TypeBuilder, serviceName: string, method_: MethodElement)
    modifies requestClass
    ensures requestClass.functions == old(requestClass.functions) + MethodFunctions(serviceName, method_)
  {
    var ignored := HasIgnoreAnnotation(method_.annotationTypes);
    if !ignored {
      var observableParamStr := ObservableParamStr(serviceName, method_.simpleName, method_.parameters);
      requestClass.AddFunction(FullOverloadWith(observableParamStr, method_));
      requestClass.AddFunction(ShortOverload(method_));
    }
  }

  lemma MethodsFunctionsStep(serviceName: string, ms: seq<MethodElement>, i: nat)
    requires i < |ms|
    ensures MethodsFunctions(serviceName, ms[..i + 1]) == MethodsFunctions(serviceName, ms[..i]) + MethodFunctions(serviceName, ms[i])
  {
    assert ms[..i + 1][..i] == ms[..i];
  }

  /** The inner loop of `process` over one service's methods. */
  method AddServiceFunctions(requestClass: TypeBuilder, service: Service)
    modifies requestClass
    ensures requestClass.functions == old(requestClass.functions) + MethodsFunctions(service.qualifiedName, service.methods)
  {
    var ms := service.methods;
    ghost var start := requestClass.functions;
    assert ms[..0] == [];
    assert start + [] == start;
    for i := 0 to |ms|
      invariant requestClass.functions == start + MethodsFunctions(service.qualifiedName, ms[..i])
    {
      MethodsFunctionsStep(service.qualifiedName, ms, i);
      AddMethodFunctions(requestClass, service.qualifiedName, ms[i]);
    }
    assert ms[..|ms|] == ms;
  }

  /** The three `params` overloads added before the services are visited. */
  method AddParamsOverloads(requestClass: TypeBuilder)
    modifies requestClass
    ensures requestClass.functions == old(requestClass.functions) + ParamsOverloads()
  {
    requestClass.AddFunction(ParamsFromMap);
    requestClass.AddFunction(ParamsFromBlock);
    requestClass.AddFunction(ParamsFromPairs);
  }

  lemma ServicesFunctionsStep(services: seq<Service>, i: nat)
    requires i < |services|
    ensures ServicesFunctions(services[..i + 1])
         == ServicesFunctions(services[..i]) + MethodsFunctions(services[i].qualifiedName, services[i].methods)
  {
    assert services[..i + 1][..i] == services[..i];
  }

  /** The outer loop of `process`, over the `@OneHttp` interfaces. */
  method AddAllServiceFunctions(requestClass: TypeBuilder, services: seq<Service>)
    modifies requestClass
    ensures requestClass.functions == old(requestClass.functions) + ServicesFunctions(services)
  {
    ghost var start := requestClass.functions;
    assert services[..0] == [];
    assert start + [] == start;
    for i := 0 to |services|
      invariant requestClass.functions == start + ServicesFunctions(services[..i])
    {
      ServicesFunctionsStep(services, i);
      AddServiceFunctions(requestClass, services[i]);
    }
    assert services[..|services|] == services;
  }

  /**
   * `process`: the `AutoRequest` class receives its private constructor, the
   * three `params` overloads, then two functions for every method that is not ignored, service by service.
   */
  method Process(services: seq<Service>) returns (requestClass: TypeBuilder)
    ensures fresh(requestClass)
    ensures requestClass.functions == [PrivateConstructor] + ParamsOverloads() + ServicesFunctions(services)
  {
    requestClass := new TypeBuilder();
    requestClass.AddFunction(PrivateConstructor);
    AddParamsOverloads(requestClass);
    AddAllServiceFunctions(requestClass, services);
  }
}
