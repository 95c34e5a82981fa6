/** The extension that replaces EJB interceptor bindings (@Interceptors) by
    the wrapper binding @EjbInterceptorWrapper, registers the rewritten
    interceptor descriptors in the shared repository, and adds @Inject to
    the dependencies of CDI interceptors (@Interceptor). */
module InterceptorExtension {
  import opened Meta
  import opened OrderedSet
  import opened TypeBuilder
  import opened InjectionHelper
  import opened BaseExtension
  import Invocation
  import opened EjbInterceptorWrapperImpl

  /** `createModifiedInterceptorBindings(value)`: the rewritten descriptor of
      each listed class, in order, each once; the first rewrite that fails
      ends it. */
  function ModifiedBindings(classes: ClassId -> AnnotatedType, cs: seq<ClassId>): Result<seq<AnnotatedType>, Failure> {
    if cs == [] then Success([])
    else
      match ModifiedBindings(classes, cs[..|cs| - 1])
      case Failure(e) => Failure(e)
      case Success(s) =>
        match RawClassRewrite(classes, cs[|cs| - 1])
        case Failure(e) => Failure(e)
        case Success(t) => Success(Add(s, t))
  }

  /** One more listed class: its rewrite is added, or its failure ends the bindings. */
  lemma ModifiedBindingsNext(classes: ClassId -> AnnotatedType, cs: seq<ClassId>, k: nat, s: seq<AnnotatedType>, r: Result<AnnotatedType, Failure>)
    requires k < |cs| && ModifiedBindings(classes, cs[..k]) == Success(s) && r == RawClassRewrite(classes, cs[k])
    ensures ModifiedBindings(classes, cs[..k + 1]) == if r.Failure? then Failure(r.error) else Success(Add(s, r.value))
  {
    assert cs[..k + 1][..k] == cs[..k];
  }

  /** The classes the descriptors of `s` describe. */
  function ClassesOf(s: seq<AnnotatedType>): seq<ClassId> {
    seq(|s|, i requires 0 <= i < |s| => s[i].javaClass)
  }

  /** `cs[i]` is the first listed class whose rewrite fails, failing with `e`. */
  predicate FirstFailingClass(classes: ClassId -> AnnotatedType, cs: seq<ClassId>, i: nat, e: Failure) {
    && i < |cs|
    && RawClassRewrite(classes, cs[i]) == Failure(e)
    && forall j :: 0 <= j < i ==> RawClassRewrite(classes, cs[j]).Success?
  }

  /** The bindings hold each listed class once, in order of first listing,
      as its rewritten descriptor. */
  lemma {:induction false} ModifiedBindingsSpec(classes: ClassId -> AnnotatedType, cs: seq<ClassId>)
    requires Reflective(classes)
    requires ModifiedBindings(classes, cs).Success?
    ensures NoDuplicates(ModifiedBindings(classes, cs).value)
    ensures ClassesOf(ModifiedBindings(classes, cs).value) == FromSeq(cs)
    ensures forall t :: t in ModifiedBindings(classes, cs).value ==> RawClassRewrite(classes, t.javaClass) == Success(t)
  {
    if cs != [] {
      var k := |cs| - 1;
      var init := cs[..k];
      var c := cs[k];
      assert cs == init + [c];
      ModifiedBindingsSpec(classes, init);
      FromSeqSnoc(init, c);
      var s := ModifiedBindings(classes, init).value;
      var t := RawClassRewrite(classes, c).value;
      RawClassRewriteClass(classes, c);
      ClassesOfAdd(s, t);
    }
  }

  /** When the class of a descriptor decides the descriptor, adding a
      descriptor adds its class. */
  lemma ClassesOfAdd(s: seq<AnnotatedType>, t: AnnotatedType)
    requires forall u :: u in s && u.javaClass == t.javaClass ==> u == t
    ensures ClassesOf(Add(s, t)) == Add(ClassesOf(s), t.javaClass)
  {
    if t.javaClass in ClassesOf(s) {
      var j :| 0 <= j < |s| && ClassesOf(s)[j] == t.javaClass;
      assert s[j] in s;
    }
  }

  lemma RawClassRewriteClass(classes: ClassId -> AnnotatedType, c: ClassId)
    requires Reflective(classes) && RawClassRewrite(classes, c).Success?
    ensures RawClassRewrite(classes, c).value.javaClass == c
  {
  }

  /** The bindings fail exactly when the rewrite of some listed class
      fails, and then with the failure of the first such class. */
  lemma {:induction false} ModifiedBindingsFailure(classes: ClassId -> AnnotatedType, cs: seq<ClassId>)
    ensures ModifiedBindings(classes, cs).Failure? <==> exists c :: c in cs && RawClassRewrite(classes, c).Failure?
    ensures ModifiedBindings(classes, cs).Failure? ==>
      exists i :: FirstFailingClass(classes, cs, i, ModifiedBindings(classes, cs).error)
  {
    if cs != [] {
      var k := |cs| - 1;
      var init := cs[..k];
      var c := cs[k];
      assert cs == init + [c];
      ModifiedBindingsFailure(classes, init);
      match ModifiedBindings(classes, init)
      case Failure(e) =>
        var i :| FirstFailingClass(classes, init, i, e);
        assert FirstFailingClass(classes, cs, i, e);
      case Success(_) =>
        if RawClassRewrite(classes, c).Failure? {
          assert FirstFailingClass(classes, cs, k, RawClassRewrite(classes, c).error);
        } else {
          forall x | x in cs ensures RawClassRewrite(classes, x).Success? {
            if x != c { assert x in init; }
          }
        }
    }
  }

  /** A failure ends the bindings: the classes listed after it are not read. */
  lemma {:induction false} ModifiedBindingsStopped(classes: ClassId -> AnnotatedType, cs: seq<ClassId>, k: nat)
    requires k <= |cs| && ModifiedBindings(classes, cs[..k]).Failure?
    ensures ModifiedBindings(classes, cs) == ModifiedBindings(classes, cs[..k])
    decreases |cs| - k
  {
    if k < |cs| {
      assert cs[..k + 1][..k] == cs[..k];
      ModifiedBindingsStopped(classes, cs, k + 1);
    } else {
      assert cs[..k] == cs;
    }
  }

  /** The annotations of an element whose @Interceptors gives way to the
      wrapper binding. */
  function Wrapped(a: Annotations): Annotations {
    a.WithoutInterceptors().With(EjbInterceptorWrapper)
  }

  predicate MethodIntercepted(t: AnnotatedType, m: MethodId) {
    t.MethodAnns(m).interceptors.Some?
  }

  /** The method annotations of `t` once the methods of `ms` carrying
      @Interceptors have been rewritten. */
  function WrapMethods(t: AnnotatedType, ms: seq<MethodId>): map<MethodId, Annotations> {
    map m | m in t.methodAnnotations ::
      if m in ms && MethodIntercepted(t, m) then Wrapped(t.methodAnnotations[m]) else t.methodAnnotations[m]
  }

  /** The method-level bindings built while visiting `ms`: each method of
      `ms` carrying @Interceptors maps to its own bindings; the first failure
      ends the pass. */
  function MethodLevelBindings(classes: ClassId -> AnnotatedType, t: AnnotatedType, ms: seq<MethodId>): Result<map<MethodId, seq<AnnotatedType>>, Failure> {
    if ms == [] then Success(map[])
    else
      var m := ms[|ms| - 1];
      match MethodLevelBindings(classes, t, ms[..|ms| - 1])
      case Failure(e) => Failure(e)
      case Success(mp) =>
        if MethodIntercepted(t, m) then
          match ModifiedBindings(classes, t.MethodAnns(m).interceptors.value)
          case Failure(e) => Failure(e)
          case Success(s) => Success(mp[m := s])
        else Success(mp)
  }

  lemma {:induction false} MethodLevelBindingsStopped(classes: ClassId -> AnnotatedType, t: AnnotatedType, ms: seq<MethodId>, k: nat)
    requires k <= |ms| && MethodLevelBindings(classes, t, ms[..k]).Failure?
    ensures MethodLevelBindings(classes, t, ms) == MethodLevelBindings(classes, t, ms[..k])
    decreases |ms| - k
  {
    if k < |ms| {
      assert ms[..k + 1][..k] == ms[..k];
      MethodLevelBindingsStopped(classes, t, ms, k + 1);
    } else {
      assert ms[..k] == ms;
    }
  }

  /** The classes listed by the @Interceptors of `t`, at class level and on
      the methods of `ms`. */
  predicate Listed(t: AnnotatedType, ms: seq<MethodId>, c: ClassId) {
    || (t.classAnnotations.interceptors.Some? && c in t.classAnnotations.interceptors.value)
    || exists m :: m in ms && MethodIntercepted(t, m) && c in t.MethodAnns(m).interceptors.value
  }

  /** The whole outcome of `modifyEjbInterceptor()` for the processed type. */
  datatype InterceptorRewrite = InterceptorRewrite(
    annotatedType: AnnotatedType,
    classLevel: seq<AnnotatedType>,
    methodLevel: map<MethodId, seq<AnnotatedType>>)

  function ClassLevelBindings(classes: ClassId -> AnnotatedType, t: AnnotatedType): Result<seq<AnnotatedType>, Failure> {
    if t.classAnnotations.interceptors.Some? then ModifiedBindings(classes, t.classAnnotations.interceptors.value)
    else Success([])
  }

  /** Class level first, then the methods in order; on success the type
      with every @Interceptors replaced by the wrapper binding, and the
      bindings the wrapper will run. */
  function EjbInterceptorRewrite(classes: ClassId -> AnnotatedType, t: AnnotatedType): Result<InterceptorRewrite, Failure> {
    match ClassLevelBindings(classes, t)
    case Failure(e) => Failure(e)
    case Success(classLevel) =>
      match MethodLevelBindings(classes, t, t.methods)
      case Failure(e) => Failure(e)
      case Success(methodLevel) =>
        Success(InterceptorRewrite(
          t.(classAnnotations := if t.classAnnotations.interceptors.Some? then Wrapped(t.classAnnotations) else t.classAnnotations,
             methodAnnotations := WrapMethods(t, t.methods)),
          AddAll([], classLevel),
          methodLevel))
  }

  /** The method-level bindings have an entry for exactly the visited
      methods carrying @Interceptors, holding that method's own bindings;
      they fail exactly when some class those methods list fails. */
  lemma {:induction false} MethodLevelBindingsSpec(classes: ClassId -> AnnotatedType, t: AnnotatedType, ms: seq<MethodId>)
    ensures MethodLevelBindings(classes, t, ms).Success? ==>
      forall m :: m in MethodLevelBindings(classes, t, ms).value <==> m in ms && MethodIntercepted(t, m)
    ensures MethodLevelBindings(classes, t, ms).Success? ==>
      forall m :: m in ms && MethodIntercepted(t, m) ==>
        m in MethodLevelBindings(classes, t, ms).value &&
        Success(MethodLevelBindings(classes, t, ms).value[m]) == ModifiedBindings(classes, t.MethodAnns(m).interceptors.value)
    ensures MethodLevelBindings(classes, t, ms).Failure? <==>
      exists m, c :: m in ms && MethodIntercepted(t, m) && c in t.MethodAnns(m).interceptors.value && RawClassRewrite(classes, c).Failure?
  {
    if ms != [] {
      var k := |ms| - 1;
      var init := ms[..k];
      var m := ms[k];
      assert ms == init + [m];
      MethodLevelBindingsSpec(classes, t, init);
      if MethodIntercepted(t, m) {
        ModifiedBindingsFailure(classes, t.MethodAnns(m).interceptors.value);
      }
      if MethodLevelBindings(classes, t, ms).Failure? {
        if MethodLevelBindings(classes, t, init).Failure? {
          var m', c :| m' in init && MethodIntercepted(t, m') && c in t.MethodAnns(m').interceptors.value && RawClassRewrite(classes, c).Failure?;
          assert m' in ms;
        } else {
          var c :| c in t.MethodAnns(m).interceptors.value && RawClassRewrite(classes, c).Failure?;
          assert m in ms;
        }
      } else {
        forall m', c | m' in ms && MethodIntercepted(t, m') && c in t.MethodAnns(m').interceptors.value
          ensures RawClassRewrite(classes, c).Success?
        {
          if m' != m { assert m' in init; }
        }
      }
    }
  }

  /** The rewrite fails exactly when the rewrite of some class listed by an
      @Interceptors of the type fails. */
  lemma RewriteFailsIffListedClassFails(classes: ClassId -> AnnotatedType, t: AnnotatedType)
    ensures EjbInterceptorRewrite(classes, t).Failure? <==>
      exists c :: Listed(t, t.methods, c) && RawClassRewrite(classes, c).Failure?
  {
    if t.classAnnotations.interceptors.Some? {
      ModifiedBindingsFailure(classes, t.classAnnotations.interceptors.value);
    }
    MethodLevelBindingsSpec(classes, t, t.methods);
  }

  /** On success no @Interceptors is left on the class or on any method; the
      class and exactly the methods that carried one now carry the wrapper
      binding, with their other annotations kept; the fields are untouched. */
  lemma RewriteReplacesInterceptors(classes: ClassId -> AnnotatedType, t: AnnotatedType)
    requires t.Valid()
    requires EjbInterceptorRewrite(classes, t).Success?
    ensures var u := EjbInterceptorRewrite(classes, t).value.annotatedType;
      && u.Valid()
      && u.javaClass == t.javaClass && u.fields == t.fields && u.fieldAnnotations == t.fieldAnnotations && u.methods == t.methods
      && u.classAnnotations.interceptors.None?
      && (EjbInterceptorWrapper in u.classAnnotations.markers <==>
          EjbInterceptorWrapper in t.classAnnotations.markers || t.classAnnotations.interceptors.Some?)
      && t.classAnnotations.markers <= u.classAnnotations.markers <= t.classAnnotations.markers + {EjbInterceptorWrapper}
      && forall m :: m in t.methods ==>
        && u.MethodAnns(m).interceptors.None?
        && (EjbInterceptorWrapper in u.MethodAnns(m).markers <==>
            EjbInterceptorWrapper in t.MethodAnns(m).markers || MethodIntercepted(t, m))
        && t.MethodAnns(m).markers <= u.MethodAnns(m).markers <= t.MethodAnns(m).markers + {EjbInterceptorWrapper}
  {
  }

  /** On success the method-level bindings hold an entry for exactly the
      methods that carried @Interceptors, and the class-level bindings hold
      each class of the class-level @Interceptors once, in listed order. */
  lemma RewriteBindings(classes: ClassId -> AnnotatedType, t: AnnotatedType)
    requires Reflective(classes)
    requires EjbInterceptorRewrite(classes, t).Success?
    ensures var w := EjbInterceptorRewrite(classes, t).value;
      && (forall m :: m in w.methodLevel <==> m in t.methods && MethodIntercepted(t, m))
      && NoDuplicates(w.classLevel)
      && ClassesOf(w.classLevel) == (if t.classAnnotations.interceptors.Some? then FromSeq(t.classAnnotations.interceptors.value) else [])
  {
    MethodLevelBindingsSpec(classes, t, t.methods);
    var classLevel := ClassLevelBindings(classes, t).value;
    if t.classAnnotations.interceptors.Some? {
      ModifiedBindingsSpec(classes, t.classAnnotations.interceptors.value);
    }
    AddAllDistinct([], classLevel);
  }

  const DummyInterceptor: ClassId := "info.novatec.beantest.extension.resources.DummyInterceptor"

  const Business: MethodId := MethodId("info.novatec.beantest.extension.resources.EJBWithExcludedClassInterception", "business", 0)

  /** A stateless bean bound to DummyInterceptor at class level whose only
      business method excludes class-level interceptors. */
  const EJBWithExcludedClassInterception: AnnotatedType := AnnotatedType(
    "info.novatec.beantest.extension.resources.EJBWithExcludedClassInterception",
    Annotations({Stateless}, Some([DummyInterceptor])),
    [], map[],
    [Business], map[Business := Annotations({ExcludeClassInterceptors}, None)])

  /** The bean is registered with DummyInterceptor as its only class-level
      binding and no method-level binding; a call of the excluded business
      method creates no interceptor instance, invokes no interceptor method
      and runs the business method alone. */
  lemma ExcludedClassInterceptorNeverRuns(
    classes: ClassId -> AnnotatedType, t: AnnotatedType, call: Invocation.Call, first: nat, advice: MethodId -> Invocation.Advice)
    requires t == EJBWithExcludedClassInterception
    requires RawClassRewrite(classes, DummyInterceptor).Success?
    requires call.businessMethod == Business && call.excludeClassInterceptors
    ensures EjbInterceptorRewrite(classes, t).Success?
    ensures var w := EjbInterceptorRewrite(classes, t).value;
      && w.classLevel == [RawClassRewrite(classes, DummyInterceptor).value]
      && w.methodLevel == map[]
      && Interception(ChainFor(w.classLevel, w.methodLevel, call), first, advice, call) == Invocation.Run([Invocation.TargetInvoked(Business)], call.target)
  {
    var d := RawClassRewrite(classes, DummyInterceptor).value;
    assert [DummyInterceptor][..0] == [];
    assert ModifiedBindings(classes, []) == Success([]);
    assert Add([], d) == [d];
    assert ModifiedBindings(classes, [DummyInterceptor]) == Success([d]);
    assert [Business][..0] == [];
    assert !MethodIntercepted(t, Business);
    assert MethodLevelBindings(classes, t, t.methods) == Success(map[]);
    assert AddAll([], [d]) == [d] by {
      assert [d][1..] == [];
    }
    assert ChainFor([d], map[], call) == [];
  }

  /** The worker for one @Interceptors event: a builder read from the
      processed type and a fresh binding for it. */
  class EjbInterceptorModification {
    const extension: BaseExtension
    const processAnnotatedType: ProcessAnnotatedType
    /** The processed type as the event held it when the work began; the
        event is only changed at the very end. */
    const annotatedType: AnnotatedType
    const annotatedTypeBuilder: AnnotatedTypeBuilder
    const ejbInterceptorWrapperRepository: EjbInterceptorWrapperRepository
    const ejbInterceptorWrapperBinding: EjbInterceptorWrapperBinding

    /** The binding's intercepted class is the runtime class of the event
        object, not the class of the processed type. */
    constructor (extension: BaseExtension, pat: ProcessAnnotatedType, repository: EjbInterceptorWrapperRepository)
      ensures this.extension == extension && processAnnotatedType == pat && ejbInterceptorWrapperRepository == repository
      ensures annotatedType == pat.annotatedType
      ensures fresh(annotatedTypeBuilder) && annotatedTypeBuilder.Current() == pat.annotatedType
      ensures fresh(ejbInterceptorWrapperBinding) && ejbInterceptorWrapperBinding.Valid()
      ensures ejbInterceptorWrapperBinding.interceptedClazz == Some(pat.eventClass)
      ensures ejbInterceptorWrapperBinding.classLevelBindings == [] && ejbInterceptorWrapperBinding.methodLevelBindings == map[]
    {
      this.extension := extension;
      processAnnotatedType := pat;
      annotatedType := pat.annotatedType;
      annotatedTypeBuilder := new AnnotatedTypeBuilder.ReadFromType(pat.annotatedType);
      ejbInterceptorWrapperRepository := repository;
      var binding := new EjbInterceptorWrapperBinding();
      binding.SetInterceptedClazz(pat.eventClass);
      ejbInterceptorWrapperBinding := binding;
    }

    /** `createModifiedInterceptorBindings(value)`, each class rewritten
        through the extension's cache. */
    method CreateModifiedInterceptorBindings(cs: seq<ClassId>) returns (r: Result<seq<AnnotatedType>, Failure>)
      requires extension.Valid()
      modifies extension
      ensures extension.Valid() && extension.processAnnotatedType == old(extension.processAnnotatedType)
      ensures r == ModifiedBindings(extension.classes, cs)
      ensures old(extension.interceptorWrapperCache).Keys <= extension.interceptorWrapperCache.Keys
      ensures forall c :: c in extension.interceptorWrapperCache && c !in old(extension.interceptorWrapperCache) ==> c in cs
      ensures r.Success? ==> forall c :: c in cs ==> c in extension.interceptorWrapperCache
    {
      var s: seq<AnnotatedType> := [];
      var k := 0;
      while k < |cs|
        invariant 0 <= k <= |cs|
        invariant extension.Valid() && extension.processAnnotatedType == old(extension.processAnnotatedType)
        invariant ModifiedBindings(extension.classes, cs[..k]) == Success(s)
        invariant CacheGrown(old(extension.interceptorWrapperCache), extension.interceptorWrapperCache, cs, k)
      {
        ghost var cache := extension.interceptorWrapperCache;
        var modified := extension.AddInjectAnnotationInRawClass(cs[k]);
        ModifiedBindingsNext(extension.classes, cs, k, s, modified);
        if modified.Failure? {
          ModifiedBindingsStopped(extension.classes, cs, k + 1);
          CacheGrownStep(old(extension.interceptorWrapperCache), cache, extension.interceptorWrapperCache, cs, k, false);
          return Failure(modified.error);
        }
        CacheGrownStep(old(extension.interceptorWrapperCache), cache, extension.interceptorWrapperCache, cs, k, true);
        s := Add(s, modified.value);
        k := k + 1;
      }
      assert cs[..k] == cs;
      CacheGrownAll(old(extension.interceptorWrapperCache), extension.interceptorWrapperCache, cs);
      r := Success(s);
    }

    predicate IsClassLevelAnnotationPresent() {
      annotatedType.classAnnotations.interceptors.Some?
    }

    method IsMethodLevelAnnotationPresent() returns (present: bool)
      ensures present <==> exists m :: m in annotatedType.methods && MethodIntercepted(annotatedType, m)
    {
      var j := 0;
      while j < |annotatedType.methods|
        invariant 0 <= j <= |annotatedType.methods|
        invariant forall i :: 0 <= i < j ==> !MethodIntercepted(annotatedType, annotatedType.methods[i])
      {
        if annotatedType.MethodAnns(annotatedType.methods[j]).interceptors.Some? {
          assert MethodIntercepted(annotatedType, annotatedType.methods[j]);
          return true;
        }
        j := j + 1;
      }
      return false;
    }

    /** `modifyClassLevelInterceptor()`: the class's @Interceptors gives way
        to the wrapper binding, and its classes become the class-level
        bindings. */
    method ModifyClassLevelInterceptor() returns (thrown: Option<Failure>)
      requires IsClassLevelAnnotationPresent()
      requires extension.Valid() && ejbInterceptorWrapperBinding.Valid()
      modifies annotatedTypeBuilder, ejbInterceptorWrapperBinding, extension
      ensures extension.Valid() && extension.processAnnotatedType == old(extension.processAnnotatedType)
      ensures ejbInterceptorWrapperBinding.Valid()
      ensures annotatedTypeBuilder.Current() == old(annotatedTypeBuilder.Current()).(classAnnotations := Wrapped(old(annotatedTypeBuilder.classAnnotations)))
      ensures old(extension.interceptorWrapperCache).Keys <= extension.interceptorWrapperCache.Keys
      ensures thrown.None? ==> forall c :: c in annotatedType.classAnnotations.interceptors.value ==> c in extension.interceptorWrapperCache
      ensures var r := ModifiedBindings(extension.classes, annotatedType.classAnnotations.interceptors.value);
        && thrown == (if r.Failure? then Some(r.error) else None)
        && ejbInterceptorWrapperBinding.classLevelBindings ==
             (if r.Failure? then old(ejbInterceptorWrapperBinding.classLevelBindings) else AddAll(old(ejbInterceptorWrapperBinding.classLevelBindings), r.value))
      ensures ejbInterceptorWrapperBinding.methodLevelBindings == old(ejbInterceptorWrapperBinding.methodLevelBindings)
      ensures ejbInterceptorWrapperBinding.interceptedClazz == old(ejbInterceptorWrapperBinding.interceptedClazz)
    {
      annotatedTypeBuilder.RemoveInterceptorsFromClass();
      annotatedTypeBuilder.AddToClass(EjbInterceptorWrapper);
      var r := CreateModifiedInterceptorBindings(annotatedType.classAnnotations.interceptors.value);
      if r.Failure? {
        return Some(r.error);
      }
      ejbInterceptorWrapperBinding.AddClassLevelBinding(r.value);
      thrown := None;
    }

    /** `modifyMethodLevelInterceptor()`: each method's @Interceptors gives
        way to the wrapper binding, and its classes become that method's
        bindings. */
    method ModifyMethodLevelInterceptor() returns (thrown: Option<Failure>)
      requires annotatedType.Valid()
      requires annotatedTypeBuilder.methodAnnotations == annotatedType.methodAnnotations
      requires extension.Valid() && ejbInterceptorWrapperBinding.Valid()
      requires ejbInterceptorWrapperBinding.methodLevelBindings == map[]
      modifies annotatedTypeBuilder, ejbInterceptorWrapperBinding, extension
      ensures extension.Valid() && extension.processAnnotatedType == old(extension.processAnnotatedType)
      ensures old(extension.interceptorWrapperCache).Keys <= extension.interceptorWrapperCache.Keys
      ensures ejbInterceptorWrapperBinding.Valid()
      ensures var r := MethodLevelBindings(extension.classes, annotatedType, annotatedType.methods);
        && thrown == (if r.Failure? then Some(r.error) else None)
        && (r.Success? ==>
          && ejbInterceptorWrapperBinding.methodLevelBindings == r.value
          && annotatedTypeBuilder.Current() == old(annotatedTypeBuilder.Current()).(methodAnnotations := WrapMethods(annotatedType, annotatedType.methods)))
      ensures ejbInterceptorWrapperBinding.classLevelBindings == old(ejbInterceptorWrapperBinding.classLevelBindings)
      ensures ejbInterceptorWrapperBinding.interceptedClazz == old(ejbInterceptorWrapperBinding.interceptedClazz)
    {
      var t := annotatedType;
      var classes := extension.classes;
      var b0 := annotatedTypeBuilder.Current();
      var j := 0;
      while j < |t.methods|
        invariant 0 <= j <= |t.methods|
        invariant extension.Valid() && extension.processAnnotatedType == old(extension.processAnnotatedType)
        invariant old(extension.interceptorWrapperCache).Keys <= extension.interceptorWrapperCache.Keys
        invariant ejbInterceptorWrapperBinding.Valid()
        invariant MethodLevelBindings(classes, t, t.methods[..j]) == Success(ejbInterceptorWrapperBinding.methodLevelBindings)
        invariant annotatedTypeBuilder.Current() == b0.(methodAnnotations := WrapMethods(t, t.methods[..j]))
        invariant ejbInterceptorWrapperBinding.classLevelBindings == old(ejbInterceptorWrapperBinding.classLevelBindings)
        invariant ejbInterceptorWrapperBinding.interceptedClazz == old(ejbInterceptorWrapperBinding.interceptedClazz)
      {
        var m := t.methods[j];
        MethodLevelBindingsNext(classes, t, t.methods, j, ejbInterceptorWrapperBinding.methodLevelBindings);
        WrapMethodsNext(t, t.methods, j);
        if t.MethodAnns(m).interceptors.Some? {
          thrown := ModifyInterceptedMethod(m);
          if thrown.Some? {
            MethodLevelBindingsStopped(classes, t, t.methods, j + 1);
            return;
          }
        }
        j := j + 1;
      }
      assert t.methods[..j] == t.methods;
      thrown := None;
    }

    /** One intercepted method of the method-level pass: its @Interceptors
        gives way to the wrapper binding, and its classes become its bindings. */
    method ModifyInterceptedMethod(m: MethodId) returns (thrown: Option<Failure>)
      requires MethodIntercepted(annotatedType, m) && m in annotatedTypeBuilder.methodAnnotations
      requires extension.Valid() && ejbInterceptorWrapperBinding.Valid()
      modifies annotatedTypeBuilder, ejbInterceptorWrapperBinding, extension
      ensures extension.Valid() && extension.processAnnotatedType == old(extension.processAnnotatedType)
      ensures old(extension.interceptorWrapperCache).Keys <= extension.interceptorWrapperCache.Keys
      ensures thrown.None? ==> forall c :: c in annotatedType.MethodAnns(m).interceptors.value ==> c in extension.interceptorWrapperCache
      ensures ejbInterceptorWrapperBinding.Valid()
      ensures annotatedTypeBuilder.Current() == old(annotatedTypeBuilder.Current()).(methodAnnotations :=
        old(annotatedTypeBuilder.methodAnnotations)[m := old(annotatedTypeBuilder.methodAnnotations)[m].WithoutInterceptors().With(EjbInterceptorWrapper)])
      ensures var r := ModifiedBindings(extension.classes, annotatedType.MethodAnns(m).interceptors.value);
        && thrown == (if r.Failure? then Some(r.error) else None)
        && ejbInterceptorWrapperBinding.methodLevelBindings ==
             (if r.Failure? then old(ejbInterceptorWrapperBinding.methodLevelBindings) else old(ejbInterceptorWrapperBinding.methodLevelBindings)[m := r.value])
      ensures ejbInterceptorWrapperBinding.classLevelBindings == old(ejbInterceptorWrapperBinding.classLevelBindings)
      ensures ejbInterceptorWrapperBinding.interceptedClazz == old(ejbInterceptorWrapperBinding.interceptedClazz)
    {
      annotatedTypeBuilder.RemoveInterceptorsFromMethod(m);
      annotatedTypeBuilder.AddToMethod(m, EjbInterceptorWrapper);
      var r := CreateModifiedInterceptorBindings(annotatedType.MethodAnns(m).interceptors.value);
      if r.Failure? {
        return Some(r.error);
      }
      ModifiedBindingsSpec(extension.classes, annotatedType.MethodAnns(m).interceptors.value);
      ejbInterceptorWrapperBinding.AddMethodLevelBinding(m, r.value);
      thrown := None;
    }

    /** `saveInterceptorWrapperBinding()`: keyed by the processed type's class. */
    method SaveInterceptorWrapperBinding()
      modifies ejbInterceptorWrapperRepository
      ensures ejbInterceptorWrapperRepository.interceptorWrapperBindings ==
        old(ejbInterceptorWrapperRepository.interceptorWrapperBindings)[annotatedType.javaClass := ejbInterceptorWrapperBinding]
    {
      ejbInterceptorWrapperRepository.AddInterceptorWrapperBinding(annotatedType.javaClass, ejbInterceptorWrapperBinding);
    }

    /** `modifyEjbInterceptor()`: class level, then method level, then the
        binding is saved and the event's type replaced. A failure leaves
        the repository and the event as they were. */
    method ModifyEjbInterceptor() returns (thrown: Option<Failure>)
      requires annotatedType.Valid() && annotatedType == processAnnotatedType.annotatedType
      requires annotatedTypeBuilder.Current() == annotatedType
      requires extension.Valid() && ejbInterceptorWrapperBinding.Valid()
      requires ejbInterceptorWrapperBinding.classLevelBindings == [] && ejbInterceptorWrapperBinding.methodLevelBindings == map[]
      modifies annotatedTypeBuilder, ejbInterceptorWrapperBinding, extension, ejbInterceptorWrapperRepository, processAnnotatedType
      ensures extension.Valid() && extension.processAnnotatedType == old(extension.processAnnotatedType)
      ensures old(extension.interceptorWrapperCache).Keys <= extension.interceptorWrapperCache.Keys
      ensures ejbInterceptorWrapperBinding.interceptedClazz == old(ejbInterceptorWrapperBinding.interceptedClazz)
      ensures match EjbInterceptorRewrite(extension.classes, annotatedType)
        case Failure(e) =>
          && thrown == Some(e)
          && processAnnotatedType.annotatedType == annotatedType
          && processAnnotatedType.replacements == old(processAnnotatedType.replacements)
          && ejbInterceptorWrapperRepository.interceptorWrapperBindings == old(ejbInterceptorWrapperRepository.interceptorWrapperBindings)
        case Success(w) =>
          && thrown == None
          && processAnnotatedType.annotatedType == w.annotatedType
          && processAnnotatedType.replacements == old(processAnnotatedType.replacements) + 1
          && ejbInterceptorWrapperRepository.interceptorWrapperBindings ==
               old(ejbInterceptorWrapperRepository.interceptorWrapperBindings)[annotatedType.javaClass := ejbInterceptorWrapperBinding]
          && ejbInterceptorWrapperBinding.classLevelBindings == w.classLevel
          && ejbInterceptorWrapperBinding.methodLevelBindings == w.methodLevel
    {
      ghost var t := annotatedType;
      if IsClassLevelAnnotationPresent() {
        thrown := ModifyClassLevelInterceptor();
        if thrown.Some? {
          return;
        }
      }
      assert annotatedTypeBuilder.Current() == t.(classAnnotations := if t.classAnnotations.interceptors.Some? then Wrapped(t.classAnnotations) else t.classAnnotations);
      var present := IsMethodLevelAnnotationPresent();
      if present {
        thrown := ModifyMethodLevelInterceptor();
        if thrown.Some? {
          return;
        }
      } else {
        NothingInterceptedNoMethodLevel(extension.classes, t, t.methods);
      }
      SaveInterceptorWrapperBinding();
      var modified := annotatedTypeBuilder.Create();
      processAnnotatedType.SetAnnotatedType(modified);
      thrown := None;
    }
  }

  /** The cache of rewritten classes has kept every key of `before`, gained
      only classes of `cs`, and holds the first `k` of them. */
  ghost predicate CacheGrown(before: map<ClassId, AnnotatedType>, after: map<ClassId, AnnotatedType>, cs: seq<ClassId>, k: nat) {
    && before.Keys <= after.Keys
    && (forall c :: c in after && c !in before ==> c in cs)
    && k <= |cs|
    && (forall i :: 0 <= i < k ==> cs[i] in after)
  }

  /** One class through the cache: a success caches `cs[k]`, a failure leaves
      the cache as it was. */
  lemma CacheGrownStep(before: map<ClassId, AnnotatedType>, mid: map<ClassId, AnnotatedType>, after: map<ClassId, AnnotatedType>, cs: seq<ClassId>, k: nat, cached: bool)
    requires k < |cs| && CacheGrown(before, mid, cs, k)
    requires cs[k] in mid ==> after == mid
    requires cs[k] !in mid ==> if cached then after.Keys == mid.Keys + {cs[k]} else after == mid
    requires cached ==> cs[k] in after
    ensures CacheGrown(before, after, cs, if cached then k + 1 else k)
  {
  }

  lemma CacheGrownAll(before: map<ClassId, AnnotatedType>, after: map<ClassId, AnnotatedType>, cs: seq<ClassId>)
    requires CacheGrown(before, after, cs, |cs|)
    ensures forall c :: c in cs ==> c in after
  {
  }

  lemma WrapMethodsNext(t: AnnotatedType, ms: seq<MethodId>, j: nat)
    requires t.Valid() && j < |ms| && ms[j] in t.methods
    ensures ms[j] in WrapMethods(t, ms[..j])
    ensures WrapMethods(t, ms[..j + 1]) ==
      if MethodIntercepted(t, ms[j]) then WrapMethods(t, ms[..j])[ms[j] := WrapMethods(t, ms[..j])[ms[j]].WithoutInterceptors().With(EjbInterceptorWrapper)]
      else WrapMethods(t, ms[..j])
  {
    var m := ms[j];
    assert ms[..j + 1] == ms[..j] + [m];
    assert Wrapped(Wrapped(t.methodAnnotations[m])) == Wrapped(t.methodAnnotations[m]);
  }

  lemma MethodLevelBindingsNext(classes: ClassId -> AnnotatedType, t: AnnotatedType, ms: seq<MethodId>, j: nat, mp: map<MethodId, seq<AnnotatedType>>)
    requires j < |ms| && MethodLevelBindings(classes, t, ms[..j]) == Success(mp)
    ensures MethodLevelBindings(classes, t, ms[..j + 1]) ==
      if MethodIntercepted(t, ms[j]) then
        match ModifiedBindings(classes, t.MethodAnns(ms[j]).interceptors.value)
        case Failure(e) => Failure(e)
        case Success(s) => Success(mp[ms[j] := s])
      else Success(mp)
  {
    assert ms[..j + 1][..j] == ms[..j];
  }

  /** Without any method carrying @Interceptors, the method pass changes nothing. */
  lemma {:induction false} NothingInterceptedNoMethodLevel(classes: ClassId -> AnnotatedType, t: AnnotatedType, ms: seq<MethodId>)
    requires forall m :: m in ms ==> !MethodIntercepted(t, m)
    ensures MethodLevelBindings(classes, t, ms) == Success(map[])
    ensures WrapMethods(t, ms) == t.methodAnnotations
  {
    if ms != [] {
      NothingInterceptedNoMethodLevel(classes, t, ms[..|ms| - 1]);
    }
  }

  /** The extension's own state: the base state and the process-wide
      repository it registers bindings in. */
  class InterceptorExtension {
    const base: BaseExtension
    const repository: EjbInterceptorWrapperRepository

    constructor (classes: ClassId -> AnnotatedType, repository: EjbInterceptorWrapperRepository)
      requires Reflective(classes)
      ensures fresh(base) && base.Valid() && base.classes == classes
      ensures base.processAnnotatedType == null && base.interceptorWrapperCache == map[]
      ensures this.repository == repository
    {
      base := new BaseExtension(classes);
      this.repository := repository;
    }

    /** `onProcessEjbInterceptor(pat)`: the type's @Interceptors are
        replaced, and its bindings registered under its class. */
    method OnProcessEjbInterceptor(pat: ProcessAnnotatedType) returns (thrown: Option<Failure>)
      requires base.Valid() && pat.annotatedType.Valid()
      modifies base, pat, repository
      ensures base.Valid() && base.processAnnotatedType == pat
      ensures old(base.interceptorWrapperCache).Keys <= base.interceptorWrapperCache.Keys
      ensures match EjbInterceptorRewrite(base.classes, old(pat.annotatedType))
        case Failure(e) =>
          && thrown == Some(e)
          && pat.annotatedType == old(pat.annotatedType) && pat.replacements == old(pat.replacements)
          && repository.interceptorWrapperBindings == old(repository.interceptorWrapperBindings)
        case Success(w) =>
          var c := old(pat.annotatedType).javaClass;
          && thrown == None
          && pat.annotatedType == w.annotatedType && pat.replacements == old(pat.replacements) + 1
          && c in repository.interceptorWrapperBindings
          && var b := repository.interceptorWrapperBindings[c];
          && fresh(b)
          && repository.interceptorWrapperBindings == old(repository.interceptorWrapperBindings)[c := b]
          && b.interceptedClazz == Some(pat.eventClass)
          && b.classLevelBindings == w.classLevel && b.methodLevelBindings == w.methodLevel
    {
      base.processAnnotatedType := pat;
      var modification := new EjbInterceptorModification(base, pat, repository);
      thrown := modification.ModifyEjbInterceptor();
    }

    /** `modifyInterceptorBindingBean()`: the @Inject rewrite of the
        processed type, naming the processed type in its failure. */
    method ModifyInterceptorBindingBean() returns (thrown: Option<Failure>)
      requires base.Valid() && base.processAnnotatedType != null && base.processAnnotatedType.annotatedType.Valid()
      modifies base.processAnnotatedType
      ensures var t := old(base.processAnnotatedType.annotatedType);
        && thrown == Thrown(t, ProcessedType)
        && (thrown.None? ==>
             && base.processAnnotatedType.annotatedType == Injected(t, t, ProcessedType)
             && base.processAnnotatedType.replacements == old(base.processAnnotatedType.replacements) + 1)
        && (thrown.Some? ==>
             && base.processAnnotatedType.annotatedType == t
             && base.processAnnotatedType.replacements == old(base.processAnnotatedType.replacements))
    {
      var pat := base.processAnnotatedType;
      var builder := new AnnotatedTypeBuilder.ReadFromType(pat.annotatedType);
      thrown := base.AddInjectAnnotationInAnnotatedType(pat.annotatedType, builder);
      if thrown.Some? {
        return;
      }
      var modified := builder.Create();
      pat.SetAnnotatedType(modified);
    }

    /** `onProcessInterceptorBindingBean(pat)` */
    method OnProcessInterceptorBindingBean(pat: ProcessAnnotatedType) returns (thrown: Option<Failure>)
      requires base.Valid() && pat.annotatedType.Valid()
      modifies base, pat
      ensures base.Valid() && base.processAnnotatedType == pat
      ensures base.interceptorWrapperCache == old(base.interceptorWrapperCache)
      ensures var t := old(pat.annotatedType);
        && thrown == Thrown(t, ProcessedType)
        && (thrown.None? ==> pat.annotatedType == Injected(t, t, ProcessedType) && pat.replacements == old(pat.replacements) + 1)
        && (thrown.Some? ==> pat.annotatedType == t && pat.replacements == old(pat.replacements))
    {
      base.processAnnotatedType := pat;
      thrown := ModifyInterceptorBindingBean();
    }
  }
}
