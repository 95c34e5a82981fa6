/** The older, single extension. It rewrites the injection points of
    interceptors and of stateless and message-driven beans, makes such beans
    transactional and request scoped, and hands the class-level
    @Interceptors of a bean over to the @InterceptorWrapper interceptor
    through the static InterceptorWrapperData. */
module BeanTestExtension {
  import opened Meta
  import opened TypeBuilder
  import opened InjectionHelper
  import opened BaseExtension
  import opened EJBExtension
  import opened InterceptorWrapperImpl
  import InterceptorExtension

  /** Every cached interceptor descriptor is the rewrite of its class. */
  ghost predicate CacheValid(classes: ClassId -> AnnotatedType, cache: map<ClassId, AnnotatedType>) {
    forall c :: c in cache ==> RawClassRewrite(classes, c) == Success(cache[c])
  }

  /** The chain of modified interceptor descriptors built so far, and the
      interceptor cache after building it. */
  datatype ChainScan = ChainScan(chain: Result<seq<AnnotatedType>, Failure>, cache: map<ClassId, AnnotatedType>)

  /** The loop of `getModifiedInterceptorBindings` over the classes `cs`: a
      cached class contributes its cached descriptor, any other class its
      rewrite, which is then cached. A failing rewrite ends the loop; the
      classes cached before it stay cached. */
  function ScanClasses(classes: ClassId -> AnnotatedType, cache: map<ClassId, AnnotatedType>, cs: seq<ClassId>): ChainScan
    decreases |cs|
  {
    if cs == [] then ChainScan(Success([]), cache)
    else
      var prev := ScanClasses(classes, cache, cs[..|cs| - 1]);
      var c := cs[|cs| - 1];
      if prev.chain.Failure? then prev
      else if c in prev.cache then ChainScan(Success(prev.chain.value + [prev.cache[c]]), prev.cache)
      else match RawClassRewrite(classes, c)
        case Failure(e) => ChainScan(Failure(e), prev.cache)
        case Success(t) => ChainScan(Success(prev.chain.value + [t]), prev.cache[c := t])
  }

  lemma CacheValidPut(classes: ClassId -> AnnotatedType, cache: map<ClassId, AnnotatedType>, c: ClassId, t: AnnotatedType)
    requires CacheValid(classes, cache) && RawClassRewrite(classes, c) == Success(t)
    ensures CacheValid(classes, cache[c := t])
  {
  }

  /** `getModifiedInterceptorBindings(t)`: only the class-level @Interceptors
      is read, and without one `value()` is called on null. */
  function ModifiedInterceptorBindings(classes: ClassId -> AnnotatedType, cache: map<ClassId, AnnotatedType>, t: AnnotatedType): ChainScan {
    match t.classAnnotations.interceptors
    case None => ChainScan(Failure(NullPointer), cache)
    case Some(cs) => ScanClasses(classes, cache, cs)
  }

  /** The loop only adds to the cache, and only rewrites of their classes. */
  lemma {:induction false} ScanClassesCache(classes: ClassId -> AnnotatedType, cache: map<ClassId, AnnotatedType>, cs: seq<ClassId>)
    requires CacheValid(classes, cache)
    ensures var s := ScanClasses(classes, cache, cs);
      && CacheValid(classes, s.cache)
      && (forall c :: c in cache ==> c in s.cache && s.cache[c] == cache[c])
    decreases |cs|
  {
    if cs != [] {
      var prev := ScanClasses(classes, cache, cs[..|cs| - 1]);
      var c := cs[|cs| - 1];
      ScanClassesCache(classes, cache, cs[..|cs| - 1]);
      if prev.chain.Success? && c !in prev.cache && RawClassRewrite(classes, c).Success? {
        CacheValidPut(classes, prev.cache, c, RawClassRewrite(classes, c).value);
      }
    }
  }

  /** A chain that is built holds, for each listed class in listed order and
      duplicates included, the rewrite of that class; afterwards every
      listed class is cached. */
  lemma {:induction false} ScanClassesSuccess(classes: ClassId -> AnnotatedType, cache: map<ClassId, AnnotatedType>, cs: seq<ClassId>)
    requires CacheValid(classes, cache)
    requires ScanClasses(classes, cache, cs).chain.Success?
    ensures var s := ScanClasses(classes, cache, cs);
      && |s.chain.value| == |cs|
      && (forall i :: 0 <= i < |cs| ==> RawClassRewrite(classes, cs[i]) == Success(s.chain.value[i]))
      && (forall c :: c in s.cache <==> c in cache || c in cs)
    decreases |cs|
  {
    if cs != [] {
      var k := |cs| - 1;
      var init := cs[..k];
      var c := cs[k];
      assert cs == init + [c];
      var prev := ScanClasses(classes, cache, init);
      ScanClassesSuccess(classes, cache, init);
      ScanClassesCache(classes, cache, init);
      var s := ScanClasses(classes, cache, cs);
      forall i | 0 <= i < |cs| ensures RawClassRewrite(classes, cs[i]) == Success(s.chain.value[i]) {
        if i < k {
          assert cs[i] == init[i] && s.chain.value[i] == prev.chain.value[i];
        }
      }
    }
  }

  /** The chain fails exactly when the rewrite of some listed class fails,
      with the failure of the first such class; the classes listed before
      it are then cached. */
  lemma ScanClassesFailure(classes: ClassId -> AnnotatedType, cache: map<ClassId, AnnotatedType>, cs: seq<ClassId>)
    requires CacheValid(classes, cache)
    ensures var s := ScanClasses(classes, cache, cs);
      && (s.chain.Failure? <==> exists c :: c in cs && RawClassRewrite(classes, c).Failure?)
      && (s.chain.Failure? ==>
            exists i: nat :: InterceptorExtension.FirstFailingClass(classes, cs, i, s.chain.error)
              && forall c :: c in s.cache <==> c in cache || c in cs[..i])
  {
    var s := ScanClasses(classes, cache, cs);
    if s.chain.Failure? {
      ScanClassesFirstFailure(classes, cache, cs);
      var i: nat :| InterceptorExtension.FirstFailingClass(classes, cs, i, s.chain.error);
      assert cs[i] in cs;
    } else {
      ScanClassesSuccess(classes, cache, cs);
      forall c | c in cs ensures RawClassRewrite(classes, c).Success? {
        var j :| 0 <= j < |cs| && cs[j] == c;
      }
    }
  }

  /** A failed chain failed at the first listed class whose rewrite fails,
      and only the classes listed before it were cached. */
  lemma {:induction false} ScanClassesFirstFailure(classes: ClassId -> AnnotatedType, cache: map<ClassId, AnnotatedType>, cs: seq<ClassId>)
    requires CacheValid(classes, cache)
    requires ScanClasses(classes, cache, cs).chain.Failure?
    ensures var s := ScanClasses(classes, cache, cs);
      exists i: nat :: InterceptorExtension.FirstFailingClass(classes, cs, i, s.chain.error)
        && forall c :: c in s.cache <==> c in cache || c in cs[..i]
    decreases |cs|
  {
    var k := |cs| - 1;
    var init := cs[..k];
    var prev := ScanClasses(classes, cache, init);
    if prev.chain.Failure? {
      ScanClassesFirstFailure(classes, cache, init);
      var i: nat :| InterceptorExtension.FirstFailingClass(classes, init, i, prev.chain.error)
        && forall x :: x in prev.cache <==> x in cache || x in init[..i];
      FirstFailureExtends(classes, cs, k, i, prev.chain.error);
    } else {
      FirstFailureAtEnd(classes, cache, cs);
    }
  }

  /** A chain whose prefix was built fails at its last class. */
  lemma FirstFailureAtEnd(classes: ClassId -> AnnotatedType, cache: map<ClassId, AnnotatedType>, cs: seq<ClassId>)
    requires CacheValid(classes, cache) && cs != []
    requires ScanClasses(classes, cache, cs[..|cs| - 1]).chain.Success?
    requires ScanClasses(classes, cache, cs).chain.Failure?
    ensures var s := ScanClasses(classes, cache, cs);
      && InterceptorExtension.FirstFailingClass(classes, cs, |cs| - 1, s.chain.error)
      && forall c :: c in s.cache <==> c in cache || c in cs[..|cs| - 1]
  {
    ScanClassesSuccess(classes, cache, cs[..|cs| - 1]);
  }

  /** The first failing class of a prefix is the first failing class of the whole list. */
  lemma FirstFailureExtends(classes: ClassId -> AnnotatedType, cs: seq<ClassId>, k: nat, i: nat, e: Failure)
    requires k <= |cs| && InterceptorExtension.FirstFailingClass(classes, cs[..k], i, e)
    ensures InterceptorExtension.FirstFailingClass(classes, cs, i, e) && cs[..k][..i] == cs[..i]
  {
    assert forall j :: 0 <= j <= i ==> cs[..k][j] == cs[j];
  }

  /** A failure ends the loop: the classes listed after it are not read. */
  lemma {:induction false} ScanClassesStopped(classes: ClassId -> AnnotatedType, cache: map<ClassId, AnnotatedType>, cs: seq<ClassId>, k: nat)
    requires k <= |cs| && ScanClasses(classes, cache, cs[..k]).chain.Failure?
    ensures ScanClasses(classes, cache, cs) == ScanClasses(classes, cache, cs[..k])
    decreases |cs| - k
  {
    if k < |cs| {
      assert cs[..k + 1][..k] == cs[..k];
      ScanClassesStopped(classes, cache, cs, k + 1);
    } else {
      assert cs[..k] == cs;
    }
  }

  /** An interceptor listed twice appears twice in the chain, as the same
      descriptor: the chain is a list, not a set. */
  lemma DuplicateInterceptorKept(classes: ClassId -> AnnotatedType, cache: map<ClassId, AnnotatedType>, c: ClassId)
    requires CacheValid(classes, cache)
    requires RawClassRewrite(classes, c).Success?
    ensures var s := ScanClasses(classes, cache, [c, c]);
      s.chain == Success([RawClassRewrite(classes, c).value, RawClassRewrite(classes, c).value])
  {
    ScanClassesFailure(classes, cache, [c, c]);
    assert forall x :: x in [c, c] ==> x == c;
    var s := ScanClasses(classes, cache, [c, c]);
    ScanClassesSuccess(classes, cache, [c, c]);
    assert RawClassRewrite(classes, c) == Success(s.chain.value[0]) == Success(s.chain.value[1]);
    assert s.chain.value == [s.chain.value[0], s.chain.value[1]];
  }

  /** When every listed class is cached, the chain is read from the cache
      and the cache does not change. */
  lemma {:induction false} ScanClassesCached(classes: ClassId -> AnnotatedType, cache: map<ClassId, AnnotatedType>, cs: seq<ClassId>)
    requires forall c :: c in cs ==> c in cache
    ensures var s := ScanClasses(classes, cache, cs);
      && s.cache == cache && s.chain.Success? && |s.chain.value| == |cs|
      && forall i :: 0 <= i < |cs| ==> s.chain.value[i] == cache[cs[i]]
    decreases |cs|
  {
    if cs != [] {
      var k := |cs| - 1;
      ScanClassesCached(classes, cache, cs[..k]);
      assert cs[k] in cs;
    }
  }

  /** The annotations of a class whose @Interceptors gives way to the
      @InterceptorWrapper binding. */
  function WrapperBound(a: Annotations): Annotations {
    a.WithoutInterceptors().With(InterceptorWrapper)
  }

  /** What one observer step leaves behind: the failure it raised, the state
      of its builder, and the two static registries. */
  datatype Effect = Effect(
    thrown: Option<Failure>,
    built: AnnotatedType,
    bindings: map<ClassId, seq<AnnotatedType>>,
    cache: map<ClassId, AnnotatedType>)

  /** `modifyInterceptorBindings(t, builder)` on builder state `b`: the
      builder swaps the class-level @Interceptors for the wrapper binding,
      then the chain of `t` is built and registered under the class of `t`
      unless that class already has one. */
  function InterceptorsStep(
    classes: ClassId -> AnnotatedType, bindings: map<ClassId, seq<AnnotatedType>>, cache: map<ClassId, AnnotatedType>,
    t: AnnotatedType, b: AnnotatedType): Effect
  {
    var built := b.(classAnnotations := WrapperBound(b.classAnnotations));
    var s := ModifiedInterceptorBindings(classes, cache, t);
    match s.chain
    case Failure(e) => Effect(Some(e), built, bindings, s.cache)
    case Success(chain) => Effect(None, built, PutIfAbsent(bindings, t.javaClass, chain), s.cache)
  }

  /** The @Interceptors observer on type `t`. */
  function InterceptorsObserved(
    classes: ClassId -> AnnotatedType, bindings: map<ClassId, seq<AnnotatedType>>, cache: map<ClassId, AnnotatedType>,
    t: AnnotatedType): Effect
  {
    InterceptorsStep(classes, bindings, cache, t, t)
  }

  /** The stateless and message-driven bean observer on type `t`, as
      written: the class gains @Transactional and @RequestScoped, the
      injection rewrite runs, the class-level @Interceptors (if any) are
      handed over, and the injection rewrite runs a second time. */
  function MetaDataObserved(
    classes: ClassId -> AnnotatedType, bindings: map<ClassId, seq<AnnotatedType>>, cache: map<ClassId, AnnotatedType>,
    t: AnnotatedType): Effect
  {
    var b := t.(classAnnotations := t.classAnnotations.With(Transactional).With(RequestScoped));
    var b1 := Injected(b, t, ProcessedType);
    match Thrown(t, ProcessedType)
    case Some(e) => Effect(Some(e), b1, bindings, cache)
    case None =>
      if t.classAnnotations.interceptors.Some? then
        var e := InterceptorsStep(classes, bindings, cache, t, b1);
        if e.thrown.Some? then e else e.(built := Injected(e.built, t, ProcessedType))
      else Effect(None, Injected(b1, t, ProcessedType), bindings, cache)
  }

  /** What a stateless or message-driven bean becomes: the newer
      extension's descriptor, with a class-level @Interceptors replaced by
      the @InterceptorWrapper binding. */
  function BeanMetaData(t: AnnotatedType): AnnotatedType {
    var u := EjbMetaData(t);
    if t.classAnnotations.interceptors.Some? then u.(classAnnotations := WrapperBound(u.classAnnotations)) else u
  }

  /** Running the injection rewrite again with the same type adds nothing. */
  lemma InjectedTwice(b: AnnotatedType, t: AnnotatedType, via: ErrorSubject)
    ensures Injected(Injected(b, t, via), t, via) == Injected(b, t, via)
  {
    var r := Injected(b, t, via);
    var rr := Injected(r, t, via);
    forall f | f in rr.fieldAnnotations ensures rr.fieldAnnotations[f] == r.fieldAnnotations[f] {
      assert r.fieldAnnotations[f].markers + {Inject} + {Inject} == r.fieldAnnotations[f].markers + {Inject};
    }
    forall m | m in rr.methodAnnotations ensures rr.methodAnnotations[m] == r.methodAnnotations[m] {
      assert r.methodAnnotations[m].markers + {Inject} + {Inject} == r.methodAnnotations[m].markers + {Inject};
    }
    assert rr.fieldAnnotations == r.fieldAnnotations;
    assert rr.methodAnnotations == r.methodAnnotations;
  }

  lemma {:induction false} RecordedFieldsSameFields(t: AnnotatedType, t': AnnotatedType, fields: seq<string>)
    requires t.fieldAnnotations == t'.fieldAnnotations
    ensures RecordedFields(t, fields) == RecordedFields(t', fields)
    decreases |fields|
  {
    if fields != [] {
      RecordedFieldsSameFields(t, t', fields[..|fields| - 1]);
    }
  }

  /** The injection rewrite does not read class annotations. */
  lemma RewriteIgnoresClassAnnotations(b: AnnotatedType, t: AnnotatedType, a: Annotations, via: ErrorSubject)
    ensures Thrown(t.(classAnnotations := a), via) == Thrown(t, via)
    ensures Injected(b, t.(classAnnotations := a), via) == Injected(b, t, via)
    ensures Injected(b.(classAnnotations := a), t, via) == Injected(b, t, via).(classAnnotations := a)
  {
    var t' := t.(classAnnotations := a);
    RecordedFieldsSameFields(t, t', t.fields);
    MethodPhaseSameType(t, t', t.methods, RecordedFields(t, t.fields), via);
  }

  /** The bean observer raises the failure of the injection rewrite, else
      that of the chain when the class has @Interceptors; the registries
      change only by building and registering that chain; and the second
      rewrite changes nothing, so on success the type is BeanMetaData. */
  lemma MetaDataObservedSpec(
    classes: ClassId -> AnnotatedType, bindings: map<ClassId, seq<AnnotatedType>>, cache: map<ClassId, AnnotatedType>,
    t: AnnotatedType)
    ensures var e := MetaDataObserved(classes, bindings, cache, t);
      var s := ModifiedInterceptorBindings(classes, cache, t);
      && (Thrown(t, ProcessedType).Some? ==> e.thrown == Thrown(t, ProcessedType) && e.bindings == bindings && e.cache == cache)
      && (Thrown(t, ProcessedType).None? && t.classAnnotations.interceptors.None? ==>
            e.thrown.None? && e.bindings == bindings && e.cache == cache)
      && (Thrown(t, ProcessedType).None? && t.classAnnotations.interceptors.Some? ==>
            && e.cache == s.cache
            && (s.chain.Failure? ==> e.thrown == Some(s.chain.error) && e.bindings == bindings)
            && (s.chain.Success? ==> e.thrown.None? && e.bindings == PutIfAbsent(bindings, t.javaClass, s.chain.value)))
      && (e.thrown.None? ==> e.built == BeanMetaData(t))
  {
    var b := t.(classAnnotations := t.classAnnotations.With(Transactional).With(RequestScoped));
    var b1 := Injected(b, t, ProcessedType);
    InjectedTwice(b, t, ProcessedType);
    InjectedAddsOnlyInject(b, t, ProcessedType);
    if Thrown(t, ProcessedType).None? && t.classAnnotations.interceptors.Some? {
      RewriteIgnoresClassAnnotations(b1, t, WrapperBound(b1.classAnnotations), ProcessedType);
      RewriteIgnoresClassAnnotations(b, t, WrapperBound(b1.classAnnotations), ProcessedType);
    }
  }

  /** A type whose @Interceptors sit only on methods still reaches the
      @Interceptors observer, which then fails with a NullPointerException
      and leaves both registries as they were. */
  lemma MethodLevelInterceptorsFail(
    classes: ClassId -> AnnotatedType, bindings: map<ClassId, seq<AnnotatedType>>, cache: map<ClassId, AnnotatedType>,
    t: AnnotatedType)
    requires t.classAnnotations.interceptors.None?
    ensures var e := InterceptorsObserved(classes, bindings, cache, t);
      e.thrown == Some(NullPointer) && e.bindings == bindings && e.cache == cache
  {
  }

  /** Processing a class with the @Interceptors observer a second time
      changes nothing: every listed class is cached by then, so the same
      chain is built, and the class keeps its first registration. */
  lemma InterceptorsObservedTwice(
    classes: ClassId -> AnnotatedType, bindings: map<ClassId, seq<AnnotatedType>>, cache: map<ClassId, AnnotatedType>,
    t: AnnotatedType)
    requires CacheValid(classes, cache)
    requires InterceptorsObserved(classes, bindings, cache, t).thrown.None?
    ensures var e := InterceptorsObserved(classes, bindings, cache, t);
      InterceptorsObserved(classes, e.bindings, e.cache, t) == e
  {
    var cs := t.classAnnotations.interceptors.value;
    var s1 := ScanClasses(classes, cache, cs);
    ScanClassesCache(classes, cache, cs);
    ScanClassesSuccess(classes, cache, cs);
    ScanClassesCached(classes, s1.cache, cs);
    var s2 := ScanClasses(classes, s1.cache, cs);
    forall i | 0 <= i < |cs| ensures s2.chain.value[i] == s1.chain.value[i] {
      assert cs[i] in s1.cache;
    }
    assert s2.chain.value == s1.chain.value;
  }

  /** A stateless bean with a class-level @Interceptors is seen by both
      observers. If the bean observer runs first, the @Interceptors observer
      reads the replaced type, which no longer carries @Interceptors, and
      fails with a NullPointerException. */
  lemma BeanObserverFirst(
    classes: ClassId -> AnnotatedType, bindings: map<ClassId, seq<AnnotatedType>>, cache: map<ClassId, AnnotatedType>,
    t: AnnotatedType)
    requires t.classAnnotations.interceptors.Some?
    requires MetaDataObserved(classes, bindings, cache, t).thrown.None?
    ensures var e1 := MetaDataObserved(classes, bindings, cache, t);
      var e2 := InterceptorsObserved(classes, e1.bindings, e1.cache, e1.built);
      e2.thrown == Some(NullPointer) && e2.bindings == e1.bindings && e2.cache == e1.cache
  {
    MetaDataObservedSpec(classes, bindings, cache, t);
    InjectedAddsOnlyInject(t.(classAnnotations := t.classAnnotations.With(Transactional).With(RequestScoped)), t, ProcessedType);
  }

  /** If the @Interceptors observer runs first, the bean observer finds no
      @Interceptors left, leaves the registries alone, and the bean ends as
      BeanMetaData describes it. */
  lemma InterceptorsObserverFirst(
    classes: ClassId -> AnnotatedType, bindings: map<ClassId, seq<AnnotatedType>>, cache: map<ClassId, AnnotatedType>,
    t: AnnotatedType)
    requires InterceptorsObserved(classes, bindings, cache, t).thrown.None?
    ensures var e1 := InterceptorsObserved(classes, bindings, cache, t);
      var e2 := MetaDataObserved(classes, e1.bindings, e1.cache, e1.built);
      && e2.thrown == Thrown(t, ProcessedType)
      && e2.bindings == e1.bindings && e2.cache == e1.cache
      && (e2.thrown.None? ==> e2.built == BeanMetaData(t))
  {
    var e1 := InterceptorsObserved(classes, bindings, cache, t);
    var t1 := e1.built;
    RewriteIgnoresClassAnnotations(t, t, t1.classAnnotations, ProcessedType);
    MetaDataObservedSpec(classes, e1.bindings, e1.cache, t1);
    var ca := t.classAnnotations.With(Transactional).With(RequestScoped);
    var ca1 := t1.classAnnotations.With(Transactional).With(RequestScoped);
    assert ca1 == WrapperBound(ca);
    RewriteIgnoresClassAnnotations(t, t, ca, ProcessedType);
    RewriteIgnoresClassAnnotations(t, t, ca1, ProcessedType);
    RewriteIgnoresClassAnnotations(t.(classAnnotations := ca1), t, ca1, ProcessedType);
    RewriteIgnoresClassAnnotations(t.(classAnnotations := ca), t, WrapperBound(ca), ProcessedType);
  }

  /** The extension, with the static InterceptorWrapperData it writes to
      and reflection (`readFromType(Class)`) as `classes`. */
  class BeanTestExtension {
    const classes: ClassId -> AnnotatedType
    const data: InterceptorWrapperData

    ghost predicate Valid()
      reads this, data
    {
      Reflective(classes) && CacheValid(classes, data.processedInterceptorTypesCache)
    }

    constructor (classes: ClassId -> AnnotatedType, data: InterceptorWrapperData)
      requires Reflective(classes) && CacheValid(classes, data.processedInterceptorTypesCache)
      ensures Valid() && this.classes == classes && this.data == data
    {
      this.classes := classes;
      this.data := data;
    }

    /** `processInterceptorBeans(pat)`, observing types with @Interceptor. */
    method ProcessInterceptorBeans(pat: ProcessAnnotatedType) returns (thrown: Option<Failure>)
      requires pat.annotatedType.Valid()
      modifies pat
      ensures var t := old(pat.annotatedType);
        && thrown == Thrown(t, ProcessedType)
        && (thrown.None? ==> pat.annotatedType == Injected(t, t, ProcessedType) && pat.replacements == old(pat.replacements) + 1)
        && (thrown.Some? ==> pat.annotatedType == t && pat.replacements == old(pat.replacements))
    {
      thrown := ProcessInterceptorDependencies(pat);
    }

    /** `processStatelessOrMessagedrivenBeans(pat)`, observing types with
        @Stateless or @MessageDriven. */
    method ProcessStatelessOrMessagedrivenBeans(pat: ProcessAnnotatedType) returns (thrown: Option<Failure>)
      requires Valid() && pat.annotatedType.Valid()
      modifies pat, data
      ensures Valid()
      ensures var e := MetaDataObserved(classes, old(data.modifiedInterceptorBindings), old(data.processedInterceptorTypesCache), old(pat.annotatedType));
        && thrown == e.thrown
        && data.modifiedInterceptorBindings == e.bindings && data.processedInterceptorTypesCache == e.cache
        && (thrown.None? ==> pat.annotatedType == e.built && pat.replacements == old(pat.replacements) + 1)
        && (thrown.Some? ==> pat.annotatedType == old(pat.annotatedType) && pat.replacements == old(pat.replacements))
    {
      thrown := ModifyAnnotatedTypeMetaData(pat);
    }

    /** `processInterceptorsBeans(pat)`, observing types with @Interceptors
        anywhere on them. */
    method ProcessInterceptorsBeans(pat: ProcessAnnotatedType) returns (thrown: Option<Failure>)
      requires Valid()
      modifies pat, data
      ensures Valid()
      ensures var e := InterceptorsObserved(classes, old(data.modifiedInterceptorBindings), old(data.processedInterceptorTypesCache), old(pat.annotatedType));
        && thrown == e.thrown
        && data.modifiedInterceptorBindings == e.bindings && data.processedInterceptorTypesCache == e.cache
        && (thrown.None? ==> pat.annotatedType == e.built && pat.replacements == old(pat.replacements) + 1)
        && (thrown.Some? ==> pat.annotatedType == old(pat.annotatedType) && pat.replacements == old(pat.replacements))
    {
      thrown := ModifyInterceptorBindings(pat);
    }

    /** `modifyInterceptorBindings(pat)`: the event's type is read into a
        builder, its interceptor bindings are handed over, and the event
        takes the builder's result. */
    method ModifyInterceptorBindings(pat: ProcessAnnotatedType) returns (thrown: Option<Failure>)
      requires Valid()
      modifies pat, data
      ensures Valid()
      ensures var e := InterceptorsObserved(classes, old(data.modifiedInterceptorBindings), old(data.processedInterceptorTypesCache), old(pat.annotatedType));
        && thrown == e.thrown
        && data.modifiedInterceptorBindings == e.bindings && data.processedInterceptorTypesCache == e.cache
        && (thrown.None? ==> pat.annotatedType == e.built && pat.replacements == old(pat.replacements) + 1)
        && (thrown.Some? ==> pat.annotatedType == old(pat.annotatedType) && pat.replacements == old(pat.replacements))
    {
      var annotatedType := pat.annotatedType;
      var typeBuilder := new AnnotatedTypeBuilder.ReadFromType(annotatedType);
      thrown := ModifyInterceptorBindingsWith(annotatedType, typeBuilder);
      if thrown.Some? {
        return;
      }
      var modified := typeBuilder.Create();
      pat.SetAnnotatedType(modified);
    }

    /** `modifyInterceptorBindings(t, typeBuilder)` */
    method ModifyInterceptorBindingsWith(t: AnnotatedType, typeBuilder: AnnotatedTypeBuilder) returns (thrown: Option<Failure>)
      requires Valid()
      modifies typeBuilder, data
      ensures Valid()
      ensures var e := InterceptorsStep(classes, old(data.modifiedInterceptorBindings), old(data.processedInterceptorTypesCache), t, old(typeBuilder.Current()));
        && thrown == e.thrown && typeBuilder.Current() == e.built
        && data.modifiedInterceptorBindings == e.bindings && data.processedInterceptorTypesCache == e.cache
    {
      typeBuilder.RemoveInterceptorsFromClass();
      typeBuilder.AddToClass(InterceptorWrapper);
      var bindings := GetModifiedInterceptorBindings(t);
      if bindings.Failure? {
        return Some(bindings.error);
      }
      data.AddInterceptedClassWithModifiedInterceptorBindings(t.javaClass, bindings.value);
      thrown := None;
    }

    /** `getModifiedInterceptorBindings(t)` */
    method GetModifiedInterceptorBindings(t: AnnotatedType) returns (r: Result<seq<AnnotatedType>, Failure>)
      requires Valid()
      modifies data
      ensures Valid()
      ensures var s := ModifiedInterceptorBindings(classes, old(data.processedInterceptorTypesCache), t);
        r == s.chain && data.processedInterceptorTypesCache == s.cache
      ensures data.modifiedInterceptorBindings == old(data.modifiedInterceptorBindings)
    {
      if t.classAnnotations.interceptors.None? {
        return Failure(NullPointer);
      }
      var interceptorBindings := t.classAnnotations.interceptors.value;
      ghost var cache0 := data.processedInterceptorTypesCache;
      var modifiedInterceptorClasses: seq<AnnotatedType> := [];
      var i := 0;
      while i < |interceptorBindings|
        invariant 0 <= i <= |interceptorBindings|
        invariant Valid()
        invariant data.modifiedInterceptorBindings == old(data.modifiedInterceptorBindings)
        invariant ScanClasses(classes, cache0, interceptorBindings[..i])
               == ChainScan(Success(modifiedInterceptorClasses), data.processedInterceptorTypesCache)
      {
        var modified := ModifiedInterceptorFor(interceptorBindings, i, cache0, modifiedInterceptorClasses);
        if modified.Failure? {
          ScanClassesStopped(classes, cache0, interceptorBindings, i + 1);
          return Failure(modified.error);
        }
        modifiedInterceptorClasses := modifiedInterceptorClasses + [modified.value];
        i := i + 1;
      }
      assert interceptorBindings[..i] == interceptorBindings;
      r := Success(modifiedInterceptorClasses);
    }

    /** One turn of the loop of `getModifiedInterceptorBindings`: the cached
        descriptor of the class `cs[i]`, or its rewrite, which is then cached. */
    method ModifiedInterceptorFor(cs: seq<ClassId>, i: nat, ghost cache0: map<ClassId, AnnotatedType>, ghost chain: seq<AnnotatedType>)
      returns (r: Result<AnnotatedType, Failure>)
      requires Valid() && i < |cs|
      requires ScanClasses(classes, cache0, cs[..i]) == ChainScan(Success(chain), data.processedInterceptorTypesCache)
      modifies data
      ensures Valid()
      ensures data.modifiedInterceptorBindings == old(data.modifiedInterceptorBindings)
      ensures ScanClasses(classes, cache0, cs[..i + 1])
           == ChainScan(if r.Success? then Success(chain + [r.value]) else Failure(r.error), data.processedInterceptorTypesCache)
    {
      var originInterceptor := cs[i];
      ghost var cache := data.processedInterceptorTypesCache;
      assert cs[..i + 1][..i] == cs[..i];
      if data.IsInterceptorAlreadyModified(originInterceptor) {
        var cached := data.GetModifiedInterceptorFor(originInterceptor);
        return Success(cached.value);
      }
      var typeBuilder := new AnnotatedTypeBuilder.ReadFromType(classes(originInterceptor));
      var modifiedInterceptor := typeBuilder.Create();
      var thrown := AddInjectAnnotation(modifiedInterceptor, typeBuilder);
      if thrown.Some? {
        return Failure(thrown.value);
      }
      // The descriptor created before the rewrite shares the builder's
      // annotation stores, so it shows the rewritten annotations.
      modifiedInterceptor := typeBuilder.Create();
      CacheValidPut(classes, cache, originInterceptor, modifiedInterceptor);
      data.AddOriginInterceptorWithModifiedInterceptor(originInterceptor, modifiedInterceptor);
      r := Success(modifiedInterceptor);
    }

    /** `modifyAnnotatedTypeMetaData(pat)` */
    method ModifyAnnotatedTypeMetaData(pat: ProcessAnnotatedType) returns (thrown: Option<Failure>)
      requires Valid() && pat.annotatedType.Valid()
      modifies pat, data
      ensures Valid()
      ensures var e := MetaDataObserved(classes, old(data.modifiedInterceptorBindings), old(data.processedInterceptorTypesCache), old(pat.annotatedType));
        && thrown == e.thrown
        && data.modifiedInterceptorBindings == e.bindings && data.processedInterceptorTypesCache == e.cache
        && (thrown.None? ==> pat.annotatedType == e.built && pat.replacements == old(pat.replacements) + 1)
        && (thrown.Some? ==> pat.annotatedType == old(pat.annotatedType) && pat.replacements == old(pat.replacements))
    {
      var annotatedType := pat.annotatedType;
      var builder := new AnnotatedTypeBuilder.ReadFromType(annotatedType);
      builder.AddToClass(Transactional);
      builder.AddToClass(RequestScoped);
      thrown := AddInjectAnnotation(annotatedType, builder);
      if thrown.Some? {
        return;
      }
      if IsInterceptorsAnnotationPresent(pat) {
        thrown := ModifyInterceptorBindingsWith(annotatedType, builder);
        if thrown.Some? {
          return;
        }
      }
      thrown := AddInjectAnnotation(annotatedType, builder);
      var modified := builder.Create();
      pat.SetAnnotatedType(modified);
    }

    predicate IsInterceptorsAnnotationPresent(pat: ProcessAnnotatedType)
      reads pat
    {
      pat.annotatedType.classAnnotations.interceptors.Some?
    }

    /** `processInterceptorDependencies(pat)` */
    method ProcessInterceptorDependencies(pat: ProcessAnnotatedType) returns (thrown: Option<Failure>)
      requires pat.annotatedType.Valid()
      modifies pat
      ensures var t := old(pat.annotatedType);
        && thrown == Thrown(t, ProcessedType)
        && (thrown.None? ==> pat.annotatedType == Injected(t, t, ProcessedType) && pat.replacements == old(pat.replacements) + 1)
        && (thrown.Some? ==> pat.annotatedType == t && pat.replacements == old(pat.replacements))
    {
      var builder := new AnnotatedTypeBuilder.ReadFromType(pat.annotatedType);
      thrown := AddInjectAnnotation(pat.annotatedType, builder);
      if thrown.Some? {
        return;
      }
      var modified := builder.Create();
      pat.SetAnnotatedType(modified);
    }

    /** `addInjectAnnotation(t, builder)`: one run of this class's own copy
        of InjectionPointReplacement, which behaves as BaseExtension's. */
    method AddInjectAnnotation(t: AnnotatedType, builder: AnnotatedTypeBuilder) returns (thrown: Option<Failure>)
      requires t.Valid()
      requires t.fieldAnnotations.Keys <= builder.fieldAnnotations.Keys
      requires t.methodAnnotations.Keys <= builder.methodAnnotations.Keys
      modifies builder
      ensures thrown == Thrown(t, ProcessedType)
      ensures builder.Current() == Injected(old(builder.Current()), t, ProcessedType)
    {
      var replacement := new InjectionPointReplacement(t, builder);
      thrown := replacement.PerformReplacements();
    }
  }
}
