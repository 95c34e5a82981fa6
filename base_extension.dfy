/** The common base of the newer extensions: the current ProcessAnnotatedType
    event, a per-instance cache of rewritten raw classes, and its own copy of
    the injection point rewrite (InjectionPointReplacement), which names the
    processed type in its DefinitionException. */
module BaseExtension {
  import opened Meta
  import opened JavaStrings
  import opened TypeBuilder
  import opened InjectionHelper

  /** One rewrite run over `annotatedType`, writing into `builder`. The
      names of the rewritten fields are collected in processedFieldInjections. */
  class InjectionPointReplacement {
    var processedFieldInjections: seq<string>
    const annotatedType: AnnotatedType
    const builder: AnnotatedTypeBuilder

    constructor (t: AnnotatedType, b: AnnotatedTypeBuilder)
      ensures annotatedType == t && builder == b && processedFieldInjections == []
    {
      annotatedType := t;
      builder := b;
      processedFieldInjections := [];
    }

    method IsInjectionPointAlreadyProcessed(suffix: string) returns (found: bool)
      ensures found <==> NamesProcessedField(processedFieldInjections, suffix)
    {
      var k := 0;
      while k < |processedFieldInjections|
        invariant 0 <= k <= |processedFieldInjections|
        invariant forall i :: 0 <= i < k ==> !EqualsIgnoreCase(processedFieldInjections[i], suffix)
      {
        if EqualsIgnoreCase(processedFieldInjections[k], suffix) {
          return true;
        }
        k := k + 1;
      }
      return false;
    }

    /** The check, with the DefinitionException naming the processed type. */
    method ValidateDependencyConfiguration(m: MethodId) returns (thrown: Option<Failure>)
      ensures thrown == DependencyCheck(processedFieldInjections, m, annotatedType.javaClass)
    {
      thrown := None;
      if StartsWithSet(m.name) {
        var suffix := SetterSuffix(m.name);
        if suffix.Failure? {
          thrown := Some(suffix.error);
          return;
        }
        var found := IsInjectionPointAlreadyProcessed(suffix.value);
        if found {
          thrown := Some(DefinitionException(annotatedType.javaClass, m.name));
        }
      }
    }

    /** `performReplacements()`: the rewrite over `annotatedType` applied to
        `builder`, stopping at the first rejected setter. */
    method PerformReplacements() returns (thrown: Option<Failure>)
      requires annotatedType.Valid()
      requires annotatedType.fieldAnnotations.Keys <= builder.fieldAnnotations.Keys
      requires annotatedType.methodAnnotations.Keys <= builder.methodAnnotations.Keys
      requires processedFieldInjections == []
      modifies this, builder
      ensures processedFieldInjections == RecordedFields(annotatedType, annotatedType.fields)
      ensures thrown == Thrown(annotatedType, ProcessedType)
      ensures builder.Current() == Injected(old(builder.Current()), annotatedType, ProcessedType)
    {
      ReplaceFieldInjectionPoints();
      thrown := ReplaceMethodInjectionPoints();
    }

    /** The field loop of `performReplacements()`: every qualifying field
        gets @Inject and its name is recorded. */
    method ReplaceFieldInjectionPoints()
      requires annotatedType.Valid()
      requires annotatedType.fieldAnnotations.Keys <= builder.fieldAnnotations.Keys
      requires processedFieldInjections == []
      modifies this, builder
      ensures processedFieldInjections == RecordedFields(annotatedType, annotatedType.fields)
      ensures builder.Current() == old(builder.Current()).(fieldAnnotations := WithInject(old(builder.fieldAnnotations), processedFieldInjections))
    {
      var t := annotatedType;
      var b0 := builder.Current();
      var i := 0;
      while i < |t.fields|
        invariant FieldPassAt(t, i, processedFieldInjections, b0, builder.Current())
      {
        var field := t.fields[i];
        FieldPassStep(t, i, processedFieldInjections, b0, builder.Current());
        if ShouldInjectionAnnotationBeAddedToMember(t.FieldAnns(field)) {
          builder.AddToField(field, Inject);
          processedFieldInjections := processedFieldInjections + [field];
        }
        i := i + 1;
      }
      FieldPassDone(t, i, processedFieldInjections, b0, builder.Current());
    }

    /** The method loop of `performReplacements()`: every qualifying method
        is checked and gets @Inject, until the first rejected setter. */
    method ReplaceMethodInjectionPoints() returns (thrown: Option<Failure>)
      requires annotatedType.Valid()
      requires annotatedType.methodAnnotations.Keys <= builder.methodAnnotations.Keys
      modifies builder
      ensures var pass := MethodPhase(annotatedType, annotatedType.methods, processedFieldInjections, ProcessedType);
        && thrown == pass.failure
        && builder.Current() == old(builder.Current()).(methodAnnotations := WithInject(old(builder.methodAnnotations), pass.injected))
    {
      var t := annotatedType;
      var b1 := builder.Current();
      var injected: seq<MethodId> := [];
      var j := 0;
      while j < |t.methods|
        invariant MethodPassAt(t, j, processedFieldInjections, ProcessedType, injected, b1, builder.Current())
      {
        var mid := t.methods[j];
        if ShouldInjectionAnnotationBeAddedToMember(t.MethodAnns(mid)) {
          var check := ValidateDependencyConfiguration(mid);
          if check.Some? {
            MethodPassReject(t, j, processedFieldInjections, ProcessedType, injected, b1, builder.Current(), check.value);
            return check;
          }
          MethodPassInject(t, j, processedFieldInjections, ProcessedType, injected, b1, builder.Current());
          builder.AddToMethod(mid, Inject);
          injected := injected + [mid];
        } else {
          MethodPassSkip(t, j, processedFieldInjections, ProcessedType, injected, b1, builder.Current());
        }
        j := j + 1;
      }
      MethodPassDone(t, j, processedFieldInjections, ProcessedType, injected, b1, builder.Current());
      thrown := None;
    }
  }

  /** What reflection gives for each class: a well-formed descriptor of
      that very class. */
  ghost predicate Reflective(classes: ClassId -> AnnotatedType) {
    forall c :: classes(c).Valid() && classes(c).javaClass == c
  }

  /** The outcome of rewriting the raw class `c`: the rewritten descriptor,
      or the failure the rewrite raises. */
  function RawClassRewrite(classes: ClassId -> AnnotatedType, c: ClassId): Result<AnnotatedType, Failure> {
    var t := classes(c);
    match Thrown(t, ProcessedType)
    case Some(e) => Failure(e)
    case None => Success(Injected(t, t, ProcessedType))
  }

  /** The state every extension inherits. `classes` stands for reflection
      (`readFromType(Class)`). */
  class BaseExtension {
    var processAnnotatedType: ProcessAnnotatedType?
    var interceptorWrapperCache: map<ClassId, AnnotatedType>
    const classes: ClassId -> AnnotatedType

    /** Every cached descriptor is the rewrite of its class. */
    ghost predicate Valid()
      reads this
    {
      && Reflective(classes)
      && forall c :: c in interceptorWrapperCache ==> RawClassRewrite(classes, c) == Success(interceptorWrapperCache[c])
    }

    constructor (classes: ClassId -> AnnotatedType)
      requires Reflective(classes)
      ensures Valid()
      ensures this.classes == classes && processAnnotatedType == null && interceptorWrapperCache == map[]
    {
      this.classes := classes;
      processAnnotatedType := null;
      interceptorWrapperCache := map[];
    }

    /** `addInjectAnnotationInAnnotatedType(t, builder)` */
    method AddInjectAnnotationInAnnotatedType(t: AnnotatedType, builder: AnnotatedTypeBuilder) returns (thrown: Option<Failure>)
      requires t.Valid()
      requires t.fieldAnnotations.Keys <= builder.fieldAnnotations.Keys
      requires t.methodAnnotations.Keys <= builder.methodAnnotations.Keys
      modifies builder
      ensures thrown == Thrown(t, ProcessedType)
      ensures builder.Current() == Injected(old(builder.Current()), t, ProcessedType)
    {
      var replacement := new InjectionPointReplacement(t, builder);
      thrown := replacement.PerformReplacements();
    }

    /** `addInjectAnnotationInRawClass(c)`: a cached class comes back from the
        cache without a second rewrite; otherwise the class is read, rewritten
        and, unless the rewrite fails, cached. Either way the result is the
        rewrite of `c`. */
    method AddInjectAnnotationInRawClass(c: ClassId) returns (r: Result<AnnotatedType, Failure>)
      requires Valid()
      modifies this
      ensures Valid()
      ensures r == RawClassRewrite(classes, c)
      ensures c in old(interceptorWrapperCache) ==> interceptorWrapperCache == old(interceptorWrapperCache)
      ensures c !in old(interceptorWrapperCache) ==>
        interceptorWrapperCache == if r.Success? then old(interceptorWrapperCache)[c := r.value] else old(interceptorWrapperCache)
      ensures processAnnotatedType == old(processAnnotatedType)
    {
      if c in interceptorWrapperCache {
        return Success(interceptorWrapperCache[c]);
      }
      var typeBuilder := new AnnotatedTypeBuilder.ReadFromType(classes(c));
      var annotatedType := typeBuilder.Create();
      var thrown := AddInjectAnnotationInAnnotatedType(annotatedType, typeBuilder);
      if thrown.Some? {
        return Failure(thrown.value);
      }
      // The descriptor created before the rewrite shares the builder's
      // annotation stores, so what is cached is the builder's final state.
      annotatedType := typeBuilder.Create();
      interceptorWrapperCache := interceptorWrapperCache[c := annotatedType];
      r := Success(annotatedType);
    }
  }
}
