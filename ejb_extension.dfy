/** The extension for session and message-driven beans: each such bean
    becomes a request-scoped, transactional CDI bean whose legacy injection
    points carry @Inject. */
module EJBExtension {
  import opened Meta
  import opened TypeBuilder
  import opened InjectionHelper
  import opened BaseExtension

  /** The descriptor a stateless or message-driven bean `t` is replaced by. */
  function EjbMetaData(t: AnnotatedType): AnnotatedType {
    Injected(t.(classAnnotations := t.classAnnotations.With(Transactional).With(RequestScoped)), t, ProcessedType)
  }

  /** The bean gains exactly @Transactional and @RequestScoped at class
      level, keeps its @Interceptors for the interceptor extension, and its
      members change only by the @Inject rewrite. */
  lemma EjbMetaDataSpec(t: AnnotatedType)
    ensures var u := EjbMetaData(t);
      && u.javaClass == t.javaClass && u.fields == t.fields && u.methods == t.methods
      && u.classAnnotations.markers == t.classAnnotations.markers + {Transactional, RequestScoped}
      && u.classAnnotations.interceptors == t.classAnnotations.interceptors
      && u.fieldAnnotations.Keys == t.fieldAnnotations.Keys && u.methodAnnotations.Keys == t.methodAnnotations.Keys
      && (forall f :: f in t.fieldAnnotations ==>
            && u.fieldAnnotations[f].interceptors == t.fieldAnnotations[f].interceptors
            && (Inject in u.fieldAnnotations[f].markers <==>
                Inject in t.fieldAnnotations[f].markers ||
                (f in t.fields && ShouldInjectionAnnotationBeAddedToMember(t.FieldAnns(f)))))
      && (forall m :: m in t.methodAnnotations ==>
            && u.methodAnnotations[m].interceptors == t.methodAnnotations[m].interceptors
            && t.methodAnnotations[m].markers <= u.methodAnnotations[m].markers <= t.methodAnnotations[m].markers + {Inject})
  {
    var b := t.(classAnnotations := t.classAnnotations.With(Transactional).With(RequestScoped));
    InjectedAddsOnlyInject(b, t, ProcessedType);
  }

  class EJBExtension {
    const base: BaseExtension

    constructor (classes: ClassId -> AnnotatedType)
      requires Reflective(classes)
      ensures fresh(base) && base.Valid() && base.classes == classes
      ensures base.processAnnotatedType == null && base.interceptorWrapperCache == map[]
    {
      base := new BaseExtension(classes);
    }

    /** `modifyAnnotatedTypeMetaData()`: the class annotations are added to
        a builder read from the event's type, the @Inject rewrite runs over
        it, and the event takes the result; a failing rewrite leaves the
        event as it was. */
    method ModifyAnnotatedTypeMetaData() returns (thrown: Option<Failure>)
      requires base.processAnnotatedType != null && base.processAnnotatedType.annotatedType.Valid()
      modifies base.processAnnotatedType
      ensures var t := old(base.processAnnotatedType.annotatedType);
        && thrown == Thrown(t, ProcessedType)
        && (thrown.None? ==>
             && base.processAnnotatedType.annotatedType == EjbMetaData(t)
             && base.processAnnotatedType.replacements == old(base.processAnnotatedType.replacements) + 1)
        && (thrown.Some? ==>
             && base.processAnnotatedType.annotatedType == t
             && base.processAnnotatedType.replacements == old(base.processAnnotatedType.replacements))
    {
      var pat := base.processAnnotatedType;
      var annotatedType := pat.annotatedType;
      var builder := new AnnotatedTypeBuilder.ReadFromType(annotatedType);
      builder.AddToClass(Transactional);
      builder.AddToClass(RequestScoped);
      thrown := base.AddInjectAnnotationInAnnotatedType(annotatedType, builder);
      if thrown.Some? {
        return;
      }
      var modified := builder.Create();
      pat.SetAnnotatedType(modified);
    }

    /** `onProcessStatelessOrMessageDrivenBean(pat)` */
    method OnProcessStatelessOrMessageDrivenBean(pat: ProcessAnnotatedType) returns (thrown: Option<Failure>)
      requires pat.annotatedType.Valid()
      modifies base, pat
      ensures base.processAnnotatedType == pat
      ensures base.interceptorWrapperCache == old(base.interceptorWrapperCache)
      ensures var t := old(pat.annotatedType);
        && thrown == Thrown(t, ProcessedType)
        && (thrown.None? ==> pat.annotatedType == EjbMetaData(t) && pat.replacements == old(pat.replacements) + 1)
        && (thrown.Some? ==> pat.annotatedType == t && pat.replacements == old(pat.replacements))
    {
      base.processAnnotatedType := pat;
      thrown := ModifyAnnotatedTypeMetaData();
    }
  }
}
