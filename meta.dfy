/** The metadata vocabulary shared by every extension: annotations, type
    descriptors (CDI's AnnotatedType), and the failures a load-time rewrite
    can raise. */
module Meta {

  datatype Option<+T> = None | Some(value: T)

  datatype Result<+T, +E> = Success(value: T) | Failure(error: E)

  /** A Java class, identified by its fully qualified name. */
  type ClassId = string

  /** Every annotation the core inspects or adds, except @Interceptors,
      which carries a list of classes and is kept apart (see Annotations). */
  datatype Marker =
    | Inject                    // javax.inject.Inject
    | Resource                  // javax.annotation.Resource
    | EJB                       // javax.ejb.EJB
    | PersistenceContext        // javax.persistence.PersistenceContext
    | Transactional             // the project's own interceptor binding
    | RequestScoped
    | InterceptorWrapper        // binding of the older wrapper interceptor
    | EjbInterceptorWrapper     // binding of the newer wrapper interceptor
    | ExcludeClassInterceptors
    | AroundInvoke
    | Stateless
    | MessageDriven
    | Interceptor               // javax.interceptor.Interceptor
    | Other(name: string)

  /** The annotations present on one element (class, field or method).
      A Java element holds at most one @Interceptors, whose value() is
      `interceptors` when present. */
  datatype Annotations = Annotations(markers: set<Marker>, interceptors: Option<seq<ClassId>>)
  {
    function With(m: Marker): Annotations {
      this.(markers := markers + {m})
    }

    function WithoutInterceptors(): Annotations {
      this.(interceptors := None)
    }
  }

  const NoAnnotations := Annotations({}, None)

  /** A Java method: its declaring class, its name, and an index telling
      overloads apart. */
  datatype MethodId = MethodId(declaringClass: ClassId, name: string, overload: nat)

  /** An immutable descriptor of a type: its class annotations, and its
      fields and methods in the (unspecified) order the container iterates
      them, each with its annotations. */
  datatype AnnotatedType = AnnotatedType(
    javaClass: ClassId,
    classAnnotations: Annotations,
    fields: seq<string>,
    fieldAnnotations: map<string, Annotations>,
    methods: seq<MethodId>,
    methodAnnotations: map<MethodId, Annotations>)
  {
    /** Every iterated member has annotations, and every annotated member is iterated. */
    ghost predicate Valid() {
      && (forall f :: f in fieldAnnotations <==> f in fields)
      && (forall m :: m in methodAnnotations <==> m in methods)
    }

    function FieldAnns(f: string): Annotations {
      if f in fieldAnnotations then fieldAnnotations[f] else NoAnnotations
    }

    function MethodAnns(m: MethodId): Annotations {
      if m in methodAnnotations then methodAnnotations[m] else NoAnnotations
    }
  }

  /** Load-time and call-time failures the core raises itself. */
  datatype Failure =
    | DefinitionException(typeName: ClassId, methodName: string)
      // duplicate field and setter injection point
    | IndexOutOfBounds(methodName: string)
      // `split("set")[1]` on a name that yields fewer than two parts
    | NullPointer
      // `getAnnotation(Interceptors.class).value()` on a type without it
}
