/** The two container-side objects every extension works through:
    DeltaSpike's AnnotatedTypeBuilder and the ProcessAnnotatedType event. */
module TypeBuilder {
  import opened Meta

  /** A builder holding one mutable annotation store for the class and one
      per field and per method. It is read from a descriptor, changed in
      place, and turned back into a descriptor by Create. Members keep the
      iteration order of the descriptor they were read from. */
  class AnnotatedTypeBuilder {
    var javaClass: ClassId
    var classAnnotations: Annotations
    var fields: seq<string>
    var fieldAnnotations: map<string, Annotations>
    var methods: seq<MethodId>
    var methodAnnotations: map<MethodId, Annotations>

    /** The descriptor Create would return in the current state. */
    function Current(): AnnotatedType
      reads this
    {
      AnnotatedType(javaClass, classAnnotations, fields, fieldAnnotations, methods, methodAnnotations)
    }

    /** `new AnnotatedTypeBuilder().readFromType(t)`: a copy of every annotation of `t`. */
    constructor ReadFromType(t: AnnotatedType)
      ensures Current() == t
    {
      javaClass := t.javaClass;
      classAnnotations := t.classAnnotations;
      fields := t.fields;
      fieldAnnotations := t.fieldAnnotations;
      methods := t.methods;
      methodAnnotations := t.methodAnnotations;
    }

    method Create() returns (t: AnnotatedType)
      ensures t == Current()
    {
      t := AnnotatedType(javaClass, classAnnotations, fields, fieldAnnotations, methods, methodAnnotations);
    }

    method AddToClass(m: Marker)
      modifies this
      ensures Current() == old(Current()).(classAnnotations := old(classAnnotations).With(m))
    {
      classAnnotations := classAnnotations.With(m);
    }

    /** `removeFromClass(Interceptors.class)` */
    method RemoveInterceptorsFromClass()
      modifies this
      ensures Current() == old(Current()).(classAnnotations := old(classAnnotations).WithoutInterceptors())
    {
      classAnnotations := classAnnotations.WithoutInterceptors();
    }

    method AddToField(f: string, m: Marker)
      requires f in fieldAnnotations
      modifies this
      ensures Current() == old(Current()).(fieldAnnotations :=
        old(fieldAnnotations)[f := old(fieldAnnotations)[f].With(m)])
    {
      fieldAnnotations := fieldAnnotations[f := fieldAnnotations[f].With(m)];
    }

    method AddToMethod(mid: MethodId, m: Marker)
      requires mid in methodAnnotations
      modifies this
      ensures Current() == old(Current()).(methodAnnotations :=
        old(methodAnnotations)[mid := old(methodAnnotations)[mid].With(m)])
    {
      methodAnnotations := methodAnnotations[mid := methodAnnotations[mid].With(m)];
    }

    /** `removeFromMethod(method, Interceptors.class)` */
    method RemoveInterceptorsFromMethod(mid: MethodId)
      requires mid in methodAnnotations
      modifies this
      ensures Current() == old(Current()).(methodAnnotations :=
        old(methodAnnotations)[mid := old(methodAnnotations)[mid].WithoutInterceptors()])
    {
      methodAnnotations := methodAnnotations[mid := methodAnnotations[mid].WithoutInterceptors()];
    }
  }

  /** The container's event for one discovered type: the descriptor it will
      use, how many times an observer replaced it, and the container's own
      implementation class of the event object. */
  class ProcessAnnotatedType {
    var annotatedType: AnnotatedType
    var replacements: nat
    const eventClass: ClassId

    constructor (t: AnnotatedType, eventClass: ClassId)
      ensures annotatedType == t && replacements == 0 && this.eventClass == eventClass
    {
      annotatedType := t;
      replacements := 0;
      this.eventClass := eventClass;
    }

    method SetAnnotatedType(t: AnnotatedType)
      modifies this
      ensures annotatedType == t && replacements == old(replacements) + 1
    {
      annotatedType := t;
      replacements := replacements + 1;
    }
  }
}
