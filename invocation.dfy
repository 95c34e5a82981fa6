/** The call-time vocabulary shared by the interceptor wrappers and the
    transaction interceptor: values, exceptions, what an interceptor method
    does with its invocation context, and what the container records. */
module Invocation {
  import opened Meta
  import opened OrderedSet

  /** A value a call returns; Null is Java's null. */
  datatype Value = Null | Obj(ref: nat)

  /** A thrown exception: one of a given class, the RuntimeException the
      older wrapper throws around a failed reflective call, or a throwable
      of a given class that is not a java.lang.Exception (an Error such as
      an AssertionError), which `catch (Exception e)` lets through. */
  datatype Exception = Raised(cls: ClassId) | Wrapped(cause: Exception) | Fatal(cls: ClassId)
  {
    /** Whether `catch (Exception e)` catches it. */
    predicate IsException() {
      !Fatal?
    }
  }

  datatype Outcome = Returned(value: Value) | Threw(exception: Exception)

  /** What one @AroundInvoke method does: proceed and return what proceeding
      returns, return a value without proceeding, or throw without proceeding. */
  datatype Advice = Proceed | ShortCircuit(result: Value) | Raise(exception: Exception)

  /** The intercepted business call: the method, whether it carries
      @ExcludeClassInterceptors, and what the method does once reached. */
  datatype Call = Call(businessMethod: MethodId, excludeClassInterceptors: bool, target: Outcome)

  /** What the container records while a call is intercepted. */
  datatype Event =
    | Produced(interceptor: ClassId, instance: nat)
    | Injected(instance: nat)
    | PostConstructed(instance: nat)
    | AroundInvoked(instance: nat, interceptorMethod: MethodId)
    | TargetInvoked(businessMethod: MethodId)
    | PreDestroyed(instance: nat)
    | Disposed(instance: nat)

  /** What a call records, and how it ends. */
  datatype Run = Run(events: seq<Event>, outcome: Outcome)

  /** The methods of `ms` that carry @AroundInvoke in `t`, in order. */
  function AroundInvokeOf(t: AnnotatedType, ms: seq<MethodId>): (r: seq<MethodId>)
    ensures forall m :: m in r <==> m in ms && AroundInvoke in t.MethodAnns(m).markers
  {
    if ms == [] then []
    else
      var init := AroundInvokeOf(t, ms[..|ms| - 1]);
      var m := ms[|ms| - 1];
      assert ms == ms[..|ms| - 1] + [m];
      if AroundInvoke in t.MethodAnns(m).markers then init + [m] else init
  }

  /** The interceptor methods of an interceptor descriptor: its @AroundInvoke
      methods, each once, in iteration order. */
  function InterceptorMethods(t: AnnotatedType): seq<MethodId> {
    FromSeq(AroundInvokeOf(t, t.methods))
  }

  lemma InterceptorMethodsSpec(t: AnnotatedType)
    ensures NoDuplicates(InterceptorMethods(t))
    ensures forall m :: m in InterceptorMethods(t) <==> m in t.methods && AroundInvoke in t.MethodAnns(m).markers
  {
    FromSeqSpec(AroundInvokeOf(t, t.methods));
  }

  /** The container's side of a call: the record of what happens during it,
      and the source of fresh interceptor instances. */
  class BeanManager {
    var trace: seq<Event>
    var nextInstance: nat

    constructor ()
      ensures trace == [] && nextInstance == 0
    {
      trace := [];
      nextInstance := 0;
    }

    /** `injectionTarget.produce(ctx)` */
    method Produce(t: AnnotatedType) returns (id: nat)
      modifies this
      ensures id == old(nextInstance) && nextInstance == id + 1
      ensures trace == old(trace) + [Produced(t.javaClass, id)]
    {
      id := nextInstance;
      nextInstance := nextInstance + 1;
      trace := trace + [Produced(t.javaClass, id)];
    }

    /** `injectionTarget.inject(instance, ctx)` */
    method InjectInstance(id: nat)
      modifies this
      ensures nextInstance == old(nextInstance) && trace == old(trace) + [Injected(id)]
    {
      trace := trace + [Injected(id)];
    }

    method PostConstruct(id: nat)
      modifies this
      ensures nextInstance == old(nextInstance) && trace == old(trace) + [PostConstructed(id)]
    {
      trace := trace + [PostConstructed(id)];
    }

    method PreDestroy(id: nat)
      modifies this
      ensures nextInstance == old(nextInstance) && trace == old(trace) + [PreDestroyed(id)]
    {
      trace := trace + [PreDestroyed(id)];
    }

    method Dispose(id: nat)
      modifies this
      ensures nextInstance == old(nextInstance) && trace == old(trace) + [Disposed(id)]
    {
      trace := trace + [Disposed(id)];
    }
  }
}
