/** The newer interceptor wrapper: the repository of interceptor bindings
    filled at load time, and the dispatcher that, for each intercepted call,
    instantiates the rewritten interceptors, runs them as one chain in front
    of the business method and destroys them afterwards. */
module EjbInterceptorWrapperImpl {
  import opened Meta
  import opened OrderedSet
  import opened Invocation

  /** The interceptor descriptors bound to one intercepted class: one
      ordered set for the class level and one per intercepted method. */
  class EjbInterceptorWrapperBinding {
    var interceptedClazz: Option<ClassId>
    var classLevelBindings: seq<AnnotatedType>
    var methodLevelBindings: map<MethodId, seq<AnnotatedType>>

    ghost predicate Valid()
      reads this
    {
      && NoDuplicates(classLevelBindings)
      && forall m :: m in methodLevelBindings ==> NoDuplicates(methodLevelBindings[m])
    }

    constructor ()
      ensures Valid()
      ensures interceptedClazz == None && classLevelBindings == [] && methodLevelBindings == map[]
    {
      interceptedClazz := None;
      classLevelBindings := [];
      methodLevelBindings := map[];
    }

    method SetInterceptedClazz(c: ClassId)
      modifies this
      ensures interceptedClazz == Some(c)
      ensures classLevelBindings == old(classLevelBindings) && methodLevelBindings == old(methodLevelBindings)
    {
      interceptedClazz := Some(c);
    }

    /** `classLevelBindings.addAll(s)` */
    method AddClassLevelBinding(s: seq<AnnotatedType>)
      requires Valid()
      modifies this
      ensures Valid()
      ensures classLevelBindings == AddAll(old(classLevelBindings), s)
      ensures interceptedClazz == old(interceptedClazz) && methodLevelBindings == old(methodLevelBindings)
    {
      AddAllSpec(classLevelBindings, s);
      classLevelBindings := AddAll(classLevelBindings, s);
    }

    /** `methodLevelBindings.put(m, s)`: replaces an earlier entry. */
    method AddMethodLevelBinding(m: MethodId, s: seq<AnnotatedType>)
      requires Valid() && NoDuplicates(s)
      modifies this
      ensures Valid()
      ensures methodLevelBindings == old(methodLevelBindings)[m := s]
      ensures interceptedClazz == old(interceptedClazz) && classLevelBindings == old(classLevelBindings)
    {
      methodLevelBindings := methodLevelBindings[m := s];
    }

    /** The bindings of one method; none for a method without an entry. */
    function GetMethodLevelBindings(m: MethodId): seq<AnnotatedType>
      reads this
    {
      if m in methodLevelBindings then methodLevelBindings[m] else []
    }
  }

  /** The process-wide map from intercepted class to its binding. */
  class EjbInterceptorWrapperRepository {
    var interceptorWrapperBindings: map<ClassId, EjbInterceptorWrapperBinding>

    constructor ()
      ensures interceptorWrapperBindings == map[]
    {
      interceptorWrapperBindings := map[];
    }

    predicate ContainsInterceptorWrapperBinding(c: ClassId)
      reads this
    {
      c in interceptorWrapperBindings
    }

    /** `put`: a later binding for the same class replaces the earlier one. */
    method AddInterceptorWrapperBinding(c: ClassId, b: EjbInterceptorWrapperBinding)
      modifies this
      ensures interceptorWrapperBindings == old(interceptorWrapperBindings)[c := b]
    {
      interceptorWrapperBindings := interceptorWrapperBindings[c := b];
    }
  }

  /** The chain run for `call`: the class-level bindings unless the method
      excludes them, then the method's own bindings. */
  function ChainFor(classLevel: seq<AnnotatedType>, methodLevel: map<MethodId, seq<AnnotatedType>>, call: Call): seq<AnnotatedType> {
    (if call.excludeClassInterceptors then [] else classLevel) +
    (if call.businessMethod in methodLevel then methodLevel[call.businessMethod] else [])
  }

  /** One position of the chain: an interceptor method on an instance. */
  datatype Step = Step(instance: nat, interceptorMethod: MethodId)

  /** The interceptor methods of `t` on instance `id`. */
  function StepsOf(t: AnnotatedType, id: nat): seq<Step> {
    var ms := InterceptorMethods(t);
    seq(|ms|, i requires 0 <= i < |ms| => Step(id, ms[i]))
  }

  /** The positions of the whole chain, the k-th descriptor on instance first + k. */
  function Steps(chain: seq<AnnotatedType>, first: nat): seq<Step> {
    if chain == [] then []
    else
      var k := |chain| - 1;
      Steps(chain[..k], first) + StepsOf(chain[k], first + k)
  }

  /** Producing, injecting and post-constructing one instance per descriptor. */
  function Creation(chain: seq<AnnotatedType>, first: nat): seq<Event> {
    if chain == [] then []
    else
      var k := |chain| - 1;
      Creation(chain[..k], first) + [Produced(chain[k].javaClass, first + k), Injected(first + k), PostConstructed(first + k)]
  }

  /** The k-th entry of a teardown list destroys instance first + k through `bm`. */
  ghost predicate DestroyListFrom(list: seq<DestroyInjectionTarget>, first: nat, bm: BeanManager) {
    forall j :: 0 <= j < |list| ==> list[j].injectedInstance == first + j && list[j].injectionTarget == bm
  }

  lemma DestroysFromNext(list0: seq<DestroyInjectionTarget>, list: seq<DestroyInjectionTarget>, first: nat, bm: BeanManager)
    requires DestroyListFrom(list0, first, bm)
    requires |list| == |list0| + 1 && list[..|list0|] == list0
    requires list[|list0|].injectedInstance == first + |list0| && list[|list0|].injectionTarget == bm
    ensures DestroyListFrom(list, first, bm)
  {
    forall j | 0 <= j < |list|
      ensures list[j].injectedInstance == first + j && list[j].injectionTarget == bm
    {
      if j < |list0| {
        assert list[j] == list0[j];
      }
    }
  }

  /** One more descriptor adds one instance's creation and its positions. */
  lemma CreationNext(chain: seq<AnnotatedType>, k: nat, first: nat, trace0: seq<Event>)
    requires k < |chain|
    ensures trace0 + Creation(chain[..k + 1], first)
      == (trace0 + Creation(chain[..k], first)) + [Produced(chain[k].javaClass, first + k), Injected(first + k), PostConstructed(first + k)]
    ensures Steps(chain[..k + 1], first) == Steps(chain[..k], first) + StepsOf(chain[k], first + k)
  {
    assert chain[..k + 1][..k] == chain[..k];
  }

  /** Pre-destroying and disposing instances first .. first + n - 1, in order. */
  function Teardown(first: nat, n: nat): seq<Event> {
    if n == 0 then []
    else Teardown(first, n - 1) + [PreDestroyed(first + n - 1), Disposed(first + n - 1)]
  }

  /** `proceed()` on the new invocation context: each interceptor method in
      turn, then the business method; an interceptor method that does not
      proceed ends the chain with its own result. */
  function RunChain(steps: seq<Step>, advice: MethodId -> Advice, call: Call): Run {
    if steps == [] then Run([TargetInvoked(call.businessMethod)], call.target)
    else
      var e := AroundInvoked(steps[0].instance, steps[0].interceptorMethod);
      match advice(steps[0].interceptorMethod)
      case Proceed =>
        var rest := RunChain(steps[1..], advice, call);
        Run([e] + rest.events, rest.outcome)
      case ShortCircuit(v) => Run([e], Returned(v))
      case Raise(x) => Run([e], Threw(x))
  }

  /** One intercepted call through a registered binding: create every
      instance, run the chain, and destroy the instances only when the
      chain returned normally. */
  function Interception(chain: seq<AnnotatedType>, first: nat, advice: MethodId -> Advice, call: Call): Run {
    var run := RunChain(Steps(chain, first), advice, call);
    Run(Creation(chain, first) + run.events + (if run.outcome.Returned? then Teardown(first, |chain|) else []),
        run.outcome)
  }

  /** The record of an interception, grouped as the wrapper produces it:
      creation, then the chain, then the teardown after a normal return. */
  lemma InterceptionTrace(chain: seq<AnnotatedType>, first: nat, advice: MethodId -> Advice, call: Call, trace0: seq<Event>)
    ensures var run := RunChain(Steps(chain, first), advice, call);
      var i := Interception(chain, first, advice, call);
      && i.outcome == run.outcome
      && (run.outcome.Threw? ==> trace0 + Creation(chain, first) + run.events == trace0 + i.events)
      && (run.outcome.Returned? ==> trace0 + Creation(chain, first) + run.events + Teardown(first, |chain|) == trace0 + i.events)
  {
    var run := RunChain(Steps(chain, first), advice, call);
    if run.outcome.Threw? {
      TraceGrouping(trace0, Creation(chain, first), run.events, []);
    } else {
      TraceGrouping(trace0, Creation(chain, first), run.events, Teardown(first, |chain|));
    }
  }

  lemma TraceGrouping(t: seq<Event>, a: seq<Event>, b: seq<Event>, c: seq<Event>)
    ensures t + a + b + c == t + (a + b + c)
    ensures t + a + b == t + (a + b + [])
  {
  }

  /** The record of invoking every position of `steps`, in order. */
  function Invocations(steps: seq<Step>): seq<Event> {
    seq(|steps|, i requires 0 <= i < |steps| => AroundInvoked(steps[i].instance, steps[i].interceptorMethod))
  }

  /** Every interceptor method of `steps` proceeds. */
  predicate AllProceed(steps: seq<Step>, advice: MethodId -> Advice) {
    forall i :: 0 <= i < |steps| ==> advice(steps[i].interceptorMethod).Proceed?
  }

  /** The result of an interceptor method that does not proceed. */
  function Answer(a: Advice): Outcome
    requires !a.Proceed?
  {
    match a
    case ShortCircuit(v) => Returned(v)
    case Raise(x) => Threw(x)
  }

  /** When every interceptor method proceeds, each is invoked once, in chain
      order, then the business method, whose outcome is the call's. */
  lemma {:induction false} RunChainReachesTarget(steps: seq<Step>, advice: MethodId -> Advice, call: Call)
    requires AllProceed(steps, advice)
    ensures RunChain(steps, advice, call) == Run(Invocations(steps) + [TargetInvoked(call.businessMethod)], call.target)
  {
    if steps != [] {
      RunChainReachesTarget(steps[1..], advice, call);
      assert Invocations(steps) == [AroundInvoked(steps[0].instance, steps[0].interceptorMethod)] + Invocations(steps[1..]);
    }
  }

  /** The first interceptor method that does not proceed ends the call with
      its own answer; the later ones and the business method never run. */
  lemma {:induction false} RunChainStopsAtFirstAnswer(steps: seq<Step>, advice: MethodId -> Advice, call: Call, i: nat)
    requires i < |steps| && AllProceed(steps[..i], advice) && !advice(steps[i].interceptorMethod).Proceed?
    ensures RunChain(steps, advice, call) == Run(Invocations(steps[..i + 1]), Answer(advice(steps[i].interceptorMethod)))
  {
    if i == 0 {
      assert Invocations(steps[..1]) == [AroundInvoked(steps[0].instance, steps[0].interceptorMethod)];
    } else {
      assert advice(steps[..i][0].interceptorMethod).Proceed?;
      assert steps[1..][..i - 1] == steps[..i][1..];
      RunChainStopsAtFirstAnswer(steps[1..], advice, call, i - 1);
      assert steps[1..][..i] == steps[..i + 1][1..];
      assert Invocations(steps[..i + 1]) == [AroundInvoked(steps[0].instance, steps[0].interceptorMethod)] + Invocations(steps[1..][..i]);
    }
  }

  /** The business method runs exactly when every interceptor method proceeds. */
  lemma {:induction false} RunChainReachesTargetIff(steps: seq<Step>, advice: MethodId -> Advice, call: Call)
    ensures TargetInvoked(call.businessMethod) in RunChain(steps, advice, call).events <==> AllProceed(steps, advice)
  {
    if steps != [] {
      RunChainReachesTargetIff(steps[1..], advice, call);
      if advice(steps[0].interceptorMethod).Proceed? {
        assert AllProceed(steps, advice) <==> AllProceed(steps[1..], advice) by {
          if AllProceed(steps[1..], advice) {
            forall i | 0 <= i < |steps| ensures advice(steps[i].interceptorMethod).Proceed? {
              if i > 0 { assert steps[i] == steps[1..][i - 1]; }
            }
          }
        }
      }
    }
  }

  /** Running the chain only invokes interceptor methods and the business method. */
  lemma {:induction false} RunChainOnlyInvokes(steps: seq<Step>, advice: MethodId -> Advice, call: Call)
    ensures forall e :: e in RunChain(steps, advice, call).events ==> e.AroundInvoked? || e.TargetInvoked?
  {
    if steps != [] {
      RunChainOnlyInvokes(steps[1..], advice, call);
    }
  }

  /** Creation makes instance first + k of the k-th descriptor's class, and
      touches no other instance. */
  lemma {:induction false} CreationSpec(chain: seq<AnnotatedType>, first: nat)
    ensures forall k :: 0 <= k < |chain| ==> Produced(chain[k].javaClass, first + k) in Creation(chain, first)
    ensures forall e :: e in Creation(chain, first) ==> e.Produced? || e.Injected? || e.PostConstructed?
    ensures forall c, id: nat :: Produced(c, id) in Creation(chain, first) ==>
      first <= id < first + |chain| && c == chain[id - first].javaClass
  {
    if chain != [] {
      var k := |chain| - 1;
      CreationSpec(chain[..k], first);
      forall j | 0 <= j < k ensures chain[..k][j] == chain[j] { }
    }
  }

  /** Teardown pre-destroys and disposes exactly instances first .. first + n - 1. */
  lemma {:induction false} TeardownSpec(first: nat, n: nat)
    ensures forall e :: e in Teardown(first, n) ==> e.PreDestroyed? || e.Disposed?
    ensures forall id: nat :: Disposed(id) in Teardown(first, n) <==> first <= id < first + n
  {
    if n > 0 {
      TeardownSpec(first, n - 1);
    }
  }

  /** One interceptor instance per chain entry is produced, of that entry's
      class, and none other. */
  lemma InterceptionProducesChain(chain: seq<AnnotatedType>, first: nat, advice: MethodId -> Advice, call: Call)
    ensures forall k :: 0 <= k < |chain| ==> Produced(chain[k].javaClass, first + k) in Interception(chain, first, advice, call).events
    ensures forall c, id: nat :: Produced(c, id) in Interception(chain, first, advice, call).events ==>
      first <= id < first + |chain| && c == chain[id - first].javaClass
  {
    var run := RunChain(Steps(chain, first), advice, call);
    CreationSpec(chain, first);
    RunChainOnlyInvokes(Steps(chain, first), advice, call);
    TeardownSpec(first, |chain|);
    var events := Interception(chain, first, advice, call).events;
    forall c, id: nat | Produced(c, id) in events ensures Produced(c, id) in Creation(chain, first) {
      assert events == Creation(chain, first) + run.events + (if run.outcome.Returned? then Teardown(first, |chain|) else []);
    }
  }

  /** Every interceptor instance created for the call is disposed exactly
      when the call returns normally; an exception leaves them all in place. */
  lemma InterceptionDisposesIffReturned(chain: seq<AnnotatedType>, first: nat, advice: MethodId -> Advice, call: Call)
    ensures var r := Interception(chain, first, advice, call);
      forall id: nat :: first <= id < first + |chain| ==> (Disposed(id) in r.events <==> r.outcome.Returned?)
  {
    var run := RunChain(Steps(chain, first), advice, call);
    CreationSpec(chain, first);
    RunChainOnlyInvokes(Steps(chain, first), advice, call);
    TeardownSpec(first, |chain|);
  }

  /** With @ExcludeClassInterceptors on the business method, an interceptor
      class bound only at class level is never instantiated for the call. */
  lemma ExcludedClassInterceptorNotProduced(
    classLevel: seq<AnnotatedType>, methodLevel: map<MethodId, seq<AnnotatedType>>,
    call: Call, first: nat, advice: MethodId -> Advice, c: ClassId)
    requires call.excludeClassInterceptors
    requires call.businessMethod in methodLevel ==> forall t :: t in methodLevel[call.businessMethod] ==> t.javaClass != c
    ensures forall id: nat :: Produced(c, id) !in Interception(ChainFor(classLevel, methodLevel, call), first, advice, call).events
  {
    var chain := ChainFor(classLevel, methodLevel, call);
    InterceptionProducesChain(chain, first, advice, call);
  }

  /** An interceptor instance and the injection target that made it. */
  class DestroyInjectionTarget {
    const injectedInstance: nat
    const injectionTarget: BeanManager

    constructor (id: nat, target: BeanManager)
      ensures injectedInstance == id && injectionTarget == target
    {
      injectedInstance := id;
      injectionTarget := target;
    }

    /** preDestroy, then dispose. */
    method Destroy()
      modifies injectionTarget
      ensures injectionTarget.nextInstance == old(injectionTarget.nextInstance)
      ensures injectionTarget.trace == old(injectionTarget.trace) + [PreDestroyed(injectedInstance), Disposed(injectedInstance)]
    {
      injectionTarget.PreDestroy(injectedInstance);
      injectionTarget.Dispose(injectedInstance);
    }
  }

  /** The work done for one call through a registered binding. */
  class InvocationContextModifier {
    const beanManager: BeanManager
    var destroyInjectionTargetList: seq<DestroyInjectionTarget>

    constructor (bm: BeanManager)
      ensures beanManager == bm && destroyInjectionTargetList == []
    {
      beanManager := bm;
      destroyInjectionTargetList := [];
    }

    /** `injectInterceptorInstance(t)`: a new instance, injected and
        post-constructed, remembered for teardown. */
    method InjectInterceptorInstance(t: AnnotatedType) returns (id: nat)
      modifies this, beanManager
      ensures id == old(beanManager.nextInstance) && beanManager.nextInstance == id + 1
      ensures beanManager.trace == old(beanManager.trace) + [Produced(t.javaClass, id), Injected(id), PostConstructed(id)]
      ensures |destroyInjectionTargetList| == |old(destroyInjectionTargetList)| + 1
      ensures destroyInjectionTargetList[..|old(destroyInjectionTargetList)|] == old(destroyInjectionTargetList)
      ensures destroyInjectionTargetList[|old(destroyInjectionTargetList)|].injectedInstance == id
      ensures destroyInjectionTargetList[|old(destroyInjectionTargetList)|].injectionTarget == beanManager
    {
      id := beanManager.Produce(t);
      beanManager.InjectInstance(id);
      beanManager.PostConstruct(id);
      var d := new DestroyInjectionTarget(id, beanManager);
      destroyInjectionTargetList := destroyInjectionTargetList + [d];
    }

    /** `invokeWrappedInterceptors()`: `proceed()` on a new invocation
        context over `steps`, for the intercepted call. */
    method InvokeWrappedInterceptors(steps: seq<Step>, advice: MethodId -> Advice, call: Call) returns (outcome: Outcome)
      modifies beanManager
      ensures beanManager.nextInstance == old(beanManager.nextInstance)
      ensures beanManager.trace == old(beanManager.trace) + RunChain(steps, advice, call).events
      ensures outcome == RunChain(steps, advice, call).outcome
    {
      var run := RunChain(steps, advice, call);
      beanManager.trace := beanManager.trace + run.events;
      outcome := run.outcome;
    }

    /** The teardown list holds the instances first, first + 1, ... of `beanManager`. */
    ghost predicate DestroysFrom(first: nat)
      reads this
    {
      DestroyListFrom(destroyInjectionTargetList, first, beanManager)
    }

    /** `createInterceptorChain()`: one instance per descriptor of `chain`,
        in order, and the chain positions of their interceptor methods. */
    method CreateInterceptorChain(chain: seq<AnnotatedType>) returns (steps: seq<Step>)
      requires destroyInjectionTargetList == []
      modifies this, beanManager
      ensures steps == Steps(chain, old(beanManager.nextInstance))
      ensures beanManager.trace == old(beanManager.trace) + Creation(chain, old(beanManager.nextInstance))
      ensures beanManager.nextInstance == old(beanManager.nextInstance) + |chain|
      ensures |destroyInjectionTargetList| == |chain| && DestroysFrom(old(beanManager.nextInstance))
    {
      var first := beanManager.nextInstance;
      var trace0 := beanManager.trace;
      steps := [];
      var k := 0;
      while k < |chain|
        invariant 0 <= k <= |chain|
        invariant beanManager.nextInstance == first + k
        invariant beanManager.trace == trace0 + Creation(chain[..k], first)
        invariant steps == Steps(chain[..k], first)
        invariant |destroyInjectionTargetList| == k && DestroysFrom(first)
      {
        CreationNext(chain, k, first, trace0);
        ghost var list0 := destroyInjectionTargetList;
        var id := InjectInterceptorInstance(chain[k]);
        DestroysFromNext(list0, destroyInjectionTargetList, first, beanManager);
        steps := steps + StepsOf(chain[k], id);
        k := k + 1;
      }
      assert chain[..k] == chain;
    }

    /** `tearDownWrappedInterceptorInstances()`: destroy every listed instance, in order. */
    method TearDownWrappedInterceptorInstances(first: nat)
      requires DestroysFrom(first)
      modifies beanManager
      ensures beanManager.nextInstance == old(beanManager.nextInstance)
      ensures beanManager.trace == old(beanManager.trace) + Teardown(first, |destroyInjectionTargetList|)
    {
      var trace0 := beanManager.trace;
      var i := 0;
      while i < |destroyInjectionTargetList|
        invariant 0 <= i <= |destroyInjectionTargetList|
        invariant beanManager.nextInstance == old(beanManager.nextInstance)
        invariant beanManager.trace == trace0 + Teardown(first, i)
      {
        destroyInjectionTargetList[i].Destroy();
        i := i + 1;
      }
    }

    /** `execute()`: build the chain from `binding`, run it, and on a normal
        return destroy every instance created for it. */
    method Execute(binding: EjbInterceptorWrapperBinding, call: Call, advice: MethodId -> Advice) returns (outcome: Outcome)
      requires destroyInjectionTargetList == []
      modifies this, beanManager
      ensures var chain := ChainFor(binding.classLevelBindings, binding.methodLevelBindings, call);
        var run := Interception(chain, old(beanManager.nextInstance), advice, call);
        && outcome == run.outcome
        && beanManager.trace == old(beanManager.trace) + run.events
        && beanManager.nextInstance == old(beanManager.nextInstance) + |chain|
    {
      var classLevel := if call.excludeClassInterceptors then [] else binding.classLevelBindings;
      var chain := classLevel + binding.GetMethodLevelBindings(call.businessMethod);
      assert chain == ChainFor(binding.classLevelBindings, binding.methodLevelBindings, call);
      outcome := Intercept(chain, call, advice);
    }

    /** The chain `chain` created, run, and torn down after a normal return. */
    method Intercept(chain: seq<AnnotatedType>, call: Call, advice: MethodId -> Advice) returns (outcome: Outcome)
      requires destroyInjectionTargetList == []
      modifies this, beanManager
      ensures var run := Interception(chain, old(beanManager.nextInstance), advice, call);
        && outcome == run.outcome
        && beanManager.trace == old(beanManager.trace) + run.events
        && beanManager.nextInstance == old(beanManager.nextInstance) + |chain|
    {
      var first := beanManager.nextInstance;
      var trace0 := beanManager.trace;
      InterceptionTrace(chain, first, advice, call, trace0);
      var steps := CreateInterceptorChain(chain);
      outcome := InvokeWrappedInterceptors(steps, advice, call);
      if outcome.Threw? {
        return;
      }
      TearDownWrappedInterceptorInstances(first);
    }
  }

  /** The @EjbInterceptorWrapper interceptor. `invocationResult` keeps the
      result of the last call that went through a binding. */
  class EjbInterceptorWrapperImpl {
    const beanManager: BeanManager
    const repository: EjbInterceptorWrapperRepository
    var invocationResult: Value

    constructor (bm: BeanManager, repo: EjbInterceptorWrapperRepository)
      ensures beanManager == bm && repository == repo && invocationResult == Null
    {
      beanManager := bm;
      repository := repo;
      invocationResult := Null;
    }

    /** `handleAroundInvokeInterception(ctx)`: the binding is looked up by the
        declaring class of the intercepted method. Without one, the stored
        result comes back and nothing runs, not even the business method. */
    method HandleAroundInvokeInterception(call: Call, advice: MethodId -> Advice) returns (outcome: Outcome)
      modifies this, beanManager
      ensures var c := call.businessMethod.declaringClass;
        if c in repository.interceptorWrapperBindings then
          var b := repository.interceptorWrapperBindings[c];
          var chain := ChainFor(b.classLevelBindings, b.methodLevelBindings, call);
          var run := Interception(chain, old(beanManager.nextInstance), advice, call);
          && outcome == run.outcome
          && beanManager.trace == old(beanManager.trace) + run.events
          && beanManager.nextInstance == old(beanManager.nextInstance) + |chain|
          && invocationResult == (if outcome.Returned? then outcome.value else old(invocationResult))
        else
          && outcome == Returned(old(invocationResult))
          && beanManager.trace == old(beanManager.trace)
          && beanManager.nextInstance == old(beanManager.nextInstance)
          && invocationResult == old(invocationResult)
    {
      var c := call.businessMethod.declaringClass;
      if repository.ContainsInterceptorWrapperBinding(c) {
        var modifier := new InvocationContextModifier(beanManager);
        var r := modifier.Execute(repository.interceptorWrapperBindings[c], call, advice);
        if r.Threw? {
          return r;
        }
        invocationResult := r.value;
      }
      outcome := Returned(invocationResult);
    }
  }
}
