/** The older @InterceptorWrapper interceptor and its static data. Each
    registered EJB interceptor runs on an instance of its own, one after the
    other, each against the container's original invocation context. */
module InterceptorWrapperImpl {
  import opened Meta
  import opened Invocation

  /** `map.put(c, v)` guarded by `containsKey(c)`: the first value stored
      under a key stays. */
  function PutIfAbsent<V>(m: map<ClassId, V>, c: ClassId, v: V): (r: map<ClassId, V>)
    ensures c in r && r[c] == (if c in m then m[c] else v)
    ensures forall d :: d != c ==> (d in r <==> d in m)
    ensures forall d :: d in m ==> r[d] == m[d]
  {
    if c in m then m else m[c := v]
  }

  /** The registrations `regs` stored one after the other. */
  function PutAllIfAbsent<V>(m: map<ClassId, V>, regs: seq<(ClassId, V)>): map<ClassId, V>
    decreases |regs|
  {
    if regs == [] then m else PutAllIfAbsent(PutIfAbsent(m, regs[0].0, regs[0].1), regs[1..])
  }

  /** After a series of put-if-absent registrations, a key holds its value
      from before, or else the value of its first registration. */
  lemma {:induction false} FirstRegistrationWins<V>(m: map<ClassId, V>, regs: seq<(ClassId, V)>, c: ClassId)
    ensures c in PutAllIfAbsent(m, regs) <==> c in m || exists i :: 0 <= i < |regs| && regs[i].0 == c
    ensures c in m ==> PutAllIfAbsent(m, regs)[c] == m[c]
    ensures forall i :: 0 <= i < |regs| && regs[i].0 == c && c !in m && (forall j :: 0 <= j < i ==> regs[j].0 != c) ==>
      PutAllIfAbsent(m, regs)[c] == regs[i].1
    decreases |regs|
  {
    if regs != [] {
      var m' := PutIfAbsent(m, regs[0].0, regs[0].1);
      FirstRegistrationWins(m', regs[1..], c);
      if exists i :: 0 <= i < |regs| && regs[i].0 == c {
        var i :| 0 <= i < |regs| && regs[i].0 == c;
        if i > 0 { assert regs[1..][i - 1].0 == c; }
      }
      if exists i :: 0 <= i < |regs[1..]| && regs[1..][i].0 == c {
        var i :| 0 <= i < |regs[1..]| && regs[1..][i].0 == c;
        assert regs[i + 1].0 == c;
      }
      forall i | 0 <= i < |regs| && regs[i].0 == c && c !in m && (forall j :: 0 <= j < i ==> regs[j].0 != c)
        ensures PutAllIfAbsent(m, regs)[c] == regs[i].1
      {
        if i > 0 {
          assert regs[1..][i - 1] == regs[i];
          forall j | 0 <= j < i - 1 ensures regs[1..][j].0 != c {
            assert regs[1..][j] == regs[j + 1];
          }
        }
      }
    }
  }

  /** `InterceptorWrapperData`: the modified interceptor bindings per
      intercepted bean class, and the cache of modified interceptor
      descriptors per interceptor class. Both only ever gain keys. */
  class InterceptorWrapperData {
    var modifiedInterceptorBindings: map<ClassId, seq<AnnotatedType>>
    var processedInterceptorTypesCache: map<ClassId, AnnotatedType>

    constructor ()
      ensures modifiedInterceptorBindings == map[] && processedInterceptorTypesCache == map[]
    {
      modifiedInterceptorBindings := map[];
      processedInterceptorTypesCache := map[];
    }

    /** `addInterceptedClassWithModifiedInterceptorBindings(c, bs)` */
    method AddInterceptedClassWithModifiedInterceptorBindings(c: ClassId, bs: seq<AnnotatedType>)
      modifies this
      ensures modifiedInterceptorBindings == PutIfAbsent(old(modifiedInterceptorBindings), c, bs)
      ensures processedInterceptorTypesCache == old(processedInterceptorTypesCache)
    {
      if c !in modifiedInterceptorBindings {
        modifiedInterceptorBindings := modifiedInterceptorBindings[c := bs];
      }
    }

    predicate IsInterceptorAlreadyModified(c: ClassId)
      reads this
    {
      c in processedInterceptorTypesCache
    }

    /** `getModifiedInterceptorFor(c)`; None stands for Java's null. */
    function GetModifiedInterceptorFor(c: ClassId): Option<AnnotatedType>
      reads this
    {
      if c in processedInterceptorTypesCache then Some(processedInterceptorTypesCache[c]) else None
    }

    /** `addOriginInterceptorWithModifiedInterceptor(c, t)` */
    method AddOriginInterceptorWithModifiedInterceptor(c: ClassId, t: AnnotatedType)
      modifies this
      ensures processedInterceptorTypesCache == PutIfAbsent(old(processedInterceptorTypesCache), c, t)
      ensures modifiedInterceptorBindings == old(modifiedInterceptorBindings)
    {
      if !IsInterceptorAlreadyModified(c) {
        processedInterceptorTypesCache := processedInterceptorTypesCache[c := t];
      }
    }
  }

  /** What one interceptor dispatch records, how it ends, and how many
      interceptor instances it produced. */
  datatype Dispatch = Dispatch(events: seq<Event>, outcome: Outcome, instances: nat)

  /** The reflective call of @AroundInvoke method `m` on instance `id` with
      the original invocation context. */
  function AroundInvokeCall(id: nat, m: MethodId, advice: MethodId -> Advice, call: Call): Run {
    var e := AroundInvoked(id, m);
    match advice(m)
    case Proceed => Run([e, TargetInvoked(call.businessMethod)], call.target)
    case ShortCircuit(v) => Run([e], Returned(v))
    case Raise(x) => Run([e], Threw(x))
  }

  /** `delegateInterceptorCall`: the interceptor methods `ms` of one
      instance in turn. The first non-null result is the answer, and an
      exception comes back wrapped in a RuntimeException. Once every method
      returned null, the original context proceeds, and what the business
      method throws there passes unwrapped. */
  function Delegate(ms: seq<MethodId>, id: nat, advice: MethodId -> Advice, call: Call): Run
    decreases |ms|
  {
    if ms == [] then Run([TargetInvoked(call.businessMethod)], call.target)
    else
      var r := AroundInvokeCall(id, ms[0], advice, call);
      match r.outcome
      case Threw(x) => Run(r.events, Threw(Wrapped(x)))
      case Returned(Null) =>
        var rest := Delegate(ms[1..], id, advice, call);
        Run(r.events + rest.events, rest.outcome)
      case Returned(v) => r
  }

  /** Producing, injecting and post-constructing an instance of `t`. */
  function Instantiation(t: AnnotatedType, id: nat): seq<Event> {
    [Produced(t.javaClass, id), Injected(id), PostConstructed(id)]
  }

  /** The loop of `handleAroundInvokeInterception` over the bindings `bs`,
      from instance `first` on, with `altered` the result of the previous
      delegation. Each binding gets an instance that is created, delegated
      to, and destroyed; an exception ends the loop before the destruction.
      After the loop, a non-null last result is the answer, and otherwise
      the original context proceeds. */
  function BindingsRun(bs: seq<AnnotatedType>, first: nat, altered: Value, aroundInvokes: ClassId -> seq<MethodId>, advice: MethodId -> Advice, call: Call): Dispatch
    decreases |bs|
  {
    if bs == [] then
      if altered != Null then Dispatch([], Returned(altered), 0)
      else Dispatch([TargetInvoked(call.businessMethod)], call.target, 0)
    else
      var created := Instantiation(bs[0], first);
      var d := Delegate(aroundInvokes(bs[0].javaClass), first, advice, call);
      if d.outcome.Threw? then Dispatch(created + d.events, d.outcome, 1)
      else
        var rest := BindingsRun(bs[1..], first + 1, d.outcome.value, aroundInvokes, advice, call);
        Dispatch(created + d.events + [PreDestroyed(first), Disposed(first)] + rest.events, rest.outcome, rest.instances + 1)
  }

  /** `BindingsRun` with the delegation of each binding given in `runs`. */
  function BindingsOver(bs: seq<AnnotatedType>, runs: seq<Run>, first: nat, altered: Value, call: Call): Dispatch
    requires |runs| == |bs|
    decreases |bs|
  {
    if bs == [] then
      if altered != Null then Dispatch([], Returned(altered), 0)
      else Dispatch([TargetInvoked(call.businessMethod)], call.target, 0)
    else
      var d := runs[0];
      if d.outcome.Threw? then Dispatch(Instantiation(bs[0], first) + d.events, d.outcome, 1)
      else
        var rest := BindingsOver(bs[1..], runs[1..], first + 1, d.outcome.value, call);
        Dispatch(Instantiation(bs[0], first) + d.events + [PreDestroyed(first), Disposed(first)] + rest.events, rest.outcome, rest.instances + 1)
  }

  /** `runs` holds the delegation to each binding of `bs`, from instance `first` on. */
  ghost predicate Delegations(runs: seq<Run>, bs: seq<AnnotatedType>, first: nat, aroundInvokes: ClassId -> seq<MethodId>, advice: MethodId -> Advice, call: Call) {
    && |runs| == |bs|
    && forall i :: 0 <= i < |bs| ==> runs[i] == Delegate(aroundInvokes(bs[i].javaClass), first + i, advice, call)
  }

  lemma DelegationsOf(bs: seq<AnnotatedType>, first: nat, aroundInvokes: ClassId -> seq<MethodId>, advice: MethodId -> Advice, call: Call) returns (runs: seq<Run>)
    ensures Delegations(runs, bs, first, aroundInvokes, advice, call)
  {
    runs := seq(|bs|, i requires 0 <= i < |bs| => Delegate(aroundInvokes(bs[i].javaClass), first + i, advice, call));
  }

  lemma {:induction false} BindingsRunOver(bs: seq<AnnotatedType>, runs: seq<Run>, first: nat, altered: Value, aroundInvokes: ClassId -> seq<MethodId>, advice: MethodId -> Advice, call: Call)
    requires Delegations(runs, bs, first, aroundInvokes, advice, call)
    ensures BindingsRun(bs, first, altered, aroundInvokes, advice, call) == BindingsOver(bs, runs, first, altered, call)
    decreases |bs|
  {
    if bs != [] {
      assert runs[0] == Delegate(aroundInvokes(bs[0].javaClass), first, advice, call);
      forall i | 0 <= i < |bs| - 1
        ensures runs[1..][i] == Delegate(aroundInvokes(bs[1..][i].javaClass), first + 1 + i, advice, call)
      {
        assert runs[1..][i] == runs[i + 1] && bs[1..][i] == bs[i + 1];
      }
      if !runs[0].outcome.Threw? {
        BindingsRunOver(bs[1..], runs[1..], first + 1, runs[0].outcome.value, aroundInvokes, advice, call);
      }
    }
  }

  /** The whole interception: the registered bindings of the declaring class
      run unless the business method carries @ExcludeClassInterceptors;
      otherwise the original context just proceeds. */
  function WrapperDispatch(registry: map<ClassId, seq<AnnotatedType>>, first: nat, aroundInvokes: ClassId -> seq<MethodId>, advice: MethodId -> Advice, call: Call): Dispatch {
    var c := call.businessMethod.declaringClass;
    if !call.excludeClassInterceptors && c in registry then BindingsRun(registry[c], first, Null, aroundInvokes, advice, call)
    else Dispatch([TargetInvoked(call.businessMethod)], call.target, 0)
  }

  /** How often the business method runs when every interceptor method of
      `bs` proceeds and the business method returns void: once inside each
      interceptor method, once more after each instance's methods, and once
      after the loop. */
  function TargetRuns(bs: seq<AnnotatedType>, aroundInvokes: ClassId -> seq<MethodId>): nat
    decreases |bs|
  {
    if bs == [] then 1 else |aroundInvokes(bs[0].javaClass)| + 1 + TargetRuns(bs[1..], aroundInvokes)
  }

  /** One step of a delegation: what the first interceptor method does
      decides whether the rest run. */
  lemma DelegateUnfold(ms: seq<MethodId>, id: nat, advice: MethodId -> Advice, call: Call)
    requires ms != []
    ensures var r := AroundInvokeCall(id, ms[0], advice, call);
      var d := Delegate(ms, id, advice, call);
      var rest := Delegate(ms[1..], id, advice, call);
      && (r.outcome.Threw? ==> d == Run(r.events, Threw(Wrapped(r.outcome.exception))))
      && (r.outcome == Returned(Null) ==> d == Run(r.events + rest.events, rest.outcome))
      && (r.outcome.Returned? && r.outcome.value != Null ==> d == r)
  {
  }

  /** One step of the loop over the bindings. */
  lemma BindingsRunUnfold(bs: seq<AnnotatedType>, first: nat, altered: Value, aroundInvokes: ClassId -> seq<MethodId>, advice: MethodId -> Advice, call: Call)
    requires bs != []
    ensures var d := Delegate(aroundInvokes(bs[0].javaClass), first, advice, call);
      var b := BindingsRun(bs, first, altered, aroundInvokes, advice, call);
      && (d.outcome.Threw? ==> b == Dispatch(Instantiation(bs[0], first) + d.events, d.outcome, 1))
      && (d.outcome.Returned? ==>
            var rest := BindingsRun(bs[1..], first + 1, d.outcome.value, aroundInvokes, advice, call);
            b == Dispatch(Instantiation(bs[0], first) + d.events + [PreDestroyed(first), Disposed(first)] + rest.events,
                          rest.outcome, rest.instances + 1))
  {
  }

  /** The step of the loop over the bindings at position `k`. */
  lemma BindingsOverPass(bs: seq<AnnotatedType>, runs: seq<Run>, k: nat, first: nat, altered: Value, call: Call)
    requires |runs| == |bs| && k < |bs|
    ensures var d := runs[k];
      var here := BindingsOver(bs[k..], runs[k..], first + k, altered, call);
      && (d.outcome.Threw? ==> here == Dispatch(Instantiation(bs[k], first + k) + d.events, d.outcome, 1))
      && (d.outcome.Returned? ==>
            var next := BindingsOver(bs[k + 1..], runs[k + 1..], first + (k + 1), d.outcome.value, call);
            here == Dispatch(Instantiation(bs[k], first + k) + d.events + [PreDestroyed(first + k), Disposed(first + k)] + next.events,
                             next.outcome, next.instances + 1))
  {
    assert bs[k..][0] == bs[k] && bs[k..][1..] == bs[k + 1..];
    assert runs[k..][0] == runs[k] && runs[k..][1..] == runs[k + 1..];
  }

  /** Delegation only invokes interceptor methods and the business method. */
  lemma {:induction false} DelegateOnlyInvokes(ms: seq<MethodId>, id: nat, advice: MethodId -> Advice, call: Call)
    ensures forall e :: e in Delegate(ms, id, advice, call).events ==> e.AroundInvoked? || e.TargetInvoked?
    decreases |ms|
  {
    if ms != [] {
      DelegateOnlyInvokes(ms[1..], id, advice, call);
    }
  }

  /** With a void business method and every interceptor method proceeding,
      one delegation runs the business method once per interceptor method
      plus once at its end, and yields null. */
  lemma {:induction false} DelegateVoidProceeding(ms: seq<MethodId>, id: nat, advice: MethodId -> Advice, call: Call)
    requires forall m :: m in ms ==> advice(m) == Proceed
    requires call.target == Returned(Null)
    ensures Delegate(ms, id, advice, call).outcome == Returned(Null)
    ensures multiset(Delegate(ms, id, advice, call).events)[TargetInvoked(call.businessMethod)] == |ms| + 1
    decreases |ms|
  {
    if ms != [] {
      assert ms[0] in ms;
      forall m | m in ms[1..] ensures advice(m) == Proceed {
        assert m in ms;
      }
      DelegateVoidProceeding(ms[1..], id, advice, call);
      DelegateUnfold(ms, id, advice, call);
    }
  }

  /** Every interceptor method of the bindings proceeds. */
  ghost predicate AllInterceptorMethodsProceed(bs: seq<AnnotatedType>, aroundInvokes: ClassId -> seq<MethodId>, advice: MethodId -> Advice) {
    forall k, m :: 0 <= k < |bs| && m in aroundInvokes(bs[k].javaClass) ==> advice(m) == Proceed
  }

  /** The older wrapper runs a void business method TargetRuns(bs, aroundInvokes) times
      when every interceptor method proceeds: at least twice for each
      binding, where the business method should run once. */
  lemma {:induction false} BindingsRunRepeatsTarget(bs: seq<AnnotatedType>, first: nat, aroundInvokes: ClassId -> seq<MethodId>, advice: MethodId -> Advice, call: Call)
    requires AllInterceptorMethodsProceed(bs, aroundInvokes, advice)
    requires call.target == Returned(Null)
    ensures var d := BindingsRun(bs, first, Null, aroundInvokes, advice, call);
      && d.outcome == Returned(Null)
      && d.instances == |bs|
      && multiset(d.events)[TargetInvoked(call.businessMethod)] == TargetRuns(bs, aroundInvokes)
    decreases |bs|
  {
    if bs != [] {
      var ms := aroundInvokes(bs[0].javaClass);
      forall m | m in ms ensures advice(m) == Proceed {
        assert 0 < |bs|;
      }
      DelegateVoidProceeding(ms, first, advice, call);
      assert AllInterceptorMethodsProceed(bs[1..], aroundInvokes, advice) by {
        forall k, m | 0 <= k < |bs[1..]| && m in aroundInvokes(bs[1..][k].javaClass) ensures advice(m) == Proceed {
          assert bs[1..][k] == bs[k + 1];
        }
      }
      BindingsRunRepeatsTarget(bs[1..], first + 1, aroundInvokes, advice, call);
      var d := Delegate(ms, first, advice, call);
      var rest := BindingsRun(bs[1..], first + 1, Null, aroundInvokes, advice, call);
      var b := BindingsRun(bs, first, Null, aroundInvokes, advice, call);
      assert b == Dispatch(Instantiation(bs[0], first) + d.events + [PreDestroyed(first), Disposed(first)] + rest.events,
                           rest.outcome, rest.instances + 1);
      TargetRunsAround(bs[0], first, d.events, rest.events, call.businessMethod);
    }
  }

  /** Creating and destroying an instance around its delegation runs no
      business method. */
  lemma TargetRunsAround(t: AnnotatedType, first: nat, delegated: seq<Event>, rest: seq<Event>, m: MethodId)
    ensures multiset(Instantiation(t, first) + delegated + [PreDestroyed(first), Disposed(first)] + rest)[TargetInvoked(m)]
         == multiset(delegated)[TargetInvoked(m)] + multiset(rest)[TargetInvoked(m)]
  {
    var tail := [PreDestroyed(first), Disposed(first)];
    assert multiset(Instantiation(t, first) + delegated + tail + rest)
        == multiset(Instantiation(t, first)) + multiset(delegated) + multiset(tail) + multiset(rest);
    assert multiset(Instantiation(t, first))[TargetInvoked(m)] == 0;
    assert multiset(tail)[TargetInvoked(m)] == 0;
  }

  /** How often instance `id` is disposed in `events`. */
  function Disposals(events: seq<Event>, id: nat): nat {
    multiset(events)[Disposed(id)]
  }

  /** Destroying instance `first` between two stretches of a record adds
      one disposal of `first` and none of any other instance. */
  lemma DisposalsAround(head: seq<Event>, first: nat, rest: seq<Event>, id: nat)
    ensures Disposals(head + [PreDestroyed(first), Disposed(first)] + rest, id)
         == Disposals(head, id) + (if id == first then 1 else 0) + Disposals(rest, id)
  {
    var tail := [PreDestroyed(first), Disposed(first)];
    assert multiset(head + tail + rest) == multiset(head) + multiset(tail) + multiset(rest);
    if id != first {
      assert multiset(tail)[Disposed(id)] == 0;
    }
  }

  /** The first binding's part of the record, up to the destruction of
      its instance, disposes nothing. */
  lemma HeadDisposesNothing(t: AnnotatedType, first: nat, aroundInvokes: ClassId -> seq<MethodId>, advice: MethodId -> Advice, call: Call)
    ensures forall id: nat :: Disposals(Instantiation(t, first) + Delegate(aroundInvokes(t.javaClass), first, advice, call).events, id) == 0
  {
    var head := Instantiation(t, first) + Delegate(aroundInvokes(t.javaClass), first, advice, call).events;
    DelegateOnlyInvokes(aroundInvokes(t.javaClass), first, advice, call);
    forall id: nat ensures Disposals(head, id) == 0 {
      assert Disposed(id) !in head;
    }
  }

  /** The loop produces at most one instance per binding. */
  lemma {:induction false} BindingsRunInstances(bs: seq<AnnotatedType>, first: nat, altered: Value, aroundInvokes: ClassId -> seq<MethodId>, advice: MethodId -> Advice, call: Call)
    ensures BindingsRun(bs, first, altered, aroundInvokes, advice, call).instances <= |bs|
    decreases |bs|
  {
    if bs != [] {
      var d := Delegate(aroundInvokes(bs[0].javaClass), first, advice, call);
      if d.outcome.Returned? {
        BindingsRunInstances(bs[1..], first + 1, d.outcome.value, aroundInvokes, advice, call);
      }
    }
  }

  /** The loop disposes only the instances it produced, numbered from
      `first` on. */
  lemma {:induction false} BindingsRunDisposesOwnInstances(bs: seq<AnnotatedType>, first: nat, altered: Value, aroundInvokes: ClassId -> seq<MethodId>, advice: MethodId -> Advice, call: Call)
    ensures forall id: nat :: id < first || first + BindingsRun(bs, first, altered, aroundInvokes, advice, call).instances <= id ==>
      Disposals(BindingsRun(bs, first, altered, aroundInvokes, advice, call).events, id) == 0
    decreases |bs|
  {
    var b := BindingsRun(bs, first, altered, aroundInvokes, advice, call);
    if bs == [] {
      forall id: nat ensures Disposals(b.events, id) == 0 {
        assert Disposed(id) !in b.events;
      }
    } else {
      var d := Delegate(aroundInvokes(bs[0].javaClass), first, advice, call);
      var head := Instantiation(bs[0], first) + d.events;
      HeadDisposesNothing(bs[0], first, aroundInvokes, advice, call);
      if d.outcome.Returned? {
        var rest := BindingsRun(bs[1..], first + 1, d.outcome.value, aroundInvokes, advice, call);
        BindingsRunDisposesOwnInstances(bs[1..], first + 1, d.outcome.value, aroundInvokes, advice, call);
        var events := head + [PreDestroyed(first), Disposed(first)] + rest.events;
        assert b == Dispatch(events, rest.outcome, rest.instances + 1);
        forall id: nat | id < first || first + b.instances <= id ensures Disposals(b.events, id) == 0 {
          DisposalsAround(head, first, rest.events, id);
          assert Disposals(rest.events, id) == 0;
          assert Disposals(head, id) == 0;
        }
      } else {
        assert b.events == head;
      }
    }
  }

  /** Every instance but the last one produced is disposed exactly once. */
  lemma {:induction false} BindingsRunDisposesOnce(bs: seq<AnnotatedType>, first: nat, altered: Value, aroundInvokes: ClassId -> seq<MethodId>, advice: MethodId -> Advice, call: Call)
    ensures forall id: nat :: first <= id < first + BindingsRun(bs, first, altered, aroundInvokes, advice, call).instances - 1 ==>
      Disposals(BindingsRun(bs, first, altered, aroundInvokes, advice, call).events, id) == 1
    decreases |bs|
  {
    var b := BindingsRun(bs, first, altered, aroundInvokes, advice, call);
    if bs != [] {
      var d := Delegate(aroundInvokes(bs[0].javaClass), first, advice, call);
      var head := Instantiation(bs[0], first) + d.events;
      HeadDisposesNothing(bs[0], first, aroundInvokes, advice, call);
      if d.outcome.Returned? {
        var rest := BindingsRun(bs[1..], first + 1, d.outcome.value, aroundInvokes, advice, call);
        BindingsRunDisposesOnce(bs[1..], first + 1, d.outcome.value, aroundInvokes, advice, call);
        BindingsRunDisposesOwnInstances(bs[1..], first + 1, d.outcome.value, aroundInvokes, advice, call);
        assert b == Dispatch(head + [PreDestroyed(first), Disposed(first)] + rest.events, rest.outcome, rest.instances + 1);
        forall id: nat | first <= id < first + b.instances - 1 ensures Disposals(b.events, id) == 1 {
          DisposalsAround(head, first, rest.events, id);
        }
      }
    }
  }

  /** One step of the induction below: destroying the first instance
      keeps a later undisposed instance undisposed. */
  lemma LeakPersists(b: Dispatch, head: seq<Event>, first: nat, rest: Dispatch, n: nat)
    requires forall id: nat :: Disposals(head, id) == 0
    requires b == Dispatch(head + [PreDestroyed(first), Disposed(first)] + rest.events, rest.outcome, rest.instances + 1)
    requires rest.instances < n ==>
      && rest.instances > 0 && rest.outcome.Threw?
      && forall id: nat :: id + 1 == first + 1 + rest.instances ==> Disposals(rest.events, id) == 0
    ensures b.instances < n + 1 ==>
      && b.instances > 0 && b.outcome.Threw?
      && forall id: nat :: id + 1 == first + b.instances ==> Disposals(b.events, id) == 0
  {
    if b.instances < n + 1 {
      forall id: nat | id + 1 == first + b.instances ensures Disposals(b.events, id) == 0 {
        DisposalsAround(head, first, rest.events, id);
      }
    }
  }

  /** When the loop stops before the end of `bs`, a delegation threw, and
      the instance it ran on, the last one produced, is never destroyed. */
  lemma {:induction false} BindingsRunLeaksOnException(bs: seq<AnnotatedType>, first: nat, altered: Value, aroundInvokes: ClassId -> seq<MethodId>, advice: MethodId -> Advice, call: Call)
    ensures var b := BindingsRun(bs, first, altered, aroundInvokes, advice, call);
      b.instances < |bs| ==>
        && b.instances > 0 && b.outcome.Threw?
        && forall id: nat :: id + 1 == first + b.instances ==> Disposals(b.events, id) == 0
    decreases |bs|
  {
    var b := BindingsRun(bs, first, altered, aroundInvokes, advice, call);
    if bs != [] {
      var d := Delegate(aroundInvokes(bs[0].javaClass), first, advice, call);
      var head := Instantiation(bs[0], first) + d.events;
      HeadDisposesNothing(bs[0], first, aroundInvokes, advice, call);
      if d.outcome.Returned? {
        var rest := BindingsRun(bs[1..], first + 1, d.outcome.value, aroundInvokes, advice, call);
        BindingsRunLeaksOnException(bs[1..], first + 1, d.outcome.value, aroundInvokes, advice, call);
        assert b == Dispatch(head + [PreDestroyed(first), Disposed(first)] + rest.events, rest.outcome, rest.instances + 1);
        LeakPersists(b, head, first, rest, |bs[1..]|);
      } else {
        assert b == Dispatch(head, d.outcome, 1);
      }
    }
  }

  /** When no interceptor method throws and the business method returns
      normally, every instance is created and destroyed and the call
      returns normally. */
  lemma {:induction false} BindingsRunDestroysAllWithoutException(bs: seq<AnnotatedType>, first: nat, altered: Value, aroundInvokes: ClassId -> seq<MethodId>, advice: MethodId -> Advice, call: Call)
    requires forall k, m :: 0 <= k < |bs| && m in aroundInvokes(bs[k].javaClass) ==> !advice(m).Raise?
    requires call.target.Returned?
    ensures var d := BindingsRun(bs, first, altered, aroundInvokes, advice, call);
      && d.outcome.Returned? && d.instances == |bs|
      && forall id: nat :: first <= id < first + |bs| ==> Disposals(d.events, id) == 1
    decreases |bs|
  {
    if bs != [] {
      var ms := aroundInvokes(bs[0].javaClass);
      DelegateReturns(ms, first, advice, call);
      var d := Delegate(ms, first, advice, call);
      forall k, m | 0 <= k < |bs[1..]| && m in aroundInvokes(bs[1..][k].javaClass) ensures !advice(m).Raise? {
        assert bs[1..][k] == bs[k + 1];
      }
      var rest := BindingsRun(bs[1..], first + 1, d.outcome.value, aroundInvokes, advice, call);
      BindingsRunDestroysAllWithoutException(bs[1..], first + 1, d.outcome.value, aroundInvokes, advice, call);
      BindingsRunDisposesOwnInstances(bs[1..], first + 1, d.outcome.value, aroundInvokes, advice, call);
      var head := Instantiation(bs[0], first) + d.events;
      HeadDisposesNothing(bs[0], first, aroundInvokes, advice, call);
      var b := BindingsRun(bs, first, altered, aroundInvokes, advice, call);
      assert b == Dispatch(head + [PreDestroyed(first), Disposed(first)] + rest.events, rest.outcome, rest.instances + 1);
      forall id: nat | first <= id < first + |bs| ensures Disposals(b.events, id) == 1 {
        DisposalsAround(head, first, rest.events, id);
      }
    }
  }

  /** A delegation returns normally when none of its interceptor methods
      throws and the business method returns normally. */
  lemma {:induction false} DelegateReturns(ms: seq<MethodId>, id: nat, advice: MethodId -> Advice, call: Call)
    requires forall m :: m in ms ==> !advice(m).Raise?
    requires call.target.Returned?
    ensures Delegate(ms, id, advice, call).outcome.Returned?
    decreases |ms|
  {
    if ms != [] {
      assert ms[0] in ms;
      forall m | m in ms[1..] ensures !advice(m).Raise? {
        assert m in ms;
      }
      DelegateReturns(ms[1..], id, advice, call);
      DelegateUnfold(ms, id, advice, call);
    }
  }

  /** A call that is excluded, or whose class has no registered bindings,
      runs the business method exactly once and creates no instance. */
  lemma UnregisteredProceedsOnce(registry: map<ClassId, seq<AnnotatedType>>, first: nat, aroundInvokes: ClassId -> seq<MethodId>, advice: MethodId -> Advice, call: Call)
    requires call.excludeClassInterceptors || call.businessMethod.declaringClass !in registry
    ensures var d := WrapperDispatch(registry, first, aroundInvokes, advice, call);
      && d.outcome == call.target && d.instances == 0
      && d.events == [TargetInvoked(call.businessMethod)]
  {
  }

    /** The loop invariant of `handleAroundInvokeInterception`: the whole
      dispatch `total` is what the trace shows so far followed by the
      dispatch over the bindings from `k` on. */
  ghost predicate DispatchRest(total: Dispatch, bs: seq<AnnotatedType>, runs: seq<Run>, k: nat, first: nat, altered: Value, call: Call,
                               trace0: seq<Event>, trace: seq<Event>)
  {
    && |runs| == |bs| && k <= |bs|
    && var here := BindingsOver(bs[k..], runs[k..], first + k, altered, call);
    && trace0 + total.events == trace + here.events
    && total.outcome == here.outcome
    && total.instances == k + here.instances
  }

  /** A pass whose delegation threw ends the dispatch. */
  lemma DispatchStops(total: Dispatch, bs: seq<AnnotatedType>, runs: seq<Run>, k: nat, first: nat, altered: Value, call: Call,
                      trace0: seq<Event>, trace1: seq<Event>)
    requires DispatchRest(total, bs, runs, k, first, altered, call, trace0, trace1) && k < |bs| && runs[k].outcome.Threw?
    ensures trace0 + total.events == trace1 + (Instantiation(bs[k], first + k) + runs[k].events)
    ensures total.outcome == runs[k].outcome && total.instances == k + 1
  {
    BindingsOverPass(bs, runs, k, first, altered, call);
  }

  /** A pass that destroyed its instance carries the invariant to `k + 1`. */
  lemma DispatchContinues(total: Dispatch, bs: seq<AnnotatedType>, runs: seq<Run>, k: nat, first: nat, altered: Value, call: Call,
                          trace0: seq<Event>, trace1: seq<Event>)
    requires DispatchRest(total, bs, runs, k, first, altered, call, trace0, trace1) && k < |bs| && runs[k].outcome.Returned?
    ensures DispatchRest(total, bs, runs, k + 1, first, runs[k].outcome.value, call, trace0,
      trace1 + (Instantiation(bs[k], first + k) + runs[k].events + [PreDestroyed(first + k), Disposed(first + k)]))
  {
    BindingsOverPass(bs, runs, k, first, altered, call);
  }

  /** The invocation context the container hands to the wrapper:
      proceeding on it runs the business method. */
  class InvocationContext {
    const call: Call
    const beanManager: BeanManager

    constructor (call: Call, bm: BeanManager)
      ensures this.call == call && beanManager == bm
    {
      this.call := call;
      beanManager := bm;
    }

    /** `proceed()` */
    method Proceed() returns (outcome: Outcome)
      modifies beanManager
      ensures beanManager.nextInstance == old(beanManager.nextInstance)
      ensures beanManager.trace == old(beanManager.trace) + [TargetInvoked(call.businessMethod)]
      ensures outcome == call.target
    {
      beanManager.trace := beanManager.trace + [TargetInvoked(call.businessMethod)];
      outcome := call.target;
    }
  }

  /** The @InterceptorWrapper interceptor of the older extension. */
  class InterceptorWrapperImpl {
    const beanManager: BeanManager
    const data: InterceptorWrapperData

    constructor (bm: BeanManager, data: InterceptorWrapperData)
      ensures beanManager == bm && this.data == data
    {
      beanManager := bm;
      this.data := data;
    }

    /** `instantiateInterceptorInstanceIn(injectionTarget)` */
    method InstantiateInterceptorInstanceIn(t: AnnotatedType) returns (id: nat)
      modifies beanManager
      ensures id == old(beanManager.nextInstance) && beanManager.nextInstance == id + 1
      ensures beanManager.trace == old(beanManager.trace) + Instantiation(t, id)
    {
      id := beanManager.Produce(t);
      beanManager.InjectInstance(id);
      beanManager.PostConstruct(id);
    }

    /** `destroyInjectionTarget(instance, injectionTarget)` */
    method DestroyInjectionTarget(id: nat)
      modifies beanManager
      ensures beanManager.nextInstance == old(beanManager.nextInstance)
      ensures beanManager.trace == old(beanManager.trace) + [PreDestroyed(id), Disposed(id)]
    {
      beanManager.PreDestroy(id);
      beanManager.Dispose(id);
    }

    /** `method.invoke(instance, invocationContext)` */
    method InvokeAroundInvoke(id: nat, m: MethodId, ctx: InvocationContext, advice: MethodId -> Advice) returns (outcome: Outcome)
      requires ctx.beanManager == beanManager
      modifies beanManager
      ensures beanManager.nextInstance == old(beanManager.nextInstance)
      ensures beanManager.trace == old(beanManager.trace) + AroundInvokeCall(id, m, advice, ctx.call).events
      ensures outcome == AroundInvokeCall(id, m, advice, ctx.call).outcome
    {
      beanManager.trace := beanManager.trace + [AroundInvoked(id, m)];
      match advice(m)
      case Proceed =>
        outcome := ctx.Proceed();
      case ShortCircuit(v) =>
        outcome := Returned(v);
      case Raise(x) =>
        outcome := Threw(x);
    }

    /** `delegateInterceptorCall(instance, invocationContext)` */
    method DelegateInterceptorCall(t: AnnotatedType, id: nat, ctx: InvocationContext, aroundInvokes: ClassId -> seq<MethodId>, advice: MethodId -> Advice) returns (outcome: Outcome)
      requires ctx.beanManager == beanManager
      modifies beanManager
      ensures beanManager.nextInstance == old(beanManager.nextInstance)
      ensures beanManager.trace == old(beanManager.trace) + Delegate(aroundInvokes(t.javaClass), id, advice, ctx.call).events
      ensures outcome == Delegate(aroundInvokes(t.javaClass), id, advice, ctx.call).outcome
    {
      outcome := DelegateToMethods(aroundInvokes(t.javaClass), id, ctx, advice);
    }

    /** The loop of `delegateInterceptorCall` over the interceptor methods `ms`. */
    method DelegateToMethods(ms: seq<MethodId>, id: nat, ctx: InvocationContext, advice: MethodId -> Advice) returns (outcome: Outcome)
      requires ctx.beanManager == beanManager
      modifies beanManager
      ensures beanManager.nextInstance == old(beanManager.nextInstance)
      ensures beanManager.trace == old(beanManager.trace) + Delegate(ms, id, advice, ctx.call).events
      ensures outcome == Delegate(ms, id, advice, ctx.call).outcome
    {
      var trace0 := beanManager.trace;
      var j := 0;
      while j < |ms|
        invariant 0 <= j <= |ms|
        invariant beanManager.nextInstance == old(beanManager.nextInstance)
        invariant trace0 + Delegate(ms, id, advice, ctx.call).events == beanManager.trace + Delegate(ms[j..], id, advice, ctx.call).events
        invariant Delegate(ms, id, advice, ctx.call).outcome == Delegate(ms[j..], id, advice, ctx.call).outcome
      {
        assert ms[j..][0] == ms[j] && ms[j..][1..] == ms[j + 1..];
        DelegateUnfold(ms[j..], id, advice, ctx.call);
        ghost var trace1 := beanManager.trace;
        var r := InvokeAroundInvoke(id, ms[j], ctx, advice);
        if r.Threw? {
          return Threw(Wrapped(r.exception));
        }
        if r.value != Null {
          return r;
        }
        assert trace1 + Delegate(ms[j..], id, advice, ctx.call).events
            == beanManager.trace + Delegate(ms[j + 1..], id, advice, ctx.call).events;
        j := j + 1;
      }
      assert ms[j..] == [];
      outcome := ctx.Proceed();
    }

    /** `handleAroundInvokeInterception(invocationContext)` */
    method HandleAroundInvokeInterception(ctx: InvocationContext, aroundInvokes: ClassId -> seq<MethodId>, advice: MethodId -> Advice) returns (outcome: Outcome)
      requires ctx.beanManager == beanManager
      modifies beanManager
      ensures var d := WrapperDispatch(data.modifiedInterceptorBindings, old(beanManager.nextInstance), aroundInvokes, advice, ctx.call);
        && outcome == d.outcome
        && beanManager.trace == old(beanManager.trace) + d.events
        && beanManager.nextInstance == old(beanManager.nextInstance) + d.instances
    {
      var c := ctx.call.businessMethod.declaringClass;
      if !ctx.call.excludeClassInterceptors && c in data.modifiedInterceptorBindings {
        outcome := RunBindings(data.modifiedInterceptorBindings[c], ctx, aroundInvokes, advice);
      } else {
        outcome := ctx.Proceed();
      }
    }

    /** The loop of `handleAroundInvokeInterception` over the bindings `bs`,
        and the answer after it. */
    method RunBindings(bs: seq<AnnotatedType>, ctx: InvocationContext, aroundInvokes: ClassId -> seq<MethodId>, advice: MethodId -> Advice) returns (outcome: Outcome)
      requires ctx.beanManager == beanManager
      modifies beanManager
      ensures var d := BindingsRun(bs, old(beanManager.nextInstance), Null, aroundInvokes, advice, ctx.call);
        && outcome == d.outcome
        && beanManager.trace == old(beanManager.trace) + d.events
        && beanManager.nextInstance == old(beanManager.nextInstance) + d.instances
    {
      var first := beanManager.nextInstance;
      ghost var trace0 := beanManager.trace;
      ghost var runs := DelegationsOf(bs, first, aroundInvokes, advice, ctx.call);
      BindingsRunOver(bs, runs, first, Null, aroundInvokes, advice, ctx.call);
      ghost var total := BindingsOver(bs, runs, first, Null, ctx.call);
      var altered := Null;
      var k := 0;
      assert bs[k..] == bs && runs[k..] == runs;
      while k < |bs|
        invariant 0 <= k <= |bs|
        invariant beanManager.nextInstance == first + k
        invariant DispatchRest(total, bs, runs, k, first, altered, ctx.call, trace0, beanManager.trace)
      {
        ghost var trace1 := beanManager.trace;
        ghost var d := runs[k];
        var r := RunBinding(bs[k], ctx, aroundInvokes, advice, d);
        if r.Threw? {
          DispatchStops(total, bs, runs, k, first, altered, ctx.call, trace0, trace1);
          return r;
        }
        DispatchContinues(total, bs, runs, k, first, altered, ctx.call, trace0, trace1);
        altered := r.value;
        k := k + 1;
      }
      assert bs[k..] == [] && runs[k..] == [];
      if altered != Null {
        return Returned(altered);
      }
      outcome := ctx.Proceed();
    }

    /** One pass of the loop: an instance of `t` is created, delegated to,
        and destroyed unless the delegation threw. */
    method RunBinding(t: AnnotatedType, ctx: InvocationContext, aroundInvokes: ClassId -> seq<MethodId>, advice: MethodId -> Advice, ghost d: Run) returns (outcome: Outcome)
      requires ctx.beanManager == beanManager
      requires d == Delegate(aroundInvokes(t.javaClass), beanManager.nextInstance, advice, ctx.call)
      modifies beanManager
      ensures var id := old(beanManager.nextInstance);
        && outcome == d.outcome
        && beanManager.nextInstance == id + 1
        && (d.outcome.Threw? ==> beanManager.trace == old(beanManager.trace) + (Instantiation(t, id) + d.events))
        && (d.outcome.Returned? ==>
              beanManager.trace == old(beanManager.trace) + (Instantiation(t, id) + d.events + [PreDestroyed(id), Disposed(id)]))
    {
      var id := InstantiateInterceptorInstanceIn(t);
      outcome := DelegateInterceptorCall(t, id, ctx, aroundInvokes, advice);
      if !outcome.Threw? {
        DestroyInjectionTarget(id);
      }
    }
  }
}
