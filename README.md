# BeanTest core in Dafny

BeanTest runs EJB-style beans (`@Stateless`, `@MessageDriven`, EJB
interceptors) inside a plain CDI container, for unit tests. It does this in
two phases. This project models both and proves what each of them promises.

**Load time.** CDI portable extensions observe every discovered type and
rewrite its metadata:

- The **injection point rewrite** adds `@Inject` to fields and methods that
  carry `@Resource`, `@EJB` or `@PersistenceContext`. It rejects a setter
  whose property already has a rewritten field. There are three Java copies
  of this rewrite (`InjectionHelper`, `BaseExtension.InjectionPointReplacement`
  and `BeanTestExtension.InjectionPointReplacement`).
- The **EJB extension** makes stateless and message-driven beans
  `@Transactional` and `@RequestScoped`.
- The **interceptor extension** replaces `@Interceptors` by the
  `@EjbInterceptorWrapper` binding. It registers the rewritten interceptor
  descriptors in a process-wide repository.
- The **older single extension** (`BeanTestExtension`) does all of this
  with the older `@InterceptorWrapper` binding and its static
  `InterceptorWrapperData`.

**Call time.** Two kinds of interceptor are bound to the rewritten beans.
Each is modelled on its own; the container's ordering of the two is not:

- The **wrapper interceptors** (`EjbInterceptorWrapperImpl` and the older
  `InterceptorWrapperImpl`) instantiate the registered interceptors, run
  their `@AroundInvoke` methods, and destroy them. The EJB wrapper runs
  them on a fresh invocation context of its own and never proceeds the
  container's context.
- The **transactional interceptor** begins, commits or rolls back a
  resource-local transaction around the outermost transactional call. A
  counter that all its instances share tracks how deeply calls are nested.

The Dafny modules follow the Java classes:

| module | Java class |
|---|---|
| `Meta`, `JavaStrings`, `OrderedSet`, `TypeBuilder`, `Invocation` | shared vocabulary: annotations, descriptors, `String.split`/`equalsIgnoreCase` (ASCII case mapping), `LinkedHashSet`, DeltaSpike's `AnnotatedTypeBuilder`, the call-time records |
| `InjectionHelper` | `InjectionHelper` |
| `BaseExtension` | `BaseExtension` |
| `EJBExtension` | `EJBExtension` |
| `InterceptorExtension` | `InterceptorExtension` |
| `EjbInterceptorWrapperImpl` | `EjbInterceptorWrapperImpl` |
| `InterceptorWrapperImpl` | `InterceptorWrapperImpl` |
| `BeanTestExtension` | `BeanTestExtension` |
| `Transactions` | `TransactionalInterceptor` |

**How the model is built:**

- The imperative Java methods are Dafny methods with loops. Their contracts
  tie each result and each new state to a specification function.
- Lemmas prove what the code promises about those functions.
- Reflection (`readFromType(Class)`) is a function parameter `classes`.
- What an interceptor method does when invoked is a parameter `advice`:
  it proceeds and passes on what proceeding gives, returns a value without
  proceeding, or throws without proceeding.
- What the business method does is part of the call (`Call.target`). In the
  transactional model it is a `Work` tree of nested transactional calls.

**Where the code and its documentation differ, the model follows the code:**

- The EJB wrapper tears down interceptor instances only after a normal
  return.
- Without a registered binding, the EJB wrapper returns the result it
  stored last and does not proceed.

## Model


| member | source | states |
|---|---|---|
| JavaStrings.SetterSuffixIsSplitElementOne | src/main/java/info/novatec/beantest/extension/InjectionHelper.java:146-147 | the setter suffix is element 1 of Java's `split("set")`, and the index error occurs exactly when that element does not exist |
| JavaStrings.TrimKeepsTwo | src/main/java/info/novatec/beantest/extension/BaseExtension.java:190-192 | dropping trailing empty pieces keeps element 1 whenever some later piece is non-empty |
| InjectionHelper.ShouldInjectMeansLegacyWithoutInject | src/main/java/info/novatec/beantest/extension/InjectionHelper.java:106-133 | helper fact: a member is rewritten iff it lacks @Inject and has @Resource, @EJB or @PersistenceContext |
| InjectionHelper.IsInjectionPointAlreadyProcessed | src/main/java/info/novatec/beantest/extension/InjectionHelper.java:156-164 | the scan answers true iff some recorded field name equals the suffix ignoring case |
| InjectionHelper.ValidateDependencyConfiguration | src/main/java/info/novatec/beantest/extension/InjectionHelper.java:144-154 | a setter whose suffix names a recorded field raises a DefinitionException naming the declaring type; an unsplittable "set…" name raises the index error; other methods pass |
| InjectionHelper.AddInjectAnnotation | src/main/java/info/novatec/beantest/extension/InjectionHelper.java:71-87 | the builder ends in the state of the rewrite rule (fields first, then methods, stopping at the first rejected setter) and the failure thrown is the rule's |
| InjectionHelper.RecordedFieldsExact | src/main/java/info/novatec/beantest/extension/InjectionHelper.java:74-79 | the field pass records exactly the qualifying fields |
| InjectionHelper.MethodPhaseExact | src/main/java/info/novatec/beantest/extension/InjectionHelper.java:81-86 | the method pass injects only accepted qualifying methods, stops iff some qualifying method is rejected, and reports the first rejection |
| InjectionHelper.MethodPhaseStopped | src/main/java/info/novatec/beantest/extension/InjectionHelper.java:81-86 | once the method pass has failed, later methods change nothing |
| InjectionHelper.RewriteInjectsExactlyQualifyingMembers | src/main/java/info/novatec/beantest/extension/InjectionHelper.java:71-87 | on success @Inject goes to exactly the fields and methods with a legacy annotation and no @Inject |
| InjectionHelper.RewriteFailsIffSetterClashes | src/main/java/info/novatec/beantest/extension/InjectionHelper.java:144-154 | the rewrite fails iff some qualifying setter clashes with a qualifying field, with the failure of the first clashing method |
| InjectionHelper.MethodPhaseSameRecordedSet | src/main/java/info/novatec/beantest/extension/InjectionHelper.java:156-164 | the check reads the recorded names only as a set |
| InjectionHelper.RewriteIgnoresFieldOrder | src/main/java/info/novatec/beantest/extension/InjectionHelper.java:74-79 | the iteration order of fields does not change the outcome of the rewrite: the same failure, or the same recorded injection points and the same fields and methods carrying @Inject |
| InjectionHelper.MethodPhaseSameType | src/main/java/info/novatec/beantest/extension/InjectionHelper.java:81-86 | the method pass reads a type only through its class and method annotations |
| InjectionHelper.InjectedAddsOnlyInject | src/main/java/info/novatec/beantest/extension/InjectionHelper.java:71-87 | the rewrite changes only member annotations, only by adding @Inject, and exactly to qualifying members the pass reached |
| InjectionHelper.NoLegacyAnnotationNoChange | src/test/java/info/novatec/beantest/extension/InjectionHelperTest.java:39-67 | a type none of whose fields and methods carries @Resource, @EJB or @PersistenceContext (a plain member, or one carrying only @Inject, as in the two tests) passes the check and is left unchanged |
| InjectionHelper.QualifyingNone | src/main/java/info/novatec/beantest/extension/InjectionHelper.java:71-87 | a type none of whose members qualifies, each either without a Java EE annotation or already carrying @Inject, passes the check and is left unchanged |
| InjectionHelper.RewriteIdempotent | src/main/java/info/novatec/beantest/extension/InjectionHelper.java:106-108 | running the rewrite a second time changes nothing more |
| InjectionHelper.InvalidBeanConfigurationRejected | src/test/java/info/novatec/beantest/extension/resources/InvalidBeanConfiguration.java:25-32 | a @Resource field and a @Resource setter for the same property are rejected with a DefinitionException naming the bean and the setter |
| InjectionHelper.ValidMethodMemberInjected | src/test/java/info/novatec/beantest/extension/InjectionHelperTest.java:84-97 | a bean whose only injection point is a @Resource setter gets @Inject on that setter and nowhere else |
| InjectionHelper.InjectFieldDoesNotBlockSetter | src/main/java/info/novatec/beantest/extension/InjectionHelper.java:74-79 | a field that already has @Inject is not recorded, so a @Resource setter for it is accepted and rewritten |
| InjectionHelper.SetterOnlyAccepted | src/main/java/info/novatec/beantest/extension/InjectionHelper.java:144-154 | with a non-qualifying field, the matching setter alone is rewritten |
| TypeBuilder.AnnotatedTypeBuilder.ReadFromType | src/main/java/info/novatec/beantest/extension/BaseExtension.java:65-67 | a builder read from a type describes that type |
| TypeBuilder.AnnotatedTypeBuilder.Create | src/main/java/info/novatec/beantest/extension/BaseExtension.java:95 | the descriptor returned is the builder's current state |
| TypeBuilder.AnnotatedTypeBuilder.AddToClass | src/main/java/info/novatec/beantest/extension/EJBExtension.java:72-73 | the class annotations gain the marker; fields, methods and their annotations are unchanged |
| TypeBuilder.AnnotatedTypeBuilder.AddToField | src/main/java/info/novatec/beantest/extension/InjectionHelper.java:76 | the named field's annotations gain the marker; every other annotation is unchanged |
| TypeBuilder.AnnotatedTypeBuilder.AddToMethod | src/main/java/info/novatec/beantest/extension/InjectionHelper.java:84 | the named method's annotations gain the marker; every other annotation is unchanged |
| TypeBuilder.AnnotatedTypeBuilder.RemoveInterceptorsFromMethod | src/main/java/info/novatec/beantest/extension/InterceptorExtension.java:163 | only the named method's @Interceptors is removed; everything else is unchanged |
| TypeBuilder.AnnotatedTypeBuilder.RemoveInterceptorsFromClass | src/main/java/info/novatec/beantest/extension/InterceptorExtension.java:186-191 | removes the class-level @Interceptors and nothing else |
| TypeBuilder.ProcessAnnotatedType.SetAnnotatedType | src/main/java/info/novatec/beantest/extension/BeanTestExtension.java:122 | the event now holds the new type, and one more replacement is counted |
| BaseExtension.InjectionPointReplacement.IsInjectionPointAlreadyProcessed | src/main/java/info/novatec/beantest/extension/BaseExtension.java:194-201 | true iff a recorded field name equals the suffix ignoring case |
| BaseExtension.InjectionPointReplacement.ValidateDependencyConfiguration | src/main/java/info/novatec/beantest/extension/BaseExtension.java:177-188 | the same check as InjectionHelper's, with the DefinitionException naming the processed type |
| BaseExtension.InjectionPointReplacement.PerformReplacements | src/main/java/info/novatec/beantest/extension/BaseExtension.java:155-169 | the builder ends in the rewrite rule's state and the failure thrown is the rule's, naming the processed type |
| BaseExtension.InjectionPointReplacement.ReplaceFieldInjectionPoints | src/main/java/info/novatec/beantest/extension/BaseExtension.java:156-161 | every field that is a Java EE injection point without @Inject, and only those, gains @Inject and is recorded by name in declaration order; method annotations are untouched |
| BaseExtension.InjectionPointReplacement.ReplaceMethodInjectionPoints | src/main/java/info/novatec/beantest/extension/BaseExtension.java:163-168 | methods gain @Inject in declaration order exactly as the rewrite rule's method phase says, stopping at the first setter that duplicates a recorded field, whose failure is thrown |
| BaseExtension.BaseExtension.AddInjectAnnotationInAnnotatedType | src/main/java/info/novatec/beantest/extension/BaseExtension.java:56-59 | one rewrite run of the given type into the given builder |
| BaseExtension.BaseExtension.AddInjectAnnotationInRawClass | src/main/java/info/novatec/beantest/extension/BaseExtension.java:90-100 | the result is the rewrite of the class; a cached class is not rewritten again; only successful rewrites are cached |
| EJBExtension.EjbMetaDataSpec | src/main/java/info/novatec/beantest/extension/EJBExtension.java:69-76 | a bean gains exactly @Transactional and @RequestScoped at class level, keeps its @Interceptors, and its members change only by the @Inject rewrite |
| EJBExtension.EJBExtension.ModifyAnnotatedTypeMetaData | src/main/java/info/novatec/beantest/extension/EJBExtension.java:69-76 | on success the event holds EjbMetaData of its type; a failing rewrite leaves the event unchanged |
| EJBExtension.EJBExtension.OnProcessStatelessOrMessageDrivenBean | src/main/java/info/novatec/beantest/extension/EJBExtension.java:53-57 | the observer stores the event and performs the metadata change |
| OrderedSet.AddAllSpec | src/main/java/info/novatec/beantest/extension/EjbInterceptorWrapperImpl.java:164-166 | `addAll` keeps the old elements in front, adds exactly the new ones, and never creates a duplicate |
| OrderedSet.FromSeqSpec | src/main/java/info/novatec/beantest/extension/InterceptorExtension.java:210-221 | a set built from a list holds each element exactly once |
| EjbInterceptorWrapperImpl.EjbInterceptorWrapperBinding.AddClassLevelBinding | src/main/java/info/novatec/beantest/extension/EjbInterceptorWrapperImpl.java:164-166 | the class-level bindings become old ∪ new, in insertion order, without duplicates |
| EjbInterceptorWrapperImpl.EjbInterceptorWrapperBinding.AddMethodLevelBinding | src/main/java/info/novatec/beantest/extension/EjbInterceptorWrapperImpl.java:168-170 | the method's entry is replaced; other methods keep theirs |
| EjbInterceptorWrapperImpl.EjbInterceptorWrapperRepository.AddInterceptorWrapperBinding | src/main/java/info/novatec/beantest/extension/EjbInterceptorWrapperImpl.java:143-145 | a later binding for the same class replaces the earlier one; other classes are unchanged |
| EjbInterceptorWrapperImpl.RunChainReachesTarget | src/main/java/info/novatec/beantest/extension/EjbInterceptorWrapperImpl.java:231-235 | when every interceptor method proceeds, each is invoked once in chain order, then the business method, whose outcome is the call's |
| EjbInterceptorWrapperImpl.RunChainStopsAtFirstAnswer | src/main/java/info/novatec/beantest/extension/EjbInterceptorWrapperImpl.java:231-235 | the first interceptor method that does not proceed ends the call with its answer; later methods and the business method never run |
| EjbInterceptorWrapperImpl.RunChainReachesTargetIff | src/main/java/info/novatec/beantest/extension/EjbInterceptorWrapperImpl.java:231-235 | the business method runs iff every interceptor method proceeds |
| EjbInterceptorWrapperImpl.RunChainOnlyInvokes | src/main/java/info/novatec/beantest/extension/EjbInterceptorWrapperImpl.java:231-235 | helper fact: a chain run records only interceptor-method and business-method invocations (no instance is created or destroyed inside the chain) |
| EjbInterceptorWrapperImpl.RunChain | src/main/java/info/novatec/beantest/extension/EjbInterceptorWrapperImpl.java:231-235 | specification of proceeding on the new invocation context: each interceptor method in chain order, then the business method, the first one that does not proceed ending the call with its own answer; its properties are the RunChain lemmas above |
| EjbInterceptorWrapperImpl.Interception | src/main/java/info/novatec/beantest/extension/EjbInterceptorWrapperImpl.java:224-247 | specification of one intercepted call: all instances are created, the chain runs, and the instances are torn down only after a normal return; its properties are InterceptionProducesChain and InterceptionDisposesIffReturned |
| EjbInterceptorWrapperImpl.CreationSpec | src/main/java/info/novatec/beantest/extension/EjbInterceptorWrapperImpl.java:298-309 | instance first + k is produced, injected and post-constructed for the k-th descriptor, and no other instance is touched |
| EjbInterceptorWrapperImpl.TeardownSpec | src/main/java/info/novatec/beantest/extension/EjbInterceptorWrapperImpl.java:243-247 | teardown pre-destroys and disposes exactly the created instances, in order |
| EjbInterceptorWrapperImpl.InterceptionProducesChain | src/main/java/info/novatec/beantest/extension/EjbInterceptorWrapperImpl.java:249-279 | one instance per chain entry is produced, of that entry's class, and none other |
| EjbInterceptorWrapperImpl.InterceptionDisposesIffReturned | src/main/java/info/novatec/beantest/extension/EjbInterceptorWrapperImpl.java:224-229 | every instance created for the call is disposed iff the call returns normally |
| EjbInterceptorWrapperImpl.ExcludedClassInterceptorNotProduced | src/main/java/info/novatec/beantest/extension/EjbInterceptorWrapperImpl.java:249-267 | with @ExcludeClassInterceptors on the business method, an interceptor bound only at class level is never instantiated |
| EjbInterceptorWrapperImpl.DestroyInjectionTarget.Destroy | src/main/java/info/novatec/beantest/extension/EjbInterceptorWrapperImpl.java:334-337 | the instance is pre-destroyed, then disposed |
| EjbInterceptorWrapperImpl.InvocationContextModifier.InjectInterceptorInstance | src/main/java/info/novatec/beantest/extension/EjbInterceptorWrapperImpl.java:298-309 | a fresh instance is produced, injected and post-constructed, and remembered for teardown |
| EjbInterceptorWrapperImpl.InvocationContextModifier.CreateInterceptorChain | src/main/java/info/novatec/beantest/extension/EjbInterceptorWrapperImpl.java:249-291 | one instance per descriptor, in order, and the chain positions of their interceptor methods |
| EjbInterceptorWrapperImpl.InvocationContextModifier.InvokeWrappedInterceptors | src/main/java/info/novatec/beantest/extension/EjbInterceptorWrapperImpl.java:231-235 | the outcome and record of running the chain are RunChain's |
| EjbInterceptorWrapperImpl.InvocationContextModifier.TearDownWrappedInterceptorInstances | src/main/java/info/novatec/beantest/extension/EjbInterceptorWrapperImpl.java:243-247 | every listed instance is destroyed, in order |
| EjbInterceptorWrapperImpl.InvocationContextModifier.Execute | src/main/java/info/novatec/beantest/extension/EjbInterceptorWrapperImpl.java:224-229 | the record and outcome are those of Interception on the binding's chain |
| EjbInterceptorWrapperImpl.InvocationContextModifier.Intercept | src/main/java/info/novatec/beantest/extension/EjbInterceptorWrapperImpl.java:226-227 | for a given chain, the record and outcome are Interception's, and exactly one fresh instance is drawn per chain entry |
| EjbInterceptorWrapperImpl.EjbInterceptorWrapperImpl.HandleAroundInvokeInterception | src/main/java/info/novatec/beantest/extension/EjbInterceptorWrapperImpl.java:77-85 | with a binding for the declaring class the call runs the Interception and stores its result; without one the stored result returns and nothing runs |
| InterceptorExtension.ModifiedBindingsSpec | src/main/java/info/novatec/beantest/extension/InterceptorExtension.java:210-221 | the bindings hold each listed class once, in order of first listing, as its rewritten descriptor |
| InterceptorExtension.ModifiedBindingsFailure | src/main/java/info/novatec/beantest/extension/InterceptorExtension.java:210-221 | the bindings fail iff some listed class's rewrite fails, with the first such failure |
| InterceptorExtension.ModifiedBindingsStopped | src/main/java/info/novatec/beantest/extension/InterceptorExtension.java:210-221 | after a failure, the later listed classes are not read |
| InterceptorExtension.MethodLevelBindingsSpec | src/main/java/info/novatec/beantest/extension/InterceptorExtension.java:158-169 | method-level bindings have an entry for exactly the visited methods with @Interceptors, holding that method's own bindings; they fail iff one of those classes fails |
| InterceptorExtension.RewriteFailsIffListedClassFails | src/main/java/info/novatec/beantest/extension/InterceptorExtension.java:118-130 | the interceptor rewrite fails iff some class listed by an @Interceptors of the type fails |
| InterceptorExtension.RewriteReplacesInterceptors | src/main/java/info/novatec/beantest/extension/InterceptorExtension.java:158-191 | on success no @Interceptors remains; the class and exactly the methods that had one carry the wrapper binding, other annotations and fields kept |
| InterceptorExtension.RewriteBindings | src/main/java/info/novatec/beantest/extension/InterceptorExtension.java:118-142 | on success there is a method entry for exactly the methods with @Interceptors, and the class-level bindings list each class once in listed order |
| InterceptorExtension.ExcludedClassInterceptorNeverRuns | src/test/java/info/novatec/beantest/extension/TestExcludedInterceptors.java:64-78 | the excluded business method of a bean bound at class level runs alone: no interceptor instance and no interceptor method |
| InterceptorExtension.NothingInterceptedNoMethodLevel | src/main/java/info/novatec/beantest/extension/InterceptorExtension.java:148-156 | without a method-level @Interceptors the method pass changes nothing |
| InterceptorExtension.EjbInterceptorModification.CreateModifiedInterceptorBindings | src/main/java/info/novatec/beantest/extension/InterceptorExtension.java:210-221 | the result is ModifiedBindings of the listed classes, computed through the extension's cache; the cache keeps every class it held, gains only listed classes, and on success holds all of them |
| InterceptorExtension.EjbInterceptorModification.IsMethodLevelAnnotationPresent | src/main/java/info/novatec/beantest/extension/InterceptorExtension.java:148-156 | true iff some method of the processed type carries @Interceptors |
| InterceptorExtension.EjbInterceptorModification.IsClassLevelAnnotationPresent | src/main/java/info/novatec/beantest/extension/InterceptorExtension.java:144-146 | holds iff the processed type carries a class-level @Interceptors |
| InterceptorExtension.EjbInterceptorModification.ModifyClassLevelInterceptor | src/main/java/info/novatec/beantest/extension/InterceptorExtension.java:186-191 | the class's @Interceptors gives way to the wrapper binding, and its classes become the class-level bindings; the cache keeps every class it held and on success holds every listed class |
| InterceptorExtension.EjbInterceptorModification.ModifyMethodLevelInterceptor | src/main/java/info/novatec/beantest/extension/InterceptorExtension.java:158-169 | each method's @Interceptors gives way to the wrapper binding, and its classes become that method's bindings; the cache keeps every class it held |
| InterceptorExtension.EjbInterceptorModification.ModifyInterceptedMethod | src/main/java/info/novatec/beantest/extension/InterceptorExtension.java:162-166 | one intercepted method: its @Interceptors gives way to the wrapper binding, and its listed classes become its method-level bindings unless one of them fails, whose failure is returned; the class-level bindings are unchanged; the cache keeps every class it held and on success holds every listed class |
| InterceptorExtension.EjbInterceptorModification.SaveInterceptorWrapperBinding | src/main/java/info/novatec/beantest/extension/InterceptorExtension.java:132-135 | the binding is registered under the processed type's class |
| InterceptorExtension.EjbInterceptorModification.ModifyEjbInterceptor | src/main/java/info/novatec/beantest/extension/InterceptorExtension.java:118-130 | on success the event holds the rewritten type and the repository the bindings; a failure leaves both unchanged; the cache keeps every class it held |
| InterceptorExtension.InterceptorExtension.OnProcessEjbInterceptor | src/main/java/info/novatec/beantest/extension/InterceptorExtension.java:57-61 | the observer's effect is EjbInterceptorRewrite's, and the extension's cache keeps every class it held |
| InterceptorExtension.InterceptorExtension.ModifyInterceptorBindingBean | src/main/java/info/novatec/beantest/extension/InterceptorExtension.java:86-90 | a CDI interceptor gets the @Inject rewrite, naming the processed type on failure |
| InterceptorExtension.InterceptorExtension.OnProcessInterceptorBindingBean | src/main/java/info/novatec/beantest/extension/InterceptorExtension.java:74-78 | the event is remembered; on success it holds the @Inject rewrite of the CDI interceptor, replaced once; a failure leaves it unchanged and is thrown; the interceptor cache is untouched |
| InterceptorWrapperImpl.FirstRegistrationWins | src/main/java/info/novatec/beantest/extension/InterceptorWrapperImpl.java:146-151 | after put-if-absent registrations, a key holds its earlier value or else its first registration |
| InterceptorWrapperImpl.InterceptorWrapperData.AddInterceptedClassWithModifiedInterceptorBindings | src/main/java/info/novatec/beantest/extension/InterceptorWrapperImpl.java:146-151 | a class already registered keeps its bindings; otherwise it gets the new ones |
| InterceptorWrapperImpl.InterceptorWrapperData.AddOriginInterceptorWithModifiedInterceptor | src/main/java/info/novatec/beantest/extension/InterceptorWrapperImpl.java:161-166 | the cache gains the descriptor unless the class was already cached |
| InterceptorWrapperImpl.Delegate | src/main/java/info/novatec/beantest/extension/InterceptorWrapperImpl.java:106-119 | specification of a delegation: the interceptor methods in turn, the first non-null result answering, an interceptor method's exception wrapped in a RuntimeException, and proceeding once all returned null; its properties are the Delegate lemmas below |
| InterceptorWrapperImpl.BindingsRun | src/main/java/info/novatec/beantest/extension/InterceptorWrapperImpl.java:56-67 | specification of the loop over the registered bindings: each binding gets an instance that is created, delegated to and destroyed, a throw ending the loop before destruction, and a non-null last result answering; its properties are the BindingsRun lemmas below |
| InterceptorWrapperImpl.WrapperDispatch | src/main/java/info/novatec/beantest/extension/InterceptorWrapperImpl.java:56-68 | specification of the whole interception: the bindings of the declaring class run unless the method excludes class interceptors or none are registered, in which case the call proceeds once (UnregisteredProceedsOnce) |
| InterceptorWrapperImpl.BindingsRunOver | src/main/java/info/novatec/beantest/extension/InterceptorWrapperImpl.java:56-68 | the loop over the bindings equals the same loop with each delegation precomputed |
| InterceptorWrapperImpl.DelegateOnlyInvokes | src/main/java/info/novatec/beantest/extension/InterceptorWrapperImpl.java:106-119 | helper fact: a delegation records only interceptor-method and business-method invocations (no instance is created or destroyed inside it) |
| InterceptorWrapperImpl.DelegateVoidProceeding | src/main/java/info/novatec/beantest/extension/InterceptorWrapperImpl.java:106-119 | with a void business method and every interceptor method proceeding, a delegation runs the business method once per interceptor method plus once at its end, and yields null |
| InterceptorWrapperImpl.BindingsRunRepeatsTarget | src/main/java/info/novatec/beantest/extension/InterceptorWrapperImpl.java:56-68 | in that case the whole dispatch runs the business method TargetRuns times, at least twice per binding |
| InterceptorWrapperImpl.BindingsRunInstances | src/main/java/info/novatec/beantest/extension/InterceptorWrapperImpl.java:90-97 | the loop produces at most one instance per binding |
| InterceptorWrapperImpl.BindingsRunDisposesOwnInstances | src/main/java/info/novatec/beantest/extension/InterceptorWrapperImpl.java:79-83 | the loop disposes only the instances it produced |
| InterceptorWrapperImpl.BindingsRunDisposesOnce | src/main/java/info/novatec/beantest/extension/InterceptorWrapperImpl.java:56-83 | every instance except the last one produced is disposed exactly once |
| InterceptorWrapperImpl.BindingsRunLeaksOnException | src/main/java/info/novatec/beantest/extension/InterceptorWrapperImpl.java:56-68 | when the loop stops early, a delegation threw, and its instance is never destroyed |
| InterceptorWrapperImpl.BindingsRunDestroysAllWithoutException | src/main/java/info/novatec/beantest/extension/InterceptorWrapperImpl.java:56-68 | when nothing throws, every instance is created and destroyed and the call returns normally |
| InterceptorWrapperImpl.DelegateReturns | src/main/java/info/novatec/beantest/extension/InterceptorWrapperImpl.java:106-119 | a delegation returns normally when no interceptor method throws and the business method returns normally |
| InterceptorWrapperImpl.UnregisteredProceedsOnce | src/main/java/info/novatec/beantest/extension/InterceptorWrapperImpl.java:56-72 | an excluded call, or one whose class has no bindings, runs the business method exactly once and creates no instance |
| InterceptorWrapperImpl.InvocationContext.Proceed | src/main/java/info/novatec/beantest/extension/InterceptorWrapperImpl.java:118 | proceeding records the business method's invocation and yields its outcome |
| InterceptorWrapperImpl.InterceptorWrapperImpl.InstantiateInterceptorInstanceIn | src/main/java/info/novatec/beantest/extension/InterceptorWrapperImpl.java:90-97 | a fresh instance is produced, injected and post-constructed |
| InterceptorWrapperImpl.InterceptorWrapperImpl.DestroyInjectionTarget | src/main/java/info/novatec/beantest/extension/InterceptorWrapperImpl.java:79-83 | the instance is pre-destroyed, then disposed |
| InterceptorWrapperImpl.InterceptorWrapperImpl.DelegateInterceptorCall | src/main/java/info/novatec/beantest/extension/InterceptorWrapperImpl.java:106-119 | record and outcome are Delegate's over the instance's @AroundInvoke methods |
| InterceptorWrapperImpl.InterceptorWrapperImpl.DelegateToMethods | src/main/java/info/novatec/beantest/extension/InterceptorWrapperImpl.java:108-118 | the loop over the interceptor methods produces Delegate's record and outcome and creates no instance |
| InterceptorWrapperImpl.InterceptorWrapperImpl.InvokeAroundInvoke | src/main/java/info/novatec/beantest/extension/InterceptorWrapperImpl.java:111 | one reflective invocation records the interceptor method and what its advice does, and yields its outcome; no instance is created |
| InterceptorWrapperImpl.InterceptorWrapperImpl.HandleAroundInvokeInterception | src/main/java/info/novatec/beantest/extension/InterceptorWrapperImpl.java:56-68 | record and outcome are WrapperDispatch's over the registered bindings |
| InterceptorWrapperImpl.InterceptorWrapperImpl.RunBindings | src/main/java/info/novatec/beantest/extension/InterceptorWrapperImpl.java:59-66 | the loop over the bindings produces BindingsRun's record and outcome |
| InterceptorWrapperImpl.InterceptorWrapperImpl.RunBinding | src/main/java/info/novatec/beantest/extension/InterceptorWrapperImpl.java:61-64 | one pass creates an instance, delegates to it, and destroys it unless the delegation threw |
| BeanTestExtension.ScanClassesCache | src/main/java/info/novatec/beantest/extension/BeanTestExtension.java:175-184 | the loop only adds to the interceptor cache, and only rewrites of the cached classes |
| BeanTestExtension.ScanClassesSuccess | src/main/java/info/novatec/beantest/extension/BeanTestExtension.java:167-190 | a built chain holds the rewrite of each listed class in listed order, duplicates included, and every listed class is then cached |
| BeanTestExtension.ScanClassesFailure | src/main/java/info/novatec/beantest/extension/BeanTestExtension.java:167-190 | the chain fails iff some listed class's rewrite fails, with the first such failure, and only the classes before it are newly cached |
| BeanTestExtension.ScanClassesStopped | src/main/java/info/novatec/beantest/extension/BeanTestExtension.java:172-188 | a failure ends the loop; later classes are not read |
| BeanTestExtension.ScanClassesCached | src/main/java/info/novatec/beantest/extension/BeanTestExtension.java:175-177 | when every listed class is cached, the chain comes from the cache and the cache is unchanged |
| BeanTestExtension.ScanClasses | src/main/java/info/novatec/beantest/extension/BeanTestExtension.java:172-187 | specification of the getModifiedInterceptorBindings loop: a cached class gives its cached descriptor, any other its rewrite, then cached; the first failing rewrite ends the loop; its properties are the ScanClasses lemmas above |
| BeanTestExtension.InterceptorsStep | src/main/java/info/novatec/beantest/extension/BeanTestExtension.java:136-145 | specification of modifyInterceptorBindings: the class-level @Interceptors gives way to @InterceptorWrapper and the chain is registered under the class unless it already has one; its properties are InterceptorsObservedTwice and the observer-order lemmas |
| BeanTestExtension.MetaDataObserved | src/main/java/info/novatec/beantest/extension/BeanTestExtension.java:203-222 | specification of the bean observer as written: @Transactional and @RequestScoped, the @Inject rewrite, the hand-over of class-level @Interceptors, and the rewrite a second time; its properties are MetaDataObservedSpec and InjectedTwice |
| BeanTestExtension.DuplicateInterceptorKept | src/main/java/info/novatec/beantest/extension/BeanTestExtension.java:170 | an interceptor listed twice appears twice in the chain: the chain is a list, not a set |
| BeanTestExtension.InjectedTwice | src/main/java/info/novatec/beantest/extension/BeanTestExtension.java:212-219 | the second @Inject rewrite of the same type adds nothing |
| BeanTestExtension.RewriteIgnoresClassAnnotations | src/main/java/info/novatec/beantest/extension/BeanTestExtension.java:306-320 | the @Inject rewrite neither reads nor changes class annotations |
| BeanTestExtension.MetaDataObservedSpec | src/main/java/info/novatec/beantest/extension/BeanTestExtension.java:203-222 | the bean observer raises the rewrite's failure, else the chain's; the registries change only by building and registering the chain; on success the bean is BeanMetaData: @Transactional, @RequestScoped, @Inject rewrite, @Interceptors swapped for @InterceptorWrapper |
| BeanTestExtension.MethodLevelInterceptorsFail | src/main/java/info/novatec/beantest/extension/BeanTestExtension.java:167-169 | with @Interceptors only on methods, the @Interceptors observer throws a NullPointerException and leaves both registries unchanged |
| BeanTestExtension.InterceptorsObservedTwice | src/main/java/info/novatec/beantest/extension/BeanTestExtension.java:141-144 | running the @Interceptors observer on a class again changes nothing: the cached chain is rebuilt and the first registration stays |
| BeanTestExtension.BeanObserverFirst | src/main/java/info/novatec/beantest/extension/BeanTestExtension.java:87-105 | if the bean observer runs first on a bean with class-level @Interceptors, the @Interceptors observer then throws a NullPointerException |
| BeanTestExtension.InterceptorsObserverFirst | src/main/java/info/novatec/beantest/extension/BeanTestExtension.java:87-105 | if the @Interceptors observer runs first, the bean observer leaves the registries alone and the bean ends as BeanMetaData |
| BeanTestExtension.BeanTestExtension.ProcessInterceptorBeans | src/main/java/info/novatec/beantest/extension/BeanTestExtension.java:70-72 | a CDI interceptor gets the @Inject rewrite; a failure leaves the event unchanged |
| BeanTestExtension.BeanTestExtension.ProcessStatelessOrMessagedrivenBeans | src/main/java/info/novatec/beantest/extension/BeanTestExtension.java:87-89 | the effect is MetaDataObserved's, and the cache stays valid |
| BeanTestExtension.BeanTestExtension.ProcessInterceptorsBeans | src/main/java/info/novatec/beantest/extension/BeanTestExtension.java:103-105 | the effect is InterceptorsObserved's, and the cache stays valid |
| BeanTestExtension.BeanTestExtension.ModifyInterceptorBindings | src/main/java/info/novatec/beantest/extension/BeanTestExtension.java:117-123 | the event's type gets the wrapper binding and its chain is registered; the type is replaced exactly once, and only on success |
| BeanTestExtension.BeanTestExtension.ModifyInterceptorBindingsWith | src/main/java/info/novatec/beantest/extension/BeanTestExtension.java:136-145 | @Interceptors is removed and @InterceptorWrapper added, then the chain is registered if the class has none yet |
| BeanTestExtension.BeanTestExtension.GetModifiedInterceptorBindings | src/main/java/info/novatec/beantest/extension/BeanTestExtension.java:167-190 | the result and the new cache are ModifiedInterceptorBindings'; the binding registry is untouched |
| BeanTestExtension.BeanTestExtension.ModifyAnnotatedTypeMetaData | src/main/java/info/novatec/beantest/extension/BeanTestExtension.java:203-222 | the effect is MetaDataObserved's; the type is replaced exactly once, and only on success |
| BeanTestExtension.BeanTestExtension.ProcessInterceptorDependencies | src/main/java/info/novatec/beantest/extension/BeanTestExtension.java:232-236 | on success the event holds the @Inject rewrite of its type, replaced exactly once |
| BeanTestExtension.BeanTestExtension.ModifiedInterceptorFor | src/main/java/info/novatec/beantest/extension/BeanTestExtension.java:173-184 | one interceptor class is resolved as the cached scan says: the cached descriptor when already modified, otherwise its rewrite, cached only on success; the binding registry is untouched |
| BeanTestExtension.BeanTestExtension.IsInterceptorsAnnotationPresent | src/main/java/info/novatec/beantest/extension/BeanTestExtension.java:152-154 | holds iff the event's type carries a class-level @Interceptors |
| BeanTestExtension.BeanTestExtension.AddInjectAnnotation | src/main/java/info/novatec/beantest/extension/BeanTestExtension.java:249-348 | the builder ends in the rewrite rule's state and the failure thrown is the rule's, naming the processed type; the private InjectionPointReplacement copy has the same logic as BaseExtension's and is modelled by it |
| Transactions.InnerCallLeavesTransaction | src/main/java/info/novatec/beantest/transactions/TransactionalInterceptor.java:139-141 | a nested call on an active transaction does not begin, mark, commit or roll back, and returns or throws what its business method does |
| Transactions.InnerWorkLeavesTransaction | src/main/java/info/novatec/beantest/transactions/TransactionalInterceptor.java:69-93 | inside a transactional call, the business method's nested calls leave the transaction as it was |
| Transactions.OutermostCall | src/main/java/info/novatec/beantest/transactions/TransactionalInterceptor.java:69-145 | the outermost call begins iff no transaction is active; it marks rollback-only iff the business method throws a java.lang.Exception (not an Error) whose exact class is not exempt; it then rolls back if marked, else commits, and clears; it returns or rethrows the business method's outcome unless the commit fails |
| Transactions.ClosedEntityManager | src/main/java/info/novatec/beantest/transactions/TransactionalInterceptor.java:105 | with the entity manager closed, nothing is marked, committed, rolled back or cleared |
| Transactions.CaughtNestedExceptionCommits | src/test/java/info/novatec/beantest/extension/TestEJBInjection.java:72-83 | an exception thrown by a nested call and caught by its caller still commits |
| Transactions.UncaughtNestedExceptionRollsBack | src/test/java/info/novatec/beantest/extension/TestEJBInjection.java:88-103 | the same exception left unhandled rolls back and reaches the caller unchanged |
| Transactions.NoResultExceptionCommits | src/test/java/info/novatec/beantest/extension/TestNoRollbackException.java:56-76 | a NoResultException at the outermost call commits and is rethrown |
| Transactions.ErrorCommits | src/main/java/info/novatec/beantest/transactions/TransactionalInterceptor.java:80-90 | an Error thrown at the outermost call skips the catch block: the transaction commits and the Error reaches the caller |
| Transactions.Intercept | src/main/java/info/novatec/beantest/transactions/TransactionalInterceptor.java:69-93 | specification of manageTransaction: begin if inactive, run the business method one level deeper, mark rollback on a caught java.lang.Exception at the outermost level only, then process the transaction; its properties are OutermostCall, InnerCallLeavesTransaction and ClosedEntityManager |
| Transactions.ProceedWork | src/main/java/info/novatec/beantest/transactions/TransactionalInterceptor.java:81 | specification of the business method with its nested transactional calls, each through Intercept, an uncaught throw ending it; InnerWorkLeavesTransaction states what it does to the transaction |
| Transactions.TransactionalInterceptor.ManageTransaction | src/main/java/info/novatec/beantest/transactions/TransactionalInterceptor.java:69-93 | the counter is back at its entry value whatever happens, and the transaction and outcome are Intercept's, which marks rollback only for a caught java.lang.Exception |
| Transactions.TransactionalInterceptor.Proceed | src/main/java/info/novatec/beantest/transactions/TransactionalInterceptor.java:81 | the business method with its nested transactional calls leaves the counter unchanged and ends as ProceedWork describes |
| Transactions.TransactionalInterceptor.ProcessTransaction | src/main/java/info/novatec/beantest/transactions/TransactionalInterceptor.java:101-122 | the counter drops by one whatever happens; only the frame with counter 1 rolls back or commits, then clears |
| Transactions.TransactionalInterceptor.MarkRollbackTransaction | src/main/java/info/novatec/beantest/transactions/TransactionalInterceptor.java:127-137 | rollback-only is set iff the entity manager is open, the transaction active, and the exception's exact class not exempt |
| Transactions.TransactionalInterceptor.IsFirstInterceptor | src/main/java/info/novatec/beantest/transactions/TransactionalInterceptor.java:139-141 | holds iff the shared counter is 1, i.e. in the outermost transactional call |
| Transactions.EntityManager.Commit | src/main/java/info/novatec/beantest/transactions/TransactionalInterceptor.java:110 | the transaction ends; a failing commit throws its exception |
| Transactions.EntityManager.Begin | src/main/java/info/novatec/beantest/transactions/TransactionalInterceptor.java:73-75 | the transaction becomes active and unmarked, and the begin is recorded |
| Transactions.EntityManager.SetRollbackOnly | src/main/java/info/novatec/beantest/transactions/TransactionalInterceptor.java:130 | the transaction is marked rollback-only, and the marking is recorded |
| Transactions.EntityManager.Rollback | src/main/java/info/novatec/beantest/transactions/TransactionalInterceptor.java:107 | the transaction ends and the rollback is recorded |
| Transactions.EntityManager.Clear | src/main/java/info/novatec/beantest/transactions/TransactionalInterceptor.java:113 | the clear is recorded; the transaction is unchanged |

## Left out

- Weld, DeltaSpike and JPA internals are not modelled. Reflection is the
  parameter `classes`. The builder is a class with maps.
- A descriptor created before its builder was changed shows the change
  (DeltaSpike's live view). The model caches the builder's final state
  instead of modelling the aliasing.
- The order of `getFields()`, `getMethods()` and `getClass().getMethods()`
  is a parameter: the sequences of the descriptor, and `aroundInvokes` for
  the older wrapper. It is unspecified in Java, and one lemma shows that
  field order does not matter.
- Reflective `Method.invoke` is folded into `Exception.Wrapped`. Its
  `InvocationTargetException` and `IllegalAccessException` are not told
  apart.
- Observer order is not modelled: CDI does not fix the order of the
  observers, and the `@WithAnnotations` filter decides which observers
  see a type. The lemmas `BeanTestExtension.BeanObserverFirst` and
  `BeanTestExtension.InterceptorsObserverFirst` state both orders.
- Concurrency is not modelled. The static counter and the static maps are
  used from one thread only, as the Java comments say.
- Logging is not modelled.
- EjbInterceptorWrapperImpl.EjbInterceptorWrapperImpl.HandleAroundInvokeInterception:
  the container's invocation context is never proceeded, with or without a
  binding. With a binding, the wrapper builds a fresh invocation context
  over its own chain and the target object, whose end invokes the business
  method directly, so container interceptors ordered after the wrapper
  (the transactional interceptor among them) do not run for that call.
  The model does not represent the container's interceptor chain:
  `TargetInvoked` stands for that direct call here, but for the
  container's `proceed()` in the older wrapper.
- JavaStrings.EqualsIgnoreCase: the case mapping covers the ASCII letters
  only. Java's `equalsIgnoreCase` maps every Unicode letter, so a
  `@Resource` field `äpfel` beside a `@Resource` setter `setÄpfel` is
  rejected in Java but accepted here. This affects the setter check of all
  three copies of the injection point rewrite.
- InjectionHelper.IsInjectionPointAlreadyProcessed: finds a recorded field
  name equal to the setter suffix under ASCII case mapping only, as
  described for `JavaStrings.EqualsIgnoreCase`.
- BaseExtension.InjectionPointReplacement.IsInjectionPointAlreadyProcessed:
  the same ASCII-only comparison as in `InjectionHelper`.
- Invocation.Advice: an interceptor method either proceeds and returns
  what proceeding gives, or returns or throws without proceeding. An
  interceptor method that proceeds and then replaces the result, catches
  what the business method throws, proceeds and then throws, or proceeds
  twice cannot be expressed. The chain and dispatch lemmas are proved for
  these three behaviours only.
- Field annotations are keyed by field name. A subclass field that hides
  a superclass field of the same name cannot be represented.
- `EntityManagerProducer`, the `api` package (test runners, bean
  provider), `AnnotationInstances` and the `InterceptorWrapper` binding
  annotation are not part of this model.
- Transactions.EntityManager.Rollback: a failing rollback and a failing
  `setRollbackOnly` are not modelled. Only a failing commit is, through
  `commitFault`.
- `EntityManager` lifecycle: the entity manager's `open` flag is an input.
  Closing it belongs to the producer and is not part of this model.
- The older wrapper's `retrieveInterceptedClazzFor` is modelled as the
  declaring class of the business method. Proxies and subclasses are not
  modelled.
