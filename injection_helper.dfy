/** The injection point rewrite: every field or method carrying @Resource,
    @EJB or @PersistenceContext and not yet @Inject gets @Inject, and a
    setter whose property already has a rewritten field is rejected.
    The rule is defined once here (InjectionRewrite); the three Java copies
    of it are imperative methods proved to follow it. */
module InjectionHelper {
  import opened Meta
  import opened JavaStrings
  import opened TypeBuilder

  /** The three legacy injection annotations. */
  const JavaEEAnnotations: set<Marker> := {Resource, EJB, PersistenceContext}

  predicate HasJavaEEAnnotations(a: Annotations) {
    a.markers * JavaEEAnnotations != {}
  }

  /** A member is rewritten when it has a legacy annotation and no @Inject. */
  predicate ShouldInjectionAnnotationBeAddedToMember(a: Annotations) {
    Inject !in a.markers && HasJavaEEAnnotations(a)
  }

  lemma ShouldInjectMeansLegacyWithoutInject(a: Annotations)
    ensures ShouldInjectionAnnotationBeAddedToMember(a) <==>
      Inject !in a.markers && (Resource in a.markers || EJB in a.markers || PersistenceContext in a.markers)
  {
    if Resource in a.markers { assert Resource in a.markers * JavaEEAnnotations; }
    if EJB in a.markers { assert EJB in a.markers * JavaEEAnnotations; }
    if PersistenceContext in a.markers { assert PersistenceContext in a.markers * JavaEEAnnotations; }
  }

  /** Some recorded field name equals `suffix` up to case. */
  predicate NamesProcessedField(processed: seq<string>, suffix: string) {
    exists f :: f in processed && EqualsIgnoreCase(f, suffix)
  }

  /** The check applied to each rewritten method: a name starting with
      "set" whose suffix names a recorded field raises a
      DefinitionException naming `subject`; a name made only of "set"s
      fails on the split. Other names pass. The result is the failure
      raised, if any. */
  function DependencyCheck(processed: seq<string>, m: MethodId, subject: ClassId): Option<Failure>
  {
    if !StartsWithSet(m.name) then None
    else match SetterSuffix(m.name)
      case Failure(e) => Some(e)
      case Success(suffix) =>
        if NamesProcessedField(processed, suffix)
        then Some(DefinitionException(subject, m.name))
        else None
  }

  /** `isInjectionPointAlreadyProcessed`: a scan of the recorded names. */
  method IsInjectionPointAlreadyProcessed(processed: seq<string>, suffix: string) returns (found: bool)
    ensures found <==> NamesProcessedField(processed, suffix)
  {
    var k := 0;
    while k < |processed|
      invariant 0 <= k <= |processed|
      invariant forall i :: 0 <= i < k ==> !EqualsIgnoreCase(processed[i], suffix)
    {
      if EqualsIgnoreCase(processed[k], suffix) {
        return true;
      }
      k := k + 1;
    }
    return false;
  }

  /** `validateDependencyConfiguration(processed, method)`: the check, with
      the DefinitionException naming the method's declaring type. */
  method ValidateDependencyConfiguration(processed: seq<string>, m: MethodId) returns (thrown: Option<Failure>)
    ensures thrown == DependencyCheck(processed, m, m.declaringClass)
  {
    thrown := None;
    if StartsWithSet(m.name) {
      var suffix := SetterSuffix(m.name);
      if suffix.Failure? {
        thrown := Some(suffix.error);
        return;
      }
      var found := IsInjectionPointAlreadyProcessed(processed, suffix.value);
      if found {
        thrown := Some(DefinitionException(m.declaringClass, m.name));
      }
    }
  }

  /** Which type the DefinitionException message names: the member's
      declaring type (InjectionHelper) or the processed type (the copies
      in BaseExtension and BeanTestExtension). */
  datatype ErrorSubject = DeclaringType | ProcessedType

  function SubjectName(t: AnnotatedType, m: MethodId, via: ErrorSubject): ClassId {
    if via == DeclaringType then m.declaringClass else t.javaClass
  }

  /** The names recorded by the field pass over `fields`, in order. */
  function RecordedFields(t: AnnotatedType, fields: seq<string>): seq<string>
  {
    if fields == [] then []
    else
      var init := RecordedFields(t, fields[..|fields| - 1]);
      var f := fields[|fields| - 1];
      if ShouldInjectionAnnotationBeAddedToMember(t.FieldAnns(f)) then init + [f] else init
  }

  /** The outcome of the method pass so far: the methods given @Inject,
      and the failure that stopped the pass, if one did. */
  datatype MethodPass = MethodPass(injected: seq<MethodId>, failure: Option<Failure>)

  function MethodPhase(t: AnnotatedType, methods: seq<MethodId>, recorded: seq<string>, via: ErrorSubject): MethodPass
  {
    if methods == [] then MethodPass([], None)
    else
      var prev := MethodPhase(t, methods[..|methods| - 1], recorded, via);
      var m := methods[|methods| - 1];
      if prev.failure.Some? || !ShouldInjectionAnnotationBeAddedToMember(t.MethodAnns(m)) then prev
      else match DependencyCheck(recorded, m, SubjectName(t, m, via))
        case Some(e) => prev.(failure := Some(e))
        case None => prev.(injected := prev.injected + [m])
  }

  /** A method the method pass rejects. */
  predicate Rejected(t: AnnotatedType, recorded: seq<string>, m: MethodId, via: ErrorSubject) {
    && ShouldInjectionAnnotationBeAddedToMember(t.MethodAnns(m))
    && DependencyCheck(recorded, m, SubjectName(t, m, via)).Some?
  }

  datatype InjectionPlan = InjectionPlan(fields: seq<string>, methods: seq<MethodId>)

  /** The rewrite rule: all fields first, then all methods, checked against
      the fields recorded by the first pass. */
  function InjectionRewrite(t: AnnotatedType, via: ErrorSubject): Result<InjectionPlan, Failure>
  {
    var recorded := RecordedFields(t, t.fields);
    var pass := MethodPhase(t, t.methods, recorded, via);
    if pass.failure.Some? then Failure(pass.failure.value)
    else Success(InjectionPlan(recorded, pass.injected))
  }

  /** Adds @Inject to the annotations of every key listed in `keys`. */
  function WithInject<K>(m: map<K, Annotations>, keys: seq<K>): map<K, Annotations> {
    map k | k in m :: if k in keys then m[k].With(Inject) else m[k]
  }

  /** The builder state a run of the rewrite over `t` leaves in builder
      state `b`, whether or not it stops with a failure. */
  function Injected(b: AnnotatedType, t: AnnotatedType, via: ErrorSubject): AnnotatedType {
    var recorded := RecordedFields(t, t.fields);
    b.(fieldAnnotations := WithInject(b.fieldAnnotations, recorded),
       methodAnnotations := WithInject(b.methodAnnotations, MethodPhase(t, t.methods, recorded, via).injected))
  }

  /** The failure a run of the rewrite over `t` raises, if any. */
  function Thrown(t: AnnotatedType, via: ErrorSubject): Option<Failure> {
    MethodPhase(t, t.methods, RecordedFields(t, t.fields), via).failure
  }

  lemma WithInjectSnoc<K>(m: map<K, Annotations>, keys: seq<K>, k: K)
    requires k in m
    ensures WithInject(m, keys + [k]) == WithInject(m, keys)[k := WithInject(m, keys)[k].With(Inject)]
  {
    var l := WithInject(m, keys + [k]);
    var r := WithInject(m, keys)[k := WithInject(m, keys)[k].With(Inject)];
    assert l.Keys == r.Keys;
    forall j | j in l ensures l[j] == r[j] {
      if j == k && k in keys {
        assert m[k].With(Inject).With(Inject) == m[k].With(Inject);
      }
    }
  }

  /** `addInjectAnnotation(annotatedType, builder)`: the rewrite over `t`
      applied to `builder`; a rejected setter throws after the fields and
      the earlier methods were already changed. */
  method AddInjectAnnotation(t: AnnotatedType, builder: AnnotatedTypeBuilder) returns (thrown: Option<Failure>)
    requires t.Valid()
    requires t.fieldAnnotations.Keys <= builder.fieldAnnotations.Keys
    requires t.methodAnnotations.Keys <= builder.methodAnnotations.Keys
    modifies builder
    ensures thrown == Thrown(t, DeclaringType)
    ensures builder.Current() == Injected(old(builder.Current()), t, DeclaringType)
  {
    var b0 := builder.Current();
    var processedFieldInjections: seq<string> := [];
    var i := 0;
    while i < |t.fields|
      invariant FieldPassAt(t, i, processedFieldInjections, b0, builder.Current())
    {
      var field := t.fields[i];
      FieldPassStep(t, i, processedFieldInjections, b0, builder.Current());
      if ShouldInjectionAnnotationBeAddedToMember(t.FieldAnns(field)) {
        builder.AddToField(field, Inject);
        processedFieldInjections := processedFieldInjections + [field];
      }
      i := i + 1;
    }
    FieldPassDone(t, i, processedFieldInjections, b0, builder.Current());
    var b1 := builder.Current();
    var injected: seq<MethodId> := [];
    var j := 0;
    while j < |t.methods|
      invariant MethodPassAt(t, j, processedFieldInjections, DeclaringType, injected, b1, builder.Current())
    {
      var mid := t.methods[j];
      if ShouldInjectionAnnotationBeAddedToMember(t.MethodAnns(mid)) {
        var check := ValidateDependencyConfiguration(processedFieldInjections, mid);
        if check.Some? {
          MethodPassReject(t, j, processedFieldInjections, DeclaringType, injected, b1, builder.Current(), check.value);
          return check;
        }
        MethodPassInject(t, j, processedFieldInjections, DeclaringType, injected, b1, builder.Current());
        builder.AddToMethod(mid, Inject);
        injected := injected + [mid];
      } else {
        MethodPassSkip(t, j, processedFieldInjections, DeclaringType, injected, b1, builder.Current());
      }
      j := j + 1;
    }
    MethodPassDone(t, j, processedFieldInjections, DeclaringType, injected, b1, builder.Current());
    thrown := None;
  }

  lemma RecordedFieldsNext(t: AnnotatedType, fields: seq<string>, i: nat)
    requires i < |fields|
    ensures RecordedFields(t, fields[..i + 1]) ==
      RecordedFields(t, fields[..i]) + (if ShouldInjectionAnnotationBeAddedToMember(t.FieldAnns(fields[i])) then [fields[i]] else [])
  {
    assert fields[..i + 1][..i] == fields[..i];
  }

  lemma MethodPhaseNext(t: AnnotatedType, ms: seq<MethodId>, j: nat, recorded: seq<string>, via: ErrorSubject)
    requires j < |ms|
    requires MethodPhase(t, ms[..j], recorded, via).failure.None?
    ensures var prev := MethodPhase(t, ms[..j], recorded, via);
      MethodPhase(t, ms[..j + 1], recorded, via) ==
        if !ShouldInjectionAnnotationBeAddedToMember(t.MethodAnns(ms[j])) then prev
        else match DependencyCheck(recorded, ms[j], SubjectName(t, ms[j], via))
          case Some(e) => prev.(failure := Some(e))
          case None => prev.(injected := prev.injected + [ms[j]])
  {
    assert ms[..j + 1][..j] == ms[..j];
  }

  /** The field pass over the first `i` fields of `t` has recorded
      `recorded`, and `cur` is `b` with @Inject added to exactly those. */
  ghost predicate FieldPassAt(t: AnnotatedType, i: nat, recorded: seq<string>, b: AnnotatedType, cur: AnnotatedType)
  {
    && i <= |t.fields|
    && recorded == RecordedFields(t, t.fields[..i])
    && cur == b.(fieldAnnotations := WithInject(b.fieldAnnotations, recorded))
  }

  lemma FieldPassStep(t: AnnotatedType, i: nat, recorded: seq<string>, b: AnnotatedType, cur: AnnotatedType)
    requires FieldPassAt(t, i, recorded, b, cur) && i < |t.fields| && t.fields[i] in b.fieldAnnotations
    ensures t.fields[i] in cur.fieldAnnotations
    ensures var f := t.fields[i];
      if ShouldInjectionAnnotationBeAddedToMember(t.FieldAnns(f)) then
        FieldPassAt(t, i + 1, recorded + [f], b, cur.(fieldAnnotations := cur.fieldAnnotations[f := cur.fieldAnnotations[f].With(Inject)]))
      else FieldPassAt(t, i + 1, recorded, b, cur)
  {
    RecordedFieldsNext(t, t.fields, i);
    WithInjectSnoc(b.fieldAnnotations, recorded, t.fields[i]);
  }

  lemma FieldPassDone(t: AnnotatedType, i: nat, recorded: seq<string>, b: AnnotatedType, cur: AnnotatedType)
    requires FieldPassAt(t, i, recorded, b, cur) && i == |t.fields|
    ensures recorded == RecordedFields(t, t.fields)
  {
    assert t.fields[..i] == t.fields;
  }

  /** The method pass over the first `j` methods of `t` has injected
      `injected` without failing, and `cur` is `b` with @Inject added to
      exactly those methods. */
  ghost predicate MethodPassAt(t: AnnotatedType, j: nat, recorded: seq<string>, via: ErrorSubject,
                               injected: seq<MethodId>, b: AnnotatedType, cur: AnnotatedType)
  {
    && j <= |t.methods|
    && MethodPhase(t, t.methods[..j], recorded, via) == MethodPass(injected, None)
    && cur == b.(methodAnnotations := WithInject(b.methodAnnotations, injected))
  }

  lemma MethodPassSkip(t: AnnotatedType, j: nat, recorded: seq<string>, via: ErrorSubject,
                       injected: seq<MethodId>, b: AnnotatedType, cur: AnnotatedType)
    requires MethodPassAt(t, j, recorded, via, injected, b, cur) && j < |t.methods|
    requires !ShouldInjectionAnnotationBeAddedToMember(t.MethodAnns(t.methods[j]))
    ensures MethodPassAt(t, j + 1, recorded, via, injected, b, cur)
  {
    MethodPhaseNext(t, t.methods, j, recorded, via);
  }

  lemma MethodPassInject(t: AnnotatedType, j: nat, recorded: seq<string>, via: ErrorSubject,
                         injected: seq<MethodId>, b: AnnotatedType, cur: AnnotatedType)
    requires MethodPassAt(t, j, recorded, via, injected, b, cur) && j < |t.methods|
    requires t.methods[j] in b.methodAnnotations
    requires ShouldInjectionAnnotationBeAddedToMember(t.MethodAnns(t.methods[j]))
    requires DependencyCheck(recorded, t.methods[j], SubjectName(t, t.methods[j], via)).None?
    ensures t.methods[j] in cur.methodAnnotations
    ensures var m := t.methods[j];
      MethodPassAt(t, j + 1, recorded, via, injected + [m], b,
                   cur.(methodAnnotations := cur.methodAnnotations[m := cur.methodAnnotations[m].With(Inject)]))
  {
    MethodPhaseNext(t, t.methods, j, recorded, via);
    WithInjectSnoc(b.methodAnnotations, injected, t.methods[j]);
  }

  lemma MethodPassReject(t: AnnotatedType, j: nat, recorded: seq<string>, via: ErrorSubject,
                         injected: seq<MethodId>, b: AnnotatedType, cur: AnnotatedType, e: Failure)
    requires MethodPassAt(t, j, recorded, via, injected, b, cur) && j < |t.methods|
    requires ShouldInjectionAnnotationBeAddedToMember(t.MethodAnns(t.methods[j]))
    requires DependencyCheck(recorded, t.methods[j], SubjectName(t, t.methods[j], via)) == Some(e)
    ensures MethodPhase(t, t.methods, recorded, via) == MethodPass(injected, Some(e))
  {
    MethodPhaseNext(t, t.methods, j, recorded, via);
    MethodPhaseStopped(t, t.methods, j + 1, recorded, via);
    assert t.methods[..|t.methods|] == t.methods;
  }

  lemma MethodPassDone(t: AnnotatedType, j: nat, recorded: seq<string>, via: ErrorSubject,
                       injected: seq<MethodId>, b: AnnotatedType, cur: AnnotatedType)
    requires MethodPassAt(t, j, recorded, via, injected, b, cur) && j == |t.methods|
    ensures MethodPhase(t, t.methods, recorded, via) == MethodPass(injected, None)
  {
    assert t.methods[..j] == t.methods;
  }

  /** Once the pass has failed, later methods change nothing. */
  lemma {:induction false} MethodPhaseStopped(t: AnnotatedType, ms: seq<MethodId>, k: nat, recorded: seq<string>, via: ErrorSubject)
    requires k <= |ms|
    requires MethodPhase(t, ms[..k], recorded, via).failure.Some?
    ensures MethodPhase(t, ms, recorded, via) == MethodPhase(t, ms[..k], recorded, via)
    decreases |ms| - k
  {
    if k < |ms| {
      assert ms[..k + 1][..k] == ms[..k];
      MethodPhaseStopped(t, ms, k + 1, recorded, via);
    } else {
      assert ms[..k] == ms;
    }
  }

  /** The field pass records exactly the fields that qualify. */
  lemma {:induction false} RecordedFieldsExact(t: AnnotatedType, fields: seq<string>)
    ensures forall f :: f in RecordedFields(t, fields) <==>
      f in fields && ShouldInjectionAnnotationBeAddedToMember(t.FieldAnns(f))
  {
    if fields != [] {
      var init := fields[..|fields| - 1];
      RecordedFieldsExact(t, init);
      assert fields == init + [fields[|fields| - 1]];
    }
  }

  /** `e` is the failure of the first method of `ms` the pass rejects. */
  predicate FirstRejectedAt(t: AnnotatedType, ms: seq<MethodId>, recorded: seq<string>, via: ErrorSubject, e: Failure) {
    exists i ::
      && 0 <= i < |ms| && Rejected(t, recorded, ms[i], via)
      && (forall j :: 0 <= j < i ==> !Rejected(t, recorded, ms[j], via))
      && e == DependencyCheck(recorded, ms[i], SubjectName(t, ms[i], via)).value
  }

  /** The method pass injects only qualifying methods the check accepts,
      stops exactly when some qualifying method is rejected, reports the
      first rejected method's failure, and otherwise injects every
      qualifying method. */
  lemma {:induction false} MethodPhaseExact(t: AnnotatedType, ms: seq<MethodId>, recorded: seq<string>, via: ErrorSubject)
    ensures var p := MethodPhase(t, ms, recorded, via);
      && (forall m :: m in p.injected ==>
            m in ms && ShouldInjectionAnnotationBeAddedToMember(t.MethodAnns(m)) && !Rejected(t, recorded, m, via))
      && (p.failure.None? <==> forall i :: 0 <= i < |ms| ==> !Rejected(t, recorded, ms[i], via))
      && (p.failure.None? ==> forall m :: m in ms && ShouldInjectionAnnotationBeAddedToMember(t.MethodAnns(m)) ==> m in p.injected)
      && (p.failure.Some? ==> FirstRejectedAt(t, ms, recorded, via, p.failure.value))
  {
    if ms != [] {
      var init := ms[..|ms| - 1];
      var m := ms[|ms| - 1];
      assert ms == init + [m];
      MethodPhaseExact(t, init, recorded, via);
      var prev := MethodPhase(t, init, recorded, via);
      var p := MethodPhase(t, ms, recorded, via);
      if prev.failure.Some? {
        var i :| 0 <= i < |init| && Rejected(t, recorded, init[i], via)
          && (forall j :: 0 <= j < i ==> !Rejected(t, recorded, init[j], via))
          && prev.failure.value == DependencyCheck(recorded, init[i], SubjectName(t, init[i], via)).value;
        assert ms[i] == init[i];
      } else if Rejected(t, recorded, m, via) {
        assert ms[|ms| - 1] == m;
      }
    }
  }

  /** On success, @Inject goes to exactly the fields and the methods that
      carry a legacy annotation and no @Inject. */
  lemma RewriteInjectsExactlyQualifyingMembers(t: AnnotatedType, via: ErrorSubject)
    requires InjectionRewrite(t, via).Success?
    ensures forall f :: f in InjectionRewrite(t, via).value.fields <==>
      f in t.fields && ShouldInjectionAnnotationBeAddedToMember(t.FieldAnns(f))
    ensures forall m :: m in InjectionRewrite(t, via).value.methods <==>
      m in t.methods && ShouldInjectionAnnotationBeAddedToMember(t.MethodAnns(m))
  {
    RecordedFieldsExact(t, t.fields);
    MethodPhaseExact(t, t.methods, RecordedFields(t, t.fields), via);
  }

  /** A qualifying setter clashes when its suffix cannot be split off, or
      equals (ignoring case) the name of a qualifying field. */
  predicate SetterClashes(t: AnnotatedType, m: MethodId) {
    && ShouldInjectionAnnotationBeAddedToMember(t.MethodAnns(m))
    && StartsWithSet(m.name)
    && (SetterSuffix(m.name).Failure? ||
        exists f :: f in t.fields && ShouldInjectionAnnotationBeAddedToMember(t.FieldAnns(f))
          && EqualsIgnoreCase(f, SetterSuffix(m.name).value))
  }

  /** The rewrite fails exactly when some method clashes, and the failure
      is the one the first clashing method raises: a DefinitionException
      naming that method, or the split's index error. */
  lemma RewriteFailsIffSetterClashes(t: AnnotatedType, via: ErrorSubject)
    ensures InjectionRewrite(t, via).Failure? <==> exists m :: m in t.methods && SetterClashes(t, m)
    ensures InjectionRewrite(t, via).Failure? ==>
      exists i :: 0 <= i < |t.methods| && SetterClashes(t, t.methods[i])
        && (forall j :: 0 <= j < i ==> !SetterClashes(t, t.methods[j]))
        && InjectionRewrite(t, via).error ==
           (if SetterSuffix(t.methods[i].name).Failure? then IndexOutOfBounds(t.methods[i].name)
            else DefinitionException(SubjectName(t, t.methods[i], via), t.methods[i].name))
  {
    var recorded := RecordedFields(t, t.fields);
    RecordedFieldsExact(t, t.fields);
    MethodPhaseExact(t, t.methods, recorded, via);
    forall m ensures Rejected(t, recorded, m, via) <==> SetterClashes(t, m) {
      if StartsWithSet(m.name) && SetterSuffix(m.name).Success? {
        var s := SetterSuffix(m.name).value;
        if NamesProcessedField(recorded, s) {
          var f :| f in recorded && EqualsIgnoreCase(f, s);
          assert f in t.fields && ShouldInjectionAnnotationBeAddedToMember(t.FieldAnns(f));
        }
      }
    }
  }

  /** The method pass reads the recorded names only as a set. */
  lemma {:induction false} MethodPhaseSameRecordedSet(t: AnnotatedType, ms: seq<MethodId>, r1: seq<string>, r2: seq<string>, via: ErrorSubject)
    requires forall f :: f in r1 <==> f in r2
    ensures MethodPhase(t, ms, r1, via) == MethodPhase(t, ms, r2, via)
  {
    if ms != [] {
      MethodPhaseSameRecordedSet(t, ms[..|ms| - 1], r1, r2, via);
      var m := ms[|ms| - 1];
      if StartsWithSet(m.name) && SetterSuffix(m.name).Success? {
        var s := SetterSuffix(m.name).value;
        assert NamesProcessedField(r1, s) <==> NamesProcessedField(r2, s);
      }
    }
  }

  /** The order in which fields are iterated does not change whether the
      rewrite fails, what it reports, which methods it injects, or the
      descriptor it leaves: the same fields and methods carry @Inject. */
  lemma RewriteIgnoresFieldOrder(t: AnnotatedType, fields: seq<string>, via: ErrorSubject)
    requires multiset(fields) == multiset(t.fields)
    ensures var t' := t.(fields := fields);
      && InjectionRewrite(t', via).Failure? == InjectionRewrite(t, via).Failure?
      && (InjectionRewrite(t, via).Failure? ==> InjectionRewrite(t', via).error == InjectionRewrite(t, via).error)
      && (InjectionRewrite(t, via).Success? ==> InjectionRewrite(t', via).value.methods == InjectionRewrite(t, via).value.methods)
      && Injected(t', t', via) == Injected(t, t, via).(fields := fields)
  {
    var t' := t.(fields := fields);
    RecordedFieldsExact(t, t.fields);
    RecordedFieldsExact(t', fields);
    forall f ensures f in RecordedFields(t', fields) <==> f in RecordedFields(t, t.fields) {
      assert f in fields <==> f in multiset(fields);
      assert f in t.fields <==> f in multiset(t.fields);
    }
    MethodPhaseSameRecordedSet(t, t.methods, RecordedFields(t', fields), RecordedFields(t, t.fields), via);
    assert forall m :: t'.MethodAnns(m) == t.MethodAnns(m);
    assert forall m :: SubjectName(t', m, via) == SubjectName(t, m, via);
    MethodPhaseSameType(t, t', t.methods, RecordedFields(t', fields), via);
  }

  /** The method pass reads a type only through its method annotations and name. */
  lemma {:induction false} MethodPhaseSameType(t: AnnotatedType, t': AnnotatedType, ms: seq<MethodId>, recorded: seq<string>, via: ErrorSubject)
    requires t.methodAnnotations == t'.methodAnnotations && t.javaClass == t'.javaClass
    ensures MethodPhase(t, ms, recorded, via) == MethodPhase(t', ms, recorded, via)
  {
    if ms != [] {
      MethodPhaseSameType(t, t', ms[..|ms| - 1], recorded, via);
    }
  }

  /** The rewrite changes nothing but member annotations, and those only by
      adding @Inject: a member of `t` ends up with @Inject exactly when it
      had it or qualified and was reached by the pass. */
  lemma InjectedAddsOnlyInject(b: AnnotatedType, t: AnnotatedType, via: ErrorSubject)
    ensures var r := Injected(b, t, via);
      && r.javaClass == b.javaClass && r.classAnnotations == b.classAnnotations
      && r.fields == b.fields && r.methods == b.methods
      && r.fieldAnnotations.Keys == b.fieldAnnotations.Keys
      && r.methodAnnotations.Keys == b.methodAnnotations.Keys
      && (forall f :: f in b.fieldAnnotations ==>
            && r.fieldAnnotations[f].interceptors == b.fieldAnnotations[f].interceptors
            && b.fieldAnnotations[f].markers <= r.fieldAnnotations[f].markers <= b.fieldAnnotations[f].markers + {Inject}
            && (Inject in r.fieldAnnotations[f].markers <==>
                Inject in b.fieldAnnotations[f].markers ||
                (f in t.fields && ShouldInjectionAnnotationBeAddedToMember(t.FieldAnns(f)))))
      && (forall m :: m in b.methodAnnotations ==>
            && r.methodAnnotations[m].interceptors == b.methodAnnotations[m].interceptors
            && b.methodAnnotations[m].markers <= r.methodAnnotations[m].markers <= b.methodAnnotations[m].markers + {Inject})
      && (Thrown(t, via).None? ==> forall m :: m in b.methodAnnotations ==>
            (Inject in r.methodAnnotations[m].markers <==>
             Inject in b.methodAnnotations[m].markers ||
             (m in t.methods && ShouldInjectionAnnotationBeAddedToMember(t.MethodAnns(m)))))
  {
    RecordedFieldsExact(t, t.fields);
    MethodPhaseExact(t, t.methods, RecordedFields(t, t.fields), via);
  }

  /** A type whose members carry no legacy annotation is left unchanged. */
  lemma NoLegacyAnnotationNoChange(t: AnnotatedType, via: ErrorSubject)
    requires t.Valid()
    requires forall f :: f in t.fields ==> !HasJavaEEAnnotations(t.FieldAnns(f))
    requires forall m :: m in t.methods ==> !HasJavaEEAnnotations(t.MethodAnns(m))
    ensures Thrown(t, via).None?
    ensures Injected(t, t, via) == t
  {
    QualifyingNone(t, via);
  }

  /** Rewriting a second time changes nothing more: every member the first
      run injected now carries @Inject and no longer qualifies. */
  lemma RewriteIdempotent(t: AnnotatedType, via: ErrorSubject)
    requires t.Valid()
    requires Thrown(t, via).None?
    ensures Thrown(Injected(t, t, via), via).None?
    ensures Injected(Injected(t, t, via), Injected(t, t, via), via) == Injected(t, t, via)
  {
    var r := Injected(t, t, via);
    InjectedAddsOnlyInject(t, t, via);
    forall f | f in r.fields ensures !ShouldInjectionAnnotationBeAddedToMember(r.FieldAnns(f)) { }
    forall m | m in r.methods ensures !ShouldInjectionAnnotationBeAddedToMember(r.MethodAnns(m)) { }
    QualifyingNone(r, via);
  }

  /** A type none of whose members qualifies (each either has no Java EE
      annotation or already carries @Inject) passes the check and is left
      unchanged. */
  lemma QualifyingNone(r: AnnotatedType, via: ErrorSubject)
    requires r.Valid()
    requires forall f :: f in r.fields ==> !ShouldInjectionAnnotationBeAddedToMember(r.FieldAnns(f))
    requires forall m :: m in r.methods ==> !ShouldInjectionAnnotationBeAddedToMember(r.MethodAnns(m))
    ensures Thrown(r, via).None?
    ensures Injected(r, r, via) == r
  {
    RecordedFieldsExact(r, r.fields);
    MethodPhaseExact(r, r.methods, RecordedFields(r, r.fields), via);
    var x := Injected(r, r, via);
    assert x.fieldAnnotations == r.fieldAnnotations;
    assert x.methodAnnotations == r.methodAnnotations;
  }

  /** A bean with a @Resource field `someField` and a @Resource setter
      `setSomeField`: two injection points for one property. */
  const InvalidBeanConfiguration: AnnotatedType := AnnotatedType(
    "InvalidBeanConfiguration", Annotations({Other("Vetoed")}, None),
    ["someField"], map["someField" := Annotations({Resource}, None)],
    [MethodId("InvalidBeanConfiguration", "setSomeField", 0)],
    map[MethodId("InvalidBeanConfiguration", "setSomeField", 0) := Annotations({Resource}, None)])

  /** A setter name "set" + `rest`, where `rest` has no lower-case 's',
      has `rest` as its suffix. */
  lemma {:induction false} SuffixOfPlainSetter(name: string, rest: string)
    requires name == SetterPrefix + rest && rest != []
    requires forall i :: 0 <= i < |rest| ==> rest[i] != 's'
    ensures StartsWithSet(name)
    ensures SetterSuffix(name) == Success(rest)
  {
    assert name[..3] == SetterPrefix && name[3..] == rest;
    assert !StartsWithSet(rest) by { if |rest| >= 3 { assert rest[..3][0] == rest[0]; } }
    FirstSegmentWithoutS(rest);
  }

  lemma {:induction false} FirstSegmentWithoutS(s: string)
    requires forall i :: 0 <= i < |s| ==> s[i] != 's'
    ensures FirstSegment(s) == s
  {
    if s != [] {
      assert !StartsWithSet(s) by { if |s| >= 3 { assert s[..3][0] == s[0]; } }
      FirstSegmentWithoutS(s[1..]);
    }
  }

  lemma SetSomeFieldSuffix()
    ensures StartsWithSet("setSomeField")
    ensures SetterSuffix("setSomeField") == Success("SomeField")
  {
    SuffixOfPlainSetter("setSomeField", "SomeField");
  }

  lemma SomeFieldMatchesSuffix()
    ensures NamesProcessedField(["someField"], "SomeField")
  {
    assert CharEqualsIgnoreCase('s', 'S') by { assert ToUpper('s') == 'S'; }
    assert EqualsIgnoreCase("someField", "SomeField");
  }

  /** The duplicate is rejected with a DefinitionException naming the bean
      and the setter. */
  lemma InvalidBeanConfigurationRejected(t: AnnotatedType)
    requires t == InvalidBeanConfiguration
    ensures InjectionRewrite(t, DeclaringType) ==
      Failure(DefinitionException("InvalidBeanConfiguration", "setSomeField"))
  {
    var m := t.methods[0];
    SetSomeFieldSuffix();
    SomeFieldMatchesSuffix();
    assert t.FieldAnns("someField") == Annotations({Resource}, None);
    assert Resource in t.FieldAnns("someField").markers * JavaEEAnnotations;
    assert t.MethodAnns(m) == Annotations({Resource}, None);
    assert Resource in t.MethodAnns(m).markers * JavaEEAnnotations;
    assert SetterClashes(t, m) by {
      assert "someField" in t.fields;
    }
    RewriteFailsIffSetterClashes(t, DeclaringType);
  }

  /** A bean whose only injection point is a @Resource setter. */
  const ValidMethodMember: AnnotatedType := AnnotatedType(
    "ValidMethodMember", NoAnnotations,
    ["someField"], map["someField" := NoAnnotations],
    [MethodId("ValidMethodMember", "setSomeField", 0)],
    map[MethodId("ValidMethodMember", "setSomeField", 0) := Annotations({Resource}, None)])

  /** The setter, and nothing else, gets @Inject. */
  lemma ValidMethodMemberInjected(t: AnnotatedType)
    requires t == ValidMethodMember
    ensures InjectionRewrite(t, DeclaringType).Success?
    ensures forall f :: f !in InjectionRewrite(t, DeclaringType).value.fields
    ensures forall m :: m in InjectionRewrite(t, DeclaringType).value.methods <==> m == t.methods[0]
  {
    SetterOnlyAccepted(t, DeclaringType);
  }

  /** A field that already carries @Inject is not recorded, so a @Resource
      setter for the same property passes the check and is rewritten too. */
  const InjectFieldResourceSetter: AnnotatedType := AnnotatedType(
    "Bean", NoAnnotations,
    ["someField"], map["someField" := Annotations({Inject, Resource}, None)],
    [MethodId("Bean", "setSomeField", 0)],
    map[MethodId("Bean", "setSomeField", 0) := Annotations({Resource}, None)])

  lemma InjectFieldDoesNotBlockSetter(t: AnnotatedType)
    requires t == InjectFieldResourceSetter
    ensures InjectionRewrite(t, ProcessedType).Success?
    ensures forall f :: f !in InjectionRewrite(t, ProcessedType).value.fields
    ensures forall m :: m in InjectionRewrite(t, ProcessedType).value.methods <==> m == t.methods[0]
  {
    SetterOnlyAccepted(t, ProcessedType);
  }

  /** A type with one field, which does not qualify, and one @Resource
      setter for it: the setter alone is rewritten. */
  lemma SetterOnlyAccepted(t: AnnotatedType, via: ErrorSubject)
    requires t.fields == ["someField"] && |t.methods| == 1
    requires t.methods[0].name == "setSomeField"
    requires !ShouldInjectionAnnotationBeAddedToMember(t.FieldAnns("someField"))
    requires t.MethodAnns(t.methods[0]) == Annotations({Resource}, None)
    ensures InjectionRewrite(t, via).Success?
    ensures forall f :: f !in InjectionRewrite(t, via).value.fields
    ensures forall m :: m in InjectionRewrite(t, via).value.methods <==> m == t.methods[0]
  {
    SetterDoesNotClash(t);
    OnlyFieldDoesNotQualify(t);
    OnlyMethodAccepted(t, via);
  }

  /** A type whose only method qualifies without clashing, and none of
      whose fields qualifies: that method alone is rewritten. */
  lemma OnlyMethodAccepted(t: AnnotatedType, via: ErrorSubject)
    requires |t.methods| == 1
    requires ShouldInjectionAnnotationBeAddedToMember(t.MethodAnns(t.methods[0])) && !SetterClashes(t, t.methods[0])
    requires forall f :: f in t.fields ==> !ShouldInjectionAnnotationBeAddedToMember(t.FieldAnns(f))
    ensures InjectionRewrite(t, via).Success?
    ensures forall f :: f !in InjectionRewrite(t, via).value.fields
    ensures forall m :: m in InjectionRewrite(t, via).value.methods <==> m == t.methods[0]
  {
    assert forall x :: x in t.methods ==> x == t.methods[0];
    RewriteFailsIffSetterClashes(t, via);
    RewriteInjectsExactlyQualifyingMembers(t, via);
  }

  lemma SetterDoesNotClash(t: AnnotatedType)
    requires t.fields == ["someField"] && |t.methods| == 1
    requires t.methods[0].name == "setSomeField"
    requires !ShouldInjectionAnnotationBeAddedToMember(t.FieldAnns("someField"))
    requires t.MethodAnns(t.methods[0]) == Annotations({Resource}, None)
    ensures ShouldInjectionAnnotationBeAddedToMember(t.MethodAnns(t.methods[0]))
    ensures !SetterClashes(t, t.methods[0])
  {
    var m := t.methods[0];
    SetSomeFieldWellFormed(m.name);
    OnlyFieldDoesNotQualify(t);
    NoQualifyingFieldNoClash(t, m);
    assert Resource in t.MethodAnns(m).markers * JavaEEAnnotations;
  }

  lemma SetSomeFieldWellFormed(name: string)
    requires name == "setSomeField"
    ensures StartsWithSet(name) && SetterSuffix(name).Success?
  {
    SetSomeFieldSuffix();
  }

  lemma OnlyFieldDoesNotQualify(t: AnnotatedType)
    requires t.fields == ["someField"]
    requires !ShouldInjectionAnnotationBeAddedToMember(t.FieldAnns("someField"))
    ensures forall f :: f in t.fields ==> !ShouldInjectionAnnotationBeAddedToMember(t.FieldAnns(f))
  {
  }

  /** A setter with a well-formed suffix cannot clash when no field qualifies. */
  lemma NoQualifyingFieldNoClash(t: AnnotatedType, m: MethodId)
    requires forall f :: f in t.fields ==> !ShouldInjectionAnnotationBeAddedToMember(t.FieldAnns(f))
    requires StartsWithSet(m.name) ==> SetterSuffix(m.name).Success?
    ensures !SetterClashes(t, m)
  {
  }
}
