/** The @Transactional interceptor: it begins a transaction when none is
    active, counts how deeply transactional calls are nested in a counter
    shared by all its instances, and lets only the outermost call mark the
    transaction rollback-only, commit or roll back. */
module Transactions {
  import opened Meta
  import opened Invocation

  /** The exceptions whose exact class does not mark the transaction for
      rollback, as the Java Persistence API documents for them. */
  const NoRollbackExceptions: set<ClassId> := {
    "javax.persistence.NonUniqueResultException",
    "javax.persistence.NoResultException",
    "javax.persistence.QueryTimeoutException",
    "javax.persistence.LockTimeoutException"
  }

  /** The runtime class of an exception. */
  function ExceptionClass(e: Exception): ClassId {
    match e
    case Raised(cls) => cls
    case Wrapped(_) => "java.lang.RuntimeException"
    case Fatal(cls) => cls
  }

  /** `shouldExceptionCauseRollback(e)`: the exact class is compared, so a
      subclass of a listed exception does cause a rollback. */
  function ShouldExceptionCauseRollback(e: Exception): bool {
    ExceptionClass(e) !in NoRollbackExceptions
  }

  /** What happens to the entity manager and its transaction. */
  datatype TxEvent = Began | MarkedRollbackOnly | Committed | CommitFailed | RolledBack | Cleared

  /** The entity manager as the interceptor sees it: whether it is open,
      whether its transaction is active and marked rollback-only, what a
      commit throws (the flush failing, say) if it throws, and the events so
      far. */
  datatype Tx = Tx(open: bool, active: bool, rollbackOnly: bool, commitFault: Option<Exception>, log: seq<TxEvent>)

  /** The business method behind `ctx.proceed()`: it ends with an outcome,
      or first calls a method of another transactional bean, whose own
      business method is `callee`, and then either catches what that call
      throws (`catches`) or lets it propagate, and goes on with `rest`. */
  datatype Work = Finish(outcome: Outcome) | CallThen(callee: Work, catches: bool, rest: Work)

  /** What the business method returns or throws when no transaction
      management takes part. */
  function Plain(w: Work): Outcome {
    match w
    case Finish(o) => o
    case CallThen(callee, catches, rest) =>
      var o := Plain(callee);
      if o.Threw? && !catches then o else Plain(rest)
  }

  function BeginIfInactive(tx: Tx): Tx {
    if tx.active then tx else tx.(active := true, rollbackOnly := false, log := tx.log + [Began])
  }

  /** `markRollbackTransaction(e)` */
  function MarkRollback(tx: Tx, e: Exception): Tx {
    if tx.open && tx.active && ShouldExceptionCauseRollback(e) then
      tx.(rollbackOnly := true, log := tx.log + [MarkedRollbackOnly])
    else tx
  }

  /** `processTransaction()` with the shared counter at `counter`: the
      new state and what it throws. */
  function Processed(tx: Tx, counter: int): (Tx, Option<Exception>) {
    if tx.open && tx.active && counter - 1 == 0 then
      if tx.rollbackOnly then (tx.(active := false, log := tx.log + [RolledBack, Cleared]), None)
      else match tx.commitFault
        case Some(e) => (tx.(active := false, log := tx.log + [CommitFailed]), Some(e))
        case None => (tx.(active := false, log := tx.log + [Committed, Cleared]), None)
    else (tx, None)
  }

  /** `manageTransaction(ctx)` entered with the shared counter at `counter`
      around the business method `w`. Only a java.lang.Exception reaches the
      catch block that marks the transaction; an Error passes straight to
      the finally block. */
  function Intercept(tx: Tx, counter: int, w: Work): (Tx, Outcome)
    decreases w, 1
  {
    var k := counter + 1;
    var (t1, o) := ProceedWork(BeginIfInactive(tx), k, w);
    var t2 := if o.Threw? && o.exception.IsException() && k - 1 == 0 then MarkRollback(t1, o.exception) else t1;
    var (t3, thrown) := Processed(t2, k);
    (t3, if thrown.Some? then Threw(thrown.value) else o)
  }

  /** The business method `w` run with the shared counter at `counter`. */
  function ProceedWork(tx: Tx, counter: int, w: Work): (Tx, Outcome)
    decreases w, 0
  {
    match w
    case Finish(o) => (tx, o)
    case CallThen(callee, catches, rest) =>
      var (t1, o) := Intercept(tx, counter, callee);
      if o.Threw? && !catches then (t1, o) else ProceedWork(t1, counter, rest)
  }

  /** A call made while another transactional call is under way, on an
      active transaction, neither begins, marks, commits nor rolls back:
      the transaction is left exactly as it was and the call returns or
      throws what its business method does. */
  lemma {:induction false} InnerCallLeavesTransaction(tx: Tx, counter: int, w: Work)
    requires counter >= 1 && tx.active
    ensures Intercept(tx, counter, w) == (tx, Plain(w))
    decreases w, 1
  {
    InnerWorkLeavesTransaction(tx, counter + 1, w);
  }

  lemma {:induction false} InnerWorkLeavesTransaction(tx: Tx, counter: int, w: Work)
    requires counter >= 1 && tx.active
    ensures ProceedWork(tx, counter, w) == (tx, Plain(w))
    decreases w, 0
  {
    match w
    case Finish(_) =>
    case CallThen(callee, catches, rest) =>
      InnerCallLeavesTransaction(tx, counter, callee);
      InnerWorkLeavesTransaction(tx, counter, rest);
  }

  /** The outermost transactional call, on an open entity manager: it
      begins a transaction exactly when none is active; it marks the
      transaction rollback-only exactly when the business method, nested
      calls included, throws a java.lang.Exception that is not exempt; it then rolls
      back if the transaction is marked, else commits, and clears the
      entity manager unless the commit fails; it returns or rethrows what
      the business method did, unless the commit fails, whose exception
      it then throws. The transaction ends inactive. */
  lemma OutermostCall(tx: Tx, w: Work)
    requires tx.open
    ensures var (tx', o) := Intercept(tx, 0, w);
      var p := Plain(w);
      var marked := p.Threw? && p.exception.IsException() && ShouldExceptionCauseRollback(p.exception);
      var rollback := (tx.active && tx.rollbackOnly) || marked;
      && !tx'.active && tx'.open && tx'.commitFault == tx.commitFault && tx'.rollbackOnly == rollback
      && tx'.log == tx.log + (if tx.active then [] else [Began]) + (if marked then [MarkedRollbackOnly] else [])
                    + (if rollback then [RolledBack, Cleared] else if tx.commitFault.Some? then [CommitFailed] else [Committed, Cleared])
      && o == (if !rollback && tx.commitFault.Some? then Threw(tx.commitFault.value) else p)
  {
    InnerWorkLeavesTransaction(BeginIfInactive(tx), 1, w);
  }

  /** With the entity manager closed, the interceptor still begins a
      transaction when none is active, but neither marks, commits, rolls
      back nor clears, and the call returns or throws what its business
      method does. */
  lemma ClosedEntityManager(tx: Tx, w: Work)
    requires !tx.open
    ensures var (tx', o) := Intercept(tx, 0, w);
      && tx'.log == tx.log + (if tx.active then [] else [Began])
      && tx'.active && o == Plain(w)
  {
    InnerWorkLeavesTransaction(BeginIfInactive(tx), 1, w);
  }

  /** An exception thrown by a nested transactional call and caught by its
      caller does not roll the transaction back: the outer call commits
      and returns normally. */
  lemma CaughtNestedExceptionCommits(e: Exception, v: Value, log: seq<TxEvent>)
    ensures var tx := Tx(true, false, false, None, log);
      Intercept(tx, 0, CallThen(Finish(Threw(e)), true, Finish(Returned(v))))
        == (Tx(true, false, false, None, log + [Began, Committed, Cleared]), Returned(v))
  {
    OutermostCall(Tx(true, false, false, None, log), CallThen(Finish(Threw(e)), true, Finish(Returned(v))));
    assert log + [Began] + [] + [Committed, Cleared] == log + [Began, Committed, Cleared];
  }

  /** The same exception left unhandled by the caller rolls back the
      transaction and reaches the caller's caller unchanged. */
  lemma UncaughtNestedExceptionRollsBack(cls: ClassId, v: Value, log: seq<TxEvent>)
    requires cls !in NoRollbackExceptions
    ensures var tx := Tx(true, false, false, None, log);
      Intercept(tx, 0, CallThen(Finish(Threw(Raised(cls))), false, Finish(Returned(v))))
        == (Tx(true, false, true, None, log + [Began, MarkedRollbackOnly, RolledBack, Cleared]), Threw(Raised(cls)))
  {
    OutermostCall(Tx(true, false, false, None, log), CallThen(Finish(Threw(Raised(cls))), false, Finish(Returned(v))));
    assert log + [Began] + [MarkedRollbackOnly] + [RolledBack, Cleared] == log + [Began, MarkedRollbackOnly, RolledBack, Cleared];
  }

  /** A NoResultException reaching the outermost call is rethrown, and the
      transaction still commits. */
  lemma NoResultExceptionCommits(log: seq<TxEvent>)
    ensures var e := Raised("javax.persistence.NoResultException");
      var tx := Tx(true, false, false, None, log);
      Intercept(tx, 0, Finish(Threw(e))) == (Tx(true, false, false, None, log + [Began, Committed, Cleared]), Threw(e))
  {
    OutermostCall(Tx(true, false, false, None, log), Finish(Threw(Raised("javax.persistence.NoResultException"))));
    assert log + [Began] + [] + [Committed, Cleared] == log + [Began, Committed, Cleared];
  }

  /** An Error thrown by the business method of the outermost call is not
      caught, so the transaction is not marked: it commits, and the Error
      reaches the caller. */
  lemma ErrorCommits(cls: ClassId, log: seq<TxEvent>)
    ensures var tx := Tx(true, false, false, None, log);
      Intercept(tx, 0, Finish(Threw(Fatal(cls)))) == (Tx(true, false, false, None, log + [Began, Committed, Cleared]), Threw(Fatal(cls)))
  {
    OutermostCall(Tx(true, false, false, None, log), Finish(Threw(Fatal(cls))));
    assert log + [Began] + [] + [Committed, Cleared] == log + [Began, Committed, Cleared];
  }

  /** The entity manager the interceptor works on. */
  class EntityManager {
    var open: bool
    var active: bool
    var rollbackOnly: bool
    var commitFault: Option<Exception>
    var log: seq<TxEvent>

    function State(): Tx
      reads this
    {
      Tx(open, active, rollbackOnly, commitFault, log)
    }

    constructor (commitFault: Option<Exception>)
      ensures State() == Tx(true, false, false, commitFault, [])
    {
      open := true;
      active := false;
      rollbackOnly := false;
      this.commitFault := commitFault;
      log := [];
    }

    method Begin()
      modifies this
      ensures State() == old(State()).(active := true, rollbackOnly := false, log := old(log) + [Began])
    {
      active := true;
      rollbackOnly := false;
      log := log + [Began];
    }

    method SetRollbackOnly()
      modifies this
      ensures State() == old(State()).(rollbackOnly := true, log := old(log) + [MarkedRollbackOnly])
    {
      rollbackOnly := true;
      log := log + [MarkedRollbackOnly];
    }

    /** A failing commit leaves the transaction inactive, rolled back. */
    method Commit() returns (thrown: Option<Exception>)
      modifies this
      ensures thrown == old(commitFault)
      ensures State() == old(State()).(active := false, log := old(log) + [if thrown.Some? then CommitFailed else Committed])
    {
      active := false;
      thrown := commitFault;
      log := log + [if thrown.Some? then CommitFailed else Committed];
    }

    method Rollback()
      modifies this
      ensures State() == old(State()).(active := false, log := old(log) + [RolledBack])
    {
      active := false;
      log := log + [RolledBack];
    }

    method Clear()
      modifies this
      ensures State() == old(State()).(log := old(log) + [Cleared])
    {
      log := log + [Cleared];
    }
  }

  /** The interceptor. One object stands for all its instances, which
      share the static INTERCEPTOR_COUNTER (`counter`) and, within a test,
      the entity manager. */
  class TransactionalInterceptor {
    var counter: int
    const em: EntityManager

    constructor (em: EntityManager)
      ensures counter == 0 && this.em == em
    {
      counter := 0;
      this.em := em;
    }

    /** `manageTransaction(ctx)`: whatever happens, the counter is back at
        its value on entry. */
    method ManageTransaction(w: Work) returns (result: Outcome)
      modifies this, em
      ensures counter == old(counter)
      ensures (em.State(), result) == Intercept(old(em.State()), old(counter), w)
      decreases w, 1
    {
      if !em.active {
        em.Begin();
      }
      counter := counter + 1;
      result := Proceed(w);
      if result.Threw? && result.exception.IsException() {
        if IsFirstInterceptor() {
          MarkRollbackTransaction(result.exception);
        }
      }
      var thrown := ProcessTransaction();
      if thrown.Some? {
        result := Threw(thrown.value);
      }
    }

    /** `ctx.proceed()`: the business method, calling other transactional
        beans through this interceptor. */
    method Proceed(w: Work) returns (result: Outcome)
      modifies this, em
      ensures counter == old(counter)
      ensures (em.State(), result) == ProceedWork(old(em.State()), old(counter), w)
      decreases w, 0
    {
      match w
      case Finish(o) =>
        result := o;
      case CallThen(callee, catches, rest) =>
        result := ManageTransaction(callee);
        if result.Threw? && !catches {
          return;
        }
        result := Proceed(rest);
    }

    /** `processTransaction()`: the counter is decremented whatever happens. */
    method ProcessTransaction() returns (thrown: Option<Exception>)
      modifies this, em
      ensures counter == old(counter) - 1
      ensures (em.State(), thrown) == Processed(old(em.State()), old(counter))
    {
      thrown := None;
      if em.open && em.active && IsFirstInterceptor() {
        if em.rollbackOnly {
          em.Rollback();
          assert em.log == old(em.log) + [RolledBack];
        } else {
          thrown := em.Commit();
        }
        if thrown.None? {
          em.Clear();
          assert em.log == old(em.log) + [if em.rollbackOnly then RolledBack else Committed, Cleared];
        }
      }
      counter := counter - 1;
    }

    /** `markRollbackTransaction(e)` */
    method MarkRollbackTransaction(e: Exception)
      modifies em
      ensures em.State() == MarkRollback(old(em.State()), e)
    {
      if em.open && em.active && ShouldExceptionCauseRollback(e) {
        em.SetRollbackOnly();
      }
    }

    /** `isFirstInterceptor()` */
    predicate IsFirstInterceptor()
      reads this
    {
      counter - 1 == 0
    }
  }
}
