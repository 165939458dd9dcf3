/**
 * `run_check_and_count_asserts` (identical in humaneval_coverage_summary.py
 * and run_humaneval_openai.py): run the instrumented test module, call
 * `check(candidate)`, collect one record per `__rec` call and fold the
 * records into `(total, passed, failed, failures_detail)`.
 *
 * Compiling and executing Python is not modelled: what the module's setup
 * produced is a `Setup` value, and one execution of `check` is the sequence
 * of `Event`s it performed — `__rec` calls, ended at most by one exception.
 */
module AssertCount {
  import opened Wrappers
  import opened PyAst
  import opened Instrument

  /** One entry of `records`: `(lineno, ok, msg)`. */
  datatype Record = Record(lineno: int, ok: bool, msg: Option<string>)

  /** One step of `check(candidate)`: a `__rec` call with its evaluated arguments, or an uncaught `Exception`. */
  datatype Event =
    | Recorded(lineno: int, value: bool, msg: Option<string>)
    | Raised(kind: string, message: string)

  /**
   * The outcome of `compile(...)` and `exec(compiled, env, env)` of the
   * instrumented module: an `Exception` (`Test import error`), no function
   * named `check` in the namespace, or a `check` function to call.
   */
  datatype Setup = ImportFailed(kind: string, message: string) | CheckMissing | CheckDefined

  /** `(total, passed, failed, failures_detail)` */
  datatype Counts = Counts(total: nat, passed: nat, failed: nat, failures: seq<Record>)

  function ImportErrorRecord(kind: string, message: string): Record {
    Record(0, false, Some("Test import error: " + kind + ": " + message))
  }

  const MissingCheckRecord: Record := Record(0, false, Some("Missing check(candidate) in test"))

  function RuntimeErrorRecord(kind: string, message: string): Record {
    Record(0, false, Some("Runtime error: " + kind + ": " + message))
  }

  /** The records list after `check` returns or raises: one per `__rec` call, then the runtime-error record if it raised. */
  function Executed(events: seq<Event>): seq<Record> {
    if events == [] then []
    else match events[0]
      case Recorded(lineno, value, msg) => [Record(lineno, value, msg)] + Executed(events[1..])
      case Raised(kind, message) => [RuntimeErrorRecord(kind, message)]
  }

  /** `sum(1 for _, ok, _ in records if ok)` */
  function CountPassed(rs: seq<Record>): nat {
    if rs == [] then 0 else (if rs[0].ok then 1 else 0) + CountPassed(rs[1..])
  }

  /** `sum(1 for _, ok, _ in records if ok is False)` */
  function CountFailed(rs: seq<Record>): nat {
    if rs == [] then 0 else (if rs[0].ok then 0 else 1) + CountFailed(rs[1..])
  }

  /** `[(ln, ok, msg) for (ln, ok, msg) in records if ok is False]` */
  function Failures(rs: seq<Record>): seq<Record> {
    if rs == [] then [] else (if rs[0].ok then [] else [rs[0]]) + Failures(rs[1..])
  }

  /** What `run_check_and_count_asserts` returns for a setup outcome and one execution of `check`. */
  function ExpectedCounts(setup: Setup, events: seq<Event>): Counts {
    match setup
    case ImportFailed(kind, message) => Counts(0, 0, 1, [ImportErrorRecord(kind, message)])
    case CheckMissing => Counts(0, 0, 1, [MissingCheckRecord])
    case CheckDefined =>
      var rs := Executed(events);
      Counts(|rs|, CountPassed(rs), CountFailed(rs), Failures(rs))
  }

  /**
   * The function itself: records are appended as `__rec` is called; an
   * exception from `check` appends one runtime-error record and is not
   * propagated; the counts are then folded over the records.
   */
  method RunCheckAndCountAsserts(setup: Setup, events: seq<Event>) returns (c: Counts)
    ensures c == ExpectedCounts(setup, events)
    ensures setup.ImportFailed? ==>
      c.total == 0 && c.passed == 0 && c.failed == 1 && c.failures == [ImportErrorRecord(setup.kind, setup.message)]
    ensures setup.CheckMissing? ==>
      c.total == 0 && c.passed == 0 && c.failed == 1 && c.failures == [MissingCheckRecord]
    ensures setup.CheckDefined? ==> c.passed + c.failed == c.total && |c.failures| == c.failed
  {
    if setup.ImportFailed? {
      return Counts(0, 0, 1, [ImportErrorRecord(setup.kind, setup.message)]);
    }
    if setup.CheckMissing? {
      return Counts(0, 0, 1, [MissingCheckRecord]);
    }
    var records: seq<Record> := [];
    var i := 0;
    while i < |events|
      invariant 0 <= i <= |events|
      invariant records + Executed(events[i..]) == Executed(events)
    {
      match events[i]
      case Recorded(lineno, value, msg) =>
        records := records + [Record(lineno, value, msg)];
        assert events[i..][1..] == events[i + 1..];
        i := i + 1;
      case Raised(kind, message) =>
        assert events[i..][0] == events[i];
        records := records + [RuntimeErrorRecord(kind, message)];
        assert records == Executed(events);
        break;
    }
    if i == |events| {
      assert events[i..] == [];
      assert records + [] == records;
    }
    assert records == Executed(events);
    c := Counts(|records|, CountPassed(records), CountFailed(records), Failures(records));
    PassedPlusFailed(records);
  }

  /** Every record is counted exactly once, as passed or as failed, and the failure list has one entry per failed record. */
  lemma {:induction false} PassedPlusFailed(rs: seq<Record>)
    ensures CountPassed(rs) + CountFailed(rs) == |rs|
    ensures |Failures(rs)| == CountFailed(rs)
  {
    if rs != [] {
      PassedPlusFailed(rs[1..]);
    }
  }

  /** `failures_detail` holds exactly the false records: each of them is a false record, and every false record is in it. */
  lemma {:induction false} FailuresAreTheFalseRecords(rs: seq<Record>)
    ensures forall r :: r in Failures(rs) ==> r in rs && !r.ok
    ensures forall r :: r in rs && !r.ok ==> r in Failures(rs)
  {
    if rs != [] {
      FailuresAreTheFalseRecords(rs[1..]);
    }
  }

  /** Failures are kept in execution order: the failures of a concatenation are those of each part, in turn. */
  lemma {:induction false} FailuresOfConcat(a: seq<Record>, b: seq<Record>)
    ensures Failures(a + b) == Failures(a) + Failures(b)
  {
    if a == [] {
      assert a + b == b;
    } else {
      assert (a + b)[0] == a[0];
      assert (a + b)[1..] == a[1..] + b;
      FailuresOfConcat(a[1..], b);
    }
  }

  predicate NoRaise(events: seq<Event>) {
    forall k :: 0 <= k < |events| ==> events[k].Recorded?
  }

  /** The record each `__rec` call appends. */
  function RecordOf(e: Event): Record
    requires e.Recorded?
  {
    Record(e.lineno, e.value, e.msg)
  }

  /**
   * No early termination: when `check` raises nothing, every `__rec` call
   * appends exactly one record, in order, whatever the asserted values.
   */
  lemma {:induction false} EachRecCallAppendsOne(events: seq<Event>)
    requires NoRaise(events)
    ensures |Executed(events)| == |events|
    ensures forall k :: 0 <= k < |events| ==> Executed(events)[k] == RecordOf(events[k])
  {
    if events != [] {
      EachRecCallAppendsOne(events[1..]);
    }
  }

  /**
   * A runtime error in `check` after some `__rec` calls keeps what was
   * recorded and adds exactly one failing line-0 record after it; later
   * events never happen.
   */
  lemma {:induction false} RuntimeErrorAppendsOne(before: seq<Event>, kind: string, message: string, after: seq<Event>)
    requires NoRaise(before)
    ensures Executed(before + [Raised(kind, message)] + after) == Executed(before) + [RuntimeErrorRecord(kind, message)]
    ensures var c := ExpectedCounts(CheckDefined, before + [Raised(kind, message)] + after);
      c.total == |before| + 1 && c.failed == CountFailed(Executed(before)) + 1
  {
    var evs := before + [Raised(kind, message)] + after;
    if before == [] {
      assert evs[0] == Raised(kind, message);
    } else {
      assert evs[0] == before[0];
      assert evs[1..] == before[1..] + [Raised(kind, message)] + after;
      RuntimeErrorAppendsOne(before[1..], kind, message, after);
    }
    EachRecCallAppendsOne(before);
    CountFailedConcat(Executed(before), [RuntimeErrorRecord(kind, message)]);
  }

  lemma {:induction false} CountFailedConcat(a: seq<Record>, b: seq<Record>)
    ensures CountFailed(a + b) == CountFailed(a) + CountFailed(b)
  {
    if a == [] {
      assert a + b == b;
    } else {
      assert (a + b)[0] == a[0];
      assert (a + b)[1..] == a[1..] + b;
      CountFailedConcat(a[1..], b);
    }
  }

  // ---------- executing a rewritten check body ----------

  /** How evaluating a test expression ends: with a truth value (`bool(value)`), or by raising. */
  datatype Outcome = Value(b: bool) | Raises(kind: string, message: string)

  /**
   * How evaluating a message expression ends: with its value after
   * `str(...)` (`None` stays `None`), or by raising.
   */
  datatype Message = Shown(text: Option<string>) | Fails(kind: string, message: string)

  /** The values of a `check` body's expressions for one candidate: tests, and messages. */
  datatype Env = Env(truth: Expr -> Outcome, text: Expr -> Message)

  /** The message expression an assertion hands to `__rec`: its own, or the constant `None`. */
  function MessageOf(s: Stmt): Expr
    requires s.Assert?
  {
    s.msg.GetOr(Const(NoneConst))
  }

  /**
   * The events of running a `check` body statement by statement, for the two
   * statement forms the rewriter produces or consumes. A `__rec(test, msg,
   * lineno)` call evaluates both arguments first, so it raises when either
   * does, and otherwise records and goes on. An `assert` goes on when its
   * test holds; otherwise it evaluates its message, raising what that raises
   * or else `AssertionError`, whose text is the message, `"None"` for a
   * `None` message, or empty without one. Other statements are not executed
   * by this model.
   */
  function RunBody(body: seq<Stmt>, env: Env): seq<Event> {
    if body == [] then []
    else
      var s := body[0];
      if IsRecCall(s) && |s.value.args| == 3 && s.value.args[2].Const? && s.value.args[2].value.IntConst? then
        match env.truth(s.value.args[0])
        case Value(b) =>
          (match env.text(s.value.args[1])
           case Shown(t) => [Recorded(s.value.args[2].value.i, b, t)] + RunBody(body[1..], env)
           case Fails(kind, message) => [Raised(kind, message)])
        case Raises(kind, message) => [Raised(kind, message)]
      else if s.Assert? then
        match env.truth(s.test)
        case Value(b) =>
          if b then RunBody(body[1..], env)
          else if s.msg.None? then [Raised("AssertionError", "")]
          else
            (match env.text(s.msg.value)
             case Shown(t) => [Raised("AssertionError", t.GetOr("None"))]
             case Fails(kind, message) => [Raised(kind, message)])
        case Raises(kind, message) => [Raised(kind, message)]
      else RunBody(body[1..], env)
  }

  /** A body made only of assertions whose tests evaluate without raising. */
  predicate AssertsOnly(body: seq<Stmt>, env: Env) {
    forall k :: 0 <= k < |body| ==> body[k].Assert? && env.truth(body[k].test).Value?
  }

  /** A body of assertions whose messages (or the `None` put in for a missing one) evaluate without raising. */
  predicate MessagesShown(body: seq<Stmt>, env: Env) {
    forall k :: 0 <= k < |body| ==> body[k].Assert? && env.text(MessageOf(body[k])).Shown?
  }

  /** The number of assertions in `body` whose test evaluates to false. */
  function FalseTests(body: seq<Stmt>, env: Env): nat
    requires AssertsOnly(body, env)
  {
    if body == [] then 0 else (if env.truth(body[0].test).b then 0 else 1) + FalseTests(body[1..], env)
  }

  /**
   * The point of the rewrite: a `check` made of `k` assertions, once
   * instrumented, reports all `k` of them — `total == k`, and `failed` is the
   * number of false ones — however many are false.
   */
  lemma {:induction false} InstrumentedCheckCountsEveryAssert(body: seq<Stmt>, env: Env)
    requires AssertsOnly(body, env) && MessagesShown(body, env)
    ensures var c := ExpectedCounts(CheckDefined, RunBody(RecordSeq(body), env));
      c.total == |body| && c.failed == FalseTests(body, env) && c.passed == |body| - FalseTests(body, env)
  {
    RunRecordedAsserts(body, env);
    var evs := RunBody(RecordSeq(body), env);
    EachRecCallAppendsOne(evs);
    PassedPlusFailed(Executed(evs));
  }

  lemma {:induction false} RunRecordedAsserts(body: seq<Stmt>, env: Env)
    requires AssertsOnly(body, env) && MessagesShown(body, env)
    ensures var evs := RunBody(RecordSeq(body), env);
      NoRaise(evs) && |evs| == |body| && CountFailed(Executed(evs)) == FalseTests(body, env)
  {
    if body != [] {
      var s := body[0];
      var rs := RecordSeq(body);
      assert rs[0] == RecordStmt(s);
      assert rs[1..] == RecordSeq(body[1..]);
      assert AssertsOnly(body[1..], env) && MessagesShown(body[1..], env) by {
        forall k | 0 <= k < |body[1..]|
          ensures body[1..][k].Assert? && env.truth(body[1..][k].test).Value? && env.text(MessageOf(body[1..][k])).Shown?
        {
          assert body[1..][k] == body[k + 1];
        }
      }
      RunRecordedAsserts(body[1..], env);
      var rest := RunBody(RecordSeq(body[1..]), env);
      var evs := RunBody(rs, env);
      assert evs == [Recorded(s.lineno, env.truth(s.test).b, env.text(MessageOf(s)).text)] + rest;
      assert evs[1..] == rest;
      assert Executed(evs)[1..] == Executed(rest);
    }
  }

  /**
   * The price of the rewrite: `__rec(test, msg, lineno)` evaluates the
   * message before the call, even when the test holds, where a plain
   * `assert` would never look at it. So the first assertion whose message
   * raises ends `check` with one runtime-error record: the assertions before
   * it are counted, it counts as one failure, and none after it is counted.
   */
  lemma {:induction false} EagerMessageStopsCheck(pre: seq<Stmt>, s: Stmt, post: seq<Stmt>, env: Env)
    requires AssertsOnly(pre, env) && MessagesShown(pre, env)
    requires s.Assert? && env.truth(s.test).Value? && env.text(MessageOf(s)).Fails?
    ensures var c := ExpectedCounts(CheckDefined, RunBody(RecordSeq(pre + [s] + post), env));
      c.total == |pre| + 1 && c.failed == FalseTests(pre, env) + 1 && c.passed == |pre| - FalseTests(pre, env)
  {
    var body := pre + [s] + post;
    var rs := RecordSeq(body);
    var evs := RunBody(rs, env);
    if pre == [] {
      assert body[0] == s && rs[0] == RecordStmt(s);
      assert evs == [Raised(env.text(MessageOf(s)).kind, env.text(MessageOf(s)).message)];
      var recs := Executed(evs);
      assert recs == [RuntimeErrorRecord(env.text(MessageOf(s)).kind, env.text(MessageOf(s)).message)];
      assert recs[1..] == [];
      assert CountFailed(recs) == 1 + CountFailed(recs[1..]);
      PassedPlusFailed(recs);
    } else {
      var p := pre[0];
      assert body[0] == p && rs[0] == RecordStmt(p);
      assert body[1..] == pre[1..] + [s] + post;
      assert rs[1..] == RecordSeq(pre[1..] + [s] + post);
      assert AssertsOnly(pre[1..], env) && MessagesShown(pre[1..], env) by {
        forall k | 0 <= k < |pre[1..]|
          ensures pre[1..][k].Assert? && env.truth(pre[1..][k].test).Value? && env.text(MessageOf(pre[1..][k])).Shown?
        {
          assert pre[1..][k] == pre[k + 1];
        }
      }
      EagerMessageStopsCheck(pre[1..], s, post, env);
      var rest := RunBody(rs[1..], env);
      assert evs == [Recorded(p.lineno, env.truth(p.test).b, env.text(MessageOf(p)).text)] + rest;
      var recs := Executed(evs);
      assert recs == [RecordOf(evs[0])] + Executed(rest);
      assert recs[1..] == Executed(rest);
      assert CountFailed(recs) == (if env.truth(p.test).b then 0 else 1) + CountFailed(Executed(rest));
      PassedPlusFailed(recs);
      PassedPlusFailed(Executed(rest));
    }
  }

  /**
   * The same body without the rewrite: the first false assertion raises
   * `AssertionError`, so `check` reports a single runtime-error failure and
   * the assertions after it are never counted.
   */
  lemma {:induction false} UninstrumentedCheckStopsAtFirstFailure(body: seq<Stmt>, env: Env, j: nat)
    requires AssertsOnly(body, env)
    requires j < |body| && !env.truth(body[j].test).b
    requires forall k :: 0 <= k < j ==> env.truth(body[k].test).b
    ensures var c := ExpectedCounts(CheckDefined, RunBody(body, env));
      c.total == 1 && c.passed == 0 && c.failed == 1
  {
    if j == 0 {
      var r := RunBody(body, env);
      assert |r| == 1 && r[0].Raised?;
      var rs := Executed(r);
      assert rs == [RuntimeErrorRecord(r[0].kind, r[0].message)];
      assert !rs[0].ok && rs[1..] == [];
      assert CountPassed(rs) == CountPassed(rs[1..]) == 0;
      assert CountFailed(rs) == 1 + CountFailed(rs[1..]) == 1;
    } else {
      assert RunBody(body, env) == RunBody(body[1..], env);
      assert AssertsOnly(body[1..], env) by {
        forall k | 0 <= k < |body[1..]| ensures body[1..][k].Assert? && env.truth(body[1..][k].test).Value? {
          assert body[1..][k] == body[k + 1];
        }
      }
      assert forall k :: 0 <= k < j - 1 ==> body[1..][k] == body[k + 1];
      UninstrumentedCheckStopsAtFirstFailure(body[1..], env, j - 1);
    }
  }
}
