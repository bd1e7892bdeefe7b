/**
 * The structured logger's state-bearing parts: the batch outcome counter
 * (`BatchLogSummary`), the retry loop shared by the `with_retry` decorator
 * and `retry_operation`, the log-directory template and `log_error_exit`.
 * Emitting log records and sleeping are observable only as the values the
 * model returns (the delays slept, the record logged).
 */
module Logging {
  import opened Base
  import opened Strings
  import opened Decimal

  /** One entry of `BatchLogSummary.errors`: `{"item": ..., "error": ...}`. */
  datatype ErrorEntry = ErrorEntry(item: string, error: string)

  /** Counts successes and failures of a batch and keeps the failure details. */
  class BatchLogSummary {
    var total: nat
    var successful: nat
    var failed: nat
    var errors: seq<ErrorEntry>

    /** Every recorded item is a success or a failure; each failure has an entry. */
    predicate Valid()
      reads this
    {
      total == successful + failed && |errors| == failed
    }

    constructor ()
      ensures Valid()
      ensures total == 0 && successful == 0 && failed == 0 && errors == []
    {
      total := 0;
      successful := 0;
      failed := 0;
      errors := [];
    }

    method RecordSuccess(item: string)
      requires Valid()
      modifies this
      ensures Valid()
      ensures total == old(total) + 1 && successful == old(successful) + 1
      ensures failed == old(failed) && errors == old(errors)
    {
      total := total + 1;
      successful := successful + 1;
    }

    method RecordFailure(item: string, error: string)
      requires Valid()
      modifies this
      ensures Valid()
      ensures total == old(total) + 1 && failed == old(failed) + 1
      ensures successful == old(successful)
      ensures errors == old(errors) + [ErrorEntry(item, error)]
    {
      total := total + 1;
      failed := failed + 1;
      errors := errors + [ErrorEntry(item, error)];
    }

    /** 0 exactly when every recorded item succeeded, otherwise 1. */
    function ExitCode(): (code: int)
      reads this
      requires Valid()
      ensures code == 0 || code == 1
      ensures code == 0 <==> successful == total
      ensures code == 0 <==> errors == []
    {
      if failed > 0 then 1 else 0
    }

    /** The `success_rate` field of the summary record. */
    function SuccessRate(): (text: string)
      reads this
      requires Valid()
      ensures total == 0 ==> text == "N/A"
      ensures total > 0 ==> text == FormatFixed(successful as real / total as real * 100.0, 1) + "%"
    {
      if total > 0 then FormatFixed(successful as real / total as real * 100.0, 1) + "%" else "N/A"
    }
  }

  /** A full batch prints a success rate of one hundred percent. */
  lemma AllSuccessfulRate(successful: nat)
    requires successful > 0
    ensures FormatFixed(successful as real / successful as real * 100.0, 1) + "%" == "100.0%"
  {
    var q := successful as real;
    assert q / q == 1.0;
    FixedHundred();
  }

  /** `f"{100.0:.1f}"` is "100.0". */
  lemma FixedHundred()
    ensures FormatFixed(100.0, 1) == "100.0"
  {
    assert Pow10(1) == 10;
    assert RoundHalfEven(Scale(100.0, 10)) == 1000 by {
      assert Scale(100.0, 10) == 1000.0;
    }
    assert NatToString(100) == "100" by {
      assert NatToString(1) == "1";
      assert NatToString(10) == NatToString(1) + "0";
      assert NatToString(100) == NatToString(10) + "0";
    }
    assert FormatInt(0, 1) == "0";
    assert FixedDigits(1000, 1) == NatToString(100) + "." + FormatInt(0, 1);
  }

  // -----------------------------------------------------------------------
  // Log directory and error exit
  // -----------------------------------------------------------------------

  const DefaultLogDirTemplate := "data/outputs/{slug}/logs"

  /**
   * `_get_log_dir`: the configured template (or the default) with every
   * `{slug}` replaced by the logger's slug, `"default"` when the slug is
   * `None` or empty.
   */
  function LogDir(template: Option<string>, slug: Option<string>): string
  {
    var t := template.GetOr(DefaultLogDirTemplate);
    var s := if slug.Some? && slug.value != "" then slug.value else "default";
    Replace(t, "{slug}", s)
  }

  /** A template without the placeholder is used as given. */
  lemma LogDirWithoutPlaceholder(template: string, slug: Option<string>)
    requires !Occurs("{slug}", template)
    ensures LogDir(Some(template), slug) == template
  {
    var s := if slug.Some? && slug.value != "" then slug.value else "default";
    ReplaceAbsent(template, "{slug}", s);
  }

  /**
   * When every `{` of the template opens a `{slug}` and the slug holds no
   * `{`, every placeholder is filled: no `{` is left in the directory.
   */
  lemma LogDirFillsPlaceholders(template: string, slug: Option<string>)
    requires forall i :: 0 <= i < |template| && template[i] == '{' ==>
      i + 6 <= |template| && template[i..i + 6] == "{slug}"
    requires slug.Some? ==> '{' !in slug.value
    ensures '{' !in LogDir(Some(template), slug)
  {
    var s := if slug.Some? && slug.value != "" then slug.value else "default";
    assert '{' !in s;
    ReplaceFillsAll(template, "{slug}", s);
  }

  /** With no configured template, logs go to `data/outputs/<slug>/logs`. */
  lemma DefaultLogDir(slug: string)
    ensures LogDir(None, Some(slug)) == "data/outputs/" + (if slug == "" then "default" else slug) + "/logs"
  {
    var s := if slug == "" then "default" else slug;
    assert Replace("/logs", "{slug}", s) == "/logs" by {
      ReplaceSkip("/logs", "", "{slug}", s);
      assert "/logs" + "" == "/logs";
    }
    assert Replace("{slug}" + "/logs", "{slug}", s) == s + "/logs" by {
      ReplaceAtStart("{slug}", "/logs", s);
    }
    assert Replace(DefaultLogDirTemplate, "{slug}", s) == "data/outputs/" + (s + "/logs") by {
      assert DefaultLogDirTemplate == "data/outputs/" + ("{slug}" + "/logs");
      ReplaceSkip("data/outputs/", "{slug}" + "/logs", "{slug}", s);
    }
  }

  /** The record `log_error_exit` writes: level ERROR, the message, the exit code. */
  datatype LogRecord = LogRecord(level: string, message: string, exitCode: int)

  /** `log_error_exit`: logs the message at ERROR level and hands back the exit code. */
  function LogErrorExit(message: string, exitCode: int := 1): (out: (int, LogRecord))
    ensures out.0 == exitCode && out.1.exitCode == exitCode
    ensures out.1.level == "ERROR" && out.1.message == message
  {
    (exitCode, LogRecord("ERROR", message, exitCode))
  }

  // -----------------------------------------------------------------------
  // Retry with exponential backoff
  // -----------------------------------------------------------------------

  /** What one call of the wrapped operation does. */
  datatype Attempt<T> =
    | Returns(value: T)
    | RaisesTransient(error: string)   // TransientError, ConnectionError, TimeoutError
    | RaisesOther(error: string)       // any other exception: not retried

  /** How the retry wrapper ends. */
  datatype Retried<T> =
    | Returned(value: T)
    | Raised(error: string)
    | ReturnedNone                     // `max_attempts <= 0`: the loop never runs
    | RaisedNegativeSleep              // `time.sleep` of a negative delay raises ValueError

  function RealPow(b: real, k: nat): real
  {
    if k == 0 then 1.0 else RealPow(b, k - 1) * b
  }

  /** The delay before retry `k + 1`: `initial_delay`, multiplied by the factor after each sleep. */
  function Delay(initialDelay: real, backoffFactor: real, k: nat): real
  {
    if k == 0 then initialDelay else Delay(initialDelay, backoffFactor, k - 1) * backoffFactor
  }

  /** The k-th delay is `initial_delay * backoff_factor ** k`. */
  lemma {:induction false} DelayIsGeometric(initialDelay: real, backoffFactor: real, k: nat)
    ensures Delay(initialDelay, backoffFactor, k) == initialDelay * RealPow(backoffFactor, k)
  {
    if k > 0 {
      DelayIsGeometric(initialDelay, backoffFactor, k - 1);
      MulAssoc(initialDelay, RealPow(backoffFactor, k - 1), backoffFactor);
    }
  }

  /** With the non-negative delay and factor every caller passes, no sleep is rejected. */
  lemma {:induction false} DelayNonNegative(initialDelay: real, backoffFactor: real, k: nat)
    requires initialDelay >= 0.0 && backoffFactor >= 0.0
    ensures Delay(initialDelay, backoffFactor, k) >= 0.0
  {
    if k > 0 {
      DelayNonNegative(initialDelay, backoffFactor, k - 1);
      NonNegativeProduct(Delay(initialDelay, backoffFactor, k - 1), backoffFactor);
    }
  }

  lemma NonNegativeProduct(a: real, b: real)
    requires a >= 0.0 && b >= 0.0
    ensures a * b >= 0.0
  {
  }

  lemma MulAssoc(a: real, b: real, c: real)
    ensures a * b * c == a * (b * c)
  {
  }

  /**
   * The attempt loop of `with_retry` and `retry_operation`: `call(k)` is what
   * the k-th call (from 0) does. Returns how the wrapper ends, the number of
   * calls made and the delays slept between them. A negative delay makes
   * `time.sleep` raise `ValueError` inside the `except` block, which ends
   * the loop.
   */
  method RetryLoop<T>(maxAttempts: int, backoffFactor: real, initialDelay: real, call: nat -> Attempt<T>)
    returns (outcome: Retried<T>, calls: nat, sleeps: seq<real>)
    ensures maxAttempts <= 0 <==> outcome.ReturnedNone?
    ensures maxAttempts <= 0 ==> calls == 0 && sleeps == []
    ensures maxAttempts > 0 ==> 1 <= calls <= maxAttempts && |sleeps| == calls - 1
    ensures forall k :: 0 <= k < |sleeps| ==> sleeps[k] == Delay(initialDelay, backoffFactor, k) && sleeps[k] >= 0.0
    // every call but the last raised a transient error
    ensures forall k :: 0 <= k < calls - 1 ==> call(k).RaisesTransient?
    ensures outcome.Returned? ==> call(calls - 1) == Returns(outcome.value)
    // the last call raised: non-transiently, or transiently on the final attempt
    ensures outcome.Raised? ==>
      && (call(calls - 1).RaisesOther? || (call(calls - 1).RaisesTransient? && calls == maxAttempts))
      && call(calls - 1).error == outcome.error
    // a transient error before the final attempt ends the loop only through a negative delay
    ensures 0 < calls ==> (outcome.RaisedNegativeSleep? <==> call(calls - 1).RaisesTransient? && calls < maxAttempts)
    ensures outcome.RaisedNegativeSleep? ==> Delay(initialDelay, backoffFactor, calls - 1) < 0.0
  {
    var delay := initialDelay;
    calls := 0;
    sleeps := [];
    var attempt := 1;
    while attempt <= maxAttempts
      invariant 1 <= attempt && (maxAttempts > 0 ==> attempt <= maxAttempts) && (maxAttempts <= 0 ==> attempt == 1)
      invariant calls == attempt - 1 && |sleeps| == calls
      invariant forall k :: 0 <= k < calls ==> call(k).RaisesTransient?
      invariant forall k :: 0 <= k < |sleeps| ==> sleeps[k] == Delay(initialDelay, backoffFactor, k) && sleeps[k] >= 0.0
      invariant delay == Delay(initialDelay, backoffFactor, |sleeps|)
      decreases maxAttempts - attempt
    {
      var a := call(calls);
      calls := calls + 1;
      match a {
        case Returns(v) =>
          return Returned(v), calls, sleeps;
        case RaisesOther(e) =>
          return Raised(e), calls, sleeps;
        case RaisesTransient(e) =>
          if attempt == maxAttempts {
            return Raised(e), calls, sleeps;
          }
          if delay < 0.0 {
            return RaisedNegativeSleep, calls, sleeps;
          }
          sleeps := sleeps + [delay];
          delay := delay * backoffFactor;
      }
      attempt := attempt + 1;
    }
    outcome := ReturnedNone;
  }

  /** `operation_name or operation.__name__`: an empty name also falls back. */
  function OperationName(operationName: Option<string>, functionName: string): (name: string)
    ensures operationName.Some? && operationName.value != [] ==> name == operationName.value
    ensures operationName.None? || operationName.value == [] ==> name == functionName
  {
    if operationName.Some? && operationName.value != "" then operationName.value else functionName
  }
}
