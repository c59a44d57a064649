/** The application's error vocabulary: the Spanish message table, the
    recovery strategy per error code, placeholder substitution, construction of
    error records from codes and from caught values, and the bounded retry loop
    with exponential backoff. */
module FirebaseErrors {
  import opened Wrappers
  import opened Text
  import opened FirebaseTypes

  const NETWORK_ERROR_MSG := "Error de conexión. Verifica tu internet e intenta nuevamente."
  const UNAVAILABLE_MSG := "Servicio temporalmente no disponible. Intenta más tarde."
  const PERMISSION_DENIED_MSG := "No tienes " + "permisos para " + "realizar esta acción."
  const FILE_TOO_LARGE_MSG := "El archivo es demasiado grande. Máximo {maxSize}MB."
  const INVALID_FILE_TYPE_MSG := "Tipo de archivo no válido. Solo se permiten imágenes JPG, PNG y WebP."
  const FILE_REQUIRED_MSG := "Este archivo es obligatorio."
  const FILE_CORRUPTED_MSG := "El archivo está dañado o corrupto."
  const REQUIRED_FIELD_MSG := "Este campo es obligatorio."
  const INVALID_PHONE_MSG := "Número de teléfono inválido. Debe tener entre 10 y 15 dígitos."
  const NAME_TOO_SHORT_MSG := "El nombre debe tener al menos {minLength} caracteres."
  const UNKNOWN_ERROR_MSG := "Ha ocurrido un error inesperado. Intenta nuevamente."

  /** The message template of every known error code. */
  const ERROR_MESSAGES: map<string, string> := map[
    "network-error" := NETWORK_ERROR_MSG,
    "unavailable" := UNAVAILABLE_MSG,
    "timeout" := "La operación tardó demasiado. Intenta nuevamente.",
    "unauthenticated" := "Debes iniciar sesión para continuar.",
    "permission-denied" := PERMISSION_DENIED_MSG,
    "user-not-found" := "Usuario no encontrado.",
    "wrong-password" := "Contraseña incorrecta.",
    "invalid-email" := "Dirección de email inválida.",
    "storage/quota-exceeded" := "Se ha excedido la cuota de almacenamiento.",
    "storage/unauthenticated" := "Debes iniciar sesión para subir archivos.",
    "storage/unauthorized" := "No tienes permisos para subir archivos.",
    "storage/retry-limit-exceeded" := "Demasiados intentos. Intenta más tarde.",
    "storage/invalid-format" := "Formato de archivo no válido.",
    "storage/object-not-found" := "Archivo no encontrado.",
    "firestore/permission-denied" := "No tienes permisos para acceder a estos datos.",
    "firestore/unavailable" := "Base de datos temporalmente no disponible.",
    "firestore/deadline-exceeded" := "La operación tardó demasiado tiempo.",
    "firestore/resource-exhausted" := "Se han agotado los recursos disponibles.",
    "file-too-large" := FILE_TOO_LARGE_MSG,
    "invalid-file-type" := INVALID_FILE_TYPE_MSG,
    "file-required" := FILE_REQUIRED_MSG,
    "file-corrupted" := FILE_CORRUPTED_MSG,
    "required-field" := REQUIRED_FIELD_MSG,
    "invalid-phone" := INVALID_PHONE_MSG,
    "content-too-short" := "El contenido debe tener al menos {minLength} caracteres.",
    "content-too-long" := "El contenido no puede exceder {maxLength} caracteres.",
    "name-too-short" := NAME_TOO_SHORT_MSG,
    "name-too-long" := "El nombre no puede exceder {maxLength} caracteres.",
    "title-too-short" := "El título debe tener al menos {minLength} caracteres.",
    "title-too-long" := "El título no puede exceder {maxLength} caracteres.",
    "description-too-short" := "La descripción debe tener al menos {minLength} caracteres.",
    "description-too-long" := "La descripción no puede exceder {maxLength} caracteres.",
    "relato-submitted" := "Tu relato ha sido enviado y está pendiente de aprobación.",
    "portal-memoria-submitted" :=
      "Tu entrada al portal de la memoria ha sido enviada y está pendiente de aprobación.",
    "submission-approved" := "La entrada ha sido aprobada exitosamente.",
    "submission-rejected" := "La entrada ha sido rechazada.",
    "unknown-error" := UNKNOWN_ERROR_MSG,
    "maintenance" := "El sistema está en mantenimiento. Intenta más tarde.",
    "quota-exceeded" := "Se ha excedido la cuota diaria. Intenta mañana."
  ]

  /** The codes whose failures are worth retrying. */
  const RETRYABLE_ERRORS: seq<string> := [
    "unavailable", "timeout", "network-error", "storage/retry-limit-exceeded",
    "firestore/unavailable", "firestore/deadline-exceeded"
  ]

  datatype ErrorRecoveryStrategy = ErrorRecoveryStrategy(
    retryable: bool,
    maxRetries: nat,
    backoffMs: nat,
    showRetryButton: bool,
    saveToLocalStorage: bool,
    showOfflineMessage: bool)

  function GetErrorRecoveryStrategy(errorCode: string): (s: ErrorRecoveryStrategy)
    ensures s.retryable <==> errorCode in RETRYABLE_ERRORS
    ensures s.maxRetries == (if s.retryable then 3 else 0)
    ensures s.backoffMs == 1000
    ensures s.showRetryButton == s.retryable && s.saveToLocalStorage == s.retryable
    ensures s.showOfflineMessage <==> errorCode == "network-error"
  {
    var isRetryable := errorCode in RETRYABLE_ERRORS;
    ErrorRecoveryStrategy(isRetryable, if isRetryable then 3 else 0, 1000,
                          isRetryable, isRetryable, errorCode == "network-error")
  }

  /** The text `{key}` that a parameter named `key` fills in. */
  function Placeholder(key: string): string { "{" + key + "}" }

  /** The template after each parameter, in order, has filled the first
      occurrence of its placeholder (parameter values already rendered
      as text). */
  function Formatted(template: string, params: seq<(string, string)>): string
    decreases |params|
  {
    if params == [] then template
    else Formatted(ReplaceFirst(template, Placeholder(params[0].0), params[0].1), params[1..])
  }

  /** `formatErrorMessage`: the loop over the parameters, reassigning the message. */
  method FormatErrorMessage(messageTemplate: string, params: seq<(string, string)>)
    returns (message: string)
    ensures message == Formatted(messageTemplate, params)
  {
    message := messageTemplate;
    var i := 0;
    while i < |params|
      invariant 0 <= i <= |params|
      invariant Formatted(messageTemplate, params) == Formatted(message, params[i..])
    {
      assert params[i..][1..] == params[i + 1..];
      message := ReplaceFirst(message, Placeholder(params[i].0), params[i].1);
      i := i + 1;
    }
  }

  /** A template none of whose parameters' placeholders occur in it comes out unchanged. */
  lemma {:induction false} FormattedWithoutPlaceholders(template: string, params: seq<(string, string)>)
    requires forall i :: 0 <= i < |params| ==> !Contains(template, Placeholder(params[i].0))
    ensures Formatted(template, params) == template
  {
    if params != [] {
      FormattedWithoutPlaceholders(template, params[1..]);
    }
  }

  /** A parameter fills the first occurrence of its placeholder only: the
      text before it and after it is kept, so every later occurrence is still
      there, shifted by the difference in length; with no occurrence the
      template is unchanged. */
  lemma FormattedReplacesFirstOnly(t: string, key: string, v: string)
    ensures var ph := Placeholder(key);
      var r := Formatted(t, [(key, v)]);
      match IndexOf(t, ph)
      case None => r == t
      case Some(i) =>
        && r == t[..i] + v + t[i + |ph|..]
        && forall j: nat :: i + |ph| <= j && MatchAt(t, ph, j) ==> MatchAt(r, ph, j - |ph| + |v|)
  {
    var ph := Placeholder(key);
    var r := ReplaceFirst(t, ph, v);
    assert [(key, v)][1..] == [];
    assert Formatted(t, [(key, v)]) == r;
    match IndexOf(t, ph)
    case None =>
    case Some(i) =>
      assert r == t[..i] + v + t[i + |ph|..];
      forall j: nat | i + |ph| <= j && MatchAt(t, ph, j) ensures MatchAt(r, ph, j - |ph| + |v|) {
        SpliceKeepsLater(t, ph, v, i, j);
      }
  }

  /** The template for a code, the generic one for an unknown code. */
  function TemplateFor(code: string): (t: string)
    ensures code in ERROR_MESSAGES ==> t == ERROR_MESSAGES[code]
    ensures code !in ERROR_MESSAGES ==> t == UNKNOWN_ERROR_MSG
  {
    if code in ERROR_MESSAGES then ERROR_MESSAGES[code] else UNKNOWN_ERROR_MSG
  }

  /** `createFirebaseError(code, originalError, params)`; an absent original error is `NullValue`. */
  function CreateFirebaseError(code: string, originalError: Thrown, params: seq<(string, string)>)
    : (e: FirebaseError)
    ensures e.code == code
    ensures e.userMessage == Some(Formatted(TemplateFor(code), params))
    ensures originalError.Message().Some? ==> e.message == originalError.Message().value
    ensures originalError.Message().None? ==> e.message == Formatted(TemplateFor(code), params)
  {
    var userMessage := Formatted(TemplateFor(code), params);
    FirebaseError(code, originalError.Message().GetOr(userMessage), Some(userMessage))
  }

  /** The code a caught value is reported under: its own code first, then
      the two recognised error names, then the generic code. */
  function ErrorCodeOf(error: Thrown): (code: string)
    ensures error.Code().Some? ==> code == error.Code().value
    ensures error.Code().None? && error.Name() == Some("NetworkError") ==> code == "network-error"
    ensures error.Code().None? && error.Name() == Some("TimeoutError") ==> code == "timeout"
    ensures error.Code().None? && error.Name() != Some("NetworkError") && error.Name() != Some("TimeoutError")
            ==> code == "unknown-error"
  {
    if error.Code().Some? then error.Code().value
    else if error.Name() == Some("NetworkError") then "network-error"
    else if error.Name() == Some("TimeoutError") then "timeout"
    else "unknown-error"
  }

  /** `handleFirebaseError(error)` (the logging is left out). */
  function HandleFirebaseError(error: Thrown): (e: FirebaseError)
    ensures e.code == ErrorCodeOf(error)
    ensures e.userMessage == Some(TemplateFor(e.code))
    ensures e.message == error.Message().GetOr(TemplateFor(e.code))
  {
    CreateFirebaseError(ErrorCodeOf(error), error, [])
  }

  // ---------------------------------------------------------------------
  // Retry with exponential backoff

  /** The outcome of one call of the retried operation. */
  datatype Outcome<T> = Success(value: T) | Failure(error: Thrown)

  /** What a run of the retry loop produced: the result (or the error it gave
      up with), how many calls it made and the delays it waited between them. */
  datatype RetryRun<T, E> = RetryRun(result: Result<T, E>, calls: nat, delays: seq<int>)

  function Pow2(k: nat): (p: nat)
    ensures p >= 1
  {
    if k == 0 then 1 else 2 * Pow2(k - 1)
  }

  /** The classification key as written: `error?.toString() || 'unknown-error'`. */
  function ToStringKey(error: Thrown): string
  {
    match error.ToString()
    case Some(s) => if s == "" then "unknown-error" else s
    case None => "unknown-error"
  }

  /** The classification key by the error's own code: `error?.code || 'unknown-error'`. */
  function CodeKey(error: Thrown): string
  {
    error.Code().GetOr("unknown-error")
  }

  /** The retry loop from attempt `attempt` on, the last caught value being `lastError`.
      Call `k` of the operation returns `fn(k)`; `retryable` says of a caught
      value whether to go on. A run that gives up holds the caught value. */
  function RetryFrom<T>(fn: nat -> Outcome<T>, maxRetries: int, baseDelayMs: int,
                        retryable: Thrown -> bool, attempt: nat, lastError: Thrown): RetryRun<T, Thrown>
    decreases maxRetries + 1 - attempt
  {
    if attempt > maxRetries then RetryRun(Err(lastError), attempt, [])
    else match fn(attempt)
      case Success(v) => RetryRun(Ok(v), attempt + 1, [])
      case Failure(e) =>
        if attempt == maxRetries || !retryable(e) then
          RetryRun(Err(e), attempt + 1, [])
        else
          var rest := RetryFrom(fn, maxRetries, baseDelayMs, retryable, attempt + 1, e);
          rest.(delays := [baseDelayMs * Pow2(attempt)] + rest.delays)
  }

  /** A caught value is worth retrying when the strategy for its key says so. */
  function RetryableBy(key: Thrown -> string): Thrown -> bool {
    e => GetErrorRecoveryStrategy(key(e)).retryable
  }

  /** A run as its caller sees it: giving up throws `handleFirebaseError` of
      the caught value. */
  function Handled<T>(r: RetryRun<T, Thrown>): RetryRun<T, FirebaseError> {
    RetryRun(if r.result.Ok? then Ok(r.result.value) else Err(HandleFirebaseError(r.result.error)),
             r.calls, r.delays)
  }

  /** The whole loop, from the first attempt with nothing caught yet. */
  function Retry<T>(fn: nat -> Outcome<T>, maxRetries: int, baseDelayMs: int, key: Thrown -> string)
    : RetryRun<T, Thrown>
  {
    RetryFrom(fn, maxRetries, baseDelayMs, RetryableBy(key), 0, NullValue)
  }

  /** A run preceded by the waits already made. */
  function AfterDelays<T, E>(waited: seq<int>, r: RetryRun<T, E>): RetryRun<T, E> {
    r.(delays := waited + r.delays)
  }

  lemma AfterDelaysTwice<T, E>(a: seq<int>, b: seq<int>, r: RetryRun<T, E>)
    ensures AfterDelays(a, AfterDelays(b, r)) == AfterDelays(a + b, r)
  {
    assert a + (b + r.delays) == (a + b) + r.delays;
  }

  /** One step of the loop: what the call at `attempt` decides. */
  lemma RetryFromStep<T>(fn: nat -> Outcome<T>, maxRetries: int, baseDelayMs: int,
                         key: Thrown -> string, attempt: nat, lastError: Thrown)
    requires attempt <= maxRetries
    ensures var here := RetryFrom(fn, maxRetries, baseDelayMs, RetryableBy(key), attempt, lastError);
      match fn(attempt)
      case Success(v) => here == RetryRun(Ok(v), attempt + 1, [])
      case Failure(e) =>
        if attempt == maxRetries || !GetErrorRecoveryStrategy(key(e)).retryable then
          here == RetryRun(Err(e), attempt + 1, [])
        else
          here == AfterDelays([baseDelayMs * Pow2(attempt)],
                              RetryFrom(fn, maxRetries, baseDelayMs, RetryableBy(key), attempt + 1, e))
  {
  }

  /** `retryWithBackoff(fn, maxRetries, baseDelayMs)`, classifying caught values by `key`.
      The waits are returned as the list of delays instead of being slept. */
  method RetryWithBackoff<T>(fn: nat -> Outcome<T>, maxRetries: int, baseDelayMs: int,
                             key: Thrown -> string)
    returns (result: Result<T, FirebaseError>, calls: nat, delays: seq<int>)
    ensures RetryRun(result, calls, delays) == Handled(Retry(fn, maxRetries, baseDelayMs, key))
  {
    ghost var run := Retry(fn, maxRetries, baseDelayMs, key);
    var lastError: Thrown := NullValue;
    var attempt: nat := 0;
    delays := [];
    while attempt <= maxRetries
      invariant run == AfterDelays(delays, RetryFrom(fn, maxRetries, baseDelayMs, RetryableBy(key), attempt, lastError))
      decreases maxRetries + 1 - attempt
    {
      RetryFromStep(fn, maxRetries, baseDelayMs, key, attempt, lastError);
      var outcome := fn(attempt);
      if outcome.Success? {
        return Ok(outcome.value), attempt + 1, delays;
      }
      lastError := outcome.error;
      if attempt == maxRetries {
        return Err(HandleFirebaseError(lastError)), attempt + 1, delays;
      }
      var strategy := GetErrorRecoveryStrategy(key(lastError));
      if !strategy.retryable {
        return Err(HandleFirebaseError(lastError)), attempt + 1, delays;
      }
      ghost var rest := RetryFrom(fn, maxRetries, baseDelayMs, RetryableBy(key), attempt + 1, lastError);
      AfterDelaysTwice(delays, [baseDelayMs * Pow2(attempt)], rest);
      delays := delays + [baseDelayMs * Pow2(attempt)];
      attempt := attempt + 1;
    }
    assert RetryFrom(fn, maxRetries, baseDelayMs, RetryableBy(key), attempt, lastError)
        == RetryRun(Err(lastError), attempt, []);
    return Err(HandleFirebaseError(lastError)), attempt, delays;
  }

  /** The calls and waits of a run from `attempt` on: at most `maxRetries + 1`
      calls in all, one wait fewer than the calls made, the wait after
      failed attempt k being `baseDelayMs * 2^k`. */
  lemma {:induction false} RetryFromCalls<T>(fn: nat -> Outcome<T>, maxRetries: int, baseDelayMs: int,
                                             retryable: Thrown -> bool, attempt: nat, lastError: Thrown)
    requires attempt <= maxRetries + 1
    ensures var r := RetryFrom(fn, maxRetries, baseDelayMs, retryable, attempt, lastError);
      && attempt <= r.calls <= (if maxRetries + 1 > attempt then maxRetries + 1 else attempt)
      && |r.delays| == (if r.calls > attempt then r.calls - attempt - 1 else 0)
      && (forall k :: 0 <= k < |r.delays| ==> r.delays[k] == baseDelayMs * Pow2(attempt + k))
    decreases maxRetries + 1 - attempt
  {
    if attempt <= maxRetries && fn(attempt).Failure? && attempt != maxRetries
       && retryable(fn(attempt).error) {
      RetryFromCalls(fn, maxRetries, baseDelayMs, retryable, attempt + 1, fn(attempt).error);
    }
  }

  /** Every call of a run before its last one failed with a retryable error. */
  lemma {:induction false} RetryFromEarlierFailed<T>(fn: nat -> Outcome<T>, maxRetries: int, baseDelayMs: int,
                                                     retryable: Thrown -> bool, attempt: nat, lastError: Thrown)
    requires attempt <= maxRetries + 1
    ensures var r := RetryFrom(fn, maxRetries, baseDelayMs, retryable, attempt, lastError);
      forall k :: attempt <= k < r.calls - 1 ==>
        fn(k).Failure? && retryable(fn(k).error)
    decreases maxRetries + 1 - attempt
  {
    if attempt <= maxRetries && fn(attempt).Failure? && attempt != maxRetries
       && retryable(fn(attempt).error) {
      RetryFromEarlierFailed(fn, maxRetries, baseDelayMs, retryable, attempt + 1, fn(attempt).error);
    }
  }

  /** The last call of a run decided it: a success is returned, and a failure
      is given up on because the attempts ran out or it was not retryable;
      a run that made no call gives up with `lastError`. */
  lemma {:induction false} RetryFromLastCall<T>(fn: nat -> Outcome<T>, maxRetries: int, baseDelayMs: int,
                                                retryable: Thrown -> bool, attempt: nat, lastError: Thrown)
    requires attempt <= maxRetries + 1
    ensures var r := RetryFrom(fn, maxRetries, baseDelayMs, retryable, attempt, lastError);
      && (r.result.Ok? ==> r.calls > attempt && fn(r.calls - 1) == Success(r.result.value))
      && (r.result.Err? && r.calls > attempt ==>
            && fn(r.calls - 1).Failure?
            && r.result.error == fn(r.calls - 1).error
            && (r.calls == maxRetries + 1 || !retryable(fn(r.calls - 1).error)))
      && (r.calls == attempt ==> r.result == Err(lastError))
    decreases maxRetries + 1 - attempt
  {
    if attempt <= maxRetries && fn(attempt).Failure? && attempt != maxRetries
       && retryable(fn(attempt).error) {
      RetryFromLastCall(fn, maxRetries, baseDelayMs, retryable, attempt + 1, fn(attempt).error);
      RetryFromCalls(fn, maxRetries, baseDelayMs, retryable, attempt + 1, fn(attempt).error);
    }
  }

  /** Facts about one run of the loop from `attempt` on: it makes at most
      `maxRetries + 1` calls in all, the last call made is the one that
      decided the result, every earlier call failed with a retryable error,
      and the delay after failed attempt k is `baseDelayMs * 2^k`. */
  lemma RetryFromFacts<T>(fn: nat -> Outcome<T>, maxRetries: int, baseDelayMs: int,
                          retryable: Thrown -> bool, attempt: nat, lastError: Thrown)
    requires attempt <= maxRetries + 1
    ensures var r := RetryFrom(fn, maxRetries, baseDelayMs, retryable, attempt, lastError);
      && attempt <= r.calls <= (if maxRetries + 1 > attempt then maxRetries + 1 else attempt)
      && |r.delays| == (if r.calls > attempt then r.calls - attempt - 1 else 0)
      && (forall k :: 0 <= k < |r.delays| ==> r.delays[k] == baseDelayMs * Pow2(attempt + k))
      && (forall k :: attempt <= k < r.calls - 1 ==>
            fn(k).Failure? && retryable(fn(k).error))
      && (r.result.Ok? ==> r.calls > attempt && fn(r.calls - 1) == Success(r.result.value))
      && (r.result.Err? && r.calls > attempt ==>
            && fn(r.calls - 1).Failure?
            && r.result.error == fn(r.calls - 1).error
            && (r.calls == maxRetries + 1 || !retryable(fn(r.calls - 1).error)))
      && (r.calls == attempt ==> r.result == Err(lastError))
  {
    RetryFromCalls(fn, maxRetries, baseDelayMs, retryable, attempt, lastError);
    RetryFromEarlierFailed(fn, maxRetries, baseDelayMs, retryable, attempt, lastError);
    RetryFromLastCall(fn, maxRetries, baseDelayMs, retryable, attempt, lastError);
  }

  /** The whole run: at most `maxRetries + 1` calls, the first success is
      returned, each failure before the last was retryable, the k-th delay
      is `baseDelayMs * 2^k`, and giving up throws the handled form of the
      last caught value (of nothing at all when `maxRetries` is negative). */
  lemma RetryFacts<T>(fn: nat -> Outcome<T>, maxRetries: int, baseDelayMs: int, key: Thrown -> string)
    ensures var r := Retry(fn, maxRetries, baseDelayMs, key);
      && r.calls <= (if maxRetries >= 0 then maxRetries + 1 else 0)
      && (forall k :: 0 <= k < |r.delays| ==> r.delays[k] == baseDelayMs * Pow2(k))
      && (forall k :: 0 <= k < r.calls - 1 ==>
            fn(k).Failure? && GetErrorRecoveryStrategy(key(fn(k).error)).retryable)
      && (r.result.Ok? ==> r.calls >= 1 && fn(r.calls - 1) == Success(r.result.value))
      && (r.result.Err? && r.calls >= 1 ==>
            && fn(r.calls - 1).Failure?
            && r.result.error == fn(r.calls - 1).error)
      && (r.calls == 0 ==> r.result == Err(NullValue))
  {
    if maxRetries >= -1 {
      RetryFromFacts(fn, maxRetries, baseDelayMs, RetryableBy(key), 0, NullValue);
    }
  }

  /** A service error whose code is retryable but whose text is not a code. */
  const UNAVAILABLE_ERROR := ErrorObject("FirebaseError", "Service unavailable", "unavailable")

  function AlwaysUnavailable(k: nat): Outcome<int> { Failure(UNAVAILABLE_ERROR) }

  /** The error's text is not a retryable code... */
  lemma TextKeyNotRetryable()
    ensures !RetryableBy(ToStringKey)(UNAVAILABLE_ERROR)
  {
    var text := "FirebaseError" + ": " + "Service unavailable";
    assert ToStringKey(UNAVAILABLE_ERROR) == text;
    assert |text| == 34;
    assert RetryableBy(ToStringKey)(UNAVAILABLE_ERROR) == GetErrorRecoveryStrategy(text).retryable;
    forall i | 0 <= i < |RETRYABLE_ERRORS| ensures RETRYABLE_ERRORS[i] != text {
      assert |RETRYABLE_ERRORS[i]| != |text|;
    }
  }

  /** ...but its code is. */
  lemma CodeKeyRetryable()
    ensures RetryableBy(CodeKey)(UNAVAILABLE_ERROR)
  {
    assert CodeKey(UNAVAILABLE_ERROR) == "unavailable" == RETRYABLE_ERRORS[0];
    assert RetryableBy(CodeKey)(UNAVAILABLE_ERROR) == GetErrorRecoveryStrategy("unavailable").retryable;
  }

  /** As written, the loop classifies the error's text `FirebaseError: Service
      unavailable`, which is not a retryable code, so it gives up after the
      first call although the error's code is `unavailable`. */
  lemma RetryAsWrittenGivesUpOnRetryableCode(maxRetries: nat, baseDelayMs: int)
    ensures GetErrorRecoveryStrategy(UNAVAILABLE_ERROR.Code().value).retryable
    ensures Retry(AlwaysUnavailable, maxRetries, baseDelayMs, ToStringKey).calls == 1
  {
    TextKeyNotRetryable();
    CodeKeyRetryable();
    assert Retry(AlwaysUnavailable, maxRetries, baseDelayMs, ToStringKey) == RetryRun(Err(UNAVAILABLE_ERROR), 1, []);
  }

  /** Classifying by the error's code, the same operation with three retries
      is called four times, waiting the base delay, twice it and four times it. */
  lemma RetryByCodeRetriesRetryableCode(baseDelayMs: int)
    ensures Retry(AlwaysUnavailable, 3, baseDelayMs, CodeKey).calls == 4
    ensures Retry(AlwaysUnavailable, 3, baseDelayMs, CodeKey).delays
         == [baseDelayMs, 2 * baseDelayMs, 4 * baseDelayMs]
  {
    CodeKeyRetryable();
    RetryFromExhausts(AlwaysUnavailable, 3, baseDelayMs, RetryableBy(CodeKey), 0, NullValue);
    RetryFromCalls(AlwaysUnavailable, 3, baseDelayMs, RetryableBy(CodeKey), 0, NullValue);
    var d := Retry(AlwaysUnavailable, 3, baseDelayMs, CodeKey).delays;
    assert Pow2(0) == 1 && Pow2(1) == 2 && Pow2(2) == 4;
    assert d[0] == baseDelayMs && d[1] == 2 * baseDelayMs && d[2] == 4 * baseDelayMs;
  }

  /** An operation that always fails retryably is called until the attempts
      run out. */
  lemma {:induction false} RetryFromExhausts<T>(fn: nat -> Outcome<T>, maxRetries: nat, baseDelayMs: int,
                                                retryable: Thrown -> bool, attempt: nat, lastError: Thrown)
    requires attempt <= maxRetries + 1
    requires forall k: nat :: fn(k).Failure? && retryable(fn(k).error)
    ensures RetryFrom(fn, maxRetries, baseDelayMs, retryable, attempt, lastError).calls == maxRetries + 1
    decreases maxRetries + 1 - attempt
  {
    if attempt < maxRetries {
      RetryFromExhausts(fn, maxRetries, baseDelayMs, retryable, attempt + 1, fn(attempt).error);
    }
  }

  /** Classifying by code, an operation failing with a retryable code is
      attempted exactly `maxRetries + 1` times. */
  lemma RetryByCodeExhaustsAttempts<T>(fn: nat -> Outcome<T>, maxRetries: nat, baseDelayMs: int)
    requires forall k: nat :: fn(k).Failure? && CodeKey(fn(k).error) in RETRYABLE_ERRORS
    ensures Retry(fn, maxRetries, baseDelayMs, CodeKey).calls == maxRetries + 1
  {
    forall k: nat ensures fn(k).Failure? && RetryableBy(CodeKey)(fn(k).error) {
      assert CodeKey(fn(k).error) in RETRYABLE_ERRORS;
      assert RetryableBy(CodeKey)(fn(k).error) == GetErrorRecoveryStrategy(CodeKey(fn(k).error)).retryable;
    }
    RetryFromExhausts(fn, maxRetries, baseDelayMs, RetryableBy(CodeKey), 0, NullValue);
  }
}
