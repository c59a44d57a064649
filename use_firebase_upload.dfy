/** The upload hooks: three independent upload slots with a derived "any
    upload in flight" flag, and a single-slot variant. The simulated progress
    ticks of the interval timer are a count passed in, and the result of the
    service call is an outcome passed in. */
module UploadHooks {
  import opened Wrappers
  import opened FirebaseTypes

  datatype UploadState = UploadState(isUploading: bool, progress: int, url: Option<string>, error: Option<string>)

  const INITIAL_UPLOAD := UploadState(false, 0, None, None)

  /** A `Partial<UploadState>`: the fields an update sets. */
  datatype Updates = Updates(
    isUploading: Option<bool>,
    progress: Option<int>,
    url: Option<Option<string>>,
    error: Option<Option<string>>)

  /** `{ ...prev, ...updates }`. */
  function Merge(s: UploadState, u: Updates): (r: UploadState)
    ensures r.isUploading == u.isUploading.GetOr(s.isUploading)
    ensures r.progress == u.progress.GetOr(s.progress)
    ensures r.url == u.url.GetOr(s.url)
    ensures r.error == u.error.GetOr(s.error)
  {
    UploadState(u.isUploading.GetOr(s.isUploading), u.progress.GetOr(s.progress),
                u.url.GetOr(s.url), u.error.GetOr(s.error))
  }

  /** The update that writes every field of `s`. */
  function AllOf(s: UploadState): Updates {
    Updates(Some(s.isUploading), Some(s.progress), Some(s.url), Some(s.error))
  }

  function Min(a: int, b: int): int {
    if a < b then a else b
  }

  /** The value one progress tick writes, given the progress it starts from. */
  function TickValue(p: int): (q: int)
    ensures q <= 90
    ensures p < 90 ==> p < q
    ensures p <= 80 ==> q == p + 10
  {
    Min(p + 10, 90)
  }

  /** Progress after `k` ticks that each read the current progress. */
  function Ticks(p: int, k: nat): int
    decreases k
  {
    if k == 0 then p else Ticks(TickValue(p), k - 1)
  }

  /** Ticks from a progress in [0, 90] climb by ten and stop at 90. */
  lemma {:induction false} TicksClimbToNinety(p: int, k: nat)
    requires 0 <= p <= 90
    ensures Ticks(p, k) == Min(p + 10 * k, 90)
    decreases k
  {
    if k > 0 {
      TicksClimbToNinety(TickValue(p), k - 1);
    }
  }

  /** Progress after `k` ticks that all read the same `captured` value, as
      the multi-slot hook's interval callbacks do. */
  function TicksAsWritten(captured: int, p: int, k: nat): int
    decreases k
  {
    if k == 0 then p else TicksAsWritten(captured, TickValue(captured), k - 1)
  }

  /** However many ticks fire, the as-written progress is one tick past the captured value. */
  lemma {:induction false} TicksAsWrittenStuck(captured: int, p: int, k: nat)
    requires k >= 1
    ensures TicksAsWritten(captured, p, k) == TickValue(captured)
    decreases k
  {
    if k > 1 {
      TicksAsWrittenStuck(captured, TickValue(captured), k - 1);
    }
  }

  /** A first upload with three ticks: the as-written bar shows 10, the intended 30. */
  lemma ThreeTicksDiffer()
    ensures TicksAsWritten(0, 0, 3) == 10
    ensures Ticks(0, 3) == 30
  {
    TicksAsWrittenStuck(0, 0, 3);
    TicksClimbToNinety(0, 3);
  }

  /** A timer left running after a failed upload (progress 0): one tick
      later the bar shows 10, and nine ticks later 90, next to the error. */
  lemma TicksAfterFailure()
    ensures Ticks(0, 1) == 10
    ensures Ticks(0, 9) == 90
  {
    TicksClimbToNinety(0, 9);
  }

  datatype Slot = DniSlot | BannerSlot | ImageSlot

  /** The message a failed upload shows when the error has no user message. */
  function DefaultUploadError(slot: Slot): string {
    match slot
    case DniSlot => "Error al subir imagen DNI"
    case BannerSlot => "Error al subir imagen banner"
    case ImageSlot => "Error al subir imagen"
  }

  /** `firebaseError.userMessage || default`. */
  function FailureMessage(error: Thrown, default: string): (m: string)
    ensures error.UserMessage().Some? ==> m == error.UserMessage().value
    ensures error.UserMessage().None? ==> m == default
    ensures m != "" <== default != ""
  {
    error.UserMessage().GetOr(default)
  }

  /** `useMultiUpload`: the state behind the three upload slots. */
  class MultiUpload {
    var dni: UploadState
    var banner: UploadState
    var image: UploadState
    var isAnyUploading: bool

    /** The flag is the disjunction of the slots' flags. */
    ghost predicate Valid()
      reads this
    {
      isAnyUploading == (dni.isUploading || banner.isUploading || image.isUploading)
    }

    function Get(slot: Slot): UploadState
      reads this
    {
      match slot
      case DniSlot => dni
      case BannerSlot => banner
      case ImageSlot => image
    }

    constructor ()
      ensures Valid() && !isAnyUploading
      ensures forall slot :: Get(slot) == INITIAL_UPLOAD
    {
      dni, banner, image := INITIAL_UPLOAD, INITIAL_UPLOAD, INITIAL_UPLOAD;
      isAnyUploading := false;
    }

    /** `updateUploadState(type, updates)`: merges into one slot and recomputes the flag. */
    method UpdateUploadState(slot: Slot, updates: Updates)
      modifies this
      ensures Get(slot) == Merge(old(Get(slot)), updates)
      ensures forall other :: other != slot ==> Get(other) == old(Get(other))
      ensures Valid()
    {
      match slot {
        case DniSlot => dni := Merge(dni, updates);
        case BannerSlot => banner := Merge(banner, updates);
        case ImageSlot => image := Merge(image, updates);
      }
      isAnyUploading := dni.isUploading || banner.isUploading || image.isUploading;
    }

    /** The first update of each upload: uploading, at zero, no error; the url is kept. */
    method Start(slot: Slot)
      modifies this
      ensures Get(slot) == UploadState(true, 0, old(Get(slot)).url, None)
      ensures forall other :: other != slot ==> Get(other) == old(Get(other))
      ensures Valid() && isAnyUploading
    {
      UpdateUploadState(slot, Updates(Some(true), Some(0), None, Some(None)));
    }

    /** The interval callback as written: it adds ten to the `captured`
        progress of the render that created it, not to the current one. */
    method TickAsWritten(slot: Slot, captured: int)
      modifies this
      ensures Get(slot) == old(Get(slot)).(progress := TickValue(captured))
      ensures forall other :: other != slot ==> Get(other) == old(Get(other))
      ensures Valid()
    {
      UpdateUploadState(slot, Updates(None, Some(TickValue(captured)), None, None));
    }

    /** The interval callback reading the current progress. */
    method Tick(slot: Slot)
      modifies this
      ensures Get(slot) == old(Get(slot)).(progress := TickValue(old(Get(slot)).progress))
      ensures forall other :: other != slot ==> Get(other) == old(Get(other))
      ensures Valid()
    {
      UpdateUploadState(slot, Updates(None, Some(TickValue(Get(slot).progress)), None, None));
    }

    method Succeed(slot: Slot, url: string)
      modifies this
      ensures Get(slot) == UploadState(false, 100, Some(url), None)
      ensures forall other :: other != slot ==> Get(other) == old(Get(other))
      ensures Valid()
    {
      UpdateUploadState(slot, Updates(Some(false), Some(100), Some(Some(url)), Some(None)));
    }

    /** The catch clause: not uploading, back at zero, the error's user
        message or the slot's default; the url is left as it was. */
    method Fail(slot: Slot, error: Thrown)
      modifies this
      ensures Get(slot) == UploadState(false, 0, old(Get(slot)).url, Some(FailureMessage(error, DefaultUploadError(slot))))
      ensures forall other :: other != slot ==> Get(other) == old(Get(other))
      ensures Valid()
    {
      UpdateUploadState(slot, Updates(Some(false), Some(0), None, Some(Some(FailureMessage(error, DefaultUploadError(slot))))));
    }

    /** `uploadDniImage`, `uploadBannerImage` or `uploadPortalMemoriaImage`
        with `ticks` firings of the progress timer before the service call
        settles with `outcome`; the outcome is returned or rethrown. Each
        tick reads the current progress, and the timer stops on either
        outcome, so a failure leaves the bar at 0. */
    method Upload(slot: Slot, ticks: nat, outcome: Result<string, Thrown>)
      returns (r: Result<string, Thrown>, shownWhileUploading: int)
      modifies this
      ensures r == outcome
      ensures shownWhileUploading == Min(10 * ticks, 90)
      ensures outcome.Ok? ==> Get(slot) == UploadState(false, 100, Some(outcome.value), None)
      ensures outcome.Err? ==>
        Get(slot) == UploadState(false, 0, old(Get(slot)).url, Some(FailureMessage(outcome.error, DefaultUploadError(slot))))
      ensures forall other :: other != slot ==> Get(other) == old(Get(other))
      ensures Valid()
    {
      ghost var url0 := Get(slot).url;
      Start(slot);
      for i := 0 to ticks
        invariant Get(slot) == UploadState(true, Ticks(0, i), url0, None)
        invariant forall other :: other != slot ==> Get(other) == old(Get(other))
      {
        TicksStep(0, i);
        Tick(slot);
      }
      shownWhileUploading := Get(slot).progress;
      TicksClimbToNinety(0, ticks);
      match outcome {
        case Ok(url) => Succeed(slot, url);
        case Err(e) => Fail(slot, e);
      }
      r := outcome;
    }

    /** The same upload with the as-written timer: while it runs the
        progress shows only one tick past the value captured before it
        began. The timer is cleared only on success, so after a failure it
        goes on firing (`ticksAfterFailure` times) next to the error. */
    method UploadAsWritten(slot: Slot, ticks: nat, outcome: Result<string, Thrown>, ticksAfterFailure: nat)
      returns (r: Result<string, Thrown>, shownWhileUploading: int)
      modifies this
      ensures r == outcome
      ensures ticks >= 1 ==> shownWhileUploading == TickValue(old(Get(slot)).progress)
      ensures outcome.Ok? ==> Get(slot) == UploadState(false, 100, Some(outcome.value), None)
      ensures outcome.Err? ==>
        Get(slot) == UploadState(false, if ticksAfterFailure >= 1 then TickValue(old(Get(slot)).progress) else 0,
                                 old(Get(slot)).url, Some(FailureMessage(outcome.error, DefaultUploadError(slot))))
      ensures forall other :: other != slot ==> Get(other) == old(Get(other))
      ensures Valid()
    {
      var captured := Get(slot).progress;
      ghost var url0 := Get(slot).url;
      Start(slot);
      for i := 0 to ticks
        invariant Get(slot) == UploadState(true, TicksAsWritten(captured, 0, i), url0, None)
        invariant forall other :: other != slot ==> Get(other) == old(Get(other))
      {
        TicksAsWrittenStep(captured, 0, i);
        TickAsWritten(slot, captured);
      }
      shownWhileUploading := Get(slot).progress;
      if ticks >= 1 {
        TicksAsWrittenStuck(captured, 0, ticks);
      }
      match outcome {
        case Ok(url) => Succeed(slot, url);
        case Err(e) =>
          Fail(slot, e);
          ghost var message := Some(FailureMessage(e, DefaultUploadError(slot)));
          for j := 0 to ticksAfterFailure
            invariant Get(slot) == UploadState(false, if j >= 1 then TickValue(captured) else 0, url0, message)
            invariant forall other :: other != slot ==> Get(other) == old(Get(other))
            invariant Valid()
          {
            TickAsWritten(slot, captured);
          }
      }
      r := outcome;
    }

    /** `resetUpload(type)`: one slot back to its initial state. */
    method ResetUpload(slot: Slot)
      modifies this
      ensures Get(slot) == INITIAL_UPLOAD
      ensures forall other :: other != slot ==> Get(other) == old(Get(other))
      ensures Valid()
    {
      UpdateUploadState(slot, AllOf(INITIAL_UPLOAD));
    }

    /** `resetAllUploads()`. */
    method ResetAllUploads()
      modifies this
      ensures forall slot :: Get(slot) == INITIAL_UPLOAD
      ensures !isAnyUploading && Valid()
    {
      dni, banner, image := INITIAL_UPLOAD, INITIAL_UPLOAD, INITIAL_UPLOAD;
      isAnyUploading := false;
    }
  }

  /** One more tick on the right: how a loop over ticks unfolds `Ticks`. */
  lemma {:induction false} TicksStep(p: int, k: nat)
    ensures Ticks(p, k + 1) == TickValue(Ticks(p, k))
    decreases k
  {
    if k > 0 {
      TicksStep(TickValue(p), k - 1);
    }
  }

  lemma {:induction false} TicksAsWrittenStep(captured: int, p: int, k: nat)
    ensures TicksAsWritten(captured, p, k + 1) == TickValue(captured)
    decreases k
  {
    if k > 0 {
      TicksAsWrittenStep(captured, TickValue(captured), k - 1);
    }
  }

  /** `useFileUpload`: a single slot whose ticks read the current progress,
      and which clears the url when an upload starts and when it fails. */
  class FileUpload {
    var state: UploadState

    constructor ()
      ensures state == INITIAL_UPLOAD
    {
      state := INITIAL_UPLOAD;
    }

    /** `uploadFile(file, uploadFunction)` with `ticks` timer firings while
        the call is outstanding. The timer is cleared only on success, so
        after a failure it goes on firing (`ticksAfterFailure` times) and the
        progress climbs again next to the error. */
    method UploadFile(ticks: nat, outcome: Result<string, Thrown>, ticksAfterFailure: nat)
      returns (r: Result<string, Thrown>, shownWhileUploading: int)
      modifies this
      ensures r == outcome
      ensures shownWhileUploading == Min(10 * ticks, 90)
      ensures outcome.Ok? ==> state == UploadState(false, 100, Some(outcome.value), None)
      ensures outcome.Err? ==>
        state == UploadState(false, Min(10 * ticksAfterFailure, 90), None,
                             Some(FailureMessage(outcome.error, "Error al subir archivo")))
    {
      state := UploadState(true, 0, None, None);
      for i := 0 to ticks
        invariant state == UploadState(true, Ticks(0, i), None, None)
        invariant 0 <= state.progress <= 90
      {
        TicksStep(0, i);
        TicksClimbToNinety(0, i + 1);
        state := state.(progress := TickValue(state.progress));
      }
      shownWhileUploading := state.progress;
      TicksClimbToNinety(0, ticks);
      match outcome {
        case Ok(url) => state := UploadState(false, 100, Some(url), None);
        case Err(e) =>
          var failed := UploadState(false, 0, None, Some(FailureMessage(e, "Error al subir archivo")));
          state := failed;
          for j := 0 to ticksAfterFailure
            invariant state == failed.(progress := Ticks(0, j))
          {
            TicksStep(0, j);
            state := state.(progress := TickValue(state.progress));
          }
          TicksClimbToNinety(0, ticksAfterFailure);
      }
      r := outcome;
    }

    method ResetUpload()
      modifies this
      ensures state == INITIAL_UPLOAD
    {
      state := INITIAL_UPLOAD;
    }
  }
}
