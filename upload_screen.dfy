/** The question generator of features/UploadScreen.tsx: pick an image, send it
    to the gateway, show and save the questions it returns, and reset. */
module UploadScreen {
  import opened Types
  import Codec
  import BackendService

  /** `!image` is false: an image is present and not the empty string. */
  predicate HasImage(image: Option<string>)
  {
    image.Some? && image.value != ""
  }

  /** What the screen offers for generating. */
  datatype GenerateButton = Hidden | Enabled | Disabled

  /** The button sits in the image branch and is rendered only while no
      questions are shown; it is disabled while processing. */
  function ButtonState(image: Option<string>, questions: seq<GeneratedQuestion>, isProcessing: bool): (b: GenerateButton)
    ensures b != Hidden <==> HasImage(image) && |questions| == 0
    ensures b == Disabled <==> HasImage(image) && |questions| == 0 && isProcessing
  {
    if !HasImage(image) || |questions| > 0 then Hidden
    else if isProcessing then Disabled
    else Enabled
  }

  /** Once questions are shown the button is gone, whatever the image. */
  lemma NoButtonWithQuestions(image: Option<string>, questions: seq<GeneratedQuestion>, isProcessing: bool)
    requires questions != []
    ensures ButtonState(image, questions, isProcessing) == Hidden
  {
  }

  class Upload {
    var image: Option<string>
    var isProcessing: bool
    var questions: seq<GeneratedQuestion>
    const backend: BackendService.Backend

    ghost predicate Valid()
      reads this, backend
    {
      backend.Valid()
    }

    constructor (backend: BackendService.Backend)
      requires backend.Valid()
      ensures Valid() && this.backend == backend
      ensures image == None && !isProcessing && questions == []
    {
      this.backend := backend;
      image := None;
      isProcessing := false;
      questions := [];
    }

    /** `handleFileChange`: `file` is the data URL the reader produced, or
        `None` when no file was chosen. A file replaces the image and empties
        the question list. */
    method HandleFileChange(file: Option<string>)
      requires Valid()
      modifies this
      ensures Valid()
      ensures file.None? ==> image == old(image) && questions == old(questions)
      ensures file.Some? ==> image == file && questions == []
      ensures isProcessing == old(isProcessing)
    {
      if file.Some? {
        image := file;
        questions := [];
      }
    }

    /** The part of `handleGenerate` before the gateway call: without an
        image nothing happens (`None`); otherwise processing starts and the
        image goes to the gateway. */
    method StartGenerate() returns (sent: Option<string>)
      requires Valid()
      modifies this
      ensures Valid()
      ensures !HasImage(old(image)) ==> sent == None && isProcessing == old(isProcessing)
      ensures HasImage(old(image)) ==> sent == old(image) && isProcessing
      ensures image == old(image) && questions == old(questions)
    {
      if !HasImage(image) {
        return None;
      }
      isProcessing := true;
      sent := image;
    }

    /** The rest of `handleGenerate`: on a result (`Some`) the questions are
        shown and saved as a new scan at the head of the history; on a
        failure (`None`) only the alert is raised. Processing ends either way.
        `idClock` and `clock` are the clock readings `saveScanResult` takes. */
    method FinishGenerate(outcome: Option<seq<GeneratedQuestion>>, idClock: nat, clock: nat)
      returns (saved: Option<ScanRecord>)
      requires Valid() && isProcessing
      modifies this, backend
      ensures Valid() && !isProcessing && image == old(image)
      ensures outcome.None? ==>
        saved == None && questions == old(questions) && backend.store == old(backend.store)
      ensures outcome.Some? ==>
        && questions == outcome.value
        && saved == Some(BackendService.NewScan(outcome.value, idClock, clock))
        && saved.value.questions == questions
        && BackendService.ScansIn(backend.store) == [saved.value] + old(BackendService.ScansIn(backend.store))
        && backend.store == old(backend.store)[BackendService.ScanKey :=
             Codec.EncodeScans([saved.value] + old(BackendService.ScansIn(backend.store)))]
    {
      if outcome.Some? {
        questions := outcome.value;
        var r := backend.SaveScanResult(outcome.value, idClock, clock);
        saved := Some(r);
      } else {
        saved := None;
      }
      isProcessing := false;
    }

    /** Both reset buttons: the image and the questions are cleared. */
    method Reset()
      requires Valid()
      modifies this
      ensures Valid()
      ensures image == None && questions == [] && isProcessing == old(isProcessing)
    {
      image := None;
      questions := [];
    }
  }
}
