/** The application component: seven pieces of state updated by the event
    handlers, a rotating loading message driven by a timer, and the choice of
    screen from the status. */
module App {
  import opened Wrappers
  import opened Types
  import GeminiService
  import ResultDisplay

  const LoadingMessages: seq<string> := [
    "Analizando imágenes con IA...",
    "Extrayendo texto y códigos de todas las fotos...",
    "Consultando registro INVIMA en tiempo real...",
    "Verificando código de barras en bases de datos...",
    "Comparando empaque con droguerías online...",
    "Compilando informe final..."
  ]

  /** The one message stored for every failure of a verification run. */
  const ErrorMessage: string :=
    "Ocurrió un error al verificar el empaque. Por favor, intenta de nuevo con fotos más claras y de todos los lados del empaque. Asegúrate de tener una buena conexión a internet."

  /** The timer's step: the next message index, wrapping from the last of
      the six messages to the first. */
  function NextIndex(i: nat): (j: nat)
    ensures j < |LoadingMessages|
    ensures i + 1 < |LoadingMessages| ==> j == i + 1
    ensures i + 1 == |LoadingMessages| ==> j == 0
  {
    (i + 1) % |LoadingMessages|
  }

  /** The index after `n` ticks. */
  function Rotated(i: nat, n: nat): (j: nat)
    decreases n
    ensures n > 0 ==> j < |LoadingMessages|
    ensures n == 0 ==> j == i
  {
    if n == 0 then i else NextIndex(Rotated(i, n - 1))
  }

  /** `n` ticks from index `i` land on `(i + n) mod 6`: the index is always
      in range and the rotation has period six. */
  lemma {:induction false} RotatedIs(i: nat, n: nat)
    requires i < |LoadingMessages|
    ensures Rotated(i, n) == (i + n) % |LoadingMessages|
    decreases n
  {
    if n > 0 {
      RotatedIs(i, n - 1);
      var m := (i + n - 1) % |LoadingMessages|;
      assert i + n == |LoadingMessages| * ((i + n - 1) / |LoadingMessages|) + m + 1;
    }
  }

  /** An object-URL handle; `URL.createObjectURL` hands out a fresh one. */
  type Handle = nat

  predicate Distinct<T(==)>(s: seq<T>) {
    forall i, j :: 0 <= i < j < |s| ==> s[i] != s[j]
  }

  /** Filtering a list by position: drops entry `i` when it exists
      and keeps every other entry in its order. */
  function RemoveAt<T>(s: seq<T>, i: int): (r: seq<T>)
    ensures 0 <= i < |s| ==> |r| == |s| - 1
    ensures 0 <= i < |s| ==> forall k :: 0 <= k < |r| ==> r[k] == if k < i then s[k] else s[k + 1]
    ensures !(0 <= i < |s|) ==> r == s
  {
    if 0 <= i < |s| then s[..i] + s[i + 1..] else s
  }

  /** Dropping an entry keeps the others distinct and removes only that one. */
  lemma RemoveAtDistinct<T>(s: seq<T>, i: int)
    requires Distinct(s) && 0 <= i < |s|
    ensures Distinct(RemoveAt(s, i))
    ensures forall x :: x in RemoveAt(s, i) <==> x in s && x != s[i]
  {
    var r := RemoveAt(s, i);
    forall x
      ensures x in r <==> x in s && x != s[i]
    {
      if x in r {
        var k :| 0 <= k < |r| && r[k] == x;
        assert x == s[if k < i then k else k + 1];
      }
      if x in s && x != s[i] {
        var k :| 0 <= k < |s| && s[k] == x;
        assert r[if k < i then k else k - 1] == x;
      }
    }
  }

  /** The screen `renderContent` draws. */
  datatype Screen =
    | Progress(message: string)
    | ResultScreen(view: Option<ResultDisplay.ResultView<Handle>>)
    | ErrorScreen(errorText: Option<string>)
    | InitialScreen(previews: seq<Handle>)

  class AppState {
    var status: AppStatus
    var report: Option<VerificationReport>
    var sources: seq<GroundingSource>
    var error: Option<string>
    var selectedFiles: seq<GeminiService.ImageFile>
    var imagePreviewUrls: seq<Handle>
    var loadingMessage: string
    /** The running timer's counter (a local of the start handler). */
    var messageIndex: nat
    var timerRunning: bool
    /** The next handle `URL.createObjectURL` will return. */
    var nextHandle: Handle
    /** Handles passed to `URL.revokeObjectURL`. */
    ghost var revoked: set<Handle>

    /** Files and previews are index-aligned; previews are distinct live
        handles; the message is one of the six. */
    ghost predicate Valid()
      reads this
    {
      && |selectedFiles| == |imagePreviewUrls|
      && messageIndex < |LoadingMessages|
      && loadingMessage in LoadingMessages
      && Distinct(imagePreviewUrls)
      && (forall k :: 0 <= k < |imagePreviewUrls| ==>
            imagePreviewUrls[k] < nextHandle && imagePreviewUrls[k] !in revoked)
      && (forall h :: h in revoked ==> h < nextHandle)
    }

    constructor()
      ensures Valid()
      ensures status == Idle && report == None && sources == [] && error == None
      ensures selectedFiles == [] && imagePreviewUrls == []
      ensures loadingMessage == LoadingMessages[0] && !timerRunning
      ensures revoked == {}
    {
      status := Idle;
      report := None;
      sources := [];
      error := None;
      selectedFiles := [];
      imagePreviewUrls := [];
      loadingMessage := LoadingMessages[0];
      messageIndex := 0;
      timerRunning := false;
      nextHandle := 0;
      revoked := {};
    }

    /** `addFile`: the file and one fresh preview handle go on the ends of
        their lists. */
    method AddFile(file: GeminiService.ImageFile) returns (handle: Handle)
      requires Valid()
      modifies this
      ensures Valid()
      ensures selectedFiles == old(selectedFiles) + [file]
      ensures imagePreviewUrls == old(imagePreviewUrls) + [handle]
      ensures handle !in old(imagePreviewUrls) && handle !in old(revoked)
      ensures revoked == old(revoked)
      ensures status == old(status) && report == old(report) && sources == old(sources)
      ensures error == old(error) && loadingMessage == old(loadingMessage)
      ensures messageIndex == old(messageIndex) && timerRunning == old(timerRunning)
    {
      handle := nextHandle;
      nextHandle := nextHandle + 1;
      selectedFiles := selectedFiles + [file];
      imagePreviewUrls := imagePreviewUrls + [handle];
    }

    /** `removeFile(i)`: revokes the handle at `i` and drops index `i` from
        both lists; an index outside the lists changes nothing. */
    method RemoveFile(index: int)
      requires Valid()
      modifies this
      ensures Valid()
      ensures imagePreviewUrls == RemoveAt(old(imagePreviewUrls), index)
      ensures selectedFiles == RemoveAt(old(selectedFiles), index)
      ensures revoked == if 0 <= index < |old(imagePreviewUrls)|
        then old(revoked) + {old(imagePreviewUrls)[index]} else old(revoked)
      ensures status == old(status) && report == old(report) && sources == old(sources)
      ensures error == old(error) && loadingMessage == old(loadingMessage)
      ensures messageIndex == old(messageIndex) && timerRunning == old(timerRunning)
      ensures nextHandle == old(nextHandle)
    {
      if 0 <= index < |imagePreviewUrls| {
        revoked := revoked + {imagePreviewUrls[index]};
        RemoveAtDistinct(imagePreviewUrls, index);
      }
      imagePreviewUrls := RemoveAt(imagePreviewUrls, index);
      selectedFiles := RemoveAt(selectedFiles, index);
    }

    /** The synchronous part of `handleVerificationStart`: nothing happens
        without files; otherwise the run begins with cleared results and a
        timer whose counter starts at zero. The displayed message is left
        as it was. */
    method Start()
      requires Valid() && !timerRunning
      modifies this
      ensures Valid()
      ensures old(selectedFiles) == [] ==> unchanged(this)
      ensures old(selectedFiles) != [] ==>
        && status == Loading && error == None && report == None && sources == []
        && messageIndex == 0 && timerRunning
      ensures old(selectedFiles) != [] ==> loadingMessage == old(loadingMessage)
      ensures selectedFiles == old(selectedFiles) && imagePreviewUrls == old(imagePreviewUrls)
      ensures revoked == old(revoked) && nextHandle == old(nextHandle)
    {
      if |selectedFiles| == 0 {
        return;
      }
      status := Loading;
      error := None;
      report := None;
      sources := [];
      messageIndex := 0;
      timerRunning := true;
    }

    /** One firing of the interval: advance the counter and show its
        message. A cleared timer does not fire. */
    method Tick()
      requires Valid()
      modifies this
      ensures Valid()
      ensures old(timerRunning) ==>
        && messageIndex == NextIndex(old(messageIndex))
        && loadingMessage == LoadingMessages[messageIndex]
      ensures !old(timerRunning) ==> messageIndex == old(messageIndex) && loadingMessage == old(loadingMessage)
      ensures status == old(status) && report == old(report) && sources == old(sources)
      ensures error == old(error) && timerRunning == old(timerRunning)
      ensures selectedFiles == old(selectedFiles) && imagePreviewUrls == old(imagePreviewUrls)
      ensures revoked == old(revoked) && nextHandle == old(nextHandle)
    {
      if timerRunning {
        messageIndex := NextIndex(messageIndex);
        loadingMessage := LoadingMessages[messageIndex];
      }
    }

    /** The settling part of `handleVerificationStart`: a verification is
        stored with status SUCCESS, any failure stores the fixed message
        with status ERROR, and the timer is cleared either way. */
    method Complete(outcome: Result<GeminiService.Verification, GeminiService.VerifyError>)
      requires Valid() && timerRunning
      modifies this
      ensures Valid()
      ensures outcome.Ok? ==>
        && status == Success && report == Some(outcome.value.report)
        && sources == outcome.value.sources && error == old(error)
      ensures outcome.Err? ==>
        && status == Error && error == Some(ErrorMessage)
        && report == old(report) && sources == old(sources)
      ensures !timerRunning
      ensures messageIndex == old(messageIndex) && loadingMessage == old(loadingMessage)
      ensures selectedFiles == old(selectedFiles) && imagePreviewUrls == old(imagePreviewUrls)
      ensures revoked == old(revoked) && nextHandle == old(nextHandle)
    {
      if outcome.Ok? {
        report := Some(outcome.value.report);
        sources := outcome.value.sources;
        status := Success;
      } else {
        error := Some(ErrorMessage);
        status := Error;
      }
      timerRunning := false;
    }

    /** `ticks` firings of a running timer: the counter advances `ticks`
        times and the last message it reached is shown; nothing else changes. */
    method RunTimer(ticks: nat)
      requires Valid() && timerRunning
      modifies this
      ensures Valid() && timerRunning
      ensures messageIndex == Rotated(old(messageIndex), ticks)
      ensures ticks > 0 ==> loadingMessage == LoadingMessages[messageIndex]
      ensures ticks == 0 ==> loadingMessage == old(loadingMessage)
      ensures status == old(status) && report == old(report) && sources == old(sources) && error == old(error)
      ensures selectedFiles == old(selectedFiles) && imagePreviewUrls == old(imagePreviewUrls)
      ensures revoked == old(revoked) && nextHandle == old(nextHandle)
    {
      var n := 0;
      while n < ticks
        invariant 0 <= n <= ticks
        invariant Valid() && timerRunning
        invariant messageIndex == Rotated(old(messageIndex), n)
        invariant n > 0 ==> loadingMessage == LoadingMessages[messageIndex]
        invariant n == 0 ==> loadingMessage == old(loadingMessage)
        invariant status == old(status) && report == old(report) && sources == old(sources) && error == old(error)
        invariant selectedFiles == old(selectedFiles) && imagePreviewUrls == old(imagePreviewUrls)
        invariant revoked == old(revoked) && nextHandle == old(nextHandle)
      {
        Tick();
        n := n + 1;
      }
    }

    /** `handleVerificationStart` as a whole: the guard, the reset of the
        result fields, `ticks` firings of the timer while the service call
        is pending, and the settling of its outcome. */
    method HandleVerificationStart(
      env: GeminiService.Env, prompt: string, client: GeminiService.ModelClient,
      parse: string -> Option<VerificationReport>, ticks: nat)
      requires Valid() && !timerRunning
      modifies this, client
      ensures Valid() && !timerRunning
      ensures old(selectedFiles) == [] ==> unchanged(this) && client.requests == old(client.requests)
      ensures old(selectedFiles) != [] ==>
        var outcome := if GeminiService.HasApiKey(env)
          then GeminiService.Settle(client.respond(GeminiService.BuildRequest(prompt, env.viteApiKey, old(selectedFiles))), parse)
          else Err(GeminiService.ConfigurationError);
        && (status == Success <==> outcome.Ok?)
        && (status == Error <==> outcome.Err?)
        && (outcome.Ok? ==> report == Some(outcome.value.report) && sources == outcome.value.sources && error == None)
        && (outcome.Err? ==> report == None && sources == [] && error == Some(ErrorMessage))
        && messageIndex == ticks % |LoadingMessages|
        && (ticks > 0 ==> loadingMessage == LoadingMessages[messageIndex])
        && (ticks == 0 ==> loadingMessage == old(loadingMessage))
      ensures old(selectedFiles) != [] && GeminiService.HasApiKey(env) ==>
        client.requests == old(client.requests) + [GeminiService.BuildRequest(prompt, env.viteApiKey, old(selectedFiles))]
      ensures old(selectedFiles) != [] && !GeminiService.HasApiKey(env) ==> client.requests == old(client.requests)
      ensures selectedFiles == old(selectedFiles) && imagePreviewUrls == old(imagePreviewUrls)
      ensures revoked == old(revoked)
    {
      if |selectedFiles| == 0 {
        return;
      }
      Start();
      RunTimer(ticks);
      RotatedIs(0, ticks);
      var outcome := GeminiService.VerifyMedicinePackage(env, prompt, selectedFiles, client, parse);
      Complete(outcome);
    }

    /** `handleReset`: back to IDLE with nothing selected; every handle of
        the previous preview list is revoked. */
    method Reset()
      requires Valid()
      modifies this
      ensures Valid()
      ensures status == Idle && report == None && error == None && sources == []
      ensures selectedFiles == [] && imagePreviewUrls == []
      ensures revoked == old(revoked) + set k | 0 <= k < |old(imagePreviewUrls)| :: old(imagePreviewUrls)[k]
      ensures loadingMessage == old(loadingMessage) && messageIndex == old(messageIndex)
      ensures timerRunning == old(timerRunning) && nextHandle == old(nextHandle)
    {
      status := Idle;
      report := None;
      error := None;
      sources := [];
      var urls := imagePreviewUrls;
      for i := 0 to |urls|
        invariant revoked == old(revoked) + set k | 0 <= k < i :: urls[k]
        invariant forall h :: h in revoked ==> h < nextHandle
      {
        revoked := revoked + {urls[i]};
      }
      imagePreviewUrls := [];
      selectedFiles := [];
    }

    /** `renderContent`: the screen is chosen by the status alone, IDLE
        falling through to the initial screen. */
    function RenderContent(): (screen: Screen)
      reads this
      ensures screen.Progress? <==> status == Loading
      ensures screen.ResultScreen? <==> status == Success
      ensures screen.ErrorScreen? <==> status == Error
      ensures screen.InitialScreen? <==> status == Idle
      ensures screen.Progress? ==> screen.message == loadingMessage
      ensures screen.ResultScreen? ==> screen.view == ResultDisplay.Render(report, imagePreviewUrls, sources)
      ensures screen.ErrorScreen? ==> screen.errorText == error
      ensures screen.InitialScreen? ==> screen.previews == imagePreviewUrls
    {
      match status
      case Loading => Progress(loadingMessage)
      case Success => ResultScreen(ResultDisplay.Render(report, imagePreviewUrls, sources))
      case Error => ErrorScreen(error)
      case Idle => InitialScreen(imagePreviewUrls)
    }
  }
}
