/**
 * The export-upload-redirect handler of the design-editor intent: one click
 * exports the current design as a PNG, checks that a single page was exported,
 * uploads it with a title, and on a 2xx response opens the mockup page for it.
 *
 * The three external calls (the design export, the upload request and the
 * external-navigation request) are inputs: each is given as the way it
 * settles. The clock reading is an input too. A run reports, in order, the
 * external calls it issued.
 */
module DesignEditorApp {
  import opened Wrappers
  import opened JsStrings
  import opened UriEncoding

  const BackendUploadUrl: string := "https://admin.levebrasa.com/api/canva/export"
  const RedirectBase: string := "https://mockup.levebrasa.com/internal/mockup?arte="
  const SinglePageMessage: string := "Selecione apenas uma página!"
  const CompletedStatus: string := "completed"
  const ArchiveMarker: string := ".zip"
  const TitlePrefix: string := "CanvaDesign-"
  const PngMimeType: string := "image/png"
  const AcceptedFileTypes: seq<string> := ["png"]

  /**
   * What the design export resolves to. Each element of `exportBlobs` is the
   * URL of one exported file, `None` when the blob or its URL is undefined.
   */
  datatype ExportResult = ExportResult(status: string, exportBlobs: Option<seq<Option<string>>>, title: Option<string>)

  /** How an awaited external call settles: with a value, or by throwing. */
  datatype Settlement<+T> = Fulfilled(value: T) | Threw

  /** The upload response; `ok` holds for a 2xx status. */
  datatype Response = Response(status: int)
  {
    predicate Ok()
      ensures Ok() <==> status / 100 == 2
    {
      200 <= status <= 299
    }
  }

  /** One entry of the upload body's `files`; an undefined URL is left out of the JSON. */
  datatype ExportedFile = ExportedFile(url: Option<string>, mimeType: string)

  /** The upload body `{ title, files }`. */
  datatype UploadPayload = UploadPayload(title: string, files: seq<ExportedFile>)

  /** An external call the handler issues. */
  datatype Call =
    | RequestExport(acceptedFileTypes: seq<string>)
    | Upload(endpoint: string, payload: UploadPayload)
    | OpenExternalUrl(url: string)

  /** Whether the handler's promise resolves or rejects with the error of a call that threw. */
  datatype Completion = Resolved | Rejected

  /** What one run does: the calls it issues, in order, the error message it leaves, how it completes. */
  datatype Outcome = Outcome(calls: seq<Call>, errorMessage: string, completion: Completion)

  /** A call together with the controller's state at the moment it was issued. */
  datatype Observed = Observed(call: Call, busy: bool, errorMessage: string)

  /** A non-completed export, or one without files: the user abandoned it. */
  predicate IsAbandoned(r: ExportResult)
  {
    r.status != CompletedStatus || r.exportBlobs.None? || |r.exportBlobs.value| == 0
  }

  /** The URL of the first exported file; later files are never looked at. */
  function FirstFileUrl(r: ExportResult): Option<string>
    requires !IsAbandoned(r)
  {
    r.exportBlobs.value[0]
  }

  /** A multi-page export comes back as an archive, recognised by ".zip" anywhere in the URL. */
  predicate IsArchive(url: Option<string>)
    ensures IsArchive(url) <==> url.Some? && exists k :: OccursAt(url.value, ArchiveMarker, k)
  {
    url.Some? && Includes(url.value, ArchiveMarker)
  }

  /**
   * The synthetic title `CanvaDesign-<now>`: the prefix followed by the
   * decimal digits of the clock reading.
   */
  function SyntheticTitle(now: nat): (s: string)
    ensures |s| > |TitlePrefix| && s[..|TitlePrefix|] == TitlePrefix
    ensures forall i :: |TitlePrefix| <= i < |s| ==> IsDigit(s[i])
    ensures s[|TitlePrefix|] == '0' ==> now == 0 && |s| == |TitlePrefix| + 1
  {
    TitlePrefix + NumberToString(now)
  }

  /** The digits after the prefix read back as the clock reading. */
  lemma SyntheticTitleReadsBack(now: nat)
    ensures DecimalValue(SyntheticTitle(now)[|TitlePrefix|..]) == now
  {
    assert SyntheticTitle(now)[|TitlePrefix|..] == NumberToString(now);
    NumberToStringRoundTrip(now);
  }

  /** The synthetic title starts with a letter and ends with a digit, so trimming leaves it alone. */
  lemma SyntheticTitleUntrimmed(now: nat)
    ensures Trim(SyntheticTitle(now)) == SyntheticTitle(now)
  {
    var s := SyntheticTitle(now);
    assert s[0] == TitlePrefix[0];
    TrimKeepsUnpadded(s);
  }

  /** Runs at different clock readings synthesise different titles. */
  lemma SyntheticTitlesDiffer(a: nat, b: nat)
    requires a != b
    ensures SyntheticTitle(a) != SyntheticTitle(b)
  {
    SyntheticTitleReadsBack(a);
    SyntheticTitleReadsBack(b);
  }

  /**
   * The upload title: `(title || "CanvaDesign-" + now).trim()`. The result
   * never starts or ends with white space.
   */
  function DeriveTitle(title: Option<string>, now: nat): (r: string)
    ensures r == [] || (!IsWhiteSpace(r[0]) && !IsWhiteSpace(r[|r| - 1]))
  {
    Trim(if title.Some? && title.value != "" then title.value else SyntheticTitle(now))
  }

  /** A missing or empty export title gives the synthetic title, which trimming leaves alone. */
  lemma FallbackTitle(title: Option<string>, now: nat)
    requires title.None? || title.value == ""
    ensures DeriveTitle(title, now) == SyntheticTitle(now)
  {
    SyntheticTitleUntrimmed(now);
  }

  /** A non-empty export title is used trimmed, so one made only of white space gives the empty title. */
  lemma ExportTitleTrimmed(title: string, now: nat)
    requires title != ""
    ensures DeriveTitle(Some(title), now) == Trim(title)
    ensures (forall i :: 0 <= i < |title| ==> IsWhiteSpace(title[i])) ==> DeriveTitle(Some(title), now) == ""
  {
    if forall i :: 0 <= i < |title| ==> IsWhiteSpace(title[i]) {
      TrimAllWhiteSpace(title);
    }
  }

  /** The upload body for one PNG file. */
  function BuildPayload(title: string, fileUrl: Option<string>): UploadPayload
  {
    UploadPayload(title, [ExportedFile(fileUrl, PngMimeType)])
  }

  /**
   * The mockup page for a title. The encoded title holds no `&` or `#`, so all
   * of it stays inside the `arte` query parameter.
   */
  function RedirectUrl(title: string): (u: string)
    ensures |u| >= |RedirectBase| && u[..|RedirectBase|] == RedirectBase
    ensures forall i :: |RedirectBase| <= i < |u| ==> u[i] != '&' && u[i] != '#'
  {
    RedirectBase + EncodeURIComponent(title)
  }

  /**
   * One run of the handler, as a function of how the external calls settle
   * and of the clock reading. The export is always requested first and the
   * only error message a run can leave is the single-page one.
   */
  function Workflow(exported: Settlement<ExportResult>, now: nat, uploaded: Settlement<Response>, navigated: Settlement<()>): (w: Outcome)
    ensures 1 <= |w.calls| <= 3 && w.calls[0] == RequestExport(AcceptedFileTypes)
    ensures w.errorMessage == "" || w.errorMessage == SinglePageMessage
  {
    var start := [RequestExport(AcceptedFileTypes)];
    match exported
    case Threw => Outcome(start, "", Rejected)
    case Fulfilled(result) =>
      if IsAbandoned(result) then Outcome(start, "", Resolved)
      else if IsArchive(FirstFileUrl(result)) then Outcome(start, SinglePageMessage, Resolved)
      else
        var title := DeriveTitle(result.title, now);
        var sent := start + [Upload(BackendUploadUrl, BuildPayload(title, FirstFileUrl(result)))];
        match uploaded
        case Threw => Outcome(sent, "", Rejected)
        case Fulfilled(response) =>
          if !response.Ok() then Outcome(sent, "", Resolved)
          else Outcome(sent + [OpenExternalUrl(RedirectUrl(title))], "", (if navigated.Threw? then Rejected else Resolved))
  }

  /** The way the external call `c` settles, in a run given these settlements: true when it throws. */
  predicate SettlesByThrowing(c: Call, exported: Settlement<ExportResult>, uploaded: Settlement<Response>, navigated: Settlement<()>)
  {
    match c
    case RequestExport(_) => exported.Threw?
    case Upload(_, _) => uploaded.Threw?
    case OpenExternalUrl(_) => navigated.Threw?
  }

  /** An abandoned export ends the run silently: no upload, no navigation, no message. */
  lemma AbandonedExportIsSilent(result: ExportResult, now: nat, uploaded: Settlement<Response>, navigated: Settlement<()>)
    requires IsAbandoned(result)
    ensures Workflow(Fulfilled(result), now, uploaded, navigated) == Outcome([RequestExport(AcceptedFileTypes)], "", Resolved)
  {
  }

  /** A multi-page export sets the single-page message and ends the run without uploading. */
  lemma MultiPageExportShowsMessage(result: ExportResult, now: nat, uploaded: Settlement<Response>, navigated: Settlement<()>)
    requires !IsAbandoned(result) && IsArchive(FirstFileUrl(result))
    ensures Workflow(Fulfilled(result), now, uploaded, navigated) == Outcome([RequestExport(AcceptedFileTypes)], SinglePageMessage, Resolved)
  {
  }

  /** A run leaves an error message exactly when the export was a multi-page one. */
  lemma ErrorMessageOnlyForMultiPage(exported: Settlement<ExportResult>, now: nat, uploaded: Settlement<Response>, navigated: Settlement<()>)
    ensures Workflow(exported, now, uploaded, navigated).errorMessage != ""
        <==> exported.Fulfilled? && !IsAbandoned(exported.value) && IsArchive(FirstFileUrl(exported.value))
  {
  }

  /**
   * The upload is sent exactly when the export completed with a file that is
   * not an archive. It goes second, to the upload endpoint, with the derived
   * title and a single PNG entry for the first exported file.
   */
  lemma UploadCarriesOneFile(exported: Settlement<ExportResult>, now: nat, uploaded: Settlement<Response>, navigated: Settlement<()>)
    ensures var w := Workflow(exported, now, uploaded, navigated);
      && (|w.calls| >= 2 <==> exported.Fulfilled? && !IsAbandoned(exported.value) && !IsArchive(FirstFileUrl(exported.value)))
      && (forall i :: 0 <= i < |w.calls| && w.calls[i].Upload? ==> i == 1)
      && (|w.calls| >= 2 ==>
            && w.calls[1].Upload?
            && w.calls[1].endpoint == BackendUploadUrl
            && w.calls[1].payload.title == DeriveTitle(exported.value.title, now)
            && |w.calls[1].payload.files| == 1
            && w.calls[1].payload.files[0].url == FirstFileUrl(exported.value)
            && w.calls[1].payload.files[0].mimeType == PngMimeType)
  {
  }

  /** Only the first exported file matters: results that agree on it, the status and the title run alike. */
  lemma ExtraFilesIgnored(a: ExportResult, b: ExportResult, now: nat, uploaded: Settlement<Response>, navigated: Settlement<()>)
    requires a.status == b.status && a.title == b.title
    requires a.exportBlobs.Some? && b.exportBlobs.Some? && |a.exportBlobs.value| > 0 && |b.exportBlobs.value| > 0
    requires a.exportBlobs.value[0] == b.exportBlobs.value[0]
    ensures Workflow(Fulfilled(a), now, uploaded, navigated) == Workflow(Fulfilled(b), now, uploaded, navigated)
  {
  }

  /**
   * Navigation is requested at most once, as the third call, only after an
   * upload whose response was ok, and always to the mockup page for the
   * uploaded title. An ok upload is always followed by it.
   */
  lemma NavigationOnlyAfterOkUpload(exported: Settlement<ExportResult>, now: nat, uploaded: Settlement<Response>, navigated: Settlement<()>)
    ensures var w := Workflow(exported, now, uploaded, navigated);
      && (forall i :: 0 <= i < |w.calls| && w.calls[i].OpenExternalUrl? ==>
            && i == 2
            && w.calls[1].Upload?
            && uploaded.Fulfilled? && uploaded.value.Ok()
            && w.calls[i].url == RedirectUrl(w.calls[1].payload.title))
      && (|w.calls| >= 2 && uploaded.Fulfilled? && uploaded.value.Ok() ==> |w.calls| == 3)
  {
  }

  /**
   * Each call is awaited and nothing catches: a run rejects exactly when the
   * last call it issued threw, and every earlier call settled normally.
   */
  lemma RejectsExactlyWhenLastCallThrows(exported: Settlement<ExportResult>, now: nat, uploaded: Settlement<Response>, navigated: Settlement<()>)
    ensures var w := Workflow(exported, now, uploaded, navigated);
      && (w.completion == Rejected <==> SettlesByThrowing(w.calls[|w.calls| - 1], exported, uploaded, navigated))
      && (forall i :: 0 <= i < |w.calls| - 1 ==> !SettlesByThrowing(w.calls[i], exported, uploaded, navigated))
  {
  }

  /** The query value of the redirect decodes to the UTF-8 bytes of the title. */
  lemma RedirectUrlCarriesTitle(title: string)
    ensures PercentDecodeBytes(RedirectUrl(title)[|RedirectBase|..]) == Some(Utf8String(title))
  {
    assert RedirectUrl(title)[|RedirectBase|..] == EncodeURIComponent(title);
    EncodeDecodeRoundTrip(title);
  }

  /** A title made only of unreserved characters appears verbatim in the redirect. */
  lemma RedirectKeepsUnreservedTitle(title: string)
    requires forall i :: 0 <= i < |title| ==> IsUriUnreserved(title[i])
    ensures RedirectUrl(title) == RedirectBase + title
  {
    EncodeKeepsUnreserved(title);
  }

  /** The archive check looks for ".zip" anywhere in the URL, not only at its end. */
  lemma ArchiveMarkerAnywhere()
    ensures IsArchive(Some("https://x/a.zip?download=1"))
    ensures IsArchive(Some("https://x/design.zipped.png"))
    ensures !IsArchive(None)
  {
    assert OccursAt("https://x/a.zip?download=1", ArchiveMarker, 11);
    assert OccursAt("https://x/design.zipped.png", ArchiveMarker, 16);
  }

  /** A non-empty export title with no surrounding white space is used unchanged. */
  lemma UnpaddedTitleKept(title: string, now: nat)
    requires title != "" && !IsWhiteSpace(title[0]) && !IsWhiteSpace(title[|title| - 1])
    ensures DeriveTitle(Some(title), now) == title
  {
    TrimKeepsUnpadded(title);
  }

  /**
   * A completed export of a single page whose upload is answered ok issues
   * exactly three calls: the export, the upload of the derived title with the
   * first file, and the navigation to the mockup page for that title.
   */
  lemma OkUploadRun(result: ExportResult, now: nat, status: int, navigated: Settlement<()>)
    requires !IsAbandoned(result) && !IsArchive(FirstFileUrl(result))
    requires 200 <= status <= 299
    ensures var title := DeriveTitle(result.title, now);
      Workflow(Fulfilled(result), now, Fulfilled(Response(status)), navigated)
      == Outcome(
        [ RequestExport(AcceptedFileTypes),
          Upload(BackendUploadUrl, BuildPayload(title, FirstFileUrl(result))),
          OpenExternalUrl(RedirectUrl(title)) ],
        "", if navigated.Threw? then Rejected else Resolved)
  {
    var title := DeriveTitle(result.title, now);
    var upload := Upload(BackendUploadUrl, BuildPayload(title, FirstFileUrl(result)));
    var open := OpenExternalUrl(RedirectUrl(title));
    assert [RequestExport(AcceptedFileTypes)] + [upload] + [open] == [RequestExport(AcceptedFileTypes), upload, open];
  }

  /**
   * The successful run for a title with no surrounding whitespace: the title
   * is sent and used for the redirect exactly as the export gave it.
   */
  lemma SinglePageRun(url: string, title: string, now: nat, status: int)
    requires !IsArchive(Some(url))
    requires title != "" && !IsWhiteSpace(title[0]) && !IsWhiteSpace(title[|title| - 1])
    requires 200 <= status <= 299
    ensures Workflow(Fulfilled(ExportResult(CompletedStatus, Some([Some(url)]), Some(title))), now, Fulfilled(Response(status)), Fulfilled(()))
      == Outcome(
        [ RequestExport(AcceptedFileTypes),
          Upload(BackendUploadUrl, UploadPayload(title, [ExportedFile(Some(url), PngMimeType)])),
          OpenExternalUrl(RedirectUrl(title)) ],
        "", Resolved)
  {
    UnpaddedTitleKept(title, now);
    OkUploadRun(ExportResult(CompletedStatus, Some([Some(url)]), Some(title)), now, status, Fulfilled(()));
  }

  /**
   * A single PNG page titled "Logo", uploaded with a 2xx response: the title
   * is sent as it is and the mockup page for "Logo" is opened.
   */
  lemma LogoScenario(now: nat)
    ensures Workflow(
        Fulfilled(ExportResult(CompletedStatus, Some([Some("https://x/a.png")]), Some("Logo"))),
        now, Fulfilled(Response(200)), Fulfilled(()))
      == Outcome(
        [ RequestExport(AcceptedFileTypes),
          Upload(BackendUploadUrl, UploadPayload("Logo", [ExportedFile(Some("https://x/a.png"), PngMimeType)])),
          OpenExternalUrl(RedirectUrl("Logo")) ],
        "", Resolved)
  {
    PngUrlNotArchive();
    LogoUnpadded();
    SinglePageRun("https://x/a.png", "Logo", now, 200);
  }

  /** "Logo" neither starts nor ends with white space. */
  lemma LogoUnpadded()
    ensures !IsWhiteSpace("Logo"[0]) && !IsWhiteSpace("Logo"[|"Logo"| - 1])
  {
  }

  /** The URL of the "Logo" scenario holds no ".zip". */
  lemma PngUrlNotArchive()
    ensures !IsArchive(Some("https://x/a.png"))
  {
    var url := "https://x/a.png";
    forall k ensures !OccursAt(url, ArchiveMarker, k) {
      if 0 <= k && k + |ArchiveMarker| <= |url| {
        assert url[k..k + |ArchiveMarker|][1] == url[k + 1] != 'z';
      }
    }
  }

  /** The mockup page opened for the title "Logo". */
  lemma LogoRedirect()
    ensures RedirectUrl("Logo") == "https://mockup.levebrasa.com/internal/mockup?arte=Logo"
  {
    RedirectKeepsUnreservedTitle("Logo");
  }

  /** A multi-page export shows the single-page message and uploads nothing. */
  lemma MultiPageScenario(now: nat)
    ensures Workflow(
        Fulfilled(ExportResult("completed", Some([Some("https://x/a.zip")]), None)),
        now, Fulfilled(Response(200)), Fulfilled(()))
      == Outcome([RequestExport(["png"])], "Selecione apenas uma página!", Resolved)
  {
    assert OccursAt("https://x/a.zip", ArchiveMarker, 11);
  }

  /** The state the handler drives: the loading flag and the error message shown under the button. */
  class WorkflowController {
    var busy: bool
    var errorMessage: string

    constructor ()
      ensures !busy && errorMessage == ""
    {
      busy := false;
      errorMessage := "";
    }

    /**
     * Handles one click. Every external call is issued while busy is set and
     * the error message is clear; on every exit, including a call that
     * throws, busy ends cleared.
     */
    method Run(exported: Settlement<ExportResult>, now: nat, uploaded: Settlement<Response>, navigated: Settlement<()>)
      returns (trace: seq<Observed>, completion: Completion)
      requires !busy // the button is disabled while a run is in progress
      modifies this
      ensures !busy
      ensures var w := Workflow(exported, now, uploaded, navigated);
        && errorMessage == w.errorMessage
        && completion == w.completion
        && |trace| == |w.calls|
        && forall i :: 0 <= i < |trace| ==> trace[i] == Observed(w.calls[i], true, "")
    {
      busy := true;
      errorMessage := "";
      trace := [];
      completion := Resolved;
      label Try: {
        trace := trace + [Observed(RequestExport(AcceptedFileTypes), busy, errorMessage)];
        if exported.Threw? {
          completion := Rejected;
          break Try;
        }
        var result := exported.value;
        if result.status != CompletedStatus || result.exportBlobs.None? || |result.exportBlobs.value| == 0 {
          break Try;
        }
        var fileUrl := result.exportBlobs.value[0];
        if fileUrl.Some? && Includes(fileUrl.value, ArchiveMarker) {
          errorMessage := SinglePageMessage;
          break Try;
        }
        var title := DeriveTitle(result.title, now);
        trace := trace + [Observed(Upload(BackendUploadUrl, BuildPayload(title, fileUrl)), busy, errorMessage)];
        if uploaded.Threw? {
          completion := Rejected;
          break Try;
        }
        if uploaded.value.Ok() {
          trace := trace + [Observed(OpenExternalUrl(RedirectUrl(title)), busy, errorMessage)];
          if navigated.Threw? {
            completion := Rejected;
          }
        }
      }
      // finally
      busy := false;
    }
  }
}
