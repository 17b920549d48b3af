# Export-and-upload workflow of the design-editor intent

This project models the handler behind the "Exportar Design" button of the
design-editor intent (`handleExportAndUpload` in
`src/intents/design_editor/app.tsx`). One click of the button:

1. sets the loading flag and clears the error message;
2. asks the host editor to export the current design as a PNG;
3. stops silently when the user abandoned the export or it produced no
   files;
4. stops with the message "Selecione apenas uma página!" when the first
   exported file is an archive, which means several pages were exported;
5. derives a title from the export's title, or else from
   `CanvaDesign-<milliseconds>`, and trims it;
6. POSTs `{ title, files: [{ url, mimeType: "image/png" }] }` to the backend
   upload endpoint;
7. on a 2xx response, asks the host to open
   `https://mockup.levebrasa.com/internal/mockup?arte=<encoded title>`;
8. in a `finally`, clears the loading flag, however the run ended.

The project has four modules:

- `Wrappers` (`wrappers.dfy`) holds the `Option` type.
- `JsStrings` (`js_strings.dfy`) models the JavaScript string operations the
  handler uses:
  - `String.prototype.trim`, with the ECMAScript white-space and
    line-terminator set;
  - `String.prototype.includes`;
  - the decimal rendering of a non-negative integer in a template literal.
- `UriEncoding` (`uri_encoding.dfy`) models `encodeURIComponent`: UTF-8
  bytes, with every byte outside the unreserved set written as `%XX`. It
  also has a percent-decoder, which recovers the title's UTF-8 bytes from
  the encoding.
- `DesignEditorApp` (`design_editor_app.dfy`) holds the handler itself:
  - `Workflow` is the specification of one run, as a function of how each
    external call settles and of the clock reading. It gives the calls
    issued, in order, the error message left behind, and whether the
    handler's promise resolves or rejects.
  - `WorkflowController` is the component state (`isLoading` as `busy`, and
    `errorMessage`). Its `Run` method performs the run step by step. A
    labelled block stands in for `try`, and a single assignment after it for
    `finally`.
  - `Run` is proved to issue exactly the calls of `Workflow`, each one while
    busy is set and the message is clear. It leaves the message and the
    completion that `Workflow` gives, and always ends with busy cleared.

The three external calls (`requestExport`, `fetch`, `requestOpenExternalUrl`)
are inputs: each is given as a `Settlement`, either the value it resolves to
or `Threw`. The clock (`Date.now()`) is the input `now`.

The archive test is the code's: ".zip" anywhere in the URL, not only as a
suffix.

The title follows the code too, which trims after choosing between the
export title and the synthetic one. An export title made only of white space
is therefore sent as the empty string; it does not fall back to the
synthetic title. `ExportTitleTrimmed` states this behaviour.

## Model

| member | source | states |
|---|---|---|
| JsStrings.Trim | src/intents/design_editor/app.tsx:46 | the trimmed title is no longer than its input and neither starts nor ends with white space |
| JsStrings.TrimKeepsSlice | src/intents/design_editor/app.tsx:46 | `trim` returns a contiguous piece of its input, and everything cut off at either end is white space |
| JsStrings.TrimKeepsUnpadded | src/intents/design_editor/app.tsx:46 | a string that neither starts nor ends with white space is returned unchanged by `trim` |
| JsStrings.TrimIdempotent | src/intents/design_editor/app.tsx:46 | trimming a trimmed string changes nothing |
| JsStrings.TrimAllWhiteSpace | src/intents/design_editor/app.tsx:46 | a string made only of white space trims to the empty string |
| JsStrings.Includes | src/intents/design_editor/app.tsx:41 | `includes` holds exactly when the search string occurs at some position of the string |
| JsStrings.NumberToString | src/intents/design_editor/app.tsx:46 | the rendering of a clock reading is a non-empty run of decimal digits with no leading zero; the only rendering that starts with `0` is `"0"`, for zero |
| JsStrings.NumberToStringRoundTrip | src/intents/design_editor/app.tsx:46 | reading the digits back gives the number that was rendered |
| JsStrings.NumberToStringInjective | src/intents/design_editor/app.tsx:46 | different numbers render as different digit strings |
| UriEncoding.EncodeURIComponent | src/intents/design_editor/app.tsx:62 | the encoded title is at least as long as the title, and every character is unreserved or `%` |
| UriEncoding.EncodeAppend | src/intents/design_editor/app.tsx:62 | encoding works character by character: the encoding of a concatenation is the concatenation of the encodings |
| UriEncoding.EncodeKeepsUnreserved | src/intents/design_editor/app.tsx:62 | a string made only of unreserved characters is left as it is |
| UriEncoding.EncodeDecodeRoundTrip | src/intents/design_editor/app.tsx:62 | percent-decoding the encoding gives back the UTF-8 bytes of the title |
| DesignEditorApp.SyntheticTitle | src/intents/design_editor/app.tsx:46 | the synthetic title is `CanvaDesign-` followed only by decimal digits, with no leading zero: the digits start with `0` only in `CanvaDesign-0`, for a clock reading of zero |
| DesignEditorApp.SyntheticTitleReadsBack | src/intents/design_editor/app.tsx:46 | the digits of the synthetic title read back as the clock reading |
| DesignEditorApp.SyntheticTitlesDiffer | src/intents/design_editor/app.tsx:46 | different clock readings synthesise different titles |
| DesignEditorApp.SyntheticTitleUntrimmed | src/intents/design_editor/app.tsx:46 | trimming leaves the synthetic title unchanged |
| DesignEditorApp.DeriveTitle | src/intents/design_editor/app.tsx:46 | the upload title never starts or ends with white space |
| DesignEditorApp.FallbackTitle | src/intents/design_editor/app.tsx:46 | a missing or empty export title gives exactly the synthetic title for the clock reading |
| DesignEditorApp.ExportTitleTrimmed | src/intents/design_editor/app.tsx:46 | a non-empty export title is sent trimmed, so one made only of white space is sent as the empty string |
| DesignEditorApp.UnpaddedTitleKept | src/intents/design_editor/app.tsx:46 | a non-empty export title without surrounding white space is sent unchanged |
| DesignEditorApp.RedirectUrl | src/intents/design_editor/app.tsx:62 | the redirect starts with the mockup page address, and nothing after it is `&` or `#`, so the whole encoded title stays in the `arte` parameter |
| DesignEditorApp.RedirectUrlCarriesTitle | src/intents/design_editor/app.tsx:62 | the `arte` value of the redirect decodes to the UTF-8 bytes of the title |
| DesignEditorApp.ArchiveMarkerAnywhere | src/intents/design_editor/app.tsx:39-41 | examples: a ".zip" in the middle of a URL (before a query, or inside a longer file name) marks an archive, and an undefined URL never does |
| DesignEditorApp.Response.Ok | src/intents/design_editor/app.tsx:60 | `response.ok` holds exactly when the status is in the 2xx range (its hundreds digit is 2) |
| DesignEditorApp.IsArchive | src/intents/design_editor/app.tsx:39-41 | a file URL marks an archive exactly when it is defined and ".zip" occurs in it at some position |
| DesignEditorApp.RedirectKeepsUnreservedTitle | src/intents/design_editor/app.tsx:62 | a title made only of unreserved characters appears verbatim after the mockup page address |
| DesignEditorApp.LogoScenario | src/intents/design_editor/app.tsx:21-68 | a completed PNG export of `https://x/a.png` titled "Logo" with a 200 response uploads "Logo" with that file and then opens the mockup page for "Logo" |
| DesignEditorApp.LogoRedirect | src/intents/design_editor/app.tsx:62 | the mockup page for "Logo" is `https://mockup.levebrasa.com/internal/mockup?arte=Logo` |
| DesignEditorApp.PngUrlNotArchive | src/intents/design_editor/app.tsx:41 | `https://x/a.png` is not taken for an archive |
| DesignEditorApp.Workflow | src/intents/design_editor/app.tsx:21-68 | every run first requests a PNG export, issues one to three calls, and leaves either no message or the single-page message |
| DesignEditorApp.AbandonedExportIsSilent | src/intents/design_editor/app.tsx:30-35 | a non-completed export, or one without files (the test `IsAbandoned`), ends the run with only the export call, no message, and a resolved promise |
| DesignEditorApp.MultiPageExportShowsMessage | src/intents/design_editor/app.tsx:37-44 | an archive as first file sets "Selecione apenas uma página!" and ends the run without an upload |
| DesignEditorApp.ErrorMessageOnlyForMultiPage | src/intents/design_editor/app.tsx:22-44 | a run leaves an error message if and only if the export completed and its first file is an archive |
| DesignEditorApp.UploadCarriesOneFile | src/intents/design_editor/app.tsx:48-58 | the upload is sent if and only if the export completed with a non-archive first file; it is the second call, goes to the backend endpoint, and carries the derived title and one PNG entry with the first file's URL (the body built by `BuildPayload`) |
| DesignEditorApp.ExtraFilesIgnored | src/intents/design_editor/app.tsx:37-39 | only the first file (`FirstFileUrl`) is looked at: files after it never change what a run does |
| DesignEditorApp.NavigationOnlyAfterOkUpload | src/intents/design_editor/app.tsx:60-64 | navigation is requested at most once, as the third call, only after an upload answered with a 2xx status, and always to the mockup page for the uploaded title; an ok upload is always followed by it |
| DesignEditorApp.RejectsExactlyWhenLastCallThrows | src/intents/design_editor/app.tsx:25-67 | nothing is caught: the run rejects exactly when the last call it issued threw, and every earlier call settled normally |
| DesignEditorApp.OkUploadRun | src/intents/design_editor/app.tsx:46-63 | an ok upload of a single-page export gives exactly the export, the upload and the navigation, rejecting only if the navigation throws |
| DesignEditorApp.SinglePageRun | src/intents/design_editor/app.tsx:21-68 | a completed single-page export with an unpadded title and a 2xx upload sends that very title and the first file, then opens the mockup page for it |
| DesignEditorApp.MultiPageScenario | src/intents/design_editor/app.tsx:37-44 | an export of `https://x/a.zip` shows the single-page message and uploads nothing |
| DesignEditorApp.WorkflowController.constructor | src/intents/design_editor/app.tsx:12-13 | the component starts not loading and with no error message |
| DesignEditorApp.WorkflowController.Run | src/intents/design_editor/app.tsx:21-84 | callable only while the button is enabled, that is while not busy, as the `disabled` guard ensures; it issues exactly the calls of `Workflow`, in order, each while busy is set and the message is clear; it leaves `Workflow`'s message and completion, and busy is cleared on every exit |

## Left out

- Rendering is not modelled: the JSX, the `react-intl` messages, the button label while loading and the error text. The model keeps only the state they read, and the `disabled` guard becomes `Run`'s precondition.
- React state updates are modelled as immediate assignments. Deferred re-renders and stale closures are not modelled.
- Concurrency is not modelled. Each `await` is a point where the call settles; two runs cannot overlap, because the button is disabled while busy.
- A call that never settles is not modelled: every external call is given as resolving or throwing. The source sets no timeout, so such a run would stay busy, with the button disabled, for ever. `Run`'s guarantee that busy ends cleared holds only for runs whose calls all settle.
- The upload request's method, headers (the content type and the placeholder bearer token) and the JSON text are not modelled. The body is the structured `UploadPayload`. An undefined file URL is `None`, which `JSON.stringify` would drop from the text.
- The external calls are not modelled beyond how they settle: the host editor's export dialog, the network and the host's navigation prompt. A value or a throw is supplied for each.
- The clock: `Date.now()` is the input `now`. Negative or fractional readings are not modelled.
- JsStrings.NumberToString: renders non-negative integers only. The exponent form JavaScript uses from 1e21 upwards is not modelled, because a millisecond clock reading does not reach it.
- UriEncoding.EncodeURIComponent: works on Unicode scalar values. The `URIError` that JavaScript throws for a lone UTF-16 surrogate cannot arise in the model.
- `openExternalUrl` (app.tsx:15-17) is folded into the `OpenExternalUrl` call, since it only forwards the URL to `requestOpenExternalUrl`.
