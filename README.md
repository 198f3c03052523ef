# PDF++ XFDF redirect and view-state wrappers, in Dafny

This project models two parts of the PDF++ Obsidian plugin.

- **External-PDF resolution** (`getPdfPathFromXfdf`). An XFDF annotation file names the PDF it annotates in the `href` of its `<f>` element. The resolver classifies the href into one of four forms, tested in this order:
  - rooted drive `/G/…`;
  - bare drive `G:…`;
  - relative (`./…`, `../…`, or no `:` at all);
  - anything else, which is unsupported.

  It then builds a `file:///` path, checks that the plain path exists, and rewrites the path into a host resource locator. Each early `return null` (src/utils/xfdf.ts:21-83) is a `Failure` that says which branch rejected the href. The catch-all at lines 94-97 is reached here only through a failed read or parse of the XFDF file. That failure arrives as an absent href and is reported as `NoHrefElement`.
- **The PDF view wrappers** (`patchPDFView`):
  - `getState` merges page, scroll offsets and zoom from the live PDF.js viewer into the saved state.
  - `setState` may force a history entry. After the unpatched `setState` resolves, it pushes a state that has a numeric page into the viewer.
  - `onLoadFile` sends an XFDF file to its external PDF. It installs a `{from, to}` redirect on the viewer, marks the child as external, runs the child's `loadFile`, and then deletes the redirect.
  - The patch-status flags decide what `patchPDFView` returns.

Module `Xfdf` (xfdf.dfy) is pure: datatypes, functions and lemmas. Module `PdfView` (pdf_view.dfy) holds pure helpers for:
- the state merge, page fallback included;
- the `/\?\d+$/` cache-buster stripping.

It also holds classes for the view, the viewer child and the two viewer layers. Their methods update those objects' fields as the wrappers do. The host calls the wrappers make are recorded in logs: `PdfView.calls` and `PdfViewerChild.loads`. The logs let the contracts state the order of those calls. They also let the contracts state what the rendering engine sees when `loadFile` runs.

In three places the code does something a reader might not expect; the model follows the code:
- The redirect is deleted only after a `loadFile` that returns normally. There is no `try/finally`, so a load that throws leaves the mapping installed. `OnLoadFile` states exactly that.
- The rooted-drive form builds `file:///` + letter + `:` + `normalize(rest)`, with no `/` after the colon (`RootedDriveExample`). A comment in the source mentions a `/G:/…` form, but the regular expression accepts only `/G/…`.
- Path normalization is whatever Obsidian's `normalizePath` does. The code does not show its body, so the model does not assume that it collapses `.` or `..`, unifies separators, or keeps a leading slash.

## Model

| member | source | states |
|---|---|---|
| Xfdf.LastIndexOf | src/utils/xfdf.ts:58 | the result is -1 exactly when the character is absent; otherwise the character is at that index and at no later index |
| Xfdf.XfdfDir | src/utils/xfdf.ts:58 | the folder is empty when the path has no `/`; otherwise it is the part of the path before its last `/` |
| Xfdf.MatchesRootedDrive | src/utils/xfdf.ts:32 | `/^\/([A-Za-z])\//`; a match starts with `/` and is never a bare drive |
| Xfdf.MatchesBareDrive | src/utils/xfdf.ts:43 | `/^[A-Za-z]:/`; a match does not start with `/` and contains `:` |
| Xfdf.LooksRelative | src/utils/xfdf.ts:48 | every href without `:` counts as relative; a relative href with a `:` starts with `.` |
| Xfdf.Prefix | src/utils/xfdf.ts:58 | JavaScript `substring(0, n)`: a prefix of the string, empty for `n <= 0`, of length `n` within bounds, the whole string beyond them |
| Xfdf.FinalPdfPath | src/utils/xfdf.ts:29-74 | every path a branch builds starts with `file:///`; failures are only `InvalidRootedPath`, `NoFileSystemAdapter` or `UnsupportedFormat(href)`; `InvalidRootedPath` happens exactly for an href that starts with `/` but is not `/<letter>/`; per-branch results in the lemmas below |
| Xfdf.StripFileScheme | src/utils/xfdf.ts:77 | `replace(/^file:\/\/\//, '')`: removes a leading `file:///` and leaves any other string unchanged |
| Xfdf.DropEight | src/utils/xfdf.ts:87 | `substring(8)`: the characters from index 8 on, empty for strings of 8 characters or fewer |
| Xfdf.Resolve | src/utils/xfdf.ts:13-92 | `getPdfPathFromXfdf` from the href on: `NoHrefElement` exactly when there is no href; a success names the XFDF file and a locator that starts with the resource prefix; `TargetNotFound` names a path the existence check rejected; see `ResolveSucceedsIff` for the full characterisation |
| Xfdf.NoHrefYieldsNull | src/utils/xfdf.ts:20-24 | with no `<f href>` element the result is `null`, whatever the environment |
| Xfdf.RootedWithoutDriveIsRejected | src/utils/xfdf.ts:30-41 | an href that starts with `/` but is not `/<letter>/` yields `null`; it never reaches the bare-drive or relative branches |
| Xfdf.RootedDrivePath | src/utils/xfdf.ts:32-37 | the rooted-drive path is exactly `file:///` + the letter as written + `:` + `normalize(href[3..])` |
| Xfdf.BareDrivePath | src/utils/xfdf.ts:43-46 | an href matching `^[A-Za-z]:` gives `file:///` + `normalize(href)` |
| Xfdf.RelativePath | src/utils/xfdf.ts:48-69 | every href that does not start with `/` and looks relative (no `:`, or a `./` or `../` prefix) reaches the join: it gives `file:///` + `normalize(join(base, folder, href))`; without a file-system adapter the result is `null` |
| Xfdf.EmptyHrefIsRelative | src/utils/xfdf.ts:26-69 | the empty href goes to the relative branch |
| Xfdf.OtherHrefIsUnsupported | src/utils/xfdf.ts:71-74 | an href with a `:`, no drive prefix and no `./` or `../` prefix is an unsupported format |
| Xfdf.UrlIsUnsupported | src/utils/xfdf.ts:71-74 | `http://example.com/file.pdf` is rejected as unsupported |
| Xfdf.SchemeRoundTrip | src/utils/xfdf.ts:77-87 | after `file:///` is prefixed to a path, both the `^file:///` replace and `substring(8)` give the path back |
| Xfdf.FinalPathHasScheme | src/utils/xfdf.ts:29-87 | every path a branch produces starts with `file:///`, so the path checked for existence is the same as the path put behind the resource prefix |
| Xfdf.ExistsNotConsultedOnFormatFailure | src/utils/xfdf.ts:29-83 | when classification fails, the answer of the existence check plays no part in the result |
| Xfdf.MissingTargetYieldsNull | src/utils/xfdf.ts:77-83 | a path whose plain form does not exist yields `null`, reported with that plain path |
| Xfdf.ResolveSucceedsIff | src/utils/xfdf.ts:76-92 | resolution succeeds exactly when a branch yields `file:///` + p and p exists; the result is then `{path: file.path, externalPath: prefix + p}` |
| Xfdf.RootedDriveExample | src/utils/xfdf.ts:32-37 | with an identity `normalize`, `/G/docs/file.pdf` becomes `file:///G:docs/file.pdf` |
| Xfdf.RelativeExample | src/utils/xfdf.ts:58-65 | `../pdfs/file.pdf` from `folder/note.xfdf` is joined against the folder `folder` |
| PdfView.MergeLiveState | src/patchers/pdf-view.ts:25-34 | page is the anchor page when defined, otherwise the current page; left and top are copied from the anchor and may be undefined; zoom is the current scale; other fields are kept |
| PdfView.AnchorPageWins | src/patchers/pdf-view.ts:26-30 | in the middle of a scroll, with the anchor on page n and the current page n+1, the captured page is n |
| PdfView.TrailingDigits | src/patchers/pdf-view.ts:69 | counts the maximal run of decimal digits at the end of a string |
| PdfView.StripCacheBuster | src/patchers/pdf-view.ts:69 | the result is a prefix of the input; it is shorter exactly when `/\?\d+$/` matches, and then it ends where the match begins; an input that does not match is unchanged |
| PdfView.StripCacheBusterNotIdempotent | src/patchers/pdf-view.ts:69 | one suffix goes per call: `a?1?2` gives `a?1`, and that gives `a` |
| PdfView.RedirectTargetExists | src/patchers/pdf-view.ts:63-64 | a redirect is installed only towards a locator of the form prefix + p, where p passed the existence check |
| PdfView.Resolution | src/patchers/pdf-view.ts:63 | the resolution `onLoadFile` uses; without an href it is `NoHrefElement`, and a success names the file itself |
| PdfView.Redirectable | src/patchers/pdf-view.ts:64 | the redirect branch is taken only for an href that resolved to a non-empty locator |
| PdfView.PdfView.LiveViewer | src/patchers/pdf-view.ts:24 | `child?.pdfViewer?.pdfViewer`: present exactly when the child, its viewer and the PDF.js viewer are all present |
| PdfView.PdfView.CurrentState | src/patchers/pdf-view.ts:96 | the state the patched `getState` reports: the unpatched state without a live viewer, otherwise the merge (page present, zoom the live scale); other fields kept |
| PdfView.PdfView.GetState | src/patchers/pdf-view.ts:19-36 | the field-by-field update returns exactly `CurrentState()`: the unpatched state unchanged with no live viewer, otherwise that state merged with the live viewer's reading |
| PdfView.PdfView.OriginalSetState | src/patchers/pdf-view.ts:43 | the unpatched `setState` sees the `history` flag as it is when the call is made; it may reject, attach a different child, and write `result.history` |
| PdfView.PdfView.ApplyViewState | src/patchers/pdf-view.ts:49 | records one `applyPDFViewStateToViewer` call, with the viewer and the state passed |
| PdfView.PdfView.SetState | src/patchers/pdf-view.ts:38-53 | the unpatched call sees `history` true exactly when the setting holds or it was already true; the view state is applied only after that call resolves, and only when `page` is a number and a viewer is attached at that point, to that viewer (the one attached after the call, not before it); after a rejection nothing is applied and the rejection propagates |
| PdfView.PdfView.ViewerLoadFile | src/patchers/pdf-view.ts:98 | records one `viewer.loadFile(file, subpath)` call |
| PdfView.PdfViewerChild.LoadFile | src/patchers/pdf-view.ts:82 | the child's load records the redirect and external flags visible when it is called |
| PdfView.PdfView.OnLoadFile | src/patchers/pdf-view.ts:56-99 | see the cases below |
| PdfView.PatchPdfView | src/patchers/pdf-view.ts:9-115 | returns true exactly when both flags were set on entry; when a PDF view exists it sets the view flag; it never clears a flag |

The cases in the contract of `PdfView.PdfView.OnLoadFile`:
- An XFDF file whose resolution fails, or gives an empty locator, shows a notice and changes nothing.
- When the child or its viewer is missing, nothing changes.
- Otherwise the load sees the redirect `{from: resource path with its cache-buster stripped, to: locator}`, with `isFileExternal` set and `externalFileUrl` equal to the locator.
  - After a normal return the redirect is gone.
  - After a throw it is still installed.
- Any other file is loaded by the view with `viewStateToSubpath` of the patched `getState`.

## Left out

- XML parsing (`DOMParser`, `querySelector`) and `app.vault.read`. The model starts from the extracted href. `Host.hrefOf` gives it. `None` stands for a missing `<f href>` element and also for a read or parse that fails; both are reported as `NoHrefElement`.
- The catch-all `try/catch` of `getPdfPathFromXfdf`. The only failure it would add comes from foreign code (the read, the parse), and that reaches the model as `None` from `hrefOf`. The model does not capture `normalize`, `join` or `existsSync` throwing.
- The bodies of Obsidian's `normalizePath`, Node's `path.join`, `existsSync`, the adapter's base path and `Platform.resourcePathPrefix`. Each is an uninterpreted field of `Xfdf.Env`.
- `Notice` and `console.error`. They are user-interface and logging side effects. `LoadOutcome.ResolveFailed` marks where the notice appears.
- The prototype patching itself (`around`, `plugin.register`, `plugin.classes.PDFView`). The three wrappers are methods of the view class, and they call methods that stand for the unpatched operations.
- `patchPDFInternals`, which is not part of this model. `PatchPdfView` takes as a parameter whether it sets its flag during the call.
- What `applyPDFViewStateToViewer`, `loadFile` and the unpatched `setState` do inside the host. The model records only each call, its arguments and the state visible to it. The unpatched `setState` is described by parameters: whether it rejects (`rejects`), the child it leaves attached (`childAfter`) and what it leaves in `result.history` (`historyAfter`).
- Promises and interleaving. Each wrapper is a sequential method, and each awaited call is one step. A race between two XFDF loads on the same viewer is not modelled.
- PdfView.PdfView.OnLoadFile: when no child is attached, `self.viewer.then` has not run its callback yet, and the model treats the call as ending with nothing changed.
- Floating-point behaviour. Offsets and scale are `real` values that are only copied. `page` is an integer, and `None` stands for a `page` that is absent or not a number.
