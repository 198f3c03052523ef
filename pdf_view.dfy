/**
 The three wrappers `patchPDFView` installs on the PDF view
 (src/patchers/pdf-view.ts): `getState` captures page, scroll position and
 zoom from the live PDF.js viewer; `setState` may force a history entry and,
 once the unpatched `setState` has resolved, pushes the stored position back
 into the viewer; `onLoadFile` redirects an XFDF file to the external PDF it
 names, through a `{from, to}` mapping installed on the viewer around the
 child's `loadFile`.

 The host's objects are classes with the fields the wrappers read and write.
 The host operations they call (the unpatched `setState`,
 `applyPDFViewStateToViewer`, `loadFile`) are methods whose only modelled
 effect is to append a record of the call to a log, so that the order of the
 calls and the state visible to each of them can be stated.
 */
module PdfView {
  import opened Wrappers
  import Xfdf

  // ---------------------------------------------------------------------------
  // Values

  /** PDF.js `_location`: the anchor page and the scroll offsets within it.
      Offsets and scale are floating point in the host; they are only copied here. */
  datatype Location = Location(pageNumber: Option<int>, left: Option<real>, top: Option<real>)

  /** What the live PDF.js viewer reports: `_location`, `currentPageNumber`, `currentScale`. */
  datatype ViewerReading = ViewerReading(location: Option<Location>, currentPageNumber: int, currentScale: real)

  /** The view's serialized state. `file` stands for every field the wrappers do not
      touch; `page` is `None` when the state has no numeric `page`. */
  datatype ViewState = ViewState(file: string, page: Option<int>, left: Option<real>, top: Option<real>, zoom: Option<real>)

  datatype File = File(path: string, extension: string)

  /** The mapping the rendering engine consults to load `to` in place of `from`. */
  datatype Redirect = Redirect(from: string, to: string)

  /** Calls the wrappers make into the host on the view, in order. */
  datatype HostCall =
    | SetStateCalled(state: ViewState, history: bool)
    | ApplyCalled(viewer: PdfJsViewer, state: ViewState)
    | LoadCalled(file: File, subpath: Option<string>)

  /** A call of the child's `loadFile`, with what the rendering engine sees at that moment. */
  datatype ChildLoad = ChildLoad(file: File, redirect: Option<Redirect>, isFileExternal: bool, externalFileUrl: Option<string>)

  /** How `onLoadFile` ends: normally, with the child's load rejecting, or after the
      "Failed to load PDF from XFDF file" notice. */
  datatype LoadOutcome = Completed | LoadThrew | ResolveFailed

  /** The host services `onLoadFile` uses. */
  datatype Host = Host(
    /** The services the XFDF resolver uses. */
    resolver: Xfdf.Env,
    /** The `<f href>` attribute of an XFDF file's content. `None` when the element is
        absent, and also when reading or parsing the file throws: both end in `null`
        (src/utils/xfdf.ts:21-24 and 94-97), and the resolver then reports
        `NoHrefElement`. */
    hrefOf: File -> Option<string>,
    /** `app.vault.getResourcePath(file)` */
    resourcePath: File -> string,
    /** `lib.viewStateToSubpath(state)`; `null` and `undefined` are both `None`. */
    viewStateToSubpath: ViewState -> Option<string>)

  // ---------------------------------------------------------------------------
  // Pure parts of the wrappers

  /** The state `getState` reports when a live viewer is present: the anchor page when
      the viewer has one, otherwise its current page; the anchor offsets, possibly
      undefined; the current scale; every other field kept. */
  function MergeLiveState(base: ViewState, v: ViewerReading): (r: ViewState)
    ensures r.file == base.file
    ensures v.location.Some? && v.location.value.pageNumber.Some? ==> r.page == v.location.value.pageNumber
    ensures v.location.None? || v.location.value.pageNumber.None? ==> r.page == Some(v.currentPageNumber)
    ensures v.location.None? ==> r.left.None? && r.top.None?
    ensures v.location.Some? ==> r.left == v.location.value.left && r.top == v.location.value.top
    ensures r.zoom == Some(v.currentScale)
  {
    var anchorPage := if v.location.Some? then v.location.value.pageNumber else None;
    base.(page := if anchorPage.Some? then anchorPage else Some(v.currentPageNumber),
          left := if v.location.Some? then v.location.value.left else None,
          top := if v.location.Some? then v.location.value.top else None,
          zoom := Some(v.currentScale))
  }

  /** Mid-scroll between pages `n` and `n + 1`, with the anchor on `n` and the current
      page reported as `n + 1`, the captured page is `n`. */
  lemma AnchorPageWins(base: ViewState, n: int, left: Option<real>, top: Option<real>, scale: real)
    ensures MergeLiveState(base, ViewerReading(Some(Location(Some(n), left, top)), n + 1, scale)).page == Some(n)
  {
  }

  predicate IsDigit(c: char) {
    '0' <= c <= '9'
  }

  /** The number of decimal digits that end `s`. */
  function TrailingDigits(s: string): (n: nat)
    ensures n <= |s|
    ensures forall j :: |s| - n <= j < |s| ==> IsDigit(s[j])
    ensures n < |s| ==> !IsDigit(s[|s| - n - 1])
  {
    if |s| > 0 && IsDigit(s[|s| - 1]) then TrailingDigits(s[..|s| - 1]) + 1 else 0
  }

  /** The regular expression `/\?\d+$/` matches `s` at index `i`. */
  ghost predicate CacheBusterAt(s: string, i: int) {
    0 <= i < |s| - 1 && s[i] == '?' && forall j :: i < j < |s| ==> IsDigit(s[j])
  }

  /** `url.replace(/\?\d+$/, '')`: removes one trailing `?<digits>` cache-buster.
      The result is a prefix of `url`; it is shorter exactly when the expression
      matches, and then it ends where the match begins. */
  function StripCacheBuster(url: string): (r: string)
    ensures |r| <= |url| && r == url[..|r|]
    ensures |r| < |url| ==> CacheBusterAt(url, |r|)
    ensures forall i :: CacheBusterAt(url, i) ==> r == url[..i]
    ensures (forall i :: !CacheBusterAt(url, i)) ==> r == url
  {
    var n := TrailingDigits(url);
    if 0 < n < |url| && url[|url| - n - 1] == '?' then
      assert CacheBusterAt(url, |url| - n - 1);
      url[..|url| - n - 1]
    else
      url
  }

  /** Only one cache-buster goes per call, so stripping is not idempotent:
      `a?1?2` becomes `a?1`, which becomes `a`. */
  lemma StripCacheBusterNotIdempotent()
    ensures StripCacheBuster("a?1?2") == "a?1"
    ensures StripCacheBuster("a?1") == "a"
  {
  }

  /** The XFDF resolution `onLoadFile` acts on (`getPdfPathFromXfdf(plugin.app, file, lib)`). */
  function Resolution(file: File, host: Host): (r: Result<Xfdf.PdfInfo, Xfdf.ResolveError>)
    ensures host.hrefOf(file).None? ==> r == Failure(Xfdf.NoHrefElement)
    ensures r.Success? ==> r.value.path == file.path
  {
    Xfdf.Resolve(host.hrefOf(file), file.path, host.resolver)
  }

  /** `pdfInfo && pdfInfo.externalPath`: the redirect branch is taken. */
  predicate Redirectable(file: File, host: Host)
    ensures Redirectable(file, host) ==>
      host.hrefOf(file).Some? && Resolution(file, host).Success? &&
      |Resolution(file, host).value.externalPath| > 0
  {
    Resolution(file, host).Success? && Resolution(file, host).value.externalPath != ""
  }

  /** A redirect is only ever installed towards a target the existence check accepted:
      its locator is the resource prefix followed by that existing path, and the
      resolution names the XFDF file itself. */
  lemma RedirectTargetExists(file: File, host: Host)
    requires Redirectable(file, host)
    ensures Resolution(file, host).value.path == file.path
    ensures exists rest: string ::
      host.resolver.fileExists(rest) &&
      Resolution(file, host).value.externalPath == host.resolver.resourcePathPrefix + rest
  {
  }

  // ---------------------------------------------------------------------------
  // Host objects

  /** The PDF.js viewer (`child.pdfViewer.pdfViewer`). */
  class PdfJsViewer {
    var location: Option<Location>
    var currentPageNumber: int
    var currentScale: real

    function Reading(): ViewerReading
      reads this
    {
      ViewerReading(location, currentPageNumber, currentScale)
    }
  }

  /** Obsidian's wrapper around the PDF.js viewer (`child.pdfViewer`). */
  class ObsidianViewer {
    var pdfViewer: PdfJsViewer?
    var pdfPlusRedirect: Option<Redirect>
  }

  /** The viewer child (`self.viewer.child`). */
  class PdfViewerChild {
    var pdfViewer: ObsidianViewer?
    var isFileExternal: bool
    var externalFileUrl: Option<string>
    /** Every `loadFile` call made on this child. */
    var loads: seq<ChildLoad>

    /** The redirect installed on the viewer, if any. */
    function InstalledRedirect(): Option<Redirect>
      reads this, pdfViewer
    {
      if pdfViewer == null then None else pdfViewer.pdfPlusRedirect
    }

    /** The unpatched `child.loadFile(file)`; `throws` stands for a load that rejects.
        The rendering engine reads the redirect and the external flags at the call. */
    method LoadFile(file: File, throws: bool) returns (ok: bool)
      modifies this`loads
      ensures ok == !throws
      ensures loads == old(loads) + [ChildLoad(file, InstalledRedirect(), isFileExternal, externalFileUrl)]
    {
      loads := loads + [ChildLoad(file, InstalledRedirect(), isFileExternal, externalFileUrl)];
      ok := !throws;
    }
  }

  /** `result` of `setState`. */
  class ViewStateResult {
    var history: bool
  }

  /** `plugin.patchStatus`. */
  class PatchStatus {
    var pdfView: bool
    var pdfInternals: bool
  }

  /** The patched PDF view. */
  class PdfView {
    /** `self.viewer.child`, `null` while no child is attached. */
    var child: PdfViewerChild?
    /** The state the unpatched `getState` returns. */
    var baseState: ViewState
    /** Every call the wrappers have made into the host on this view, in order. */
    var calls: seq<HostCall>

    /** `child?.pdfViewer?.pdfViewer` */
    function LiveViewer(): (v: PdfJsViewer?)
      reads this, child, if child != null then {child.pdfViewer} else {}
      ensures v != null <==> child != null && child.pdfViewer != null && child.pdfViewer.pdfViewer != null
      ensures v != null ==> v == child.pdfViewer.pdfViewer
    {
      if child == null || child.pdfViewer == null then null else child.pdfViewer.pdfViewer
    }

    /** The state the patched `getState` reports (called as `self.getState()` when a
        file other than XFDF is loaded). */
    function CurrentState(): (r: ViewState)
      reads this, child, if child != null then {child.pdfViewer} else {}
      reads if child != null && child.pdfViewer != null then {child.pdfViewer.pdfViewer} else {}
      ensures LiveViewer() == null ==> r == baseState
      ensures r.file == baseState.file
      ensures LiveViewer() != null ==> r.page.Some? && r.zoom == Some(LiveViewer().currentScale)
    {
      var v := LiveViewer();
      if v == null then baseState else MergeLiveState(baseState, v.Reading())
    }

    /** Patched `getState`: the unpatched state, overwritten field by field from the
        live viewer when there is one, and returned unchanged otherwise. */
    method GetState() returns (ret: ViewState)
      ensures ret == CurrentState()
    {
      ret := baseState;
      var pdfViewer: PdfJsViewer? := null;
      if child != null && child.pdfViewer != null {
        pdfViewer := child.pdfViewer.pdfViewer;
      }
      if pdfViewer != null {
        var anchorPage := if pdfViewer.location.Some? then pdfViewer.location.value.pageNumber else None;
        ret := ret.(page := if anchorPage.Some? then anchorPage else Some(pdfViewer.currentPageNumber));
        ret := ret.(left := if pdfViewer.location.Some? then pdfViewer.location.value.left else None);
        ret := ret.(top := if pdfViewer.location.Some? then pdfViewer.location.value.top else None);
        ret := ret.(zoom := Some(pdfViewer.currentScale));
      }
    }

    /** The unpatched `setState`. It sees `result.history` as it is at the call;
        `rejects` stands for a promise that rejects, `childAfter` for the child
        attached when it settles, and `historyAfter` for what it leaves in
        `result.history`. */
    method OriginalSetState(state: ViewState, result: ViewStateResult, rejects: bool,
                            childAfter: PdfViewerChild?, historyAfter: bool) returns (ok: bool)
      modifies this`child, this`calls, result
      ensures ok == !rejects
      ensures child == childAfter && result.history == historyAfter
      ensures calls == old(calls) + [SetStateCalled(state, old(result.history))]
    {
      calls := calls + [SetStateCalled(state, result.history)];
      child := childAfter;
      result.history := historyAfter;
      ok := !rejects;
    }

    /** `lib.applyPDFViewStateToViewer(pdfViewer, state)` */
    method ApplyViewState(pdfViewer: PdfJsViewer, state: ViewState)
      modifies this`calls
      ensures calls == old(calls) + [ApplyCalled(pdfViewer, state)]
    {
      calls := calls + [ApplyCalled(pdfViewer, state)];
    }

    /** Patched `setState`: forces `result.history` when the setting asks for it, then
        delegates; once that resolves, pushes the state into the live viewer only when
        the state has a numeric page and a viewer is attached at that point. A
        rejected delegate never reaches the push, and the rejection propagates
        (`ok` is false). `alwaysRecordHistory` is the plugin setting of that name;
        `rejects`, `childAfter` and `historyAfter` describe the unpatched call. */
    method SetState(state: ViewState, result: ViewStateResult, alwaysRecordHistory: bool,
                    rejects: bool, childAfter: PdfViewerChild?, historyAfter: bool) returns (ok: bool)
      modifies this`child, this`calls, result
      ensures ok == !rejects
      ensures child == childAfter && baseState == old(baseState) && result.history == historyAfter
      ensures calls == old(calls) + [SetStateCalled(state, alwaysRecordHistory || old(result.history))]
                     + (if ok && state.page.Some? && LiveViewer() != null then [ApplyCalled(LiveViewer(), state)] else [])
    {
      if alwaysRecordHistory {
        result.history := true;
      }
      ok := OriginalSetState(state, result, rejects, childAfter, historyAfter);
      if !ok {
        return;
      }
      var pdfViewer: PdfJsViewer? := null;
      if child != null && child.pdfViewer != null {
        pdfViewer := child.pdfViewer.pdfViewer;
      }
      if state.page.Some? {
        if pdfViewer != null {
          ApplyViewState(pdfViewer, state);
        }
      }
    }

    /** `self.viewer.loadFile(file, subpath)` */
    method ViewerLoadFile(file: File, subpath: Option<string>)
      modifies this`calls
      ensures calls == old(calls) + [LoadCalled(file, subpath)]
    {
      calls := calls + [LoadCalled(file, subpath)];
    }

    /** Patched `onLoadFile`.

        An XFDF file whose resolution fails (or gives an empty locator) shows a notice
        and loads nothing. Otherwise, once the child is there and has a viewer, the
        redirect from the file's resource path (cache-buster stripped) to the external
        locator is installed, the child is marked external, the child loads the file,
        and the redirect is deleted after a load that returns normally; a load that
        throws leaves it installed, as nothing catches the exception. Any other file
        is loaded by the view with the subpath of the current state. */
    method OnLoadFile(file: File, host: Host, loadThrows: bool) returns (outcome: LoadOutcome)
      modifies this`calls, child, if child != null then {child.pdfViewer} else {}
      ensures child == old(child) && baseState == old(baseState)
      ensures child != null ==> child.pdfViewer == old(child.pdfViewer)
      ensures file.extension != "xfdf" ==>
        && outcome == Completed
        && calls == old(calls) + [LoadCalled(file, host.viewStateToSubpath(old(CurrentState())))]
        && (child != null ==> unchanged(child))
        && (child != null && child.pdfViewer != null ==> unchanged(child.pdfViewer))
      ensures file.extension == "xfdf" && !Redirectable(file, host) ==>
        && outcome == ResolveFailed
        && calls == old(calls)
        && (child != null ==> unchanged(child))
        && (child != null && child.pdfViewer != null ==> unchanged(child.pdfViewer))
      ensures file.extension == "xfdf" && Redirectable(file, host) && (child == null || child.pdfViewer == null) ==>
        && outcome == Completed
        && calls == old(calls)
        && (child != null ==> unchanged(child))
      ensures file.extension == "xfdf" && Redirectable(file, host) && child != null && child.pdfViewer != null ==>
        var to := Resolution(file, host).value.externalPath;
        var redirect := Redirect(StripCacheBuster(host.resourcePath(file)), to);
        && calls == old(calls)
        && child.loads == old(child.loads) + [ChildLoad(file, Some(redirect), true, Some(to))]
        && child.isFileExternal
        && child.externalFileUrl == Some(to)
        && outcome == (if loadThrows then LoadThrew else Completed)
        && child.pdfViewer.pdfPlusRedirect == (if loadThrows then Some(redirect) else None)
        && child.pdfViewer.pdfViewer == old(child.pdfViewer.pdfViewer)
    {
      if file.extension == "xfdf" {
        var pdfInfo := Resolution(file, host);
        if pdfInfo.Success? && pdfInfo.value.externalPath != "" {
          var c := child;
          if c != null && c.pdfViewer != null {
            var externalPath := pdfInfo.value.externalPath;
            var redirectFrom := StripCacheBuster(host.resourcePath(file));
            c.pdfViewer.pdfPlusRedirect := Some(Redirect(redirectFrom, externalPath));
            c.isFileExternal := true;
            c.externalFileUrl := Some(externalPath);
            var ok := c.LoadFile(file, loadThrows);
            if !ok {
              return LoadThrew;
            }
            c.pdfViewer.pdfPlusRedirect := None;
          }
          return Completed;
        } else {
          return ResolveFailed;
        }
      }
      var state := GetState();
      var subpath := host.viewStateToSubpath(state);
      ViewerLoadFile(file, subpath);
      outcome := Completed;
    }
  }

  /** `patchPDFView`: reports `true` only when both patches were already in place on
      entry; otherwise it installs the view wrappers (when a PDF view exists and they
      are not yet installed), lets `patchPDFInternals` run, and reports `false`.
      `internalsPatched` is whether `patchPDFInternals` sets its flag during the call. */
  method PatchPdfView(status: PatchStatus, viewFound: bool, internalsPatched: bool) returns (done: bool)
    modifies status
    ensures done == (old(status.pdfView) && old(status.pdfInternals))
    ensures done || !viewFound ==>
      status.pdfView == old(status.pdfView) && status.pdfInternals == old(status.pdfInternals)
    ensures !done && viewFound ==>
      status.pdfView && status.pdfInternals == (old(status.pdfInternals) || internalsPatched)
  {
    if status.pdfView && status.pdfInternals {
      return true;
    }
    if !viewFound {
      return false;
    }
    if !status.pdfView {
      status.pdfView := true;
    }
    if !status.pdfInternals && internalsPatched {
      status.pdfInternals := true;
    }
    return false;
  }
}
