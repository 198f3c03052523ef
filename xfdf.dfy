/**
 Resolution of the external PDF named by an XFDF annotation file
 (`getPdfPathFromXfdf`, src/utils/xfdf.ts).

 The `href` attribute of the XFDF `<f>` element names the PDF the annotations
 belong to. It is classified into one of four forms, tested in a fixed order
 (rooted drive `/G/...`, bare drive `G:...`, relative, anything else), turned
 into a `file:///` path, checked for existence, and rewritten into a host
 resource locator. Every failure is `null` in the source; here each early
 `return null` (lines 21-83) is a `Failure` saying which branch rejected the
 href. The catch-all `catch` of lines 94-97 is reached here only through a
 failed read or parse of the XFDF file, which arrives as an absent href and so
 as `NoHrefElement`; exceptions thrown by the host services are not modelled.

 The host services the source calls (`normalizePath`, Node's `path.join`,
 `existsSync`, the vault adapter's base path, `Platform.resourcePathPrefix`)
 are fields of `Env` and are left uninterpreted.
 */
module Xfdf {
  import opened Wrappers

  /** The scheme prefix every resolved path starts with. */
  const FileScheme: string := "file:///"

  /** The host services the resolver depends on. */
  datatype Env = Env(
    /** `adapter.getBasePath()`; `None` when the vault adapter is not a `FileSystemAdapter`. */
    vaultBasePath: Option<string>,
    /** Obsidian's `normalizePath`. */
    normalize: string -> string,
    /** Node's `path.join` of the vault base, the XFDF file's folder and the href. */
    join: (string, string, string) -> string,
    /** `existsSync` on a plain file-system path. */
    fileExists: string -> bool,
    /** `Platform.resourcePathPrefix`. */
    resourcePathPrefix: string)

  /** Why resolution produced `null`; each case is one early `return null`. */
  datatype ResolveError =
    | NoHrefElement               // no `<f href>` element (or the file could not be read or parsed)
    | InvalidRootedPath           // starts with `/` but not `/<letter>/`
    | NoFileSystemAdapter         // relative href in a vault without a file-system adapter
    | UnsupportedFormat(href: string)
    | TargetNotFound(systemPath: string)

  /** The successful result: the XFDF file's own path and the locator of the external PDF. */
  datatype PdfInfo = PdfInfo(path: string, externalPath: string)

  predicate StartsWith(s: string, prefix: string) {
    |prefix| <= |s| && s[..|prefix|] == prefix
  }

  /** `[A-Za-z]` */
  predicate IsAsciiLetter(c: char) {
    'A' <= c <= 'Z' || 'a' <= c <= 'z'
  }

  /** `/^\/([A-Za-z])\//`: the whole match is three characters, the group is `s[1]`.
      A match always starts with `/`, so it is tested only inside the `/` branch. */
  predicate MatchesRootedDrive(s: string)
    ensures MatchesRootedDrive(s) ==> StartsWith(s, "/") && !MatchesBareDrive(s)
  {
    |s| >= 3 && s[0] == '/' && IsAsciiLetter(s[1]) && s[2] == '/'
  }

  /** `/^[A-Za-z]:/`. A match neither starts with `/` nor lacks a `:`. */
  predicate MatchesBareDrive(s: string)
    ensures MatchesBareDrive(s) ==> !StartsWith(s, "/") && ':' in s
  {
    |s| >= 2 && IsAsciiLetter(s[0]) && s[1] == ':'
  }

  /** `s.startsWith('./') || s.startsWith('../') || !s.includes(':')` */
  predicate LooksRelative(s: string)
    ensures LooksRelative(s) && ':' in s ==> |s| >= 2 && s[0] == '.'
    ensures ':' !in s ==> LooksRelative(s)
  {
    StartsWith(s, "./") || StartsWith(s, "../") || ':' !in s
  }

  /** `s.lastIndexOf(c)`: the last index holding `c`, or -1. */
  function LastIndexOf(s: string, c: char): (k: int)
    ensures -1 <= k < |s|
    ensures k == -1 <==> c !in s
    ensures k >= 0 ==> s[k] == c
    ensures forall j :: k < j < |s| ==> s[j] != c
  {
    if |s| == 0 then -1
    else if s[|s| - 1] == c then |s| - 1
    else LastIndexOf(s[..|s| - 1], c)
  }

  /** `s.substring(0, n)` with JavaScript's clamping of a negative end to 0. */
  function Prefix(s: string, n: int): (r: string)
    ensures StartsWith(s, r)
    ensures n <= 0 ==> r == ""
    ensures 0 <= n <= |s| ==> |r| == n
    ensures n >= |s| ==> r == s
  {
    if n <= 0 then "" else if n >= |s| then s else s[..n]
  }

  /** The folder of the XFDF file relative to the vault root:
      `file.path.substring(0, file.path.lastIndexOf('/'))`. */
  function XfdfDir(path: string): (dir: string)
    ensures '/' !in path ==> dir == ""
    ensures '/' in path ==>
      |dir| < |path| && StartsWith(path, dir) && path[|dir|] == '/' &&
      '/' !in path[|dir| + 1..]
  {
    Prefix(path, LastIndexOf(path, '/'))
  }

  /** The `file:///` path built by the classification branch (lines 30-74),
      before the existence check. */
  function FinalPdfPath(href: string, xfdfPath: string, env: Env): (r: Result<string, ResolveError>)
    ensures r.Success? ==> StartsWith(r.value, FileScheme)
    ensures r.Failure? ==>
      r.error == InvalidRootedPath || r.error == NoFileSystemAdapter || r.error == UnsupportedFormat(href)
    ensures r == Failure(InvalidRootedPath) <==> StartsWith(href, "/") && !MatchesRootedDrive(href)
  {
    if StartsWith(href, "/") then
      if MatchesRootedDrive(href) then
        Success(FileScheme + [href[1]] + ":" + env.normalize(href[3..]))
      else
        Failure(InvalidRootedPath)
    else if MatchesBareDrive(href) then
      Success(FileScheme + env.normalize(href))
    else if LooksRelative(href) then
      match env.vaultBasePath
      case Some(base) => Success(FileScheme + env.normalize(env.join(base, XfdfDir(xfdfPath), href)))
      case None => Failure(NoFileSystemAdapter)
    else
      Failure(UnsupportedFormat(href))
  }

  /** `finalPdfPath.replace(/^file:\/\/\//, '')` */
  function StripFileScheme(p: string): (r: string)
    ensures StartsWith(p, FileScheme) ==> FileScheme + r == p
    ensures !StartsWith(p, FileScheme) ==> r == p
  {
    if StartsWith(p, FileScheme) then p[|FileScheme|..] else p
  }

  /** `finalPdfPath.substring(8)` */
  function DropEight(p: string): (r: string)
    ensures |r| == if |p| <= 8 then 0 else |p| - 8
    ensures forall i :: 0 <= i < |r| ==> r[i] == p[i + 8]
  {
    if |p| <= 8 then "" else p[8..]
  }

  /** `getPdfPathFromXfdf`, from the extracted `href` attribute onwards.
      `href` is `None` when the document has no `<f href>` element. */
  function Resolve(href: Option<string>, xfdfPath: string, env: Env): (r: Result<PdfInfo, ResolveError>)
    ensures href.None? <==> r == Failure(NoHrefElement)
    ensures r.Success? ==> r.value.path == xfdfPath && StartsWith(r.value.externalPath, env.resourcePathPrefix)
    ensures r.Failure? && r.error.TargetNotFound? ==> !env.fileExists(r.error.systemPath)
  {
    match href
    case None => Failure(NoHrefElement)
    case Some(h) =>
      match FinalPdfPath(h, xfdfPath, env)
      case Failure(e) => Failure(e)
      case Success(finalPath) =>
        var systemPath := StripFileScheme(finalPath);
        if !env.fileExists(systemPath) then Failure(TargetNotFound(systemPath))
        else Success(PdfInfo(xfdfPath, env.resourcePathPrefix + DropEight(finalPath)))
  }

  // ---------------------------------------------------------------------------
  // Properties of the resolver

  /** Without an `<f href>` element the result is `null` whatever the environment. */
  lemma NoHrefYieldsNull(xfdfPath: string, env: Env)
    ensures Resolve(None, xfdfPath, env) == Failure(NoHrefElement)
  {
  }

  /** An href starting with `/` is decided by the rooted-drive test alone: when it is
      not `/<letter>/...` the result is `null`; it never reaches the bare-drive or
      relative branches, whatever the vault and file system hold. */
  lemma RootedWithoutDriveIsRejected(href: string, xfdfPath: string, env: Env)
    requires StartsWith(href, "/") && !MatchesRootedDrive(href)
    ensures Resolve(Some(href), xfdfPath, env) == Failure(InvalidRootedPath)
  {
  }

  /** Rooted-drive form: the drive letter keeps its case and is followed by `:` and
      the normalized rest of the href after `/<letter>/`. */
  lemma RootedDrivePath(href: string, xfdfPath: string, env: Env)
    requires MatchesRootedDrive(href)
    ensures FinalPdfPath(href, xfdfPath, env) == Success(FileScheme + [href[1]] + ":" + env.normalize(href[3..]))
  {
  }

  /** Bare-drive form: the whole href is normalized behind `file:///`. */
  lemma BareDrivePath(href: string, xfdfPath: string, env: Env)
    requires MatchesBareDrive(href)
    ensures FinalPdfPath(href, xfdfPath, env) == Success(FileScheme + env.normalize(href))
  {
  }

  /** Relative form: resolved against the XFDF file's folder inside the vault base;
      without a file-system adapter the result is `null`. */
  lemma RelativePath(href: string, xfdfPath: string, env: Env)
    requires !StartsWith(href, "/") && LooksRelative(href)
    ensures env.vaultBasePath.None? ==> FinalPdfPath(href, xfdfPath, env) == Failure(NoFileSystemAdapter)
    ensures env.vaultBasePath.Some? ==>
      FinalPdfPath(href, xfdfPath, env) ==
      Success(FileScheme + env.normalize(env.join(env.vaultBasePath.value, XfdfDir(xfdfPath), href)))
  {
  }

  /** The empty href (`getAttribute("href") || ""`) is handled as a relative path. */
  lemma EmptyHrefIsRelative(xfdfPath: string, env: Env)
    ensures env.vaultBasePath.None? ==> FinalPdfPath("", xfdfPath, env) == Failure(NoFileSystemAdapter)
    ensures env.vaultBasePath.Some? ==>
      FinalPdfPath("", xfdfPath, env) ==
      Success(FileScheme + env.normalize(env.join(env.vaultBasePath.value, XfdfDir(xfdfPath), "")))
  {
  }

  /** Any other href (it contains `:`, has no drive prefix and is not `./` or `../`)
      is an unsupported format. */
  lemma OtherHrefIsUnsupported(href: string, xfdfPath: string, env: Env)
    requires !StartsWith(href, "/") && !MatchesBareDrive(href) && !LooksRelative(href)
    ensures Resolve(Some(href), xfdfPath, env) == Failure(UnsupportedFormat(href))
  {
  }

  /** A URL such as `http://example.com/file.pdf` is rejected as unsupported. */
  lemma UrlIsUnsupported(xfdfPath: string, env: Env)
    ensures Resolve(Some("http://example.com/file.pdf"), xfdfPath, env)
         == Failure(UnsupportedFormat("http://example.com/file.pdf"))
  {
    var h := "http://example.com/file.pdf";
    assert h[4] == ':';
    assert h[0] == 'h' && h[1] == 't';
    assert !StartsWith(h, "/") && !StartsWith(h, "./") && !StartsWith(h, "../");
    OtherHrefIsUnsupported(h, xfdfPath, env);
  }

  /** Every path a branch produces starts with `file:///`, so removing the scheme with
      the regular expression and with `substring(8)` give the same plain path. */
  lemma FinalPathHasScheme(href: string, xfdfPath: string, env: Env)
    requires FinalPdfPath(href, xfdfPath, env).Success?
    ensures var p := FinalPdfPath(href, xfdfPath, env).value;
      StartsWith(p, FileScheme) && StripFileScheme(p) == DropEight(p) && p == FileScheme + StripFileScheme(p)
  {
  }

  /** Putting `file:///` in front of a path and removing it again, either way, gives the path back. */
  lemma SchemeRoundTrip(rest: string)
    ensures var p := FileScheme + rest;
      StartsWith(p, FileScheme) && StripFileScheme(p) == rest && DropEight(p) == rest
  {
  }

  /** The existence check is consulted only after a branch has produced a path:
      when classification fails, the answer of `exists` plays no part. */
  lemma ExistsNotConsultedOnFormatFailure(href: string, xfdfPath: string, env: Env, exists': string -> bool)
    requires FinalPdfPath(href, xfdfPath, env).Failure?
    ensures Resolve(Some(href), xfdfPath, env) == Failure(FinalPdfPath(href, xfdfPath, env).error)
    ensures Resolve(Some(href), xfdfPath, env) == Resolve(Some(href), xfdfPath, env.(fileExists := exists'))
  {
  }

  /** Resolution succeeds exactly when a branch yields a path whose scheme-less form
      exists; the result then names the XFDF file itself and the resource prefix
      followed by that scheme-less path. */
  lemma ResolveSucceedsIff(href: string, xfdfPath: string, env: Env, info: PdfInfo)
    ensures Resolve(Some(href), xfdfPath, env) == Success(info) <==>
      exists rest: string ::
        FinalPdfPath(href, xfdfPath, env) == Success(FileScheme + rest) &&
        env.fileExists(rest) &&
        info == PdfInfo(xfdfPath, env.resourcePathPrefix + rest)
  {
    var fp := FinalPdfPath(href, xfdfPath, env);
    if fp.Success? {
      FinalPathHasScheme(href, xfdfPath, env);
      var rest := StripFileScheme(fp.value);
      assert fp == Success(FileScheme + rest);
      forall rest' | fp == Success(FileScheme + rest') ensures rest' == rest {
        assert (FileScheme + rest')[|FileScheme|..] == rest';
      }
    }
  }

  /** A missing target is reported with its scheme-less path, and nothing is returned. */
  lemma MissingTargetYieldsNull(href: string, xfdfPath: string, env: Env)
    requires FinalPdfPath(href, xfdfPath, env).Success?
    requires !env.fileExists(StripFileScheme(FinalPdfPath(href, xfdfPath, env).value))
    ensures Resolve(Some(href), xfdfPath, env)
         == Failure(TargetNotFound(StripFileScheme(FinalPdfPath(href, xfdfPath, env).value)))
  {
  }

  /** `/G/docs/file.pdf` with an identity `normalize` gives drive `G` and rest
      `docs/file.pdf`, joined with no separator after the colon. */
  lemma RootedDriveExample(xfdfPath: string, env: Env)
    requires forall s :: env.normalize(s) == s
    ensures FinalPdfPath("/G/docs/file.pdf", xfdfPath, env) == Success("file:///G:docs/file.pdf")
  {
    var h := "/G/docs/file.pdf";
    assert h[0] == '/' && h[1] == 'G' && h[2] == '/';
    assert StartsWith(h, "/") by { assert h[..1] == [h[0]]; }
    assert h[3..] == "docs/file.pdf";
    assert "file:///" + [h[1]] + ":" + h[3..] == "file:///G:docs/file.pdf";
  }

  /** `../pdfs/file.pdf` from `folder/note.xfdf` is joined with the folder `folder`. */
  lemma RelativeExample(env: Env)
    requires env.vaultBasePath == Some("/vault")
    ensures FinalPdfPath("../pdfs/file.pdf", "folder/note.xfdf", env)
         == Success(FileScheme + env.normalize(env.join("/vault", "folder", "../pdfs/file.pdf")))
  {
    var h := "../pdfs/file.pdf";
    assert h[0] == '.' && h[1] == '.' && h[2] == '/';
    assert !StartsWith(h, "/");
    assert StartsWith(h, "../") by { assert h[..3] == [h[0], h[1], h[2]]; }
    assert LastIndexOf("folder/note.xfdf", '/') == 6 by {
      var p := "folder/note.xfdf";
      assert p[6] == '/';
      assert forall j :: 6 < j < |p| ==> p[j] != '/';
    }
    assert XfdfDir("folder/note.xfdf") == "folder";
  }
}
