/**
  The two string helpers of config/paths.js that decide the public path the app is
  served from: `ensureSlash` and `getServedPath`. The environment variable
  `PUBLIC_URL`, the package's `homepage` field and `url.parse(...).pathname` are
  inputs; an unset value and the empty string behave alike (both are falsy).
 */
module Paths {
  import opened Wrappers
  import opened JsStrings

  predicate HasTrailingSlash(path: string)
  {
    EndsWith(path, "/")
  }

  /**
    `ensureSlash(path, needsSlash)`: appends a `/` when one is needed and missing, drops
    the last character when a `/` is present but not wanted, and otherwise returns the
    path as it is. The drop is `path.substr(path, path.length - 1)`: the start argument
    is the path itself, which JavaScript converts to NaN and then to 0 (a string ending
    in `/` never reads as a number), so the call keeps all but the last character.
   */
  function EnsureSlash(path: string, needsSlash: bool): (r: string)
    ensures needsSlash ==> HasTrailingSlash(r)
    ensures needsSlash ==> r == path || r == path + "/"
    ensures !needsSlash ==> (if HasTrailingSlash(path) then r + "/" == path else r == path)
    ensures HasTrailingSlash(path) == needsSlash ==> r == path
  {
    var hasSlash := HasTrailingSlash(path);
    if hasSlash && !needsSlash then Substr(path, 0, |path| - 1)
    else if !hasSlash && needsSlash then path + "/"
    else path
  }

  /** Asking for a slash twice changes nothing the second time. */
  lemma EnsureSlashIdempotent(path: string)
    ensures EnsureSlash(EnsureSlash(path, true), true) == EnsureSlash(path, true)
  {
  }

  /**
    Adding a slash and then removing it restores a path without one; removing and then
    adding restores a path that ends in exactly one slash (not one ending in "//").
   */
  lemma EnsureSlashRoundTrip(path: string)
    ensures !HasTrailingSlash(path) ==> EnsureSlash(EnsureSlash(path, true), false) == path
    ensures HasTrailingSlash(path) && !HasTrailingSlash(path[..|path| - 1]) ==>
      EnsureSlash(EnsureSlash(path, false), true) == path
  {
    if !HasTrailingSlash(path) {
      var s := EnsureSlash(path, true);
      assert s == path + "/";
      assert s[..|s| - 1] == path;
    } else {
      assert path == path[..|path| - 1] + "/";
    }
  }

  /**
    Removing strips one slash only: "a//" becomes "a/", which still ends in a slash, so
    removing is not idempotent.
   */
  lemma EnsureSlashStripsOnlyOne()
    ensures EnsureSlash("a//", false) == "a/"
    ensures EnsureSlash(EnsureSlash("a//", false), false) == "a"
  {
    assert HasTrailingSlash("a//");
    assert HasTrailingSlash("a/");
  }

  /** `getPublicUrl`: `PUBLIC_URL` if set and non-empty, else the `homepage` field. */
  function GetPublicUrl(envPublicUrl: string, homepage: string): (r: string)
    ensures envPublicUrl != "" ==> r == envPublicUrl
    ensures envPublicUrl == "" ==> r == homepage
    ensures r == "" <==> envPublicUrl == "" && homepage == ""
  {
    if envPublicUrl != "" then envPublicUrl else homepage
  }

  /**
    `getServedPath`: `PUBLIC_URL` if non-empty, else the pathname of the public URL if
    there is one, else "/", passed through `ensureSlash(_, true)`. `pathname` stands for
    `url.parse(_).pathname`; when it is `null`, `ensureSlash` throws on `null.endsWith`,
    which the result `None` records.
   */
  function GetServedPath(envPublicUrl: string, homepage: string, pathname: string -> Option<string>): (r: Option<string>)
    ensures r.Some? ==> HasTrailingSlash(r.value)
    ensures envPublicUrl != "" ==>
      r.Some? && (r.value == envPublicUrl || (!HasTrailingSlash(envPublicUrl) && r.value == envPublicUrl + "/"))
    ensures envPublicUrl == "" && homepage == "" ==> r == Some("/")
    ensures envPublicUrl == "" && homepage != "" ==>
      (r.None? <==> pathname(homepage).None?) &&
      (r.Some? ==>
        r.value == pathname(homepage).value ||
        (!HasTrailingSlash(pathname(homepage).value) && r.value == pathname(homepage).value + "/"))
  {
    var publicUrl := GetPublicUrl(envPublicUrl, homepage);
    var servedUrl :=
      if envPublicUrl != "" then Some(envPublicUrl)
      else if publicUrl != "" then pathname(publicUrl)
      else Some("/");
    if servedUrl.None? then None else Some(EnsureSlash(servedUrl.value, true))
  }
}
