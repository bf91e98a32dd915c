/**
 * `apiUrl`: how the client turns an API path into a request URL, given
 * the configured API base (the build-time `VITE_API_BASE`, `""` when unset).
 */
module Api {
  import opened Text

  /** `API_BASE`: the configured base with one trailing `/` removed, if there is one. */
  function ApiBase(configured: string): (base: string)
    ensures configured == base + "/" || (configured == base && !(|base| > 0 && base[|base| - 1] == '/'))
  {
    if |configured| > 0 && configured[|configured| - 1] == '/' then configured[..|configured| - 1] else configured
  }

  /** `/^https?:\/\//`. */
  predicate IsAbsoluteUrl(path: string) {
    StartsWith(path, "http://") || StartsWith(path, "https://")
  }

  /** The path with a `/` prepended unless it already starts with one. */
  function Normalize(path: string): (r: string)
    ensures StartsWith(r, "/") && !IsAbsoluteUrl(r)
    ensures StartsWith(path, "/") ==> r == path
    ensures !StartsWith(path, "/") ==> r == "/" + path
  {
    var r := if StartsWith(path, "/") then path else "/" + path;
    assert r[0] == r[..1][0] == '/';
    assert "http://"[0] != r[0] && "https://"[0] != r[0];
    r
  }

  /** `normalized.replace(/^\/api/, "")`: one leading `/api` removed. */
  function StripApiPrefix(normalized: string): (r: string)
    ensures StartsWith(normalized, "/api") ==> "/api" + r == normalized
    ensures !StartsWith(normalized, "/api") ==> r == normalized
  {
    if StartsWith(normalized, "/api") then normalized[4..] else normalized
  }

  /** `apiUrl(path)` under the configured base. */
  function ApiUrl(configured: string, path: string): (url: string)
    ensures IsAbsoluteUrl(path) ==> url == path
  {
    if IsAbsoluteUrl(path) then path
    else
      var normalized := Normalize(path);
      if ApiBase(configured) == "" then normalized
      else ApiBase(configured) + StripApiPrefix(normalized)
  }

  /** Without a base, a relative path comes out rooted at `/`, and calling `apiUrl` again changes nothing. */
  lemma ApiUrlWithoutBase(configured: string, path: string)
    requires ApiBase(configured) == ""
    ensures !IsAbsoluteUrl(path) ==> StartsWith(ApiUrl(configured, path), "/")
    ensures !IsAbsoluteUrl(path) && StartsWith(path, "/") ==> ApiUrl(configured, path) == path
    ensures ApiUrl(configured, ApiUrl(configured, path)) == ApiUrl(configured, path)
  {
    if !IsAbsoluteUrl(path) {
      var url := Normalize(path);
      assert !IsAbsoluteUrl(url);
      assert ApiUrl(configured, url) == Normalize(url);
    }
  }

  /**
   * With a base, a relative path comes out as the base followed by the
   * rooted path, less one leading `/api`; nothing else in the path changes.
   */
  lemma ApiUrlWithBase(configured: string, path: string)
    requires ApiBase(configured) != "" && !IsAbsoluteUrl(path)
    ensures exists rest :: (ApiUrl(configured, path) == ApiBase(configured) + rest
                            && (if StartsWith(Normalize(path), "/api") then Normalize(path) == "/api" + rest
                                else Normalize(path) == rest))
    ensures StartsWith(path, "/api/") ==> ApiUrl(configured, path) == ApiBase(configured) + path[4..]
  {
    var rest := StripApiPrefix(Normalize(path));
    assert ApiUrl(configured, path) == ApiBase(configured) + rest;
    if StartsWith(path, "/api/") {
      assert StartsWith(path, "/");
      assert path[..4] == "/api";
    }
  }

  /** A base configured with or without its trailing `/` gives the same URLs. */
  lemma TrailingSlashIrrelevant(configured: string, path: string)
    requires |configured| > 0 && configured[|configured| - 1] != '/'
    ensures ApiUrl(configured + "/", path) == ApiUrl(configured, path)
  {
    var c := configured + "/";
    assert c[..|c| - 1] == configured;
  }
}
