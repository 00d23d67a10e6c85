/** How the web client turns a request path into a URL against the configured
    API base (`NEXT_PUBLIC_API_BASE_URL`, the empty string when unset). */
module ApiUrl {
  import opened Common

  predicate IsAbsolute(path: string) {
    StartsWith(path, "http://") || StartsWith(path, "https://")
  }

  /** `base.replace(/\/$/, "")`: one trailing slash removed. */
  function DropTrailingSlash(base: string): (r: string)
    ensures r == base || r + "/" == base
  {
    if |base| > 0 && base[|base| - 1] == '/' then base[..|base| - 1] else base
  }

  /** `resolveUrl(path)`: absolute URLs and every path under an unset base are
      used as they are; otherwise the base and the path are joined with exactly
      the one slash the path may already begin with. */
  function ResolveUrl(base: string, path: string): (r: string)
    ensures IsAbsolute(path) || base == "" ==> r == path
    ensures !IsAbsolute(path) && base != "" && StartsWith(path, "/") ==> r == DropTrailingSlash(base) + path
    ensures !IsAbsolute(path) && base != "" && !StartsWith(path, "/") ==> r == DropTrailingSlash(base) + "/" + path
  {
    if IsAbsolute(path) then path
    else if base == "" then path
    else DropTrailingSlash(base) + (if StartsWith(path, "/") then "" else "/") + path
  }

  /** A relative path resolves to the same URL with or without its leading slash. */
  lemma LeadingSlashIrrelevant(base: string, path: string)
    requires !IsAbsolute(path) && !StartsWith(path, "/") && base != ""
    ensures ResolveUrl(base, "/" + path) == ResolveUrl(base, path)
  {
    var q := "/" + path;
    SlashPathNotAbsolute(q);
    assert StartsWith(q, "/");
    assert DropTrailingSlash(base) + q == DropTrailingSlash(base) + "/" + path;
  }

  /** A path that begins with a slash is not an absolute URL. */
  lemma SlashPathNotAbsolute(q: string)
    requires |q| > 0 && q[0] == '/'
    ensures !IsAbsolute(q)
  {
    if |q| >= 7 {
      assert q[..7][0] == '/';
    }
    if |q| >= 8 {
      assert q[..8][0] == '/';
    }
  }

  /** A base resolves paths the same way with or without one trailing slash. */
  lemma TrailingSlashIrrelevant(base: string, path: string)
    requires base != "" && base[|base| - 1] != '/'
    ensures ResolveUrl(base + "/", path) == ResolveUrl(base, path)
  {
    assert (base + "/")[..|base|] == base;
  }
}
