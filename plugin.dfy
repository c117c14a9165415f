/** The plugin locator of the plugins manager: parsing a user-supplied plugin
    reference into a (source, namespace, name) triple, normalising a URL to
    end in a slash, and building a plugin's configuration URL from the parsed
    triple and the configured defaults. */
module Plugins {
  import opened Wrappers
  import opened Text

  /** The two `ValueError`s `parse_url` raises. */
  datatype ParseError =
    | MissingNamespaceOrName   // a full URL with fewer than two path pieces
    | InvalidRelativePath      // a relative reference that is not `name` or `namespace/name`

  /** What `parse_url` returns: the source URL and namespace are optional. */
  datatype Locator = Locator(source: Option<String>, namespace: Option<String>, name: String)

  /** A plugin as its constructor leaves it: every field is set once. */
  datatype Plugin = Plugin(
    defaultSource: String,
    defaultNamespace: String,
    sourceUrl: String,
    namespace: String,
    name: String,
    configUrl: String)

  // ---------------------------------------------------------------------------
  // URLs of the shape scheme://host/path

  /** The pattern `http(s)?://` matched at the start of the string: `http`,
      an optional `s`, then `://`; what follows does not matter. */
  predicate IsFullUrl(s: String)
    ensures IsFullUrl(s) <==>
      && |s| >= 7 && s[..4] == "http"
      && (s[4..7] == "://" || (|s| >= 8 && s[4] == 's' && s[5..8] == "://"))
  {
    "http://" <= s || "https://" <= s
  }

  /** Index just past `://`. */
  function SchemeEnd(url: String): (n: nat)
    requires IsFullUrl(url)
    ensures 3 <= n <= |url| && url[n - 3..n] == "://"
  {
    if "http://" <= url then 7 else 8
  }

  /** The scheme, `://` and the host of a URL: everything up to the slash that
      starts its path. */
  function Origin(url: String): (o: String)
    requires IsFullUrl(url)
    ensures IsFullUrl(o) && o <= url
    ensures '/' !in url[SchemeEnd(url)..|o|]
    ensures |o| == |url| || url[|o|] == '/'
  {
    var start := SchemeEnd(url);
    var rest := url[start..];
    var host := TakeUntil(rest, '/');
    var end := start + |host|;
    assert host == url[start..end];
    assert url[..start] + url[start..end] == url[..end];
    assert end < |url| ==> url[end] == rest[|host|];
    assert IsFullUrl(url[..end]) by {
      if "http://" <= url { assert url[..end][..7] == url[..7]; }
      else { assert url[..end][..8] == url[..8]; }
    }
    url[..end]
  }

  /** `_trim_url`: the same URL with the last two pieces of its path removed;
      when the path has at most two pieces it becomes `/`. */
  function TrimUrl(url: String): (r: String)
    requires IsFullUrl(url)
    ensures Origin(url) + "/" <= r
    ensures IsFullUrl(r)
  {
    var path := url[|Origin(url)|..];
    var pieces := Split(Strip(path, Only('/')), '/');
    var kept := if |pieces| > 2 then Join(pieces[..|pieces| - 2], '/') else [];
    Origin(url) + "/" + kept
  }

  /** The pieces `_trim_url` keeps of a path without upper-case letters have
      none either. */
  lemma {:induction false} KeptNoUpper(path: String)
    requires NoUpper(path)
    ensures var pieces := Split(Strip(path, Only('/')), '/');
      |pieces| > 2 ==> NoUpper(Join(pieces[..|pieces| - 2], '/'))
  {
    StripNoUpper(path, Only('/'));
    var pieces := Split(Strip(path, Only('/')), '/');
    SplitNoUpper(Strip(path, Only('/')), '/');
    if |pieces| > 2 {
      JoinNoUpper(pieces[..|pieces| - 2], '/');
    }
  }

  lemma {:induction false} TrimUrlNoUpper(url: String)
    requires IsFullUrl(url) && NoUpper(url)
    ensures NoUpper(TrimUrl(url))
  {
    var o := Origin(url);
    assert NoUpper(o) by {
      forall i | 0 <= i < |o| ensures !IsUpper(o[i]) {
        assert o[i] == url[i];
      }
    }
    var path := url[|o|..];
    assert NoUpper(path) by {
      forall i | 0 <= i < |path| ensures !IsUpper(path[i]) {
        assert path[i] == url[|o| + i];
      }
    }
    KeptNoUpper(path);
    var pieces := Split(Strip(path, Only('/')), '/');
    var kept: String := if |pieces| > 2 then Join(pieces[..|pieces| - 2], '/') else [];
    assert NoUpper(kept);
    assert TrimUrl(url) == o + "/" + kept;
    NoUpperAppend(o, "/");
    NoUpperAppend(o + "/", kept);
  }

  // ---------------------------------------------------------------------------
  // parse_url

  /** The `/`-separated pieces `parse_url` works on: those of the reference
      lower-cased and stripped of surrounding whitespace. Stripping and
      lower-casing remove no slash, so there is one piece more than the input
      has slashes. */
  function Pieces(input: String): (r: seq<String>)
    ensures Join(r, '/') == Strip(Lower(input), Whitespace)
    ensures |r| == Count(input, '/') + 1
    ensures forall k :: 0 <= k < |r| ==> NoUpper(r[k]) && '/' !in r[k]
  {
    var stripped := Strip(Lower(input), Whitespace);
    StripNoUpper(Lower(input), Whitespace);
    SplitNoUpper(stripped, '/');
    CountLower(input);
    CountStrip(Lower(input), Whitespace, '/');
    Split(stripped, '/')
  }

  /** `Plugin.parse_url`. The input is lower-cased first. A full URL
      `http(s)://host/namespace/name[/...]` gives its trimmed source and its
      first two path pieces; anything else is split at `/`, empty pieces are
      dropped, and one piece is a name, two are a namespace and a name. */
  function ParseUrl(input: String): (r: Result<Locator, ParseError>)
    // everything returned is lower case
    ensures r.Ok? ==> NoUpper(r.value.name)
    ensures r.Ok? && r.value.source.Some? ==> NoUpper(r.value.source.value)
    ensures r.Ok? && r.value.namespace.Some? ==> NoUpper(r.value.namespace.value)
    // namespace and name are single path pieces
    ensures r.Ok? ==> '/' !in r.value.name
    ensures r.Ok? && r.value.namespace.Some? ==> '/' !in r.value.namespace.value
    // a source is returned exactly for full URLs, and is itself a full URL
    ensures r.Ok? ==> (r.value.source.Some? <==> IsFullUrl(Lower(input)))
    ensures r.Ok? && r.value.source.Some? ==> r.value.namespace.Some? && IsFullUrl(r.value.source.value)
    // a relative reference never yields an empty namespace or name
    ensures r.Ok? && r.value.source.None? ==>
      r.value.name != [] && (r.value.namespace.Some? ==> r.value.namespace.value != [])
    // each branch raises its own error
    ensures r.Err? ==> (r.error == MissingNamespaceOrName <==> IsFullUrl(Lower(input)))
  {
    var lowered := Lower(input);
    if IsFullUrl(lowered) then
      // the first three pieces are the scheme with its colon, the empty piece
      // between the two slashes, and the host
      var parts := SliceFrom(Pieces(input), 3);
      if |parts| < 2 then Err(MissingNamespaceOrName)
      else
        TrimUrlNoUpper(lowered);
        Ok(Locator(Some(TrimUrl(lowered)), Some(parts[0]), parts[1]))
    else
      // Only non-empty pieces survive, so the final replacement of empty
      // values by `None` changes nothing on this branch.
      var parts := DropEmpty(Pieces(input));
      if |parts| == 1 then Ok(Locator(None, None, parts[0]))
      else if |parts| == 2 then Ok(Locator(None, Some(parts[0]), parts[1]))
      else Err(InvalidRelativePath)
  }

  /** The full-URL branch of `parse_url` on an input with nothing to lower-case
      and nothing to strip. */
  lemma {:induction false} ParseUrlFullBranchPlain(input: String)
    requires Lower(input) == input && Strip(input, Whitespace) == input
    requires IsFullUrl(input)
    ensures var parts := SliceFrom(Split(input, '/'), 3);
      ParseUrl(input) == if |parts| < 2 then Err(MissingNamespaceOrName)
                         else Ok(Locator(Some(TrimUrl(input)), Some(parts[0]), parts[1]))
  {
    assert Pieces(input) == Split(input, '/');
  }

  /** Lower-casing twice is lower-casing once, so a reference and its
      lower-cased form have the same pieces. */
  lemma {:induction false} PiecesIgnoreCase(input: String)
    ensures Lower(Lower(input)) == Lower(input)
    ensures Pieces(Lower(input)) == Pieces(input)
  {
    var lowered := Lower(input);
    assert NoUpper(lowered);
  }

  /** `parse_url` lower-cases first, so a reference and its lower-cased form
      are parsed alike: upper case in the input never matters. */
  lemma {:induction false} ParseUrlIgnoresCase(input: String)
    ensures ParseUrl(input) == ParseUrl(Lower(input))
  {
    PiecesIgnoreCase(input);
  }

  /** The relative branch of `parse_url`. */
  lemma {:induction false} ParseUrlRelativeBranch(input: String)
    requires !IsFullUrl(Lower(input))
    ensures var parts := DropEmpty(Pieces(input));
      ParseUrl(input) == if |parts| == 1 then Ok(Locator(None, None, parts[0]))
                         else if |parts| == 2 then Ok(Locator(None, Some(parts[0]), parts[1]))
                         else Err(InvalidRelativePath)
  {
  }

  // ---------------------------------------------------------------------------
  // add_trailing_slash and the constructor

  /** `Plugin.add_trailing_slash`: the shortest extension of `url` that ends in
      a slash — `url` itself if it already does, otherwise `url + "/"`. */
  function AddTrailingSlash(url: String): (r: String)
    ensures url <= r && EndsWith(r, '/')
    ensures |r| <= |url| + 1
    ensures EndsWith(url, '/') ==> r == url
  {
    if EndsWith(url, '/') then url else url + "/"
  }

  lemma {:induction false} AddTrailingSlashIdempotent(url: String)
    ensures AddTrailingSlash(AddTrailingSlash(url)) == AddTrailingSlash(url)
    ensures !EndsWith(url, '/') ==> AddTrailingSlash(url) == url + "/"
  {
  }

  /** Python truthiness of an optional string: present and not empty. Of
      the values `parse_url` can return, only `None` and `''` are falsy. */
  predicate Truthy(o: Option<String>)
    ensures Truthy(o) <==> o != None && o != Some([])
  {
    o.Some? && o.value != []
  }

  /** `Plugin.__init__`: parse the reference, fill a missing (or empty) source
      and namespace from the defaults, keep the name, and form the
      configuration URL `source/namespace/name` with a trailing slash. A
      reference `parse_url` rejects constructs no plugin. */
  function NewPlugin(pluginUrl: String, defaultSource: String, defaultNamespace: String)
    : (r: Result<Plugin, ParseError>)
    ensures ParseUrl(pluginUrl).Err? ==> r == Err(ParseUrl(pluginUrl).error)
    ensures ParseUrl(pluginUrl).Ok? ==> r.Ok?
    ensures r.Ok? ==>
      var loc, p := ParseUrl(pluginUrl).value, r.value;
      && p.defaultSource == defaultSource
      && p.defaultNamespace == defaultNamespace
      && p.sourceUrl == (if Truthy(loc.source) then loc.source.value else defaultSource)
      && p.namespace == (if Truthy(loc.namespace) then loc.namespace.value else defaultNamespace)
      && p.name == loc.name
    ensures r.Ok? ==>
      var p := r.value;
      var path := p.sourceUrl + "/" + p.namespace + "/" + p.name;
      && EndsWith(p.configUrl, '/')
      && path <= p.configUrl
      && |p.configUrl| <= |path| + 1
      && (EndsWith(path, '/') ==> p.configUrl == path)
  {
    match ParseUrl(pluginUrl)
    case Err(e) => Err(e)
    case Ok(loc) =>
      var sourceUrl := if Truthy(loc.source) then loc.source.value else defaultSource;
      var namespace := if Truthy(loc.namespace) then loc.namespace.value else defaultNamespace;
      var configUrl := AddTrailingSlash(sourceUrl + "/" + namespace + "/" + loc.name);
      Ok(Plugin(defaultSource, defaultNamespace, sourceUrl, namespace, loc.name, configUrl))
  }

  // ---------------------------------------------------------------------------
  // Fetching the configuration

  /** The `ValueError` raised when the configuration URL answers with another
      status. */
  datatype FetchError = FetchFailed(status: int)

  /** The status check of `_fetch_plugin_configs`: only 200 and 308 are
      accepted, and a rejected status is reported in the error. */
  function CheckFetchStatus(status: int): (r: Result<int, FetchError>)
    ensures r.Ok? <==> status == 200 || status == 308
    ensures r.Ok? ==> r.value == status
    ensures r.Err? ==> r.error.status == status
  {
    if status !in [200, 308] then Err(FetchFailed(status)) else Ok(status)
  }
}
