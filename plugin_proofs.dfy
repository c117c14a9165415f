/** What `parse_url` and the plugin constructor do to references built from
    their parts: full URLs, relative references, the error conditions, and the
    plugin the test fixture serves. */
module PluginProofs {
  import opened Wrappers
  import opened Text
  import opened Plugins

  /** `scheme://host/path`. */
  function UrlOf(scheme: String, host: String, path: String): String
  {
    scheme + "://" + host + "/" + path
  }

  /** The parts of a lower-case full URL `scheme://host/seg0/.../segN` with
      at least two path pieces: an http(s) scheme, a host without a slash, and
      path pieces without slashes, any of them possibly empty; the URL does not
      end in whitespace. */
  predicate LowerUrlParts(scheme: String, host: String, segs: seq<String>) {
    && (scheme == "http" || scheme == "https")
    && NoUpper(host) && '/' !in host
    && |segs| >= 2
    && (forall k :: 0 <= k < |segs| ==> '/' !in segs[k] && NoUpper(segs[k]))
    && EndsInNonSpace(Join(segs, '/'))
  }

  /** The string has a last character, and it is not whitespace. */
  predicate EndsInNonSpace(s: String) {
    s != [] && !IsSpace(s[|s| - 1])
  }

  /** The path `_trim_url` keeps of the path pieces `segs`: empty pieces at
      either end are stripped with the slashes, and of the rest all but the
      last two remain, joined by slashes. */
  function SourcePath(segs: seq<String>): String
  {
    var core := TrimEmpty(segs);
    if |core| > 2 then Join(core[..|core| - 2], '/') else []
  }

  lemma {:induction false} FullUrlStart(scheme: String, host: String, path: String)
    requires scheme == "http" || scheme == "https"
    ensures IsFullUrl(UrlOf(scheme, host, path))
    ensures SchemeEnd(UrlOf(scheme, host, path)) == |scheme| + 3
  {
    var url := UrlOf(scheme, host, path);
    assert url == (scheme + "://") + (host + "/" + path);
    if scheme == "http" {
      assert "http://" <= url;
    } else {
      assert url[4] == 's';
      assert "https://" <= url;
    }
  }

  lemma {:induction false} FullUrlIsLower(scheme: String, host: String, path: String)
    requires scheme == "http" || scheme == "https"
    requires NoUpper(host) && NoUpper(path)
    ensures Lower(UrlOf(scheme, host, path)) == UrlOf(scheme, host, path)
  {
  }

  lemma {:induction false} FullUrlIsStripped(scheme: String, host: String, path: String)
    requires scheme == "http" || scheme == "https"
    requires path != [] && !IsSpace(path[|path| - 1])
    ensures Strip(UrlOf(scheme, host, path), Whitespace) == UrlOf(scheme, host, path)
  {
    var url := UrlOf(scheme, host, path);
    assert url == (scheme + "://" + host + "/") + path;
    assert url[0] == 'h';
    assert url[|url| - 1] == path[|path| - 1];
  }

  lemma {:induction false} FullUrlPieces(scheme: String, host: String, path: String)
    requires '/' !in scheme && '/' !in host
    ensures Split(UrlOf(scheme, host, path), '/') == [scheme + ":", [], host] + Split(path, '/')
  {
    var url := UrlOf(scheme, host, path);
    assert url == (scheme + ":") + ['/'] + ([] + ['/'] + (host + ['/'] + path));
    SplitAppend(scheme + ":", [] + ['/'] + (host + ['/'] + path), '/');
    SplitAppend([], host + ['/'] + path, '/');
    SplitAppend(host, path, '/');
    SplitNoSep(scheme + ":", '/');
    SplitNoSep(host, '/');
  }

  lemma {:induction false} FullUrlOrigin(scheme: String, host: String, path: String)
    requires scheme == "http" || scheme == "https"
    requires '/' !in host
    ensures IsFullUrl(UrlOf(scheme, host, path))
    ensures Origin(UrlOf(scheme, host, path)) == scheme + "://" + host
  {
    var url := UrlOf(scheme, host, path);
    FullUrlStart(scheme, host, path);
    var start := SchemeEnd(url);
    assert url[start..] == host + ['/'] + path;
    TakeUntilPrefix(host, path, '/');
  }

  /** `_trim_url` on any full URL: the scheme and host, a slash, and the kept
      part of the path pieces. */
  lemma {:induction false} TrimUrlPieces(url: String)
    requires IsFullUrl(url)
    ensures TrimUrl(url) == Origin(url) + "/" + SourcePath(Split(url[|Origin(url)|..], '/'))
  {
    var path := url[|Origin(url)|..];
    var segs := Split(path, '/');
    StripJoin(segs, '/');
    var core := TrimEmpty(segs);
    var pieces := Split(Strip(path, Only('/')), '/');
    assert pieces == Split(Join(core, '/'), '/');
    if core == [] {
      assert Join(core, '/') == [];
      assert |pieces| == 1;
    } else {
      SplitJoin(core, '/');
    }
  }

  /** Past its scheme and host, a full URL is a slash and its path. */
  lemma {:induction false} FullUrlRest(scheme: String, host: String, path: String)
    requires scheme == "http" || scheme == "https"
    requires '/' !in host
    ensures IsFullUrl(UrlOf(scheme, host, path))
    ensures Origin(UrlOf(scheme, host, path)) == scheme + "://" + host
    ensures UrlOf(scheme, host, path)[|Origin(UrlOf(scheme, host, path))|..] == "/" + path
  {
    var url := UrlOf(scheme, host, path);
    FullUrlOrigin(scheme, host, path);
    assert url == (scheme + "://" + host) + ("/" + path);
  }

  /** A path with a leading slash splits into an empty piece and the pieces
      after it, and that empty piece is trimmed away with the others. */
  lemma {:induction false} RootedPathPieces(segs: seq<String>)
    requires |segs| >= 1 && forall k :: 0 <= k < |segs| ==> '/' !in segs[k]
    ensures SourcePath(Split("/" + Join(segs, '/'), '/')) == SourcePath(segs)
  {
    var withRoot := [[]] + segs;
    assert withRoot[1..] == segs;
    assert Join(withRoot, '/') == "/" + Join(segs, '/');
    SplitJoin(withRoot, '/');
    assert DropLeadingEmpty(withRoot) == DropLeadingEmpty(segs);
  }

  /** `_trim_url` on `scheme://host/seg0/.../segN`: the path pieces lose the
      empty ones at either end and then their last two. */
  lemma {:induction false} TrimFullUrl(scheme: String, host: String, segs: seq<String>)
    requires scheme == "http" || scheme == "https"
    requires '/' !in host
    requires |segs| >= 1 && forall k :: 0 <= k < |segs| ==> '/' !in segs[k]
    ensures IsFullUrl(UrlOf(scheme, host, Join(segs, '/')))
    ensures TrimUrl(UrlOf(scheme, host, Join(segs, '/'))) == UrlOf(scheme, host, SourcePath(segs))
  {
    var url := UrlOf(scheme, host, Join(segs, '/'));
    FullUrlRest(scheme, host, Join(segs, '/'));
    RootedPathPieces(segs);
    TrimUrlPieces(url);
  }

  /** The path of a full URL built from lower-case parts has no upper-case
      letter and does not end in whitespace. */
  lemma {:induction false} LowerUrlPath(scheme: String, host: String, segs: seq<String>)
    requires LowerUrlParts(scheme, host, segs)
    ensures NoUpper(Join(segs, '/')) && EndsInNonSpace(Join(segs, '/'))
  {
    JoinNoUpper(segs, '/');
  }

  /** A full URL built from lower-case parts has nothing to lower-case and,
      when it does not end in whitespace, nothing to strip. */
  lemma {:induction false} FullUrlPlain(scheme: String, host: String, path: String)
    requires scheme == "http" || scheme == "https"
    requires NoUpper(host) && NoUpper(path) && EndsInNonSpace(path)
    ensures var url := UrlOf(scheme, host, path);
      IsFullUrl(url) && Lower(url) == url && Strip(url, Whitespace) == url
  {
    FullUrlStart(scheme, host, path);
    FullUrlIsLower(scheme, host, path);
    FullUrlIsStripped(scheme, host, path);
  }

  /** Past `scheme:`, the empty piece and the host, the pieces of a full URL
      are its path pieces. */
  lemma {:induction false} FullUrlPathPieces(scheme: String, host: String, segs: seq<String>)
    requires LowerUrlParts(scheme, host, segs)
    ensures SliceFrom(Split(UrlOf(scheme, host, Join(segs, '/')), '/'), 3) == segs
  {
    FullUrlPieces(scheme, host, Join(segs, '/'));
    SplitJoin(segs, '/');
  }

  /** A full URL `scheme://host/seg0/seg1/.../segN` parses to the namespace
      `seg0`, the name `seg1`, and the source `scheme://host/` followed by the
      path `_trim_url` keeps. Empty pieces are returned as they are: on this
      branch an empty namespace is not replaced by `None`. */
  lemma {:induction false} ParseFullUrl(scheme: String, host: String, segs: seq<String>)
    requires LowerUrlParts(scheme, host, segs)
    ensures ParseUrl(UrlOf(scheme, host, Join(segs, '/')))
         == Ok(Locator(Some(UrlOf(scheme, host, SourcePath(segs))), Some(segs[0]), segs[1]))
  {
    var url := UrlOf(scheme, host, Join(segs, '/'));
    LowerUrlPath(scheme, host, segs);
    FullUrlPlain(scheme, host, Join(segs, '/'));
    FullUrlPathPieces(scheme, host, segs);
    TrimFullUrl(scheme, host, segs);
    ParseUrlFullBranchPlain(url);
  }

  /** A full URL is rejected exactly when it holds fewer than four slashes,
      that is, fewer than two pieces after `scheme://host/`. */
  lemma {:induction false} FullUrlRejectedIffFewSlashes(input: String)
    requires IsFullUrl(Lower(input))
    ensures ParseUrl(input).Err? <==> Count(input, '/') < 4
    ensures ParseUrl(input).Err? ==> ParseUrl(input).error == MissingNamespaceOrName
  {
  }

  /** Lower-casing leaves whitespace padding alone, and a middle part that
      neither starts nor ends with whitespace still does not afterwards. */
  lemma {:induction false} LowerPadded(lead: String, s: String, trail: String)
    requires forall i :: 0 <= i < |lead| ==> IsSpace(lead[i])
    requires forall i :: 0 <= i < |trail| ==> IsSpace(trail[i])
    requires s == [] || (!IsSpace(s[0]) && !IsSpace(s[|s| - 1]))
    ensures Lower(lead + s + trail) == lead + Lower(s) + trail
    ensures var ls := Lower(s); ls == [] || (!IsSpace(ls[0]) && !IsSpace(ls[|ls| - 1]))
  {
    LowerAppend(lead + s, trail);
    LowerAppend(lead, s);
    assert NoUpper(lead) && NoUpper(trail);
  }

  /** The pieces of a relative reference `lead + p0/p1/.../pN + trail`, where
      `lead` and `trail` are whitespace and the middle part neither starts nor
      ends with it, are the lower-cased `p0`, ..., `pN`. */
  lemma {:induction false} RelativePieces(lead: String, p: seq<String>, trail: String)
    requires |p| >= 1
    requires forall k :: 0 <= k < |p| ==> '/' !in p[k]
    requires forall i :: 0 <= i < |lead| ==> IsSpace(lead[i])
    requires forall i :: 0 <= i < |trail| ==> IsSpace(trail[i])
    requires var s := Join(p, '/'); s == [] || (!IsSpace(s[0]) && !IsSpace(s[|s| - 1]))
    ensures Pieces(lead + Join(p, '/') + trail) == LowerAll(p)
  {
    var s := Join(p, '/');
    LowerPadded(lead, s, trail);
    LowerJoin(p);
    StripPadded(lead, Lower(s), trail, Whitespace);
    SplitJoin(LowerAll(p), '/');
  }

  /** A relative reference is its non-empty `/`-separated pieces, lower-cased:
      one piece is a name, two are a namespace and a name, any other number is
      rejected. Empty pieces (leading, trailing or doubled slashes) and
      surrounding whitespace are ignored. */
  lemma {:induction false} ParseRelative(lead: String, p: seq<String>, trail: String)
    requires |p| >= 1
    requires forall k :: 0 <= k < |p| ==> '/' !in p[k]
    requires forall i :: 0 <= i < |lead| ==> IsSpace(lead[i])
    requires forall i :: 0 <= i < |trail| ==> IsSpace(trail[i])
    requires var s := Join(p, '/'); s == [] || (!IsSpace(s[0]) && !IsSpace(s[|s| - 1]))
    requires !IsFullUrl(Lower(lead + Join(p, '/') + trail))
    ensures var input, q := lead + Join(p, '/') + trail, DropEmpty(LowerAll(p));
      && (|q| == 1 ==> ParseUrl(input) == Ok(Locator(None, None, q[0])))
      && (|q| == 2 ==> ParseUrl(input) == Ok(Locator(None, Some(q[0]), q[1])))
      && (|q| != 1 && |q| != 2 ==> ParseUrl(input) == Err(InvalidRelativePath))
  {
    RelativePieces(lead, p, trail);
    ParseUrlRelativeBranch(lead + Join(p, '/') + trail);
  }

  /** The plugin the test fixture serves at `/demo-namespace/demo-plugin`,
      referred to by its full URL on the fixture's host. */
  lemma {:induction false} ParseFixtureUrl(host: String, ns: String, name: String)
    requires host == "localhost:5001" && ns == "demo-namespace" && name == "demo-plugin"
    ensures ParseUrl("http://" + host + "/" + ns + "/" + name)
         == Ok(Locator(Some("http://" + host + "/"), Some(ns), name))
  {
    var segs := [ns, name];
    assert NoUpper(host) && '/' !in host;
    assert NoUpper(ns) && '/' !in ns;
    assert NoUpper(name) && '/' !in name;
    assert !IsSpace(name[|name| - 1]);
    assert Join(segs, '/') == ns + "/" + name;
    assert "http" + "://" == "http://";
    assert UrlOf("http", host, Join(segs, '/')) == "http://" + host + "/" + ns + "/" + name;
    assert TrimEmpty(segs) == segs;
    assert SourcePath(segs) == [];
    assert UrlOf("http", host, []) == "http://" + host + "/";
    ParseFullUrl("http", host, segs);
  }

  /** A relative reference names no source, so the plugin uses the default. */
  lemma {:induction false} RelativePluginUsesDefaultSource(pluginUrl: String, defaultSource: String, defaultNamespace: String)
    requires !IsFullUrl(Lower(pluginUrl))
    ensures var r := NewPlugin(pluginUrl, defaultSource, defaultNamespace);
      r.Ok? ==> r.value.sourceUrl == defaultSource
  {
  }

  /** A full URL always supplies its own source, the trimmed URL, so the
      default source is never used for it. */
  lemma {:induction false} FullUrlPluginKeepsSource(pluginUrl: String, defaultSource: String, defaultNamespace: String)
    requires IsFullUrl(Lower(pluginUrl))
    ensures var r := NewPlugin(pluginUrl, defaultSource, defaultNamespace);
      r.Ok? ==> r.value.sourceUrl == TrimUrl(Lower(pluginUrl))
  {
  }

  /** The plugin built from a reference `parse_url` accepts, field by field. */
  lemma {:induction false} NewPluginOfLocator(pluginUrl: String, defaultSource: String, defaultNamespace: String, loc: Locator)
    requires ParseUrl(pluginUrl) == Ok(loc)
    ensures var sourceUrl := if Truthy(loc.source) then loc.source.value else defaultSource;
      var namespace := if Truthy(loc.namespace) then loc.namespace.value else defaultNamespace;
      NewPlugin(pluginUrl, defaultSource, defaultNamespace)
        == Ok(Plugin(defaultSource, defaultNamespace, sourceUrl, namespace, loc.name,
                     AddTrailingSlash(sourceUrl + "/" + namespace + "/" + loc.name)))
  {
  }

  /** Two slashes appended one at a time are the two-slash string; stated for
      any prefix, since the solver handles the general case more cheaply than
      the same fact about a literal URL. */
  lemma {:induction false} DoubleSlash(s: String)
    ensures s + "/" + "/" == s + "//"
  {
  }

  /** A reference whose source is `http://host/` gives a configuration URL
      with two slashes after the host. */
  lemma {:induction false} ConfigUrlAfterRootSource(pluginUrl: String, host: String, ns: String, name: String,
                                                    defaultSource: String, defaultNamespace: String)
    requires ParseUrl(pluginUrl) == Ok(Locator(Some("http://" + host + "/"), Some(ns), name))
    requires ns != [] && name != [] && name[|name| - 1] != '/'
    ensures NewPlugin(pluginUrl, defaultSource, defaultNamespace)
         == Ok(Plugin(defaultSource, defaultNamespace, "http://" + host + "/", ns, name,
                      "http://" + host + "//" + ns + "/" + name + "/"))
  {
    var src := "http://" + host + "/";
    NewPluginOfLocator(pluginUrl, defaultSource, defaultNamespace, Locator(Some(src), Some(ns), name));
    var path := src + "/" + ns + "/" + name;
    assert path == (src + "/" + ns + "/") + name;
    AddTrailingSlashIdempotent(path);
    DoubleSlash("http://" + host);
  }

  /** The fixture's plugin, referred to by its full URL: its source keeps the
      trailing slash `_trim_url` leaves, so the configuration URL has two
      slashes after the host. */
  lemma {:induction false} FixturePlugin(host: String, ns: String, name: String, defaultSource: String, defaultNamespace: String)
    requires host == "localhost:5001" && ns == "demo-namespace" && name == "demo-plugin"
    ensures NewPlugin("http://" + host + "/" + ns + "/" + name, defaultSource, defaultNamespace)
         == Ok(Plugin(defaultSource, defaultNamespace, "http://" + host + "/", ns, name,
                      "http://" + host + "//" + ns + "/" + name + "/"))
  {
    ParseFixtureUrl(host, ns, name);
    ConfigUrlAfterRootSource("http://" + host + "/" + ns + "/" + name, host, ns, name, defaultSource, defaultNamespace);
  }
}
