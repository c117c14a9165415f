# Plugin locator and webhook interceptor, modelled in Dafny

This project models two parts of a FastAPI service. The first is the
plugins manager's plugin locator. The second is the webhook interceptor that
sits in front of every request.

**Plugin locator** (`api/plugins_manager/plugin.py`). A user names a plugin by
one of three forms of reference:

- a full URL, `http(s)://host/namespace/name[/...]`;
- a relative `namespace/name`;
- a bare `name`.

`Plugin.parse_url` turns the reference into a `(source, namespace, name)`
triple:

- it lower-cases the reference;
- it tells full URLs from relative ones with the pattern `http(s)?://`;
- it takes the namespace and the name of a full URL from its first two path
  pieces, and trims the source URL (`_trim_url`) to the URL without its last
  two path pieces;
- it splits a relative reference at `/` and drops empty pieces.

`Plugin.__init__` fills a missing or empty source and namespace from the
configured defaults. It then builds the configuration URL
`source/namespace/name` with a trailing slash (`add_trailing_slash`).

This code is pure, so it is modelled by datatypes and functions:

- `Plugins.ParseUrl` returns a `Result`. The source's two `ValueError`s are
  `ParseError` values.
- `Plugins.NewPlugin` returns the constructed `Plugin` or the parse error.
- The Python string operations these depend on are modelled in module `Text`:
  `lower`, `upper`, `strip()`, `strip('/')`, `split`, `join`, `[n:]` slicing
  and the filtering of empty pieces.

**Webhook interceptor** (`webhook/middleware.py`). `WebhooksMiddleware.dispatch`
works in these steps:

1. It calls the downstream application.
2. It drains the response's body iterator chunk by chunk into one byte buffer.
3. It logs the path, the upper-cased method and the status.
4. It schedules the background webhook worker with the request and the
   response.
5. It returns a new response with the downstream status, `dict(headers)` and
   the buffered body.

Any exception on the way is logged and answered with
`Response("Internal Server Error", status_code=500)`.

This code works step by step, so it is modelled imperatively:

- `Webhook.DrainBody` is a method with the accumulating loop. It is proved
  against the specification function `Concat`.
- `Webhook.WebhooksMiddleware` is a class with a ghost trace `effects` of what
  it logged and handed off.
- `Dispatch` is its method, and its `modifies` clause covers that trace.

What the downstream application does is a parameter, `CallResult`:

- `call_next` may raise;
- the body iterator may raise after some chunks (`StreamEnd`);
- scheduling the worker may raise (`handOffRaises`).

Module layout: `wrappers.dfy` (`Option`, `Result`), `text.dfy` (string
operations), `plugin.dfy` (the locator), `plugin_proofs.dfy` (what the locator
does to references built from their parts, and the test fixture's plugin),
`middleware.dfy` (the interceptor).

### Consequences of the code as written

- The re-emitted headers are `dict(response.headers)`, which keeps one value
  per header name: the first one. So a response with two `set-cookie` fields
  is re-emitted with only the first. `Webhook.HeaderDict` models this.
  - `Webhook.RepeatedHeaderCollapses` shows the loss.
  - `Webhook.HeaderDictDistinct` shows that headers with distinct names come
    through unchanged.
  - The post-condition of `Dispatch` states both facts.
- An exception while scheduling the worker falls into the same `except` as
  any other and yields the 500 response.
- The worker receives the downstream response object after the middleware has
  run its body iterator to the end, and not the captured bytes. So the worker
  finds nothing left to read in that response's body. `Webhook.Drained` is that
  response: same status and headers, an exhausted iterator.
- A full URL's trimmed source keeps its trailing slash, for example
  `http://localhost:5001/`. So the configuration URL built from it has two
  slashes after the host: `http://localhost:5001//demo-namespace/demo-plugin/`.
  `PluginProofs.FixturePlugin` proves this for the test fixture's plugin.

## Model

| member | source | states |
|---|---|---|
| Text.Lower | api/plugins_manager/plugin.py:45 | `lower()` keeps the length, maps each character to its lower-case partner, leaves no upper-case letter, and is the identity on strings without one |
| Text.Upper | webhook/middleware.py:24 | `upper()` keeps the length, maps each character to its upper-case partner, and leaves no lower-case letter |
| Text.LowerAppend | api/plugins_manager/plugin.py:45 | lower-casing distributes over concatenation |
| Text.Strip | api/plugins_manager/plugin.py:39 | `strip()` / `strip('/')`: neither end of the result is of the stripped class, and a string whose ends are not is returned unchanged |
| Text.StripInfix | api/plugins_manager/plugin.py:51 | stripping keeps the contiguous infix that starts after the leading run of the class, and removes only stripped-class characters on both sides |
| Text.StripJoin | api/plugins_manager/plugin.py:39 | `strip('/')` of slash-joined pieces is the join of the pieces without the empty ones at either end; the inner pieces, empty ones included, are kept |
| Text.StripPadded | api/plugins_manager/plugin.py:64 | `strip()` of a string padded on both sides with whitespace gives back the string, when that neither starts nor ends with whitespace |
| Text.LowerJoin | api/plugins_manager/plugin.py:45 | lower-casing joined pieces lower-cases each piece and keeps them slash-free |
| Text.CountStrip | api/plugins_manager/plugin.py:51 | `strip()` removes no character outside the stripped class, so it keeps the number of slashes |
| Text.CountLower | api/plugins_manager/plugin.py:45 | lower-casing keeps the number of slashes |
| Text.Split | api/plugins_manager/plugin.py:51 | `split('/')` yields one piece more than there are separators, no piece holds the separator, and joining the pieces gives the string back |
| Text.JoinEnds | api/plugins_manager/plugin.py:40 | `'/'.join` of a non-empty list starts with its first piece and ends with its last |
| Text.JoinCount | api/plugins_manager/plugin.py:40 | `'/'.join` of slash-free pieces puts exactly one separator between each two, so it holds one slash fewer than there are pieces |
| Text.SplitAppend | api/plugins_manager/plugin.py:51 | splitting at a separator splits the two sides independently |
| Text.SplitJoin | api/plugins_manager/plugin.py:39-40 | `split` undoes `join` for pieces without the separator |
| Text.SliceFrom | api/plugins_manager/plugin.py:51 | `[3:]` has length `len - 3` (or 0) and holds the elements from index 3 on |
| Text.DropEmpty | api/plugins_manager/plugin.py:65 | the filtered list holds no empty piece, only pieces of the input and every non-empty one of them, and is the list itself when none is empty |
| Text.DropEmptyAppend | api/plugins_manager/plugin.py:65 | the filter of two lists one after the other is the two filtered lists one after the other |
| Text.DropEmptySingle | api/plugins_manager/plugin.py:65 | a single piece is dropped exactly when it is empty; with `DropEmptyAppend` this fixes the order and the number of every kept piece |
| Text.EndsWith | api/plugins_manager/plugin.py:91 | `url.endswith('/')` holds exactly when the URL is some string followed by `/` |
| Text.TakeUntil | api/plugins_manager/plugin.py:38 | the host part is the longest prefix without `/` |
| Plugins.IsFullUrl | api/plugins_manager/plugin.py:48-49 | `http(s)?://` matches exactly the strings that start with `http`, an optional `s`, and `://`, whatever follows |
| Plugins.Origin | api/plugins_manager/plugin.py:38-41 | scheme, `://` and the host: a prefix of the URL, a full URL itself, followed by the end of the URL or the slash that starts the path |
| Plugins.TrimUrl | api/plugins_manager/plugin.py:37-43 | `_trim_url` gives a full URL that starts with the original's scheme and host followed by `/` |
| PluginProofs.TrimUrlPieces | api/plugins_manager/plugin.py:37-43 | on every full URL, `_trim_url` is the scheme and host, `/`, and the path pieces without the empty ones at either end and without their last two, joined by `/` |
| Plugins.TrimUrlNoUpper | api/plugins_manager/plugin.py:45-57 | trimming a lower-cased URL gives a lower-case URL |
| Plugins.Pieces | api/plugins_manager/plugin.py:51 | the pieces of `lower().strip().split('/')` joined by `/` are the lower-cased, stripped input; they number one more than the input's slashes, and each is lower case and slash-free |
| Plugins.ParseUrl | api/plugins_manager/plugin.py:36-87 | every returned part is lower case; namespace and name are single path pieces; a source is returned exactly for full URLs and is itself a full URL; a relative reference never yields an empty namespace or name; `MissingNamespaceOrName` is raised only for full URLs and `InvalidRelativePath` only for relative ones |
| Plugins.ParseUrlIgnoresCase | api/plugins_manager/plugin.py:45 | a reference and its lower-cased form parse alike, so upper case in the input never matters |
| Plugins.AddTrailingSlash | api/plugins_manager/plugin.py:89-94 | the result extends the URL, ends in `/`, is at most one character longer, and is the URL itself when it already ends in `/` |
| Plugins.AddTrailingSlashIdempotent | api/plugins_manager/plugin.py:89-94 | adding the trailing slash twice is adding it once; a URL without one gets exactly `/` appended |
| Plugins.Truthy | api/plugins_manager/plugin.py:29-30 | a parsed source or namespace is falsy exactly when it is `None` or `''` |
| Plugins.NewPlugin | api/plugins_manager/plugin.py:18-33 | a rejected reference constructs no plugin and passes its error on; otherwise the defaults are kept, the source and namespace are the parsed ones when non-empty and the defaults otherwise, the name is the parsed one, and the configuration URL is `source/namespace/name` with one `/` added exactly when it does not already end in one |
| Plugins.CheckFetchStatus | api/plugins_manager/plugin.py:100-101 | a configuration fetch is accepted exactly for status 200 or 308, and a rejected status is reported |
| PluginProofs.ParseFullUrl | api/plugins_manager/plugin.py:37-61 | lower-case `scheme://host/seg0/seg1/.../segN`, any piece possibly empty, parses to namespace `seg0`, name `seg1` and source `scheme://host/` followed by the pieces `_trim_url` keeps |
| PluginProofs.TrimFullUrl | api/plugins_manager/plugin.py:37-43 | `_trim_url` of `scheme://host/seg0/.../segN` drops the empty pieces at either end of the path and then the last two pieces |
| PluginProofs.FullUrlPieces | api/plugins_manager/plugin.py:51 | the pieces of `scheme://host/path` are `scheme:`, the empty piece, the host, then the pieces of the path, which is why `[3:]` skips three |
| PluginProofs.FullUrlRejectedIffFewSlashes | api/plugins_manager/plugin.py:51-54 | a full URL is rejected exactly when it holds fewer than four slashes, and then with `MissingNamespaceOrName` |
| PluginProofs.RelativePieces | api/plugins_manager/plugin.py:64 | the pieces of `p0/p1/.../pN` padded with whitespace are the lower-cased `p0`, ..., `pN` |
| PluginProofs.ParseRelative | api/plugins_manager/plugin.py:63-87 | a relative reference, in any case and padded with whitespace, parses by its non-empty lower-cased pieces: one is a name, two are a namespace and a name, any other number is `InvalidRelativePath`; leading, trailing and doubled slashes are ignored |
| PluginProofs.ParseFixtureUrl | tests/plugin/mock_plugin.py:16 | the fixture's plugin URL `http://localhost:5001/demo-namespace/demo-plugin` parses to source `http://localhost:5001/`, namespace `demo-namespace`, name `demo-plugin` |
| PluginProofs.RelativePluginUsesDefaultSource | api/plugins_manager/plugin.py:29 | a plugin built from a relative reference uses the default source |
| PluginProofs.FullUrlPluginKeepsSource | api/plugins_manager/plugin.py:29 | a plugin built from a full URL uses the trimmed URL as its source, never the default |
| PluginProofs.ConfigUrlAfterRootSource | api/plugins_manager/plugin.py:33 | a source `http://host/` gives a configuration URL with two slashes after the host |
| PluginProofs.FixturePlugin | api/plugins_manager/plugin.py:18-33 | the fixture's plugin gets configuration URL `http://localhost:5001//demo-namespace/demo-plugin/` |
| Webhook.ConcatAppend | webhook/middleware.py:18-20 | the body of two runs of chunks is the two bodies one after the other |
| Webhook.ChunkInPlace | webhook/middleware.py:18-20 | every chunk appears in the body right after the chunks before it |
| Webhook.ConcatLength | webhook/middleware.py:18-20 | the body is as long as all chunks together |
| Webhook.DrainBody | webhook/middleware.py:18-20 | the captured body is the in-order concatenation of all chunks, empty for an empty iterator, and the loop raises exactly when the iterator does |
| Webhook.Lookup | webhook/middleware.py:35 | a header is absent exactly when no field has its name, and a found value is that of the first field with that name |
| Webhook.HeaderDict | webhook/middleware.py:35 | `dict(response.headers)` has distinct names, is no longer than the headers, and looks every name up to the same first value |
| Webhook.HeaderDictDistinct | webhook/middleware.py:35 | headers with distinct names pass through `dict` unchanged |
| Webhook.RepeatedHeaderCollapses | webhook/middleware.py:35 | of two fields with the same name only the first survives `dict` |
| Webhook.Drained | webhook/middleware.py:28 | the response handed to the worker after draining keeps its status and headers and has nothing left to yield |
| Webhook.InternalServerError | webhook/middleware.py:32 | the fallback response has status 500, no headers, and as body the ASCII bytes of `Internal Server Error`, byte for byte |
| Webhook.WebhooksMiddleware.Dispatch | webhook/middleware.py:12-35 | on success: the downstream status, `dict` of its headers (equal to them when names are distinct) and the whole body, after one debug line with path, upper-cased method and status and one hand-off, made once the whole body is buffered, of the drained downstream response, whose body the worker can no longer read; if `call_next` or the iterator raises: 500 and only an error line; if the hand-off raises: 500 after the debug line and an error line |

## Left out

- Fetching and decoding the configuration (`_fetch_plugin_configs`,
  `get_plugin_configs`) are network I/O and YAML decoding. Only the status rule
  is modelled, by `CheckFetchStatus`.
- ParseFullUrl: stated for lower-case parts and a path that does not end in
  whitespace. Upper case is covered by `ParseUrlIgnoresCase`. A full URL that
  ends in whitespace is covered only by `TrimUrlPieces` and
  `FullUrlRejectedIffFewSlashes`, because `_trim_url` works on the unstripped
  URL. The host is any string without `/`, so the lemma also states `Ok` for
  hosts `urlparse` rejects (see the `ParseUrl` line below).
- TrimFullUrl: stated for `scheme://host/` followed by a path. A bare
  `scheme://host` is covered by `TrimUrlPieces`.
- ParseRelative: stated for a middle part that neither starts nor ends with
  whitespace, so that the padding is exactly what `strip()` removes.
- `urlparse` is modelled only for URLs of the shape `scheme://host/path`. Not
  modelled:
  - query strings, fragments and `;` parameters, which `urlparse` separates
    from the path;
  - the removal of tab and newline characters and of leading control
    characters.
- ParseUrl: does not model the `ValueError` that `urlparse` raises on an
  invalid network location: a `[` without a `]` or the reverse, a bracketed
  host that is not a valid IP address, or non-ASCII characters that normalise
  to one of `/?#@:`. On such a full URL with two path pieces the model
  returns `Ok` where `parse_url` raises at `_trim_url`. `TrimUrl`,
  `TrimUrlPieces`, `TrimFullUrl` and `ParseFullUrl` state that `Ok` result
  too.
- `lower()` and `upper()` are modelled for ASCII letters. Other Unicode case
  mappings, including those that change the length of a string, are not.
- Header names are compared exactly. Starlette stores header names in lower
  case, and that is taken as given.
- Starlette adds a `content-length` header to a new response when it is
  absent, except for status codes below 200, 204 and 304. It adds no
  `content-type`, because a plain `Response` has no media type. The model's
  responses carry only the headers the middleware passes, and the 500
  response carries none.
- The event loop, `asyncio.create_task` and the body of the webhook worker
  (`webhook/sender.py` is not part of this model) are concurrency and unseen
  code. The hand-off is a ghost event in `WebhooksMiddleware.effects`.
- The logger's configuration and the text of the error message are left out.
  Log lines are ghost events carrying the logged fields.
- The exception object is left out. Which step raised is a parameter of
  `Dispatch`.
- The settings defaults `DEFAULT_PLUGIN_SOURCE` and `DEFAULT_PLUGIN_NAMESPACE`
  are parameters of `NewPlugin`.
- Subscription matching, delivery, retries and signing do not appear in the
  modelled files.
