# MyMirror request router, modelled in Dafny

MyMirror is a small Flask server that mirrors a static documentation site
hosted under `https://huaguang-xinzhe.github.io/MyMirror-Static`. A GET is answered with
a redirect into that site, except for the fragment GET described below, which
answers 500 when the register holds a body that is not a JSON object:

- `GET /` goes to `plus/index.html`;
- a path ending in `/download` goes to the archive `<base>/<name>.zip`, where
  `base` is the path without `/download` and `name` is the last segment of
  `base`;
- any other path containing a `.` goes to the same path on the static site;
- a path requested with a truthy `x-inertia` header (a client-side page
  transition) goes to a JSON fragment `<path>/<snippet_lang>.json`;
- any other path goes to `<path>/index.html`.

The snippet language comes from a one-slot, process-wide register,
`last_language_request_body`. `PUT /plus/ui-blocks/language` stores its body
there and answers 303 back to the referer. The next fragment GET reads the
register, then clears it. The default `react-v4` is used when the register
is empty, or when the stored JSON object's `snippet_lang` is missing or falsy.
When the register holds raw text or JSON that is not an object, the fragment
GET answers 500 instead and the register is not cleared.

The project has three modules:

- `Text` (text.dfy): the Python string operations the router uses. These are
  `str.endswith`, the slice `s[:-n]`, and `str.split('/')[-1]`. `Split` is
  proved against `Join` (Python's `sep.join`, the inverse of `Split`) in both
  directions. The last part of a split is proved to be the text after the
  last `/`.
- `Routing` (routing.dfy): requests, bodies, responses and the register as
  datatypes. Each handler is a pure function from a request and the old
  register to a response and the new register. Lemmas state each route's
  exact redirect and what happens to the register.
- `Server` (server.dfy): the class `MirrorServer`. Its field is the register,
  and it has one method per handler. Each method runs the Python handler's
  statements in order. Each is proved to give the response and new register
  that `Routing` specifies. `SelectThenFetchTwice` is a client of the class:
  it starts a server, selects a language, and fetches a fragment twice.

Python exceptions are modelled explicitly. Calling `.get` on a stored body
that is not a JSON object raises AttributeError. The `abort(404)` inside the
language handler's `try` is a werkzeug HTTPException, which is an
`Exception`. So the handler's own `except Exception` catches it and answers
`abort(500)`. An exception that leaves a view function becomes the matching
error status.

Where the source's own comments and its code differ, the model follows the code:

- The comment at server.py:123 speaks of a path "containing a suffix" (a file
  extension). The `.` test at server.py:124 looks at the whole path, not only
  its last segment.
- The comment at server.py:182 says a language PUT without a referer returns
  404. It answers 500, because the `abort(404)` at server.py:185 is caught at
  server.py:193.
- A stored body that is not a JSON object is never cleared by a fragment GET.
  Such a body is the raw text of a non-JSON request, or JSON that is not an
  object. `.get` raises before `clear_snippet_lang` runs. So every later
  fragment GET answers 500 until the next PUT (lemma `FragmentStuck`).

As the comment at server.py:142-143 notes, any `index.json` fallback for a
missing fragment is left to the client: the server redirects to the computed
fragment unconditionally, with no existence check.

## Model

| member | source | states |
|---|---|---|
| `Text.DropLastOfSuffix` | server.py:96 | `path[:-9]` on a path ending in the 9-character `/download` gives back exactly the text before the suffix |
| `Text.Split` | server.py:99 | `str.split('/')` yields at least one part, no part contains the separator, and joining the parts with it gives back the input |
| `Text.SplitOfJoin` | server.py:99 | the converse round trip: splitting the join of separator-free parts recovers exactly those parts |
| `Text.LastSegmentIsLast` | server.py:99-100 | `parts[-1]` is the text after the last `/` (all of the text when it has none): a `/`-free suffix preceded by `/` unless it is the whole text |
| `Text.LastSegmentOf` | server.py:99-100 | that characterisation has only one solution, so any text meeting it is `split('/')[-1]` |
| `Routing.SnippetLang` | server.py:67-76 | get_snippet_lang gives `None` for an empty register, the stored JSON object's `snippet_lang` value (or `None` when the key is missing), and raises exactly when the stored body is not a JSON object |
| `Routing.CatchAll` | server.py:115-151 | a GET on a path changes the register only by emptying it |
| `Routing.LanguageRedirect` | server.py:164-195 | the language PUT always leaves its own body in the register, whatever was stored before and whatever the referer |
| `Routing.Serve` | server.py:110-155 | the route table: a request either keeps the register, empties it, or stores its own body, and a GET never stores anything |
| `Routing.DownloadRoute` | server.py:83-121 | a GET on `<base>/download` redirects to `STATIC_BASE_URL/<base>/<seg>.zip`, with `seg` the last segment of `base`, whatever the headers; the register is unchanged |
| `Routing.DottedDownload` | server.py:120-125 | the download check comes before the `.` check: `a.b/download` is served as the archive `a.b/a.b.zip` |
| `Routing.CatalystDownload` | server.py:88-103 | the path documented for handle_download, `plus/templates/catalyst/download`, redirects to `plus/templates/catalyst/catalyst.zip` |
| `Routing.PassthroughRoute` | server.py:124-125 | a path with `.` anywhere, not ending in `/download`, redirects to `STATIC_BASE_URL/<path>` whatever the headers; the register is unchanged |
| `Routing.PageRoute` | server.py:127-151 | a path with no download suffix, no `.` and no truthy `x-inertia` redirects to `STATIC_BASE_URL/<path>/index.html`; the register is unchanged |
| `Routing.FragmentWithLanguage` | server.py:132-139 | with a truthy `x-inertia` and a stored JSON object whose `snippet_lang` is truthy, the redirect is to `<path>/<snippet_lang>.json` and the register is emptied |
| `Routing.FragmentDefault` | server.py:138-148 | with a truthy `x-inertia` and an empty register, a missing key or a falsy value, the redirect is to `<path>/react-v4.json` and the register is emptied |
| `Routing.FragmentStuck` | server.py:74-76 | with a truthy `x-inertia` and a stored body that is not a JSON object, the answer is 500 and the register keeps that body |
| `Routing.LanguageRoute` | server.py:164-195 | the PUT stores its body; it answers 303 to a non-empty referer; without one it answers 500, never 404, because `except Exception` catches the abort |
| `Routing.IndexFixed` | server.py:110-113 | `GET /` always redirects to `STATIC_BASE_URL/plus/index.html`, whatever the headers and the register, and keeps the register |
| `Routing.ConsumeOnce` | server.py:132-175 | after a PUT of `{"snippet_lang": L}` with a referer, whatever was stored before, the first fragment GET goes to `L.json`, the second to `react-v4.json`, and the register ends empty |
| `Routing.ReadOnlyRepeatable` | server.py:110-151 | a GET that is not a fragment request keeps the register, so repeating it gives the same answer |
| `Server.MirrorServer.constructor` | server.py:62 | the register starts empty |
| `Server.MirrorServer.GetSnippetLang` | server.py:67-76 | reads the register and returns what `Routing.SnippetLang` specifies, changing nothing |
| `Server.MirrorServer.ClearSnippetLang` | server.py:79-81 | empties the register |
| `Server.MirrorServer.HandleDownload` | server.py:83-108 | redirects to the archive URL of `Routing.DownloadRoute`, changing nothing |
| `Server.MirrorServer.Index` | server.py:110-113 | redirects to the entry page, changing nothing |
| `Server.MirrorServer.CatchAll` | server.py:115-151 | runs catch_all's checks in order; its response and the new register are those of `Routing.CatchAll` on the old register |
| `Server.MirrorServer.LanguageRedirect` | server.py:154-195 | stores the body, then answers 303, or turns the abort into 500; response and new register as `Routing.LanguageRedirect` specifies |
| `Server.MirrorServer.Handle` | server.py:110-155 | dispatches one request to its handler; response and new register as `Routing.Serve` specifies |
| `Server.SelectThenFetchTwice` | server.py:132-192 | on a fresh server: the PUT answers 303 to the referer, the first fragment fetch gets `L.json`, the second `react-v4.json` |

## Left out

- Flask app construction, `app.run`, and the logger. The logger and
  `get_base_path` only detect the environment and write logs. Log messages
  are not modelled.
- `request.get_json(silent=True)` and `request.get_data(as_text=True)` are
  not modelled. The handler is given their outcome as a `Body`. A JSON `null`
  body parses to `None`, so it arrives as its raw text. A JSON value that is
  neither `null` nor a string is modelled by its Python truthiness and its
  `str()` rendering, not by its structure.
- HTTP framing is not modelled: status lines, the 302 of `redirect`, and
  `make_response` internals. Responses are the `Response` datatype.
- Methods other than GET and PUT are not modelled. This includes Flask's
  automatic HEAD and OPTIONS answers. Flask answers a HEAD by running the GET
  view, so a HEAD with a truthy `x-inertia` also consumes the register; that
  effect is not modelled. A PUT on any path other than the
  language path answers 405.
- Werkzeug's URL normalisation is not modelled, such as merging a leading
  `//`. The model takes the path after its leading `/`. Every GET on a
  non-empty path goes to catch_all.
- Flask's built-in `/static/<path:filename>` rule is not modelled.
  `Flask(__name__)` at server.py:55 adds it only when a `static/` folder sits
  beside server.py. The model assumes there is no such folder; with one, GETs
  under `static/` would be served from it instead of reaching catch_all.
- Header lookup is reduced to the two headers the handlers read. Each is an
  optional string. Case-insensitive matching is not modelled.
- Concurrent requests are not modelled. Requests are handled one at a time,
  so the race on the shared register between simultaneous requests is not
  represented.
- `api/index.py` only re-exports the Flask app and has no logic.
