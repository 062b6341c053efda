/**
 * The request-routing core of the mirror server, as pure functions from a
 * request and the snippet-language register to a response and the new
 * register. Every response is a redirect into the static site published
 * under `StaticBaseUrl`, a 303 back to the page that asked for a language
 * change, or an error status.
 */
module Routing {
  import opened Text

  datatype Option<T> = None | Some(value: T)

  /** STATIC_BASE_URL: the origin every redirect points into. */
  const StaticBaseUrl: string := "https://huaguang-xinzhe.github.io/MyMirror-Static"

  /** DEFAULT_SNIPPET_LANG: the fragment served when no language was selected. */
  const DefaultSnippetLang: string := "react-v4"

  /** The marker a download path ends with; `path[:-9]` strips exactly it. */
  const DownloadSuffix: string := "/download"

  /** The field of a stored JSON object that names the snippet language. */
  const SnippetLangKey: string := "snippet_lang"

  /** The only path the language-selection PUT is routed on (without its leading `/`). */
  const LanguagePath: string := "plus/ui-blocks/language"

  /** Where `GET /` always goes. */
  const IndexUrl: string := StaticBaseUrl + "/plus/index.html"

  /**
   * A value found under a key of a JSON object: `null` (which Python reads
   * as `None`), a string, or any other value, given by its Python truthiness
   * and the text `str()` renders it as.
   */
  datatype JsonValue = JNull | JString(s: string) | JOther(truthy: bool, text: string)

  /**
   * A top-level JSON value other than `null`: a JSON `null` body parses to
   * Python's `None`, so the handler falls back to the raw text instead.
   */
  type NonNullJson = v: JsonValue | !v.JNull? witness JString("")

  /**
   * The body of the language PUT as the handler ends up holding it: a JSON
   * object, some other JSON value (array, string, number, boolean), or the
   * raw text of a body that did not parse as JSON (an empty body is `RawText("")`).
   */
  datatype Body =
    | JsonObject(fields: map<string, JsonValue>)
    | JsonNonObject(value: NonNullJson)
    | RawText(text: string)

  /** last_language_request_body: empty (`None`) or the last PUT body stored. */
  type Register = Option<Body>

  datatype Response =
    | Redirect(location: string)    // flask.redirect: 302 Found
    | SeeOther(location: string)    // 303 with an empty body
    | Status(code: int)             // an error page

  /** The exceptions a handler can raise. */
  datatype Raised = Abort(code: int) | AttributeError

  datatype Result<T> = Ok(value: T) | Err(error: Raised)

  datatype Outcome = Outcome(response: Response, register: Register)

  /** What Flask answers for an exception that leaves the view function. */
  function Uncaught(e: Raised): Response {
    match e
    case Abort(code) => Status(code)
    case AttributeError => Status(500)
  }

  /** Python truthiness of a JSON value. */
  predicate Truthy(v: JsonValue) {
    match v
    case JNull => false
    case JString(s) => s != ""
    case JOther(t, _) => t
  }

  /** How an f-string renders a JSON value. */
  function Str(v: JsonValue): string {
    match v
    case JNull => "None"
    case JString(s) => s
    case JOther(_, text) => text
  }

  /** Python truthiness of an optional header: present and non-empty. */
  predicate HeaderTruthy(h: Option<string>) {
    h.Some? && h.value != ""
  }

  /** `request.headers.get(name, '')` */
  function HeaderOr(h: Option<string>): string {
    match h
    case None => ""
    case Some(v) => v
  }

  /**
   * get_snippet_lang: `None` for an empty register, otherwise the stored
   * body's `.get('snippet_lang')`, which is `None` when the key is missing
   * and raises AttributeError when the body is not a JSON object.
   */
  function SnippetLang(reg: Register): (r: Result<JsonValue>)
    ensures r.Err? <==> reg.Some? && !reg.value.JsonObject?
    ensures reg.None? ==> r == Ok(JNull)
    ensures reg.Some? && reg.value.JsonObject? ==>
              r == Ok(if SnippetLangKey in reg.value.fields then reg.value.fields[SnippetLangKey] else JNull)
    ensures r.Ok? && Truthy(r.value) ==>
              reg.Some? && SnippetLangKey in reg.value.fields && reg.value.fields[SnippetLangKey] == r.value
  {
    match reg
    case None => Ok(JNull)
    case Some(JsonObject(fields)) => Ok(if SnippetLangKey in fields then fields[SnippetLangKey] else JNull)
    case Some(_) => Err(AttributeError)
  }

  /** handle_download: the archive `<base>/<last segment of base>.zip`, with `base` = `path[:-9]`. */
  function DownloadUrl(path: string): string {
    var base := DropLast(path, |DownloadSuffix|);
    var filename := LastSegment(base) + ".zip";
    StaticBaseUrl + "/" + base + "/" + filename
  }

  /** A path with a `.` anywhere is served as it is. */
  function PassthroughUrl(path: string): string {
    StaticBaseUrl + "/" + path
  }

  /** A page path is served as its `index.html`. */
  function PageUrl(path: string): string {
    StaticBaseUrl + "/" + path + "/index.html"
  }

  /** The JSON fragment for a page: the selected language's, or the default's. */
  function FragmentUrl(path: string, lang: JsonValue): string {
    if Truthy(lang) then StaticBaseUrl + "/" + path + "/" + Str(lang) + ".json"
    else StaticBaseUrl + "/" + path + "/" + DefaultSnippetLang + ".json"
  }

  /**
   * catch_all for `GET /<path>`: download suffix first, then any `.`, then
   * a truthy `x-inertia` header (read the register, clear it, redirect to
   * the fragment), else the page. Only the fragment branch touches the
   * register, and only to empty it.
   */
  function CatchAll(path: string, xInertia: Option<string>, reg: Register): (out: Outcome)
    ensures out.register == reg || out.register == None
  {
    if EndsWith(path, DownloadSuffix) then Outcome(Redirect(DownloadUrl(path)), reg)
    else if '.' in path then Outcome(Redirect(PassthroughUrl(path)), reg)
    else if HeaderTruthy(xInertia) then
      match SnippetLang(reg)
      case Err(e) => Outcome(Uncaught(e), reg)
      case Ok(lang) => Outcome(Redirect(FragmentUrl(path, lang)), None)
    else Outcome(Redirect(PageUrl(path)), reg)
  }

  /**
   * The body of language_redirect's `try`: store the body, then either
   * build the 303 to the referer or `abort(404)`.
   */
  function LanguageAttempt(body: Body, referer: Option<string>): (Result<Response>, Register) {
    var reg := Some(body);
    var ref := HeaderOr(referer);
    if ref == "" then (Err(Abort(404)), reg)
    else (Ok(SeeOther(ref)), reg)
  }

  /**
   * language_redirect: whatever the `try` raises is caught by
   * `except Exception` and turned into `abort(500)`; the store that
   * happened before the raise stays. The previous register is irrelevant.
   */
  function LanguageRedirect(body: Body, referer: Option<string>, reg: Register): (out: Outcome)
    ensures out.register == Some(body)
  {
    var (attempt, reg') := LanguageAttempt(body, referer);
    match attempt
    case Ok(resp) => Outcome(resp, reg')
    case Err(_) => Outcome(Uncaught(Abort(500)), reg')
  }

  datatype HttpMethod = Get | Put

  /** A request: its method, URL path without its leading `/`, the two headers read, and the body. */
  datatype Request = Request(verb: HttpMethod, path: string, xInertia: Option<string>,
                             referer: Option<string>, body: Body)

  /**
   * The route table: `/` (index), `PUT /plus/ui-blocks/language`
   * (language_redirect) and `/<path:path>` (catch_all). Werkzeug answers 405
   * for a PUT on a path whose rules only accept GET; a GET on the language
   * path falls through to catch_all.
   */
  function Serve(req: Request, reg: Register): (out: Outcome)
    ensures out.register == reg || out.register == None || out.register == Some(req.body)
    ensures req.verb == Get ==> out.register == reg || out.register == None
  {
    match req.verb
    case Get =>
      if req.path == "" then Outcome(Redirect(IndexUrl), reg)
      else CatchAll(req.path, req.xInertia, reg)
    case Put =>
      if req.path == LanguagePath then LanguageRedirect(req.body, req.referer, reg)
      else Outcome(Status(405), reg)
  }

  // ---------------------------------------------------------------------
  // Properties of the routes
  // ---------------------------------------------------------------------

  /**
   * A GET on `<base>/download` redirects to the archive named after the last
   * segment of `base`, inside `base`, whatever the headers and the register,
   * and leaves the register as it was.
   */
  lemma DownloadRoute(base: string, seg: string, xInertia: Option<string>, reg: Register)
    requires IsLastSegment(base, seg)
    ensures CatchAll(base + DownloadSuffix, xInertia, reg)
         == Outcome(Redirect(StaticBaseUrl + "/" + base + "/" + seg + ".zip"), reg)
  {
    var path := base + DownloadSuffix;
    DropLastOfSuffix(base, DownloadSuffix);
    assert EndsWith(path, DownloadSuffix);
    LastSegmentOf(base, seg);
    assert DownloadUrl(path) == StaticBaseUrl + "/" + base + "/" + (seg + ".zip");
    assert CatchAll(path, xInertia, reg) == Outcome(Redirect(DownloadUrl(path)), reg);
    assert StaticBaseUrl + "/" + base + "/" + (seg + ".zip") == StaticBaseUrl + "/" + base + "/" + seg + ".zip";
  }

  /** The download check comes first: a dotted path that ends in `/download` is still a download. */
  lemma DottedDownload(xInertia: Option<string>, reg: Register)
    ensures '.' in "a.b/download"
    ensures CatchAll("a.b/download", xInertia, reg)
         == Outcome(Redirect(StaticBaseUrl + "/a.b/a.b.zip"), reg)
  {
    assert "a.b/download" == "a.b" + DownloadSuffix;
    assert "a.b"[1] == '.';
    assert IsLastSegment("a.b", "a.b");
    DownloadRoute("a.b", "a.b", xInertia, reg);
    assert StaticBaseUrl + "/" + "a.b" + "/" + "a.b" + ".zip" == StaticBaseUrl + "/a.b/a.b.zip";
  }

  /** The path documented at handle_download resolves to `catalyst.zip` inside it. */
  lemma CatalystDownload(path: string, xInertia: Option<string>, reg: Register)
    requires path == "plus/templates/catalyst/download"
    ensures CatchAll(path, xInertia, reg)
         == Outcome(Redirect(StaticBaseUrl + "/plus/templates/catalyst/catalyst.zip"), reg)
  {
    var dir, seg := "plus/templates", "catalyst";
    LastSegmentAfterSlash(dir, seg);
    assert path == (dir + "/" + seg) + DownloadSuffix;
    DownloadRoute(dir + "/" + seg, seg, xInertia, reg);
    CatalystUrlText();
  }

  lemma CatalystUrlText()
    ensures StaticBaseUrl + "/" + ("plus/templates" + "/" + "catalyst") + "/" + "catalyst" + ".zip"
         == StaticBaseUrl + "/plus/templates/catalyst/catalyst.zip"
  {
  }

  /**
   * A path with a `.` anywhere in it (not only in its last segment) that is
   * not a download is redirected to as it is, whatever the headers and the
   * register, and the register is unchanged.
   */
  lemma PassthroughRoute(path: string, xInertia: Option<string>, reg: Register)
    requires !EndsWith(path, DownloadSuffix) && '.' in path
    ensures CatchAll(path, xInertia, reg) == Outcome(Redirect(StaticBaseUrl + "/" + path), reg)
  {
  }

  /** A page path without a truthy `x-inertia` header goes to its `index.html`; the register is kept. */
  lemma PageRoute(path: string, xInertia: Option<string>, reg: Register)
    requires !EndsWith(path, DownloadSuffix) && '.' !in path && !HeaderTruthy(xInertia)
    ensures CatchAll(path, xInertia, reg) == Outcome(Redirect(StaticBaseUrl + "/" + path + "/index.html"), reg)
  {
  }

  /**
   * A fragment request with a stored JSON object whose `snippet_lang` is
   * truthy goes to that language's fragment, and empties the register.
   */
  lemma FragmentWithLanguage(path: string, xInertia: Option<string>, fields: map<string, JsonValue>)
    requires !EndsWith(path, DownloadSuffix) && '.' !in path && HeaderTruthy(xInertia)
    requires SnippetLangKey in fields && Truthy(fields[SnippetLangKey])
    ensures CatchAll(path, xInertia, Some(JsonObject(fields)))
         == Outcome(Redirect(StaticBaseUrl + "/" + path + "/" + Str(fields[SnippetLangKey]) + ".json"), None)
  {
  }

  /**
   * A fragment request goes to the default language's fragment, and
   * empties the register, when the register is empty or holds a JSON
   * object whose `snippet_lang` is missing or falsy (JSON `null`, `""`, ...).
   */
  lemma FragmentDefault(path: string, xInertia: Option<string>, reg: Register)
    requires !EndsWith(path, DownloadSuffix) && '.' !in path && HeaderTruthy(xInertia)
    requires reg.None? ||
             (reg.value.JsonObject? &&
              (SnippetLangKey !in reg.value.fields || !Truthy(reg.value.fields[SnippetLangKey])))
    ensures CatchAll(path, xInertia, reg)
         == Outcome(Redirect(StaticBaseUrl + "/" + path + "/" + DefaultSnippetLang + ".json"), None)
  {
  }

  /**
   * A register holding anything but a JSON object makes every fragment
   * request fail with 500 before the register is cleared, so it stays
   * stuck until the next PUT overwrites it.
   */
  lemma FragmentStuck(path: string, xInertia: Option<string>, body: Body)
    requires !EndsWith(path, DownloadSuffix) && '.' !in path && HeaderTruthy(xInertia)
    requires !body.JsonObject?
    ensures CatchAll(path, xInertia, Some(body)) == Outcome(Status(500), Some(body))
  {
  }

  /**
   * The language PUT always stores its body, last write winning, and
   * answers 303 to a non-empty referer. Without one it answers 500, never
   * the 404 the handler aborts with, because `except Exception` catches it.
   */
  lemma LanguageRoute(body: Body, referer: Option<string>, reg: Register)
    ensures LanguageRedirect(body, referer, reg).register == Some(body)
    ensures HeaderTruthy(referer) ==> LanguageRedirect(body, referer, reg).response == SeeOther(referer.value)
    ensures !HeaderTruthy(referer) ==> LanguageRedirect(body, referer, reg).response == Status(500)
    ensures LanguageRedirect(body, referer, reg).response != Status(404)
  {
  }

  /** `GET /` always gives the entry page, whatever the headers and the register, and keeps the register. */
  lemma IndexFixed(req: Request, reg: Register)
    requires req.verb == Get && req.path == ""
    ensures Serve(req, reg) == Outcome(Redirect(StaticBaseUrl + "/plus/index.html"), reg)
  {
  }

  /**
   * Consume once: after a PUT of `{"snippet_lang": lang}` with a referer,
   * answered by a 303 to it, the first fragment GET goes to `lang.json`
   * and a second one, with no PUT in between, to the default fragment.
   * The register held before the PUT does not matter.
   */
  lemma ConsumeOnce(lang: string, referer: string, page: Request, reg0: Register)
    requires lang != "" && referer != ""
    requires page.verb == Get && page.path != ""
    requires !EndsWith(page.path, DownloadSuffix) && '.' !in page.path && HeaderTruthy(page.xInertia)
    ensures var put := Request(Put, LanguagePath, None, Some(referer),
                               JsonObject(map[SnippetLangKey := JString(lang)]));
            var out1 := Serve(put, reg0);
            var out2 := Serve(page, out1.register);
            var out3 := Serve(page, out2.register);
            && out1.response == SeeOther(referer)
            && out2.response == Redirect(StaticBaseUrl + "/" + page.path + "/" + lang + ".json")
            && out3.response == Redirect(StaticBaseUrl + "/" + page.path + "/" + DefaultSnippetLang + ".json")
            && out3.register == None
  {
  }

  /** A GET that is not a fragment request changes nothing, so repeating it repeats its answer. */
  lemma ReadOnlyRepeatable(req: Request, reg: Register)
    requires req.verb == Get
    requires req.path == "" || EndsWith(req.path, DownloadSuffix) || '.' in req.path || !HeaderTruthy(req.xInertia)
    ensures Serve(req, reg).register == reg
    ensures Serve(req, Serve(req, reg).register) == Serve(req, reg)
  {
  }
}
