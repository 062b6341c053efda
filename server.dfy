/**
 * The server process: one object whose field is the process-wide register
 * `last_language_request_body`, with one method per request handler. Each
 * handler runs the statements of its Python counterpart in order and is
 * proved to produce the response and the new register that the functions
 * of `Routing` specify. Requests are handled one at a time.
 */
module Server {
  import opened Text
  import opened Routing

  class MirrorServer {
    /** last_language_request_body */
    var lastLanguageRequestBody: Register

    /** At start-up the register is empty. */
    constructor ()
      ensures lastLanguageRequestBody == None
    {
      lastLanguageRequestBody := None;
    }

    /** get_snippet_lang: reads the register without changing it. */
    method GetSnippetLang() returns (lang: Result<JsonValue>)
      ensures lang == SnippetLang(lastLanguageRequestBody)
    {
      match lastLanguageRequestBody
      case None =>
        lang := Ok(JNull);
      case Some(body) =>
        if body.JsonObject? {
          lang := Ok(if SnippetLangKey in body.fields then body.fields[SnippetLangKey] else JNull);
        } else {
          lang := Err(AttributeError);
        }
    }

    /** clear_snippet_lang */
    method ClearSnippetLang()
      modifies this
      ensures lastLanguageRequestBody == None
    {
      lastLanguageRequestBody := None;
    }

    /** handle_download: never touches the register. */
    method HandleDownload(path: string) returns (resp: Response)
      ensures resp == Redirect(DownloadUrl(path))
    {
      var base := DropLast(path, |DownloadSuffix|);
      var filename := LastSegment(base) + ".zip";
      resp := Redirect(StaticBaseUrl + "/" + base + "/" + filename);
    }

    /** index: `GET /`; never touches the register. */
    method Index() returns (resp: Response)
      ensures resp == Redirect(IndexUrl)
    {
      resp := Redirect(StaticBaseUrl + "/plus/index.html");
    }

    /** catch_all: `GET /<path>`. */
    method CatchAll(path: string, xInertia: Option<string>) returns (resp: Response)
      modifies this
      ensures Outcome(resp, lastLanguageRequestBody)
           == Routing.CatchAll(path, xInertia, old(lastLanguageRequestBody))
    {
      if EndsWith(path, DownloadSuffix) {
        resp := HandleDownload(path);
        return;
      }
      if '.' in path {
        resp := Redirect(StaticBaseUrl + "/" + path);
        return;
      }
      if HeaderTruthy(xInertia) {
        var lang := GetSnippetLang();
        if lang.Err? {
          // `.get` raised before the register could be cleared
          resp := Uncaught(lang.error);
          return;
        }
        ClearSnippetLang();
        var jsonUrl;
        if Truthy(lang.value) {
          jsonUrl := StaticBaseUrl + "/" + path + "/" + Str(lang.value) + ".json";
        } else {
          jsonUrl := StaticBaseUrl + "/" + path + "/" + DefaultSnippetLang + ".json";
        }
        resp := Redirect(jsonUrl);
        return;
      }
      resp := Redirect(StaticBaseUrl + "/" + path + "/index.html");
    }

    /** language_redirect: `PUT /plus/ui-blocks/language`. */
    method LanguageRedirect(body: Body, referer: Option<string>) returns (resp: Response)
      modifies this
      ensures Outcome(resp, lastLanguageRequestBody)
           == Routing.LanguageRedirect(body, referer, old(lastLanguageRequestBody))
    {
      // try:
      lastLanguageRequestBody := Some(body);
      var ref := HeaderOr(referer);
      var raised: Option<Raised> := None;
      if ref == "" {
        raised := Some(Abort(404));
      } else {
        resp := SeeOther(ref);
      }
      // except Exception: abort(500)
      if raised.Some? {
        resp := Uncaught(Abort(500));
      }
    }

    /** The route table: one response per request. */
    method Handle(req: Request) returns (resp: Response)
      modifies this
      ensures Outcome(resp, lastLanguageRequestBody) == Serve(req, old(lastLanguageRequestBody))
    {
      match req.verb
      case Get =>
        if req.path == "" {
          resp := Index();
        } else {
          resp := CatchAll(req.path, req.xInertia);
        }
      case Put =>
        if req.path == LanguagePath {
          resp := LanguageRedirect(req.body, req.referer);
        } else {
          resp := Status(405);
        }
    }
  }

  /**
   * One client session against a freshly started server: select `lang`
   * from the page at `referer`, then fetch the fragment of `page` twice.
   * The first fetch gets the selected language, the second the default.
   */
  method SelectThenFetchTwice(lang: string, referer: string, page: string)
    returns (put: Response, first: Response, second: Response)
    requires lang != "" && referer != "" && page != ""
    requires !EndsWith(page, DownloadSuffix) && '.' !in page
    ensures put == SeeOther(referer)
    ensures first == Redirect(StaticBaseUrl + "/" + page + "/" + lang + ".json")
    ensures second == Redirect(StaticBaseUrl + "/" + page + "/" + DefaultSnippetLang + ".json")
  {
    var server := new MirrorServer();
    var selection := JsonObject(map[SnippetLangKey := JString(lang)]);
    put := server.Handle(Request(Put, LanguagePath, None, Some(referer), selection));
    var fetch := Request(Get, page, Some("true"), None, RawText(""));
    first := server.Handle(fetch);
    second := server.Handle(fetch);
    ConsumeOnce(lang, referer, fetch, None);
  }
}
