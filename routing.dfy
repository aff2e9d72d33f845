/** The request gate run before every page (proxy.ts and app/middleware.ts):
    force HTTPS in production, send "/" and unconsented quiz paths to the
    intro, cache static assets, and set the pending cookie-banner cookie.
    The two files run the same rules and differ only in their HTTPS test. */
module Routing {
  import opened Common

  /** What the gate reads of a request: its path, the `x-forwarded-proto`
      header and the cookies by name. */
  datatype Request = Request(pathname: string, forwardedProto: Option<string>, cookies: map<string, string>)

  const Immutable := "public, max-age=31536000, immutable"
  const BannerCookie := "cookie_consent"
  const BannerPending := "pending"
  const ConsentCookie := "mhq-consent"
  /** Thirty days, in seconds. */
  const BannerMaxAge: nat := 60 * 60 * 24 * 30

  /** The response: a redirect to the same URL over HTTPS, a redirect to
      /intro, or the request passed on, with the Cache-Control header it
      sets and whether it sets the banner cookie to "pending". */
  datatype Response =
    | ToHttps
    | ToIntro
    | PassOn(cacheControl: Option<string>, setsBanner: bool)

  predicate IsStatic(pathname: string)
  {
    StartsWith(pathname, "/_next/static") || StartsWith(pathname, "/images")
  }

  /** The rules after the HTTPS test, shared by both files; `insecure` is
      the outcome of that test. */
  function Gate(insecure: bool, req: Request): (r: Response)
    ensures r == ToHttps <==> insecure
    ensures !insecure && req.pathname == "/" ==> r == ToIntro
    ensures r == ToIntro <==>
      !insecure
      && (req.pathname == "/"
          || (StartsWith(req.pathname, "/quiz") && !(ConsentCookie in req.cookies && req.cookies[ConsentCookie] == "true")))
    ensures r.PassOn? <==> !insecure && r != ToIntro
    ensures r.PassOn? && StartsWith(req.pathname, "/quiz") ==>
      ConsentCookie in req.cookies && req.cookies[ConsentCookie] == "true"
    ensures r.PassOn? ==> (r.cacheControl.Some? <==> IsStatic(req.pathname))
    ensures r.PassOn? ==>
      (r.setsBanner <==> !IsStatic(req.pathname) && BannerCookie !in req.cookies && !StartsWith(req.pathname, "/privacy"))
  {
    if insecure then ToHttps
    else if req.pathname == "/" then ToIntro
    else if StartsWith(req.pathname, "/quiz")
      && !(ConsentCookie in req.cookies && req.cookies[ConsentCookie] == "true") then ToIntro
    else if IsStatic(req.pathname) then PassOn(Some(Immutable), false)
    else PassOn(None, BannerCookie !in req.cookies && !StartsWith(req.pathname, "/privacy"))
  }

  /** `proxy`: only a forwarded protocol of exactly "http" is redirected. */
  function Proxy(production: bool, req: Request): (r: Response)
    ensures r == ToHttps <==> production && req.forwardedProto == Some("http")
  {
    Gate(production && req.forwardedProto == Some("http"), req)
  }

  /** `middleware`: anything but a forwarded protocol of exactly "https",
      a missing header included, is redirected. */
  function Middleware(production: bool, req: Request): (r: Response)
    ensures r == ToHttps <==> production && req.forwardedProto != Some("https")
  {
    Gate(production && req.forwardedProto != Some("https"), req)
  }

  /** The middleware redirects to HTTPS whenever the proxy does, and also on
      a request without the header, which the proxy lets through. Outside
      production, or on a request with either protocol, the two decide the
      same. */
  lemma HttpsTests(production: bool, req: Request)
    ensures Proxy(production, req) == ToHttps ==> Middleware(production, req) == ToHttps
    ensures production && req.forwardedProto.None? ==>
      Middleware(production, req) == ToHttps && Proxy(production, req) != ToHttps
    ensures !production || req.forwardedProto in {Some("http"), Some("https")} ==>
      Proxy(production, req) == Middleware(production, req)
  {
  }

  /** A path starting with "/quiz" ("/quizzes" too) reaches the page only
      with the consent cookie set to exactly "true"; without it the answer
      is HTTPS or the intro. */
  lemma QuizNeedsConsent(insecure: bool, req: Request)
    requires StartsWith(req.pathname, "/quiz")
    ensures !(ConsentCookie in req.cookies && req.cookies[ConsentCookie] == "true") ==>
      Gate(insecure, req) in {ToHttps, ToIntro}
    ensures !insecure && ConsentCookie in req.cookies && req.cookies[ConsentCookie] == "true" ==>
      Gate(insecure, req).PassOn?
  {
    assert req.pathname != "/" by {
      assert req.pathname[1] == 'q';
    }
  }

  /** The start of a text matches the regular expression `favicon.ico`,
      whose `.` stands for any one character. */
  predicate StartsWithFavicon(s: string)
  {
    |s| >= 11 && s[..7] == "favicon" && s[8..11] == "ico"
  }

  /** The paths `config.matcher` runs the gate on: everything but paths
      whose text after the first "/" starts with "api", "_next/static",
      "_next/image" or `favicon.ico` read as a regular expression. */
  predicate Matched(pathname: string)
  {
    && StartsWith(pathname, "/")
    && !StartsWith(pathname[1..], "api")
    && !StartsWith(pathname[1..], "_next/static")
    && !StartsWith(pathname[1..], "_next/image")
    && !StartsWithFavicon(pathname[1..])
  }

  /** The matcher's `.` is a wildcard: "/favicon.ico" and "/faviconXico"
      both escape the gate, while "/favicon" reaches it. */
  lemma FaviconWildcard(production: bool, req: Request, useMiddleware: bool)
    ensures req.pathname in {"/favicon.ico", "/faviconXico"} ==> Handle(production, req, useMiddleware).None?
    ensures req.pathname == "/favicon" ==> Handle(production, req, useMiddleware).Some?
  {
    if req.pathname == "/favicon" {
      assert req.pathname[1..] == "favicon";
      assert "favicon"[..3][0] == 'f' && "api"[0] == 'a';
      assert "favicon"[..7][0] == 'f' && "_next/image"[0] == '_';
    }
  }

  /** What a request meets: the gate on matched paths, nothing otherwise. */
  function Handle(production: bool, req: Request, useMiddleware: bool): (r: Option<Response>)
    ensures r.Some? <==> Matched(req.pathname)
  {
    if !Matched(req.pathname) then None
    else if useMiddleware then Some(Middleware(production, req))
    else Some(Proxy(production, req))
  }

  /** Under the matcher the "/_next/static" branch never runs: only
      "/images" paths receive the immutable Cache-Control header. */
  lemma NextStaticUnmatched(production: bool, req: Request, useMiddleware: bool)
    ensures StartsWith(req.pathname, "/_next/static") ==> Handle(production, req, useMiddleware).None?
    ensures Handle(production, req, useMiddleware) == Some(PassOn(Some(Immutable), false)) ==>
      StartsWith(req.pathname, "/images")
  {
    if StartsWith(req.pathname, "/_next/static") {
      var p := req.pathname;
      assert p[1..][..12] == p[1..13] == p[..13][1..];
      assert StartsWith(p[1..], "_next/static");
    }
  }
}
