/**
 * The public site header of components/shared/Header.tsx: whether it is shown at all, whether
 * the page underneath is a dark hero (white text until the user scrolls), and which of the
 * back and search buttons it offers. The path is None when the router has none yet.
 */
module HeaderContext {
  import opened Common
  import opened JsString

  /** Pages drawn on a dark background. */
  const DarkRoutes: seq<string> := ["/reservas", "/mis-reservas", "/perfil"]

  /** Pages known to be drawn on a light background. */
  const LightRoutes: seq<string> := ["/login", "/registro", "/registro-negocio", "/admin", "/super-admin",
                                     "/api", "/_next", "/favicon.ico", "/"]

  const Confirmation := "/reservas/confirmation"

  /** `darkRoutes.some(route => pathname.startsWith(route))` */
  predicate InDarkRoute(p: string) {
    exists i | 0 <= i < |DarkRoutes| :: StartsWith(p, DarkRoutes[i])
  }

  /** `knownLightRoutes.some(route => pathname === route || pathname.startsWith(route + '/'))` */
  predicate InLightRoute(p: string) {
    exists i | 0 <= i < |LightRoutes| :: p == LightRoutes[i] || StartsWith(p, LightRoutes[i] + "/")
  }

  /** `isDarkContext`; `!pathname` holds for a missing path and for the empty one. */
  function IsDarkContext(pathname: Option<string>): bool {
    if pathname.None? || pathname.value == "" then false
    else
      var p := pathname.value;
      if InDarkRoute(p) then p != Confirmation
      else if p == "/" then false
      else !InLightRoute(p)
  }

  /** No dark context without a path, on the landing page or on the booking confirmation. */
  lemma LightSpecialCases()
    ensures !IsDarkContext(None) && !IsDarkContext(Some(""))
    ensures !IsDarkContext(Some("/"))
    ensures !IsDarkContext(Some(Confirmation))
  {
    assert StartsWith(Confirmation, DarkRoutes[0]);
  }

  /** Any other path under a dark route is dark. */
  lemma DarkRoutesAreDark(p: string, i: nat)
    requires i < |DarkRoutes| && StartsWith(p, DarkRoutes[i]) && p != Confirmation
    ensures IsDarkContext(Some(p))
  {
  }

  /** Outside the dark routes, a non-empty path is dark exactly when it is neither a light route nor under one. */
  lemma OtherPathsDarkUnlessLight(p: string)
    requires !InDarkRoute(p)
    ensures IsDarkContext(Some(p)) <==> p != "" && !InLightRoute(p)
  {
    if p == "/" {
      assert p == LightRoutes[8];
    }
  }

  /** A light route, and any path under one, is light; a business page such as `/clinica-sol` is dark. */
  lemma LightRoutesAreLight(p: string, i: nat)
    requires i < |LightRoutes| && (p == LightRoutes[i] || StartsWith(p, LightRoutes[i] + "/")) && !InDarkRoute(p)
    ensures !IsDarkContext(Some(p))
  {
  }

  /** A business's own page (one path segment that is no known route) is drawn dark. */
  lemma BusinessPageIsDark()
    ensures IsDarkContext(Some("/clinica-sol"))
  {
    var p := "/clinica-sol";
    assert !InDarkRoute(p) by {
      forall i | 0 <= i < |DarkRoutes|
        ensures !StartsWith(p, DarkRoutes[i])
      {
        assert p[1] == 'c';
      }
    }
    assert !InLightRoute(p) by {
      forall i | 0 <= i < |LightRoutes|
        ensures p != LightRoutes[i] && !StartsWith(p, LightRoutes[i] + "/")
      {
        assert p[1] == 'c' && p[2] == 'l' && p[3] == 'i';
      }
    }
  }

  /** The buttons: back everywhere but the landing page, search on the booking pages but the confirmation. */
  datatype Buttons = Buttons(showBack: bool, showSearch: bool)

  function HeaderButtons(pathname: Option<string>): Buttons {
    if pathname == Some("/") then Buttons(false, false)
    else if pathname.Some? && StartsWith(pathname.value, "/reservas") && pathname.value != Confirmation then Buttons(true, true)
    else Buttons(true, false)
  }

  /**
   * Back is hidden only on the landing page; search is shown exactly under `/reservas`,
   * not on the confirmation, and only ever on a dark page.
   */
  lemma ButtonRules(pathname: Option<string>)
    ensures !HeaderButtons(pathname).showBack <==> pathname == Some("/")
    ensures HeaderButtons(pathname).showSearch <==>
      pathname.Some? && StartsWith(pathname.value, "/reservas") && pathname.value != Confirmation
    ensures HeaderButtons(pathname).showSearch ==> IsDarkContext(pathname)
  {
    if pathname.Some? && StartsWith(pathname.value, "/reservas") {
      assert StartsWith(pathname.value, DarkRoutes[0]);
    }
  }

  /** What the header draws. */
  datatype View = View(buttons: Buttons, textWhite: bool)

  /** `Header()`: nothing on the admin and super-admin areas. */
  function Header(pathname: Option<string>, scrolled: bool): (r: Option<View>)
    ensures r.None? <==> pathname.Some? && (StartsWith(pathname.value, "/admin") || StartsWith(pathname.value, "/super-admin"))
    ensures r.Some? ==> r.value.textWhite == (IsDarkContext(pathname) && !scrolled)
  {
    if pathname.Some? && (StartsWith(pathname.value, "/admin") || StartsWith(pathname.value, "/super-admin")) then None
    else Some(View(HeaderButtons(pathname), IsDarkContext(pathname) && !scrolled))
  }

  /** Once the page is scrolled the text is always dark; before, it is white exactly on a dark page. */
  lemma TextColor(pathname: Option<string>, scrolled: bool)
    requires Header(pathname, scrolled).Some?
    ensures scrolled ==> !Header(pathname, scrolled).value.textWhite
    ensures !scrolled ==> (Header(pathname, scrolled).value.textWhite <==> IsDarkContext(pathname))
  {
  }
}
