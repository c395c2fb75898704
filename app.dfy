/** The application shell of src/App.tsx: the document title derived from
    the current path, and the route table, which depends on whether the
    authentication state is still loading and whether a user is signed in. */
module App {
  import opened Common

  // ---------------------------------------------------------------------
  // Document title

  const TitlePrefix: string := "PetMate - "
  const HomeTitle: string := "Pet Management"

  /** The last piece of `s` split on "/". */
  function LastSegment(path: string): (r: string)
    ensures '/' !in r
  {
    var pieces := Split(path, '/');
    SplitPiecesLackSep(path, '/');
    pieces[|pieces| - 1]
  }

  /** `location.pathname.split("/").pop() || "home"`. */
  function PageName(path: string): (r: string)
    ensures r != "" && '/' !in r
  {
    var last := LastSegment(path);
    if last == "" then "home" else last
  }

  /** `pageName.charAt(0).toUpperCase() + pageName.slice(1)`: the first
      character upper-cased, the rest unchanged. */
  function FormatName(name: string): (r: string)
    ensures |r| == |name|
    ensures name != "" ==> r[0] == UpperChar(name[0]) && r[1..] == name[1..]
  {
    if name == "" then "" else [UpperChar(name[0])] + name[1..]
  }

  function Title(path: string): (t: string)
    ensures |t| > |TitlePrefix| && t[..|TitlePrefix|] == TitlePrefix
  {
    var formatted := FormatName(PageName(path));
    TitlePrefix + (if formatted == "Home" then HomeTitle else formatted)
  }

  /** Every title is the prefix followed by a non-empty name, which is
      "Pet Management" exactly when the formatted page name is "Home" or
      is itself "Pet Management" (as for the path "/pet Management"). */
  lemma TitleShape(path: string)
    ensures var t, f := Title(path), FormatName(PageName(path));
      && |t| > |TitlePrefix| && t[..|TitlePrefix|] == TitlePrefix
      && (f == "Home" || f == HomeTitle <==> t[|TitlePrefix|..] == HomeTitle)
      && (f != "Home" ==> t[|TitlePrefix|..] == f)
  {
  }

  /** The page name of a path that ends in a segment is that segment. */
  lemma {:induction false} PageNameOfSegment(prefix: string, segment: string)
    requires segment != "" && '/' !in segment
    ensures PageName(prefix + "/" + segment) == segment
  {
    SplitAt(prefix, segment, '/');
    SplitNoSep(segment, '/');
  }

  /** A path that ends in "/" is titled like the home page. */
  lemma {:induction false} TrailingSlashIsHome(prefix: string)
    ensures PageName(prefix + "/") == "home"
    ensures Title(prefix + "/") == TitlePrefix + HomeTitle
  {
    SplitAt(prefix, "", '/');
    assert prefix + "/" == prefix + ['/'] + "";
  }

  /** "/" and "/home" are both titled "PetMate - Pet Management". */
  lemma HomeTitles()
    ensures Title("/") == TitlePrefix + HomeTitle
    ensures Title("/home") == TitlePrefix + HomeTitle
  {
    TrailingSlashIsHome("");
    assert "" + "/" == "/";
    PageNameOfSegment("", "home");
    assert "" + "/" + "home" == "/home";
  }

  /** Any other last segment names the page: "/appointments" is titled
      "PetMate - Appointments". */
  lemma SegmentTitle(prefix: string, segment: string)
    requires segment != "" && '/' !in segment && FormatName(segment) != "Home"
    ensures Title(prefix + "/" + segment) == TitlePrefix + FormatName(segment)
  {
    PageNameOfSegment(prefix, segment);
  }

  // ---------------------------------------------------------------------
  // Routes

  /** The pages the route table can render. */
  datatype Page =
    | Landing | Home | AddPet | PetProfile(id: string) | Appointments | Ai | Settings
    | Login | Signup | ResetPassword

  /** What App renders: the loading spinner, a page (inside the Layout
      shell or not), or a replacing redirect. */
  datatype Screen = Spinner | Show(page: Page, inLayout: bool) | Redirect(to: string)

  /** The pages only a signed-in user reaches. */
  predicate IsMemberPage(p: Page)
  {
    p.Home? || p.AddPet? || p.PetProfile? || p.Appointments? || p.Ai? || p.Settings?
  }

  /** `pieces` without the empty pieces at its end. */
  function DropTrailingEmpty(pieces: seq<string>): (r: seq<string>)
    ensures |r| <= |pieces| && r == pieces[..|r|]
    ensures r == [] || r[|r| - 1] != ""
  {
    if pieces != [] && pieces[|pieces| - 1] == "" then DropTrailingEmpty(pieces[..|pieces| - 1])
    else pieces
  }

  /** What DropTrailingEmpty removes is empty pieces only. */
  lemma {:induction false} DropTrailingEmptyDropsEmpty(pieces: seq<string>)
    ensures forall k :: |DropTrailingEmpty(pieces)| <= k < |pieces| ==> pieces[k] == ""
  {
    if pieces != [] && pieces[|pieces| - 1] == "" {
      DropTrailingEmptyDropsEmpty(pieces[..|pieces| - 1]);
    }
  }

  /** The path split on "/" as the router matches it: the pattern of a
      route allows any number of slashes after the path and nothing else,
      so the trailing empty pieces are dropped and every other piece
      counts, the empty one before the leading slash included. */
  function Segments(path: string): (segs: seq<string>)
    ensures segs == [] || segs[|segs| - 1] != ""
  {
    DropTrailingEmpty(Split(path, '/'))
  }

  /** Static segments match without regard to ASCII case. */
  predicate IsSegment(s: string, literal: string)
  {
    ToLower(s) == literal
  }

  /** The path is "/" followed by one static segment matching `literal`
      (and any trailing slashes). */
  predicate IsPath(segs: seq<string>, literal: string)
  {
    |segs| == 2 && segs[0] == "" && IsSegment(segs[1], literal)
  }

  /** The route table. While authentication is loading only the spinner is
      shown. "/" renders the Layout shell around the home page for a user,
      the landing page otherwise; the member pages exist only for a user;
      the authentication pages exist for everyone; anything else redirects
      to "/" for a user and to "/login" otherwise. */
  function Resolve(authLoading: bool, signedIn: bool, path: string): (screen: Screen)
    ensures screen.Spinner? <==> authLoading
  {
    if authLoading then Spinner else Route(signedIn, Segments(path))
  }

  /** The page of the first route whose pattern matches the path's
      segments, if any. */
  function Matched(signedIn: bool, segs: seq<string>): (r: Option<Screen>)
    ensures r.Some? ==> r.value.Show?
  {
    if segs == [] then Some(if signedIn then Show(Home, true) else Show(Landing, false))
    else if IsPath(segs, "login") then Some(Show(Login, false))
    else if IsPath(segs, "signup") then Some(Show(Signup, false))
    else if IsPath(segs, "reset-password") then Some(Show(ResetPassword, false))
    else if signedIn && IsPath(segs, "add-pet") then Some(Show(AddPet, true))
    else if signedIn && IsPath(segs, "appointments") then Some(Show(Appointments, true))
    else if signedIn && IsPath(segs, "ai") then Some(Show(Ai, true))
    else if signedIn && IsPath(segs, "settings") then Some(Show(Settings, true))
    else if signedIn && |segs| == 3 && segs[0] == "" && IsSegment(segs[1], "pets") then Some(Show(PetProfile(segs[2]), true))
    else None
  }

  /** The route the router picks for the path's segments: the matched page,
      or else the catch-all redirect. */
  function Route(signedIn: bool, segs: seq<string>): Screen
  {
    match Matched(signedIn, segs)
    case Some(screen) => screen
    case None => Redirect(if signedIn then "/" else "/login")
  }

  /** Without a user no member page is reachable; with one the landing
      page is not; member pages are exactly the ones shown inside the
      Layout shell. */
  lemma MemberPagesNeedUser(signedIn: bool, path: string)
    ensures var s := Resolve(false, signedIn, path);
      && (s.Show? ==> (IsMemberPage(s.page) <==> s.inLayout))
      && (!signedIn && s.Show? ==> !IsMemberPage(s.page))
      && (signedIn && s.Show? ==> s.page != Landing)
  {
  }

  /** A leading slash splits off one empty piece. */
  lemma SplitLeadingSlash(t: string)
    ensures Split("/" + t, '/') == [""] + Split(t, '/')
  {
    SplitCons('/', t, '/');
  }

  lemma LoginSplit()
    ensures Split("/login", '/') == ["", "login"]
  {
    SplitLeadingSlash("login");
    SplitNoSep("login", '/');
    assert "/" + "login" == "/login";
  }

  lemma LoginSegments()
    ensures Segments("/login") == ["", "login"]
  {
    LoginSplit();
  }

  lemma LoginRoute(signedIn: bool)
    ensures Matched(signedIn, ["", "login"]) == Some(Show(Login, false))
  {
    assert ToLower("login") == "login";
  }

  lemma RootSegments()
    ensures Segments("/") == []
  {
    SplitLeadingSlash("");
    assert "/" + "" == "/";
    assert Split("/", '/') == ["", ""];
    assert ["", ""][..1] == [""];
    assert [""][..0] == [];
  }

  /** Every redirect goes to "/" for a user and "/login" otherwise, and
      the target is itself a page, so a redirect never chains. */
  lemma RedirectsSettle(signedIn: bool, path: string)
    ensures Resolve(false, signedIn, path).Redirect? ==>
      Resolve(false, signedIn, path).to == (if signedIn then "/" else "/login")
    ensures Resolve(false, signedIn, path).Redirect? ==>
      Resolve(false, signedIn, Resolve(false, signedIn, path).to).Show?
  {
    if signedIn {
      RootSegments();
    } else {
      LoginSegments();
      LoginRoute(signedIn);
    }
  }

  /** A trailing slash does not change what a path renders. */
  lemma TrailingSlashIgnored(authLoading: bool, signedIn: bool, path: string)
    ensures Resolve(authLoading, signedIn, path + "/") == Resolve(authLoading, signedIn, path)
  {
    SplitAt(path, "", '/');
    assert path + "/" == path + ['/'] + "";
    var pieces := Split(path, '/');
    assert Split(path + "/", '/') == pieces + [""];
    assert (pieces + [""])[..|pieces|] == pieces;
    assert Segments(path + "/") == Segments(path);
  }

  /** Dropping trailing empty pieces leaves a piece put in front alone,
      unless nothing else is left. */
  lemma {:induction false} DropTrailingEmptyCons(x: string, pieces: seq<string>)
    requires DropTrailingEmpty(pieces) != []
    ensures DropTrailingEmpty([x] + pieces) == [x] + DropTrailingEmpty(pieces)
  {
    var longer := [x] + pieces;
    assert longer[|longer| - 1] == pieces[|pieces| - 1];
    if pieces[|pieces| - 1] == "" {
      var init := pieces[..|pieces| - 1];
      assert longer[..|longer| - 1] == [x] + init;
      DropTrailingEmptyCons(x, init);
    }
  }

  /** A repeated leading slash is not forgiven: a second slash in front of
      any path other than the root ("//login", say) makes it unmatched, so
      it redirects like any unknown path. */
  lemma {:induction false} ExtraLeadingSlashRedirects(signedIn: bool, path: string)
    requires path != [] && path[0] == '/' && Segments(path) != []
    ensures Resolve(false, signedIn, "/" + path) == Redirect(if signedIn then "/" else "/login")
  {
    SplitLeadingSlash(path);
    SplitLeadingSlash(path[1..]);
    assert "/" + path[1..] == path;
    DropTrailingEmptyCons("", Split(path, '/'));
    var segs := Segments("/" + path);
    assert segs == [""] + Segments(path);
    assert segs[1] == "" && ToLower("") == "";
  }

  // The route table, read from the paths' side: which page each route's
  // path shows to a user and to a guest.

  /** A path of one segment splits into the empty piece before the slash
      and that segment. */
  lemma OneSegment(seg: string)
    requires seg != "" && '/' !in seg
    ensures Split("/" + seg, '/') == ["", seg]
    ensures Segments("/" + seg) == ["", seg]
  {
    SplitLeadingSlash(seg);
    SplitNoSep(seg, '/');
  }

  /** A path of two segments splits into the empty piece and the two. */
  lemma TwoSegments(seg: string, id: string)
    requires seg != "" && '/' !in seg && id != "" && '/' !in id
    ensures Segments("/" + seg + "/" + id) == ["", seg, id]
  {
    SplitAt("/" + seg, id, '/');
    assert "/" + seg + "/" + id == ("/" + seg) + ['/'] + id;
    OneSegment(seg);
    SplitNoSep(id, '/');
    assert Split("/" + seg + "/" + id, '/') == ["", seg] + [id];
  }

  /** "/" shows the landing page to a guest and the home page, inside the
      Layout shell, to a user. */
  lemma RootRoute()
    ensures Resolve(false, false, "/") == Show(Landing, false)
    ensures Resolve(false, true, "/") == Show(Home, true)
  {
    RootSegments();
  }

  /** The authentication pages are shown outside the shell, to everyone. */
  lemma AuthRoutes(signedIn: bool, seg: string)
    requires '/' !in seg
    ensures ToLower(seg) == "login" ==> Resolve(false, signedIn, "/" + seg) == Show(Login, false)
    ensures ToLower(seg) == "signup" ==> Resolve(false, signedIn, "/" + seg) == Show(Signup, false)
    ensures ToLower(seg) == "reset-password" ==>
      Resolve(false, signedIn, "/" + seg) == Show(ResetPassword, false)
  {
    if seg != "" {
      OneSegment(seg);
    }
  }

  /** A user reaches each member page, inside the shell, at its path; a
      guest is sent to "/login" instead. */
  lemma MemberRoutes(signedIn: bool, seg: string)
    requires '/' !in seg
    requires ToLower(seg) in {"add-pet", "appointments", "ai", "settings"}
    ensures signedIn ==> Resolve(false, signedIn, "/" + seg) == Show(
      if ToLower(seg) == "add-pet" then AddPet
      else if ToLower(seg) == "appointments" then Appointments
      else if ToLower(seg) == "ai" then Ai
      else Settings, true)
    ensures !signedIn ==> Resolve(false, signedIn, "/" + seg) == Redirect("/login")
  {
    OneSegment(seg);
  }

  /** A user reaches the profile of the pet named by a non-empty,
      slash-free id at "/pets/<id>"; a guest is sent to "/login". */
  lemma PetProfileRoute(signedIn: bool, seg: string, id: string)
    requires '/' !in seg && ToLower(seg) == "pets"
    requires id != "" && '/' !in id
    ensures signedIn ==> Resolve(false, signedIn, "/" + seg + "/" + id) == Show(PetProfile(id), true)
    ensures !signedIn ==> Resolve(false, signedIn, "/" + seg + "/" + id) == Redirect("/login")
  {
    TwoSegments(seg, id);
  }
}
