/** The application shell: a single current-page string, the choice of layout
    (authenticated, with sidebar and mobile bar, or public, with header), the page
    content for each page value, when the footer shows, and where each of the shell's
    own controls leads. */
module App {

  const HomePage := "home"
  const LoginPage := "login"
  const SignupPage := "signup"
  const DashboardPage := "dashboard"
  const ProjectsPage := "projects"
  const CreatePage := "create"

  /** The pages drawn inside the authenticated layout. */
  const AuthPages := [DashboardPage, ProjectsPage, CreatePage]

  /** The page the application opens on, given whether a non-empty session token is stored. */
  function InitialPage(hasToken: bool): (p: string)
    ensures p == DashboardPage <==> hasToken
    ensures !hasToken ==> p == HomePage
  {
    if hasToken then DashboardPage else HomePage
  }

  /** The authenticated layout frames exactly the dashboard, projects and creation content. */
  predicate IsAuthPage(p: string)
    ensures IsAuthPage(p) <==> RenderContent(p) in {DashboardContent, ProjectsContent, CreateContent}
  {
    p in AuthPages
  }

  /** What the content area shows. */
  datatype Content =
    | LoginContent | SignupContent | DashboardContent | ProjectsContent | CreateContent
    | LandingContent   // hero, demo videos, offer and tutorial sections

  /** The `switch` on the current page; every value it does not name shows the landing content. */
  function RenderContent(p: string): (c: Content)
    ensures c == LandingContent <==> p !in [LoginPage, SignupPage, DashboardPage, ProjectsPage, CreatePage]
    ensures c == LoginContent <==> p == LoginPage
    ensures c == SignupContent <==> p == SignupPage
    ensures c == DashboardContent <==> p == DashboardPage
    ensures c == ProjectsContent <==> p == ProjectsPage
    ensures c == CreateContent <==> p == CreatePage
  {
    if p == LoginPage then LoginContent
    else if p == SignupPage then SignupContent
    else if p == DashboardPage then DashboardContent
    else if p == ProjectsPage then ProjectsContent
    else if p == CreatePage then CreateContent
    else LandingContent
  }

  /** Which parts of the screen are drawn. */
  datatype Layout = Layout(sidebar: bool, mobileNav: bool, header: bool, content: Content, footer: bool)

  function LayoutFor(p: string): (l: Layout)
    ensures l.sidebar == l.mobileNav == !l.header == IsAuthPage(p)
    ensures l.content == RenderContent(p)
  {
    if IsAuthPage(p) then Layout(true, true, false, RenderContent(p), p != CreatePage)
    else Layout(false, false, true, RenderContent(p), true)
  }

  /** The footer shows on every page except the video-creation page. */
  lemma FooterShownUnlessCreate(p: string)
    ensures LayoutFor(p).footer <==> p != CreatePage
  {
  }

  /** With a token the application opens on the dashboard inside the authenticated
      layout; without one, on the landing content inside the public layout. */
  lemma InitialLayout(hasToken: bool)
    ensures LayoutFor(InitialPage(hasToken)).sidebar == hasToken
    ensures LayoutFor(InitialPage(hasToken)).content == if hasToken then DashboardContent else LandingContent
  {
  }

  /** The controls the shell draws itself. */
  datatype Control =
    | Logo | HeaderLogin | HeaderSignup       // public header
    | HeroSignup | PromoSignup                // buttons in the landing content
    | MobileDashboard | MobileCreate | MobileProjects   // mobile bar of the authenticated layout

  /** Whether page `p` draws control `c`, so that it can be pressed: a header control
      exactly when the header is drawn, a landing button exactly when the landing content
      is, a mobile-bar button exactly when the mobile bar is. */
  predicate Offers(p: string, c: Control)
    ensures c in {Logo, HeaderLogin, HeaderSignup} ==> (Offers(p, c) <==> LayoutFor(p).header)
    ensures c in {HeroSignup, PromoSignup} ==> (Offers(p, c) <==> LayoutFor(p).content == LandingContent)
    ensures c in {MobileDashboard, MobileCreate, MobileProjects} ==> (Offers(p, c) <==> LayoutFor(p).mobileNav)
  {
    match c
    case Logo | HeaderLogin | HeaderSignup => !IsAuthPage(p)
    case HeroSignup | PromoSignup => RenderContent(p) == LandingContent
    case MobileDashboard | MobileCreate | MobileProjects => IsAuthPage(p)
  }

  /** The page a control leads to; the logo reads the stored token at the time of the click.
      Each mobile-bar button opens its own view of the authenticated layout; the logo goes
      where the application would open; every other public control leads to a form of the
      public layout. */
  function Target(c: Control, hasToken: bool): (t: string)
    ensures c in {MobileDashboard, MobileCreate, MobileProjects} ==> IsAuthPage(t)
    ensures c == MobileDashboard ==> RenderContent(t) == DashboardContent
    ensures c == MobileCreate ==> RenderContent(t) == CreateContent
    ensures c == MobileProjects ==> RenderContent(t) == ProjectsContent
    ensures c == Logo ==> t == InitialPage(hasToken)
    ensures c == HeaderLogin ==> RenderContent(t) == LoginContent
    ensures c in {HeaderSignup, HeroSignup, PromoSignup} ==> RenderContent(t) == SignupContent
  {
    match c
    case Logo => InitialPage(hasToken)
    case HeaderLogin => LoginPage
    case HeaderSignup | HeroSignup | PromoSignup => SignupPage
    case MobileDashboard => DashboardPage
    case MobileCreate => CreatePage
    case MobileProjects => ProjectsPage
  }

  class Navigator {
    var currentPage: string

    /** `hasToken` says whether a non-empty session token is stored when the application starts. */
    constructor (hasToken: bool)
      ensures currentPage == InitialPage(hasToken)
    {
      currentPage := InitialPage(hasToken);
    }

    /** `setCurrentPage`, the `onNavigate` callback handed to every page. Any string is accepted. */
    method Navigate(page: string)
      modifies this
      ensures currentPage == page
    {
      currentPage := page;
    }

    /** A press on one of the shell's own controls; only a drawn control can be pressed. */
    method Press(c: Control, hasToken: bool)
      requires Offers(currentPage, c)
      modifies this
      ensures currentPage == Target(c, hasToken)
    {
      Navigate(Target(c, hasToken));
    }
  }
}
