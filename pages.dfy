/** The listing pages of content/models.py (`HomePage`, `SectionPage`,
    `SupportSectionPage`) and the small helpers beside them: the subscriber
    flag, the support-section URL prefix, the footer-tagline check and the
    image pickers. */
module Pages {
  import opened Wrappers
  import opened Seqs
  import opened Text
  import opened Articles
  import opened Selection

  /** `request.user` as the pages see it: anonymous users are not
      authenticated and have no profile; a user's profile may be missing. */
  datatype UserProfile = UserProfile(isSubscriber: bool)
  datatype User = User(isAuthenticated: bool, profile: Option<UserProfile>)

  /** `is_premium_subscriber` / `is_subscriber`: computed the same way on the
      three listing pages and on the article page, and never an error. */
  function IsPremiumSubscriber(user: User): (r: bool)
    ensures !user.isAuthenticated ==> !r
    ensures user.profile.None? ==> !r
    ensures r <==> user.isAuthenticated && user.profile == Some(UserProfile(true))
  {
    user.isAuthenticated && user.profile.Some? && user.profile.value.isSubscriber
  }

  /** How a page chooses its candidates: the live articles below it in the
      page tree, or the live articles whose `section` is its key. */
  datatype Scope = DescendantsOf(pagePath: string) | InSection(sectionKey: string)

  predicate InScope(a: Article, scope: Scope) {
    match scope
    case DescendantsOf(p) => |p| < |a.treePath| && a.treePath[..|p|] == p
    case InSection(k) => a.section == k
  }

  function IsCandidate(scope: Scope): Article -> bool {
    (a: Article) => a.live && InScope(a, scope)
  }

  /** `ArticlePage.objects.descendant_of(self).live()` or
      `ArticlePage.objects.filter(section=self.section_key).live()` over the
      article table `store`. */
  function Candidates(store: seq<Article>, scope: Scope): seq<Article> {
    Filter(IsCandidate(scope), store)
  }

  /** `a` is shown somewhere on the listing. */
  predicate Listed(l: Listing, a: Article) {
    l.featured == Some(a) || a in l.trending || a in l.regular
  }

  /** A page lists only live articles of its own scope, and, when the table
      has distinct keys, each of them exactly once across the three tiers. */
  lemma ScopeIsolation(store: seq<Article>, scope: Scope, now: int)
    requires DistinctIds(store)
    ensures var c := Candidates(store, scope);
      var l := Select(c, now);
      && (forall a :: Listed(l, a) <==> a in store && a.live && InScope(a, scope))
      && multiset(HeroSeq(l.featured)) + multiset(l.trending) + multiset(l.regular) == multiset(c)
  {
    var c := Candidates(store, scope);
    DistinctIdsFilter(IsCandidate(scope), store);
    SelectPartition(c, now);
  }

  /** The context fields the three listing pages compute. */
  datatype PageContext = PageContext(listing: Listing, isPremiumSubscriber: bool)

  datatype HomePage = HomePage(treePath: string, footerTagline: string)
  datatype SectionPage = SectionPage(treePath: string, sectionKey: string)
  datatype SupportSectionPage = SupportSectionPage(treePath: string)

  /** `HomePage.get_context`: the selection over every live article below
      the home page, and the subscriber flag. */
  method HomePageContext(page: HomePage, store: seq<Article>, user: User, now: int)
    returns (ctx: PageContext)
    ensures ctx.listing == Select(Candidates(store, DescendantsOf(page.treePath)), now)
    ensures forall a :: Listed(ctx.listing, a) ==> a in store && a.live && InScope(a, DescendantsOf(page.treePath))
    ensures ctx.isPremiumSubscriber == IsPremiumSubscriber(user)
  {
    var listing := SelectListing(Candidates(store, DescendantsOf(page.treePath)), now);
    ListedAreCandidates(store, DescendantsOf(page.treePath), now);
    ctx := PageContext(listing, IsPremiumSubscriber(user));
  }

  /** `SectionPage.get_context`: the selection over every live article whose
      section is the page's key, wherever it sits in the tree. */
  method SectionPageContext(page: SectionPage, store: seq<Article>, user: User, now: int)
    returns (ctx: PageContext)
    ensures ctx.listing == Select(Candidates(store, InSection(page.sectionKey)), now)
    ensures forall a :: Listed(ctx.listing, a) ==> a in store && a.live && a.section == page.sectionKey
    ensures ctx.isPremiumSubscriber == IsPremiumSubscriber(user)
  {
    var listing := SelectListing(Candidates(store, InSection(page.sectionKey)), now);
    ListedAreCandidates(store, InSection(page.sectionKey), now);
    ctx := PageContext(listing, IsPremiumSubscriber(user));
  }

  /** `SupportSectionPage.get_context`: the selection over every live article
      below the support page. */
  method SupportSectionPageContext(page: SupportSectionPage, store: seq<Article>, user: User, now: int)
    returns (ctx: PageContext)
    ensures ctx.listing == Select(Candidates(store, DescendantsOf(page.treePath)), now)
    ensures forall a :: Listed(ctx.listing, a) ==> a in store && a.live && InScope(a, DescendantsOf(page.treePath))
    ensures ctx.isPremiumSubscriber == IsPremiumSubscriber(user)
  {
    var listing := SelectListing(Candidates(store, DescendantsOf(page.treePath)), now);
    ListedAreCandidates(store, DescendantsOf(page.treePath), now);
    ctx := PageContext(listing, IsPremiumSubscriber(user));
  }

  /** Whatever the keys, a listing shows only candidates. */
  lemma ListedAreCandidates(store: seq<Article>, scope: Scope, now: int)
    ensures forall a :: Listed(Select(Candidates(store, scope), now), a) ==> a in store && a.live && InScope(a, scope)
  {
    var c := Candidates(store, scope);
    var l := Select(c, now);
    forall a | Listed(l, a) ensures a in c {
      if a in l.trending {
        assert a in multiset(l.trending);
      } else if a in l.regular {
        assert a in multiset(l.regular);
      }
    }
  }

  /** `(site_id, root_url, page_path)` from `Page.get_url_parts`. */
  datatype UrlParts = UrlParts(siteId: int, rootUrl: string, pagePath: string)

  const SupportPrefix: string := "/subsecao"

  /** `SupportSectionPage.get_url_parts` applied to what the parent class
      returned: no URL stays no URL; otherwise only the path may change, and
      it gains the `/subsecao` prefix exactly when it is non-empty and does
      not already start with `/subsecao/`. */
  function SupportUrlParts(parent: Option<UrlParts>): (r: Option<UrlParts>)
    ensures r.None? <==> parent.None?
    ensures r.Some? ==> r.value.siteId == parent.value.siteId && r.value.rootUrl == parent.value.rootUrl
    ensures r.Some? ==> EndsWith(r.value.pagePath, parent.value.pagePath)
    ensures r.Some? ==> (r.value.pagePath != parent.value.pagePath
                         <==> parent.value.pagePath != "" && !StartsWith(parent.value.pagePath, SupportPrefix + "/"))
    ensures r.Some? && r.value.pagePath != parent.value.pagePath ==> r.value.pagePath == SupportPrefix + parent.value.pagePath
  {
    if parent.None? then None
    else
      var path := parent.value.pagePath;
      var newPath := if path != "" && !StartsWith(path, SupportPrefix + "/") then SupportPrefix + path else path;
      assert newPath[|newPath| - |path|..] == path;
      Some(parent.value.(pagePath := newPath))
  }

  /** For the paths Wagtail produces, which start with `/`, rewriting twice is
      rewriting once. */
  lemma SupportUrlPartsIdempotent(parts: UrlParts)
    requires StartsWith(parts.pagePath, "/")
    ensures SupportUrlParts(SupportUrlParts(Some(parts))) == SupportUrlParts(Some(parts))
  {
    var p := parts.pagePath;
    var once := SupportUrlParts(Some(parts)).value.pagePath;
    if once != p {
      assert once == SupportPrefix + p;
      assert once[..10] == SupportPrefix + "/";
    }
  }

  /** A path without the leading `/` is not stable: `x` becomes `/subsecaox`
      and then `/subsecao/subsecaox`. */
  lemma SupportUrlPartsNotIdempotentWithoutSlash()
    ensures var parts := Some(UrlParts(1, "", "x"));
      SupportUrlParts(parts).value.pagePath == "/subsecaox"
      && SupportUrlParts(SupportUrlParts(parts)).value.pagePath == "/subsecao/subsecaox"
  {
    var once := "/subsecaox";
    assert !StartsWith("x", SupportPrefix + "/");
    assert SupportPrefix + "x" == once;
    assert SupportUrlParts(Some(UrlParts(1, "", "x"))) == Some(UrlParts(1, "", once));
    assert once[9] != (SupportPrefix + "/")[9];
    assert !StartsWith(once, SupportPrefix + "/");
    assert SupportPrefix + once == "/subsecao/subsecaox";
  }

  /** The error `HomePage.clean` raises for the footer tagline. */
  datatype CleanError = FooterTaglineTooShort

  const MinTaglineLength: nat := 10

  /** `HomePage.clean`: an empty tagline is accepted; any other must keep at
      least ten characters once surrounding whitespace is stripped. */
  function CleanHomePage(footerTagline: string): (r: Outcome<CleanError>)
    ensures footerTagline == "" ==> r.Pass?
    ensures r.Fail? <==> footerTagline != "" && |Trim(IsPySpace, footerTagline)| < MinTaglineLength
  {
    if footerTagline != "" && |Trim(IsPySpace, footerTagline)| < MinTaglineLength then Fail(FooterTaglineTooShort)
    else Pass
  }

  /** A tagline of blanks is not empty but strips to nothing, so it is
      refused. */
  lemma CleanHomePageRejectsBlanks(blanks: string)
    requires blanks != [] && AllIn(IsPySpace, blanks)
    ensures CleanHomePage(blanks).Fail?
  {
    TrimEmptyIff(IsPySpace, blanks);
  }

  /** A tagline of ten or more characters that neither begins nor ends with
      whitespace (the shipped default among them) is accepted. */
  lemma CleanHomePageAcceptsTrimmed(tagline: string)
    requires |tagline| >= MinTaglineLength
    requires !IsPySpace(tagline[0]) && !IsPySpace(tagline[|tagline| - 1])
    ensures CleanHomePage(tagline).Pass?
  {
    assert TrimStart(IsPySpace, tagline) == tagline;
    assert TrimEnd(IsPySpace, tagline) == tagline;
  }

  /** A stored image; `fileUrl` is `image.file.url`. */
  datatype Image = Image(fileUrl: string)

  /** `ArticlePage.get_image_url`: the external URL when one is set, else the
      uploaded image's URL, else none. */
  function ArticleImageUrl(externalImageUrl: string, featuredImage: Option<Image>): (r: Option<string>)
    ensures r.None? <==> externalImageUrl == "" && featuredImage.None?
    ensures externalImageUrl != "" ==> r == Some(externalImageUrl)
    ensures externalImageUrl == "" && featuredImage.Some? ==> r == Some(featuredImage.value.fileUrl)
  {
    if externalImageUrl != "" then Some(externalImageUrl)
    else if featuredImage.Some? then Some(featuredImage.value.fileUrl)
    else None
  }

  const ThumbnailPlaceholder: string := "https://via.placeholder.com/400x700/E3120B/FFFFFF?text=Video"

  /** `VideoShort.get_thumbnail_url`: the external thumbnail URL when set,
      else the uploaded thumbnail's URL, else the fixed placeholder, so a
      video always has a thumbnail. */
  function VideoThumbnailUrl(thumbnailUrl: string, thumbnailImage: Option<Image>): (r: string)
    ensures thumbnailUrl != "" ==> r == thumbnailUrl
    ensures thumbnailUrl == "" && thumbnailImage.Some? ==> r == thumbnailImage.value.fileUrl
    ensures thumbnailUrl == "" && thumbnailImage.None? ==> r == ThumbnailPlaceholder
  {
    if thumbnailUrl != "" then thumbnailUrl
    else if thumbnailImage.Some? then thumbnailImage.value.fileUrl
    else ThumbnailPlaceholder
  }
}
