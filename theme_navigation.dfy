/**
 * The navigation filters of the Spine theme: WordPress filter callbacks that
 * rewrite the CSS classes, URLs and anchor attributes emitted for menus built
 * by WordPress core and by the BU Navigation plugin.
 *
 * The ambient WordPress state each callback reads (the current post, the view
 * flags, the posts-page option, the section-label query) is a parameter here.
 */
module ThemeNavigation {
  import opened Wrappers
  import opened PhpArray

  type ClassList = seq<string>

  /**
   * PHP's `array_intersect($a, $b)`: the values of `$a` present in `$b`, each
   * as often as it occurs in `$a`.
   */
  function ArrayIntersect(a: seq<string>, b: seq<string>): (r: seq<string>)
    ensures forall x :: x in r <==> x in a && x in b
    ensures forall x :: multiset(r)[x] == if x in b then multiset(a)[x] else 0
    ensures |r| <= |a|
  {
    if a == [] then []
    else
      assert a == [a[0]] + a[1..];
      (if a[0] in b then [a[0]] else []) + ArrayIntersect(a[1..], b)
  }

  /** The two menus the theme registers for the Spine navigation. */
  predicate IsSpineMenu(menu: string)
  {
    menu == "site" || menu == "offsite"
  }

  /**
   * `abbridged_menu_classes`: the classes WordPress core gives a menu item.
   * `objectId` is the item's `object_id`, `currentPostParent` the current
   * post's `post_parent` (None when there is no current post).
   */
  function AbbridgedMenuClasses(classes: ClassList, objectId: int, currentPostParent: Option<int>,
                                menu: string): (r: ClassList)
    ensures IsSpineMenu(menu) ==> r == [] || r == ["current"]
    ensures IsSpineMenu(menu) ==>
      (r == ["current"] <==>
        ("current-menu-item" in classes || "current_page_parent" in classes) ||
        (currentPostParent == Some(objectId) && "current_page_parent" !in classes))
    ensures !IsSpineMenu(menu) ==> |classes| <= |r| <= |classes| + 1 && r[..|classes|] == classes
    ensures !IsSpineMenu(menu) ==>
      (|r| == |classes| + 1 <==> "current-menu-item" in classes || "current_page_parent" in classes)
    ensures !IsSpineMenu(menu) && |r| > |classes| ==> r[|classes|] == "current"
  {
    var currentOrParentPage := ArrayIntersect(["current-menu-item", "current_page_parent"], classes);
    assert currentOrParentPage != [] ==> currentOrParentPage[0] in currentOrParentPage;
    var currentPageParent := currentPostParent == Some(objectId);
    var currentPageNotInMenu := "current_page_parent" !in classes;
    if IsSpineMenu(menu) then
      if |currentOrParentPage| > 0 || (currentPageParent && currentPageNotInMenu) then ["current"] else []
    else if |currentOrParentPage| > 0 then classes + ["current"]
    else classes
  }

  /**
   * For the Spine menus the "not already a parent" guard makes no difference:
   * an item is `current` exactly when it is the current item, the current
   * page's parent marked by WordPress, or the current post's parent.
   */
  lemma SpineMenuCurrentCondition(classes: ClassList, objectId: int, currentPostParent: Option<int>,
                                  menu: string)
    requires IsSpineMenu(menu)
    ensures AbbridgedMenuClasses(classes, objectId, currentPostParent, menu) == ["current"] <==>
      "current-menu-item" in classes || "current_page_parent" in classes ||
      currentPostParent == Some(objectId)
    ensures AbbridgedMenuClasses(classes, objectId, currentPostParent, menu) != ["current"] ==>
      AbbridgedMenuClasses(classes, objectId, currentPostParent, menu) == []
  {
  }

  /**
   * A page as BU Navigation hands it to the filters. Only `url` is ever
   * changed, and it is changed on the caller's object.
   */
  class Page {
    const id: int
    const postParent: int
    const postType: string
    var url: string

    constructor (id: int, postParent: int, postType: string, url: string)
      ensures this.id == id && this.postParent == postParent && this.postType == postType
      ensures this.url == url
    {
      this.id := id;
      this.postParent := postParent;
      this.postType := postType;
      this.url := url;
    }
  }

  /** PHP's `absint` on an integer key. */
  function AbsInt(n: int): (r: nat)
    ensures r == n || r == -n
    ensures n >= 0 ==> r == n
  {
    if n < 0 then -n else n
  }

  /**
   * The section-label query: the `post_id`s among `absint` of the array keys
   * whose page template is the section-label template. `sectionLabelPosts`
   * stands for the posts carrying that template in the database.
   */
  function SectionLabelIds(keys: seq<int>, sectionLabelPosts: set<int>): (r: set<int>)
    ensures forall id :: id in r ==> id in sectionLabelPosts && id >= 0
    ensures forall id :: id in r ==> exists k :: k in keys && AbsInt(k) == id
    ensures forall k :: k in keys && AbsInt(k) in sectionLabelPosts ==> AbsInt(k) in r
  {
    set k | k in keys && AbsInt(k) in sectionLabelPosts :: AbsInt(k)
  }

  /** The page objects an array holds. */
  function PagesOf(s: Arr<int, Page>): set<Page>
  {
    if s == [] then {} else PagesOf(s[..|s| - 1]) + {s[|s| - 1].1}
  }

  lemma {:induction false} PagesOfHas(s: Arr<int, Page>, i: int)
    requires 0 <= i < |s|
    ensures s[i].1 in PagesOf(s)
  {
    if i < |s| - 1 {
      PagesOfHas(s[..|s| - 1], i);
    }
  }

  /** The page objects held by the filter's input. */
  function PageObjects(pages: Option<Arr<int, Page>>): set<Page>
  {
    if pages.None? then {} else PagesOf(pages.value)
  }

  /** The last page of the list with the given ID (the one a re-keyed array keeps). */
  function LastWithId(pages: Arr<int, Page>, id: int): Option<Page>
  {
    if pages == [] then None
    else if pages[|pages| - 1].1.id == id then Some(pages[|pages| - 1].1)
    else LastWithId(pages[..|pages| - 1], id)
  }

  /** `$filtered[ $page->ID ] = $page` for every page in turn. */
  function KeyedById(pages: Arr<int, Page>): (r: Arr<int, Page>)
    ensures DistinctKeys(r)
    ensures forall e :: e in r ==> e.0 == e.1.id
  {
    if pages == [] then []
    else
      var last := pages[|pages| - 1].1;
      Put(KeyedById(pages[..|pages| - 1]), last.id, last)
  }

  /** One turn of the re-keying loop. */
  lemma KeyedByIdStep(pages: Arr<int, Page>, i: int)
    requires 0 <= i < |pages|
    ensures KeyedById(pages[..i + 1]) == Put(KeyedById(pages[..i]), pages[i].1.id, pages[i].1)
    ensures PagesOf(pages[..i + 1]) == PagesOf(pages[..i]) + {pages[i].1}
  {
    assert pages[..i + 1][..i] == pages[..i];
  }

  /** Looking a page up by ID in the re-keyed array gives the last page with that ID. */
  lemma {:induction false} KeyedByIdGet(pages: Arr<int, Page>, id: int)
    ensures Get(KeyedById(pages), id) == LastWithId(pages, id)
  {
    if pages != [] {
      KeyedByIdGet(pages[..|pages| - 1], id);
    }
  }

  /**
   * BU Navigation keys its pages by ID; for such an array the re-keying loop
   * gives back the same entries in the same order.
   */
  lemma {:induction false} KeyedByIdKeepsIdKeyedArray(pages: Arr<int, Page>)
    requires DistinctKeys(pages)
    requires forall i :: 0 <= i < |pages| ==> pages[i].0 == pages[i].1.id
    ensures KeyedById(pages) == pages
  {
    if pages != [] {
      var n := |pages| - 1;
      var init := pages[..n];
      assert pages == init + [pages[n]];
      DistinctKeysSnoc(init, pages[n]);
      KeyedByIdKeepsIdKeyedArray(init);
      PutAbsent(init, pages[n].0, pages[n].1);
    }
  }

  /** True of a page object the filter turns into a section label. */
  predicate BecomesLabel(pages: Option<Arr<int, Page>>, sectionLabelPosts: set<int>, p: Page)
  {
    pages.Some? && |pages.value| > 0 && p.id in SectionLabelIds(Keys(pages.value), sectionLabelPosts)
  }

  /**
   * `bu_filter_page_urls`. `pages` is None when the filter is given something
   * that is not an array.
   */
  method FilterPageUrls(pages: Option<Arr<int, Page>>, sectionLabelPosts: set<int>)
    returns (filtered: Arr<int, Page>)
    modifies PageObjects(pages)
    ensures pages.None? || pages.value == [] ==> filtered == []
    ensures pages.Some? && pages.value != [] ==>
              filtered == if SectionLabelIds(Keys(pages.value), sectionLabelPosts) == {}
                          then pages.value else KeyedById(pages.value)
    ensures pages.Some? ==> forall j :: 0 <= j < |pages.value| ==>
              var p := pages.value[j].1;
              p.url == if BecomesLabel(pages, sectionLabelPosts, p) then "#" else old(p.url)
  {
    filtered := [];
    if pages.Some? && |pages.value| > 0 {
      var all := pages.value;
      var labels := SectionLabelIds(Keys(all), sectionLabelPosts);
      if |labels| > 0 {
        filtered := RelabelAndKey(all, labels);
      } else {
        filtered := all;
      }
    }
  }

  /**
   * The loop of `bu_filter_page_urls`: every page whose ID is a label gets the
   * URL `#`, and each page is stored under its own ID.
   */
  method RelabelAndKey(all: Arr<int, Page>, labels: set<int>) returns (filtered: Arr<int, Page>)
    modifies PagesOf(all)
    ensures filtered == KeyedById(all)
    ensures forall j :: 0 <= j < |all| ==>
              var p := all[j].1;
              p.url == if p.id in labels then "#" else old(p.url)
  {
    filtered := [];
    var i := 0;
    while i < |all|
      invariant 0 <= i <= |all|
      invariant filtered == KeyedById(all[..i])
      invariant forall j :: 0 <= j < |all| ==>
        var p := all[j].1;
        p.url == if p.id in labels && p in PagesOf(all[..i]) then "#" else old(p.url)
    {
      var page := all[i].1;
      PagesOfHas(all, i);
      Relabel(page, labels);
      KeyedByIdStep(all, i);
      filtered := Put(filtered, page.id, page);
      i := i + 1;
    }
    assert all[..i] == all;
    forall j | 0 <= j < |all|
      ensures all[j].1 in PagesOf(all)
    {
      PagesOfHas(all, j);
    }
  }

  /** One page of the loop: a section label's URL becomes `#`. */
  method Relabel(page: Page, labels: set<int>)
    modifies page
    ensures page.url == if page.id in labels then "#" else old(page.url)
  {
    if page.id in labels {
      page.url := "#";
    }
  }

  /** `bu_filter_anchor_attrs`: the anchor's `title` attribute is blanked. */
  function FilterAnchorAttrs(attrs: Arr<string, string>): (r: Arr<string, string>)
    ensures Get(r, "title") == Some("")
    ensures forall k :: k != "title" ==> Get(r, k) == Get(attrs, k)
    ensures Keys(r) == if "title" in Keys(attrs) then Keys(attrs) else Keys(attrs) + ["title"]
    ensures DistinctKeys(attrs) ==> DistinctKeys(r)
  {
    Put(attrs, "title", "")
  }

  lemma AnchorAttrsIdempotent(attrs: Arr<string, string>)
    ensures FilterAnchorAttrs(FilterAnchorAttrs(attrs)) == FilterAnchorAttrs(attrs)
  {
    PutIdempotent(attrs, "title", "");
  }

  /** The view being rendered: `is_singular()`, `is_singular('post')`, `get_the_ID()` and the `page_for_posts` option. */
  datatype Request = Request(isSingular: bool, isSingularPost: bool, currentId: int, pageForPosts: int)

  /** True when `page` is the posts page while a single post is viewed. */
  predicate IsPostsPageOfPost(page: Page, req: Request)
  {
    req.isSingularPost && page.id == req.pageForPosts
  }

  /** What one call adds to `parent_dogeared`. */
  function DogearedParent(page: Page, req: Request): (r: seq<int>)
    ensures r == [] || r == [page.postParent]
    ensures r != [] <==> IsPostsPageOfPost(page, req) && page.postParent != 0
  {
    if IsPostsPageOfPost(page, req) && page.postParent != 0 then [page.postParent] else []
  }

  /**
   * The classes `bu_navigation_filter_item_attrs` appends, given the
   * accumulator as it stands once this call has updated it.
   */
  function ItemMarkers(classes: ClassList, page: Page, req: Request, dogeared: seq<int>): (r: ClassList)
    ensures forall c :: c in r ==> c == "current" || c == "dogeared" || c == "parent"
    ensures |r| <= 5
  {
    var current := CurrentMarker(classes);
    var viewed := ViewedMarker(page, req);
    var postsPage := PostsPageMarker(page, req);
    var parent := ParentMarkers(page, dogeared);
    current + viewed + postsPage + parent
  }

  /** An item is dogeared exactly when it is the page viewed or the posts page of a viewed post. */
  lemma ItemMarkersDogeared(classes: ClassList, page: Page, req: Request, dogeared: seq<int>)
    ensures "dogeared" in ItemMarkers(classes, page, req, dogeared) <==>
      (req.isSingular && req.currentId == page.id) || IsPostsPageOfPost(page, req)
  {
  }

  /**
   * An item is marked `parent` exactly when it is a page recorded as the parent
   * of a dogeared item, and then its last two markers are `current parent`.
   */
  lemma ItemMarkersParent(classes: ClassList, page: Page, req: Request, dogeared: seq<int>)
    ensures "parent" in ItemMarkers(classes, page, req, dogeared) <==>
      page.postType == "page" && page.id in dogeared
    ensures var r := ItemMarkers(classes, page, req, dogeared);
      "parent" in r ==> |r| >= 2 && r[|r| - 2..] == ["current", "parent"]
  {
  }

  /** An item is current when its classes say so or when it is marked as a parent. */
  lemma ItemMarkersCurrent(classes: ClassList, page: Page, req: Request, dogeared: seq<int>)
    ensures var r := ItemMarkers(classes, page, req, dogeared);
      "current" in r <==>
        "current_page_item" in classes || "current_page_parent" in classes || "parent" in r
  {
    ItemMarkersParent(classes, page, req, dogeared);
  }

  /** The class list's own current-item classes earn `current` (includes/theme-navigation.php:138-140). */
  function CurrentMarker(classes: ClassList): (r: ClassList)
    ensures r == [] || r == ["current"]
    ensures r != [] <==> "current_page_item" in classes || "current_page_parent" in classes
  {
    if "current_page_item" in classes || "current_page_parent" in classes then ["current"] else []
  }

  /** The page being viewed is dogeared (includes/theme-navigation.php:142-144). */
  function ViewedMarker(page: Page, req: Request): (r: ClassList)
    ensures r == [] || r == ["dogeared"]
    ensures r != [] <==> req.isSingular && req.currentId == page.id
  {
    if req.isSingular && req.currentId == page.id then ["dogeared"] else []
  }

  /** The posts page is dogeared while a post is viewed (includes/theme-navigation.php:146-147). */
  function PostsPageMarker(page: Page, req: Request): (r: ClassList)
    ensures r == [] || r == ["dogeared"]
    ensures r != [] <==> IsPostsPageOfPost(page, req)
  {
    if IsPostsPageOfPost(page, req) then ["dogeared"] else []
  }

  /** A page recorded as a dogeared item's parent is current and parent (includes/theme-navigation.php:154-157). */
  function ParentMarkers(page: Page, dogeared: seq<int>): (r: ClassList)
    ensures r == [] || r == ["current", "parent"]
    ensures r != [] <==> page.postType == "page" && page.id in dogeared
  {
    if page.postType == "page" && page.id in dogeared then ["current", "parent"] else []
  }

  /** The accumulator after the filter has seen `pages`, in order, during one request. */
  function DogearedAfter(acc: seq<int>, pages: seq<Page>, req: Request): (r: seq<int>)
    decreases |pages|
    ensures |acc| <= |r| <= |acc| + |pages|
  {
    if pages == [] then acc
    else DogearedAfter(acc + DogearedParent(pages[0], req), pages[1..], req)
  }

  /** Filtering one page adds that page's contribution to the accumulator. */
  lemma DogearedAfterOne(acc: seq<int>, page: Page, req: Request)
    ensures DogearedAfter(acc, [page], req) == acc + DogearedParent(page, req)
  {
  }

  /**
   * Filtering `xs` and then `ys` leaves the accumulator as filtering `xs + ys`
   * does, so a series of calls is described by one `DogearedAfter`.
   */
  lemma {:induction false} DogearedAfterAppend(acc: seq<int>, xs: seq<Page>, ys: seq<Page>, req: Request)
    decreases |xs|
    ensures DogearedAfter(acc, xs + ys, req) == DogearedAfter(DogearedAfter(acc, xs, req), ys, req)
  {
    if xs == [] {
      assert xs + ys == ys;
    } else {
      assert (xs + ys)[0] == xs[0];
      assert (xs + ys)[1..] == xs[1..] + ys;
      DogearedAfterAppend(acc + DogearedParent(xs[0], req), xs[1..], ys, req);
    }
  }

  /** The accumulator only grows: what it held before is a prefix of what it holds after. */
  lemma {:induction false} DogearedAfterGrows(acc: seq<int>, pages: seq<Page>, req: Request)
    decreases |pages|
    ensures acc <= DogearedAfter(acc, pages, req)
    ensures forall id :: id in acc ==> id in DogearedAfter(acc, pages, req)
  {
    if pages != [] {
      var next := acc + DogearedParent(pages[0], req);
      DogearedAfterGrows(next, pages[1..], req);
      assert acc <= next;
    }
  }

  /**
   * Once the posts page has been filtered with a single post in view, its
   * parent page, filtered later in the same request, is marked `current`
   * and `parent`.
   */
  lemma ParentOfPostsPageMarked(acc: seq<int>, postsPage: Page, between: seq<Page>, parent: Page,
                                classes: ClassList, req: Request)
    requires IsPostsPageOfPost(postsPage, req) && postsPage.postParent != 0
    requires parent.id == postsPage.postParent && parent.postType == "page"
    ensures var after := DogearedAfter(acc, [postsPage] + between + [parent], req);
            "parent" in ItemMarkers(classes, parent, req, after) &&
            "current" in ItemMarkers(classes, parent, req, after)
  {
    var rest := between + [parent];
    assert [postsPage] + between + [parent] == [postsPage] + rest;
    assert ([postsPage] + rest)[1..] == rest;
    DogearedAfterGrows(acc + [postsPage.postParent], rest, req);
    var after := DogearedAfter(acc, [postsPage] + between + [parent], req);
    ItemMarkersParent(classes, parent, req, after);
    ItemMarkersCurrent(classes, parent, req, after);
  }

  /**
   * `Spine_Theme_Navigation`, reduced to its one piece of state: the parents
   * of dogeared items, collected during the request.
   */
  class SpineThemeNavigation {
    var parentDogeared: seq<int>

    constructor ()
      ensures parentDogeared == []
    {
      parentDogeared := [];
    }

    /** `bu_navigation_filter_item_attrs`. */
    method FilterItemAttrs(itemClasses: ClassList, page: Page, req: Request) returns (classes: ClassList)
      modifies this
      ensures parentDogeared == DogearedAfter(old(parentDogeared), [page], req)
      ensures classes == itemClasses + ItemMarkers(itemClasses, page, req, parentDogeared)
    {
      classes := itemClasses;
      ghost var current, viewed, postsPage, parent: ClassList := [], [], [], [];
      if "current_page_item" in itemClasses || "current_page_parent" in itemClasses {
        classes := classes + ["current"];
        current := ["current"];
      }
      assert current == CurrentMarker(itemClasses) && classes == itemClasses + current;
      if req.isSingular && req.currentId == page.id {
        classes := classes + ["dogeared"];
        viewed := ["dogeared"];
      }
      assert viewed == ViewedMarker(page, req) && classes == itemClasses + current + viewed;
      if req.isSingularPost && page.id == req.pageForPosts {
        classes := classes + ["dogeared"];
        postsPage := ["dogeared"];
        if page.postParent != 0 {
          parentDogeared := parentDogeared + [page.postParent];
        }
      }
      assert postsPage == PostsPageMarker(page, req) && classes == itemClasses + current + viewed + postsPage;
      assert parentDogeared == old(parentDogeared) + DogearedParent(page, req);
      if page.postType == "page" && page.id in parentDogeared {
        classes := classes + ["current", "parent"];
        parent := ["current", "parent"];
      }
      assert parent == ParentMarkers(page, parentDogeared);
      assert classes == itemClasses + (current + viewed + postsPage + parent);
      DogearedAfterOne(old(parentDogeared), page, req);
    }
  }
}
