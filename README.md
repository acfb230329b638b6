# Spine theme: navigation filters and the H1 header section

This project models two parts of the WSU Spine WordPress theme in Dafny:

- **`Spine_Theme_Navigation`** (`includes/theme-navigation.php`). It holds the
  filter callbacks that rewrite menu output. Three of them apply to menus
  built by the BU Navigation plugin:
  - `bu_filter_page_urls` turns section-label pages into `#` links.
  - `bu_filter_anchor_attrs` blanks the anchor `title`.
  - `bu_navigation_filter_item_attrs` adds `current`, `dogeared` and
    `parent` classes. It keeps the `parent_dogeared` list across calls
    within one request.

  The fourth, `abbridged_menu_classes`, condenses the class lists WordPress
  core gives items of the `site` and `offsite` menus.
- **The builder's H1 header section template**
  (`builder-templates/front-end/h1-header.php`). It decides from the
  section settings:
  - whether the section gets a wrapper `<div>`;
  - the wrapper's classes and backgrounds;
  - which element carries the supplied ID;
  - whether an `<h1>` is emitted.

  It then emits balanced markup.

Files:

- `wrappers.dfy`: `Option`.
- `php_array.dfy`: PHP ordered arrays as sequences of key/value pairs.
  `Put` is `$a[$k] = $v`: an existing key keeps its place and a new key is
  appended.
- `theme_navigation.dfy`: the navigation filters. It contains:
  - a `Page` class whose `url` is updated in place;
  - the method `FilterPageUrls`, whose loop (`RelabelAndKey`) re-keys the
    array and rewrites URLs on the caller's page objects;
  - the class `SpineThemeNavigation`, which holds `parentDogeared`.
- `h1_header.dfy`: the template. It consists of:
  - a declarative `Decide`/`Render` specification;
  - the template's step-by-step `DecideSection` and `RenderH1Header`
    methods, proved equal to that specification;
  - a stack machine `Run`, which states that the markup is balanced.

## Model

All paths below are inside the theme.

| member | source | states |
|---|---|---|
| PhpArray.Put | includes/theme-navigation.php:124 | After `$a[$k] = $v`, reading `$k` gives `$v` and every other key reads as before. An existing key keeps its position and a new one is appended. No other entries appear, and distinct keys stay distinct. |
| PhpArray.PutIdempotent | includes/theme-navigation.php:124 | Assigning the same key the same value twice is the same as assigning it once. |
| ThemeNavigation.ArrayIntersect | includes/theme-navigation.php:62 | `array_intersect` keeps exactly the values of the first array that occur in the second, each as often as it occurs in the first. It is never longer than the first array. |
| ThemeNavigation.AbbridgedMenuClasses | includes/theme-navigation.php:60-77 | For the `site`/`offsite` menus, the classes become exactly `['current']` when the item is the current item, is `current_page_parent`, or is the current post's parent not already marked; otherwise they become empty. For any other menu, the original classes are kept in order, and `current` is appended exactly when `current-menu-item` or `current_page_parent` is present. |
| ThemeNavigation.SpineMenuCurrentCondition | includes/theme-navigation.php:63-71 | For the Spine menus, an item is `current` exactly when it is the current item, is marked `current_page_parent`, or is the current post's parent. The "not in menu" guard changes nothing. Otherwise the class list is empty. |
| ThemeNavigation.AbsInt | includes/theme-navigation.php:96 | `absint` of a key is its magnitude, and a non-negative key is kept as it is. |
| ThemeNavigation.SectionLabelIds | includes/theme-navigation.php:96-98 | Every ID the label query returns is a section-label post and is the `absint` of some key of the page array, as `post_id IN (...)` requires. Every `absint` of a key that is a section-label post is returned. |
| ThemeNavigation.KeyedById | includes/theme-navigation.php:101-106 | The array built by `$filtered[ $page->ID ] = $page` has distinct keys. Every entry's key is its page's ID. |
| ThemeNavigation.KeyedByIdGet | includes/theme-navigation.php:105 | Looking up an ID in the re-keyed array gives the last page with that ID in the input. |
| ThemeNavigation.KeyedByIdKeepsIdKeyedArray | includes/theme-navigation.php:101-106 | For an input already keyed by page ID, re-keying returns the same entries in the same order. |
| ThemeNavigation.FilterPageUrls | includes/theme-navigation.php:89-113 | A missing or empty page list gives an empty array. With no section labels the input is returned unchanged; otherwise the pages come back re-keyed by ID. The URL of every page object in the input becomes `#` exactly when its ID is a section label, and is unchanged otherwise. |
| ThemeNavigation.RelabelAndKey | includes/theme-navigation.php:101-106 | The loop returns the pages re-keyed by ID. Every page object in the input gets the URL `#` exactly when its ID is a label, and keeps its URL otherwise. |
| ThemeNavigation.Relabel | includes/theme-navigation.php:102-104 | One page's URL becomes `#` exactly when its ID is a label, and stays as it was otherwise. |
| ThemeNavigation.FilterAnchorAttrs | includes/theme-navigation.php:123-127 | `title` becomes the empty string and every other attribute is untouched. An existing `title` keeps its position; a missing one is appended. |
| ThemeNavigation.AnchorAttrsIdempotent | includes/theme-navigation.php:123-127 | Filtering the anchor attributes twice is the same as filtering them once. |
| ThemeNavigation.DogearedParent | includes/theme-navigation.php:146-152 | A call records at most one parent, the page's own `post_parent`. It does so exactly when the page is the posts page while a post is viewed and the parent is not 0. |
| ThemeNavigation.ItemMarkers | includes/theme-navigation.php:137-160 | The filter appends only `current`, `dogeared` and `parent`, and at most five classes. |
| ThemeNavigation.CurrentMarker | includes/theme-navigation.php:138-140 | `current` is appended, once, exactly when the item has `current_page_item` or `current_page_parent`. |
| ThemeNavigation.ViewedMarker | includes/theme-navigation.php:142-144 | `dogeared` is appended, once, exactly when a singular view shows this page. |
| ThemeNavigation.PostsPageMarker | includes/theme-navigation.php:146-147 | `dogeared` is appended, once, exactly when the page is the posts page while a single post is viewed. |
| ThemeNavigation.ParentMarkers | includes/theme-navigation.php:154-157 | `current` then `parent` are appended exactly when the item is a page whose ID is in `parent_dogeared`. |
| ThemeNavigation.ItemMarkersDogeared | includes/theme-navigation.php:142-148 | An item is `dogeared` exactly when it is the page being viewed, or the posts page while a single post is viewed. |
| ThemeNavigation.ItemMarkersParent | includes/theme-navigation.php:154-157 | An item is marked `parent` exactly when it is a page whose ID has been recorded in `parent_dogeared`. The classes then end in `current parent`. |
| ThemeNavigation.ItemMarkersCurrent | includes/theme-navigation.php:138-157 | An item is `current` exactly when it already has `current_page_item` or `current_page_parent`, or is marked `parent`. |
| ThemeNavigation.DogearedAfter | includes/theme-navigation.php:146-152 | Across a request's calls, `parent_dogeared` never gets shorter and gains at most one ID per filtered page. |
| ThemeNavigation.DogearedAfterAppend | includes/theme-navigation.php:146-152 | Filtering one list of pages and then another leaves `parent_dogeared` as filtering the joined list does. A series of `FilterItemAttrs` calls is therefore described by one `DogearedAfter`, and the lemmas about the joined sequence apply to the class. |
| ThemeNavigation.DogearedAfterGrows | includes/theme-navigation.php:146-152 | Within a request, `parent_dogeared` only grows: its earlier contents are a prefix of its later contents. |
| ThemeNavigation.ParentOfPostsPageMarked | includes/theme-navigation.php:146-157 | Suppose the posts page (with a non-zero parent) is filtered while a single post is viewed. Then its parent page, filtered later in the same request whatever comes between, is marked `current` and `parent`. |
| ThemeNavigation.SpineThemeNavigation.constructor | includes/theme-navigation.php:17 | `parent_dogeared` starts empty. |
| ThemeNavigation.SpineThemeNavigation.FilterItemAttrs | includes/theme-navigation.php:137-160 | The accumulator grows by exactly this page's contribution. The returned classes are the item's classes followed by the markers, computed against the updated accumulator. |
| H1Header.DesktopBackground | builder-templates/front-end/h1-header.php:17-21 | There is a desktop background exactly when `background-img` is set and not `empty()`. The background is then that value. |
| H1Header.MobileBackground | builder-templates/front-end/h1-header.php:23-29 | The mobile background is `background-mobile-img` when that is set and not `empty()`, and otherwise the desktop background. It is absent only when neither is filled, and it is never an `empty()` value. |
| H1Header.WrapperDecision | builder-templates/front-end/h1-header.php:31-39 | A wrapper is used exactly when there are wrapper classes, a desktop background or a mobile background. The wrapper classes gain ` section-wrapper-has-background` exactly when there is a background. |
| H1Header.SectionIdPlacement | builder-templates/front-end/h1-header.php:41-56 | With a wrapper, a supplied section ID goes on the wrapper as given, and the section gets `builder-section-` plus the escaped `id`. Without a wrapper, a supplied ID goes on the section after `sanitize_key`, and the default is used otherwise. |
| H1Header.HeadingOnlyWithTitle | builder-templates/front-end/h1-header.php:60-62 | An `<h1>` is emitted exactly when the title is set and not `empty()`. Its text is then the title passed through the `the_title` filter. |
| H1Header.RenderBalanced | builder-templates/front-end/h1-header.php:41-69 | The markup is balanced. It starts with the wrapper `<div>` exactly when there is a wrapper, and it ends with that `</div>` exactly then. |
| H1Header.DecideSection | builder-templates/front-end/h1-header.php:4-56 | The top-to-bottom updates of the template variables reach the decisions `Decide` states for each value. |
| H1Header.RenderH1Header | builder-templates/front-end/h1-header.php:41-69 | The template emits exactly the markup `Render` states for its decisions, and that markup is balanced. |

## Left out

- Hook registration is not modelled: the constructor's `add_action`/`add_filter` calls, `theme_menus` with `register_nav_menus`, and the global instance (includes/theme-navigation.php:19-41, 162). It only wires the callbacks into WordPress.
- Ambient WordPress state is passed in as parameters, because its code is not part of this model:
  - `get_post()` becomes the current post's parent, with None when there is no post.
  - `is_singular()`, `is_singular( 'post' )`, `get_the_ID()` and `get_option( 'page_for_posts' )` become the `Request` datatype.
- SectionLabelIds: the `$wpdb` query is not run. The set of posts using the section-label template is a parameter, and the SQL text and its preparation are left out.
- FilterPageUrls: a database error (a non-array result) and an empty result take the same branch in the source. The model has only the empty result.
- FilterPageUrls: the check that `$pages` is an array is modelled as `Option`. Elements that are not page objects are not modelled.
- AbbridgedMenuClasses: the loose `object_id == post_parent` is modelled as integer equality, and the loose `in_array` on the menu name as string equality on a string argument. PHP's numeric-string juggling and a menu argument that is an object are not modelled.
- DogearedParent: `$page->ID === get_option( 'page_for_posts' )` is modelled as equality of integers. In PHP the strict comparison also needs both values to have the same type, so an integer ID never matches a string option. That runtime typing is left out.
- ItemMarkers: `get_the_ID() == $page->ID` and `in_array( $page->ID, $this->parent_dogeared )` are modelled as integer equality and membership, without PHP's loose type juggling.
- The output escaping itself is not modelled: `esc_attr`, `esc_url` and the echoing of attributes. `esc_attr`, `sanitize_key` and the `the_title` filter are function parameters (`Filters`), and tags carry the values before output escaping.
- Section settings are strings. `column-classes` is None when unset, standing for PHP `false`, which `esc_attr` prints as the empty string. A missing `id` key is modelled as the empty string, as `esc_attr( null )` prints it. Section values that are not strings are not modelled.
- The other template files are not part of this model: `page.php`, `single.php`, `templates/halves.php` and `parts/head-contact.php`. They do not belong to the navigation filters or the H1 header section.
