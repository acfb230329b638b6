/**
 * The builder's "H1 header" section template: from the section's settings it
 * decides whether the section is wrapped in a `<div>`, which classes and
 * backgrounds the wrapper carries, and which ID ends up on `<section>`, and
 * then emits the markup.
 *
 * The markup is modelled as a sequence of tags carrying the values that are
 * interpolated into them, before output escaping.
 */
module H1Header {
  import opened Wrappers

  /** `$ttfmake_section_data`: a key that is absent is one `isset` reports false for. */
  type SectionData = map<string, string>

  /** WordPress functions whose code is not part of this model. */
  datatype Filters = Filters(
    escAttr: string -> string,      // esc_attr
    sanitizeKey: string -> string,  // sanitize_key
    theTitle: string -> string      // apply_filters( 'the_title', ... )
  )

  const HasBackgroundClass := " section-wrapper-has-background"
  const DefaultIdPrefix := "builder-section-"

  /** PHP's `empty()` on a string: the empty string and "0". */
  predicate PhpEmpty(s: string)
  {
    s == "" || s == "0"
  }

  /** `isset( $data[key] ) && ! empty( $data[key] )`. */
  predicate Filled(data: SectionData, key: string)
  {
    key in data && !PhpEmpty(data[key])
  }

  /** `isset( $data[key] ) ? $data[key] : ''`. */
  function Setting(data: SectionData, key: string): string
  {
    if key in data then data[key] else ""
  }

  /** The desktop background; None stands for PHP's `false`. */
  function DesktopBackground(data: SectionData): (r: Option<string>)
    ensures r.Some? <==> Filled(data, "background-img")
    ensures r.Some? ==> r.value == data["background-img"] && !PhpEmpty(r.value)
  {
    if Filled(data, "background-img") then Some(data["background-img"]) else None
  }

  /** The mobile background, falling back on the desktop one. */
  function MobileBackground(data: SectionData): (r: Option<string>)
    ensures Filled(data, "background-mobile-img") ==> r == Some(data["background-mobile-img"])
    ensures !Filled(data, "background-mobile-img") ==> r == DesktopBackground(data)
    ensures r.None? <==> !Filled(data, "background-mobile-img") && !Filled(data, "background-img")
    ensures r.Some? ==> !PhpEmpty(r.value)
  {
    if Filled(data, "background-mobile-img") then Some(data["background-mobile-img"])
    else DesktopBackground(data)
  }

  /** What the template decides before it emits anything. */
  datatype Decisions = Decisions(
    hasWrapper: bool,
    wrapperId: Option<string>,
    wrapperClasses: string,
    background: Option<string>,
    mobileBackground: Option<string>,
    sectionId: string,
    sectionClasses: string,
    columnClasses: Option<string>,
    title: Option<string>)

  /** The section ID built when none is supplied or a wrapper has taken it. */
  function DefaultSectionId(data: SectionData, fx: Filters): string
  {
    DefaultIdPrefix + fx.escAttr(Setting(data, "id"))
  }

  /** The decisions, each stated on its own in terms of the section data. */
  function Decide(data: SectionData, fx: Filters): Decisions
  {
    var background := DesktopBackground(data);
    var mobile := MobileBackground(data);
    var hasBackground := background.Some? || mobile.Some?;
    var hasWrapper := Setting(data, "section-wrapper") != "" || hasBackground;
    var supplied := Setting(data, "section-id");
    Decisions(
      hasWrapper := hasWrapper,
      wrapperId := if hasWrapper && supplied != "" then Some(supplied) else None,
      wrapperClasses := Setting(data, "section-wrapper") + (if hasBackground then HasBackgroundClass else ""),
      background := background,
      mobileBackground := mobile,
      sectionId := if !hasWrapper && supplied != "" then fx.sanitizeKey(supplied) else DefaultSectionId(data, fx),
      sectionClasses := Setting(data, "section-classes"),
      columnClasses := if "column-classes" in data then Some(data["column-classes"]) else None,
      title := if Filled(data, "title") then Some(fx.theTitle(data["title"])) else None)
  }

  /** The elements the template opens and closes. */
  datatype Element = WrapperDiv | SectionElement | ColumnDiv

  datatype Tag =
    | WrapperOpen(wrapperId: Option<string>, wrapperClasses: string,
                  background: Option<string>, mobileBackground: Option<string>)
    | SectionOpen(sectionId: string, sectionClasses: string)
    | ColumnOpen(columnClasses: Option<string>)
    | Heading(text: string)
    | ColumnClose
    | SectionClose
    | WrapperClose

  /** The `<section>` element with its column and, when there is a title, its `<h1>`. */
  function SectionMarkup(d: Decisions): seq<Tag>
  {
    [SectionOpen(d.sectionId, d.sectionClasses), ColumnOpen(d.columnClasses)]
    + (if d.title.Some? then [Heading(d.title.value)] else [])
    + [ColumnClose, SectionClose]
  }

  /** The markup emitted for a set of decisions. */
  function Render(d: Decisions): seq<Tag>
  {
    (if d.hasWrapper then [WrapperOpen(d.wrapperId, d.wrapperClasses, d.background, d.mobileBackground)] else [])
    + SectionMarkup(d)
    + (if d.hasWrapper then [WrapperClose] else [])
  }

  /**
   * Runs the tags against a stack of open elements; None when a tag closes
   * an element other than the innermost open one.
   */
  function Run(tags: seq<Tag>, open: seq<Element>): Option<seq<Element>>
  {
    if tags == [] then Some(open)
    else
      var rest := tags[1..];
      match tags[0]
      case WrapperOpen(_, _, _, _) => Run(rest, [WrapperDiv] + open)
      case SectionOpen(_, _) => Run(rest, [SectionElement] + open)
      case ColumnOpen(_) => Run(rest, [ColumnDiv] + open)
      case Heading(_) => Run(rest, open)
      case ColumnClose => if open != [] && open[0] == ColumnDiv then Run(rest, open[1..]) else None
      case SectionClose => if open != [] && open[0] == SectionElement then Run(rest, open[1..]) else None
      case WrapperClose => if open != [] && open[0] == WrapperDiv then Run(rest, open[1..]) else None
  }

  /** Every element opened is closed, innermost first. */
  predicate Balanced(tags: seq<Tag>)
  {
    Run(tags, []) == Some([])
  }

  lemma {:induction false} RunAppend(a: seq<Tag>, b: seq<Tag>, open: seq<Element>)
    ensures Run(a + b, open) == match Run(a, open) { case None => None case Some(s) => Run(b, s) }
  {
    if a != [] {
      assert (a + b)[0] == a[0];
      assert (a + b)[1..] == a[1..] + b;
      match a[0]
      case WrapperOpen(_, _, _, _) => RunAppend(a[1..], b, [WrapperDiv] + open);
      case SectionOpen(_, _) => RunAppend(a[1..], b, [SectionElement] + open);
      case ColumnOpen(_) => RunAppend(a[1..], b, [ColumnDiv] + open);
      case Heading(_) => RunAppend(a[1..], b, open);
      case ColumnClose => if open != [] { RunAppend(a[1..], b, open[1..]); }
      case SectionClose => if open != [] { RunAppend(a[1..], b, open[1..]); }
      case WrapperClose => if open != [] { RunAppend(a[1..], b, open[1..]); }
    } else {
      assert a + b == b;
    }
  }

  /** The section and its column, with or without a heading, leave the open elements as they were. */
  lemma SectionBalanced(d: Decisions, open: seq<Element>)
    ensures Run(SectionMarkup(d), open) == Some(open)
  {
    var opening := [SectionOpen(d.sectionId, d.sectionClasses), ColumnOpen(d.columnClasses)];
    var head := if d.title.Some? then [Heading(d.title.value)] else [];
    var closing := [ColumnClose, SectionClose];
    var inside := [ColumnDiv] + ([SectionElement] + open);
    assert opening[1..] == [ColumnOpen(d.columnClasses)];
    assert [ColumnOpen(d.columnClasses)][1..] == [];
    assert Run([ColumnOpen(d.columnClasses)], [SectionElement] + open) == Some(inside);
    assert Run(opening, open) == Some(inside);
    assert head != [] ==> head[1..] == [];
    assert Run(head, inside) == Some(inside);
    assert closing[1..] == [SectionClose];
    assert [SectionClose][1..] == [];
    assert inside[1..] == [SectionElement] + open;
    assert ([SectionElement] + open)[1..] == open;
    assert Run([SectionClose], [SectionElement] + open) == Some(open);
    assert Run(closing, inside) == Some(open);
    RunAppend(opening + head, closing, open);
    RunAppend(opening, head, open);
  }

  /**
   * The emitted markup is balanced: the closing `</div>` is emitted exactly
   * when the wrapper was opened, and it closes the outermost element.
   */
  lemma RenderBalanced(d: Decisions)
    ensures Balanced(Render(d))
    ensures d.hasWrapper <==> Render(d)[0].WrapperOpen?
    ensures d.hasWrapper <==> Render(d)[|Render(d)| - 1] == WrapperClose
  {
    var core := SectionMarkup(d);
    if d.hasWrapper {
      var w := WrapperOpen(d.wrapperId, d.wrapperClasses, d.background, d.mobileBackground);
      assert Render(d) == [w] + core + [WrapperClose];
      SectionBalanced(d, [WrapperDiv]);
      assert Run([w], []) == Some([WrapperDiv]) by {
        assert [w][1..] == [];
        assert [WrapperDiv] + [] == [WrapperDiv];
      }
      assert Run([WrapperClose], [WrapperDiv]) == Some([]) by {
        assert [WrapperClose][1..] == [];
        assert [WrapperDiv][1..] == [];
      }
      RunAppend([w] + core, [WrapperClose], []);
      RunAppend([w], core, []);
    } else {
      assert Render(d) == core;
      SectionBalanced(d, []);
    }
  }

  /** The `<h1>` is emitted exactly when the section has a title `empty()` does not reject. */
  lemma HeadingOnlyWithTitle(data: SectionData, fx: Filters)
    ensures (exists t :: t in Render(Decide(data, fx)) && t.Heading?) <==> Filled(data, "title")
    ensures Filled(data, "title") ==> Heading(fx.theTitle(data["title"])) in Render(Decide(data, fx))
  {
  }

  /**
   * A wrapper is emitted exactly when the section has wrapper classes or a
   * desktop or mobile background; the wrapper classes gain the background
   * suffix exactly when there is a background.
   */
  lemma WrapperDecision(data: SectionData, fx: Filters)
    ensures Decide(data, fx).hasWrapper <==>
      Setting(data, "section-wrapper") != "" || Filled(data, "background-img") || Filled(data, "background-mobile-img")
    ensures Decide(data, fx).wrapperClasses ==
      if Filled(data, "background-img") || Filled(data, "background-mobile-img")
      then Setting(data, "section-wrapper") + HasBackgroundClass
      else Setting(data, "section-wrapper")
  {
  }

  /**
   * A supplied section ID is used on one element only: on the wrapper when
   * there is one (the section then gets the default ID), on the section,
   * sanitized, otherwise.
   */
  lemma SectionIdPlacement(data: SectionData, fx: Filters)
    ensures var d := Decide(data, fx);
      d.hasWrapper ==> d.sectionId == DefaultSectionId(data, fx) &&
                       d.wrapperId == (if Setting(data, "section-id") != "" then Some(data["section-id"]) else None)
    ensures var d := Decide(data, fx);
      !d.hasWrapper ==> d.wrapperId == None &&
                        d.sectionId == if Setting(data, "section-id") != ""
                                       then fx.sanitizeKey(data["section-id"]) else DefaultSectionId(data, fx)
  {
  }

  /**
   * The template's decisions, made top to bottom: `$section_has_wrapper`
   * starts false and is switched on, the wrapper classes gain their suffix,
   * and `$section_id` is cleared once the wrapper has taken it, before the
   * section ID is built.
   */
  method DecideSection(data: SectionData, fx: Filters) returns (d: Decisions)
    ensures d == Decide(data, fx)
  {
    var sectionHasWrapper := false;
    var sectionClasses := if "section-classes" in data then data["section-classes"] else "";
    var sectionWrapperClasses := if "section-wrapper" in data then data["section-wrapper"] else "";
    var sectionId := if "section-id" in data then data["section-id"] else "";
    var columnClasses := if "column-classes" in data then Some(data["column-classes"]) else None;

    var sectionBackground: Option<string>;
    if "background-img" in data && !PhpEmpty(data["background-img"]) {
      sectionBackground := Some(data["background-img"]);
    } else {
      sectionBackground := None;
    }

    assert sectionBackground == DesktopBackground(data);

    var sectionMobileBackground: Option<string>;
    if "background-mobile-img" in data && !PhpEmpty(data["background-mobile-img"]) {
      sectionMobileBackground := Some(data["background-mobile-img"]);
    } else if sectionBackground.Some? {
      sectionMobileBackground := sectionBackground;
    } else {
      sectionMobileBackground := None;
    }

    assert sectionMobileBackground == MobileBackground(data);

    if sectionWrapperClasses != "" {
      sectionHasWrapper := true;
    }

    if sectionBackground.Some? || sectionMobileBackground.Some? {
      sectionHasWrapper := true;
      sectionWrapperClasses := sectionWrapperClasses + HasBackgroundClass;
    }

    assert sectionHasWrapper == Decide(data, fx).hasWrapper;
    assert sectionWrapperClasses == Decide(data, fx).wrapperClasses;

    // The ID the wrapper `<div>` is given when it is opened.
    var wrapperId: Option<string> := None;
    if sectionHasWrapper {
      if sectionId != "" {
        wrapperId := Some(sectionId);
      }
      sectionId := "";
    }

    assert wrapperId == Decide(data, fx).wrapperId;

    if sectionId == "" {
      sectionId := DefaultIdPrefix + fx.escAttr(if "id" in data then data["id"] else "");
    } else {
      sectionId := fx.sanitizeKey(sectionId);
    }

    assert sectionId == Decide(data, fx).sectionId;

    var title := if "title" in data && !PhpEmpty(data["title"]) then Some(fx.theTitle(data["title"])) else None;
    d := Decisions(sectionHasWrapper, wrapperId, sectionWrapperClasses, sectionBackground,
                   sectionMobileBackground, sectionId, sectionClasses, columnClasses, title);
  }

  /** The template: its decisions, then the markup, wrapper opened first and closed last. */
  method RenderH1Header(data: SectionData, fx: Filters) returns (out: seq<Tag>)
    ensures out == Render(Decide(data, fx))
    ensures Balanced(out)
  {
    var d := DecideSection(data, fx);
    out := [];
    if d.hasWrapper {
      out := out + [WrapperOpen(d.wrapperId, d.wrapperClasses, d.background, d.mobileBackground)];
    }
    ghost var pre := out;
    out := out + [SectionOpen(d.sectionId, d.sectionClasses), ColumnOpen(d.columnClasses)];
    if d.title.Some? {
      out := out + [Heading(d.title.value)];
    }
    out := out + [ColumnClose, SectionClose];
    assert out == pre + SectionMarkup(d);
    if d.hasWrapper {
      out := out + [WrapperClose];
    }
    RenderBalanced(d);
  }
}
