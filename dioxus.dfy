/** The Dioxus binding of the `Image` component: its default props, the `src`
    signal, the inline styles, the markup each layout renders, and the load and
    error handlers. */
module Dioxus {
  import opened Text
  import opened Common
  import opened Browser
  import opened Markup

  /** The props the decision layer reads. */
  datatype ImageProps = ImageProps(
    src: string,
    alt: string,
    fallbackSrc: string,
    width: string,
    height: string,
    style: string,
    sizes: string,
    placeholder: string,
    objectFit: ObjectFit,
    objectPosition: Position,
    decoding: Decoding,
    blurDataUrl: string,
    lazyBoundary: string,
    layout: Layout)

  /** `ImageProps::default()`: the enumerations' own defaults, so `Auto` layout,
      with `"Image"` as alt text and `"empty"` as placeholder. */
  function DefaultProps(): (r: ImageProps)
    ensures r.layout == Layout.Auto && r.objectFit == Contain && r.objectPosition == Center
    ensures r.decoding == Decoding.Auto && r.alt == "Image" && r.placeholder == "empty"
    ensures r.lazyBoundary == "100px"
  {
    ImageProps(
      src := "", alt := "Image", fallbackSrc := "", width := "", height := "",
      style := "", sizes := "", placeholder := "empty",
      objectFit := DefaultObjectFit(), objectPosition := DefaultPosition(),
      decoding := DefaultDecoding(), blurDataUrl := "", lazyBoundary := "100px",
      layout := DefaultLayout())
  }

  /** The props `rsx!` gives an `Image` whose props are all omitted: every text
      prop defaults to `""` and every enumeration to its own default. They differ
      from `ImageProps::default()` in the alt text, the placeholder and the lazy
      boundary only. */
  function OmittedProps(): (r: ImageProps)
    ensures r == DefaultProps().(alt := "", placeholder := "", lazyBoundary := "")
  {
    ImageProps(
      src := "", alt := "", fallbackSrc := "", width := "", height := "",
      style := "", sizes := "", placeholder := "",
      objectFit := DefaultObjectFit(), objectPosition := DefaultPosition(),
      decoding := DefaultDecoding(), blurDataUrl := "", lazyBoundary := "",
      layout := DefaultLayout())
  }

  // ---------------------------------------------------------------------------
  // Styles

  /** The `img_style` template once its two enumeration values are printed:
      object-fit, object-position, then the user style closed by a `;`. */
  function ImgStyleWith(fitValue: string, positionValue: string, style: string): string
  {
    Declaration("object-fit", fitValue) + " " + Declaration("object-position", positionValue) + " " + style + ";"
  }

  /** `img_style` as written: the enumerations are printed with `{:?}`, which
      gives their variant names. */
  function ImgStyleAsWritten(fit: ObjectFit, pos: Position, style: string): (r: string)
    ensures |r| == |ImgStyle(fit, pos, style)|
                   - (if fit == ObjectFit.ScaleDown then 1 else 0) - (if IsCorner(pos) then 1 else 0)
  {
    DebugLengths(fit, pos);
    ImgStyleWith(ObjectFitDebug(fit), PositionDebug(pos), style)
  }

  /** `img_style` with the CSS keywords of `as_str`, as the other bindings write it. */
  function ImgStyle(fit: ObjectFit, pos: Position, style: string): string
  {
    ImgStyleWith(ObjectFitAsStr(fit), PositionAsStr(pos), style)
  }

  /** The three values can be read back from a filled-in template when the two
      enumeration values contain no `;`. */
  lemma ImgStyleWithInjective(a1: string, b1: string, s1: string, a2: string, b2: string, s2: string)
    requires ';' !in a1 && ';' !in b1 && ';' !in a2 && ';' !in b2
    requires ImgStyleWith(a1, b1, s1) == ImgStyleWith(a2, b2, s2)
    ensures a1 == a2 && b1 == b2 && s1 == s2
  {
    var t1, t2 := " " + s1 + ";", " " + s2 + ";";
    var r1, r2 := " " + (Declaration("object-position", b1) + t1), " " + (Declaration("object-position", b2) + t2);
    assert ImgStyleWith(a1, b1, s1) == Declaration("object-fit", a1) + r1;
    assert ImgStyleWith(a2, b2, s2) == Declaration("object-fit", a2) + r2;
    DeclarationInjective("object-fit", a1, r1, a2, r2);
    PrefixCancel(" ", Declaration("object-position", b1) + t1, Declaration("object-position", b2) + t2);
    DeclarationInjective("object-position", b1, t1, b2, t2);
    assert t1 == " " + (s1 + ";") && t2 == " " + (s2 + ";");
    PrefixCancel(" ", s1 + ";", s2 + ";");
    SuffixCancel(s1, s2, ";");
  }

  /** The corrected style declares values a browser reads as the very fit and
      position passed in, and fit, position and user style can all be read back. */
  lemma ImgStyleDeclaresKeywords(f1: ObjectFit, p1: Position, s1: string, f2: ObjectFit, p2: Position, s2: string)
    ensures CssObjectFit(ObjectFitAsStr(f1)) == Some(f1) && CssPosition(PositionAsStr(p1)) == Some(p1)
    ensures ImgStyle(f1, p1, s1) == ImgStyle(f2, p2, s2) ==> f1 == f2 && p1 == p2 && s1 == s2
  {
    CssObjectFitSpec(ObjectFitAsStr(f1), f1);
    CssPositionSpec(PositionAsStr(p1), p1);
    if ImgStyle(f1, p1, s1) == ImgStyle(f2, p2, s2) {
      ImgStyleWithInjective(ObjectFitAsStr(f1), PositionAsStr(p1), s1, ObjectFitAsStr(f2), PositionAsStr(p2), s2);
      ObjectFitAsStrInjective(f1, f2);
      PositionAsStrInjective(p1, p2);
    }
  }

  /** What a browser makes of a fit printed by `{:?}`: the intended keyword up to
      case, except `ScaleDown`, as there is no keyword `scaledown`, which makes
      the declaration invalid. */
  lemma DebugFitAsCss(fit: ObjectFit)
    ensures CssObjectFit(ObjectFitDebug(fit)) == if fit == ObjectFit.ScaleDown then Option.None else Some(fit)
  {
    if fit != ObjectFit.ScaleDown {
      ObjectFitDebugMatchesKeyword(fit);
      CssObjectFitSpec(ObjectFitDebug(fit), fit);
    } else {
      assert |Lowercase(ObjectFitDebug(fit))| == 9;
    }
  }

  /** What a browser makes of a position printed by `{:?}`: the intended keywords
      up to case, except for the four corners, as `topleft` and the like are not
      position keywords, which makes the declaration invalid. */
  lemma DebugPositionAsCss(pos: Position)
    ensures CssPosition(PositionDebug(pos)) == if IsCorner(pos) then Option.None else Some(pos)
  {
    if !IsCorner(pos) {
      PositionDebugMatchesKeyword(pos);
      CssPositionSpec(PositionDebug(pos), pos);
    } else {
      var k := Lowercase(PositionDebug(pos));
      match pos
      case TopLeft => assert |k| == 7;
      case TopRight =>
        assert PositionDebug(pos)[3] == 'R';
        assert |k| == 8 && k[3] == LowerChar('R') == 'r';
      case BottomLeft => assert |k| == 10;
      case BottomRight =>
        assert PositionDebug(pos)[6] == 'R';
        assert |k| == 11 && k[6] == LowerChar('R') == 'r';
    }
  }

  /** The `{:?}` variant names have the keywords' length, one character short for
      `ScaleDown` and the corners, which lose their hyphen or space. */
  lemma DebugLengths(fit: ObjectFit, pos: Position)
    ensures |ObjectFitDebug(fit)| == |ObjectFitAsStr(fit)| - (if fit == ObjectFit.ScaleDown then 1 else 0)
    ensures |PositionDebug(pos)| == |PositionAsStr(pos)| - (if IsCorner(pos) then 1 else 0)
  {
  }

  /** The template's fixed text around the two values. */
  lemma ImgStyleWithParts(a: string, b: string, style: string)
    ensures ImgStyleWith(a, b, style) == "object-fit: " + a + "; object-position: " + b + ("; " + style + ";")
  {
  }

  /** Filling the template with values equal up to case gives styles equal up to case. */
  lemma ImgStyleWithIgnoresCase(a1: string, b1: string, a2: string, b2: string, style: string)
    requires EqualsIgnoringCase(a1, a2) && EqualsIgnoringCase(b1, b2)
    ensures EqualsIgnoringCase(ImgStyleWith(a1, b1, style), ImgStyleWith(a2, b2, style))
  {
    ImgStyleWithParts(a1, b1, style);
    ImgStyleWithParts(a2, b2, style);
    EqualsIgnoringCaseInContext2("object-fit: ", a1, a2, "; object-position: ", b1, b2, "; " + style + ";");
  }

  /** Away from `ScaleDown` and the corners the style as written equals the
      corrected one up to case. */
  lemma ImgStyleAsWrittenEqualUpToCase(fit: ObjectFit, pos: Position, style: string)
    requires fit != ObjectFit.ScaleDown && !IsCorner(pos)
    ensures EqualsIgnoringCase(ImgStyleAsWritten(fit, pos, style), ImgStyle(fit, pos, style))
  {
    ObjectFitDebugMatchesKeyword(fit);
    PositionDebugMatchesKeyword(pos);
    ImgStyleWithIgnoresCase(ObjectFitDebug(fit), PositionDebug(pos), ObjectFitAsStr(fit), PositionAsStr(pos), style);
  }

  /** The style as written equals the corrected one up to case exactly when the
      fit is not `ScaleDown` and the position is not a corner; otherwise it is
      shorter. */
  lemma ImgStyleAsWrittenMatchesUpToCase(fit: ObjectFit, pos: Position, style: string)
    ensures EqualsIgnoringCase(ImgStyleAsWritten(fit, pos, style), ImgStyle(fit, pos, style))
            <==> fit != ObjectFit.ScaleDown && !IsCorner(pos)
  {
    if fit != ObjectFit.ScaleDown && !IsCorner(pos) {
      ImgStyleAsWrittenEqualUpToCase(fit, pos, style);
    } else {
      DebugLengths(fit, pos);
      assert |ImgStyleAsWritten(fit, pos, style)| < |ImgStyle(fit, pos, style)|;
    }
  }

  const BlurFilter := "filter: blur(20px)"

  /** The `blur_style` template once the position is printed: a blurred
      background built only when the placeholder is `"blur"`. */
  function BlurStyleWith(p: ImageProps, positionValue: string): (r: string)
    ensures r != "" <==> p.placeholder == "blur"
  {
    if p.placeholder == "blur" then
      "background-size: " + p.sizes + "; background-position: " + positionValue + "; "
      + BlurFilter + "; background-image: " + "url('" + p.blurDataUrl + "');"
    else ""
  }

  /** `blur_style` as written, with the position printed by `{:?}`. */
  function BlurStyleAsWritten(p: ImageProps): (r: string)
    ensures |r| == |BlurStyle(p)| - (if p.placeholder == "blur" && IsCorner(p.objectPosition) then 1 else 0)
  {
    DebugLengths(p.objectFit, p.objectPosition);
    BlurStyleWith(p, PositionDebug(p.objectPosition))
  }

  /** `blur_style` with the position keywords of `as_str`. */
  function BlurStyle(p: ImageProps): string
  {
    BlurStyleWith(p, PositionAsStr(p.objectPosition))
  }

  /** A blur style applies the 20px blur filter to the blur data URL, whatever
      text the position is printed as. */
  lemma BlurStyleMentionsFilterAndUrl(p: ImageProps, positionValue: string)
    requires p.placeholder == "blur"
    ensures IsInfix(BlurFilter, BlurStyleWith(p, positionValue)) && BlurFilter == "filter: blur(20px)"
    ensures IsInfix("url('" + p.blurDataUrl + "')", BlurStyleWith(p, positionValue))
  {
    var head := "background-size: " + p.sizes + "; background-position: " + positionValue + "; ";
    var url := "url('" + p.blurDataUrl + "')";
    assert BlurStyleWith(p, positionValue) == head + BlurFilter + ("; background-image: " + url + ";");
    InfixOfConcat(head, BlurFilter, "; background-image: " + url + ";");
    assert BlurStyleWith(p, positionValue) == (head + BlurFilter + "; background-image: ") + url + ";";
    InfixOfConcat(head + BlurFilter + "; background-image: ", url, ";");
  }

  /** A blur style positions the background at the text the position is printed as. */
  lemma BlurStyleDeclaresPosition(p: ImageProps, positionValue: string)
    requires p.placeholder == "blur"
    ensures IsInfix(Declaration("background-position", positionValue), BlurStyleWith(p, positionValue))
  {
    var size := "background-size: " + p.sizes + "; ";
    var position := Declaration("background-position", positionValue);
    var rest := " " + BlurFilter + "; background-image: " + "url('" + p.blurDataUrl + "');";
    assert BlurStyleWith(p, positionValue) == size + position + rest;
    InfixOfConcat(size, position, rest);
  }

  /** The blur style as written declares the `{:?}` name as the background
      position; the corrected one declares the position's keywords, which a
      browser reads as the very position passed in. */
  lemma BlurStylePositionDeclaration(p: ImageProps)
    requires p.placeholder == "blur"
    ensures IsInfix(Declaration("background-position", PositionDebug(p.objectPosition)), BlurStyleAsWritten(p))
    ensures IsInfix(Declaration("background-position", PositionAsStr(p.objectPosition)), BlurStyle(p))
    ensures CssPosition(PositionAsStr(p.objectPosition)) == Some(p.objectPosition)
  {
    BlurStyleDeclaresPosition(p, PositionDebug(p.objectPosition));
    BlurStyleDeclaresPosition(p, PositionAsStr(p.objectPosition));
    CssPositionSpec(PositionAsStr(p.objectPosition), p.objectPosition);
  }

  /** `full_style` as written: the `{:?}` image style, one space, the `{:?}` blur style. */
  function FullStyle(p: ImageProps): string
  {
    ImgStyleAsWritten(p.objectFit, p.objectPosition, p.style) + " " + BlurStyleAsWritten(p)
  }

  /** `full_style` built from the corrected image and blur styles. */
  function FullStyleCorrected(p: ImageProps): string
  {
    ImgStyle(p.objectFit, p.objectPosition, p.style) + " " + BlurStyle(p)
  }

  /** The image style opens the full style; without a blur placeholder it is
      followed by a single space, otherwise by one space and the blur style. This
      holds of the style as written and of the corrected one. */
  lemma FullStyleShape(p: ImageProps)
    ensures p.placeholder != "blur" ==>
            FullStyle(p) == ImgStyleAsWritten(p.objectFit, p.objectPosition, p.style) + " "
            && FullStyleCorrected(p) == ImgStyle(p.objectFit, p.objectPosition, p.style) + " "
    ensures var img, blur := ImgStyleAsWritten(p.objectFit, p.objectPosition, p.style), BlurStyleAsWritten(p);
            |FullStyle(p)| == |img| + 1 + |blur| && FullStyle(p)[|img| + 1..] == blur
    ensures var img, blur := ImgStyle(p.objectFit, p.objectPosition, p.style), BlurStyle(p);
            |FullStyleCorrected(p)| == |img| + 1 + |blur| && FullStyleCorrected(p)[|img| + 1..] == blur
  {
    var img, blur := ImgStyleAsWritten(p.objectFit, p.objectPosition, p.style), BlurStyleAsWritten(p);
    assert FullStyle(p) == img + (" " + blur);
    var img', blur' := ImgStyle(p.objectFit, p.objectPosition, p.style), BlurStyle(p);
    assert FullStyleCorrected(p) == img' + (" " + blur');
  }

  /** With `ScaleDown` or a corner position the full style as written differs
      from the corrected one: it is one character shorter for `ScaleDown`, one
      for a corner, and one more for a corner repeated in the blur style. */
  lemma FullStyleAsWrittenDiffers(p: ImageProps)
    ensures |FullStyle(p)| == |FullStyleCorrected(p)|
                              - (if p.objectFit == ObjectFit.ScaleDown then 1 else 0)
                              - (if IsCorner(p.objectPosition) then 1 else 0)
                              - (if p.placeholder == "blur" && IsCorner(p.objectPosition) then 1 else 0)
    ensures p.objectFit == ObjectFit.ScaleDown || IsCorner(p.objectPosition) ==> FullStyle(p) != FullStyleCorrected(p)
  {
    FullStyleShape(p);
  }

  // ---------------------------------------------------------------------------
  // Layout

  /** The style of the outermost span for each layout. */
  function ContainerStyle(l: Layout): string
  {
    match l
    case Fill => "display: block; position: absolute; top: 0; left: 0; bottom: 0; right: 0;"
    case Responsive => "display: block; position: relative;"
    case Intrinsic => "display: inline-block; position: relative; max-width: 100%;"
    case Fixed => "display: inline-block; position: relative;"
    case Auto => "display: inline-block; position: relative;"
    case Stretch => "display: block; width: 100%; height: 100%; position: relative;"
    case ScaleDown => "display: inline-block; position: relative; max-width: 100%; max-height: 100%;"
  }

  /** The visible `<img>`: the current value of the `src` signal, the prop size
      under every layout, and two `style` attributes, the full style and then
      the blur style again, both as written. */
  function MainImage(p: ImageProps, src: string): (r: Element)
    ensures r.Img? && r.src == src && r.alt == p.alt && r.width == p.width && r.height == p.height
    ensures p.placeholder != "blur" ==> r.styles == [ImgStyleAsWritten(p.objectFit, p.objectPosition, p.style) + " ", ""]
  {
    assert p.placeholder != "blur" ==> BlurStyleAsWritten(p) == "";
    assert p.placeholder != "blur" ==> FullStyle(p) == ImgStyleAsWritten(p.objectFit, p.objectPosition, p.style) + " " + "";
    assert p.placeholder != "blur" ==> FullStyle(p) == ImgStyleAsWritten(p.objectFit, p.objectPosition, p.style) + " ";
    Img(src, p.alt, p.width, p.height, [FullStyle(p), BlurStyleAsWritten(p)])
  }

  /** The markup `Image` renders while the `src` signal holds `src`.
      `paddingTop` is the responsive padding value, which the component computes
      from the numeric width and height. */
  function Render(p: ImageProps, src: string, paddingTop: string): (r: Element)
    ensures r.Span? && r.style == ContainerStyle(p.layout)
    ensures var imgs := Images(r);
            |imgs| == (if p.layout == Layout.Intrinsic then 2 else 1)
            && imgs[0] == MainImage(p, src)
            && imgs[0].src == src && imgs[0].width == p.width && imgs[0].height == p.height
            && imgs[0].styles == [FullStyle(p), BlurStyleAsWritten(p)]
            && (p.layout == Layout.Intrinsic ==> imgs[1] == HiddenImg(p.blurDataUrl, "display: none;", p.alt))
  {
    var img := MainImage(p, src);
    var container := ContainerStyle(p.layout);
    match p.layout
    case Responsive =>
      var padding := Span("padding-top: " + paddingTop + ";", []);
      assert ImagesIn([padding, img]) == ImagesIn([]) + ImagesIn([img]);
      Span(container, [padding, img])
    case Intrinsic =>
      var inner := Span("max-width: 100%;", [img]);
      var hidden := HiddenImg(p.blurDataUrl, "display: none;", p.alt);
      assert Images(inner) == [img];
      assert ImagesIn([inner, hidden]) == [img] + ImagesIn([hidden]);
      Span(container, [inner, hidden])
    case _ =>
      Span(container, [img])
  }

  /** Under the responsive layout the padding span is an empty sibling placed
      before the image rather than a wrapper around it. */
  lemma ResponsivePaddingIsSibling(p: ImageProps, src: string, paddingTop: string)
    requires p.layout == Layout.Responsive
    ensures var r := Render(p, src, paddingTop);
            |r.children| == 2 && IsEmptySpan(r.children[0])
            && r.children[0].style == "padding-top: " + paddingTop + ";"
            && r.children[1] == MainImage(p, src)
  {
  }

  /** With default props the full style names the variants `Contain` and
      `Center`, followed by an empty user style and no blur: it reads
      `object-fit: Contain; object-position: Center; ; `. */
  lemma DefaultPropsFullStyle()
    ensures FullStyle(DefaultProps()) == ImgStyleWith("Contain", "Center", "") + " "
    ensures BlurStyleAsWritten(DefaultProps()) == ""
  {
    var p := DefaultProps();
    assert ObjectFitDebug(p.objectFit) == "Contain" && PositionDebug(p.objectPosition) == "Center";
    assert BlurStyleAsWritten(p) == "";
    assert FullStyle(p) == ImgStyleWith("Contain", "Center", "") + " " + "";
  }

  /** With default props the component renders one image in an inline-block
      span, styled with the variant names `Contain` and `Center`. */
  lemma DefaultPropsRendering(paddingTop: string)
    ensures var r := Render(DefaultProps(), "", paddingTop);
            r.style == "display: inline-block; position: relative;"
            && Images(r) == [Img("", "Image", "", "", [ImgStyleWith("Contain", "Center", "") + " ", ""])]
  {
    var p := DefaultProps();
    DefaultPropsFullStyle();
    assert MainImage(p, "") == Img("", "Image", "", "", [ImgStyleWith("Contain", "Center", "") + " ", ""]);
    assert Render(p, "", paddingTop) == Span(ContainerStyle(Layout.Auto), [MainImage(p, "")]);
  }

  // ---------------------------------------------------------------------------
  // Event handling

  const NoFallbackMessage := "Image failed to load and no fallback provided."

  /** The callback the fallback request fires: success on any 2xx status. */
  function FallbackOutcome(outcome: FetchResult): (e: Emit)
    ensures e.Loaded? <==> outcome.Responded? && IsOk(outcome.response.status)
  {
    match outcome
    case NetworkError(description) => Failed("Network error while loading fallback: " + description)
    case Responded(response) =>
      if IsOk(response.status) then Loaded
      else Failed(StatusMessage(response.status, if response.body.Some? then response.body.value else ""))
  }

  /** `"Fallback image load failed: status {}, body {}"`. */
  function StatusMessage(status: Status, body: string): string
  {
    "Fallback image load failed: status " + DecimalString(status) + ", body " + body
  }

  /** The status and the body can be read back from a status message. */
  lemma StatusMessageInjective(s1: Status, b1: string, s2: Status, b2: string)
    requires StatusMessage(s1, b1) == StatusMessage(s2, b2)
    ensures s1 == s2 && b1 == b2
  {
    var d1, d2 := DecimalString(s1), DecimalString(s2);
    var key := "Fallback image load failed: status ";
    assert ", body " == [','] + " body ";
    assert StatusMessage(s1, b1) == key + d1 + [','] + (" body " + b1);
    assert StatusMessage(s2, b2) == key + d2 + [','] + (" body " + b2);
    KeyedValueInjective(key, d1, " body " + b1, d2, " body " + b2, ',');
    DecimalInjective(s1, s2);
    PrefixCancel(" body ", b1, b2);
  }

  /** The fallback outcomes: the JSON body plays no part, every 2xx status is a
      success, and every failure names its cause. */
  lemma FallbackOutcomes(outcome: FetchResult)
    ensures outcome.NetworkError? ==> FallbackOutcome(outcome) == Failed("Network error while loading fallback: " + outcome.description)
    ensures outcome.Responded? && IsOk(outcome.response.status) ==> FallbackOutcome(outcome) == Loaded
    ensures outcome.Responded? && !IsOk(outcome.response.status) && outcome.response.body.None?
            ==> FallbackOutcome(outcome) == Failed(StatusMessage(outcome.response.status, ""))
  {
  }

  /** Component state: the `src` signal and what the handlers have done. */
  class Component {
    const props: ImageProps
    /** The `src` signal the `<img>` source is bound to. */
    var src: string
    /** The fallback requests started. */
    var requests: seq<Request>
    /** The callbacks called, in order. */
    var emitted: seq<Emit>

    /** The signal only ever holds the source or the fallback source. */
    predicate Valid()
      reads this
    {
      src == props.src || src == props.fallbackSrc
    }

    /** The markup for the current state of the signal: its visible image shows
        the signal's value. */
    function View(paddingTop: string): (r: Element)
      reads this
      ensures |Images(r)| > 0 && Images(r)[0].Img? && Images(r)[0].src == src
    {
      Render(props, src, paddingTop)
    }

    constructor (p: ImageProps)
      ensures Valid()
      ensures props == p && src == p.src && requests == [] && emitted == []
    {
      props := p;
      src := p.src;
      requests := [];
      emitted := [];
    }

    /** The `<img>` load event calls `on_load`. */
    method OnLoad()
      requires Valid()
      modifies this
      ensures Valid()
      ensures src == old(src) && requests == old(requests)
      ensures emitted == old(emitted) + [Loaded]
    {
      emitted := emitted + [Loaded];
    }

    /** The `<img>` error event: without a fallback source report that at once;
        otherwise request the fallback and, on a 2xx response, point the signal
        at it. */
    method OnError(outcome: FetchResult)
      requires Valid()
      modifies this
      ensures Valid()
      ensures props.fallbackSrc == "" ==>
                requests == old(requests) && src == old(src)
                && emitted == old(emitted) + [Failed(NoFallbackMessage)]
      ensures props.fallbackSrc != "" ==>
                requests == old(requests) + [Request(props.fallbackSrc, false)]
                && src == (if FallbackOutcome(outcome).Loaded? then props.fallbackSrc else old(src))
                && emitted == old(emitted) + [FallbackOutcome(outcome)]
      ensures props.fallbackSrc != "" && FallbackOutcome(outcome).Loaded? ==>
                forall paddingTop :: Images(View(paddingTop))[0].src == props.fallbackSrc
      ensures props.fallbackSrc == "" || !FallbackOutcome(outcome).Loaded? ==>
                forall paddingTop :: View(paddingTop) == old(View(paddingTop))
    {
      var fallbackSrc := props.fallbackSrc;
      if fallbackSrc == "" {
        emitted := emitted + [Failed(NoFallbackMessage)];
        return;
      }
      requests := requests + [Request(fallbackSrc, false)];
      match outcome {
        case Responded(response) =>
          if IsOk(response.status) {
            src := fallbackSrc;
            emitted := emitted + [Loaded];
          } else {
            var body := if response.body.Some? then response.body.value else "";
            emitted := emitted + [Failed(StatusMessage(response.status, body))];
          }
        case NetworkError(e) =>
          emitted := emitted + [Failed("Network error while loading fallback: " + e)];
      }
    }
  }
}
