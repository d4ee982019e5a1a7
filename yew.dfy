/** The Yew binding of the `Image` component: its default props, the inline
    styles it composes, the markup each layout renders, and the two event
    handlers (the lazy-load observer callback and the fallback fetch). */
module Yew {
  import opened Text
  import opened Common
  import opened Browser
  import opened Markup

  /** The props the decision layer reads. */
  datatype ImageProps = ImageProps(
    src: string,
    alt: string,
    fallbackSrc: string,
    width: string,
    height: string,
    style: string,
    sizes: string,
    placeholder: string,
    objectFit: ObjectFit,
    objectPosition: Position,
    decoding: Decoding,
    blurDataUrl: string,
    lazyBoundary: string,
    layout: Layout)

  /** `ImageProps::default()`: the enumerations' own defaults, so `Auto` layout,
      with `"Image"` as alt text and `"empty"` as placeholder. */
  function DefaultProps(): (r: ImageProps)
    ensures r.layout == Layout.Auto && r.objectFit == Contain && r.objectPosition == Center
    ensures r.decoding == Decoding.Auto && r.alt == "Image" && r.placeholder == "empty"
    ensures r.lazyBoundary == "100px"
  {
    ImageProps(
      src := "", alt := "Image", fallbackSrc := "", width := "", height := "",
      style := "", sizes := "", placeholder := "empty",
      objectFit := DefaultObjectFit(), objectPosition := DefaultPosition(),
      decoding := DefaultDecoding(), blurDataUrl := "", lazyBoundary := "100px",
      layout := DefaultLayout())
  }

  /** The props `html!` gives an `Image` whose props are all omitted: every text
      prop defaults to `""` and every enumeration to its own default. They differ
      from `ImageProps::default()` in the alt text, the placeholder and the lazy
      boundary only. */
  function OmittedProps(): (r: ImageProps)
    ensures r == DefaultProps().(alt := "", placeholder := "", lazyBoundary := "")
  {
    ImageProps(
      src := "", alt := "", fallbackSrc := "", width := "", height := "",
      style := "", sizes := "", placeholder := "",
      objectFit := DefaultObjectFit(), objectPosition := DefaultPosition(),
      decoding := DefaultDecoding(), blurDataUrl := "", lazyBoundary := "",
      layout := DefaultLayout())
  }

  // ---------------------------------------------------------------------------
  // Styles

  /** `img_style`: the object-fit and object-position declarations, then the
      user style, which comes last and so overrides them. */
  function ImgStyle(fit: ObjectFit, pos: Position, style: string): string
  {
    Declaration("object-fit", ObjectFitAsStr(fit)) + Declaration("object-position", PositionAsStr(pos)) + style
  }

  /** `img_style` as the component builds it, pushing onto an empty `String`. */
  method BuildImgStyle(p: ImageProps) returns (style: string)
    ensures style == ImgStyle(p.objectFit, p.objectPosition, p.style)
  {
    var fit := Declaration("object-fit", ObjectFitAsStr(p.objectFit));
    var position := Declaration("object-position", PositionAsStr(p.objectPosition));
    style := "";
    style := style + fit;
    assert style == fit;
    style := style + position;
    if p.style != "" {
      style := style + p.style;
    } else {
      assert style == style + p.style;
    }
  }

  /** The three parts of `img_style` can be read back from it. */
  lemma ImgStyleInjective(f1: ObjectFit, p1: Position, s1: string, f2: ObjectFit, p2: Position, s2: string)
    requires ImgStyle(f1, p1, s1) == ImgStyle(f2, p2, s2)
    ensures f1 == f2 && p1 == p2 && s1 == s2
  {
    var F1, F2 := ObjectFitAsStr(f1), ObjectFitAsStr(f2);
    var P1, P2 := PositionAsStr(p1), PositionAsStr(p2);
    var r1 := Declaration("object-position", P1) + s1;
    var r2 := Declaration("object-position", P2) + s2;
    assert ImgStyle(f1, p1, s1) == Declaration("object-fit", F1) + r1;
    assert ImgStyle(f2, p2, s2) == Declaration("object-fit", F2) + r2;
    DeclarationInjective("object-fit", F1, r1, F2, r2);
    ObjectFitAsStrInjective(f1, f2);
    DeclarationInjective("object-position", P1, s1, P2, s2);
    PositionAsStrInjective(p1, p2);
  }

  const BlurFilter := "filter: blur(20px)"

  /** `blur_style`: a blurred background built only when the placeholder is
      `"blur"`. Its last declaration is not closed by `;`. */
  function BlurStyle(p: ImageProps): (r: string)
    ensures r != "" <==> p.placeholder == "blur"
  {
    if p.placeholder == "blur" then
      "background-size: " + p.sizes + "; background-position: " + PositionAsStr(p.objectPosition) + "; "
      + BlurFilter + "; background-image: " + "url(\"" + p.blurDataUrl + "\")"
    else ""
  }

  /** A blur style applies the 20px blur filter to the blur data URL. */
  lemma BlurStyleMentionsFilterAndUrl(p: ImageProps)
    requires p.placeholder == "blur"
    ensures IsInfix(BlurFilter, BlurStyle(p)) && BlurFilter == "filter: blur(20px)"
    ensures IsInfix("url(\"" + p.blurDataUrl + "\")", BlurStyle(p))
  {
    var head := "background-size: " + p.sizes + "; background-position: " + PositionAsStr(p.objectPosition) + "; ";
    var url := "url(\"" + p.blurDataUrl + "\")";
    assert BlurStyle(p) == head + BlurFilter + ("; background-image: " + url);
    InfixOfConcat(head, BlurFilter, "; background-image: " + url);
    assert BlurStyle(p) == (head + BlurFilter + "; background-image: ") + url + "";
    InfixOfConcat(head + BlurFilter + "; background-image: ", url, "");
  }

  /** `full_style`: the blur style, one space, the image style, which closes it. */
  function FullStyle(p: ImageProps): string
  {
    BlurStyle(p) + " " + ImgStyle(p.objectFit, p.objectPosition, p.style)
  }

  /** Without a blur placeholder the full style is a space and the image style;
      with one it starts with the background declarations. Either way the image
      style closes it. */
  lemma FullStyleShape(p: ImageProps)
    ensures p.placeholder != "blur" ==> FullStyle(p) == " " + ImgStyle(p.objectFit, p.objectPosition, p.style)
    ensures var blur, img := BlurStyle(p), ImgStyle(p.objectFit, p.objectPosition, p.style);
            |FullStyle(p)| == |blur| + 1 + |img|
            && FullStyle(p)[..|blur|] == blur
            && FullStyle(p)[|blur| + 1..] == img
  {
    var blur, img := BlurStyle(p), ImgStyle(p.objectFit, p.objectPosition, p.style);
    var r := FullStyle(p);
    assert r == blur + (" " + img);
    if p.placeholder != "blur" {
      assert blur == "";
      assert r == " " + img;
    }
  }

  /** The blur style ends with the `)` of its `url(...)` and leaves its last
      declaration open, so in the full style the image style's `object-fit`
      declaration follows `")` and a space with no `;` between: the browser
      reads both as one `background-image` value and drops them. */
  lemma BlurStyleUnterminated(p: ImageProps)
    ensures ClosesDeclarations(FullStyle(p)[..|BlurStyle(p)|]) <==> p.placeholder != "blur"
    ensures p.placeholder == "blur" ==>
              BlurStyle(p)[|BlurStyle(p)| - 1] == ')'
              && IsInfix("\") " + Declaration("object-fit", ObjectFitAsStr(p.objectFit)), FullStyle(p))
  {
    FullStyleShape(p);
    if p.placeholder == "blur" {
      var head := "background-size: " + p.sizes + "; background-position: " + PositionAsStr(p.objectPosition) + "; "
        + BlurFilter + "; background-image: " + "url(\"" + p.blurDataUrl;
      var fit := Declaration("object-fit", ObjectFitAsStr(p.objectFit));
      var rest := Declaration("object-position", PositionAsStr(p.objectPosition)) + p.style;
      assert BlurStyle(p) == head + "\")";
      assert FullStyle(p) == head + ("\") " + fit) + rest;
      InfixOfConcat(head, "\") " + fit, rest);
    }
  }

  /** `blur_style` with its last declaration closed by `;`, as the Leptos and
      Dioxus bindings write theirs. */
  function BlurStyleTerminated(p: ImageProps): (r: string)
    ensures r != "" <==> p.placeholder == "blur"
    ensures ClosesDeclarations(r)
    ensures p.placeholder == "blur" ==> r[..|r| - 1] == BlurStyle(p)
  {
    if p.placeholder == "blur" then BlurStyle(p) + ";" else ""
  }

  /** `full_style` built from the closed blur style. */
  function FullStyleTerminated(p: ImageProps): string
  {
    BlurStyleTerminated(p) + " " + ImgStyle(p.objectFit, p.objectPosition, p.style)
  }

  /** With the blur style closed, the image style follows a closed declaration
      list and one space, so its `object-fit` declaration is read on its own. */
  lemma FullStyleTerminatedSeparates(p: ImageProps)
    ensures var blur, img := BlurStyleTerminated(p), ImgStyle(p.objectFit, p.objectPosition, p.style);
            |FullStyleTerminated(p)| == |blur| + 1 + |img|
            && ClosesDeclarations(FullStyleTerminated(p)[..|blur|])
            && FullStyleTerminated(p)[|blur| + 1..] == img
  {
    var blur, img := BlurStyleTerminated(p), ImgStyle(p.objectFit, p.objectPosition, p.style);
    assert FullStyleTerminated(p) == blur + " " + img;
    SpaceJoinParts(blur, img);
  }

  /** With a blur placeholder the closed blur style's `;` directly precedes the
      space and the `object-fit` declaration. */
  lemma FullStyleTerminatedFitFollowsSemicolon(p: ImageProps)
    requires p.placeholder == "blur"
    ensures IsInfix("; " + Declaration("object-fit", ObjectFitAsStr(p.objectFit)), FullStyleTerminated(p))
  {
    var blur := BlurStyle(p);
    var fit := Declaration("object-fit", ObjectFitAsStr(p.objectFit));
    var rest := Declaration("object-position", PositionAsStr(p.objectPosition)) + p.style;
    assert BlurStyleTerminated(p) == blur + ";";
    assert FullStyleTerminated(p) == blur + ("; " + fit) + rest;
    InfixOfConcat(blur, "; " + fit, rest);
  }

  // ---------------------------------------------------------------------------
  // Layout

  /** The style of the outermost span for each layout. */
  function ContainerStyle(l: Layout): string
  {
    match l
    case Fill => "display: block; position: absolute; top: 0; left: 0; bottom: 0; right: 0;"
    case Responsive => "display: block; position: relative;"
    case Intrinsic => "display: inline-block; position: relative; max-width: 100%;"
    case Fixed => "display: inline-block; position: relative;"
    case Auto => "display: inline-block; position: relative;"
    case Stretch => "display: block; width: 100%; height: 100%; position: relative;"
    case ScaleDown => "display: inline-block; position: relative; max-width: 100%; max-height: 100%;"
  }

  function ContainerStyleLength(l: Layout): nat
  {
    match l
    case Fill => 73
    case Responsive => 35
    case Intrinsic => 59
    case Fixed => 42
    case Auto => 42
    case Stretch => 62
    case ScaleDown => 77
  }

  lemma ContainerStyleLengths(l: Layout)
    ensures |ContainerStyle(l)| == ContainerStyleLength(l)
  {
    match l
    case Fill =>
    case Responsive =>
    case Intrinsic =>
    case Fixed =>
    case Auto =>
    case Stretch =>
    case ScaleDown =>
  }

  /** Only `Fixed` and `Auto` share a container-style length. */
  lemma ContainerStyleLengthCollisions(a: Layout, b: Layout)
    requires ContainerStyleLength(a) == ContainerStyleLength(b)
    ensures a == b || ((a.Fixed? || a.Auto?) && (b.Fixed? || b.Auto?))
  {
  }

  /** Two layouts share a container style exactly when they are equal or are
      `Fixed` and `Auto`. */
  lemma ContainerStyleCollisions(a: Layout, b: Layout)
    ensures ContainerStyle(a) == ContainerStyle(b) <==>
            a == b || ((a.Fixed? || a.Auto?) && (b.Fixed? || b.Auto?))
  {
    if ContainerStyle(a) == ContainerStyle(b) {
      ContainerStyleLengths(a);
      ContainerStyleLengths(b);
      ContainerStyleLengthCollisions(a, b);
    }
  }

  /** The visible `<img>`: the prop source, the full style, and the prop size
      except under `Stretch`, which forces both dimensions to `"100%"`. */
  function MainImage(p: ImageProps): (r: Element)
    ensures r.Img? && r.src == p.src && r.alt == p.alt && r.styles == [FullStyle(p)]
    ensures r.width == (if p.layout == Layout.Stretch then "100%" else p.width)
    ensures r.height == (if p.layout == Layout.Stretch then "100%" else p.height)
  {
    var stretched := p.layout == Layout.Stretch;
    Img(p.src, p.alt,
        if stretched then "100%" else p.width,
        if stretched then "100%" else p.height,
        [FullStyle(p)])
  }

  /** The markup `Image` renders, or `None` where rendering panics. `padding` is
      the responsive padding value the component computes from the numeric width
      and height, or `None` when one of them does not parse as a number, which
      the responsive layout unwraps. */
  function Render(p: ImageProps, padding: Option<string>): (r: Option<Element>)
    ensures r.None? <==> p.layout == Layout.Responsive && padding.None?
    ensures r.Some? ==> r.value.Span? && r.value.style == ContainerStyle(p.layout)
    ensures r.Some? ==>
            var imgs := Images(r.value);
            |imgs| == (if p.layout == Layout.Intrinsic then 2 else 1)
            && imgs[0] == MainImage(p)
            && imgs[0].src == p.src && imgs[0].alt == p.alt
            && imgs[0].styles == [FullStyle(p)]
            && (p.layout == Layout.Stretch ==> imgs[0].width == "100%" && imgs[0].height == "100%")
            && (p.layout != Layout.Stretch ==> imgs[0].width == p.width && imgs[0].height == p.height)
            && (p.layout == Layout.Intrinsic ==> imgs[1] == HiddenImg(p.blurDataUrl, "display: none;", p.alt))
  {
    var img := MainImage(p);
    var container := ContainerStyle(p.layout);
    match p.layout
    case Responsive =>
      (match padding
       case None => Option.None
       case Some(paddingTop) =>
         var inner := Span("padding-top: " + paddingTop, [img]);
         assert Images(inner) == [img];
         Some(Span(container, [inner])))
    case Intrinsic =>
      var inner := Span("max-width: 100%;", [img]);
      var hidden := HiddenImg(p.blurDataUrl, "display: none;", p.alt);
      assert Images(inner) == [img];
      assert ImagesIn([inner, hidden]) == [img] + ImagesIn([hidden]);
      Some(Span(container, [inner, hidden]))
    case _ =>
      Some(Span(container, [img]))
  }

  /** Under the responsive layout the padding span wraps the image. */
  lemma ResponsivePaddingWrapsImage(p: ImageProps, paddingTop: string)
    requires p.layout == Layout.Responsive
    ensures Render(p, Some(paddingTop)) == Some(Span(ContainerStyle(Responsive), [Span("padding-top: " + paddingTop, [MainImage(p)])]))
  {
  }

  /** With default props the image style is `object-fit: contain` and
      `object-position: center`, with no blur in front of it. */
  lemma DefaultPropsFullStyle()
    ensures FullStyle(DefaultProps()) == " " + Declaration("object-fit", "contain") + Declaration("object-position", "center")
  {
    var p := DefaultProps();
    assert BlurStyle(p) == "";
    assert ObjectFitAsStr(p.objectFit) == "contain" && PositionAsStr(p.objectPosition) == "center";
    assert ImgStyle(p.objectFit, p.objectPosition, p.style)
        == Declaration("object-fit", "contain") + Declaration("object-position", "center") + "";
  }

  /** With default props the component renders, whatever the padding, one image
      with an empty source and no size in an inline-block span. */
  lemma DefaultPropsRendering(padding: Option<string>)
    ensures var r := Render(DefaultProps(), padding);
            r.Some? && r.value.style == "display: inline-block; position: relative;"
            && Images(r.value) == [Img("", "Image", "", "", [FullStyle(DefaultProps())])]
  {
    var p := DefaultProps();
    assert Render(p, padding) == Some(Span(ContainerStyle(Layout.Auto), [MainImage(p)]));
  }

  // ---------------------------------------------------------------------------
  // Event handling

  /** The callback the fallback fetch fires for a given outcome. */
  function FallbackEmit(outcome: FetchResult): (e: Emit)
    ensures e.Loaded? <==> outcome.Responded? && outcome.response.status == 200 && outcome.response.jsonParses
  {
    match outcome
    case NetworkError(description) => Failed("Network error: " + description)
    case Responded(response) =>
      if response.status == 200 then
        if response.jsonParses then Loaded else Failed("Image Not Found!")
      else
        Failed(StatusMessage(response.status, if response.body.Some? then response.body.value else "Failed to retrieve response body"))
  }

  /** `"Failed to load image. Status: {}, Body: {:?}"`. */
  function StatusMessage(status: Status, body: string): string
  {
    "Failed to load image. Status: " + DecimalString(status) + ", Body: " + DebugQuoted(body)
  }

  /** A status message split at the comma that ends the status. */
  lemma StatusMessageParts(status: Status, body: string)
    ensures StatusMessage(status, body)
            == "Failed to load image. Status: " + DecimalString(status) + [','] + (" Body: " + DebugQuoted(body))
  {
    var tail := " Body: ";
    assert ", Body: " == [','] + tail;
  }

  /** The status and the body can be read back from a status message. */
  lemma StatusMessageInjective(s1: Status, b1: string, s2: Status, b2: string)
    requires StatusMessage(s1, b1) == StatusMessage(s2, b2)
    ensures s1 == s2 && b1 == b2
  {
    var d1, d2 := DecimalString(s1), DecimalString(s2);
    var q1, q2 := DebugQuoted(b1), DebugQuoted(b2);
    var key := "Failed to load image. Status: ";
    StatusMessageParts(s1, b1);
    StatusMessageParts(s2, b2);
    KeyedValueInjective(key, d1, " Body: " + q1, d2, " Body: " + q2, ',');
    DecimalInjective(s1, s2);
    PrefixCancel(" Body: ", q1, q2);
    DebugQuotedInjective(b1, b2);
  }

  /** The fallback outcomes: success needs status 200 and a JSON body; every
      failure names its cause. */
  lemma FallbackOutcomes(outcome: FetchResult)
    ensures outcome.NetworkError? ==> FallbackEmit(outcome) == Failed("Network error: " + outcome.description)
    ensures outcome.Responded? && outcome.response.status == 200 && !outcome.response.jsonParses
            ==> FallbackEmit(outcome) == Failed("Image Not Found!")
    ensures outcome.Responded? && outcome.response.status != 200
            ==> FallbackEmit(outcome).Failed?
                && FallbackEmit(outcome).message[..30] == "Failed to load image. Status: "
  {
  }

  /** Component state: what the event handlers have done so far. */
  class Component {
    const props: ImageProps
    /** The last value the observer callback gave `img.set_src`, if any. */
    var elementSrc: Option<string>
    /** The fallback requests started. */
    var requests: seq<Request>
    /** The callbacks fired, in order. */
    var emitted: seq<Emit>

    constructor (p: ImageProps)
      ensures props == p && elementSrc == Option.None && requests == [] && emitted == []
    {
      props := p;
      elementSrc := Option.None;
      requests := [];
      emitted := [];
    }

    /** The intersection-observer callback: once the image is revealed, set its
        source and fire `on_load`; otherwise do nothing. */
    method OnIntersection(call: ObserverCall)
      modifies this
      ensures requests == old(requests)
      ensures Reveals(call) ==> elementSrc == Some(props.src) && emitted == old(emitted) + [Loaded]
      ensures !Reveals(call) ==> elementSrc == old(elementSrc) && emitted == old(emitted)
    {
      match call.firstEntry
      case Some(intersecting) =>
        if intersecting {
          if call.imageResolved {
            elementSrc := Some(props.src);
            emitted := emitted + [Loaded];
          }
        }
      case None =>
    }

    /** The `<img>` load event fires `on_load`. */
    method OnLoad()
      modifies this
      ensures elementSrc == old(elementSrc) && requests == old(requests)
      ensures emitted == old(emitted) + [Loaded]
    {
      emitted := emitted + [Loaded];
    }

    /** `fetch_data`, the `<img>` error handler: fetch the fallback bypassing the
        cache and fire exactly one callback. `copiedSrc` is the source held by the
        spawned future's own copy of the props, which the success path overwrites; the
        rendered markup does not read it. */
    method FetchData(outcome: FetchResult) returns (copiedSrc: string)
      modifies this
      ensures requests == old(requests) + [Request(props.fallbackSrc, true)]
      ensures elementSrc == old(elementSrc)
      ensures emitted == old(emitted) + [FallbackEmit(outcome)]
      ensures copiedSrc == if FallbackEmit(outcome).Loaded? then props.fallbackSrc else props.src
    {
      copiedSrc := props.src;
      requests := requests + [Request(props.fallbackSrc, true)];
      match outcome {
        case Responded(response) =>
          if response.status == 200 {
            if response.jsonParses {
              copiedSrc := props.fallbackSrc;
              emitted := emitted + [Loaded];
            } else {
              emitted := emitted + [Failed("Image Not Found!")];
            }
          } else {
            var body := if response.body.Some? then response.body.value else "Failed to retrieve response body";
            emitted := emitted + [Failed(StatusMessage(response.status, body))];
          }
        case NetworkError(err) =>
          emitted := emitted + [Failed("Network error: " + err)];
      }
    }
  }
}
