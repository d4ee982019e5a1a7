/** The Leptos binding of the `Image` component: its prop defaults, the `img_src`
    signal, the inline styles, the markup each layout renders, and the handlers
    for the observer callback, the load event and the error event. */
module Leptos {
  import opened Text
  import opened Common
  import opened Browser
  import opened Markup

  /** The props the decision layer reads. The two optional callbacks are
      represented by whether they are present. */
  datatype ImageProps = ImageProps(
    src: string,
    alt: string,
    fallbackSrc: string,
    width: string,
    height: string,
    style: string,
    sizes: string,
    placeholder: string,
    hasOnLoad: bool,
    objectFit: ObjectFit,
    objectPosition: Position,
    hasOnError: bool,
    decoding: Decoding,
    blurDataUrl: string,
    layout: Layout)

  /** The values every omitted prop takes: `Fill` and `Responsive` rather than
      the enumerations' own defaults, `"Image"` as alt text and `"empty"` as
      placeholder. */
  function DefaultProps(): (r: ImageProps)
    ensures r.layout == Responsive && r.objectFit == ObjectFit.Fill && r.objectPosition == Center
    ensures r.decoding == Decoding.Auto && r.alt == "Image" && r.placeholder == "empty"
    ensures !r.hasOnLoad && !r.hasOnError
  {
    ImageProps(
      src := "", alt := "Image", fallbackSrc := "", width := "", height := "",
      style := "", sizes := "", placeholder := "empty", hasOnLoad := false,
      objectFit := ObjectFit.Fill, objectPosition := Center, hasOnError := false,
      decoding := Decoding.Auto, blurDataUrl := "", layout := Responsive)
  }

  /** The component overrides two of the enumerations' own defaults: images fill
      their box and are laid out responsively unless told otherwise. */
  lemma DefaultPropsOverrideEnumDefaults()
    ensures DefaultProps().objectFit != DefaultObjectFit() && DefaultProps().objectFit == ObjectFit.Fill
    ensures DefaultProps().layout != DefaultLayout() && DefaultProps().layout == Responsive
    ensures DefaultProps().objectPosition == DefaultPosition()
    ensures DefaultProps().decoding == DefaultDecoding()
    ensures !DefaultProps().hasOnLoad && !DefaultProps().hasOnError
  {
  }

  // ---------------------------------------------------------------------------
  // Styles

  /** The object-fit and object-position declarations, one space apart. */
  function FitAndPosition(fit: ObjectFit, pos: Position): (r: string)
    ensures var fitDeclaration := Declaration("object-fit", ObjectFitAsStr(fit));
            |r| > |fitDeclaration| && r[..|fitDeclaration|] == fitDeclaration && r[|r| - 1] == ';'
  {
    Declaration("object-fit", ObjectFitAsStr(fit)) + " " + Declaration("object-position", PositionAsStr(pos))
  }

  /** `img_style`: the user style first, then one space and the object-fit and
      object-position declarations. No `;` is added after the user style, so the
      fit starts a declaration of its own only when the user style closes its
      last one. */
  function ImgStyle(style: string, fit: ObjectFit, pos: Position): string
  {
    style + " " + FitAndPosition(fit, pos)
  }

  /** Two declarations one space apart, with values free of `;`, are read back
      uniquely. */
  lemma DeclarationPairInjective(k1: string, k2: string, a1: string, b1: string, a2: string, b2: string)
    requires ';' !in a1 && ';' !in a2
    requires Declaration(k1, a1) + " " + Declaration(k2, b1) == Declaration(k1, a2) + " " + Declaration(k2, b2)
    ensures a1 == a2 && Declaration(k2, b1) == Declaration(k2, b2)
  {
    assert Declaration(k1, a1) + " " + Declaration(k2, b1) == Declaration(k1, a1) + (" " + Declaration(k2, b1));
    assert Declaration(k1, a2) + " " + Declaration(k2, b2) == Declaration(k1, a2) + (" " + Declaration(k2, b2));
    DeclarationInjective(k1, a1, " " + Declaration(k2, b1), a2, " " + Declaration(k2, b2));
    PrefixCancel(" ", Declaration(k2, b1), Declaration(k2, b2));
  }

  /** The fit and the position can be read back from their declarations. */
  lemma FitAndPositionInjective(f1: ObjectFit, p1: Position, f2: ObjectFit, p2: Position)
    requires FitAndPosition(f1, p1) == FitAndPosition(f2, p2)
    ensures f1 == f2 && p1 == p2
  {
    var F1, F2 := ObjectFitAsStr(f1), ObjectFitAsStr(f2);
    var P1, P2 := PositionAsStr(p1), PositionAsStr(p2);
    DeclarationPairInjective("object-fit", "object-position", F1, P1, F2, P2);
    ObjectFitAsStrInjective(f1, f2);
    assert Declaration("object-position", P1) + "" == Declaration("object-position", P2) + "";
    DeclarationInjective("object-position", P1, "", P2, "");
    PositionAsStrInjective(p1, p2);
  }

  /** The user style is kept verbatim at the front, followed by one space and the
      fit and position declarations, and for a given user style the fit and the
      position can be read back from what follows it. */
  lemma ImgStyleUserStyleFirst(style: string, f1: ObjectFit, p1: Position, f2: ObjectFit, p2: Position)
    ensures ImgStyle(style, f1, p1)[..|style|] == style
    ensures ImgStyle(style, f1, p1)[|style|..] == " " + FitAndPosition(f1, p1)
    ensures ImgStyle(style, f1, p1) == ImgStyle(style, f2, p2) ==> f1 == f2 && p1 == p2
  {
    assert ImgStyle(style, f1, p1) == style + (" " + FitAndPosition(f1, p1));
    if ImgStyle(style, f1, p1) == ImgStyle(style, f2, p2) {
      PrefixCancel(style + " ", FitAndPosition(f1, p1), FitAndPosition(f2, p2));
      FitAndPositionInjective(f1, p1, f2, p2);
    }
  }

  /** `blur_style`: built only when the placeholder is `"blur"` and there is a
      blur data URL. */
  function BlurStyle(p: ImageProps): (r: string)
    ensures r != "" <==> p.placeholder == "blur" && p.blurDataUrl != ""
  {
    if p.placeholder == "blur" && p.blurDataUrl != "" then
      "background-size: " + p.sizes + "; background-position: " + PositionAsStr(p.objectPosition) + "; "
      + BlurFilter + "; background-image: " + "url('" + p.blurDataUrl + "');"
    else ""
  }

  const BlurFilter := "filter: blur(20px)"

  /** A blur style applies the 20px blur filter to the blur data URL. */
  lemma BlurStyleMentionsFilterAndUrl(p: ImageProps)
    requires p.placeholder == "blur" && p.blurDataUrl != ""
    ensures IsInfix(BlurFilter, BlurStyle(p)) && BlurFilter == "filter: blur(20px)"
    ensures IsInfix("url('" + p.blurDataUrl + "')", BlurStyle(p))
  {
    var head := "background-size: " + p.sizes + "; background-position: " + PositionAsStr(p.objectPosition) + "; ";
    var url := "url('" + p.blurDataUrl + "')";
    assert BlurStyle(p) == head + BlurFilter + ("; background-image: " + url + ";");
    InfixOfConcat(head, BlurFilter, "; background-image: " + url + ";");
    assert BlurStyle(p) == (head + BlurFilter + "; background-image: ") + url + ";";
    InfixOfConcat(head + BlurFilter + "; background-image: ", url, ";");
  }

  /** `full_style`: the blur style, one space, the image style, which closes it. */
  function FullStyle(p: ImageProps): string
  {
    BlurStyle(p) + " " + ImgStyle(p.style, p.objectFit, p.objectPosition)
  }

  /** Without a blur the full style is a space and the image style; with one it
      starts with the background declarations. Either way the image style, and
      so the user style, follows the first space after the blur. */
  lemma FullStyleShape(p: ImageProps)
    ensures p.placeholder != "blur" || p.blurDataUrl == "" ==> FullStyle(p) == " " + ImgStyle(p.style, p.objectFit, p.objectPosition)
    ensures var blur, img := BlurStyle(p), ImgStyle(p.style, p.objectFit, p.objectPosition);
            |FullStyle(p)| == |blur| + 1 + |img|
            && FullStyle(p)[..|blur|] == blur
            && FullStyle(p)[|blur| + 1..] == img
            && FullStyle(p)[|blur| + 1..|blur| + 1 + |p.style|] == p.style
  {
    var blur, img := BlurStyle(p), ImgStyle(p.style, p.objectFit, p.objectPosition);
    assert FullStyle(p) == blur + (" " + img);
    ImgStyleUserStyleFirst(p.style, p.objectFit, p.objectPosition, p.objectFit, p.objectPosition);
  }

  // ---------------------------------------------------------------------------
  // Layout

  /** The style of the outermost span for each layout (written without a space
      after each colon). */
  function ContainerStyle(l: Layout): string
  {
    match l
    case Fill => "display:block; position:absolute; top:0; left:0; right:0; bottom:0;"
    case Responsive => "display:block; position:relative;"
    case Intrinsic => "display:inline-block; position:relative; max-width:100%;"
    case Fixed => "display:inline-block; position:relative;"
    case Auto => "display:inline-block; position:relative;"
    case Stretch => "display:block; width:100%; height:100%; position:relative;"
    case ScaleDown => "display:inline-block; position:relative; max-width:100%; max-height:100%;"
  }

  function ContainerStyleLength(l: Layout): nat
  {
    match l
    case Fill => 67
    case Responsive => 33
    case Intrinsic => 56
    case Fixed => 40
    case Auto => 40
    case Stretch => 58
    case ScaleDown => 73
  }

  lemma ContainerStyleLengths(l: Layout)
    ensures |ContainerStyle(l)| == ContainerStyleLength(l)
  {
    match l
    case Fill =>
    case Responsive =>
    case Intrinsic =>
    case Fixed =>
    case Auto =>
    case Stretch =>
    case ScaleDown =>
  }

  /** Only `Fixed` and `Auto` share a container-style length. */
  lemma ContainerStyleLengthCollisions(a: Layout, b: Layout)
    requires ContainerStyleLength(a) == ContainerStyleLength(b)
    ensures a == b || ((a.Fixed? || a.Auto?) && (b.Fixed? || b.Auto?))
  {
  }

  /** Two layouts share a container style exactly when they are equal or are
      `Fixed` and `Auto`. */
  lemma ContainerStyleCollisions(a: Layout, b: Layout)
    ensures ContainerStyle(a) == ContainerStyle(b) <==>
            a == b || ((a.Fixed? || a.Auto?) && (b.Fixed? || b.Auto?))
  {
    if ContainerStyle(a) == ContainerStyle(b) {
      ContainerStyleLengths(a);
      ContainerStyleLengths(b);
      ContainerStyleLengthCollisions(a, b);
    }
  }

  /** The visible `<img>`: the current value of the `img_src` signal, the full
      style, and the prop size except under `Stretch`, which forces `"100%"`. */
  function MainImage(p: ImageProps, imgSrc: string): (r: Element)
    ensures r.Img? && r.src == imgSrc && r.alt == p.alt && r.styles == [FullStyle(p)]
    ensures r.width == (if p.layout == Layout.Stretch then "100%" else p.width)
    ensures r.height == (if p.layout == Layout.Stretch then "100%" else p.height)
  {
    var stretched := p.layout == Layout.Stretch;
    Img(imgSrc, p.alt,
        if stretched then "100%" else p.width,
        if stretched then "100%" else p.height,
        [FullStyle(p)])
  }

  /** The markup `Image` renders while the `img_src` signal holds `imgSrc`.
      `padding` is the responsive padding value, which the component computes
      from the numeric width and height. */
  function Render(p: ImageProps, imgSrc: string, padding: string): (r: Element)
    ensures r.Span? && r.style == ContainerStyle(p.layout)
    ensures var imgs := Images(r);
            |imgs| == (if p.layout == Layout.Intrinsic then 2 else 1)
            && imgs[0].Img? && imgs[0].src == imgSrc && imgs[0].alt == p.alt
            && imgs[0].styles == [FullStyle(p)]
            && (p.layout == Layout.Stretch ==> imgs[0].width == "100%" && imgs[0].height == "100%")
            && (p.layout != Layout.Stretch ==> imgs[0].width == p.width && imgs[0].height == p.height)
            && (p.layout == Layout.Intrinsic ==> imgs[1] == HiddenImg(p.blurDataUrl, "display:none;", p.alt))
  {
    var img := MainImage(p, imgSrc);
    var container := ContainerStyle(p.layout);
    match p.layout
    case Responsive =>
      var inner := Span("padding-top: " + padding, [img]);
      assert Images(inner) == [img];
      Span(container, [inner])
    case Intrinsic =>
      var inner := Span("max-width:100%;", [img]);
      var hidden := HiddenImg(p.blurDataUrl, "display:none;", p.alt);
      assert Images(inner) == [img];
      assert ImagesIn([inner, hidden]) == [img] + ImagesIn([hidden]);
      Span(container, [inner, hidden])
    case _ =>
      Span(container, [img])
  }

  /** Under the responsive layout the padding span wraps the image. */
  lemma ResponsivePaddingWrapsImage(p: ImageProps, imgSrc: string, padding: string)
    requires p.layout == Layout.Responsive
    ensures Render(p, imgSrc, padding).children == [Span("padding-top: " + padding, [MainImage(p, imgSrc)])]
  {
  }

  // ---------------------------------------------------------------------------
  // Event handling

  /** What the fallback fetch concludes, before the optional callbacks are
      consulted: `Loaded` means the `img_src` signal moves to the fallback. */
  function FallbackOutcome(outcome: FetchResult): (e: Emit)
    ensures e.Loaded? <==> outcome.Responded? && outcome.response.status == 200 && outcome.response.jsonParses
  {
    match outcome
    case NetworkError(description) => Failed("Network error: " + description)
    case Responded(response) =>
      if response.status == 200 then
        if response.jsonParses then Loaded else Failed("Image not found!")
      else
        Failed(StatusMessage(response.status, if response.body.Some? then response.body.value else ""))
  }

  /** `"Failed to load image. Status: {}, Body: {}"`. */
  function StatusMessage(status: Status, body: string): string
  {
    "Failed to load image. Status: " + DecimalString(status) + ", Body: " + body
  }

  /** The status and the body can be read back from a status message. */
  lemma StatusMessageInjective(s1: Status, b1: string, s2: Status, b2: string)
    requires StatusMessage(s1, b1) == StatusMessage(s2, b2)
    ensures s1 == s2 && b1 == b2
  {
    var d1, d2 := DecimalString(s1), DecimalString(s2);
    var key := "Failed to load image. Status: ";
    assert ", Body: " == [','] + " Body: ";
    assert StatusMessage(s1, b1) == key + d1 + [','] + (" Body: " + b1);
    assert StatusMessage(s2, b2) == key + d2 + [','] + (" Body: " + b2);
    KeyedValueInjective(key, d1, " Body: " + b1, d2, " Body: " + b2, ',');
    DecimalInjective(s1, s2);
    PrefixCancel(" Body: ", b1, b2);
  }

  /** The callbacks actually run for a conclusion: `on_load` for success and
      `on_error` for a failure, each only when the caller supplied it. */
  function Delivered(p: ImageProps, e: Emit): (r: seq<Emit>)
    ensures |r| <= 1 && (r != [] ==> r == [e])
    ensures r != [] <==> (if e.Loaded? then p.hasOnLoad else p.hasOnError)
  {
    if e.Loaded? then (if p.hasOnLoad then [e] else [])
    else (if p.hasOnError then [e] else [])
  }

  /** The failure messages, one per cause; an error response without a readable
      body reports an empty body. */
  lemma FallbackOutcomes(outcome: FetchResult)
    ensures outcome.NetworkError? ==> FallbackOutcome(outcome) == Failed("Network error: " + outcome.description)
    ensures outcome.Responded? && outcome.response.status == 200 && !outcome.response.jsonParses
            ==> FallbackOutcome(outcome) == Failed("Image not found!")
    ensures outcome.Responded? && outcome.response.status != 200 && outcome.response.body.None?
            ==> FallbackOutcome(outcome) == Failed(StatusMessage(outcome.response.status, ""))
  {
  }

  /** Component state: the `img_src` signal and what the handlers have done. */
  class Component {
    const props: ImageProps
    /** The `img_src` signal the `<img>` source is bound to. */
    var imgSrc: string
    /** The last value the observer callback gave `img.set_src`, if any. */
    var elementSrc: Option<string>
    /** The fallback requests started. */
    var requests: seq<Request>
    /** The callbacks run, in order. */
    var emitted: seq<Emit>

    /** The signal only ever holds the source or the fallback source. */
    predicate Valid()
      reads this
    {
      imgSrc == props.src || imgSrc == props.fallbackSrc
    }

    /** The markup for the current state of the signal: its visible image shows
        the signal's value. */
    function View(padding: string): (r: Element)
      reads this
      ensures |Images(r)| > 0 && Images(r)[0].Img? && Images(r)[0].src == imgSrc
    {
      Render(props, imgSrc, padding)
    }

    constructor (p: ImageProps)
      ensures Valid()
      ensures props == p && imgSrc == p.src && elementSrc == Option.None
      ensures requests == [] && emitted == []
    {
      props := p;
      imgSrc := p.src;
      elementSrc := Option.None;
      requests := [];
      emitted := [];
    }

    /** The intersection-observer callback: once the image is revealed, set its
        source and run `on_load` if present. */
    method OnIntersection(call: ObserverCall)
      requires Valid()
      modifies this
      ensures Valid()
      ensures imgSrc == old(imgSrc) && requests == old(requests)
      ensures Reveals(call) ==> elementSrc == Some(props.src) && emitted == old(emitted) + Delivered(props, Loaded)
      ensures !Reveals(call) ==> elementSrc == old(elementSrc) && emitted == old(emitted)
    {
      match call.firstEntry
      case Some(intersecting) =>
        if intersecting {
          if call.imageResolved {
            elementSrc := Some(props.src);
            if props.hasOnLoad {
              emitted := emitted + [Loaded];
            }
          }
        }
      case None =>
    }

    /** The `<img>` load event runs `on_load` if present. */
    method OnLoad()
      requires Valid()
      modifies this
      ensures Valid()
      ensures imgSrc == old(imgSrc) && elementSrc == old(elementSrc) && requests == old(requests)
      ensures emitted == old(emitted) + Delivered(props, Loaded)
    {
      if props.hasOnLoad {
        emitted := emitted + [Loaded];
      }
    }

    /** The `<img>` error event: fetch the fallback bypassing the cache; on a
        200 response with a JSON body point the signal at the fallback. */
    method OnError(outcome: FetchResult)
      requires Valid()
      modifies this
      ensures Valid()
      ensures requests == old(requests) + [Request(props.fallbackSrc, true)]
      ensures elementSrc == old(elementSrc)
      ensures imgSrc == if FallbackOutcome(outcome).Loaded? then props.fallbackSrc else old(imgSrc)
      ensures emitted == old(emitted) + Delivered(props, FallbackOutcome(outcome))
      ensures FallbackOutcome(outcome).Loaded? ==>
                forall padding :: Images(View(padding))[0].src == props.fallbackSrc
      ensures !FallbackOutcome(outcome).Loaded? ==> forall padding :: View(padding) == old(View(padding))
    {
      requests := requests + [Request(props.fallbackSrc, true)];
      match outcome {
        case Responded(response) =>
          if response.status == 200 {
            if response.jsonParses {
              imgSrc := props.fallbackSrc;
              if props.hasOnLoad {
                emitted := emitted + [Loaded];
              }
            } else if props.hasOnError {
              emitted := emitted + [Failed("Image not found!")];
            }
          } else {
            var body := if response.body.Some? then response.body.value else "";
            if props.hasOnError {
              emitted := emitted + [Failed(StatusMessage(response.status, body))];
            }
          }
        case NetworkError(e) =>
          if props.hasOnError {
            emitted := emitted + [Failed("Network error: " + e)];
          }
      }
    }
  }
}
