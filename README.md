# image-rs `Image` component — a Dafny model

image-rs ships one `Image` component for three Rust web frameworks: Yew, Leptos
and Dioxus. Each binding turns a set of props into inline CSS and a small span/img
tree that depends on the chosen layout. It lazily reveals the image when an
intersection observer reports it visible. When the image fails to load, it
fetches a fallback source and reports the outcome through `on_load`/`on_error`
callbacks. All three share a few closed enumerations (`Layout`, `Decoding`,
`Position`, `ObjectFit`) that map to CSS/HTML keyword strings.

This project models that decision layer:

- `common.dfy` (module `Common`): the enumerations, their `as_str` keywords, the
  `from_str` parsers, the `#[default]` variants and the names `{:?}` prints.
- `text.dfy` (module `Text`): the parts of Rust's standard library the
  component relies on. These are ASCII `to_lowercase`, `{}` on an unsigned
  integer and `{:?}` on a string. The decimal rendering and the escaping each
  have an inverse (`DecimalValue`, `Unescape`), used to prove that messages can
  be read back; `Lowercase` serves the case-insensitive parsers.
- `browser.dfy` (module `Browser`): the browser as values:
  - a fetch outcome, an observer call and a callback invocation;
  - how a browser reads `object-fit`/`object-position` keywords, ignoring ASCII
    case.
- `markup.dfy` (module `Markup`): the rendered span/img tree and a query for its
  images in document order.
- `yew.dfy`, `leptos.dfy`, `dioxus.dfy`: one module per binding. Each has:
  - its props and their defaults;
  - the image, blur and full styles;
  - the layout match, as a `Render` function;
  - a `Component` class whose fields are what the event handlers change (the
    source signal, the element's `src`, the requests started, the callbacks run)
    and whose methods are those handlers.
- `bindings.dfy` (module `Bindings`): where the three bindings agree and where
  they differ.

Where the documentation and the code disagree, the model follows the code:
- `Layout::Responsive` is documented as the Yew and Dioxus default, but
  `ImageProps::default()` uses `Layout::default()`, which is `Layout::Auto`
  (src/yew.rs:324, src/dioxus.rs:321).
- The responsive padding is described as falling back to `100%` whenever the
  ratio is not finite. Only Dioxus does that. Yew unwraps the parsed width and
  height, so a non-numeric dimension panics; this is modelled as `Render`
  returning `None`. Leptos falls back to `1.0` for each unparsable dimension.
- In Yew and Dioxus, `ImageProps::default()` has alt text `"Image"` and
  placeholder `"empty"`. A prop left out of `html!`/`rsx!` is `""` instead
  (src/yew.rs:41, src/dioxus.rs:39), as the documentation of `alt` says.
  Both are modelled: `DefaultProps` and `OmittedProps`.
- Yew documents reading the fallback response as JSON as "not mandatory"
  (src/yew.rs:481), but a fallback answered with status 200 whose body is not
  JSON reports `Image Not Found!` and keeps the failed source
  (src/yew.rs:556-566). `Yew.FallbackEmit` follows the code.

## Model

| member | source | states |
|---|---|---|
| Common.LayoutAsStr | src/common.rs:36-46 | every layout is written as a non-empty keyword without `;` |
| Common.LayoutFromStr | src/common.rs:56-67 | a string that parses is exactly the keyword of the layout it parses to |
| Common.LayoutRoundTrip | src/common.rs:36-67 | parsing the keyword of any layout gives that layout back |
| Common.LayoutFromStrExact | src/common.rs:56-67 | parsing succeeds exactly on the seven keywords and fails on every other string |
| Common.LayoutAsStrInjective | src/common.rs:36-46 | distinct layouts have distinct keywords |
| Common.LayoutFromStrCaseSensitive | src/common.rs:56-67 | layout parsing is case-sensitive: `Fill`, `AUTO` and `scale_down` are errors |
| Common.DecodingAsStr | src/common.rs:94-100 | every decoding is written as a non-empty keyword without `;` |
| Common.DecodingFromStr | src/common.rs:109-116 | a string that parses is, lower-cased, the keyword of the decoding it parses to |
| Common.DecodingFromStrSpec | src/common.rs:109-116 | a string parses to `d` exactly when its lower-case form is `d`'s keyword |
| Common.DecodingFromStrIgnoresCase | src/common.rs:109-116 | strings equal up to case parse alike |
| Common.DecodingAsStrIsLower | src/common.rs:94-100 | the decoding keywords are lower case |
| Common.DecodingRoundTrip | src/common.rs:94-116 | each decoding keyword parses back to its decoding, in lower and in upper case |
| Common.DecodingParsedIsLowercase | src/common.rs:109-116 | whatever parses is, lower-cased, the keyword of its result |
| Common.DecodingAsStrInjective | src/common.rs:94-100 | distinct decodings have distinct keywords |
| Common.PositionAsStr | src/common.rs:158-170 | every position is written as non-empty keywords without `;` |
| Common.CornerIsTwoEdges | src/common.rs:158-170 | a corner's keywords are its vertical edge, a space and its horizontal edge |
| Common.PositionSpaceIffCorner | src/common.rs:158-170 | a position's keywords contain a space exactly when it is a corner |
| Common.PositionAsStrIsLower | src/common.rs:158-170 | the position keywords are lower case |
| Common.PositionAsStrInjective | src/common.rs:158-170 | distinct positions have distinct keywords |
| Common.ObjectFitAsStr | src/common.rs:200-208 | every fit is written as a non-empty keyword without `;` |
| Common.ObjectFitAsStrIsLower | src/common.rs:200-208 | the fit keywords are lower case |
| Common.ObjectFitAsStrInjective | src/common.rs:200-208 | distinct fits have distinct keywords |
| Common.DefaultVariants | src/common.rs:7-194 | the `#[default]` variants are `Auto`, `Auto`, `Center` and `Contain`, and both `auto`s are spelt the same |
| Common.PositionDebug | src/common.rs:123 | the name `{:?}` prints for a position is one capitalised word, with no space or hyphen |
| Common.ObjectFitDebug | src/common.rs:177 | the name `{:?}` prints for a fit is one capitalised word, with no space or hyphen |
| Common.ObjectFitDebugMatchesKeyword | src/common.rs:177-194 | the derived debug name of a fit is its keyword capitalised, and equals it up to case exactly when the fit is not `ScaleDown` |
| Common.PositionDebugMatchesKeyword | src/common.rs:123-152 | the derived debug name of a position is its keywords capitalised, and equals them up to case exactly when it is not a corner |
| Text.DecimalRoundTrip | src/yew.rs:572-575 | the decimal digits `{}` prints for a status read back as the status |
| Text.DebugQuotedInjective | src/yew.rs:572-575 | distinct bodies are printed differently by `{:?}` |
| Text.UnescapeEscape | src/yew.rs:572-575 | the escaped text inside a `{:?}`-quoted string can be decoded back to the original |
| Text.EscapeHasNoBareQuote | src/yew.rs:572-575 | every quote inside the escaped body is preceded by a backslash |
| Yew.DefaultProps | src/yew.rs:304-327 | `ImageProps::default()` takes the enumerations' own defaults, so `Auto` layout, `Contain`, `Center` and `Auto` decoding, with alt text `"Image"`, placeholder `"empty"` and lazy boundary `"100px"` |
| Yew.OmittedProps | src/yew.rs:33-301 | a prop left out of `html!` takes its type's default: the same props as `ImageProps::default()` except an empty alt text, placeholder and lazy boundary |
| Yew.DefaultPropsFullStyle | src/yew.rs:304-346 | with default props the full style is a space, `object-fit: contain;` and `object-position: center;` |
| Yew.DefaultPropsRendering | src/yew.rs:304-346 | default props render, whatever the padding, one image with empty source and size in an inline-block span |
| Yew.BuildImgStyle | src/yew.rs:588-599 | pushing the two declarations and then a non-empty user style builds the fit declaration, the position declaration and the user style, in that order |
| Yew.ImgStyle | src/yew.rs:588-599 | defines `img_style`: the fit declaration, the position declaration, then the user style, which so overrides them; `Yew.BuildImgStyle` and `Yew.ImgStyleInjective` state its properties |
| Yew.ImgStyleInjective | src/yew.rs:588-599 | fit, position and user style can all be read back from the image style |
| Yew.BlurStyle | src/yew.rs:601-610 | the blur style is non-empty exactly when the placeholder is `"blur"` |
| Yew.BlurStyleMentionsFilterAndUrl | src/yew.rs:601-610 | a blur style contains the 20px blur filter and `url("…")` of the blur data URL |
| Yew.FullStyle | src/yew.rs:618 | defines `full_style` from the blur and image styles; `Yew.FullStyleShape` states its shape |
| Yew.FullStyleShape | src/yew.rs:618 | the full style is the blur style, one space, then the image style; without blur it is a space and the image style |
| Yew.BlurStyleUnterminated | src/yew.rs:601-618 | the text before the image style closes its declarations exactly when the placeholder is not `"blur"`; with blur the blur style ends in `)` and the full style has `")`, a space and the `object-fit` declaration in a row |
| Yew.BlurStyleTerminated | src/yew.rs:601-610 | the blur style closed by `;`: non-empty exactly with a blur placeholder, always closing its declarations, and with blur the as-written blur style followed by `;` |
| Yew.FullStyleTerminated | src/yew.rs:618 | defines `full_style` from the closed blur style; `Yew.FullStyleTerminatedSeparates` states its shape |
| Yew.FullStyleTerminatedSeparates | src/yew.rs:618 | with the closed blur style, the image style follows text that closes its declarations, and one space |
| Yew.FullStyleTerminatedFitFollowsSemicolon | src/yew.rs:618 | with a blur placeholder, `;`, a space and the `object-fit` declaration occur in a row in the corrected full style |
| Yew.ContainerStyle | src/yew.rs:620-922 | the container span's style for each of the seven layouts; which layouts share one is stated by `Yew.ContainerStyleCollisions` |
| Yew.ContainerStyleCollisions | src/yew.rs:620-922 | two layouts share a container style exactly when they are equal or are `Fixed` and `Auto` |
| Yew.MainImage | src/yew.rs:620-922 | the visible image has the prop source and alt text and the full style, and the prop size except under `Stretch`, which forces `100%` for both |
| Yew.Render | src/yew.rs:620-922 | rendering panics exactly under `Responsive` with an unparsable size. Otherwise it gives: the layout's container span; one image, or two under `Intrinsic`; the prop source, alt and full style; `Stretch` forcing both sizes to `100%`; and, under `Intrinsic`, a hidden blur image marked `aria-hidden="true"` |
| Yew.ResponsivePaddingWrapsImage | src/yew.rs:661-709 | under `Responsive` the padding span wraps the image |
| Yew.FallbackEmit | src/yew.rs:545-586 | the fallback succeeds exactly on status 200 with a JSON body |
| Yew.StatusMessage | src/yew.rs:572-575 | defines the failure message for a non-200 status, with the body quoted by `{:?}`; `Yew.StatusMessageInjective` states that it loses nothing |
| Yew.StatusMessageInjective | src/yew.rs:566-576 | status and body can be read back from the failure message |
| Yew.FallbackOutcomes | src/yew.rs:545-586 | a network error, a non-JSON 200 body and any other status each produce their own message |
| Yew.Component.constructor | src/yew.rs:491-502 | a new component has started no request and fired no callback |
| Yew.Component.OnIntersection | src/yew.rs:504-517 | once the first entry intersects and the image resolves, the element's `src` becomes the prop source and `on_load` fires; otherwise nothing changes |
| Yew.Component.OnLoad | src/yew.rs:612-616 | the load event fires `on_load` and nothing else |
| Yew.Component.FetchData | src/yew.rs:545-586 | the error event requests the fallback bypassing the cache and fires exactly one callback. Only the spawned future's own copy of the source moves to the fallback, and only on success |
| Leptos.DefaultProps | src/leptos.rs:19-95 | an omitted prop takes `Responsive` layout, `Fill`, `Center` and `Auto` decoding, alt text `"Image"` and placeholder `"empty"`, with neither callback |
| Leptos.DefaultPropsOverrideEnumDefaults | src/leptos.rs:19-95 | the prop defaults are `Fill` and `Responsive`, not the enumerations' own defaults; the position and decoding keep theirs; both callbacks are absent |
| Leptos.FitAndPosition | src/leptos.rs:235-240 | the fit and position part opens with the object-fit declaration and ends with `;` |
| Leptos.ImgStyle | src/leptos.rs:235-240 | defines `img_style`: the user style, one space, then the fit and position declarations, which override the user style when it ends with `;`; `Leptos.ImgStyleUserStyleFirst` states its properties |
| Leptos.FitAndPositionInjective | src/leptos.rs:235-240 | fit and position can be read back from their two declarations |
| Leptos.ImgStyleUserStyleFirst | src/leptos.rs:235-240 | the user style opens the image style and is followed by one space and the fit and position declarations, with no `;` added between; for a given user style the fit and the position can be read back |
| Leptos.BlurStyle | src/leptos.rs:242-251 | the blur style is non-empty exactly when the placeholder is `"blur"` and there is a blur data URL |
| Leptos.BlurStyleMentionsFilterAndUrl | src/leptos.rs:242-251 | a blur style contains the 20px blur filter and `url('…')` of the blur data URL |
| Leptos.FullStyle | src/leptos.rs:253 | defines `full_style` from the blur and image styles; `Leptos.FullStyleShape` states its shape |
| Leptos.FullStyleShape | src/leptos.rs:253 | the full style is the blur style, one space, then the image style, which opens with the user style |
| Leptos.ContainerStyle | src/leptos.rs:255-542 | the container span's style for each layout, written without a space after each colon; which layouts share one is stated by `Leptos.ContainerStyleCollisions` |
| Leptos.ContainerStyleCollisions | src/leptos.rs:255-542 | two layouts share a container style exactly when they are equal or are `Fixed` and `Auto` |
| Leptos.MainImage | src/leptos.rs:255-542 | the visible image has the signal's source, the prop alt text and the full style, and the prop size except under `Stretch`, which forces `100%` for both |
| Leptos.Render | src/leptos.rs:255-542 | each layout gives: its container span; one image, or two under `Intrinsic`; the current signal value as source; the prop alt and full style; `Stretch` forcing `100%`; and a hidden blur image with `aria-hidden` under `Intrinsic` |
| Leptos.ResponsivePaddingWrapsImage | src/leptos.rs:295-338 | under `Responsive` the padding span wraps the image |
| Leptos.FallbackOutcome | src/leptos.rs:194-233 | the fallback succeeds exactly on status 200 with a JSON body |
| Leptos.StatusMessage | src/leptos.rs:217-221 | defines the failure message for a non-200 status, with the body unquoted; `Leptos.StatusMessageInjective` states that it loses nothing |
| Leptos.StatusMessageInjective | src/leptos.rs:215-224 | status and body can be read back from the failure message |
| Leptos.Delivered | src/leptos.rs:194-233 | at most one callback runs, and exactly when the one the outcome calls for was supplied |
| Leptos.FallbackOutcomes | src/leptos.rs:194-233 | a network error, a non-JSON 200 body and another status each produce their own message; an unreadable body is reported as empty |
| Leptos.Component.constructor | src/leptos.rs:146 | the `img_src` signal starts at the source prop |
| Leptos.Component.View | src/leptos.rs:255-262 | the markup for the component's state shows the `img_src` signal's value as the visible image's source |
| Leptos.Component.OnIntersection | src/leptos.rs:148-165 | once the first entry intersects and the image resolves, the element's `src` becomes the prop source and `on_load` runs if supplied; the signal stays within {source, fallback} |
| Leptos.Component.OnLoad | src/leptos.rs:188-192 | the load event runs `on_load` if supplied and nothing else |
| Leptos.Component.OnError | src/leptos.rs:194-233 | the error event requests the fallback bypassing the cache. The signal moves to the fallback exactly on success, after which the rendered image shows the fallback; otherwise the markup is unchanged. The callback for the outcome runs only if supplied. The signal stays within {source, fallback} |
| Dioxus.DefaultProps | src/dioxus.rs:301-324 | `ImageProps::default()` takes the enumerations' own defaults, so `Auto` layout, `Contain`, `Center` and `Auto` decoding, with alt text `"Image"`, placeholder `"empty"` and lazy boundary `"100px"` |
| Dioxus.OmittedProps | src/dioxus.rs:30-299 | a prop left out of `rsx!` takes `""` or its type's default: the same props as `ImageProps::default()` except an empty alt text, placeholder and lazy boundary |
| Dioxus.DefaultPropsFullStyle | src/dioxus.rs:301-429 | with default props the full style is `object-fit: Contain; object-position: Center; ; `, with the variant names, and the blur style is empty |
| Dioxus.DefaultPropsRendering | src/dioxus.rs:301-540 | default props render one image in an inline-block span, with the variant-name full style and an empty second style |
| Dioxus.ImgStyleWith | src/dioxus.rs:415-418 | defines the `img_style` template for given printed values; `Dioxus.ImgStyleWithInjective` and `Dioxus.ImgStyleWithIgnoresCase` state its properties |
| Dioxus.ImgStyleAsWritten | src/dioxus.rs:415-418 | the image style as written is one character shorter than the keyword one for `ScaleDown` and one shorter for a corner |
| Dioxus.ImgStyle | src/dioxus.rs:415-418 | defines the corrected `img_style`, with the `as_str` keywords; `Dioxus.ImgStyleDeclaresKeywords` states its properties |
| Dioxus.ImgStyleWithIgnoresCase | src/dioxus.rs:415-418 | filling the template with values equal up to ASCII case gives styles equal up to case |
| Dioxus.ImgStyleWithInjective | src/dioxus.rs:415-418 | fit value, position value and user style can all be read back from the image style |
| Dioxus.DebugFitAsCss | src/dioxus.rs:415-418 | a fit printed with `{:?}` is read by a browser as that fit, except `ScaleDown`, whose declaration is invalid |
| Dioxus.DebugPositionAsCss | src/dioxus.rs:415-427 | a position printed with `{:?}` is read as that position, except the corners, whose declarations are invalid |
| Dioxus.DebugLengths | src/dioxus.rs:415-418 | each `{:?}` name has its keyword's length, one shorter for `ScaleDown` and the corners |
| Dioxus.ImgStyleAsWrittenEqualUpToCase | src/dioxus.rs:415-418 | away from `ScaleDown` and the corners the image style as written equals the keyword one up to case |
| Dioxus.ImgStyleAsWrittenMatchesUpToCase | src/dioxus.rs:415-418 | the image style as written equals the keyword one up to case exactly when the fit is not `ScaleDown` and the position not a corner |
| Dioxus.ImgStyleDeclaresKeywords | src/dioxus.rs:415-418 | the corrected image style declares values a browser reads as the given fit and position, and all three parts can be read back |
| Dioxus.BlurStyleWith | src/dioxus.rs:420-427 | the blur style is non-empty exactly when the placeholder is `"blur"` |
| Dioxus.BlurStyleAsWritten | src/dioxus.rs:420-427 | the blur style as written is one character shorter than the keyword one exactly when it is built for a corner |
| Dioxus.BlurStyle | src/dioxus.rs:420-427 | defines the corrected `blur_style`, with the position keywords; `Dioxus.BlurStylePositionDeclaration` states its properties |
| Dioxus.BlurStyleMentionsFilterAndUrl | src/dioxus.rs:420-427 | a blur style, however the position is printed, contains the 20px blur filter and `url('…')` of the blur data URL |
| Dioxus.BlurStyleDeclaresPosition | src/dioxus.rs:420-427 | a blur style declares `background-position` with the text the position is printed as |
| Dioxus.BlurStylePositionDeclaration | src/dioxus.rs:420-427 | the blur style as written declares the `{:?}` name as background position; the corrected one declares the position's keywords, which a browser reads as that position |
| Dioxus.FullStyle | src/dioxus.rs:429 | defines `full_style` as written, from the `{:?}` image and blur styles; `Dioxus.FullStyleShape` and `Dioxus.FullStyleAsWrittenDiffers` state its properties |
| Dioxus.FullStyleCorrected | src/dioxus.rs:429 | defines `full_style` from the corrected image and blur styles; `Dioxus.FullStyleShape` states its shape |
| Dioxus.FullStyleShape | src/dioxus.rs:429 | the full style, as written and corrected alike, is the image style, one space, then the blur style: the reverse of Yew's order |
| Dioxus.FullStyleAsWrittenDiffers | src/dioxus.rs:415-429 | the full style as written is shorter than the corrected one by one character for `ScaleDown`, one for a corner and one more for a corner in the blur style, so it differs exactly then |
| Dioxus.ContainerStyle | src/dioxus.rs:476-540 | the container span's style for each of the seven layouts, the same literals as Yew's (`Bindings.ContainerStylesAgree`) |
| Dioxus.MainImage | src/dioxus.rs:435-475 | the visible image has the signal's source, the alt text and the prop size under every layout; without a blur placeholder its two styles are the `{:?}` image style plus a space, and an empty string |
| Dioxus.Render | src/dioxus.rs:435-540 | each layout gives: its container span; one image, or two under `Intrinsic`; the current signal value as source; the prop size under every layout; two `style` attributes, the `{:?}` full style then the `{:?}` blur style; and, under `Intrinsic`, a hidden blur image |
| Dioxus.ResponsivePaddingIsSibling | src/dioxus.rs:483-500 | under `Responsive` the padding span is empty and precedes the image instead of wrapping it |
| Dioxus.FallbackOutcome | src/dioxus.rs:386-413 | the fallback succeeds exactly on a 2xx status, whatever the body |
| Dioxus.StatusMessage | src/dioxus.rs:402-406 | defines the failure message for a non-2xx status; `Dioxus.StatusMessageInjective` states that it loses nothing |
| Dioxus.StatusMessageInjective | src/dioxus.rs:400-406 | status and body can be read back from the failure message |
| Dioxus.FallbackOutcomes | src/dioxus.rs:386-413 | a network error and a non-2xx status each produce their own message; an unreadable body is reported as empty |
| Dioxus.Component.constructor | src/dioxus.rs:348 | the `src` signal starts at the source prop |
| Dioxus.Component.View | src/dioxus.rs:435-540 | the markup for the component's state shows the `src` signal's value as the visible image's source |
| Dioxus.Component.OnLoad | src/dioxus.rs:431-433 | the load event calls `on_load` and nothing else |
| Dioxus.Component.OnError | src/dioxus.rs:386-413 | without a fallback source, reports that at once with no request. Otherwise it requests the fallback without bypassing the cache, moves the signal to it exactly on success, after which the rendered image shows the fallback, and reports the outcome; otherwise the markup is unchanged. The signal stays within {source, fallback} |
| Bindings.ContainerStylesAgree | src/dioxus.rs:476-540 | Yew and Dioxus give every layout the same container style |
| Bindings.LeptosContainerStylesDiffer | src/leptos.rs:255-542 | no Leptos container style equals the Yew one for the same layout |
| Bindings.FallbackAcceptance | src/dioxus.rs:395-396 | Yew and Leptos accept a fallback response on the same terms; Dioxus accepts all those and more |
| Bindings.FallbackAcceptanceDiffers | src/dioxus.rs:395-407 | a 204 response and a non-JSON 200 response are accepted by Dioxus only |
| Bindings.DefaultsCompared | src/leptos.rs:19-95 | Yew's and Dioxus's `ImageProps::default()` gives `Contain` and `Auto`, Leptos's omitted props `Fill` and `Responsive`; these three default the alt text to `Image` and the placeholder to `empty` |
| Bindings.OmittedPropsCompared | src/dioxus.rs:30-299 | for a prop left out of the markup macro, Yew and Dioxus give an empty alt text and placeholder, `Contain` and `Auto`, where Leptos gives `Image`, `empty`, `Fill` and `Responsive`; all three give `Center` and `Auto` decoding |

## Left out

- Text.Lowercase: ASCII only. Rust's `to_lowercase` also maps non-ASCII characters, and a few of them map into ASCII letters: U+212A KELVIN SIGN lower-cases to `k`, U+0130 to `i` followed by U+0307. No decoding keyword contains `k` or `i`, so no non-ASCII input can lower-case into one, and the ASCII model parses exactly the strings Rust parses.
- Text.Escape: only the escapes Rust's `{:?}` applies to ASCII text (quote, backslash, `\n`, `\r`, `\t`, `\0`). Other control and non-printable characters, which Rust writes as `\u{…}`, are not modelled.
- The responsive padding value is a parameter of each `Render`. Its floating-point computation is not modelled: parsing the width and height as `f64`, dividing, and the NaN and finiteness checks.
- `Loading`, `CrossOrigin`, `ReferrerPolicy`, `FetchPriority`, `AriaLive` and `AriaPressed` are not part of this model. Their definitions are not in the part of src/common.rs modelled here, and their values are passed straight through to attributes.
- Props copied verbatim into attributes are not represented: class, sizes on the img, srcset, usemap, ismap, quality, decoding, loading, ARIA attributes, node references and the like. Only the attributes the layout decides are kept.
- Intersection-observer construction, the threshold and root margin, `observe`/`disconnect`, and closure lifetimes are not modelled. Each observer callback is modelled as one call with the entry it receives.
- The Dioxus observer effect is not modelled. Its node reference is the constant `Some(5)`, and it disconnects the observer right after creating it without observing anything, so its callback never runs.
- Asynchronous execution is not modelled. Each error handler receives the awaited fetch outcome as an argument and completes in one step; interleavings of overlapping fetches are not represented.
- Which of the Dioxus img's two `style` attributes takes effect is not modelled: both are kept in order in `styles`, and what the framework does with the duplicate is not stated.
- Callbacks are modelled by recording each invocation in `emitted`. What the application's callbacks do is outside the component.
- Leptos.ImgStyle: the style text is modelled, not how a browser splits it into declarations. A user style without a trailing `;` (such as `border-radius: 8px`) runs into the `object-fit` declaration that follows it, and the browser drops the joined declaration, so neither it nor the fit applies. `Leptos.ImgStyleUserStyleFirst` states that no `;` is added between them; what the browser then does is described here only.

## Findings

| source | as written | input that shows it | evidently intended | confidence | as-written member | corrected member |
|---|---|---|---|---|---|---|
| src/dioxus.rs:415-418 | `img_style` prints `object_fit` and `object_position` with `{:?}`, which writes the variant names | `ObjectFit::ScaleDown` gives `object-fit: ScaleDown;` and `Position::TopLeft` gives `object-position: TopLeft;`; neither value is a CSS keyword even ignoring case, so the browser drops both declarations | the `as_str` keywords (`scale-down`, `top left`), as the Yew and Leptos bindings write them | high (not executed) | Dioxus.DebugFitAsCss | Dioxus.ImgStyleDeclaresKeywords |
| src/yew.rs:601-618 | `blur_style` ends with `url("…")` and no `;`, and `full_style` puts the image style right after it and a space | with placeholder `"blur"` and `ObjectFit::Contain`, the full style contains `url("…") object-fit: contain;`, which the browser reads as one invalid `background-image` declaration, losing both the blur image and the fit | a `;` after the `url(…)`, as the Leptos and Dioxus bindings write it | high (not executed) | Yew.BlurStyleUnterminated | Yew.FullStyleTerminatedSeparates |
| src/dioxus.rs:420-427 | `blur_style` prints `object_position` with `{:?}` | with placeholder `"blur"` and `Position::BottomRight`, the style has `background-position: BottomRight;`, which is no position keyword | `background-position` with the `as_str` keywords, as in Yew and Leptos | high (not executed) | Dioxus.DebugPositionAsCss | Dioxus.BlurStylePositionDeclaration |

`Yew.Render` and `Dioxus.Render` show the styles as the code writes them. The
corrected styles sit beside them: `Yew.BlurStyleTerminated` and
`Yew.FullStyleTerminated` for Yew; `Dioxus.ImgStyle`, `Dioxus.BlurStyle` and
`Dioxus.FullStyleCorrected` for Dioxus, where `Dioxus.FullStyleAsWrittenDiffers`
states where the two part.
