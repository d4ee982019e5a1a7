/** The browser as the component sees it, reduced to values: what one fallback
    request returns, what one intersection-observer call reports, and the
    callbacks the component fires. No I/O happens in the model; each event
    handler receives the outcome it would have awaited as an argument. */
module Browser {
  import opened Text
  import opened Common

  /** An HTTP status code, a `u16` in the source. */
  type Status = n: nat | n < 0x1_0000

  /** `Response::ok()`: the status lies in 200..=299. */
  predicate IsOk(status: Status)
  {
    200 <= status <= 299
  }

  /** A received response: its status, what `text()` yields (`None` when reading
      the body fails) and whether `json::<serde_json::Value>()` succeeds. */
  datatype Response = Response(status: Status, body: Option<string>, jsonParses: bool)

  /** What awaiting `send()` on a fallback request gives: a transport error
      (with its `Display` text) or a response. */
  datatype FetchResult = NetworkError(description: string) | Responded(response: Response)

  /** A GET request the component started, and whether it asked for
      `RequestCache::Reload`. */
  datatype Request = Request(url: string, reloadCache: bool)

  /** A callback invocation: `on_load(())` or `on_error(message)`. */
  datatype Emit = Loaded | Failed(message: string)

  /** One call of the intersection-observer callback: the first entry of the
      batch (`None` when there is none; otherwise whether it is intersecting) and
      whether the image reference resolves to an `HtmlImageElement`. */
  datatype ObserverCall = ObserverCall(firstEntry: Option<bool>, imageResolved: bool)

  /** The callback acts only when the first entry intersects and the image resolves. */
  predicate Reveals(call: ObserverCall)
  {
    call.firstEntry == Some(true) && call.imageResolved
  }

  // ---------------------------------------------------------------------------
  // Reading the keyword values of `object-fit` and `object-position`

  /** How a browser reads an `object-fit` value: CSS keywords match regardless of
      ASCII case, and anything else makes the declaration invalid (`None`). */
  function CssObjectFit(v: string): Option<ObjectFit>
  {
    var k := Lowercase(v);
    if k == "fill" then Some(ObjectFit.Fill)
    else if k == "contain" then Some(Contain)
    else if k == "cover" then Some(Cover)
    else if k == "scale-down" then Some(ObjectFit.ScaleDown)
    else if k == "none" then Some(ObjectFit.None)
    else Option.None
  }

  /** How a browser reads an `object-position` value written as one keyword or as
      a vertical and a horizontal keyword, the forms `Position::as_str` produces;
      case is ignored. `None` stands for every other value. Other valid forms,
      such as `left top` or lengths and percentages, are outside this model; a
      single word that is not a position keyword, such as `topleft`, makes the
      declaration invalid. */
  function CssPosition(v: string): Option<Position>
  {
    var k := Lowercase(v);
    if k == "center" then Some(Center)
    else if k == "top" then Some(Top)
    else if k == "bottom" then Some(Bottom)
    else if k == "left" then Some(Left)
    else if k == "right" then Some(Right)
    else if k == "top left" then Some(TopLeft)
    else if k == "top right" then Some(TopRight)
    else if k == "bottom left" then Some(BottomLeft)
    else if k == "bottom right" then Some(BottomRight)
    else Option.None
  }

  /** The keyword matched is the lower-cased value. */
  lemma CssObjectFitMatchesLowercase(v: string, f: ObjectFit)
    ensures CssObjectFit(v) == Some(f) <==> Lowercase(v) == ObjectFitAsStr(f)
  {
  }

  /** A value is read as the fit `f` exactly when it is `f`'s keyword up to case. */
  lemma CssObjectFitSpec(v: string, f: ObjectFit)
    ensures CssObjectFit(v) == Some(f) <==> EqualsIgnoringCase(v, ObjectFitAsStr(f))
  {
    ObjectFitAsStrIsLower(f);
    CssObjectFitMatchesLowercase(v, f);
  }

  /** The keywords matched are the lower-cased value. */
  lemma CssPositionMatchesLowercase(v: string, p: Position)
    ensures CssPosition(v) == Some(p) <==> Lowercase(v) == PositionAsStr(p)
  {
  }

  /** A value is read as the position `p` exactly when it is `p`'s keywords up to case. */
  lemma CssPositionSpec(v: string, p: Position)
    ensures CssPosition(v) == Some(p) <==> EqualsIgnoringCase(v, PositionAsStr(p))
  {
    PositionAsStrIsLower(p);
    CssPositionMatchesLowercase(v, p);
  }

  // ---------------------------------------------------------------------------
  // Declaration boundaries

  /** Whether a style text closes its last declaration: it is empty or ends with
      `;`. A declaration written after a text that does not is read as part of
      that text's last value, and the browser drops the whole run as one invalid
      declaration. */
  predicate ClosesDeclarations(s: string)
  {
    s == [] || s[|s| - 1] == ';'
  }
}
