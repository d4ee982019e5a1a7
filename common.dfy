/** The attribute-value codec shared by the three bindings: closed enumerations
    that map to the literal CSS/HTML strings the component writes, and back. */
module Common {
  import opened Text

  /** Rust's `Result<Self, ()>` as the parsers return it. */
  datatype ParseResult<T> = Ok(value: T) | Err

  // ---------------------------------------------------------------------------
  // Layout

  datatype Layout = Fill | Responsive | Intrinsic | Fixed | Auto | Stretch | ScaleDown

  /** The `#[default]` variant. */
  function DefaultLayout(): Layout { Layout.Auto }

  function LayoutAsStr(l: Layout): (r: string)
    ensures r != [] && ';' !in r
  {
    match l
    case Fill => "fill"
    case Responsive => "responsive"
    case Intrinsic => "intrinsic"
    case Fixed => "fixed"
    case Auto => "auto"
    case Stretch => "stretch"
    case ScaleDown => "scale-down"
  }

  /** `Layout::from_str`: an exact, case-sensitive match on the seven literals. */
  function LayoutFromStr(s: string): (r: ParseResult<Layout>)
    ensures r.Ok? ==> LayoutAsStr(r.value) == s
  {
    if s == "fill" then Ok(Layout.Fill)
    else if s == "responsive" then Ok(Responsive)
    else if s == "intrinsic" then Ok(Intrinsic)
    else if s == "fixed" then Ok(Fixed)
    else if s == "auto" then Ok(Layout.Auto)
    else if s == "stretch" then Ok(Stretch)
    else if s == "scale-down" then Ok(Layout.ScaleDown)
    else Err
  }

  /** Every layout parses back from its own string. */
  lemma LayoutRoundTrip(l: Layout)
    ensures LayoutFromStr(LayoutAsStr(l)) == Ok(l)
  {
  }

  /** Exactly the seven literals are accepted: any other string is rejected. */
  lemma LayoutFromStrExact(s: string)
    ensures LayoutFromStr(s).Ok? <==> exists l: Layout :: LayoutAsStr(l) == s
  {
    if exists l: Layout :: LayoutAsStr(l) == s {
      var l: Layout :| LayoutAsStr(l) == s;
      LayoutRoundTrip(l);
    }
  }

  /** Distinct layouts are written differently. */
  lemma LayoutAsStrInjective(a: Layout, b: Layout)
    ensures LayoutAsStr(a) == LayoutAsStr(b) ==> a == b
  {
    LayoutRoundTrip(a);
    LayoutRoundTrip(b);
  }

  /** Parsing is case-sensitive: a capitalised or snake-cased name is an error. */
  lemma LayoutFromStrCaseSensitive()
    ensures LayoutFromStr("Fill") == Err
    ensures LayoutFromStr("scale_down") == Err
    ensures LayoutFromStr("AUTO") == Err
  {
  }

  // ---------------------------------------------------------------------------
  // Decoding

  datatype Decoding = Auto | Sync | Async

  function DefaultDecoding(): Decoding { Decoding.Auto }

  function DecodingAsStr(d: Decoding): (r: string)
    ensures r != [] && ';' !in r
  {
    match d
    case Auto => "auto"
    case Sync => "sync"
    case Async => "async"
  }

  /** `Decoding::from_str`: lower-cases the input, then matches the three literals. */
  function DecodingFromStr(s: string): (r: ParseResult<Decoding>)
    ensures r.Ok? ==> Lowercase(s) == DecodingAsStr(r.value)
  {
    var t := Lowercase(s);
    if t == "auto" then Ok(Decoding.Auto)
    else if t == "sync" then Ok(Sync)
    else if t == "async" then Ok(Async)
    else Err
  }

  /** A string parses to `d` exactly when its lower-case form is `d`'s string. */
  lemma DecodingFromStrSpec(s: string, d: Decoding)
    ensures DecodingFromStr(s) == Ok(d) <==> Lowercase(s) == DecodingAsStr(d)
  {
  }

  /** Parsing ignores ASCII case: any spelling equal up to case parses the same. */
  lemma DecodingFromStrIgnoresCase(s: string, t: string)
    requires EqualsIgnoringCase(s, t)
    ensures DecodingFromStr(s) == DecodingFromStr(t)
  {
  }

  /** The decoding strings are in lower case. */
  lemma DecodingAsStrIsLower(d: Decoding)
    ensures IsLower(DecodingAsStr(d))
  {
  }

  /** Every decoding round-trips, in lower case and in upper case. */
  lemma DecodingRoundTrip(d: Decoding)
    ensures DecodingFromStr(DecodingAsStr(d)) == Ok(d)
    ensures DecodingFromStr(Uppercase(DecodingAsStr(d))) == Ok(d)
  {
    DecodingAsStrIsLower(d);
    LowercaseIdempotent(DecodingAsStr(d));
    LowercaseOfUppercase(DecodingAsStr(d));
  }

  /** Whatever parses is, once lower-cased, the string of what it parsed to. */
  lemma DecodingParsedIsLowercase(s: string)
    ensures DecodingFromStr(s).Ok? ==> DecodingAsStr(DecodingFromStr(s).value) == Lowercase(s)
  {
  }

  /** Distinct decodings are written differently. */
  lemma DecodingAsStrInjective(a: Decoding, b: Decoding)
    ensures DecodingAsStr(a) == DecodingAsStr(b) ==> a == b
  {
  }

  // ---------------------------------------------------------------------------
  // Position

  datatype Position = Center | Top | Bottom | Left | Right | TopLeft | TopRight | BottomLeft | BottomRight

  function DefaultPosition(): Position { Center }

  predicate IsCorner(p: Position)
  {
    p.TopLeft? || p.TopRight? || p.BottomLeft? || p.BottomRight?
  }

  function PositionAsStr(p: Position): (r: string)
    ensures r != [] && ';' !in r
  {
    match p
    case Center => "center"
    case Top => "top"
    case Bottom => "bottom"
    case Left => "left"
    case Right => "right"
    case TopLeft => "top left"
    case TopRight => "top right"
    case BottomLeft => "bottom left"
    case BottomRight => "bottom right"
  }

  /** A corner is written as its vertical edge, one space, and its horizontal edge. */
  lemma CornerIsTwoEdges()
    ensures PositionAsStr(TopLeft) == PositionAsStr(Top) + " " + PositionAsStr(Left)
    ensures PositionAsStr(TopRight) == PositionAsStr(Top) + " " + PositionAsStr(Right)
    ensures PositionAsStr(BottomLeft) == PositionAsStr(Bottom) + " " + PositionAsStr(Left)
    ensures PositionAsStr(BottomRight) == PositionAsStr(Bottom) + " " + PositionAsStr(Right)
  {
  }

  /** Only the corners contain a space. */
  lemma PositionSpaceIffCorner(p: Position)
    ensures IsInfix(" ", PositionAsStr(p)) <==> IsCorner(p)
  {
    var s := PositionAsStr(p);
    if IsCorner(p) {
      var k := if p.TopLeft? || p.TopRight? then 3 else 6;
      assert InfixAt(" ", s, k);
    } else {
      forall i: nat | i <= |s| ensures !InfixAt(" ", s, i) {
        if i < |s| {
          assert s[i..i + 1][0] == s[i] != ' ';
        }
      }
    }
  }

  /** The position keywords are in lower case. */
  lemma PositionAsStrIsLower(p: Position)
    ensures Lowercase(PositionAsStr(p)) == PositionAsStr(p)
  {
    assert IsLower(PositionAsStr(p));
    LowercaseIdempotent(PositionAsStr(p));
  }

  /** Distinct positions are written differently. */
  lemma PositionAsStrInjective(a: Position, b: Position)
    ensures PositionAsStr(a) == PositionAsStr(b) ==> a == b
  {
  }

  // ---------------------------------------------------------------------------
  // ObjectFit

  datatype ObjectFit = Fill | Contain | Cover | ScaleDown | None

  function DefaultObjectFit(): ObjectFit { Contain }

  function ObjectFitAsStr(f: ObjectFit): (r: string)
    ensures r != [] && ';' !in r
  {
    match f
    case Fill => "fill"
    case Contain => "contain"
    case Cover => "cover"
    case ScaleDown => "scale-down"
    case None => "none"
  }

  /** The fit keywords are in lower case. */
  lemma ObjectFitAsStrIsLower(f: ObjectFit)
    ensures Lowercase(ObjectFitAsStr(f)) == ObjectFitAsStr(f)
  {
    assert IsLower(ObjectFitAsStr(f));
    LowercaseIdempotent(ObjectFitAsStr(f));
  }

  /** Distinct fits are written differently. */
  lemma ObjectFitAsStrInjective(a: ObjectFit, b: ObjectFit)
    ensures ObjectFitAsStr(a) == ObjectFitAsStr(b) ==> a == b
  {
  }

  /** The `#[default]` variants of the four enumerations. */
  lemma DefaultVariants()
    ensures DefaultLayout() == Layout.Auto
    ensures DefaultDecoding() == Decoding.Auto
    ensures DefaultPosition() == Center
    ensures DefaultObjectFit() == Contain
    ensures LayoutAsStr(DefaultLayout()) == DecodingAsStr(DefaultDecoding()) == "auto"
  {
  }

  // ---------------------------------------------------------------------------
  // `#[derive(Debug)]`: the variant names `{:?}` prints

  /** A variant name is one capitalised word: no space, no hyphen. */
  function PositionDebug(p: Position): (r: string)
    ensures r != [] && 'A' <= r[0] <= 'Z' && ' ' !in r && '-' !in r
  {
    match p
    case Center => "Center"
    case Top => "Top"
    case Bottom => "Bottom"
    case Left => "Left"
    case Right => "Right"
    case TopLeft => "TopLeft"
    case TopRight => "TopRight"
    case BottomLeft => "BottomLeft"
    case BottomRight => "BottomRight"
  }

  function ObjectFitDebug(f: ObjectFit): (r: string)
    ensures r != [] && 'A' <= r[0] <= 'Z' && ' ' !in r && '-' !in r
  {
    match f
    case Fill => "Fill"
    case Contain => "Contain"
    case Cover => "Cover"
    case ScaleDown => "ScaleDown"
    case None => "None"
  }

  /** The debug name of a fit is its CSS keyword capitalised, except for `ScaleDown`,
      so it matches the keyword up to case exactly when the fit is not `ScaleDown`. */
  lemma ObjectFitDebugMatchesKeyword(f: ObjectFit)
    ensures f != ObjectFit.ScaleDown ==> ObjectFitDebug(f) == Capitalize(ObjectFitAsStr(f))
    ensures EqualsIgnoringCase(ObjectFitDebug(f), ObjectFitAsStr(f)) <==> f != ObjectFit.ScaleDown
  {
    var a, b := ObjectFitDebug(f), ObjectFitAsStr(f);
    if f != ObjectFit.ScaleDown {
      assert a == Capitalize(b);
      LowercaseOfCapitalize(b);
    } else {
      assert |Lowercase(a)| != |Lowercase(b)|;
    }
  }

  /** The debug name of a position is its CSS keyword capitalised, except for the
      corners, so it matches the keyword up to case exactly when it is not a corner. */
  lemma PositionDebugMatchesKeyword(p: Position)
    ensures !IsCorner(p) ==> PositionDebug(p) == Capitalize(PositionAsStr(p))
    ensures EqualsIgnoringCase(PositionDebug(p), PositionAsStr(p)) <==> !IsCorner(p)
  {
    var a, b := PositionDebug(p), PositionAsStr(p);
    if !IsCorner(p) {
      assert a == Capitalize(b);
      LowercaseOfCapitalize(b);
    } else {
      assert |Lowercase(a)| != |Lowercase(b)|;
    }
  }
}
