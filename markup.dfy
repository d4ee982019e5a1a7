/** The part of the rendered markup the model keeps: the container spans with
    their inline styles and the `<img>` elements with the attributes the layout
    decides. Attributes copied verbatim from props (class, ARIA, srcset, ...) are
    not represented. */
module Markup {

  datatype Element =
    | Span(style: string, children: seq<Element>)
      /** The visible image; `styles` lists its `style` attributes in order. */
    | Img(src: string, alt: string, width: string, height: string, styles: seq<string>)
      /** The hidden copy of the blur placeholder that the intrinsic layout adds,
          marked `aria-hidden="true"` by every binding. */
    | HiddenImg(src: string, style: string, alt: string)

  predicate IsImage(e: Element)
  {
    e.Img? || e.HiddenImg?
  }

  /** The images of a tree in document order. */
  function Images(e: Element): (r: seq<Element>)
    ensures forall k :: 0 <= k < |r| ==> IsImage(r[k])
    ensures IsImage(e) ==> r == [e]
    decreases e
  {
    match e
    case Span(_, children) => ImagesIn(children)
    case _ => [e]
  }

  /** The images of a sequence of sibling trees in document order. */
  function ImagesIn(es: seq<Element>): (r: seq<Element>)
    ensures forall k :: 0 <= k < |r| ==> IsImage(r[k])
    ensures es == [] ==> r == []
    decreases es
  {
    if es == [] then [] else Images(es[0]) + ImagesIn(es[1..])
  }

  /** A span with no children. */
  predicate IsEmptySpan(e: Element)
  {
    e.Span? && e.children == []
  }
}
