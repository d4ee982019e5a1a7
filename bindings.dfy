/** How the three bindings of the `Image` component compare: where they render
    and decide alike and where they part ways. */
module Bindings {
  import opened Common
  import opened Browser
  import Yew
  import Leptos
  import Dioxus

  /** Yew and Dioxus give the container span the same style for every layout. */
  lemma ContainerStylesAgree(l: Layout)
    ensures Yew.ContainerStyle(l) == Dioxus.ContainerStyle(l)
  {
  }

  /** The Leptos container style for a layout is never the Yew one: Leptos
      writes its declarations without a space after the colon. */
  lemma LeptosContainerStylesDiffer(l: Layout)
    ensures Leptos.ContainerStyle(l) != Yew.ContainerStyle(l)
  {
    Yew.ContainerStyleLengths(l);
    Leptos.ContainerStyleLengths(l);
  }

  /** Yew and Leptos accept a fallback response on the same terms; Dioxus accepts
      every response Yew accepts, and more. */
  lemma FallbackAcceptance(outcome: FetchResult)
    ensures Yew.FallbackEmit(outcome).Loaded? <==> Leptos.FallbackOutcome(outcome).Loaded?
    ensures Yew.FallbackEmit(outcome).Loaded? ==> Dioxus.FallbackOutcome(outcome).Loaded?
  {
  }

  /** Two responses on which the bindings disagree: a `204 No Content`, and a
      `200` whose body is not JSON, both of which only Dioxus accepts. */
  lemma FallbackAcceptanceDiffers()
    ensures var noContent := Responded(Response(204, Text.None, false));
            !Yew.FallbackEmit(noContent).Loaded? && !Leptos.FallbackOutcome(noContent).Loaded?
            && Dioxus.FallbackOutcome(noContent) == Loaded
    ensures var notJson := Responded(Response(200, Text.Some("<html>"), false));
            Yew.FallbackEmit(notJson) == Failed("Image Not Found!")
            && Leptos.FallbackOutcome(notJson) == Failed("Image not found!")
            && Dioxus.FallbackOutcome(notJson) == Loaded
  {
  }

  /** `ImageProps::default()` is the same for Yew and Dioxus: `Contain` and `Auto`,
      alt text `"Image"`, placeholder `"empty"`. Leptos's omitted props share
      that alt text and placeholder but fill and lay out responsively. */
  lemma DefaultsCompared()
    ensures Yew.DefaultProps().objectFit == Dioxus.DefaultProps().objectFit == Contain
    ensures Yew.DefaultProps().layout == Dioxus.DefaultProps().layout == Layout.Auto
    ensures Leptos.DefaultProps().objectFit == ObjectFit.Fill
    ensures Leptos.DefaultProps().layout == Responsive
    ensures Yew.DefaultProps().alt == Leptos.DefaultProps().alt == Dioxus.DefaultProps().alt == "Image"
    ensures Yew.DefaultProps().placeholder == Leptos.DefaultProps().placeholder == Dioxus.DefaultProps().placeholder == "empty"
  {
  }

  /** What an `Image` written with no props gets in each binding: Yew and Dioxus
      leave the alt text and the placeholder empty, where Leptos puts `"Image"`
      and `"empty"`; the three agree on the position and the decoding only. */
  lemma OmittedPropsCompared()
    ensures Yew.OmittedProps().alt == Dioxus.OmittedProps().alt == "" != Leptos.DefaultProps().alt
    ensures Yew.OmittedProps().placeholder == Dioxus.OmittedProps().placeholder == "" != Leptos.DefaultProps().placeholder
    ensures Yew.OmittedProps().objectFit == Dioxus.OmittedProps().objectFit == Contain != Leptos.DefaultProps().objectFit
    ensures Yew.OmittedProps().layout == Dioxus.OmittedProps().layout == Layout.Auto != Leptos.DefaultProps().layout
    ensures Yew.OmittedProps().objectPosition == Dioxus.OmittedProps().objectPosition == Leptos.DefaultProps().objectPosition
    ensures Yew.OmittedProps().decoding == Dioxus.OmittedProps().decoding == Leptos.DefaultProps().decoding
  {
  }
}
