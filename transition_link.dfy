/** The transition link: an anchor whose plain left clicks are turned into
    an `app:transition:navigate` event carrying the link's href, while
    every other click (already handled, another button, a modifier key, a
    new-tab target) is left to the browser. */
module TransitionLink {
  import opened Common

  const NavigateEvent: string := "app:transition:navigate"

  /** The click as the handler sees it. */
  datatype Click = Click(defaultPrevented: bool, buttons: Buttons)

  /** The click is left to the browser. */
  predicate LeftToBrowser(e: Click, target: Option<string>)
  {
    e.defaultPrevented || !PlainPrimary(e.buttons) || target == Some("_blank")
  }

  /** What the handler did: whether it prevented the default, and the
      href of the navigate event it dispatched, if any. */
  datatype Outcome = Outcome(prevented: bool, navigate: Option<string>)

  /** The click handler; `target` is the `target` prop. */
  function OnClick(e: Click, target: Option<string>, href: string): (o: Outcome)
    ensures o.prevented <==> (!e.defaultPrevented && e.buttons.button == 0 &&
      !e.buttons.meta && !e.buttons.ctrl && !e.buttons.shift && !e.buttons.alt && target != Some("_blank"))
    ensures o.navigate.Some? <==> o.prevented
    ensures o.navigate.Some? ==> o.navigate.value == href
  {
    if LeftToBrowser(e, target) then Outcome(false, None)
    else Outcome(true, Some(href))
  }

  /** Whether the click is taken over never depends on where the link
      goes. */
  lemma DecisionIgnoresHref(e: Click, target: Option<string>, h1: string, h2: string)
    ensures OnClick(e, target, h1).prevented == OnClick(e, target, h2).prevented
  {
  }

  /** An attribute value of the rendered anchor. */
  datatype Attr = Text(s: string) | Present | TransitionHandler | Other(name: string)

  /** The anchor's attributes: href, the click handler, the class name and
      the hover marker, then the caller's remaining props spread over them.
      The component destructures href, className and children out of its
      props, so the spread can override only the click handler and the
      hover marker. */
  function Attributes(href: string, className: string, props: map<string, Attr>): (a: map<string, Attr>)
    requires "href" !in props && "className" !in props && "children" !in props
    ensures a.Keys == {"href", "onClick", "className", "data-hover-interactive"} + props.Keys
    ensures forall k :: k in props ==> a[k] == props[k]
    ensures a["href"] == Text(href) && a["className"] == Text(className)
    ensures "onClick" !in props ==> a["onClick"] == TransitionHandler
    ensures "data-hover-interactive" !in props ==> a["data-hover-interactive"] == Present
  {
    map["href" := Text(href), "onClick" := TransitionHandler, "className" := Text(className),
      "data-hover-interactive" := Present] + props
  }
}
