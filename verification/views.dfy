/**
 * View actions: class-list and flag updates on outputs, fieldsets and the body.
 */
module Views {
  import opened Wrappers
  import opened ApplicationModel

  /** Opens or closes every collapsible fieldset. */
  function SetAccordions(s: State, open: bool): (r: State)
    ensures |r.accordions| == |s.accordions|
    ensures forall i :: 0 <= i < |r.accordions| ==> r.accordions[i] == open
    ensures r == s.(accordions := r.accordions)
  {
    s.(accordions := seq(|s.accordions|, _ => open))
  }

  /** Closes every collapsible fieldset and changes nothing else. */
  function CollapseAll(s: State): (r: State)
    ensures |r.accordions| == |s.accordions|
    ensures forall i :: 0 <= i < |r.accordions| ==> !r.accordions[i]
    ensures r == s.(accordions := r.accordions)
  {
    SetAccordions(s, false)
  }

  /** Opens every collapsible fieldset and changes nothing else. */
  function ExpandAll(s: State): (r: State)
    ensures |r.accordions| == |s.accordions|
    ensures forall i :: 0 <= i < |r.accordions| ==> r.accordions[i]
    ensures r == s.(accordions := r.accordions)
  {
    SetAccordions(s, true)
  }

  /**
   * Adds the `active` class to output `key`. Looking up a key the outputs
   * object lacks yields `undefined`, whose `element` throws: `None`.
   */
  function ActivateView(outputs: Outputs, key: string): (r: Option<Outputs>)
    ensures r.Some? <==> key in outputs
    ensures r.Some? ==> Active in r.value[key].classes
    ensures r.Some? ==> r.value[key].classes - {Active} == outputs[key].classes - {Active}
    ensures r.Some? ==> r.value[key].src == outputs[key].src && r.value[key].text == outputs[key].text
    ensures r.Some? ==> forall k :: k in outputs && k != key ==> r.value[k] == outputs[k]
  {
    match GetControl(outputs, key)
    case None => None
    case Some(o) => Some(outputs[key := o.(classes := o.classes + {Active})])
  }

  /** Removes the `active` class from output `key`; `None` where the lookup throws. */
  function DeactivateView(outputs: Outputs, key: string): (r: Option<Outputs>)
    ensures r.Some? <==> key in outputs
    ensures r.Some? ==> Active !in r.value[key].classes
    ensures r.Some? ==> r.value[key].classes - {Active} == outputs[key].classes - {Active}
    ensures r.Some? ==> r.value[key].src == outputs[key].src && r.value[key].text == outputs[key].text
    ensures r.Some? ==> forall k :: k in outputs && k != key ==> r.value[k] == outputs[k]
  {
    match GetControl(outputs, key)
    case None => None
    case Some(o) => Some(outputs[key := o.(classes := o.classes - {Active})])
  }

  /** A class list is a set: activating twice is activating once. */
  lemma ActivateViewIdempotent(outputs: Outputs, key: string)
    requires key in outputs
    ensures ActivateView(ActivateView(outputs, key).value, key) == ActivateView(outputs, key)
  {
    var once := ActivateView(outputs, key).value;
    assert once[key].classes + {Active} == once[key].classes;
    assert once[key := once[key]] == once;
  }

  /** Adds the `dark` body class when `dark` holds and removes it otherwise. */
  function SetForceDark(s: State, dark: bool := true): (r: State)
    ensures "dark" in r.bodyClasses <==> dark
    ensures r.bodyClasses - {"dark"} == s.bodyClasses - {"dark"}
    ensures r == s.(bodyClasses := r.bodyClasses)
  {
    if dark then s.(bodyClasses := s.bodyClasses + {"dark"})
    else s.(bodyClasses := s.bodyClasses - {"dark"})
  }

  /** The default argument forces the dark presentation. */
  lemma SetForceDarkDefault(s: State)
    ensures "dark" in SetForceDark(s).bodyClasses
  {
  }
}
