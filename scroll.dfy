/** `handleElementInView` (scripts/main.js): the animation class an element
    gets when it scrolls into view, chosen from the classes it already has. */
module ScrollAnimation {

  /** The class added: the first rule that matches, in the order the source
      tests them, with `fade-in-up` when none does. */
  function InViewClass(classes: set<string>): (added: string)
    ensures added == "visible" <==> "story-paragraph" in classes
    ensures added == "fade-in-scale" <==> "story-paragraph" !in classes && "event-card" in classes
    ensures added == "slide-in-left" <==>
              "story-paragraph" !in classes && "event-card" !in classes && "section-title" in classes
    ensures added == "fade-in-up" <==>
              "story-paragraph" !in classes && "event-card" !in classes && "section-title" !in classes
  {
    if "story-paragraph" in classes then "visible"
    else if "event-card" in classes then "fade-in-scale"
    else if "section-title" in classes then "slide-in-left"
    else "fade-in-up"
  }

  /** The element's class list afterwards. */
  function HandleElementInView(classes: set<string>): (r: set<string>)
    ensures classes <= r && r - classes <= {InViewClass(classes)}
    ensures InViewClass(classes) in r
  {
    classes + {InViewClass(classes)}
  }

  /** Seeing an element again adds nothing more: its class list never sheds
      the marker class that chose the animation. */
  lemma InViewIdempotent(classes: set<string>)
    ensures HandleElementInView(HandleElementInView(classes)) == HandleElementInView(classes)
  {
    var added := InViewClass(classes);
    var once := HandleElementInView(classes);
    assert InViewClass(once) == added;
  }
}
