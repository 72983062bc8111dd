/** The wedding countdown of `WeddingInvitation` (scripts/main.js): the
    millisecond decomposition `calculateTimeUnits`, the two-digit rendering of
    each unit, and the display that rewrites a unit's element only when its
    text changes. The distance is an input; reading the clock is not modelled. */
module Countdown {
  import opened Decimal
  import opened ModArith

  /** Milliseconds per unit, as the products in `calculateTimeUnits` give them. */
  const Second: nat := 1000
  const Minute: nat := 60_000
  const Hour: nat := 3_600_000
  const Day: nat := 86_400_000

  datatype TimeUnits = TimeUnits(days: int, hours: int, minutes: int, seconds: int)

  /** The keys of a TimeUnits record, in the order `Object.keys` lists them. */
  datatype TimeUnit = Days | Hours | Minutes | Seconds

  const UnitOrder: seq<TimeUnit> := [Days, Hours, Minutes, Seconds]

  /** The position of a unit in UnitOrder. */
  function Rank(u: TimeUnit): (k: nat)
    ensures k < |UnitOrder| && UnitOrder[k] == u
  {
    match u
    case Days => 0
    case Hours => 1
    case Minutes => 2
    case Seconds => 3
  }

  function UnitValue(t: TimeUnits, u: TimeUnit): int {
    match u
    case Days => t.days
    case Hours => t.hours
    case Minutes => t.minutes
    case Seconds => t.seconds
  }

  /** JavaScript's `%`: the remainder has the sign of the dividend. */
  function JsRem(a: int, b: int): (r: int)
    requires b > 0
    ensures -b < r < b
    ensures a >= 0 ==> r == a % b
    ensures a <= 0 ==> r <= 0
  {
    if a >= 0 then a % b else -((-a) % b)
  }

  /** `calculateTimeUnits`. `Math.floor(x / y)` with a positive `y` is
      Dafny's `/`, which rounds towards negative infinity. */
  function CalculateTimeUnits(distance: int): (t: TimeUnits)
    ensures distance >= 0 ==>
              0 <= t.days && 0 <= t.hours < 24 && 0 <= t.minutes < 60 && 0 <= t.seconds < 60
  {
    TimeUnits(distance / Day,
              JsRem(distance, Day) / Hour,
              JsRem(distance, Hour) / Minute,
              JsRem(distance, Minute) / Second)
  }

  /** For a distance that is not negative the units are in range and add up
      to the distance, less the milliseconds below one second. */
  lemma CalculateTimeUnitsSound(distance: int)
    requires distance >= 0
    ensures var t := CalculateTimeUnits(distance);
      && 0 <= t.days
      && 0 <= t.hours < 24 && 0 <= t.minutes < 60 && 0 <= t.seconds < 60
      && t.days * Day + t.hours * Hour + t.minutes * Minute + t.seconds * Second <= distance
      && distance < t.days * Day + t.hours * Hour + t.minutes * Minute + t.seconds * Second + Second
  {
    var t := CalculateTimeUnits(distance);
    var d := distance;
    assert d == t.days * Day + d % Day;
    ModOfMod(d, 24, Hour);
    ModOfMod(d, 60, Minute);
    ModOfMod(d, 60, Second);
    assert d % Day == t.hours * Hour + d % Hour;
    assert d % Hour == t.minutes * Minute + d % Minute;
    assert d % Minute == t.seconds * Second + d % Second;
  }

  /** `Number.prototype.toString` on an integer. */
  function IntToString(i: int): (s: string)
    ensures i >= 0 ==> s == FromNat(i)
    ensures i < 0 ==> s == "-" + FromNat(-i)
  {
    if i < 0 then "-" + FromNat(-i) else FromNat(i)
  }

  /** `padStart(2, '0')`: zeros in front up to length 2; a longer string is kept. */
  function PadStart2(s: string): (p: string)
    ensures |p| == if |s| >= 2 then |s| else 2
    ensures |s| >= 2 ==> p == s
  {
    if |s| >= 2 then s else Zeros(2 - |s|) + s
  }

  /** The text `displayCountdown` writes for a unit value. */
  function UnitText(v: int): string {
    PadStart2(IntToString(v))
  }

  /** A unit value that is not negative is shown as decimal digits that
      read back as the value, at least two of them, exactly two below 100. */
  lemma {:induction false} UnitTextReadsBack(v: nat)
    ensures AllDigits(UnitText(v)) && Value(UnitText(v)) == v
    ensures |UnitText(v)| >= 2
    ensures v < 100 ==> |UnitText(v)| == 2
  {
    var s := FromNat(v);
    var p := PadStart2(s);
    ValueOfFromNat(v);
    assert p == Zeros(|p| - |s|) + s;
    LeadingZerosIgnored(|p| - |s|, s);
    if v < 100 {
      FromNatShort(v);
    }
  }

  lemma FromNatShort(v: nat)
    requires v < 100
    ensures |FromNat(v)| <= 2
  {
  }

  /** Two unit values that are not negative are displayed alike exactly
      when they are equal, so the change check rewrites exactly the units
      whose value changed. */
  lemma UnitTextInjective(a: nat, b: nat)
    ensures UnitText(a) == UnitText(b) <==> a == b
  {
    UnitTextReadsBack(a);
    UnitTextReadsBack(b);
  }

  /** The text `displayCountdown` computes for each unit of a TimeUnits record. */
  function Rendered(t: TimeUnits): (r: map<TimeUnit, string>)
    ensures forall u :: u in r
  {
    map u: TimeUnit :: UnitText(UnitValue(t, u))
  }

  lemma RenderedUnit(t: TimeUnits, u: TimeUnit)
    ensures Rendered(t)[u] == UnitText(UnitValue(t, u))
  {
  }

  /** The texts the unit elements that exist hold after the display: each
      holds its new text. */
  function Displayed(texts: map<TimeUnit, string>, target: map<TimeUnit, string>): (r: map<TimeUnit, string>)
    requires forall u :: u in target
    ensures r.Keys == texts.Keys && forall u :: u in r ==> r[u] == target[u]
  {
    map u | u in texts :: target[u]
  }

  /** The unit elements whose text differs from the new one. */
  function Changed(texts: map<TimeUnit, string>, target: map<TimeUnit, string>): (r: set<TimeUnit>)
    requires forall u :: u in target
    ensures forall u :: u in r <==> u in texts && texts[u] != target[u]
  {
    set u | u in texts && texts[u] != target[u]
  }

  /** What `displayCountdown` has done once it has visited the first `i`
      units of UnitOrder, starting from `before`: those units hold their new
      text and were rewritten when it differed; the others are untouched. */
  ghost predicate VisitedUpTo(before: map<TimeUnit, string>, target: map<TimeUnit, string>,
                              texts: map<TimeUnit, string>, rewritten: set<TimeUnit>, i: nat)
    requires forall u :: u in target
  {
    && texts.Keys == before.Keys
    && (forall u :: u in texts ==> texts[u] == if Rank(u) < i then target[u] else before[u])
    && (forall u :: u in rewritten <==> Rank(u) < i && u in before && before[u] != target[u])
  }

  lemma VisitStart(before: map<TimeUnit, string>, target: map<TimeUnit, string>)
    requires forall u :: u in target
    ensures VisitedUpTo(before, target, before, {}, 0)
  {
  }

  /** Visiting unit `UnitOrder[i]` rewrites it exactly when its text differs. */
  lemma VisitStep(before: map<TimeUnit, string>, target: map<TimeUnit, string>,
                  texts: map<TimeUnit, string>, rewritten: set<TimeUnit>, i: nat, changed: bool)
    requires forall u :: u in target
    requires i < |UnitOrder| && VisitedUpTo(before, target, texts, rewritten, i)
    requires changed <==> UnitOrder[i] in texts && texts[UnitOrder[i]] != target[UnitOrder[i]]
    ensures VisitedUpTo(before, target,
                        if changed then texts[UnitOrder[i] := target[UnitOrder[i]]] else texts,
                        if changed then rewritten + {UnitOrder[i]} else rewritten, i + 1)
  {
    var unit := UnitOrder[i];
    var texts' := if changed then texts[unit := target[unit]] else texts;
    var rewritten' := if changed then rewritten + {unit} else rewritten;
    forall u | u in texts'
      ensures texts'[u] == if Rank(u) < i + 1 then target[u] else before[u]
    {
      if u != unit {
        assert texts'[u] == texts[u];
      }
    }
  }

  /** Once all four units are visited, the texts and the rewritten units are
      the ones the display specifies. */
  lemma VisitEnd(before: map<TimeUnit, string>, target: map<TimeUnit, string>,
                 texts: map<TimeUnit, string>, rewritten: set<TimeUnit>)
    requires forall u :: u in target
    requires VisitedUpTo(before, target, texts, rewritten, |UnitOrder|)
    ensures texts == Displayed(before, target) && rewritten == Changed(before, target)
  {
  }

  /** What one `updateCountdown` call did. */
  datatype Tick = WeddingDay | Shown(time: TimeUnits, rewritten: set<TimeUnit>)

  /** The countdown section: the text of each unit element present in the
      page, and whether the wedding-day message has replaced its content. */
  class CountdownDisplay {
    var texts: map<TimeUnit, string>
    var weddingDayShown: bool
    const hasCountdownElement: bool

    constructor(initial: map<TimeUnit, string>, hasCountdown: bool)
      ensures texts == initial && !weddingDayShown && hasCountdownElement == hasCountdown
    {
      texts := initial;
      weddingDayShown := false;
      hasCountdownElement := hasCountdown;
    }

    /** `displayCountdown`: visits the units in key order and rewrites an
        element only when its text differs from the new one. */
    method DisplayCountdown(t: TimeUnits) returns (rewritten: set<TimeUnit>)
      modifies this
      ensures texts == Displayed(old(texts), Rendered(t))
      ensures rewritten == Changed(old(texts), Rendered(t))
      ensures weddingDayShown == old(weddingDayShown)
    {
      ghost var before := texts;
      ghost var target := Rendered(t);
      rewritten := {};
      VisitStart(before, target);
      var i := 0;
      while i < |UnitOrder|
        invariant 0 <= i <= |UnitOrder|
        invariant VisitedUpTo(before, target, texts, rewritten, i)
        invariant weddingDayShown == old(weddingDayShown)
      {
        var unit := UnitOrder[i];
        var newValue := UnitText(UnitValue(t, unit));
        RenderedUnit(t, unit);
        ghost var textsBefore, rewrittenBefore := texts, rewritten;
        var changed := Refresh(unit, newValue);
        if changed {
          rewritten := rewritten + {unit};
        }
        VisitStep(before, target, textsBefore, rewrittenBefore, i, changed);
        i := i + 1;
      }
      VisitEnd(before, target, texts, rewritten);
    }

    /** The body of the `forEach` in `displayCountdown` for one unit: an
        element that exists is rewritten only when its text differs. */
    method Refresh(unit: TimeUnit, newValue: string) returns (changed: bool)
      modifies this
      ensures changed <==> unit in old(texts) && old(texts)[unit] != newValue
      ensures texts == if changed then old(texts)[unit := newValue] else old(texts)
      ensures weddingDayShown == old(weddingDayShown)
    {
      changed := false;
      if unit in texts {
        var currentValue := texts[unit];
        if currentValue != newValue {
          texts := texts[unit := newValue];
          changed := true;
        }
      }
    }

    /** `updateCountdown` for a given distance to the wedding: a negative
        distance shows the wedding-day message and computes no units;
        otherwise the units are computed and displayed. */
    method UpdateCountdown(distance: int) returns (tick: Tick)
      modifies this
      ensures distance < 0 ==> tick == WeddingDay && texts == old(texts)
      ensures distance < 0 ==> weddingDayShown == (old(weddingDayShown) || hasCountdownElement)
      ensures distance >= 0 ==> tick == Shown(CalculateTimeUnits(distance), Changed(old(texts), Rendered(CalculateTimeUnits(distance))))
      ensures distance >= 0 ==> texts == Displayed(old(texts), Rendered(CalculateTimeUnits(distance))) && weddingDayShown == old(weddingDayShown)
    {
      if distance < 0 {
        if hasCountdownElement {
          weddingDayShown := true;
        }
        return WeddingDay;
      }
      var time := CalculateTimeUnits(distance);
      var rewritten := DisplayCountdown(time);
      return Shown(time, rewritten);
    }
  }
}
