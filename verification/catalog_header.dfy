/** The catalog header (src/components/CatalogHeader.tsx): ten clicks on the
    logo, none more than three seconds after the previous one, open the
    administrator login. The three-second timer is an abstract `Timeout`
    event. */
module CatalogHeader {

  /** Clicks that trigger the navigation to the login page. */
  const Threshold: nat := 10

  /** The counter and how many times the login page has been opened. */
  datatype HeaderState = HeaderState(clickCount: nat, navigations: nat)

  const Initial := HeaderState(0, 0)

  datatype Event =
    | Click     // a click on the logo
    | Timeout   // the inactivity timer fired

  /** The effect of one event, with the threshold effect folded in: a click
      that reaches the threshold navigates and resets; the timer, which only
      runs while the counter is positive, resets it. */
  function Step(s: HeaderState, e: Event): (t: HeaderState)
    ensures s.clickCount < Threshold ==> t.clickCount < Threshold
    ensures e.Timeout? ==> t.clickCount == 0 && t.navigations == s.navigations
    ensures e.Click? ==> 10 * t.navigations + t.clickCount == 10 * s.navigations + s.clickCount + 1
                         || s.clickCount >= Threshold
  {
    match e
    case Click =>
      if s.clickCount + 1 >= Threshold then HeaderState(0, s.navigations + 1)
      else s.(clickCount := s.clickCount + 1)
    case Timeout =>
      if s.clickCount > 0 then s.(clickCount := 0) else s
  }

  /** The state after a sequence of events. */
  function Run(s: HeaderState, es: seq<Event>): HeaderState {
    if es == [] then s else Step(Run(s, es[..|es| - 1]), es[|es| - 1])
  }

  /** Number of clicks among the events. */
  function Clicks(es: seq<Event>): nat {
    if es == [] then 0 else Clicks(es[..|es| - 1]) + (if es[|es| - 1].Click? then 1 else 0)
  }

  /** `n` clicks in a row. */
  function ClickRun(n: nat): (es: seq<Event>)
    ensures |es| == n && forall e | e in es :: e.Click?
  {
    seq(n, _ => Click)
  }

  /** The counter never stays at or above the threshold. */
  lemma {:induction false} RunStaysBelow(s: HeaderState, es: seq<Event>)
    requires s.clickCount < Threshold
    ensures Run(s, es).clickCount < Threshold
  {
    if es != [] {
      RunStaysBelow(s, es[..|es| - 1]);
    }
  }

  /** Every navigation costs ten clicks: ten times the navigations plus the
      counter grows by at most one per click, and by exactly one per click
      when the timer never fires. */
  lemma {:induction false} RunAccounting(s: HeaderState, es: seq<Event>)
    requires s.clickCount < Threshold
    ensures 10 * Run(s, es).navigations + Run(s, es).clickCount <= 10 * s.navigations + s.clickCount + Clicks(es)
    ensures (forall e | e in es :: e.Click?) ==>
      10 * Run(s, es).navigations + Run(s, es).clickCount == 10 * s.navigations + s.clickCount + Clicks(es)
  {
    if es != [] {
      var pre := es[..|es| - 1];
      assert forall e | e in pre :: e in es;
      RunAccounting(s, pre);
      RunStaysBelow(s, pre);
    }
  }

  /** From the initial state, `n` uninterrupted clicks navigate `n / 10`
      times and leave the counter at `n % 10`. */
  lemma ClicksFromStart(n: nat)
    ensures Run(Initial, ClickRun(n)) == HeaderState(n % 10, n / 10)
  {
    RunAccounting(Initial, ClickRun(n));
    RunStaysBelow(Initial, ClickRun(n));
    ClicksOfClickRun(n);
  }

  lemma {:induction false} ClicksOfClickRun(n: nat)
    ensures Clicks(ClickRun(n)) == n
  {
    if n > 0 {
      ClicksOfClickRun(n - 1);
      assert ClickRun(n)[..n - 1] == ClickRun(n - 1);
    }
  }

  /** A timeout after any history clears the counter. */
  lemma TimeoutClears(s: HeaderState, es: seq<Event>)
    ensures Run(s, es + [Timeout]).clickCount == 0
  {
    assert (es + [Timeout])[..|es|] == es;
  }

  /** The header component's state. */
  class Header {
    var clickCount: nat
    var navigations: nat

    function State(): HeaderState
      reads this
    {
      HeaderState(clickCount, navigations)
    }

    /** The counter is below the threshold between events. */
    predicate Valid()
      reads this
    {
      clickCount < Threshold
    }

    /** The inactivity timer is running exactly while the counter is positive. */
    predicate TimerArmed()
      reads this
    {
      clickCount > 0
    }

    constructor ()
      ensures State() == Initial && Valid() && !TimerArmed()
    {
      clickCount := 0;
      navigations := 0;
    }

    /** `handleLogoClick`, followed by the threshold effect. */
    method LogoClick()
      modifies this
      ensures State() == Step(old(State()), Click)
      ensures old(Valid()) ==> Valid()
    {
      clickCount := clickCount + 1;
      if clickCount >= Threshold {
        navigations := navigations + 1;
        clickCount := 0;
      }
    }

    /** The inactivity timer firing; with the counter at zero there is no
        timer, so nothing happens. */
    method TimerFires()
      modifies this
      ensures State() == Step(old(State()), Timeout)
      ensures Valid() && !TimerArmed()
    {
      if clickCount > 0 {
        clickCount := 0;
      }
    }
  }
}
