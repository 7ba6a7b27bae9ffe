/**
 * The countdown banner: whole days left until Valentine's Day, and the
 * message and colours that grow more urgent as the day approaches.
 *
 * The clock is a parameter: `diff` is the number of milliseconds from now
 * until midnight at the start of Valentine's Day, negative once it has passed.
 */
module Countdown {
  import opened Js

  const MillisPerDay: nat := 1000 * 60 * 60 * 24

  /** `Math.ceil(a / d)` for a positive divisor. */
  function CeilDiv(a: int, d: nat): (q: int)
    requires d > 0
    ensures (q - 1) * d < a <= q * d
  {
    -((-a) / d)
  }

  datatype CountdownState = CountdownState(days: nat, isPast: bool)

  /** `calculateDays()`: days rounded up, never below zero, and whether the day is over. */
  function CalculateDays(diff: int): (s: CountdownState)
    ensures s.isPast <==> diff <= -(MillisPerDay as int)
    ensures s.days == 0 <==> diff <= 0
    ensures diff > 0 ==> (s.days - 1) * MillisPerDay < diff <= s.days * MillisPerDay
  {
    var days := CeilDiv(diff, MillisPerDay);
    CountdownState(if days < 0 then 0 else days, days < 0)
  }

  /** During the whole of Valentine's Day the count shows zero without being past. */
  lemma ValentinesDayIsDayZero(diff: int)
    requires -(MillisPerDay as int) < diff <= 0
    ensures CalculateDays(diff) == CountdownState(0, false)
  {
  }

  /** Fewer milliseconds left never means more days left. */
  lemma DaysMonotone(a: int, b: int)
    requires a <= b
    ensures CalculateDays(a).days <= CalculateDays(b).days
  {
  }

  datatype UrgencyConfig = UrgencyConfig(
    message: string,
    subtext: string,
    bgClass: string,
    textClass: string,
    subtextClass: string)

  /** The five urgency tiers, most urgent first. */
  datatype Tier = Today | Tomorrow | FewDays | ThisWeek | Later

  /** The tier a day count falls in. */
  function TierOf(days: nat): Tier {
    if days == 0 then Today
    else if days == 1 then Tomorrow
    else if days <= 3 then FewDays
    else if days <= 7 then ThisWeek
    else Later
  }

  /** How urgent a tier is: higher is more urgent. */
  function Urgency(t: Tier): nat {
    match t
    case Today => 4
    case Tomorrow => 3
    case FewDays => 2
    case ThisWeek => 1
    case Later => 0
  }

  /** Fewer days left never gives a calmer tier. */
  lemma TierMonotone(a: nat, b: nat)
    requires a <= b
    ensures Urgency(TierOf(a)) >= Urgency(TierOf(b))
  {
  }

  /** `getUrgencyConfig()`: the banner for each tier. From two days out the
      message spells the count; the three most urgent tiers set white text,
      the two calmer ones cream. */
  function GetUrgencyConfig(days: nat): (r: UrgencyConfig)
    ensures TierOf(days) == Today ==>
      r.message == "It's Valentine's Day!" && r.subtext == "Make it special"
      && r.bgClass == "bg-[var(--burgundy)]" && r.subtextClass == "text-white/80"
    ensures TierOf(days) == Tomorrow ==>
      r.message == "Tomorrow is Valentine's Day!" && r.subtext == "Order now for same-day delivery"
      && r.bgClass == "bg-[var(--burgundy)]" && r.subtextClass == "text-white/80"
    ensures TierOf(days) == FewDays ==>
      r.message == "Only " + NatToString(days) + " days left!" && r.subtext == "Order soon to guarantee delivery"
      && r.bgClass == "bg-[var(--burgundy)]/90" && r.subtextClass == "text-white/70"
    ensures TierOf(days) == ThisWeek ==>
      r.message == NatToString(days) + " days until Valentine's Day" && r.subtext == "Still time for the perfect gift"
      && r.bgClass == "bg-[var(--gold)]/20" && r.subtextClass == "text-[var(--cream)]/70"
    ensures TierOf(days) == Later ==>
      r.message == NatToString(days) + " days until Valentine's Day" && r.subtext == "Find their perfect gift"
      && r.bgClass == "bg-[var(--cream)]/10" && r.subtextClass == "text-[var(--cream)]/60"
    ensures days >= 2 ==> exists i :: OccursAt(r.message, NatToString(days), i)
    ensures Urgency(TierOf(days)) >= 2 ==> r.textClass == "text-white"
    ensures Urgency(TierOf(days)) < 2 ==> r.textClass == "text-[var(--cream)]"
  {
    if days == 0 then
      UrgencyConfig("It's Valentine's Day!", "Make it special",
        "bg-[var(--burgundy)]", "text-white", "text-white/80")
    else if days == 1 then
      UrgencyConfig("Tomorrow is Valentine's Day!", "Order now for same-day delivery",
        "bg-[var(--burgundy)]", "text-white", "text-white/80")
    else if days <= 3 then
      var message := "Only " + NatToString(days) + " days left!";
      assert OccursAt(message, NatToString(days), 5);
      UrgencyConfig(message, "Order soon to guarantee delivery",
        "bg-[var(--burgundy)]/90", "text-white", "text-white/70")
    else if days <= 7 then
      var message := NatToString(days) + " days until Valentine's Day";
      assert OccursAt(message, NatToString(days), 0);
      UrgencyConfig(message, "Still time for the perfect gift",
        "bg-[var(--gold)]/20", "text-[var(--cream)]", "text-[var(--cream)]/70")
    else
      var message := NatToString(days) + " days until Valentine's Day";
      assert OccursAt(message, NatToString(days), 0);
      UrgencyConfig(message, "Find their perfect gift",
        "bg-[var(--cream)]/10", "text-[var(--cream)]", "text-[var(--cream)]/60")
  }

  /** Two different day counts never show the same message. */
  lemma MessagesDistinguishDays(d1: nat, d2: nat)
    requires GetUrgencyConfig(d1).message == GetUrgencyConfig(d2).message
    ensures d1 == d2
  {
    var m := GetUrgencyConfig(d1).message;
    if d1 >= 2 && d2 >= 2 {
      var s1, s2 := NatToString(d1), NatToString(d2);
      if d1 <= 3 && d2 <= 3 {
        assert s1 == m[5..5 + |s1|];
        assert |s1| == |m| - 16 == |s2|;
        assert s2 == m[5..5 + |s2|];
        NatToStringInjective(d1, d2);
      } else if d1 > 3 && d2 > 3 {
        assert |s1| == |m| - 27 == |s2|;
        assert s1 == m[..|s1|];
        assert s2 == m[..|s2|];
        NatToStringInjective(d1, d2);
      }
    } else if d1 < 2 && d2 >= 2 {
      UrgentMessagesAreWordy(d1, d2);
    } else if d2 < 2 && d1 >= 2 {
      UrgentMessagesAreWordy(d2, d1);
    }
  }

  /** The messages for today and tomorrow differ from every numbered one. */
  lemma UrgentMessagesAreWordy(d1: nat, d2: nat)
    requires d1 < 2 <= d2
    ensures GetUrgencyConfig(d1).message != GetUrgencyConfig(d2).message
  {
    var m := GetUrgencyConfig(d2).message;
    var s := NatToString(d2);
    assert IsDigit(s[0]);
    if d2 <= 3 {
      assert m[..5] == "Only ";
    } else {
      assert m[0] == s[0];
    }
  }

  /** The component's output: nothing before it has mounted or once the day
      is past, else the banner for the current count. */
  function Banner(mounted: bool, countdown: CountdownState): (r: Option<UrgencyConfig>)
    ensures r.Some? <==> mounted && !countdown.isPast
    ensures r.Some? ==> r.value == GetUrgencyConfig(countdown.days)
  {
    if !mounted then None
    else if countdown.isPast then None
    else Some(GetUrgencyConfig(countdown.days))
  }

  /** Once mounted, the banner shows from any time before Valentine's Day
      until the end of the day itself. */
  lemma BannerShownUntilDayEnds(diff: int)
    ensures Banner(true, CalculateDays(diff)).Some? <==> diff > -(MillisPerDay as int)
    ensures Banner(false, CalculateDays(diff)).None?
  {
  }
}
