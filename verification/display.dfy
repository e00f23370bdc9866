/** The "24h Change" card of the dashboard (App.tsx): magnitude of the change,
    an arrow and a word, all derived from the sign of `change_24h`. */
module Display {
  import opened Wrappers
  import opened Types
  import TrendLogic

  /** The arrow the card shows: 'up', 'down' or 'neutral'. */
  datatype Arrow = Up | Down | Neutral

  /** What the card shows: the value (None stands for the '--' placeholder),
      the arrow, and the subtext (None when the card has none). */
  datatype ChangeCard = ChangeCard(value: Option<real>, arrow: Arrow, subtext: Option<string>)

  function Abs(x: real): (a: real)
    ensures a >= 0.0 && (a == x || a == -x)
  {
    if x < 0.0 then -x else x
  }

  /** The card for the latest record, or the empty card when there is none. */
  function ChangeCardOf(latest: Option<WaterRecord>): (c: ChangeCard)
    ensures latest.None? ==> c == ChangeCard(None, Neutral, None)
    ensures latest.Some? ==> c.value == Some(Abs(latest.value.change24h)) && c.subtext.Some?
    ensures latest.Some? ==>
      && (c.arrow == Up <==> latest.value.change24h > 0.0)
      && (c.arrow == Down <==> latest.value.change24h < 0.0)
      && (c.subtext == Some("Rising") <==> latest.value.change24h > 0.0)
      && (c.subtext == Some("Falling") <==> latest.value.change24h < 0.0)
      && (c.subtext == Some("Stable") <==> latest.value.change24h == 0.0)
  {
    match latest
    case None => ChangeCard(None, Neutral, None)
    case Some(r) =>
      var change := r.change24h;
      ChangeCard(
        Some(Abs(change)),
        if change > 0.0 then Up else if change < 0.0 then Down else Neutral,
        Some(if change > 0.0 then "Rising" else if change < 0.0 then "Falling" else "Stable"))
  }

  /** The arrow that goes with a stored trend. */
  function ArrowFor(t: Trend): Arrow {
    match t
    case Rising => Up
    case Falling => Down
    case Stable => Neutral
  }

  /** The word that goes with a stored trend. */
  function LabelFor(t: Trend): string {
    match t
    case Rising => "Rising"
    case Falling => "Falling"
    case Stable => "Stable"
  }

  /** For a record whose trend agrees with its change (every record this
      dashboard assembles), the card's arrow and word are those of the stored
      trend, although the card recomputes them from the change. */
  lemma CardAgreesWithStoredTrend(r: WaterRecord)
    requires TrendLogic.TrendConsistent(r)
    ensures ChangeCardOf(Some(r)).arrow == ArrowFor(r.trend)
    ensures ChangeCardOf(Some(r)).subtext == Some(LabelFor(r.trend))
  {
  }

  /** The signed change a card stands for: its magnitude, negated under a down arrow. */
  function SignedChange(c: ChangeCard): real
    requires c.value.Some?
  {
    if c.arrow == Down then -c.value.value else c.value.value
  }

  /** Showing the magnitude together with the arrow loses no information. */
  lemma CardRecoversChange(r: WaterRecord)
    ensures SignedChange(ChangeCardOf(Some(r))) == r.change24h
  {
  }
}
