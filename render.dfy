/**
 * The page structure scripts/render.mjs builds from the document: which
 * cards it shows, in which order, and the escaped text on each card.
 */
module Render {
  import opened Outcomes
  import opened Store
  import opened Tally
  import opened Escape

  /** The "No fight running" paragraph, or a card for one fight with its title prefix. */
  datatype Card = NoFightRunning | FightCard(prefix: string, fight: Fight)

  /** The text a fight card shows, already escaped. */
  datatype CardText = CardText(a: string, b: string, aCount: nat, bCount: nat, total: nat, winner: Option<string>)

  const ActivePrefix: string := "Active \U{2022} "
  const PreviousPrefix: string := "Previous \U{2022} "

  /** `s.slice().reverse()`: a reversed copy. */
  function Reverse<T>(s: seq<T>): (r: seq<T>)
    ensures |r| == |s|
    ensures forall i :: 0 <= i < |s| ==> r[i] == s[|s| - 1 - i]
  {
    if s == [] then [] else Reverse(s[1..]) + [s[0]]
  }

  /** `activeCard`: a card only when the guard on `active?.id` holds. */
  function ActiveCard(doc: Document): (c: Card)
    ensures c.FightCard? <==> IsRunning(doc.active)
    ensures c.FightCard? ==> c.prefix == ActivePrefix && c.fight == doc.active.value
  {
    if IsRunning(doc.active) then FightCard(ActivePrefix, doc.active.value) else NoFightRunning
  }

  /** `historyCards`: one card per archived fight, `history || []` reversed, so newest first. */
  function HistoryCards(doc: Document): (cards: seq<Card>)
    ensures |cards| == |HistoryOf(doc)|
    ensures forall i :: 0 <= i < |cards| ==>
              cards[i] == FightCard(PreviousPrefix, HistoryOf(doc)[|cards| - 1 - i])
  {
    var newestFirst := Reverse(HistoryOf(doc));
    seq(|newestFirst|, i requires 0 <= i < |newestFirst| => FightCard(PreviousPrefix, newestFirst[i]))
  }

  /** `a || "?"` */
  function Shown(side: Option<string>): (s: string)
    ensures s != ""
    ensures Present(side) ==> s == side.value
    ensures !Present(side) ==> s == "?"
  {
    if Present(side) then side.value else "?"
  }

  /** `renderFightCard(fight)` without the markup and the localised date. */
  ghost function CardTextOf(f: Fight): (c: CardText)
    ensures c.winner.None? <==> !Present(Label(f.foods, 0)) || !Present(Label(f.foods, 1))
    ensures forall i :: 0 <= i < |c.a| ==> !IsMarkup(c.a[i])
    ensures forall i :: 0 <= i < |c.b| ==> !IsMarkup(c.b[i])
    ensures Unescape(c.a) == Shown(Label(f.foods, 0))
    ensures Unescape(c.b) == Shown(Label(f.foods, 1))
    ensures c.aCount == (if |f.foods| > 0 then |VotersFor(VotesOf(f), f.foods[0])| else 0)
    ensures c.bCount == (if |f.foods| > 1 then |VotersFor(VotesOf(f), f.foods[1])| else 0)
    ensures c.total == |VotesOf(f)|
  {
    var t := TallyOf(f);
    var w := WinnerLine(t);
    EscapeHtmlSafe(Shown(t.a));
    EscapeHtmlSafe(Shown(t.b));
    UnescapeEscapeHtml(Shown(t.a));
    UnescapeEscapeHtml(Shown(t.b));
    TallyCountsVoters(f);
    CardText(EscapeHtml(Shown(t.a)), EscapeHtml(Shown(t.b)), t.aCount, t.bCount, t.total,
             if w == "" then None else Some(EscapeHtml(w)))
  }

  /** Reversing twice gives back the stored order: the copy loses and reorders nothing for good. */
  lemma {:induction false} ReverseReverse<T>(s: seq<T>)
    ensures Reverse(Reverse(s)) == s
  {
    var r := Reverse(Reverse(s));
    assert |r| == |s|;
    forall i | 0 <= i < |s| ensures r[i] == s[i] {
      assert r[i] == Reverse(s)[|s| - 1 - i];
    }
  }

  /** The first history card is the fight archived last, the last card the one archived first. */
  lemma NewestFirst(doc: Document)
    requires HistoryOf(doc) != []
    ensures HistoryCards(doc)[0] == FightCard(PreviousPrefix, HistoryOf(doc)[|HistoryOf(doc)| - 1])
    ensures HistoryCards(doc)[|HistoryOf(doc)| - 1] == FightCard(PreviousPrefix, HistoryOf(doc)[0])
  {
  }
}
