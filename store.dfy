/** The document kept in site/fights.json: `{ active?, history? }`. */
module Store {
  import opened Outcomes

  /**
   * One fight. An absent `id` or `createdAt` is modelled as "" (every script
   * only tests them for truthiness, and absent and "" are both falsy). An
   * absent `votes` object is `None`, since vote.mjs initialises it.
   */
  datatype Fight = Fight(id: string, createdAt: string, foods: seq<string>, votes: Option<map<string, string>>)

  /** The whole JSON document; an absent `history` array is `None`. */
  datatype Document = Document(active: Option<Fight>, history: Option<seq<Fight>>)

  /** `active?.id` is truthy: there is an active fight and it has an id. */
  predicate IsRunning(active: Option<Fight>) {
    active.Some? && active.value.id != ""
  }

  /** `fight.votes || {}` */
  function VotesOf(f: Fight): map<string, string> {
    f.votes.GetOr(map[])
  }

  /** `data.history || []` */
  function HistoryOf(doc: Document): seq<Fight> {
    doc.history.GetOr([])
  }

  /** Every recorded choice is one of the fight's labels. */
  predicate ChoicesValid(f: Fight) {
    forall v :: v in VotesOf(f) ==> VotesOf(f)[v] in f.foods
  }

  /** The document object `data` that a script loads, mutates in place and saves. */
  class Data {
    var active: Option<Fight>
    var history: Option<seq<Fight>>

    function Doc(): Document
      reads this
    {
      Document(active, history)
    }

    /** `JSON.parse(fs.readFileSync(dataPath))`: the parsed document arrives as a value. */
    constructor Load(doc: Document)
      ensures Doc() == doc
    {
      active := doc.active;
      history := doc.history;
    }
  }
}
