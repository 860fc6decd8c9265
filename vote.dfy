/** scripts/vote.mjs: record one voter's choice in the active fight. */
module Vote {
  import opened Outcomes
  import opened Store
  import Tally

  /** The three early exits of the script, with what each reports. */
  datatype VoteError =
    | Usage                                             // a missing or empty argument
    | NoActiveFight                                     // no active fight with an id
    | InvalidVote(choice: string, allowed: seq<string>) // the choice and the allowed labels

  /** `process.argv.slice(2)[i]`, with an absent argument as "" (both falsy). */
  function Arg(args: seq<string>, i: nat): string {
    if i < |args| then args[i] else ""
  }

  /** `[...new Set(foods)]`: the labels once each, in order of first occurrence. */
  function Distinct(foods: seq<string>): (r: seq<string>)
    ensures forall x :: x in r <==> x in foods
    ensures forall i, j :: 0 <= i < j < |r| ==> r[i] != r[j]
  {
    if foods == [] then []
    else
      var seen := Distinct(foods[..|foods| - 1]);
      var last := foods[|foods| - 1];
      assert foods == foods[..|foods| - 1] + [last];
      if last in seen then seen else seen + [last]
  }

  /**
   * The whole script on a document value: the new document, or the error the
   * script exits with (leaving the file as it was).
   */
  function Apply(doc: Document, args: seq<string>): (r: Result<Document, VoteError>)
    ensures r == Err(Usage) <==> Arg(args, 0) == "" || Arg(args, 1) == ""
    ensures r == Err(NoActiveFight) <==> Arg(args, 0) != "" && Arg(args, 1) != "" && !IsRunning(doc.active)
    ensures r.Err? && r.error.InvalidVote? ==>
              IsRunning(doc.active) && Arg(args, 1) !in doc.active.value.foods
              && r.error.choice == Arg(args, 1)
              && (forall x :: x in r.error.allowed <==> x in doc.active.value.foods)
    ensures r.Ok? <==> Arg(args, 0) != "" && Arg(args, 1) != "" && IsRunning(doc.active) && Arg(args, 1) in doc.active.value.foods
    ensures r.Ok? ==>
              var (voter, choice) := (Arg(args, 0), Arg(args, 1));
              var (before, after) := (doc.active.value, r.value.active);
              && r.value.history == doc.history
              && after.Some? && after.value.votes.Some?
              && after.value.id == before.id && after.value.createdAt == before.createdAt
              && after.value.foods == before.foods
              && VotesOf(after.value).Keys == VotesOf(before).Keys + {voter}
              && VotesOf(after.value)[voter] == choice
              && (forall v :: v in VotesOf(before) && v != voter ==> VotesOf(after.value)[v] == VotesOf(before)[v])
  {
    var voterId, choice := Arg(args, 0), Arg(args, 1);
    if voterId == "" || choice == "" then Err(Usage)
    else if !IsRunning(doc.active) then Err(NoActiveFight)
    else
      var f := doc.active.value;
      if choice !in f.foods then Err(InvalidVote(choice, Distinct(f.foods)))
      else
        var votes := VotesOf(f);
        Ok(doc.(active := Some(f.(votes := Some(votes[voterId := choice])))))
  }

  /**
   * The script itself, on the loaded document object: each guard exits
   * before anything is written; on success `votes ||= {}` and then the
   * dictionary write.
   */
  method RecordVote(data: Data, args: seq<string>) returns (err: Option<VoteError>)
    modifies data
    ensures err.None? ==> Apply(old(data.Doc()), args) == Ok(data.Doc())
    ensures err.Some? ==> Apply(old(data.Doc()), args) == Err(err.value) && data.Doc() == old(data.Doc())
  {
    var voterId, choice := Arg(args, 0), Arg(args, 1);
    if voterId == "" || choice == "" {
      return Some(Usage);
    }
    if !IsRunning(data.active) {
      return Some(NoActiveFight);
    }
    if choice !in data.active.value.foods {
      return Some(InvalidVote(choice, Distinct(data.active.value.foods)));
    }
    var f := data.active.value;
    if f.votes.None? {
      f := f.(votes := Some(map[]));
    }
    data.active := Some(f.(votes := Some(f.votes.value[voterId := choice])));
    return None;
  }

  // ---------------------------------------------------------------------
  // Properties of a vote

  /** Casting the same vote twice leaves the document as casting it once. */
  lemma VoteIdempotent(doc: Document, args: seq<string>)
    requires Apply(doc, args).Ok?
    ensures Apply(Apply(doc, args).value, args) == Apply(doc, args)
  {
    var once := Apply(doc, args).value;
    var (voter, choice) := (Arg(args, 0), Arg(args, 1));
    var m := VotesOf(doc.active.value);
    assert m[voter := choice][voter := choice] == m[voter := choice];
  }

  /**
   * Re-voting: a voter who already voted keeps one entry (the new one), so
   * the number of entries and the tally's total stay the same; a new voter
   * adds exactly one entry.
   */
  lemma RevoteReplaces(doc: Document, args: seq<string>)
    requires Apply(doc, args).Ok?
    ensures var (before, after) := (doc.active.value, Apply(doc, args).value.active.value);
            && (Arg(args, 0) in VotesOf(before) ==> |VotesOf(after)| == |VotesOf(before)|)
            && (Arg(args, 0) !in VotesOf(before) ==> |VotesOf(after)| == |VotesOf(before)| + 1)
            && Tally.TallyOf(after).total == |VotesOf(after)|
  {
    var (before, after) := (doc.active.value, Apply(doc, args).value.active.value);
    var voter := Arg(args, 0);
    if voter in VotesOf(before) {
      assert VotesOf(after).Keys == VotesOf(before).Keys;
    } else {
      assert VotesOf(after).Keys == VotesOf(before).Keys + {voter};
    }
    Tally.TallyCountsVoters(after);
  }

  /** Last write wins: after votes `c1` then `c2` by the same voter, the entry is `c2`, counted once. */
  lemma LastWriteWins(doc: Document, voter: string, c1: string, c2: string)
    requires Apply(doc, [voter, c1]).Ok? && Apply(doc, [voter, c2]).Ok?
    ensures var twice := Apply(Apply(doc, [voter, c1]).value, [voter, c2]);
            && twice == Apply(doc, [voter, c2])
            && VotesOf(twice.value.active.value)[voter] == c2
  {
    var m := VotesOf(doc.active.value);
    assert m[voter := c1][voter := c2] == m[voter := c2];
  }

  /**
   * The invariant the script keeps: a recorded choice is always one of the
   * fight's labels. A rejected vote changes nothing, so the invariant holds
   * whatever the outcome.
   */
  lemma VoteKeepsChoicesValid(doc: Document, args: seq<string>)
    requires doc.active.Some? && ChoicesValid(doc.active.value)
    ensures Apply(doc, args).Ok? ==> ChoicesValid(Apply(doc, args).value.active.value)
  {
  }

  /**
   * A fight whose two labels differ and whose votes all came through the
   * script has `aCount + bCount == total`.
   */
  lemma VotedTallyTotals(doc: Document, args: seq<string>)
    requires doc.active.Some? && ChoicesValid(doc.active.value)
    requires |doc.active.value.foods| == 2 && doc.active.value.foods[0] != doc.active.value.foods[1]
    requires Apply(doc, args).Ok?
    ensures var t := Tally.TallyOf(Apply(doc, args).value.active.value);
            t.aCount + t.bCount == t.total
  {
    VoteKeepsChoicesValid(doc, args);
    Tally.TallyTotalsOfValidFight(Apply(doc, args).value.active.value);
  }
}
