/** Whole runs of the three scripts on concrete documents. */
module Scenarios {
  import opened Outcomes
  import opened Store
  import opened Tally
  import Vote
  import NewFight

  const Pizza: string := "\U{1F355}"
  const Taco: string := "\U{1F32E}"
  const Burger: string := "\U{1F354}"

  /** The document after starting pizza against taco on an empty file. */
  function Started(id: string, now: string): Document {
    NewFight.Apply(Document(None, None), [Pizza, Taco], id, now).value
  }

  /** The active fight of `Started` with the given votes. */
  function WithVotes(id: string, now: string, m: map<string, string>): Document {
    Document(Some(Fight(id, now, [Pizza, Taco], Some(m))), None)
  }

  /** One accepted vote on the pizza/taco fight. */
  lemma VoteStep(id: string, now: string, m: map<string, string>, voter: string, choice: string)
    requires id != "" && voter != "" && (choice == Pizza || choice == Taco)
    ensures Vote.Apply(WithVotes(id, now, m), [voter, choice]) == Ok(WithVotes(id, now, m[voter := choice]))
  {
  }

  lemma TwoToOne(f: Fight)
    requires f.foods == [Pizza, Taco] && f.votes == Some(map["u1" := Pizza, "u2" := Taco, "u3" := Pizza])
    ensures TallyOf(f) == Tally(Some(Pizza), Some(Taco), 2, 1, 3)
  {
    var m := VotesOf(f);
    assert VotersFor(m, Pizza) == {"u1", "u3"};
    assert VotersFor(m, Taco) == {"u2"};
    assert m.Keys == {"u1", "u2", "u3"};
    TallyCountsVoters(f);
  }

  /** Three votes, two for pizza: pizza wins 2 to 1 out of 3. */
  lemma PizzaWins(id: string, now: string)
    requires id != ""
    ensures var d1 := Vote.Apply(Started(id, now), ["u1", Pizza]);
            && d1.Ok?
            && var d2 := Vote.Apply(d1.value, ["u2", Taco]);
            && d2.Ok?
            && var d3 := Vote.Apply(d2.value, ["u3", Pizza]);
            && d3.Ok?
            && var t := TallyOf(d3.value.active.value);
            && t == Tally(Some(Pizza), Some(Taco), 2, 1, 3)
            && Compare(t) == Winner(Pizza)
  {
    var m1 := map["u1" := Pizza];
    var m2 := m1["u2" := Taco];
    var m3 := m2["u3" := Pizza];
    assert Started(id, now) == WithVotes(id, now, map[]);
    VoteStep(id, now, map[], "u1", Pizza);
    assert map[]["u1" := Pizza] == m1;
    VoteStep(id, now, m1, "u2", Taco);
    VoteStep(id, now, m2, "u3", Pizza);
    TwoToOne(WithVotes(id, now, m3).active.value);
  }

  /** A fresh fight with no votes is a 0-0 tie. */
  lemma FreshFightTies(id: string, now: string)
    ensures var t := TallyOf(Started(id, now).active.value);
            t.aCount == 0 && t.bCount == 0 && t.total == 0 && WinnerLine(t) == TieLine
  {
    TallyCountsVoters(Started(id, now).active.value);
  }

  /** Voting before any fight was started fails with "no active fight". */
  lemma VoteWithoutFight(voter: string, choice: string)
    requires voter != "" && choice != ""
    ensures Vote.Apply(Document(None, Some([])), [voter, choice]) == Err(Vote.NoActiveFight)
  {
  }

  /** A third label is refused, and the error lists the two allowed ones. */
  lemma BurgerRefused(id: string, now: string)
    requires id != ""
    ensures Vote.Apply(Started(id, now), ["u1", Burger]) == Err(Vote.InvalidVote(Burger, [Pizza, Taco]))
  {
    assert Burger !in [Pizza, Taco];
    assert Vote.Distinct([Pizza, Taco]) == [Pizza, Taco] by {
      assert [Pizza, Taco][..1] == [Pizza];
      assert Vote.Distinct([Pizza]) == [Pizza] by {
        assert [Pizza][..0] == [];
      }
    }
  }
}
