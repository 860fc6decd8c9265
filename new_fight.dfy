/** scripts/new-fight.mjs: archive the active fight and start a new one. */
module NewFight {
  import opened Outcomes
  import opened Store
  import Render
  import Vote

  /** The one early exit: anything but exactly two labels. */
  datatype StartError = Usage

  /** One run of the script: its labels, and the id and time it would generate. */
  datatype Start = Start(args: seq<string>, id: string, now: string)

  /** The fight the script installs as `data.active`: no votes yet. */
  function Fresh(args: seq<string>, id: string, now: string): Fight {
    Fight(id, now, args, Some(map[]))
  }

  /**
   * The whole script on a document value; `id` and `now` stand for
   * `crypto.randomUUID()` and `new Date().toISOString()`.
   */
  function Apply(doc: Document, args: seq<string>, id: string, now: string): (r: Result<Document, StartError>)
    ensures r.Err? <==> |args| != 2
    ensures r.Ok? ==>
              && r.value.active == Some(Fresh(args, id, now))
              && HistoryOf(doc) <= HistoryOf(r.value)
              && |HistoryOf(r.value)| <= |HistoryOf(doc)| + 1
    ensures r.Ok? && IsRunning(doc.active) ==>
              r.value.history.Some? && HistoryOf(r.value)[|HistoryOf(doc)|..] == [doc.active.value]
    ensures r.Ok? && !IsRunning(doc.active) ==> r.value.history == doc.history
  {
    if |args| != 2 then Err(Usage)
    else
      var history := if IsRunning(doc.active) then Some(HistoryOf(doc) + [doc.active.value]) else doc.history;
      Ok(Document(Some(Fresh(args, id, now)), history))
  }

  /**
   * The script itself, on the loaded document object: it pushes the active
   * fight onto `history` (creating the array if absent), then replaces
   * `active`.
   */
  method StartFight(data: Data, args: seq<string>, id: string, now: string) returns (err: Option<StartError>)
    modifies data
    ensures err.None? ==> Apply(old(data.Doc()), args, id, now) == Ok(data.Doc())
    ensures err.Some? ==> Apply(old(data.Doc()), args, id, now) == Err(err.value) && data.Doc() == old(data.Doc())
  {
    if |args| != 2 {
      return Some(Usage);
    }
    if IsRunning(data.active) {
      if data.history.None? {
        data.history := Some([]);
      }
      data.history := Some(data.history.value + [data.active.value]);
    }
    data.active := Some(Fresh(args, id, now));
    return None;
  }

  /** Runs the script once per element of `runs`, in order; a rejected run changes nothing. */
  function StartAll(doc: Document, runs: seq<Start>): Document {
    if runs == [] then doc
    else
      var last := runs[|runs| - 1];
      var before := StartAll(doc, runs[..|runs| - 1]);
      match Apply(before, last.args, last.id, last.now)
      case Ok(after) => after
      case Err(_) => before
  }

  /** Every run gives two labels and, as `randomUUID` does, a non-empty id. */
  predicate WellFormed(runs: seq<Start>) {
    forall i :: 0 <= i < |runs| ==> |runs[i].args| == 2 && runs[i].id != ""
  }

  /**
   * Starting k fights from an empty document leaves the first k-1 in
   * `history`, oldest first and with no votes, and the last one active.
   */
  lemma {:induction false} StartAllHistory(runs: seq<Start>)
    requires runs != [] && WellFormed(runs)
    ensures var doc := StartAll(Document(None, None), runs);
            && |HistoryOf(doc)| == |runs| - 1
            && (forall i :: 0 <= i < |runs| - 1 ==> HistoryOf(doc)[i] == Fresh(runs[i].args, runs[i].id, runs[i].now))
            && doc.active == Some(Fresh(runs[|runs| - 1].args, runs[|runs| - 1].id, runs[|runs| - 1].now))
  {
    var last := runs[|runs| - 1];
    var init := runs[..|runs| - 1];
    if init != [] {
      assert WellFormed(init) by {
        forall i | 0 <= i < |init| ensures |init[i].args| == 2 && init[i].id != "" {
          assert init[i] == runs[i];
        }
      }
      StartAllHistory(init);
      var before := StartAll(Document(None, None), init);
      assert IsRunning(before.active);
      var after := StartAll(Document(None, None), runs);
      assert after == Apply(before, last.args, last.id, last.now).value;
      assert HistoryOf(after) == HistoryOf(before) + [before.active.value];
      forall i | 0 <= i < |runs| - 1
        ensures HistoryOf(after)[i] == Fresh(runs[i].args, runs[i].id, runs[i].now)
      {
        if i < |init| - 1 {
          assert HistoryOf(after)[i] == HistoryOf(before)[i];
          assert init[i] == runs[i];
        } else {
          assert init[|init| - 1] == runs[i];
        }
      }
    }
  }

  /**
   * A successful run never loses a running fight: it is the newest archived
   * fight, so it heads the rendered history.
   */
  lemma ArchivedFightShownFirst(doc: Document, args: seq<string>, id: string, now: string)
    requires IsRunning(doc.active) && |args| == 2
    ensures var after := Apply(doc, args, id, now).value;
            Render.HistoryCards(after)[0] == Render.FightCard(Render.PreviousPrefix, doc.active.value)
  {
    var after := Apply(doc, args, id, now).value;
    assert HistoryOf(after)[|HistoryOf(after)| - 1] == doc.active.value;
  }

  /**
   * The fight a new start archives keeps the votes it had (Scenario: start
   * A, vote, start B gives `history == [A with its vote]` and B active).
   */
  lemma StartVoteStart(a: seq<string>, idA: string, b: seq<string>, idB: string, voter: string, now: string)
    requires |a| == 2 && |b| == 2 && idA != "" && a[0] != "" && voter != ""
    ensures var first := Apply(Document(None, None), a, idA, now).value;
            var voted := Vote.Apply(first, [voter, a[0]]);
            && voted.Ok?
            && var second := Apply(voted.value, b, idB, now).value;
            && HistoryOf(second) == [Fight(idA, now, a, Some(map[voter := a[0]]))]
            && second.active == Some(Fresh(b, idB, now))
  {
  }
}
