/** Which text is stored as the answer, under which route and with which citations. */
module AnswerRoutes {
  import opened Basics
  import opened Wrappers
  import opened Markers
  import opened ChatStream
  import Sse
  import C = Citations

  /** The generated text once it is complete and repaired. */
  function Repaired(run: Run): string {
    run.repair(Sse.Concat(run.chunks), if run.grounded then run.sources.Keys else {})
  }

  /** The marker with number d, which does not begin with 0, stands at position i. */
  predicate MarkerAt(t: string, i: nat, d: string) {
    IsNumber(d) && d[0] != '0' && i + |d| + 3 <= |t| && t[i..i + |d| + 3] == "[S" + d + "]"
  }

  ghost predicate HasMarker(t: string) {
    exists i: nat, d :: MarkerAt(t, i, d)
  }

  lemma MarkerShape(t: string, i: nat, d: string)
    requires IsNumber(d)
    ensures OccursAt(t, i, "S" + d) && d[0] != '0' <==> MarkerAt(t, i, d)
  {
    assert "[" + ("S" + d) + "]" == "[S" + d + "]";
  }

  /** A text cites something exactly when such a marker stands in it. */
  lemma CitesExactly(t: string)
    ensures C.Cited(t) != [] <==> HasMarker(t)
  {
    if C.Cited(t) != [] {
      var id := C.Cited(t)[0];
      CitedExactly(t, id);
      var d :| IsNumber(d) && id == "S" + d;
      var i: nat :| OccursAt(t, i, id);
      MarkerShape(t, i, d);
    }
    if i: nat, d :| MarkerAt(t, i, d) {
      MarkerShape(t, i, d);
      CitedExactly(t, "S" + d);
    }
  }

  /** There is no answer to give: the gate refused, nothing is left of the text, or a grounded text cites nothing. */
  ghost predicate Unanswered(run: Run) {
    (run.grounded && !run.gateAnswers) || Repaired(run) == "" || (run.grounded && !HasMarker(Repaired(run)))
  }

  /** In every run, what is stored: the no-answer text, without citations, exactly when there is no answer to give; else the
      repaired text, which has a marker and passed the gate if the run is grounded. */
  lemma StoredExactly(run: Run)
    ensures var a := Final(run);
            && (a.route == "no_answer" <==> Unanswered(run))
            && (a.route == "answer" <==> run.grounded && !Unanswered(run))
            && (a.route == "conversation" <==> !run.grounded && !Unanswered(run))
            && a.text == (if Unanswered(run) then run.noAnswer else Repaired(run))
            && (a.route == "answer" ==> run.grounded && run.gateAnswers && HasMarker(a.text))
  {
    CitesExactly(Repaired(run));
  }

  /** The citations stored are those of the sources whose markers stand in the stored text. */
  lemma CitationsExactly(run: Run, id: string)
    ensures var a := Final(run);
            && (id in a.citations <==>
                  !Unanswered(run) && id in run.sources && IsId(id) && id[1] != '0' && Occurs(a.text, id))
            && (id in a.citations ==> a.citations[id] == run.sources[id])
  {
    StoredExactly(run);
    CitesExactly(Repaired(run));
    CitedExactly(Repaired(run), id);
  }

  /** A complete text is let through with all its allow-listed markers; of an unfinished end only a lone bracket stays. */
  lemma ScanEnd(t: string, allowed: set<string>)
    ensures C.Scan(t, allowed) == C.Passed(t, allowed) + if t != "" && t[|t| - 1] == '[' then "[" else ""
  {
    HeldBracket(t);
  }

  /** What the client leaves alone: unknown events and stages, and text events without a text. An error without a code has the general one. */
  lemma ClientIgnores(valid: Validator, a: Accumulator, name: string, data: Payload)
    ensures name !in {"start", "status", "delta", "replace", "citations", "done", "error"} ==> ApplyEvent(valid, a, name, data) == a
    ensures name == "status" && data.stage !in {Some("planning"), Some("retrieving"), Some("reranking"), Some("generating")} ==>
              ApplyEvent(valid, a, name, data) == a
    ensures name in {"delta", "replace"} && data.text == None ==> ApplyEvent(valid, a, name, data) == a
    ensures name == "error" && data.code == None ==> ApplyEvent(valid, a, name, data).errorCode == Some("chat_error")
  {
  }

  /** Citations the client does not accept are left out, one by one. */
  lemma CitationsShown(valid: Validator, items: map<string, string>, id: string)
    ensures id in ValidCitations(valid, Some(items)) <==> id in items && valid(id, items[id])
    ensures id in ValidCitations(valid, Some(items)) ==> ValidCitations(valid, Some(items))[id] == items[id]
    ensures ValidCitations(valid, None) == map[]
  {
  }

  /** The stages a client has shown when a run is over, and the message and route it ends with. */
  lemma StagesShown(valid: Validator, a: Accumulator, run: Run)
    ensures var z := Accumulate(valid, a, Transcript(run));
            && z.stages == ["planning", "retrieving", "reranking"] + (if run.grounded && !run.gateAnswers then [] else ["generating"])
            && z.started && z.done && z.messageId == Some(run.assistantId) && z.errorCode == None && !z.retryable
  {
    AccumulateTranscript(valid, a, run);
  }
}
