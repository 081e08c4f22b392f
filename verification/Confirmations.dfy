/** What the gateway makes of a yes: the conversation sends it under the id of the question, and the gateway has seen that id. */
module Confirmations {
  import opened Common
  import Decisions
  import Replay
  import Turns

  /** The id under which the turn that asked for the confirmation of call `i` had sent its request. */
  function QuestionId(steps: seq<Turns.Step>, ws: seq<Turns.World>, i: nat): string
    requires i < |steps| < |ws| && steps[i].Call? && steps[i].turn < |steps|
    requires var seen := Turns.SeenAt(steps, ws, steps[i].turn);
      && seen.Some? && var f := seen.value.request.step;
         f < |steps| && steps[f].Finish? && steps[f].turn in ws[f].turns
  {
    var f := Turns.SeenAt(steps, ws, steps[i].turn).value.request.step;
    ws[f].turns[steps[f].turn].request.requestId
  }

  /** An id is answered from the cache exactly while one of the last 1,024 results was remembered under it, with that result. */
  ghost predicate AnsweredAsBefore(log: seq<Replay.Entry<Decisions.DecisionResult>>, cache: Replay.Cache<Decisions.DecisionResult>, id: string) {
    && (id in cache.results <==> exists k :: 0 <= k < |log| && |log| <= k + 1_024 && log[k].id == id)
    && forall k :: 0 <= k < |log| && |log| <= k + 1_024 && log[k].id == id ==> id in cache.results && cache.results[id] == log[k].result
  }

  lemma EveryIdIsAnsweredAsBefore(log: seq<Replay.Entry<Decisions.DecisionResult>>, cache: Replay.Cache<Decisions.DecisionResult>, id: string)
    requires Replay.NoneRepeated(log) && Replay.Tracks(cache, Replay.After(log))
    ensures AnsweredAsBefore(log, cache, id)
  {
    Replay.CacheIsTheLastResults(log, cache);
    Replay.RepeatsAreAnswered(log, cache, id);
  }

  /**
   In every run a yes gets its own question back exactly as long as the gateway still remembers it: the confirmed call
   carries the question's id, that id is answered from the cache if and only if one of the last 1,024 results was remembered
   under it, and then the answer is that very result.
   */
  lemma AYesGetsItsQuestionBack(steps: seq<Turns.Step>, bounds: Turns.Bounds, ws: seq<Turns.World>, i: nat,
                                log: seq<Replay.Entry<Decisions.DecisionResult>>, cache: Replay.Cache<Decisions.DecisionResult>)
    requires Turns.Run(steps, bounds, ws) && Turns.CallsConfirmed(steps, ws, i)
    requires Replay.NoneRepeated(log) && Replay.Tracks(cache, Replay.After(log))
    ensures var b := steps[i].turn;
      && b < i && Turns.Accepts(steps, ws, b)
      && var f := Turns.SeenAt(steps, ws, b).value.request.step;
         && f < b && steps[f].Finish? && steps[f].response == "confirmation_required" && steps[f].turn in ws[f].turns
         && var id := QuestionId(steps, ws, i);
            && Turns.Filled(ws[i].turns[b].request, steps[i].context).requestId == id
            && AnsweredAsBefore(log, cache, id)
  {
    Turns.ConfirmedCallsKeepTheirId(steps, bounds, ws, i);
    EveryIdIsAnsweredAsBefore(log, cache, QuestionId(steps, ws, i));
  }
}
