/** The external calls a route handler makes (speech synthesis, chat completion,
    filesystem, ffmpeg, database), and how a handler's planned calls play out when
    one of them fails. A handler awaits its calls one after another inside a single
    `try`, so the first failing call ends the handler and the `catch` answers 500. */
module Effects {
  import opened Wrappers
  import AudioConverter

  /** A row of the `Generation` table as the handlers write it. */
  datatype GenerationData = GenerationData(
    text: string,
    mode: Option<string>,
    voice: string,
    instructions: Option<string>,
    speed: real,
    format: string,
    fileName: string,
    fileUrl: string)

  datatype Effect =
    | Speech(model: string, voice: string, input: string, speed: real)
    | ChatCompletion(model: string, systemPrompt: string, userPrompt: string, maxTokens: nat, temperature: real)
    | MakeDirectory(path: string)
    | WriteFile(path: string)
    | CheckAccess(path: string)
    | Transcode(input: string, output: string, format: AudioConverter.AudioFormat)
    | RemoveFile(path: string)
    | CreateGeneration(data: GenerationData)

  /** Every planned call succeeds. */
  predicate Succeeds(plan: seq<Effect>, ok: Effect -> bool) {
    forall i :: 0 <= i < |plan| ==> ok(plan[i])
  }

  /** The calls actually made: the plan up to and including its first failing
      call, or the whole plan when none fails. */
  function Run(plan: seq<Effect>, ok: Effect -> bool): (trace: seq<Effect>)
    ensures |trace| <= |plan| && trace == plan[..|trace|]
    ensures forall i :: 0 <= i < |trace| - 1 ==> ok(trace[i])
    ensures Succeeds(plan, ok) <==> trace == plan && Succeeds(trace, ok)
    ensures !Succeeds(plan, ok) ==> |trace| > 0 && !ok(trace[|trace| - 1])
  {
    if |plan| == 0 then []
    else if !ok(plan[0]) then [plan[0]]
    else
      var rest := Run(plan[1..], ok);
      assert Succeeds(plan, ok) <==> Succeeds(plan[1..], ok) by {
        if Succeeds(plan[1..], ok) {
          forall i | 0 <= i < |plan| ensures ok(plan[i]) {
            if i > 0 {
              assert plan[i] == plan[1..][i - 1];
            }
          }
        }
      }
      [plan[0]] + rest
  }

  /** A call placed after a failing one is never made. */
  lemma {:induction false} NothingAfterFailure(before: seq<Effect>, failing: Effect, after: seq<Effect>, ok: Effect -> bool)
    requires Succeeds(before, ok) && !ok(failing)
    ensures Run(before + [failing] + after, ok) == before + [failing]
    decreases |before|
  {
    var plan := before + [failing] + after;
    if |before| == 0 {
      assert plan[0] == failing;
    } else {
      assert plan[1..] == before[1..] + [failing] + after;
      assert ok(before[0]);
      NothingAfterFailure(before[1..], failing, after, ok);
    }
  }

  /** A plan whose first failing call is at `k` runs exactly its first `k + 1`
      calls. */
  lemma {:induction false} RunStopsAt(plan: seq<Effect>, k: nat, ok: Effect -> bool)
    requires k < |plan| && !ok(plan[k])
    requires forall i :: 0 <= i < k ==> ok(plan[i])
    ensures Run(plan, ok) == plan[..k + 1]
    decreases k
  {
    if k > 0 {
      var tail := plan[1..];
      assert forall i :: 0 <= i < k - 1 ==> tail[i] == plan[i + 1];
      assert tail[k - 1] == plan[k];
      RunStopsAt(tail, k - 1, ok);
      assert plan[..k + 1] == [plan[0]] + tail[..k];
    }
  }
}
