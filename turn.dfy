/**
 * One chat turn of `main` (app.py:109-173): the user's message is appended
 * to the history, the agent is re-run for as long as each run ends with an
 * answer to its "human" question, every answer is appended as a human
 * message, and the response accumulated over all runs is appended last.
 */
module Turn {
  import opened Wrappers
  import opened Messages
  import opened ChunkContent
  import opened EventFold
  import BedrockFormat

  /**
   * How a turn ends: no input; the last run returned nothing; a chunk
   * raised KeyError; or the finitely many runs supplied were all suspended.
   */
  datatype Status = Idle | Completed | Crashed(error: KeyError) | OutOfRuns

  /** The accumulators after the runs, the answers collected, and how the loop ended. */
  datatype Trace = Trace(acc: Acc, answers: seq<string>, status: Status)

  /** The re-invocation loop over the runs the backend produces in turn (app.py:159-164). */
  function Loop(acc: Acc, runs: seq<seq<Event>>): Trace
    decreases |runs|
  {
    if runs == [] then Trace(acc, [], OutOfRuns)
    else
      var r := RunFold(acc, runs[0]);
      match r.exit
      case Raised(k) => Trace(r.acc, [], Crashed(k))
      case Returned(a) =>
        if a == "" then Trace(r.acc, [], Completed)
        else
          var t := Loop(r.acc, runs[1..]);
          Trace(t.acc, [a] + t.answers, t.status)
  }

  /** How many runs the loop reads. */
  function RunsUsed(t: Trace): nat
  {
    |t.answers| + if t.status == Completed then 1 else 0
  }

  /** The answers as human messages. */
  function HumanMessages(answers: seq<string>): (r: seq<Message>)
    ensures |r| == |answers|
    ensures forall k :: 0 <= k < |r| ==> r[k] == HumanMessage(answers[k])
  {
    if answers == [] then [] else [HumanMessage(answers[0])] + HumanMessages(answers[1..])
  }

  /** What a turn appends to the history. */
  function Appended(userInput: string, runs: seq<seq<Event>>): seq<Message>
  {
    if userInput == "" then []
    else
      var t := Loop(Initial, runs);
      [HumanMessage(userInput)] + HumanMessages(t.answers) +
      (if t.status == Completed then [AIMessage(t.acc.fullResponse)] else [])
  }

  /** The events of each run that the run reads, end to end. */
  function ProcessedRuns(runs: seq<seq<Event>>): seq<Event>
  {
    if runs == [] then [] else Processed(runs[0]) + ProcessedRuns(runs[1..])
  }

  /** The part of the session state the turn updates: its message history (app.py:87). */
  class Session {
    var messages: seq<Message>

    constructor ()
      ensures messages == []
    {
      messages := [];
    }
  }

  /** A trace with `answers` collected before it. */
  function Prepend(answers: seq<string>, t: Trace): Trace
  {
    Trace(t.acc, answers + t.answers, t.status)
  }

  /** After collecting `answers`, a run that raises ends the loop. */
  lemma {:induction false} StepRaises(answers: seq<string>, before: Acc, runs: seq<seq<Event>>, k: nat, r: RunResult)
    requires k < |runs| && r == RunFold(before, runs[k]) && r.exit.Raised?
    requires Loop(Initial, runs) == Prepend(answers, Loop(before, runs[k..]))
    ensures Loop(Initial, runs) == Trace(r.acc, answers, Crashed(r.exit.error))
  {
    assert runs[k..][0] == runs[k];
    assert answers + [] == answers;
  }

  /** After collecting `answers`, a run that returns nothing ends the loop. */
  lemma {:induction false} StepCompletes(answers: seq<string>, before: Acc, runs: seq<seq<Event>>, k: nat, r: RunResult)
    requires k < |runs| && r == RunFold(before, runs[k]) && r.exit == Returned("")
    requires Loop(Initial, runs) == Prepend(answers, Loop(before, runs[k..]))
    ensures Loop(Initial, runs) == Trace(r.acc, answers, Completed)
  {
    assert runs[k..][0] == runs[k];
    assert answers + [] == answers;
  }

  /** After collecting `answers`, a run that returns an answer adds it and hands over to the next run. */
  lemma {:induction false} StepContinues(answers: seq<string>, before: Acc, runs: seq<seq<Event>>, k: nat, r: RunResult)
    requires k < |runs| && r == RunFold(before, runs[k]) && r.exit.Returned? && r.exit.answer != ""
    requires Loop(Initial, runs) == Prepend(answers, Loop(before, runs[k..]))
    ensures Loop(Initial, runs) == Prepend(answers + [r.exit.answer], Loop(r.acc, runs[k + 1..]))
  {
    assert runs[k..][0] == runs[k] && runs[k..][1..] == runs[k + 1..];
    var t := Loop(r.acc, runs[k + 1..]);
    assert answers + ([r.exit.answer] + t.answers) == (answers + [r.exit.answer]) + t.answers;
  }

  /** The history a turn leaves once its loop has ended as `t`. */
  lemma AppendedAfter(history: seq<Message>, userInput: string, runs: seq<seq<Event>>, t: Trace)
    requires userInput != "" && Loop(Initial, runs) == t
    ensures history + Appended(userInput, runs) ==
      history + [HumanMessage(userInput)] + HumanMessages(t.answers) +
      (if t.status == Completed then [AIMessage(t.acc.fullResponse)] else [])
  {
  }

  /**
   * `main` from the chat input on (app.py:109-173), with the backend's
   * event streams supplied as `runs`, one per invocation. It returns how
   * the turn ended and the accumulators it shows.
   */
  method HandleUserInput(session: Session, userInput: string, runs: seq<seq<Event>>)
    returns (status: Status, shown: Acc)
    modifies session
    ensures session.messages == old(session.messages) + Appended(userInput, runs)
    ensures userInput == "" ==> status == Idle && shown == Initial
    ensures userInput != "" ==> status == Loop(Initial, runs).status && shown == Loop(Initial, runs).acc
  {
    if userInput == "" {
      return Idle, Initial;
    }
    ghost var before := session.messages;
    session.messages := session.messages + [HumanMessage(userInput)];
    ghost var history := session.messages;
    var state := new StreamState();
    ghost var answers: seq<string> := [];
    var k := 0;
    while k < |runs|
      invariant 0 <= k <= |runs|
      invariant Loop(Initial, runs) == Prepend(answers, Loop(state.Snapshot(), runs[k..]))
      invariant session.messages == history + HumanMessages(answers)
    {
      ghost var acc := state.Snapshot();
      var answer := state.ProcessStream(runs[k]);
      if answer.Raised? {
        StepRaises(answers, acc, runs, k, RunResult(state.Snapshot(), answer));
        AppendedAfter(before, userInput, runs, Loop(Initial, runs));
        return Crashed(answer.error), state.Snapshot();
      }
      if answer.answer == "" {
        StepCompletes(answers, acc, runs, k, RunResult(state.Snapshot(), answer));
        AppendedAfter(before, userInput, runs, Loop(Initial, runs));
        session.messages := session.messages + [AIMessage(state.fullResponse)];
        return Completed, state.Snapshot();
      }
      StepContinues(answers, acc, runs, k, RunResult(state.Snapshot(), answer));
      HumanMessagesSnoc(answers, answer.answer);
      session.messages := session.messages + [HumanMessage(answer.answer)];
      answers := answers + [answer.answer];
      k := k + 1;
    }
    assert runs[k..] == [];
    assert answers + [] == answers;
    AppendedAfter(before, userInput, runs, Loop(Initial, runs));
    return OutOfRuns, state.Snapshot();
  }

  lemma {:induction false} HumanMessagesSnoc(answers: seq<string>, a: string)
    ensures HumanMessages(answers + [a]) == HumanMessages(answers) + [HumanMessage(a)]
  {
    var l, r := HumanMessages(answers + [a]), HumanMessages(answers) + [HumanMessage(a)];
    assert |l| == |r|;
    forall k | 0 <= k < |l| ensures l[k] == r[k] {
      assert (answers + [a])[k] == if k < |answers| then answers[k] else a;
    }
  }

  // ---------------------------------------------------------------------
  // What a turn does
  // ---------------------------------------------------------------------

  /**
   * Every answer the loop collects is non-empty and is the answer of the
   * answered "human" start that suspended the run at the same position;
   * the loop stops at the first run that completes or raises, or when the
   * runs run out.
   */
  lemma {:induction false} LoopAnswers(acc: Acc, runs: seq<seq<Event>>)
    decreases |runs|
    ensures var t := Loop(acc, runs);
      RunsUsed(t) <= |runs| &&
      (t.status.Crashed? ==> |t.answers| < |runs|) &&
      (t.status == OutOfRuns ==> |t.answers| == |runs|)
    ensures var t := Loop(acc, runs);
      forall k :: 0 <= k < |t.answers| ==>
        t.answers[k] != "" && 0 < StopIndex(runs[k]) && SuspendsAt(runs[k], StopIndex(runs[k]) - 1) &&
        t.answers[k] == runs[k][StopIndex(runs[k]) - 1].answer
    ensures var t := Loop(acc, runs);
      t.status == Completed ==> RunsToEnd(runs[|t.answers|])
    ensures var t := Loop(acc, runs);
      t.status.Crashed? ==> exists i :: RaisesAt(runs[|t.answers|], i)
    ensures Loop(acc, runs).status != Idle
  {
    if runs != [] {
      var r := RunFold(acc, runs[0]);
      RunExitCases(acc, runs[0]);
      if r.exit.Returned? && r.exit.answer != "" {
        LoopAnswers(r.acc, runs[1..]);
        var t, t' := Loop(acc, runs), Loop(r.acc, runs[1..]);
        assert t.answers == [r.exit.answer] + t'.answers;
        forall k | 0 < k < |t.answers|
          ensures t.answers[k] == t'.answers[k - 1] && runs[k] == runs[1..][k - 1]
        {
        }
        if t.status == Completed || t.status.Crashed? {
          assert runs[|t.answers|] == runs[1..][|t'.answers|];
        }
      }
    }
  }

  lemma {:induction false} ProcessedRunsCons(runs: seq<seq<Event>>, n: nat)
    requires 0 < n <= |runs|
    ensures ProcessedRuns(runs[..n]) == Processed(runs[0]) + ProcessedRuns(runs[1..][..n - 1])
  {
    assert runs[..n][0] == runs[0];
    assert runs[..n][1..] == runs[1..][..n - 1];
  }

  /**
   * Unless a chunk raises, the accumulators are never reset between runs:
   * the response is the text of every chunk read by every run used, in
   * order, and the question and figure are the last ones read by any of them.
   */
  lemma {:induction false} LoopAccumulates(acc: Acc, runs: seq<seq<Event>>)
    decreases |runs|
    requires !Loop(acc, runs).status.Crashed?
    ensures RunsUsed(Loop(acc, runs)) <= |runs|
    ensures Loop(acc, runs).acc == Through(acc, ProcessedRuns(runs[..RunsUsed(Loop(acc, runs))]))
  {
    LoopAnswers(acc, runs);
    if runs == [] {
      assert acc.fullResponse + "" == acc.fullResponse;
    } else {
      var r := RunFold(acc, runs[0]);
      RunFoldAccumulates(acc, runs[0]);
      if r.exit == Returned("") {
        AccumulatesLast(acc, runs);
      } else {
        LoopAccumulates(r.acc, runs[1..]);
        AccumulatesNext(acc, runs);
      }
    }
  }

  lemma AccumulatesLast(acc: Acc, runs: seq<seq<Event>>)
    requires runs != [] && RunFold(acc, runs[0]).exit == Returned("")
    requires RunFold(acc, runs[0]).acc == Through(acc, Processed(runs[0]))
    ensures RunsUsed(Loop(acc, runs)) == 1
    ensures Loop(acc, runs).acc == Through(acc, ProcessedRuns(runs[..1]))
  {
    assert runs[..1] == [runs[0]];
    assert ProcessedRuns([runs[0]]) == Processed(runs[0]) + [];
    assert Processed(runs[0]) + [] == Processed(runs[0]);
  }

  lemma AccumulatesNext(acc: Acc, runs: seq<seq<Event>>)
    requires runs != [] && RunFold(acc, runs[0]).exit.Returned? && RunFold(acc, runs[0]).exit.answer != ""
    requires RunFold(acc, runs[0]).acc == Through(acc, Processed(runs[0]))
    requires var t' := Loop(RunFold(acc, runs[0]).acc, runs[1..]);
      RunsUsed(t') <= |runs[1..]| &&
      t'.acc == Through(RunFold(acc, runs[0]).acc, ProcessedRuns(runs[1..][..RunsUsed(t')]))
    ensures RunsUsed(Loop(acc, runs)) <= |runs|
    ensures Loop(acc, runs).acc == Through(acc, ProcessedRuns(runs[..RunsUsed(Loop(acc, runs))]))
  {
    var r := RunFold(acc, runs[0]);
    var t, t' := Loop(acc, runs), Loop(r.acc, runs[1..]);
    assert t.answers == [r.exit.answer] + t'.answers && t.status == t'.status && t.acc == t'.acc;
    var n := RunsUsed(t);
    assert n == RunsUsed(t') + 1;
    ProcessedRunsCons(runs, n);
    ThroughAppend(acc, Processed(runs[0]), ProcessedRuns(runs[1..][..n - 1]));
  }

  /**
   * The history a turn leaves: the old history unchanged, then the user's
   * message, one human message per answer given, and, when the last run
   * completed, a single AI message with the text streamed by all the runs.
   */
  lemma TurnTranscript(userInput: string, runs: seq<seq<Event>>)
    requires userInput != ""
    ensures var t := Loop(Initial, runs);
      t.status == Completed ==>
        |t.answers| < |runs| &&
        Appended(userInput, runs) ==
          [HumanMessage(userInput)] + HumanMessages(t.answers) +
          [AIMessage(StreamedText(ProcessedRuns(runs[..|t.answers| + 1])))]
    ensures var t := Loop(Initial, runs);
      t.status != Completed ==>
        Appended(userInput, runs) == [HumanMessage(userInput)] + HumanMessages(t.answers)
  {
    var t := Loop(Initial, runs);
    if t.status == Completed {
      LoopAccumulates(Initial, runs);
      var p := ProcessedRuns(runs[..|t.answers| + 1]);
      assert Through(Initial, p).fullResponse == StreamedText(p);
    } else {
      assert [HumanMessage(userInput)] + HumanMessages(t.answers) + [] ==
        [HumanMessage(userInput)] + HumanMessages(t.answers);
    }
  }

  // ---------------------------------------------------------------------
  // The history that turns build
  // ---------------------------------------------------------------------

  /** Human and AI messages only, never two AI messages in a row. */
  ghost predicate ChatShaped(h: seq<Message>)
  {
    (forall i :: 0 <= i < |h| ==> h[i].HumanMessage? || h[i].AIMessage?) &&
    (forall i, j :: 0 <= i < j < |h| && j == i + 1 ==> !(h[i].AIMessage? && h[j].AIMessage?))
  }

  lemma ChatShapedAppend(a: seq<Message>, b: seq<Message>)
    requires ChatShaped(a) && ChatShaped(b)
    requires b != [] && b[0].HumanMessage?
    ensures ChatShaped(a + b)
  {
    var h := a + b;
    forall i, j | 0 <= i < j < |h| && j == i + 1 ensures !(h[i].AIMessage? && h[j].AIMessage?) {
      if j < |a| {
        assert h[i] == a[i] && h[j] == a[j];
      } else if j == |a| {
        assert h[j] == b[0];
      } else {
        assert h[i] == b[i - |a|] && h[j] == b[j - |a|];
      }
    }
  }

  lemma AppendedShaped(userInput: string, runs: seq<seq<Event>>)
    requires userInput != ""
    ensures ChatShaped(Appended(userInput, runs))
    ensures Appended(userInput, runs)[0] == HumanMessage(userInput)
  {
    var t := Loop(Initial, runs);
    var humans := [HumanMessage(userInput)] + HumanMessages(t.answers);
    assert forall i :: 0 <= i < |humans| ==> humans[i].HumanMessage?;
  }

  /** Every turn keeps the history chat-shaped, from the empty history on. */
  lemma TurnKeepsShape(history: seq<Message>, userInput: string, runs: seq<seq<Event>>)
    requires ChatShaped(history)
    ensures ChatShaped(history + Appended(userInput, runs))
  {
    if userInput == "" {
      assert history + [] == history;
    } else {
      AppendedShaped(userInput, runs);
      ChatShapedAppend(history, Appended(userInput, runs));
    }
  }

  lemma {:induction false} MappedChat(h: seq<Message>)
    requires forall i :: 0 <= i < |h| ==> h[i].HumanMessage? || h[i].AIMessage?
    ensures |BedrockFormat.Mapped(h)| == |h|
    ensures forall i :: 0 <= i < |h| ==>
      BedrockFormat.IsAssistant(BedrockFormat.Mapped(h)[i]) == h[i].AIMessage?
  {
    if h != [] {
      var init := h[..|h| - 1];
      MappedChat(init);
      assert BedrockFormat.Mapped(h) == BedrockFormat.Mapped(init) + [BedrockFormat.EntryOf(h[|h| - 1]).value];
    }
  }

  /**
   * A history built by turns passes the Bedrock formatting without an
   * IndexError and without any "Please continue." being inserted.
   */
  lemma ChatHistoryFormatsCleanly(h: seq<Message>)
    requires ChatShaped(h)
    ensures BedrockFormat.IndexSafe(h)
    ensures BedrockFormat.Alternated(BedrockFormat.Mapped(h)) == BedrockFormat.Mapped(h)
  {
    BedrockFormat.IndexSafeIff(h);
    MappedChat(h);
    var es := BedrockFormat.Mapped(h);
    forall i, j | 0 <= i < j < |es| && j == i + 1
      ensures !(BedrockFormat.IsAssistant(es[i]) && BedrockFormat.IsAssistant(es[j]))
    {
      assert !(h[i].AIMessage? && h[j].AIMessage?);
    }
    BedrockFormat.AlternatedIdentity(es);
  }

  /**
   * A first run that streams "Let me ask. " and then is answered "yes",
   * and a second run that streams "Done.", leave one AI message holding
   * the text of both runs.
   */
  lemma ResponseSpansRuns()
    ensures Appended("Hi", [[ChatModelStream(TextChunk("Let me ask. ")), ToolStart("human", "Which table?", "yes")],
                            [ChatModelStream(TextChunk("Done."))]])
      == [HumanMessage("Hi"), HumanMessage("yes"), AIMessage("Let me ask. Done.")]
  {
    var run1 := [ChatModelStream(TextChunk("Let me ask. ")), ToolStart("human", "Which table?", "yes")];
    var run2 := [ChatModelStream(TextChunk("Done."))];
    var runs := [run1, run2];
    assert run1[1..] == [ToolStart("human", "Which table?", "yes")];
    assert RunFold(Initial, run1) == RunResult(Acc("Let me ask. ", "Which table?", None), Returned("yes"));
    assert run2[1..] == [];
    assert RunFold(Acc("Let me ask. ", "Which table?", None), run2) ==
      RunResult(Acc("Let me ask. Done.", "Which table?", None), Returned(""));
    assert runs[1..] == [run2] && runs[1..][1..] == [];
    assert Loop(Initial, runs) == Trace(Acc("Let me ask. Done.", "Which table?", None), ["yes"], Completed);
  }
}
