/**
 * `process_stream` (app.py:127-157): one run of the agent folds its event
 * stream into the turn's three accumulators and may end early with the
 * human's answer to a question the agent asked.
 */
module EventFold {
  import opened Wrappers
  import opened ChunkContent

  /**
   * A figure from `plotly.io.from_json` (app.py:136). The parse is left
   * uninterpreted: a figure is known only by the JSON it was built from.
   */
  datatype Figure = FromJson(json: string)

  /** The `output` of an `on_tool_end` event, reduced to its `artifact` attribute. */
  datatype ToolOutput = ToolOutput(artifact: Option<string>)

  /**
   * One event of `astream_events`. `answer` on a tool start is what the
   * answer box returns while that event is handled ("" when nothing was
   * typed); it only matters for the "human" tool.
   */
  datatype Event =
    | ChatModelStream(chunk: Chunk)
    | ToolStart(name: string, input: string, answer: string)
    | ToolEnd(output: Option<ToolOutput>)
    | OtherEvent(kind: string)

  /** The turn's accumulators `full_response`, `agent_question` and `figure` (app.py:123-125). */
  datatype Acc = Acc(fullResponse: string, agentQuestion: string, figure: Option<Figure>)

  /** Their values when a turn starts. */
  const Initial: Acc := Acc("", "", None)

  /**
   * How a run ends: it returns the human's answer, or "" when the stream
   * is exhausted (Python's `None`, equally falsy), or a KeyError from the
   * chunk classification propagates out of it.
   */
  datatype Exit = Returned(answer: string) | Raised(error: KeyError)

  datatype StepResult = Next(acc: Acc) | Stop(acc: Acc, exit: Exit)

  datatype RunResult = RunResult(acc: Acc, exit: Exit)

  /** The artifact of a tool end whose output and artifact are both truthy. */
  function ArtifactOf(e: Event): Option<string>
  {
    if e.ToolEnd? && e.output.Some? && e.output.value.artifact.Some? && e.output.value.artifact.value != ""
    then e.output.value.artifact
    else None
  }

  /** The question of a start of the "human" tool. */
  function QuestionOf(e: Event): Option<string>
  {
    if e.ToolStart? && e.name == "human" then Some(e.input) else None
  }

  /** A start of the "human" tool for which an answer was typed. */
  predicate Answers(e: Event)
  {
    e.ToolStart? && e.name == "human" && e.answer != ""
  }

  /** A streamed chunk whose classification raises. */
  predicate FailsAt(e: Event)
  {
    e.ChatModelStream? && ExtractText(e.chunk).Err?
  }

  /** The text a streamed chunk contributes ("" for every other event). */
  function TextOf(e: Event): string
  {
    if e.ChatModelStream? && ExtractText(e.chunk).Ok? then ExtractText(e.chunk).value else ""
  }

  /** How one event changes the accumulators (app.py:134-157). */
  function Step(acc: Acc, e: Event): StepResult
  {
    match e
    case ToolEnd(_) =>
      if ArtifactOf(e).Some? then Next(acc.(figure := Some(FromJson(ArtifactOf(e).value)))) else Next(acc)
    case ChatModelStream(c) =>
      (match ExtractText(c)
       case Err(k) => Stop(acc, Raised(k))
       case Ok(t) => Next(acc.(fullResponse := acc.fullResponse + t)))
    case ToolStart(name, input, answer) =>
      if name == "human" then
        if answer != "" then Stop(acc.(agentQuestion := input), Returned(answer))
        else Next(acc.(agentQuestion := input))
      else Next(acc)
    case OtherEvent(_) => Next(acc)
  }

  /** A whole run: the events in order, until one stops it. */
  function RunFold(acc: Acc, es: seq<Event>): RunResult
    decreases |es|
  {
    if es == [] then RunResult(acc, Returned(""))
    else
      match Step(acc, es[0])
      case Next(a) => RunFold(a, es[1..])
      case Stop(a, x) => RunResult(a, x)
  }

  // ---------------------------------------------------------------------
  // Reference definitions, independent of the fold
  // ---------------------------------------------------------------------

  /** How many events a run reads: up to and including the first answered "human" start. */
  function StopIndex(es: seq<Event>): (n: nat)
    ensures n <= |es|
    ensures forall j :: 0 <= j < n - 1 ==> !Answers(es[j])
    ensures n < |es| ==> 0 < n && Answers(es[n - 1])
    ensures n == |es| && 0 < n && !Answers(es[n - 1]) ==> forall j :: 0 <= j < |es| ==> !Answers(es[j])
  {
    if es == [] then 0
    else if Answers(es[0]) then 1
    else 1 + StopIndex(es[1..])
  }

  /** The events a run reads when no chunk raises. */
  function Processed(es: seq<Event>): seq<Event>
  {
    es[..StopIndex(es)]
  }

  /** The in-order concatenation of the text of every streamed chunk. */
  function StreamedText(es: seq<Event>): string
  {
    if es == [] then "" else TextOf(es[0]) + StreamedText(es[1..])
  }

  /** The figure of the last truthy artifact in `es`, or `init` when there is none. */
  function LastFigure(es: seq<Event>, init: Option<Figure>): Option<Figure>
  {
    if es == [] then init
    else if ArtifactOf(es[|es| - 1]).Some? then Some(FromJson(ArtifactOf(es[|es| - 1]).value))
    else LastFigure(es[..|es| - 1], init)
  }

  /** The question of the last "human" start in `es`, or `init` when there is none. */
  function LastQuestion(es: seq<Event>, init: string): string
  {
    if es == [] then init
    else if QuestionOf(es[|es| - 1]).Some? then QuestionOf(es[|es| - 1]).value
    else LastQuestion(es[..|es| - 1], init)
  }

  /**
   * The accumulators after reading `p` from `acc`: the text of its chunks
   * appended, its last question and its last figure taken.
   */
  function Through(acc: Acc, p: seq<Event>): Acc
  {
    Acc(acc.fullResponse + StreamedText(p), LastQuestion(p, acc.agentQuestion), LastFigure(p, acc.figure))
  }

  /** Neither an answered "human" start nor a failing chunk occurs before position `i`. */
  ghost predicate ClearBefore(es: seq<Event>, i: int)
  {
    forall j :: 0 <= j < i && j < |es| ==> !Answers(es[j]) && !FailsAt(es[j])
  }

  /** The run reads every event. */
  ghost predicate RunsToEnd(es: seq<Event>)
  {
    ClearBefore(es, |es|)
  }

  /** The run is suspended by the answered "human" start at position `i`. */
  ghost predicate SuspendsAt(es: seq<Event>, i: int)
  {
    0 <= i < |es| && Answers(es[i]) && ClearBefore(es, i)
  }

  /** The run fails at the chunk at position `i`. */
  ghost predicate RaisesAt(es: seq<Event>, i: int)
  {
    0 <= i < |es| && FailsAt(es[i]) && ClearBefore(es, i)
  }

  // ---------------------------------------------------------------------
  // What a run does
  // ---------------------------------------------------------------------

  lemma ClearBeforeCons(es: seq<Event>, i: int)
    requires es != [] && 0 < i
    ensures ClearBefore(es, i) <==> !Answers(es[0]) && !FailsAt(es[0]) && ClearBefore(es[1..], i - 1)
  {
    if ClearBefore(es, i) {
      forall j | 0 <= j < i - 1 && j < |es[1..]| ensures !Answers(es[1..][j]) && !FailsAt(es[1..][j]) {
        assert es[1..][j] == es[j + 1];
      }
    }
    if !Answers(es[0]) && !FailsAt(es[0]) && ClearBefore(es[1..], i - 1) {
      forall j | 0 <= j < i && j < |es| ensures !Answers(es[j]) && !FailsAt(es[j]) {
        if j > 0 {
          assert es[j] == es[1..][j - 1];
        }
      }
    }
  }

  /** Every run either reads every event, or is suspended, or fails. */
  lemma {:induction false} RunTrichotomy(es: seq<Event>)
    ensures RunsToEnd(es) || (exists i :: SuspendsAt(es, i)) || (exists i :: RaisesAt(es, i))
  {
    if es != [] {
      if Answers(es[0]) {
        assert SuspendsAt(es, 0);
      } else if FailsAt(es[0]) {
        assert RaisesAt(es, 0);
      } else {
        RunTrichotomy(es[1..]);
        if RunsToEnd(es[1..]) {
          ClearBeforeCons(es, |es|);
        } else if i :| SuspendsAt(es[1..], i) {
          ClearBeforeCons(es, i + 1);
          assert SuspendsAt(es, i + 1);
        } else {
          var i :| RaisesAt(es[1..], i);
          ClearBeforeCons(es, i + 1);
          assert RaisesAt(es, i + 1);
        }
      }
    }
  }

  /** A run that meets no answered question and no failing chunk returns "" after reading all. */
  lemma {:induction false} RunFoldCompletes(acc: Acc, es: seq<Event>)
    requires RunsToEnd(es)
    ensures RunFold(acc, es).exit == Returned("")
    ensures Processed(es) == es
    decreases |es|
  {
    if es != [] {
      ClearBeforeCons(es, |es|);
      RunFoldCompletes(Step(acc, es[0]).acc, es[1..]);
      assert es == [es[0]] + es[1..];
    }
  }

  /** A run suspended at position `i` returns that event's answer after reading up to it. */
  lemma {:induction false} RunFoldSuspends(acc: Acc, es: seq<Event>, i: int)
    requires SuspendsAt(es, i)
    ensures RunFold(acc, es).exit == Returned(es[i].answer) && es[i].answer != ""
    ensures Processed(es) == es[..i + 1]
    decreases |es|
  {
    if i > 0 {
      ClearBeforeCons(es, i);
      assert es[1..][i - 1] == es[i];
      RunFoldSuspends(Step(acc, es[0]).acc, es[1..], i - 1);
      assert es[..i + 1] == [es[0]] + es[1..][..i];
    }
  }

  /** A run failing at position `i` raises that chunk's KeyError. */
  lemma {:induction false} RunFoldRaises(acc: Acc, es: seq<Event>, i: int)
    requires RaisesAt(es, i)
    ensures RunFold(acc, es).exit == Raised(ExtractText(es[i].chunk).error)
    decreases |es|
  {
    if i > 0 {
      ClearBeforeCons(es, i);
      assert es[1..][i - 1] == es[i];
      RunFoldRaises(Step(acc, es[0]).acc, es[1..], i - 1);
    }
  }

  /**
   * How a run ends is decided by its events alone: it returns "" exactly when
   * it reads every event, a non-empty answer exactly when an answered
   * "human" start comes first (the answer of the last event it reads), and
   * raises exactly when a failing chunk comes first.
   */
  lemma RunExitCases(acc: Acc, es: seq<Event>)
    ensures RunFold(acc, es).exit == Returned("") <==> RunsToEnd(es)
    ensures RunFold(acc, es).exit.Raised? <==> exists i :: RaisesAt(es, i)
    ensures (RunFold(acc, es).exit.Returned? && RunFold(acc, es).exit.answer != "") <==>
      (exists i :: SuspendsAt(es, i))
    ensures RunFold(acc, es).exit.Returned? && RunFold(acc, es).exit.answer != "" ==>
      0 < StopIndex(es) && SuspendsAt(es, StopIndex(es) - 1) &&
      RunFold(acc, es).exit.answer == es[StopIndex(es) - 1].answer
  {
    RunTrichotomy(es);
    forall i | RaisesAt(es, i) ensures RunFold(acc, es).exit.Raised? {
      RunFoldRaises(acc, es, i);
    }
    forall i | SuspendsAt(es, i)
      ensures RunFold(acc, es).exit == Returned(es[i].answer) && es[i].answer != ""
      ensures StopIndex(es) == i + 1
    {
      RunFoldSuspends(acc, es, i);
    }
    if RunsToEnd(es) {
      RunFoldCompletes(acc, es);
    }
  }

  lemma {:induction false} LastFigureAppend(a: seq<Event>, b: seq<Event>, init: Option<Figure>)
    ensures LastFigure(a + b, init) == LastFigure(b, LastFigure(a, init))
  {
    if b == [] {
      assert a + b == a;
    } else {
      assert (a + b)[..|a + b| - 1] == a + b[..|b| - 1];
      assert (a + b)[|a + b| - 1] == b[|b| - 1];
      LastFigureAppend(a, b[..|b| - 1], init);
    }
  }

  lemma {:induction false} LastQuestionAppend(a: seq<Event>, b: seq<Event>, init: string)
    ensures LastQuestion(a + b, init) == LastQuestion(b, LastQuestion(a, init))
  {
    if b == [] {
      assert a + b == a;
    } else {
      assert (a + b)[..|a + b| - 1] == a + b[..|b| - 1];
      assert (a + b)[|a + b| - 1] == b[|b| - 1];
      LastQuestionAppend(a, b[..|b| - 1], init);
    }
  }

  lemma {:induction false} StreamedTextAppend(a: seq<Event>, b: seq<Event>)
    ensures StreamedText(a + b) == StreamedText(a) + StreamedText(b)
  {
    if a == [] {
      assert a + b == b;
    } else {
      assert (a + b)[1..] == a[1..] + b;
      StreamedTextAppend(a[1..], b);
    }
  }

  /** Reading `a` and then `b` is reading `a + b`. */
  lemma ThroughAppend(acc: Acc, a: seq<Event>, b: seq<Event>)
    ensures Through(acc, a + b) == Through(Through(acc, a), b)
  {
    StreamedTextAppend(a, b);
    LastQuestionAppend(a, b, acc.agentQuestion);
    LastFigureAppend(a, b, acc.figure);
    assert acc.fullResponse + (StreamedText(a) + StreamedText(b)) ==
      (acc.fullResponse + StreamedText(a)) + StreamedText(b);
  }

  /**
   * Unless a chunk raises, a run leaves: the old response followed by the
   * text of every chunk it read, in order; the last question it read; the
   * figure of the last truthy artifact it read (the old one if none).
   */
  lemma {:induction false} RunFoldAccumulates(acc: Acc, es: seq<Event>)
    requires !RunFold(acc, es).exit.Raised?
    ensures RunFold(acc, es).acc == Through(acc, Processed(es))
    decreases |es|
  {
    if es == [] {
      assert acc.fullResponse + "" == acc.fullResponse;
    } else {
      var e := es[0];
      assert LastFigure([e], acc.figure) == if ArtifactOf(e).Some? then Some(FromJson(ArtifactOf(e).value)) else acc.figure;
      assert LastQuestion([e], acc.agentQuestion) == if QuestionOf(e).Some? then QuestionOf(e).value else acc.agentQuestion;
      assert StreamedText([e]) == TextOf(e) + StreamedText([]);
      assert Step(acc, e).acc == Through(acc, [e]);
      if Answers(e) {
        assert Processed(es) == [e];
      } else {
        RunFoldAccumulates(Step(acc, e).acc, es[1..]);
        assert Processed(es) == [e] + Processed(es[1..]);
        ThroughAppend(acc, [e], Processed(es[1..]));
      }
    }
  }

  // ---------------------------------------------------------------------
  // The imperative run
  // ---------------------------------------------------------------------

  /** The closure cells `process_stream` updates through `nonlocal` (app.py:128). */
  class StreamState {
    var fullResponse: string
    var agentQuestion: string
    var figure: Option<Figure>

    /** The cells as `main` initialises them (app.py:123-125). */
    constructor ()
      ensures Snapshot() == Initial
    {
      fullResponse := "";
      agentQuestion := "";
      figure := None;
    }

    function Snapshot(): Acc
      reads this
    {
      Acc(fullResponse, agentQuestion, figure)
    }

    /** One run of the agent's event stream (app.py:127-157). */
    method ProcessStream(events: seq<Event>) returns (exit: Exit)
      modifies this
      ensures RunResult(Snapshot(), exit) == RunFold(old(Snapshot()), events)
    {
      var i := 0;
      while i < |events|
        invariant 0 <= i <= |events|
        invariant RunFold(old(Snapshot()), events) == RunFold(Snapshot(), events[i..])
      {
        var event := events[i];
        assert events[i..][0] == event && events[i..][1..] == events[i + 1..];
        if event.ToolEnd? {
          if event.output.Some? && event.output.value.artifact.Some? && event.output.value.artifact.value != "" {
            figure := Some(FromJson(event.output.value.artifact.value));
          }
        }
        if event.ChatModelStream? {
          var content := ExtractText(event.chunk);
          if content.Err? {
            return Raised(content.error);
          }
          fullResponse := fullResponse + content.value;
        } else if event.ToolStart? {
          if event.name == "human" {
            agentQuestion := event.input;
            if event.answer != "" {
              return Returned(event.answer);
            }
          }
        }
        i := i + 1;
      }
      return Returned("");
    }
  }
}
