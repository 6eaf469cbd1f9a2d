/**
 * `format_messages_for_bedrock` (app.py:54-68): turns typed messages into
 * role/content records for a backend that rejects two assistant turns in a
 * row, inserting a "Please continue." user record between any two.
 */
module BedrockFormat {
  import opened Wrappers
  import opened Messages

  /** The three roles the formatted records use. */
  datatype Role = System | User | Assistant

  /** The role's name as the backend receives it (app.py:58-62). */
  function RoleName(r: Role): string
  {
    match r
    case System => "system"
    case User => "user"
    case Assistant => "assistant"
  }

  /** A role/content record of the formatted history. */
  datatype Entry = Entry(role: Role, content: string)

  /** The user record put between two adjacent assistant records (app.py:66). */
  const Placeholder: Entry := Entry(User, "Please continue.")

  /**
   * Python's IndexError from `formatted_messages[-1]` or `[-2]` on a list
   * shorter than two, raised while handling input position `index`.
   */
  datatype IndexError = IndexError(index: nat)

  /** The record a message contributes, if its kind is recognised (app.py:57-62). */
  function EntryOf(m: Message): Option<Entry>
  {
    match m
    case SystemMessage(c) => Some(Entry(System, c))
    case HumanMessage(c) => Some(Entry(User, c))
    case AIMessage(c) => Some(Entry(Assistant, c))
    case OtherMessage(_, _) => None
  }

  predicate IsAssistant(e: Entry)
  {
    e.role == Assistant
  }

  /** No two neighbouring records both have role "assistant". */
  ghost predicate NoAdjacentAssistants(es: seq<Entry>)
  {
    forall i, j :: 0 <= i < j < |es| && j == i + 1 ==> !(IsAssistant(es[i]) && IsAssistant(es[j]))
  }

  /** The records of the recognised messages, in input order. */
  function Mapped(ms: seq<Message>): seq<Entry>
  {
    if ms == [] then []
    else
      var init := Mapped(ms[..|ms| - 1]);
      match EntryOf(ms[|ms| - 1])
      case Some(e) => init + [e]
      case None => init
  }

  /** The number of neighbouring pairs of assistant records in `es`. */
  function AssistantPairs(es: seq<Entry>): nat
  {
    if |es| < 2 then 0
    else
      AssistantPairs(es[..|es| - 1])
      + (if IsAssistant(es[|es| - 2]) && IsAssistant(es[|es| - 1]) then 1 else 0)
  }

  /** `es` with a placeholder put between every two neighbouring assistant records. */
  function Alternated(es: seq<Entry>): seq<Entry>
  {
    if es == [] then []
    else
      var init, last := es[..|es| - 1], es[|es| - 1];
      if init != [] && IsAssistant(init[|init| - 1]) && IsAssistant(last)
      then Alternated(init) + [Placeholder, last]
      else Alternated(init) + [last]
  }

  /** Which positions of `Alternated(es)` hold an inserted placeholder. */
  function Inserted(es: seq<Entry>): seq<bool>
  {
    if es == [] then []
    else
      var init, last := es[..|es| - 1], es[|es| - 1];
      if init != [] && IsAssistant(init[|init| - 1]) && IsAssistant(last)
      then Inserted(init) + [true, false]
      else Inserted(init) + [false]
  }

  /** The records of `out` at the positions `marks` leaves unmarked. */
  function Unmarked(out: seq<Entry>, marks: seq<bool>): seq<Entry>
    requires |out| == |marks|
  {
    if out == [] then []
    else
      Unmarked(out[..|out| - 1], marks[..|marks| - 1])
      + (if marks[|marks| - 1] then [] else [out[|out| - 1]])
  }

  /**
   * The loop at line 65 indexes `[-1]` and `[-2]` for every position i > 0:
   * this holds when at least two records exist by then at every such i.
   */
  ghost predicate IndexSafe(ms: seq<Message>)
  {
    forall i :: 0 < i < |ms| ==> RecordsThrough(ms, i) >= 2
  }

  /** How many records exist once position `i` has been mapped. */
  function RecordsThrough(ms: seq<Message>, i: nat): nat
    requires i < |ms|
  {
    |Mapped(ms[..i + 1])|
  }

  // ---------------------------------------------------------------------
  // Role mapping and order
  // ---------------------------------------------------------------------

  /** Each recognised kind gets its role and keeps its content; others vanish. */
  lemma RoleMapping(m: Message)
    ensures m.OtherMessage? <==> Mapped([m]) == []
    ensures !m.OtherMessage? ==> |Mapped([m])| == 1 && Mapped([m])[0].content == m.content
    ensures m.SystemMessage? ==> RoleName(Mapped([m])[0].role) == "system"
    ensures m.HumanMessage? ==> RoleName(Mapped([m])[0].role) == "user"
    ensures m.AIMessage? ==> RoleName(Mapped([m])[0].role) == "assistant"
  {
    assert [m][..0] == [];
  }

  /** Mapping works message by message and keeps the input order. */
  lemma {:induction false} MappedAppend(a: seq<Message>, b: seq<Message>)
    ensures Mapped(a + b) == Mapped(a) + Mapped(b)
  {
    if b == [] {
      assert a + b == a;
    } else {
      var b' := b[..|b| - 1];
      assert (a + b)[..|a + b| - 1] == a + b';
      assert (a + b)[|a + b| - 1] == b[|b| - 1];
      MappedAppend(a, b');
    }
  }

  /** A message contributes at most one record. */
  lemma {:induction false} MappedLength(ms: seq<Message>)
    ensures |Mapped(ms)| <= |ms|
  {
    if ms != [] {
      MappedLength(ms[..|ms| - 1]);
    }
  }

  // ---------------------------------------------------------------------
  // Properties of the placeholder insertion
  // ---------------------------------------------------------------------

  /** The insertion never moves the last record. */
  lemma AlternatedLast(es: seq<Entry>)
    requires es != []
    ensures Alternated(es) != [] && Alternated(es)[|Alternated(es)| - 1] == es[|es| - 1]
  {
  }

  /** One placeholder per neighbouring pair of assistant records. */
  lemma {:induction false} AlternatedLength(es: seq<Entry>)
    ensures |Alternated(es)| == |es| + AssistantPairs(es)
  {
    if es != [] {
      var init := es[..|es| - 1];
      AlternatedLength(init);
      if |es| >= 2 {
        assert init[|init| - 1] == es[|es| - 2];
      }
    }
  }

  /** Alternation: the result never has two neighbouring assistant records. */
  lemma {:induction false} AlternatedAlternates(es: seq<Entry>)
    ensures NoAdjacentAssistants(Alternated(es))
  {
    if es != [] {
      var init, last := es[..|es| - 1], es[|es| - 1];
      AlternatedAlternates(init);
      if init != [] {
        AlternatedLast(init);
      }
    }
  }

  lemma {:induction false} InsertedLength(es: seq<Entry>)
    ensures |Inserted(es)| == |Alternated(es)|
  {
    if es != [] {
      InsertedLength(es[..|es| - 1]);
    }
  }

  lemma UnmarkedSnoc(out: seq<Entry>, marks: seq<bool>, x: Entry, b: bool)
    requires |out| == |marks|
    ensures Unmarked(out + [x], marks + [b]) == Unmarked(out, marks) + (if b then [] else [x])
  {
    assert (out + [x])[..|out|] == out;
    assert (marks + [b])[..|marks|] == marks;
  }

  lemma InsertedSnoc(es: seq<Entry>, e: Entry)
    ensures Inserted(es + [e]) ==
      if es != [] && IsAssistant(es[|es| - 1]) && IsAssistant(e)
      then Inserted(es) + [true, false]
      else Inserted(es) + [false]
  {
    assert (es + [e])[..|es|] == es;
  }

  /** Erasing the two records appended after an assistant pair. */
  lemma UnmarkedPair(a: seq<Entry>, m: seq<bool>, last: Entry)
    requires |a| == |m|
    ensures Unmarked(a + [Placeholder, last], m + [true, false]) == Unmarked(a, m) + [last]
  {
    assert a + [Placeholder, last] == (a + [Placeholder]) + [last];
    assert m + [true, false] == (m + [true]) + [false];
    UnmarkedSnoc(a, m, Placeholder, true);
    UnmarkedSnoc(a + [Placeholder], m + [true], last, false);
  }

  /** One step of the erasure proof: appending a record to the input. */
  lemma ErasureStep(init: seq<Entry>, last: Entry)
    requires |Inserted(init)| == |Alternated(init)|
    requires Unmarked(Alternated(init), Inserted(init)) == init
    ensures |Inserted(init + [last])| == |Alternated(init + [last])|
    ensures Unmarked(Alternated(init + [last]), Inserted(init + [last])) == init + [last]
  {
    AlternatedSnoc(init, last);
    InsertedSnoc(init, last);
    if init != [] && IsAssistant(init[|init| - 1]) && IsAssistant(last) {
      UnmarkedPair(Alternated(init), Inserted(init), last);
    } else {
      UnmarkedSnoc(Alternated(init), Inserted(init), last, false);
    }
  }

  /** Dropping the inserted positions gives back exactly `es`. */
  lemma {:induction false} AlternatedErasure(es: seq<Entry>)
    ensures |Inserted(es)| == |Alternated(es)|
    ensures Unmarked(Alternated(es), Inserted(es)) == es
  {
    if es != [] {
      var init, last := es[..|es| - 1], es[|es| - 1];
      assert es == init + [last];
      AlternatedErasure(init);
      ErasureStep(init, last);
    }
  }

  /** Each inserted position holds the placeholder, between two assistant records. */
  lemma {:induction false} InsertedPositions(es: seq<Entry>, i: nat)
    requires i < |Inserted(es)| && Inserted(es)[i]
    ensures |Inserted(es)| == |Alternated(es)|
    ensures 0 < i < |Alternated(es)| - 1 && Alternated(es)[i] == Placeholder
    ensures IsAssistant(Alternated(es)[i - 1]) && IsAssistant(Alternated(es)[i + 1])
  {
    InsertedLength(es);
    var init, last := es[..|es| - 1], es[|es| - 1];
    InsertedLength(init);
    var a, m := Alternated(init), Inserted(init);
    if init != [] && IsAssistant(init[|init| - 1]) && IsAssistant(last) {
      if i < |m| {
        InsertedPositions(init, i);
      } else {
        AlternatedLast(init);
      }
    } else {
      InsertedPositions(init, i);
    }
  }

  /** On a record list that already alternates, nothing is inserted. */
  lemma {:induction false} AlternatedIdentity(es: seq<Entry>)
    requires NoAdjacentAssistants(es)
    ensures Alternated(es) == es
  {
    if es != [] {
      var init := es[..|es| - 1];
      assert NoAdjacentAssistants(init) by {
        forall i | 0 <= i < |init| - 1
          ensures !(IsAssistant(init[i]) && IsAssistant(init[i + 1]))
        {
          assert init[i] == es[i] && init[i + 1] == es[i + 1];
        }
      }
      AlternatedIdentity(init);
      if init != [] {
        assert init[|init| - 1] == es[|es| - 2];
      }
    }
  }

  // ---------------------------------------------------------------------
  // The indexing precondition at line 65
  // ---------------------------------------------------------------------

  /** Adding messages at the end never removes records. */
  lemma MappedPrefixGrows(ms: seq<Message>, i: nat, j: nat)
    requires i <= j <= |ms|
    ensures |Mapped(ms[..i])| <= |Mapped(ms[..j])|
  {
    assert ms[..j] == ms[..i] + ms[i..j];
    MappedAppend(ms[..i], ms[i..j]);
  }

  /**
   * The loop indexes safely exactly when the input has fewer than two
   * messages or its first two messages are both of a recognised kind.
   */
  lemma IndexSafeIff(ms: seq<Message>)
    ensures IndexSafe(ms) <==> |ms| < 2 || (EntryOf(ms[0]).Some? && EntryOf(ms[1]).Some?)
  {
    if |ms| >= 2 {
      assert ms[..2] == [ms[0]] + [ms[1]];
      MappedAppend([ms[0]], [ms[1]]);
      RoleMapping(ms[0]);
      RoleMapping(ms[1]);
      if EntryOf(ms[0]).Some? && EntryOf(ms[1]).Some? {
        forall i | 0 < i < |ms| ensures RecordsThrough(ms, i) >= 2 {
          MappedPrefixGrows(ms, 2, i + 1);
        }
      } else {
        assert RecordsThrough(ms, 1) < 2;
      }
    }
  }

  /** Index safety is decided at position 1. */
  lemma IndexSafeAtOne(ms: seq<Message>)
    ensures IndexSafe(ms) <==> |ms| < 2 || RecordsThrough(ms, 1) >= 2
  {
    if |ms| >= 2 && RecordsThrough(ms, 1) >= 2 {
      forall i | 0 < i < |ms| ensures RecordsThrough(ms, i) >= 2 {
        MappedPrefixGrows(ms, 2, i + 1);
      }
    }
  }

  /** The reported failure: a leading unrecognised message, then a human one. */
  lemma UnrecognisedLeadFails(m: Message, question: string)
    requires m.OtherMessage?
    ensures !IndexSafe([m, HumanMessage(question)])
  {
    IndexSafeIff([m, HumanMessage(question)]);
  }

  // ---------------------------------------------------------------------
  // The loop, as written and corrected
  // ---------------------------------------------------------------------

  /** Mapping one more message appends its record, if any. */
  lemma MappedSnoc(ms: seq<Message>, i: nat)
    requires i < |ms|
    ensures Mapped(ms[..i + 1]) ==
      Mapped(ms[..i]) + (if EntryOf(ms[i]).Some? then [EntryOf(ms[i]).value] else [])
  {
    assert ms[..i + 1][..i] == ms[..i];
  }

  /** Appending one record to the input of the insertion. */
  lemma AlternatedSnoc(es: seq<Entry>, e: Entry)
    ensures Alternated(es + [e]) ==
      if es != [] && IsAssistant(es[|es| - 1]) && IsAssistant(e)
      then Alternated(es) + [Placeholder, e]
      else Alternated(es) + [e]
  {
    assert (es + [e])[..|es|] == es;
  }

  /** Python's `L.insert(-1, x)` puts `x` just before the last element. */
  lemma InsertBeforeLast(a: seq<Entry>, e: Entry)
    ensures (a + [e])[..|a|] + [Placeholder] + (a + [e])[|a|..] == a + [Placeholder, e]
  {
    assert (a + [e])[..|a|] == a;
    assert (a + [e])[|a|..] == [e];
  }

  /** The alternation step after a recognised message `e`: what `Alternated` does with it. */
  lemma SomeStep(prev: seq<Entry>, e: Entry, cur: seq<Entry>)
    requires cur == Alternated(prev) + [e]
    ensures |cur| >= 2 ==> prev != []
    ensures |cur| >= 2 && IsAssistant(cur[|cur| - 1]) && IsAssistant(cur[|cur| - 2]) ==>
      Alternated(prev + [e]) == cur[..|cur| - 1] + [Placeholder] + cur[|cur| - 1..]
    ensures !(|cur| >= 2 && IsAssistant(cur[|cur| - 1]) && IsAssistant(cur[|cur| - 2])) ==>
      Alternated(prev + [e]) == cur
  {
    var a := Alternated(prev);
    AlternatedSnoc(prev, e);
    InsertBeforeLast(a, e);
    if prev != [] {
      AlternatedLast(prev);
      assert cur[|cur| - 2] == prev[|prev| - 1];
    }
  }

  /** The alternation step after an unrecognised message never fires. */
  lemma NoneStep(cur: seq<Entry>, prev: seq<Entry>)
    requires cur == Alternated(prev)
    ensures |cur| >= 2 ==> !(IsAssistant(cur[|cur| - 1]) && IsAssistant(cur[|cur| - 2]))
  {
    AlternatedAlternates(prev);
  }

  /** A short list at position `i` means a short list at position 1 already. */
  lemma ShortAtOne(ms: seq<Message>, i: nat)
    requires 0 < i < |ms| && RecordsThrough(ms, i) < 2
    ensures RecordsThrough(ms, 1) < 2
  {
    MappedPrefixGrows(ms, 2, i + 1);
  }

  /**
   * One iteration of the loop: `cur` is the list once the record of
   * position `i` (if any) is appended; the condition at line 65 then either
   * fails (and the input is not index-safe, with position 1 short too) or
   * leaves exactly the insertion of the first `i + 1` messages.
   */
  lemma LoopStep(ms: seq<Message>, i: nat, cur: seq<Entry>)
    requires i < |ms|
    requires cur == Alternated(Mapped(ms[..i])) +
      (if EntryOf(ms[i]).Some? then [EntryOf(ms[i]).value] else [])
    ensures i > 0 && |cur| < 2 ==> RecordsThrough(ms, i) < 2 && RecordsThrough(ms, 1) < 2
    ensures i == 1 && |cur| >= 2 ==> RecordsThrough(ms, 1) >= 2
    ensures !(i > 0 && |cur| < 2) ==>
      Alternated(Mapped(ms[..i + 1])) ==
        if i > 0 && IsAssistant(cur[|cur| - 1]) && IsAssistant(cur[|cur| - 2])
        then cur[..|cur| - 1] + [Placeholder] + cur[|cur| - 1..]
        else cur
  {
    var prev := Mapped(ms[..i]);
    MappedSnoc(ms, i);
    AlternatedLength(prev);
    if i == 0 {
      assert ms[..i] == [];
    }
    if EntryOf(ms[i]).Some? {
      var e := EntryOf(ms[i]).value;
      assert Mapped(ms[..i + 1]) == prev + [e];
      SomeStep(prev, e, cur);
    } else {
      assert Mapped(ms[..i + 1]) == prev;
      NoneStep(cur, prev);
    }
    if i > 0 && |cur| < 2 {
      ShortAtOne(ms, i);
    }
  }

  /**
   * `format_messages_for_bedrock` as written: fails with IndexError exactly
   * when some position i > 0 is reached with fewer than two records, and
   * that position is then always 1; otherwise yields `Alternated(Mapped(ms))`.
   */
  method FormatMessagesForBedrock(messages: seq<Message>) returns (r: Result<seq<Entry>, IndexError>)
    ensures r.Ok? <==> IndexSafe(messages)
    ensures r.Ok? ==> r.value == Alternated(Mapped(messages))
    ensures r.Err? ==> r.error == IndexError(1)
  {
    var formatted: seq<Entry> := [];
    var i := 0;
    while i < |messages|
      invariant 0 <= i <= |messages|
      invariant formatted == Alternated(Mapped(messages[..i]))
      invariant i > 1 ==> RecordsThrough(messages, 1) >= 2
    {
      var entry := EntryOf(messages[i]);
      if entry.Some? {
        formatted := formatted + [entry.value];
      }
      LoopStep(messages, i, formatted);
      if i > 0 {
        if |formatted| < 2 {
          IndexSafeAtOne(messages);
          return Err(IndexError(i));
        }
        if IsAssistant(formatted[|formatted| - 1]) && IsAssistant(formatted[|formatted| - 2]) {
          formatted := formatted[..|formatted| - 1] + [Placeholder] + formatted[|formatted| - 1..];
        }
      }
      i := i + 1;
    }
    assert messages[..i] == messages;
    IndexSafeAtOne(messages);
    return Ok(formatted);
  }

  /**
   * The loop with the guard the comment at line 64 evidently intends: inspect the last
   * two records only when there are two. Never fails, on any input.
   */
  method FormatMessagesGuarded(messages: seq<Message>) returns (formatted: seq<Entry>)
    ensures formatted == Alternated(Mapped(messages))
    ensures NoAdjacentAssistants(formatted)
  {
    formatted := [];
    var i := 0;
    while i < |messages|
      invariant 0 <= i <= |messages|
      invariant formatted == Alternated(Mapped(messages[..i]))
    {
      var entry := EntryOf(messages[i]);
      if entry.Some? {
        formatted := formatted + [entry.value];
      }
      GuardedLoopStep(messages, i, formatted);
      if |formatted| >= 2 && IsAssistant(formatted[|formatted| - 1]) && IsAssistant(formatted[|formatted| - 2]) {
        formatted := formatted[..|formatted| - 1] + [Placeholder] + formatted[|formatted| - 1..];
      }
      i := i + 1;
    }
    assert messages[..i] == messages;
    AlternatedAlternates(Mapped(messages));
  }

  /** One iteration of the guarded loop. */
  lemma GuardedLoopStep(ms: seq<Message>, i: nat, cur: seq<Entry>)
    requires i < |ms|
    requires cur == Alternated(Mapped(ms[..i])) +
      (if EntryOf(ms[i]).Some? then [EntryOf(ms[i]).value] else [])
    ensures Alternated(Mapped(ms[..i + 1])) ==
      if |cur| >= 2 && IsAssistant(cur[|cur| - 1]) && IsAssistant(cur[|cur| - 2])
      then cur[..|cur| - 1] + [Placeholder] + cur[|cur| - 1..]
      else cur
  {
    var prev := Mapped(ms[..i]);
    MappedSnoc(ms, i);
    if EntryOf(ms[i]).Some? {
      var e := EntryOf(ms[i]).value;
      assert Mapped(ms[..i + 1]) == prev + [e];
      SomeStep(prev, e, cur);
    } else {
      assert Mapped(ms[..i + 1]) == prev;
      NoneStep(cur, prev);
    }
  }
}
