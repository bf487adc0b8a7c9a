/**
 * The stream reducer of the chat loop: it reads response-stream events one
 * at a time until the first nil event and folds the text of the decoded
 * "content_block_delta" chunks, in order, into the reply of the turn.
 *
 * The event channel is a sequence; End stands for the nil event. Reading
 * past the end of the sequence is reading End, as a receive on a closed
 * channel yields nil.
 */
module Stream {
  import opened Wrappers

  const ContentBlockDelta := "content_block_delta"

  /** What one chunk decodes to: its `type` and its `delta.text`. */
  datatype Delta = Delta(kind: string, text: string)

  /**
   * One value received from the channel: a chunk with its decode result
   * (None when json.Unmarshal failed), the catch-all union member with its
   * raw value, or nil.
   */
  datatype Event = Chunk(decoded: Option<Delta>) | Unknown(raw: string) | End

  /** What the reducer writes to standard output for one event. */
  datatype Printed = Fragment(text: string) | Raw(value: string)

  /** Whether the event carries reply text: a decoded content delta. */
  predicate IsContent(e: Event)
  {
    e.Chunk? && e.decoded.Some? && e.decoded.value.kind == ContentBlockDelta
  }

  /** The text one event adds to the reply. */
  function Contribution(e: Event): string
  {
    if IsContent(e) then e.decoded.value.text else ""
  }

  /** What one event prints: the delta text, the raw catch-all value, or nothing. */
  function Output(e: Event): seq<Printed>
  {
    if IsContent(e) then [Fragment(e.decoded.value.text)]
    else if e.Unknown? then [Raw(e.raw)]
    else []
  }

  /** The reply accumulated over events, appended in the order received. */
  function Reply(events: seq<Event>): string
  {
    if events == [] then ""
    else Reply(events[..|events| - 1]) + Contribution(events[|events| - 1])
  }

  /** Everything printed over events, in the order received. */
  function Echo(events: seq<Event>): seq<Printed>
  {
    if events == [] then []
    else Echo(events[..|events| - 1]) + Output(events[|events| - 1])
  }

  /** The text of the Fragment pieces of printed output, concatenated. */
  function Fragments(printed: seq<Printed>): string
  {
    if printed == [] then ""
    else
      var last := printed[|printed| - 1];
      Fragments(printed[..|printed| - 1]) + (if last.Fragment? then last.text else "")
  }

  /** The index of the first End, or the length when there is none. */
  function FirstEnd(events: seq<Event>): (n: nat)
    ensures n <= |events|
    ensures forall j :: 0 <= j < n ==> !events[j].End?
    ensures n < |events| ==> events[n].End?
  {
    if events == [] || events[0].End? then 0 else 1 + FirstEnd(events[1..])
  }

  /** How many events are received: up to and including the first nil. */
  function Consumed(events: seq<Event>): nat
  {
    if FirstEnd(events) < |events| then FirstEnd(events) + 1 else |events|
  }

  /** The reply of a whole stream: the events before the first End. */
  function StreamReply(events: seq<Event>): string
  {
    Reply(events[..FirstEnd(events)])
  }

  /**
   * The inner receive loop of a chat turn. The buffer starts empty, every
   * decoded content delta is printed and appended, a chunk that fails to
   * decode is skipped, a catch-all member is printed only, and the loop
   * stops at the first nil without receiving anything after it.
   */
  method Reduce(events: seq<Event>) returns (chunks: string, printed: seq<Printed>, consumed: nat)
    ensures consumed == Consumed(events)
    ensures chunks == StreamReply(events)
    ensures printed == Echo(events[..FirstEnd(events)])
  {
    chunks := "";
    printed := [];
    consumed := 0;
    while consumed < |events|
      invariant consumed <= FirstEnd(events)
      invariant chunks == Reply(events[..consumed])
      invariant printed == Echo(events[..consumed])
    {
      var event := events[consumed];
      if event.End? {
        assert FirstEnd(events) == consumed;
        consumed := consumed + 1;
        break;
      }
      ReplyPrefix(events, consumed);
      consumed := consumed + 1;
      match event
      case Chunk(decoded) =>
        // a chunk that failed to decode is skipped
        if decoded.Some? && decoded.value.kind == ContentBlockDelta {
          printed := printed + [Fragment(decoded.value.text)];
          chunks := chunks + decoded.value.text;
        }
      case Unknown(raw) =>
        printed := printed + [Raw(raw)];
    }
  }

  /** One more event adds its contribution to the reply and its output to what is printed. */
  lemma ReplySnoc(events: seq<Event>, e: Event)
    ensures Reply(events + [e]) == Reply(events) + Contribution(e)
    ensures Echo(events + [e]) == Echo(events) + Output(e)
  {
    assert (events + [e])[..|events|] == events;
  }

  /** Receiving one more event of a stream extends the reply and the output of the prefix received so far. */
  lemma ReplyPrefix(events: seq<Event>, i: nat)
    requires i < |events|
    ensures Reply(events[..i + 1]) == Reply(events[..i]) + Contribution(events[i])
    ensures Echo(events[..i + 1]) == Echo(events[..i]) + Output(events[i])
  {
    assert events[..i + 1] == events[..i] + [events[i]];
    ReplySnoc(events[..i], events[i]);
  }

  /** The reply distributes over concatenation of event sequences. */
  lemma {:induction false} ReplyAppend(a: seq<Event>, b: seq<Event>)
    ensures Reply(a + b) == Reply(a) + Reply(b)
    decreases |b|
  {
    if b == [] {
      assert a + b == a;
    } else {
      var b', e := b[..|b| - 1], b[|b| - 1];
      assert a + b == (a + b') + [e];
      ReplySnoc(a + b', e);
      ReplyAppend(a, b');
      assert Reply(b) == Reply(b') + Contribution(e);
    }
  }

  /** An event that contributes no text can be removed without changing the reply. */
  lemma TransparentEvent(a: seq<Event>, e: Event, b: seq<Event>)
    requires !IsContent(e)
    ensures Reply(a + [e] + b) == Reply(a + b)
  {
    assert Reply([e]) == "" by {
      ReplySnoc([], e);
      assert [] + [e] == [e];
    }
    ReplyAppend(a, [e]);
    ReplyAppend(a + [e], b);
    ReplyAppend(a, b);
    assert Reply(a + [e]) == Reply(a);
  }

  /** Nothing received after the first nil reaches the reply. */
  lemma StopsAtFirstEnd(a: seq<Event>, b: seq<Event>)
    requires forall j :: 0 <= j < |a| ==> !a[j].End?
    ensures FirstEnd(a + [End] + b) == |a|
    ensures Consumed(a + [End] + b) == |a| + 1
    ensures StreamReply(a + [End] + b) == Reply(a)
  {
    var s := a + [End] + b;
    assert s[|a|].End?;
    assert s[..|a|] == a;
  }

  /** The reply is exactly the Fragment text that was printed; Raw output never enters it. */
  lemma {:induction false} ReplyIsPrintedFragments(events: seq<Event>)
    ensures Fragments(Echo(events)) == Reply(events)
    decreases |events|
  {
    if events != [] {
      var init := events[..|events| - 1];
      var e := events[|events| - 1];
      ReplyIsPrintedFragments(init);
      FragmentsAppend(Echo(init), Output(e));
    }
  }

  lemma {:induction false} FragmentsAppend(p: seq<Printed>, q: seq<Printed>)
    requires |q| <= 1
    ensures Fragments(p + q) == Fragments(p) + (if q != [] && q[0].Fragment? then q[0].text else "")
  {
    if q != [] {
      assert (p + q)[..|p + q| - 1] == p;
    } else {
      assert p + q == p;
    }
  }

  /** A stream of content deltas only. */
  function Deltas(texts: seq<string>): (events: seq<Event>)
    ensures |events| == |texts|
  {
    if texts == [] then []
    else Deltas(texts[..|texts| - 1]) + [Chunk(Some(Delta(ContentBlockDelta, texts[|texts| - 1])))]
  }

  /** The strings concatenated in order. */
  function Concat(texts: seq<string>): string
  {
    if texts == [] then "" else Concat(texts[..|texts| - 1]) + texts[|texts| - 1]
  }

  /** Over content deltas only, the reply is the in-order concatenation of their texts. */
  lemma {:induction false} ReplyOfDeltas(texts: seq<string>)
    ensures Reply(Deltas(texts)) == Concat(texts)
    decreases |texts|
  {
    if texts != [] {
      var events := Deltas(texts);
      assert events[..|events| - 1] == Deltas(texts[..|texts| - 1]);
      ReplyOfDeltas(texts[..|texts| - 1]);
    }
  }

  /** Fragments "Hel" and "lo" then the end of the stream give "Hello". */
  lemma HelloExample()
    ensures StreamReply([Chunk(Some(Delta(ContentBlockDelta, "Hel"))), Chunk(Some(Delta(ContentBlockDelta, "lo"))), End]) == "Hello"
  {
    var h, l := Chunk(Some(Delta(ContentBlockDelta, "Hel"))), Chunk(Some(Delta(ContentBlockDelta, "lo")));
    StopsAtFirstEnd([h, l], []);
    assert [h, l] + [End] + [] == [h, l, End];
    assert Reply([h, l]) == "Hello" by {
      ReplySnoc([], h);
      ReplySnoc([h], l);
      assert [] + [h] == [h] && [h] + [l] == [h, l];
      assert "" + "Hel" + "lo" == "Hello";
    }
  }

  /** A catch-all member between "A" and "B" leaves "AB". */
  lemma CatchAllExample()
    ensures StreamReply([Chunk(Some(Delta(ContentBlockDelta, "A"))), Unknown("?"), Chunk(Some(Delta(ContentBlockDelta, "B"))), End]) == "AB"
  {
    var a, b := Chunk(Some(Delta(ContentBlockDelta, "A"))), Chunk(Some(Delta(ContentBlockDelta, "B")));
    StopsAtFirstEnd([a, Unknown("?"), b], []);
    assert [a, Unknown("?"), b] + [End] + [] == [a, Unknown("?"), b, End];
    assert [a] + [Unknown("?")] + [b] == [a, Unknown("?"), b];
    assert [a] + [b] == [a, b];
    TransparentEvent([a], Unknown("?"), [b]);
    assert Reply([a, b]) == "AB" by {
      ReplySnoc([], a);
      ReplySnoc([a], b);
      assert [] + [a] == [a] && [a] + [b] == [a, b];
      assert "" + "A" + "B" == "AB";
    }
  }
}
