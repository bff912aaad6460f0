/** Header blocks over a connection: a HEADERS frame and its CONTINUATION frames, received and
    decoded as they come (frame/continuation.rs and frame/header.rs together). */
module HeaderBlocks {
  import opened Wrappers
  import opened Words
  import opened Huffman
  import opened Tables
  import opened HeaderDecoder
  import opened HeaderLaws
  import opened FrameBodies
  import opened FrameStream

  /** Decodes each fragment behind the bytes that were left over when the one before it ran out, the
      way the CONTINUATION reader asks its callers to. */
  method DecodeFragments(table: HeaderTable, fragments: seq<seq<u8>>)
    returns (fields: seq<Field>, pending: seq<u8>, stopped: Option<DecodeError>)
    requires table.dynamic.Valid() && |Joined(fragments)| < TWO_64
    modifies table.dynamic
    ensures table.dynamic.Valid()
    ensures Progress(table.dynamic.Abstract(), fields, pending, stopped)
         == FeedAll(Progress(old(table.dynamic.Abstract()), [], [], None), fragments)
  {
    hide Drain, Feed, Flatten, Bounded, TotalSize;
    fields, pending, stopped := [], [], None;
    ghost var start := Progress(table.dynamic.Abstract(), [], [], None);
    for i := 0 to |fragments|
      invariant table.dynamic.Valid()
      invariant |pending| + |Joined(fragments[i..])| < TWO_64
      invariant FeedAll(Progress(table.dynamic.Abstract(), fields, pending, stopped), fragments[i..])
             == FeedAll(start, fragments)
    {
      ghost var before := Progress(table.dynamic.Abstract(), fields, pending, stopped);
      FeedStep(before, fragments[i..]);
      assert fragments[i..][1..] == fragments[i + 1..];
      if stopped == None || stopped == Some(TooSmall) {
        var more;
        DrainRest(table.dynamic.Abstract(), pending + fragments[i]);
        more, pending, stopped := DecodeBlock(table, pending + fragments[i]);
        fields := fields + more;
      } else {
        pending := pending + fragments[i];
      }
    }
    assert fragments[|fragments|..] == [];
  }

  lemma FeedStep(p: Progress, fragments: seq<seq<u8>>)
    requires fragments != []
    ensures FeedAll(p, fragments) == FeedAll(Feed(p, fragments[0]), fragments[1..])
    ensures p.stopped == None || p.stopped == Some(TooSmall) ==>
              Feed(p, fragments[0]) == Prefixed(p.fields, Drain(p.table, p.pending + fragments[0]))
    ensures !(p.stopped == None || p.stopped == Some(TooSmall)) ==>
              Feed(p, fragments[0]) == p.(pending := p.pending + fragments[0])
    ensures |Joined(fragments)| == |fragments[0]| + |Joined(fragments[1..])|
  {
    hide Drain;
  }

  lemma {:induction false} DrainRest(t: Table, data: seq<u8>)
    ensures |Drain(t, data).pending| <= |data|
    decreases |data|
  {
    hide HeaderAt;
    if data != [] && HeaderAt(t, data).Ok? {
      HeaderSize(t, data);
      var d := HeaderAt(t, data).value;
      DrainRest(d.table, data[d.read..]);
    }
  }

  // ---------- a block over a connection ----------

  /** A header block in one HEADERS frame and as many CONTINUATION frames as there are more fragments. */
  function BlockFrames(id: u32, pad: Option<u8>, priority: Option<Priority>, end: u8, fragments: seq<seq<u8>>)
    : seq<Frame>
    requires fragments != []
  {
    [HeadersFrameOf(id, pad, priority, end, fragments[0])] + Continuations(id, fragments[1..])
  }

  function Continuations(id: u32, fragments: seq<seq<u8>>): seq<Frame> {
    if fragments == [] then []
    else [ContinuationFrameOf(id, |fragments| == 1, fragments[0])] + Continuations(id, fragments[1..])
  }

  /** The payloads of received frames. */
  function Payloads(received: seq<Received>): seq<seq<u8>> {
    if received == [] then []
    else (if received[0].BodyOf? then [received[0].body.data] else []) + Payloads(received[1..])
  }

  lemma {:induction false} ContinuationPayloads(id: u32, fragments: seq<seq<u8>>)
    ensures Payloads(ExpectedAll(Continuations(id, fragments))) == fragments
    decreases |fragments|
  {
    if fragments != [] {
      hide ExpectedAll, Payloads;
      var first, more := ContinuationFrameOf(id, |fragments| == 1, fragments[0]), Continuations(id, fragments[1..]);
      assert Continuations(id, fragments) == [first] + more;
      hide Continuations;
      FirstPayload(first, more);
      ContinuationPayloads(id, fragments[1..]);
      assert fragments == [fragments[0]] + fragments[1..];
    }
  }

  lemma BlockPayloads(id: u32, pad: Option<u8>, priority: Option<Priority>, end: u8, fragments: seq<seq<u8>>)
    requires fragments != []
    ensures Payloads(ExpectedAll(BlockFrames(id, pad, priority, end, fragments))) == fragments
  {
    hide Continuations;
    var first, more := HeadersFrameOf(id, pad, priority, end, fragments[0]), Continuations(id, fragments[1..]);
    ContinuationPayloads(id, fragments[1..]);
    FirstPayload(first, more);
    assert BlockFrames(id, pad, priority, end, fragments) == [first] + more;
    assert fragments == [fragments[0]] + fragments[1..];
  }

  /** The payload of a frame with a body comes before those of the frames after it. */
  lemma FirstPayload(first: Frame, more: seq<Frame>)
    requires first.HeadersFrameOf? || first.ContinuationFrameOf?
    ensures Payloads(ExpectedAll([first] + more)) == [first.data] + Payloads(ExpectedAll(more))
  {
    hide PrintPriority, HeadersFlags, EndFlags, Padded;
    var frames := [first] + more;
    assert frames[1..] == more;
    assert ExpectedAll(frames) == [Expected(first)] + ExpectedAll(more);
    assert ([Expected(first)] + ExpectedAll(more))[1..] == ExpectedAll(more);
  }

  /** From representations to fields over the wire: any meaningful block, printed, cut anywhere and
      sent in HEADERS and CONTINUATION frames with any padding and priority, is received and decoded
      to its fields and table. */
  lemma BlockOverFrames(maxFrameSize: u32, t: Table, reps: seq<Representation>, id: u32, pad: Option<u8>,
                        priority: Option<Priority>, end: u8, fragments: seq<seq<u8>>)
    requires forall rep :: rep in reps ==> Printable(rep)
    requires MeaningAll(t, reps).Some? && fragments != [] && Joined(fragments) == PrintAll(reps)
    requires forall f :: f in BlockFrames(id, pad, priority, end, fragments) ==> Sendable(maxFrameSize, f)
    ensures var received := ReceiveAll(maxFrameSize, PrintStream(BlockFrames(id, pad, priority, end, fragments)));
            && received.Some?
            && FeedAll(Progress(t, [], [], None), Payloads(received.value))
               == Progress(MeaningAll(t, reps).value.1, MeaningAll(t, reps).value.0, [], None)
  {
    hide MeaningAll, Sendable, ReceiveAll, PrintStream, FeedAll, PrintAll, Printable, BlockFrames, Payloads;
    hide ExpectedAll, Joined;
    StreamRoundTrip(maxFrameSize, BlockFrames(id, pad, priority, end, fragments));
    BlockPayloads(id, pad, priority, end, fragments);
    FragmentedBlock(t, reps, fragments);
  }
}
