/** From the bytes a client sends to the bytes it hears. */
module Wire {
  import opened Prelude
  import opened Protocol
  import opened Keyspace
  import opened Durability
  import opened Resp
  import opened Spelling
  import Replies
  import ClientLaws

  /** A command as a client sends it: the verb in any case, then the arguments. */
  datatype Sent = Sent(command: Command, verb: Bytes)

  function WordsSent(s: Sent): seq<Bytes>
    requires !s.command.Unknown?
  {
    [s.verb] + ArgumentsFor(s.command)
  }

  ghost predicate Sendable(s: Sent, memory: Memory) {
    && !s.command.Unknown? && Fitting(s.command) && Says(s.verb, VerbFor(s.command))
    && AllFit(WordsSent(s), memory)
  }

  predicate Known(ss: seq<Sent>) { forall s :: s in ss ==> !s.command.Unknown? }

  function FramesSent(ss: seq<Sent>): seq<seq<Bytes>>
    requires Known(ss)
  {
    seq(|ss|, i requires 0 <= i < |ss| => WordsSent(ss[i]))
  }

  function Parsed(frames: seq<seq<Bytes>>): seq<Command> {
    seq(|frames|, i requires 0 <= i < |frames| => ParseCommand(frames[i]))
  }

  function Commands(ss: seq<Sent>): seq<Command> { seq(|ss|, i requires 0 <= i < |ss| => ss[i].command) }

  /** Whatever commands a client sends one behind the other, the server understands just these, in this order. */
  lemma CommandsAreUnderstood(ss: seq<Sent>, more: Bytes, memory: Memory)
    requires Known(ss) && forall s :: s in ss ==> Sendable(s, memory)
    ensures ReadFrames(|ss|, EncodeFrames(FramesSent(ss)) + more, memory) == Frames(FramesSent(ss), more)
    ensures Parsed(FramesSent(ss)) == Commands(ss)
  {
    var frames := FramesSent(ss);
    forall f | f in frames
      ensures AllFit(f, memory)
    {
      var i :| 0 <= i < |frames| && frames[i] == f;
      assert Sendable(ss[i], memory);
    }
    PipelineRoundTrip(frames, more, memory);
    forall i | 0 <= i < |ss|
      ensures ParseCommand(frames[i]) == ss[i].command
    {
      assert Sendable(ss[i], memory);
      EveryCommandParses(ss[i].command, ss[i].verb);
    }
  }

  lemma TwoReplies(a: Reply, b: Reply)
    ensures EncodeAll([a, b]) + "" == EncodeReply(a) + EncodeReply(b)
  {
    assert [a, b][1..] == [b] && [b][1..] == [];
    assert EncodeAll([]) == "";
    assert EncodeReply(b) + "" == EncodeReply(b);
    assert (EncodeReply(a) + EncodeReply(b)) + "" == EncodeReply(a) + EncodeReply(b);
  }

  lemma SetWordsFit(s: Sent, memory: Memory)
    requires Sendable(s, memory) && s.command.Set?
    ensures |s.command.value| <= memory
  {
    var words := WordsSent(s);
    assert words[2] == s.command.value && words[2] in words;
    assert FitsMemory(words[2], memory);
  }

  /** What one request sets is the answer to the next one, from the bytes of the requests to those of the replies. */
  lemma SetIsAnswered(db: Store, s: Sent, g: Sent, now: nat, later: nat, memory: Memory)
    requires Sendable(s, memory) && Sendable(g, memory)
    requires s.command.Set? && g.command == Get(s.command.key)
    ensures var frames := FramesSent([s, g]);
            var d := LiveCommand(db, ParseCommand(frames[0]), now);
            var e := LiveCommand(d.db, ParseCommand(frames[1]), later);
            && ReadFrames(2, EncodeFrames(frames), memory) == Frames(frames, "")
            && Replies.HearAll(2, EncodeReply(d.reply) + EncodeReply(e.reply)) ==
               Replies.HeardAll([Okay, Bulk(s.command.value)], "")
  {
    var k, v := s.command.key, s.command.value;
    CommandsAreUnderstood([s, g], "", memory);
    assert EncodeFrames(FramesSent([s, g])) + "" == EncodeFrames(FramesSent([s, g]));
    assert Parsed(FramesSent([s, g]))[0] == s.command && Parsed(FramesSent([s, g]))[1] == g.command;
    ClientLaws.SetIsRead(db, k, v, now, [], later);
    SetWordsFit(s, memory);
    Replies.AllAreHeard([Okay, Bulk(v)], "");
    TwoReplies(Okay, Bulk(v));
  }
}
