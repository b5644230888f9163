/** The send chain, the wire and the receive loop together. */
module EndToEnd {
  import opened Framing
  import opened Sequences
  import SC = SendChannel
  import RL = ReceiveLoop

  lemma {:induction false} WholeFramesAtLeast(ms: seq<Message>, n: nat, k: nat)
    requires n <= |ms| && |Frames(ms[..n])| <= k
    ensures n <= WholeFrames(ms, k)
  {
    if n > 0 {
      assert ms[..n][1..] == ms[1..][..n - 1];
      assert ms[..n][0] == ms[0];
      WholeFramesAtLeast(ms[1..], n - 1, k - |Frame(ms[0])|);
    }
  }

  lemma NonEmptyPrefixGrows(ms: seq<Message>, n: nat, n': nat)
    requires n <= n' <= |ms|
    ensures NonEmptyPrefix(ms[..n]) <= NonEmptyPrefix(ms[..n'])
  {
    assert ms[..n'][..n] == ms[..n];
    NonEmptyPrefixOfPrefix(ms[..n'], n);
  }

  lemma PrefixOfSuffix(pushed: seq<Message>, first: nat, next: nat)
    requires first <= next <= |pushed|
    ensures pushed[first..][..next - first] == pushed[first..next]
  {
  }

  lemma CompletedFit(pushed: seq<Message>, s: SC.Stream)
    requires SC.Carries(pushed, s)
    ensures s.next - s.first <= WholeFrames(pushed[s.first..], |s.bytes|)
  {
    PrefixOfSuffix(pushed, s.first, s.next);
    WholeFramesAtLeast(pushed[s.first..], s.next - s.first, |s.bytes|);
  }

  lemma CompletedAreWhole(pushed: seq<Message>, s: SC.Stream)
    requires SC.Carries(pushed, s)
    ensures var fromHere := pushed[s.first..];
            NonEmptyPrefix(pushed[s.first..s.next]) <= NonEmptyPrefix(fromHere[..WholeFrames(fromHere, |s.bytes|)])
  {
    var fromHere := pushed[s.first..];
    CompletedFit(pushed, s);
    PrefixOfSuffix(pushed, s.first, s.next);
    NonEmptyPrefixGrows(fromHere, s.next - s.first, WholeFrames(fromHere, |s.bytes|));
  }

  lemma SuffixWellSized(ms: seq<Message>, n: nat)
    requires n <= |ms| && AllWellSized(ms)
    ensures AllWellSized(ms[n..])
  {
  }

  lemma LoopReadsStream(pushed: seq<Message>, s: SC.Stream, readStates: seq<RL.Reader>, readEvents: seq<RL.Event>)
    requires SC.Carries(pushed, s) && AllWellSized(pushed)
    requires RL.Behavior(readStates, readEvents) && readStates[0] == RL.STARTED
    requires RL.Arrived(readEvents) <= s.bytes
    ensures var r := readStates[|readEvents|];
            && r.delivered <= NonEmptyPrefix(pushed[s.first..])
            && (RL.Quiescent(r) && RL.Arrived(readEvents) == s.bytes ==>
                  NonEmptyPrefix(pushed[s.first..s.next]) <= r.delivered)
  {
    var fromHere, arrived := pushed[s.first..], RL.Arrived(readEvents);
    SC.CarriedIsPrefix(pushed, s);
    PrefixIsTransitive(arrived, s.bytes, Frames(fromHere));
    SuffixWellSized(pushed, s.first);
    RL.ReceivesWhatWasFramed(readStates, readEvents, fromHere);
    if RL.Quiescent(readStates[|readEvents|]) && arrived == s.bytes {
      CompletedAreWhole(pushed, s);
    }
  }

  /** Take any run of the sender, any of its streams, and any run of a receive loop
      fed from that stream in whatever pieces. Up to the first empty body, what
      the loop hands over is a prefix of the messages pushed from the stream's
      start on; and once the whole stream has arrived and the loop rests, it
      includes every message the sender has completed on that stream. */
  lemma {:induction false} PushedIsHandedOver(
      sendStates: seq<SC.Channel>, sendEvents: seq<SC.Event>, s: SC.Stream,
      readStates: seq<RL.Reader>, readEvents: seq<RL.Event>)
    requires SC.Behavior(sendStates, sendEvents) && sendStates[0] == SC.INITIAL
    requires s in SC.Streams(sendStates[|sendEvents|]) && AllWellSized(SC.Pushed(sendEvents))
    requires RL.Behavior(readStates, readEvents) && readStates[0] == RL.STARTED
    requires RL.Arrived(readEvents) <= s.bytes
    ensures var pushed, r := SC.Pushed(sendEvents), readStates[|readEvents|];
            && s.first <= s.next <= |pushed|
            && r.delivered <= NonEmptyPrefix(pushed[s.first..])
            && (RL.Quiescent(r) && RL.Arrived(readEvents) == s.bytes ==>
                  NonEmptyPrefix(pushed[s.first..s.next]) <= r.delivered)
  {
    SC.DeliveryAcrossReconnects(sendStates, sendEvents);
    assert SC.Carries(SC.Pushed(sendEvents), s);
    LoopReadsStream(SC.Pushed(sendEvents), s, readStates, readEvents);
  }
}
