/** The shape of both servers' event loops: handle events until one of them breaks the loop. */
module EventLoops {
  import opened Prelude

  function Run<S, E>(handle: (S, E) -> (S, Flow), s: S, events: seq<E>): S
    decreases |events|
  {
    if events == [] then s else
    var (next, flow) := handle(s, events[0]);
    if flow == Break then next else Run(handle, next, events[1..])
  }

  /** No event after the one that breaks the loop has any effect. */
  lemma {:induction false} NothingAfterBreak<S, E>(handle: (S, E) -> (S, Flow), s: S, events: seq<E>, i: nat)
    requires i < |events| && handle(Run(handle, s, events[..i]), events[i]).1 == Break
    ensures Run(handle, s, events) == Run(handle, s, events[..i + 1])
    decreases |events|
  {
    var (next, flow) := handle(s, events[0]);
    assert events[..i + 1][0] == events[0] && events[..0] == [];
    if flow == Break {
    } else {
      assert events[..i][0] == events[0] && events[..i][1..] == events[1..][..i - 1];
      assert events[..i + 1][1..] == events[1..][..i];
      NothingAfterBreak(handle, next, events[1..], i - 1);
    }
  }

  /** An event that changes nothing can be left out at the end. */
  lemma {:induction false} LastIsIgnored<S(!new), E>(handle: (S, E) -> (S, Flow), s: S, events: seq<E>, e: E)
    requires forall x: S :: handle(x, e).0 == x
    ensures Run(handle, s, events + [e]) == Run(handle, s, events)
    decreases |events|
  {
    if events == [] {
      assert ([] + [e])[1..] == [];
    } else {
      assert (events + [e])[0] == events[0] && (events + [e])[1..] == events[1..] + [e];
      LastIsIgnored(handle, handle(s, events[0]).0, events[1..], e);
    }
  }

  ghost predicate Broke<S, E>(handle: (S, E) -> (S, Flow), s: S, events: seq<E>) {
    exists i: nat :: i < |events| && handle(Run(handle, s, events[..i]), events[i]).1 == Break
  }

  /** Until one breaks the loop, every event is handled. */
  lemma {:induction false} AllHandledUntilBreak<S, E>(handle: (S, E) -> (S, Flow), s: S, events: seq<E>, e: E)
    requires !Broke(handle, s, events)
    ensures Run(handle, s, events + [e]) == handle(Run(handle, s, events), e).0
    decreases |events|
  {
    if events == [] {
      assert ([] + [e])[1..] == [];
    } else {
      var (next, flow) := handle(s, events[0]);
      assert events[..0] == [] && handle(Run(handle, s, events[..0]), events[0]).1 != Break;
      forall i: nat | i < |events[1..]| ensures handle(Run(handle, next, events[1..][..i]), events[1..][i]).1 != Break {
        assert events[..i + 1][0] == events[0] && events[..i + 1][1..] == events[1..][..i];
        assert handle(Run(handle, s, events[..i + 1]), events[i + 1]).1 != Break;
      }
      assert (events + [e])[0] == events[0] && (events + [e])[1..] == events[1..] + [e];
      AllHandledUntilBreak(handle, next, events[1..], e);
    }
  }
}
