/**
 * The team's shared mailbox: a list of (payload, sender) pairs that every agent
 * of the team appends to and filters by sender.
 */
module Communication {

  /** A message: what was said, and the index of the agent that said it. */
  type Message = (string, int)

  /** The messages of `ms` not sent by `sender`, in their original order. */
  function Without(ms: seq<Message>, sender: int): (r: seq<Message>)
    ensures |r| <= |ms|
    ensures forall m :: m in r <==> m in ms && m.1 != sender
  {
    if ms == [] then []
    else if ms[0].1 == sender then Without(ms[1..], sender)
    else [ms[0]] + Without(ms[1..], sender)
  }

  /** Filtering a concatenation filters each part and keeps them in order. */
  lemma {:induction false} WithoutConcat(a: seq<Message>, b: seq<Message>, sender: int)
    ensures Without(a + b, sender) == Without(a, sender) + Without(b, sender)
  {
    if a == [] {
      assert a + b == b;
    } else {
      assert (a + b)[0] == a[0];
      assert (a + b)[1..] == a[1..] + b;
      WithoutConcat(a[1..], b, sender);
    }
  }

  /** A list with no message from `sender` is left as it is. */
  lemma {:induction false} WithoutNothing(ms: seq<Message>, sender: int)
    requires forall m :: m in ms ==> m.1 != sender
    ensures Without(ms, sender) == ms
  {
    if ms != [] {
      assert ms[0] in ms;
      forall m | m in ms[1..] ensures m.1 != sender {
        assert m in ms;
      }
      WithoutNothing(ms[1..], sender);
      assert ms == [ms[0]] + ms[1..];
    }
  }

  /** Filtering twice by the same sender is filtering once. */
  lemma WithoutIdempotent(ms: seq<Message>, sender: int)
    ensures Without(Without(ms, sender), sender) == Without(ms, sender)
  {
    WithoutNothing(Without(ms, sender), sender);
  }

  /** Filtering by two senders gives the same list in either order. */
  lemma {:induction false} WithoutCommutes(ms: seq<Message>, i: int, j: int)
    ensures Without(Without(ms, i), j) == Without(Without(ms, j), i)
  {
    if ms != [] {
      WithoutCommutes(ms[1..], i, j);
      WithoutConcat([ms[0]], ms[1..], i);
      WithoutConcat([ms[0]], ms[1..], j);
      assert ms == [ms[0]] + ms[1..];
      assert Without([ms[0]], i) == if ms[0].1 == i then [] else [ms[0]];
      assert Without([ms[0]], j) == if ms[0].1 == j then [] else [ms[0]];
      WithoutConcat(Without([ms[0]], i), Without(ms[1..], i), j);
      WithoutConcat(Without([ms[0]], j), Without(ms[1..], j), i);
    }
  }

  /** A message said and then cleared by its own sender leaves no trace. */
  lemma SayThenClear(ms: seq<Message>, something: string, sender: int)
    ensures Without(ms + [(something, sender)], sender) == Without(ms, sender)
  {
    WithoutConcat(ms, [(something, sender)], sender);
    assert Without([(something, sender)], sender) == [];
  }

  /** The mailbox one team shares. */
  class Bus {
    var messages: seq<Message>

    /** A new mailbox is empty. */
    constructor ()
      ensures messages == []
    {
      messages := [];
    }

    /** `pending`: the messages not sent by `index`, without changing the mailbox. */
    function Pending(index: int): (r: seq<Message>)
      reads this
      ensures |r| <= |messages|
      ensures forall m :: m in r <==> m in messages && m.1 != index
    {
      Without(messages, index)
    }

    /** `say`: append one message at the end. */
    method Say(something: string, index: int)
      modifies this
      ensures messages == old(messages) + [(something, index)]
    {
      messages := messages + [(something, index)];
    }

    /** `clear`: drop every message sent by `index`, keeping the others in order. */
    method Clear(index: int)
      modifies this
      ensures messages == old(Pending(index))
      ensures forall m :: m in messages ==> m.1 != index
    {
      messages := Without(messages, index);
    }
  }
}
