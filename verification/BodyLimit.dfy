/** The request body limit (backend/app/middleware/request_body_limit.py). */
module BodyLimit {
  import opened Outcomes

  /** A received message; `size` is zero when the body is missing or not bytes. */
  datatype Message = Request(size: nat, more: bool) | Disconnect | Other(kind: string)

  /** Answered with 413, passed on with these messages to replay, or still waiting for a message when input ends. */
  datatype Decision = TooLarge | PassedOn(messages: seq<Message>) | Waiting

  const CONTENT_LENGTH := "content-length"

  /** The `i`th header is the first that is called content-length. */
  predicate First(headers: seq<(string, string)>, lower: string -> string, i: nat) {
    && i < |headers| && lower(headers[i].0) == CONTENT_LENGTH
    && forall j :: 0 <= j < i ==> lower(headers[j].0) != CONTENT_LENGTH
  }

  /** `_declared_content_length`: a length is declared exactly when the first such header reads as a natural number. */
  method DeclaredContentLength(headers: seq<(string, string)>, lower: string -> string, parse: string -> Option<int>)
    returns (declared: Option<nat>)
    ensures forall v: nat ::
              declared == Some(v)
              <==> exists i: nat :: First(headers, lower, i) && parse(headers[i].1) == Some(v as int)
  {
    for i := 0 to |headers|
      invariant forall j :: 0 <= j < i ==> lower(headers[j].0) != CONTENT_LENGTH
    {
      if lower(headers[i].0) == CONTENT_LENGTH {
        var value := parse(headers[i].1);
        assert First(headers, lower, i) && forall j: nat :: First(headers, lower, j) ==> j == i;
        return if value.Some? && value.value >= 0 then Some(value.value) else None;
      }
    }
    declared := None;
  }

  /** The message after which nothing more is read. */
  predicate Ends(m: Message) {
    !m.Request? || !m.more
  }

  function Total(ms: seq<Message>): nat {
    if ms == [] then 0
    else Total(ms[..|ms| - 1]) + if ms[|ms| - 1].Request? then ms[|ms| - 1].size else 0
  }

  /** The first `n` messages are read: none of them but perhaps the last ends the body. */
  predicate ReadOn(input: seq<Message>, n: nat) {
    n <= |input| && forall i :: 0 <= i < n - 1 ==> !Ends(input[i])
  }

  /** The whole body is read with the first `n` messages. */
  predicate Whole(input: seq<Message>, n: nat) {
    ReadOn(input, n) && n > 0 && Ends(input[n - 1])
  }

  lemma {:induction false} TotalGrows(ms: seq<Message>, m: nat, n: nat)
    requires m <= n <= |ms|
    ensures Total(ms[..m]) <= Total(ms[..n])
  {
    if m < n {
      assert ms[..n][..n - 1] == ms[..n - 1];
      TotalGrows(ms, m, n - 1);
    }
  }

  /** `__call__` up to the call of the application; `input` is what `receive` yields. */
  method Limit(input: seq<Message>, declared: Option<nat>, max: nat) returns (decision: Decision)
    ensures decision.TooLarge? <==>
              || (declared.Some? && declared.value > max)
              || exists n :: 0 <= n <= |input| && ReadOn(input, n) && Total(input[..n]) > max
    ensures decision.PassedOn? ==>
              exists n :: 0 <= n <= |input| && Whole(input, n) && Total(input[..n]) <= max
                          && decision.messages == input[..n]
    ensures decision.Waiting? ==> forall i :: 0 <= i < |input| ==> !Ends(input[i])
  {
    if declared.Some? && declared.value > max { return TooLarge; }
    var messages, received := [], 0;
    while |messages| < |input|
      invariant |messages| <= |input| && messages == input[..|messages|] && received == Total(messages) <= max
      invariant forall i :: 0 <= i < |messages| ==> !Ends(input[i])
    {
      var n := |messages| + 1;
      var message := input[|messages|];
      assert input[..n][..n - 1] == messages;
      messages := messages + [message];
      if !message.Request? {
        WholeDecides(input, n, max);
        return PassedOn(messages);
      }
      received := received + message.size;
      if received > max {
        assert ReadOn(input, n) && Total(input[..n]) > max;
        return TooLarge;
      }
      if !message.more {
        WholeDecides(input, n, max);
        return PassedOn(messages);
      }
    }
    forall n | 0 <= n <= |input| ensures Total(input[..n]) <= max {
      TotalGrows(input, n, |input|);
    }
    decision := Waiting;
  }

  /** Nothing is read past a whole body, so its total decides. */
  lemma WholeDecides(input: seq<Message>, n: nat, max: nat)
    requires Whole(input, n) && Total(input[..n]) <= max
    ensures forall k :: 0 <= k <= |input| && ReadOn(input, k) ==> k <= n && Total(input[..k]) <= max
  {
    assert Ends(input[n - 1]);
    forall k | 0 <= k <= |input| && ReadOn(input, k) ensures k <= n {}
    forall k | 0 <= k <= n ensures Total(input[..k]) <= max {
      TotalGrows(input, k, n);
    }
  }

  /** What an application is given that receives `n` times: the messages read, and then disconnects. */
  function Replayed(messages: seq<Message>, n: nat): seq<Message> {
    seq(n, i => if 0 <= i < |messages| then messages[i] else Disconnect)
  }

  class Replay {
    const messages: seq<Message>
    var messageIndex: nat
    /** All that was given so far. */
    ghost var given: seq<Message>

    ghost predicate Valid()
      reads this
    {
      && given == Replayed(messages, |given|)
      && messageIndex == if |given| <= |messages| then |given| else |messages|
    }

    constructor (messages: seq<Message>)
      ensures Valid() && this.messages == messages && given == []
    {
      this.messages, messageIndex, given := messages, 0, [];
    }

    /** `replay_receive`. */
    method Receive() returns (m: Message)
      requires Valid()
      modifies this
      ensures Valid() && given == old(given) + [m]
      ensures m == if |old(given)| < |messages| then messages[|old(given)|] else Disconnect
    {
      if messageIndex < |messages| {
        m := messages[messageIndex];
        messageIndex := messageIndex + 1;
      } else {
        m := Disconnect;
      }
      given := given + [m];
    }
  }

  /** Every message read is given once and in order before the first disconnect that was not read. */
  lemma ReplayIsFaithful(messages: seq<Message>, n: nat)
    ensures n <= |messages| ==> Replayed(messages, n) == messages[..n]
    ensures n > |messages| ==> Replayed(messages, n)[..|messages|] == messages
    ensures forall i :: |messages| <= i < n ==> Replayed(messages, n)[i] == Disconnect
  {}

  /** What is counted: the bytes of request bodies. */
  lemma TotalMeans(ms: seq<Message>, m: Message)
    ensures Total([]) == 0
    ensures Total(ms + [m]) == Total(ms) + if m.Request? then m.size else 0
  {
    assert (ms + [m])[..|ms|] == ms;
  }

  /** A whole body: requests that announce more, and one message that does not. */
  lemma WholeMeans(input: seq<Message>, n: nat)
    ensures Whole(input, n) <==>
              && 0 < n <= |input|
              && (forall i :: 0 <= i < n - 1 ==> input[i].Request? && input[i].more)
              && !(input[n - 1].Request? && input[n - 1].more)
    ensures ReadOn(input, n) <==>
              n <= |input| && forall i :: 0 <= i < n - 1 ==> input[i].Request? && input[i].more
    ensures CONTENT_LENGTH == "content-length"
  {}
}
