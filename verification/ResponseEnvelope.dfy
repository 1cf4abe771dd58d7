/**
 * The outermost middleware (backend/app/middleware/privacy_safe_observability.py): it puts the correlation id on every
 * response and finishes what an application that raises leaves open.
 */
module ResponseEnvelope {
  type Header = (string, string)

  /** The headers of a start message: left out, a list, or another iterable. */
  datatype Headers = Missing | List(items: seq<Header>) | Iterable(items: seq<Header>)

  datatype Message = Start(status: nat, headers: Headers) | Body(data: string, more: bool) | Other(kind: string)

  /** How the wrapped application ended. */
  datatype Ending = Returned | DatabaseError | OtherError | Cancelled

  const CORRELATION_HEADER := "x-correlation-id"

  function LowerChar(c: char): char {
    if 'A' <= c <= 'Z' then c - 'A' + 'a' else c
  }

  function Lower(s: string): string {
    if s == [] then [] else [LowerChar(s[0])] + Lower(s[1..])
  }

  predicate IsCorrelation(h: Header) {
    Lower(h.0) == CORRELATION_HEADER
  }

  function Without(items: seq<Header>): seq<Header> {
    if items == [] then [] else (if IsCorrelation(items[0]) then [] else [items[0]]) + Without(items[1..])
  }

  /** `_replace_correlation_header`. */
  function Replaced(items: seq<Header>, id: string): seq<Header> {
    Without(items) + [(CORRELATION_HEADER, id)]
  }

  function Correlations(items: seq<Header>): seq<string> {
    if items == [] then [] else (if IsCorrelation(items[0]) then [items[0].1] else []) + Correlations(items[1..])
  }

  function ItemsOf(h: Headers): seq<Header> {
    if h.Missing? then [] else h.items
  }

  /** What the client is sent for a message of the application. */
  function Correlated(m: Message, id: string): Message {
    if m.Start? && !m.headers.Iterable? then m.(headers := List(Replaced(ItemsOf(m.headers), id))) else m
  }

  lemma {:induction false} CorrelationsOfConcat(a: seq<Header>, b: seq<Header>)
    ensures Correlations(a + b) == Correlations(a) + Correlations(b)
  {
    hide IsCorrelation;
    if a == [] {
      assert a + b == b;
    } else {
      assert (a + b)[1..] == a[1..] + b;
      CorrelationsOfConcat(a[1..], b);
    }
  }

  lemma {:induction false} WithoutHasNone(items: seq<Header>)
    ensures Correlations(Without(items)) == []
  {
    hide IsCorrelation;
    if items != [] {
      WithoutHasNone(items[1..]);
      CorrelationsOfConcat(if IsCorrelation(items[0]) then [] else [items[0]], Without(items[1..]));
      assert [items[0]][1..] == [];
    }
  }

  lemma OwnHeaderCounts(id: string)
    ensures IsCorrelation((CORRELATION_HEADER, id))
  {
    hide Lower;
    LowerIsItself(CORRELATION_HEADER);
  }

  lemma OneHeader(h: Header)
    requires IsCorrelation(h)
    ensures Correlations([h]) == [h.1] && Without([h]) == []
  {
    hide IsCorrelation;
    assert [h][1..] == [];
  }

  lemma {:induction false} LowerIsItself(s: string)
    requires forall i :: 0 <= i < |s| ==> !('A' <= s[i] <= 'Z')
    ensures Lower(s) == s
  {
    if s != [] { LowerIsItself(s[1..]); }
  }

  /** Afterwards exactly one correlation header is there, with this id, and every other header as before, in order. */
  lemma ReplacedHasOne(items: seq<Header>, id: string)
    ensures Correlations(Replaced(items, id)) == [id]
    ensures Without(Replaced(items, id)) == Without(items)
  {
    hide IsCorrelation, Correlations, Without;
    var own := (CORRELATION_HEADER, id);
    WithoutHasNone(items);
    OwnHeaderCounts(id);
    OneHeader(own);
    CorrelationsOfConcat(Without(items), [own]);
    WithoutOfConcat(Without(items), [own]);
    WithoutTwice(items);
  }

  lemma {:induction false} WithoutOfConcat(a: seq<Header>, b: seq<Header>)
    ensures Without(a + b) == Without(a) + Without(b)
  {
    hide IsCorrelation;
    if a == [] {
      assert a + b == b;
    } else {
      assert (a + b)[1..] == a[1..] + b;
      WithoutOfConcat(a[1..], b);
    }
  }

  lemma {:induction false} WithoutTwice(items: seq<Header>)
    ensures Without(Without(items)) == Without(items)
  {
    hide IsCorrelation;
    if items != [] {
      WithoutTwice(items[1..]);
      WithoutOfConcat(if IsCorrelation(items[0]) then [] else [items[0]], Without(items[1..]));
      assert [items[0]][1..] == [];
    }
  }

  predicate Final(m: Message) {
    m.Body? && !m.more
  }

  function Forwarded(sends: seq<Message>, id: string): seq<Message> {
    seq(|sends|, i requires 0 <= i < |sends| => Correlated(sends[i], id))
  }

  predicate HasStart(sends: seq<Message>) {
    exists i :: 0 <= i < |sends| && sends[i].Start?
  }

  predicate HasFinal(sends: seq<Message>) {
    exists i :: 0 <= i < |sends| && Final(sends[i])
  }

  function ErrorText(ending: Ending, id: string): string {
    var (code, message) :=
      if ending.DatabaseError? then
        ("dependency_unavailable", "A required service dependency is temporarily unavailable.")
      else ("internal_error", "The service could not complete the request.");
    "{\"error\":{\"code\":\"" + code + "\",\"message\":\"" + message
    + "\",\"issues\":[],\"correlation_id\":\"" + id + "\"}}"
  }

  function ErrorStatus(ending: Ending): nat {
    if ending.DatabaseError? then 503 else 500
  }

  function ErrorHeaders(id: string): seq<Header> {
    [(CORRELATION_HEADER, id), ("content-type", "application/json")]
  }

  /** All that the client is sent. */
  function Envelope(sends: seq<Message>, ending: Ending, id: string): seq<Message> {
    Forwarded(sends, id) +
    if ending.Returned? || ending.Cancelled? then []
    else if HasStart(sends) then (if HasFinal(sends) then [] else [Body("", false)])
    else [Correlated(Start(ErrorStatus(ending), List(ErrorHeaders(id))), id), Body(ErrorText(ending, id), false)]
  }

  class Exchange {
    const id: string
    var responseStarted: bool
    var responseComplete: bool
    var sent: seq<Message>

    constructor (id: string)
      ensures this.id == id && !responseStarted && !responseComplete && sent == []
    {
      this.id, responseStarted, responseComplete, sent := id, false, false, [];
    }

    method SendWithCorrelation(m: Message)
      modifies this
      ensures sent == old(sent) + [Correlated(m, id)]
      ensures responseStarted == (old(responseStarted) || m.Start?)
      ensures responseComplete == (old(responseComplete) || Final(m))
    {
      var message := m;
      if m.Start? {
        responseStarted := true;
        if m.headers.Missing? { message := message.(headers := List([])); }
        if message.headers.List? {
          message := message.(headers := List(Replaced(message.headers.items, id)));
        }
      } else if m.Body? && !m.more {
        responseComplete := true;
      }
      sent := sent + [message];
    }

    method FinishStartedResponse()
      modifies this`sent
      ensures sent == old(sent) + if responseComplete then [] else [Body("", false)]
    {
      if !responseComplete {
        sent := sent + [Body("", false)];
      }
    }

    method SendSafeFailure(ending: Ending)
      modifies this
      ensures sent == old(sent) + [Correlated(Start(ErrorStatus(ending), List(ErrorHeaders(id))), id),
                                   Body(ErrorText(ending, id), false)]
    {
      hide ErrorText, ErrorHeaders, Replaced;
      SendWithCorrelation(Start(ErrorStatus(ending), List(ErrorHeaders(id))));
      SendWithCorrelation(Body(ErrorText(ending, id), false));
    }

    /** `__call__`, for an application that sends these messages and then ends so. */
    method Call(sends: seq<Message>, ending: Ending) returns (raised: bool)
      requires !responseStarted && !responseComplete && sent == []
      modifies this
      ensures sent == Envelope(sends, ending, id) && raised == ending.Cancelled?
    {
      hide ErrorText, ErrorHeaders, Correlated;
      for i := 0 to |sends|
        invariant sent == Forwarded(sends[..i], id)
        invariant responseStarted == HasStart(sends[..i]) && responseComplete == HasFinal(sends[..i])
      {
        SendWithCorrelation(sends[i]);
        assert sends[..i + 1] == sends[..i] + [sends[i]];
        OneMore(sends[..i], sends[i], id);
      }
      assert sends[..|sends|] == sends;
      raised := ending.Cancelled?;
      if ending.DatabaseError? || ending.OtherError? {
        if responseStarted {
          FinishStartedResponse();
        } else {
          SendSafeFailure(ending);
        }
      }
    }
  }

  lemma OneMore(sends: seq<Message>, m: Message, id: string)
    ensures Forwarded(sends + [m], id) == Forwarded(sends, id) + [Correlated(m, id)]
    ensures HasStart(sends + [m]) == (HasStart(sends) || m.Start?)
    ensures HasFinal(sends + [m]) == (HasFinal(sends) || Final(m))
  {
    hide Correlated;
    var more := sends + [m];
    assert more[|sends|] == m;
    forall i | 0 <= i < |sends| ensures more[i] == sends[i] {}
  }

  /** What the ASGI specification lets an application have sent: a start, then bodies, none after the last. */
  predicate WellFormed(sends: seq<Message>) {
    && (sends != [] ==> sends[0].Start?)
    && (forall i :: 0 < i < |sends| ==> sends[i].Body?)
    && (forall i :: 0 < i < |sends| - 1 ==> sends[i].Body? && sends[i].more)
  }

  /**
   * An application that raises an exception at any point of a well-formed exchange leaves the client with one complete
   * response, which begins with all that the application had sent: one start, then bodies, the last of which and no
   * other is final.
   */
  lemma ErrorsLeaveACompleteResponse(sends: seq<Message>, ending: Ending, id: string)
    requires WellFormed(sends) && (ending.DatabaseError? || ending.OtherError?)
    ensures var all := Envelope(sends, ending, id);
      && |all| >= 2 && all[0].Start? && all[|all| - 1].Body? && !all[|all| - 1].more
      && (forall i :: 0 < i < |all| - 1 ==> all[i].Body? && all[i].more)
    ensures Forwarded(sends, id) <= Envelope(sends, ending, id)
    ensures sends == [] ==> Envelope(sends, ending, id)[0].status == if ending.DatabaseError? then 503 else 500
  {
    hide ErrorText, ErrorHeaders, Replaced;
    var all := Envelope(sends, ending, id);
    if sends != [] {
      assert HasStart(sends) && sends[0].Start?;
      if HasFinal(sends) {
        var i :| 0 <= i < |sends| && Final(sends[i]);
        assert i == |sends| - 1;
      } else {
        assert !Final(sends[|sends| - 1]);
      }
    }
  }

  /**
   * Its start carries exactly one correlation header, with this exchange's id, unless the application passed headers
   * that are not a list; those are sent as they are.
   */
  lemma OneCorrelationHeader(sends: seq<Message>, ending: Ending, id: string)
    requires WellFormed(sends) && (ending.DatabaseError? || ending.OtherError?)
    ensures var all := Envelope(sends, ending, id);
      && |all| > 0 && all[0].Start?
      && (Correlations(ItemsOf(all[0].headers)) == [id] <==>
            sends == [] || !sends[0].headers.Iterable? || Correlations(sends[0].headers.items) == [id])
  {
    hide ErrorText, ErrorHeaders, Replaced, Correlations;
    ErrorsLeaveACompleteResponse(sends, ending, id);
    if sends == [] {
      ReplacedHasOne(ErrorHeaders(id), id);
    } else {
      assert HasStart(sends) && sends[0].Start?;
      ReplacedHasOne(ItemsOf(sends[0].headers), id);
    }
  }

  /** An application that sends a tuple of headers without the correlation header gets a response without one. */
  lemma TupleHeadersStayUncorrelated(id: string)
    ensures var sends := [Start(200, Iterable([])), Body("", false)];
      WellFormed(sends) && Correlations(ItemsOf(Envelope(sends, OtherError, id)[0].headers)) == []
  {
    var sends := [Start(200, Iterable([])), Body("", false)];
    assert HasStart(sends) && HasFinal(sends) by { assert sends[0].Start? && Final(sends[1]); }
    assert Envelope(sends, OtherError, id)[0] == sends[0];
  }

  // ---- what is sent, message by message ----

  /** Lower case touches the letters A to Z only. */
  lemma {:induction false} LowerMeans(s: string)
    ensures |Lower(s)| == |s|
    ensures forall i :: 0 <= i < |s| ==>
              Lower(s)[i] == if 'A' <= s[i] <= 'Z' then (s[i] as int + 32) as char else s[i]
  {
    if s != [] { LowerMeans(s[1..]); }
  }

  /** The header that is replaced, in whatever case it is written. */
  lemma CorrelationMeans(h: Header)
    ensures IsCorrelation(h) <==> Lower(h.0) == "x-correlation-id"
  {}

  /** The other headers: each as often as before. */
  lemma {:induction false} OthersStay(items: seq<Header>, h: Header)
    ensures multiset(Without(items))[h] == if IsCorrelation(h) then 0 else multiset(items)[h]
  {
    if items != [] {
      OthersStay(items[1..], h);
      assert items == [items[0]] + items[1..];
    }
  }

  /** And in their order. */
  lemma {:induction false} OthersStayInOrder(a: seq<Header>, x: Header, b: seq<Header>, y: Header, c: seq<Header>)
    requires !IsCorrelation(x) && !IsCorrelation(y)
    ensures Without(a + [x] + b + [y] + c) == Without(a) + [x] + Without(b) + [y] + Without(c)
  {
    hide Without, IsCorrelation;
    WithoutOfConcat(a + [x] + b + [y], c);
    WithoutOfConcat(a + [x] + b, [y]);
    WithoutOfConcat(a + [x], b);
    WithoutOfConcat(a, [x]);
    KeptAlone(x);
    KeptAlone(y);
  }

  lemma KeptAlone(h: Header)
    requires !IsCorrelation(h)
    ensures Without([h]) == [h]
  {}

  /**
   * What is sent for each message of the application, in its place: a body and any other message as it is, and a
   * start with its status; a start's headers without the correlation header, and then that with this id, but headers
   * that are not a list as they are.
   */
  lemma ForwardedMessages(sends: seq<Message>, ending: Ending, id: string, i: nat)
    requires i < |sends|
    ensures var all := Envelope(sends, ending, id);
      && i < |all|
      && (!sends[i].Start? ==> all[i] == sends[i])
      && (sends[i].Start? && sends[i].headers.Iterable? ==> all[i] == sends[i])
      && (sends[i].Start? && sends[i].headers.Missing? ==>
           all[i] == Start(sends[i].status, List([("x-correlation-id", id)])))
      && (sends[i].Start? && sends[i].headers.List? ==>
           all[i] == Start(sends[i].status, List(Without(sends[i].headers.items) + [("x-correlation-id", id)])))
  {
    hide Without, ErrorText, ErrorHeaders;
    NoHeaders();
    assert Replaced([], id) == [("x-correlation-id", id)];
  }

  lemma NoHeaders()
    ensures Without([]) == []
  {}

  /** Nothing is added after a normal return or a cancellation, nor after a final body. */
  lemma NothingAdded(sends: seq<Message>, ending: Ending, id: string)
    ensures ending.Returned? || ending.Cancelled? ==> |Envelope(sends, ending, id)| == |sends|
    ensures (exists i :: 0 <= i < |sends| && sends[i].Start?)
            && (exists i :: 0 <= i < |sends| && sends[i].Body? && !sends[i].more) ==>
              |Envelope(sends, ending, id)| == |sends|
  {
    hide Correlated, ErrorText, ErrorHeaders;
    if i :| 0 <= i < |sends| && sends[i].Body? && !sends[i].more { assert Final(sends[i]); }
  }

  /** After an exception, a response that was started and not finished is finished with an empty body. */
  lemma OnlyFinished(sends: seq<Message>, ending: Ending, id: string)
    requires ending.DatabaseError? || ending.OtherError?
    requires exists i :: 0 <= i < |sends| && sends[i].Start?
    requires forall i :: 0 <= i < |sends| ==> !(sends[i].Body? && !sends[i].more)
    ensures Envelope(sends, ending, id)[|sends|..] == [Body("", false)]
  {
    hide Correlated, ErrorText, ErrorHeaders;
  }

  /** And one that was not started is the safe failure: its status, headers and text. */
  lemma SafeFailure(sends: seq<Message>, ending: Ending, id: string)
    requires ending.DatabaseError? || ending.OtherError?
    requires forall i :: 0 <= i < |sends| ==> !sends[i].Start?
    ensures Envelope(sends, ending, id)[|sends|..]
         == [Start(if ending.DatabaseError? then 503 else 500,
                   List([("content-type", "application/json"), ("x-correlation-id", id)])),
             Body("{\"error\":{\"code\":\""
                  + (if ending.DatabaseError? then "dependency_unavailable" else "internal_error")
                  + "\",\"message\":\""
                  + (if ending.DatabaseError? then "A required service dependency is temporarily unavailable."
                     else "The service could not complete the request.")
                  + "\",\"issues\":[],\"correlation_id\":\"" + id + "\"}}", false)]
  {
    hide Without, IsCorrelation, ErrorHeaders, ErrorText;
    FailureHeaders(id);
    FailureText(ending, id);
    assert !HasStart(sends);
    var start := Correlated(Start(ErrorStatus(ending), List(ErrorHeaders(id))), id);
    assert Envelope(sends, ending, id) == Forwarded(sends, id) + [start, Body(ErrorText(ending, id), false)];
    assert Replaced(ErrorHeaders(id), id) == [("content-type", "application/json"), ("x-correlation-id", id)];
  }

  lemma FailureText(ending: Ending, id: string)
    ensures ErrorText(ending, id)
         == "{\"error\":{\"code\":\""
            + (if ending.DatabaseError? then "dependency_unavailable" else "internal_error")
            + "\",\"message\":\""
            + (if ending.DatabaseError? then "A required service dependency is temporarily unavailable."
               else "The service could not complete the request.")
            + "\",\"issues\":[],\"correlation_id\":\"" + id + "\"}}"
  {}

  lemma FailureHeaders(id: string)
    ensures Without(ErrorHeaders(id)) == [("content-type", "application/json")]
  {
    hide Lower, Without;
    OwnHeaderGoes(id);
    LowerMeans("content-type");
    assert |"content-type"| == 12 && |CORRELATION_HEADER| == 16;
    var other := ("content-type", "application/json");
    KeptAlone(other);
    WithoutOfConcat([(CORRELATION_HEADER, id)], [other]);
    assert ErrorHeaders(id) == [(CORRELATION_HEADER, id)] + [other];
  }

  lemma OwnHeaderGoes(id: string)
    ensures Without([(CORRELATION_HEADER, id)]) == []
  {
    OwnHeaderCounts(id);
  }
}
