/**
 * The webhook bridge's request pipeline: the POST /event handler that
 * forwards each request body to an SNS topic, maps the publish outcome to
 * an HTTP status, and keeps two process-wide counters (messages received
 * and messages that ended in an error).
 *
 * The body read and the remote publish are inputs: whether the read
 * succeeded, the bytes it produced, and which outcome the publish returned.
 */
module Hermes {
  import opened Wrappers
  import Arn

  newtype byte = x: int | 0 <= x < 256

  /** HTTP status codes (RFC 9110, sections 15.3.5, 15.6.1 and 15.6.3). */
  const StatusNoContent: nat := 204
  const StatusInternalServerError: nat := 500
  const StatusBadGateway: nat := 502

  /** The response body written on every publish failure. */
  const ErrorBody: string := "ERR"

  /**
   * What the publish call returned. The SDK's error values are told apart by
   * interface: an awserr.RequestFailure (a failure the remote service reported,
   * with its HTTP status and request id) is also an awserr.Error; an
   * awserr.Error that is not a RequestFailure is a client or library error;
   * any other error is unclassified.
   */
  datatype PublishOutcome =
    | Published
    | RequestFailure(code: string, message: string, statusCode: int, requestId: string)
    | AwsError(code: string, message: string)
    | OtherError(message: string)
  {
    /** Whether the value satisfies the awserr.Error interface. */
    predicate IsAwsError() { RequestFailure? || AwsError? }

    /** Whether the value satisfies the awserr.RequestFailure interface. */
    predicate IsRequestFailure() { RequestFailure? }
  }

  /** The parameters of an SNS Publish call. */
  datatype PublishInput = PublishInput(message: seq<byte>, topicArn: string)

  /** A publish as it leaves the process: the client's region and the parameters. */
  datatype SnsCall = SnsCall(region: string, input: PublishInput)

  /** An HTTP response the handler writes. */
  datatype Response = Response(status: nat, body: string)

  /** One handled request, as far as its inputs go. */
  datatype Request = Request(readOk: bool, body: seq<byte>, outcome: PublishOutcome)

  /** The observable side effects of the handler, in the order they happen. */
  datatype Effect =
    | IncReceived
    | IncErrored
    | Publish(call: SnsCall)
    | Respond(response: Response)

  /** The two counters. */
  datatype Counters = Counters(received: nat, errored: nat)

  /** forwardToSNS: the client is configured with the region, the body is the message. */
  function ForwardToSns(region: string, topicArn: string, data: seq<byte>): (c: SnsCall)
    ensures c.region == region
    ensures c.input.message == data && c.input.topicArn == topicArn
  {
    SnsCall(region, PublishInput(data, topicArn))
  }

  /** A request ends in an error when its body cannot be read or its publish fails. */
  predicate Failed(readOk: bool, outcome: PublishOutcome)
  {
    !readOk || !outcome.Published?
  }

  /**
   * The response each kind of request gets, written as a flat table:
   * none on a read failure, 204 with an empty body on success, 500 for a
   * remote-service failure, 502 for another AWS error and 500 for an
   * unclassified error.
   */
  function Reply(readOk: bool, outcome: PublishOutcome): (r: Option<Response>)
    ensures r.None? <==> !readOk
    ensures r == Some(Response(StatusNoContent, "")) <==> !Failed(readOk, outcome)
    ensures r.Some? && r.value.status != StatusNoContent <==> readOk && Failed(readOk, outcome)
    ensures r.Some? && Failed(readOk, outcome) ==> r.value.body == ErrorBody
  {
    if !readOk then None
    else match outcome
      case Published => Some(Response(StatusNoContent, ""))
      case RequestFailure(_, _, _, _) => Some(Response(StatusInternalServerError, ErrorBody))
      case AwsError(_, _) => Some(Response(StatusBadGateway, ErrorBody))
      case OtherError(_) => Some(Response(StatusInternalServerError, ErrorBody))
  }

  /**
   * The side effects of one handled request, in order. The received counter
   * goes first; on a publish failure the response is written before the
   * error counter is incremented.
   */
  function RequestEffects(readOk: bool, outcome: PublishOutcome, call: SnsCall): (effects: seq<Effect>)
  {
    if !readOk then [IncReceived, IncErrored]
    else
      var respond := Respond(Reply(readOk, outcome).value);
      if outcome.Published? then [IncReceived, Publish(call), respond]
      else [IncReceived, Publish(call), respond, IncErrored]
  }

  /**
   * Every request begins by counting itself, counts itself once, counts an
   * error exactly when it fails and then only once, and publishes and
   * responds only when its body was read.
   */
  lemma RequestEffectsOrder(readOk: bool, outcome: PublishOutcome, call: SnsCall)
    ensures var e := RequestEffects(readOk, outcome, call);
      && |e| >= 2 && e[0] == IncReceived && IncReceived !in e[1..]
      && (IncErrored in e <==> Failed(readOk, outcome))
      && (forall i, j :: 0 <= i < j < |e| && e[i] == IncErrored ==> e[j] != IncErrored)
      && (Publish(call) in e <==> readOk)
      && (forall i :: 0 <= i < |e| && e[i].Respond? ==> readOk && i == 2)
      && (readOk ==> e[1] == Publish(call) && e[2] == Respond(Reply(readOk, outcome).value))
  {
  }

  /** The counters after one more request. */
  function Account(c: Counters, r: Request): (d: Counters)
  {
    Counters(c.received + 1, c.errored + if Failed(r.readOk, r.outcome) then 1 else 0)
  }

  /** The counters after a sequence of requests, starting from zero. */
  function Tally(reqs: seq<Request>): (c: Counters)
  {
    if reqs == [] then Counters(0, 0)
    else Account(Tally(reqs[..|reqs| - 1]), reqs[|reqs| - 1])
  }

  /** Handling one more request accounts for it on top of the earlier ones. */
  lemma TallySnoc(reqs: seq<Request>, r: Request)
    ensures Tally(reqs + [r]) == Account(Tally(reqs), r)
  {
    assert (reqs + [r])[..|reqs|] == reqs;
  }

  /** The number of requests in `reqs` that end in an error. */
  function FailureCount(reqs: seq<Request>): (n: nat)
  {
    if reqs == [] then 0
    else (if Failed(reqs[0].readOk, reqs[0].outcome) then 1 else 0) + FailureCount(reqs[1..])
  }

  /** Failures add up over a concatenation of request sequences. */
  lemma {:induction false} FailureCountAppend(xs: seq<Request>, ys: seq<Request>)
    ensures FailureCount(xs + ys) == FailureCount(xs) + FailureCount(ys)
  {
    if xs == [] {
      assert xs + ys == ys;
    } else {
      assert (xs + ys)[0] == xs[0] && (xs + ys)[1..] == xs[1..] + ys;
      FailureCountAppend(xs[1..], ys);
    }
  }

  /** At most every request fails. */
  lemma {:induction false} FailureCountBound(reqs: seq<Request>)
    ensures FailureCount(reqs) <= |reqs|
  {
    if reqs != [] {
      FailureCountBound(reqs[1..]);
    }
  }

  /**
   * After any sequence of requests the received counter equals the number
   * of requests and the error counter the number of failing ones, so the
   * error counter never exceeds the received counter.
   */
  lemma {:induction false} TallyCounts(reqs: seq<Request>)
    ensures Tally(reqs) == Counters(|reqs|, FailureCount(reqs))
    ensures Tally(reqs).errored <= Tally(reqs).received
  {
    if reqs != [] {
      var init, last := reqs[..|reqs| - 1], reqs[|reqs| - 1];
      TallyCounts(init);
      assert reqs == init + [last];
      FailureCountAppend(init, [last]);
      assert FailureCount([last]) == if Failed(last.readOk, last.outcome) then 1 else 0;
    }
    FailureCountBound(reqs);
  }

  /**
   * Both counters only grow as requests are handled: after k of the requests
   * the received counter is exactly |reqs| - k behind its final value and the
   * error counter at most that much.
   */
  lemma TallyMonotone(reqs: seq<Request>, k: nat)
    requires k <= |reqs|
    ensures Tally(reqs[..k]).received + (|reqs| - k) == Tally(reqs).received
    ensures Tally(reqs[..k]).errored <= Tally(reqs).errored <= Tally(reqs[..k]).errored + (|reqs| - k)
  {
    TallyCounts(reqs[..k]);
    TallyCounts(reqs);
    TallyCounts(reqs[k..]);
    assert reqs == reqs[..k] + reqs[k..];
    FailureCountAppend(reqs[..k], reqs[k..]);
    FailureCountBound(reqs[k..]);
  }

  /**
   * The service's process-wide state: the configured topic, the region
   * inflected from it, and the two counters. The ghost fields record every
   * request handled and every side effect, in order.
   */
  class Service {
    const topicArn: string
    var region: string
    var messagesReceived: nat
    var messagesErrored: nat
    ghost var history: seq<Request>
    ghost var trace: seq<Effect>

    /** The counters are the tally of the requests handled so far. */
    ghost predicate Valid()
      reads this
      ensures Valid() ==> messagesErrored <= messagesReceived
    {
      TallyCounts(history);
      messagesReceived == Tally(history).received && messagesErrored == Tally(history).errored
    }

    /** A fresh process: the configured topic, no region yet, zero counters. */
    constructor (topicArn: string)
      ensures Valid()
      ensures this.topicArn == topicArn && region == ""
      ensures messagesReceived == 0 && messagesErrored == 0
      ensures history == [] && trace == []
    {
      this.topicArn := topicArn;
      region := "";
      messagesReceived, messagesErrored := 0, 0;
      history, trace := [], [];
    }

    /**
     * inflectRegionFromARN: stores the ARN's region field, or reports the
     * fatal message and leaves the region alone when the ARN does not have
     * exactly six fields.
     */
    method InflectRegionFromArn(arn: string) returns (fatal: Option<string>)
      modifies this`region
      ensures fatal.None? <==> Arn.Occurrences(arn, Arn.Colon) == Arn.ArnFields - 1
      ensures fatal.Some? ==> fatal.value == Arn.FatalMessage && region == old(region)
      ensures fatal.None? ==> Some(region) == Arn.InflectRegion(arn) && Arn.Colon !in region
    {
      var inflected := Arn.InflectRegion(arn);
      if inflected.None? {
        return Some(Arn.FatalMessage);
      }
      region := inflected.value;
      fatal := None;
    }

    /**
     * The POST /event handler. Counts the request, reads the body (the read's
     * success and bytes are inputs), publishes it, classifies the publish
     * outcome by its error interfaces and answers. Returns the response
     * written, if any, and the publish call made, if any.
     */
    method HandleEvent(readOk: bool, body: seq<byte>, outcome: PublishOutcome)
      returns (response: Option<Response>, call: Option<SnsCall>)
      requires Valid()
      requires Arn.InflectRegion(topicArn) == Some(region)
      modifies this`messagesReceived, this`messagesErrored, this`history, this`trace
      ensures Valid()
      ensures messagesReceived == old(messagesReceived) + 1
      ensures messagesErrored == old(messagesErrored) + if Failed(readOk, outcome) then 1 else 0
      ensures response == Reply(readOk, outcome)
      ensures call == if readOk then Some(SnsCall(region, PublishInput(body, topicArn))) else None
      ensures history == old(history) + [Request(readOk, body, outcome)]
      ensures trace == old(trace) + RequestEffects(readOk, outcome, ForwardToSns(region, topicArn, body))
    {
      response, call := None, None;
      ghost var request := Request(readOk, body, outcome);
      ghost var expected := RequestEffects(readOk, outcome, ForwardToSns(region, topicArn, body));
      // The side effects of this request in the order they happen; recorded on return.
      ghost var effects: seq<Effect> := [];

      messagesReceived := messagesReceived + 1;
      effects := effects + [IncReceived];

      if !readOk {
        messagesErrored := messagesErrored + 1;
        effects := effects + [IncErrored];
        assert effects == expected;
        Record(request, effects);
        return;
      }

      var forwarded := ForwardToSns(region, topicArn, body);
      call := Some(forwarded);
      effects := effects + [Publish(forwarded)];

      if !outcome.Published? {
        if outcome.IsAwsError() {
          if outcome.IsRequestFailure() {
            response := Some(Response(StatusInternalServerError, ErrorBody));
            effects := effects + [Respond(response.value)];
            messagesErrored := messagesErrored + 1;
            effects := effects + [IncErrored];
            assert effects == expected;
            Record(request, effects);
            return;
          }
          response := Some(Response(StatusBadGateway, ErrorBody));
          effects := effects + [Respond(response.value)];
        } else {
          response := Some(Response(StatusInternalServerError, ErrorBody));
          effects := effects + [Respond(response.value)];
        }
        messagesErrored := messagesErrored + 1;
        effects := effects + [IncErrored];
        assert effects == expected;
        Record(request, effects);
        return;
      }

      response := Some(Response(StatusNoContent, ""));
      effects := effects + [Respond(response.value)];
      assert effects == expected;
      Record(request, effects);
    }

    /**
     * Appends a handled request and its side effects to the ghost record,
     * once the counters have been updated for it.
     */
    ghost method Record(request: Request, effects: seq<Effect>)
      requires Counters(messagesReceived, messagesErrored) == Account(Tally(history), request)
      modifies this`history, this`trace
      ensures Valid()
      ensures history == old(history) + [request] && trace == old(trace) + effects
    {
      TallySnoc(history, request);
      history := history + [request];
      assert Tally(history) == Counters(messagesReceived, messagesErrored);
      trace := trace + effects;
    }
  }

  /** The bytes of the request body {"hello":"world"}. */
  const Hello: seq<byte> := [123, 34, 104, 101, 108, 108, 111, 34, 58, 34, 119, 111, 114, 108, 100, 34, 125]

  /**
   * A client of the handler: a service configured with the example topic
   * forwards the body {"hello":"world"}, then sees a remote-service failure
   * and a client error.
   */
  method ExampleSession(topic: string)
    returns (replies: seq<Option<Response>>, forwarded: Option<SnsCall>, received: nat, errored: nat)
    requires topic == "arn:aws:sns:us-west-2:123456789012:my-topic"
    ensures replies == [Some(Response(StatusNoContent, "")),
                        Some(Response(StatusInternalServerError, ErrorBody)),
                        Some(Response(StatusBadGateway, ErrorBody))]
    ensures forwarded == Some(SnsCall("us-west-2", PublishInput(Hello, topic)))
    ensures received == 3 && errored == 2
  {
    var service := new Service(topic);
    var fatal := service.InflectRegionFromArn(topic);
    Arn.ExampleArn(topic);
    assert service.region == "us-west-2";
    var r1, c1 := service.HandleEvent(true, Hello, Published);
    var r2, _ := service.HandleEvent(true, Hello, RequestFailure("InternalError", "boom", 500, "req-1"));
    var r3, _ := service.HandleEvent(true, Hello, AwsError("RequestError", "send request failed"));
    forwarded := c1;
    replies := [r1, r2, r3];
    received, errored := service.messagesReceived, service.messagesErrored;
  }
}
