# sns-hermes, modelled in Dafny

sns-hermes is a webhook-to-SNS bridge. It accepts `POST /event`, publishes the
request body unchanged to one configured SNS topic, answers with an HTTP status,
and keeps two Prometheus counters: messages received and messages that ended in
an error. At startup it derives the AWS region from the topic ARN and exits if
the ARN does not have six `:`-separated fields.

The model has three modules:

- `Wrappers` (`wrappers.dfy`): the `Option` type.
- `Arn` (`arn.dfy`): `inflectRegionFromARN`. `Split` follows Go's `strings.Split`
  with a one-character separator, and `Join` is its inverse. `InflectRegion` is
  the pure split-and-index step. The lemmas show that an ARN is accepted exactly
  when it has five colons. They also show that the region is exactly the
  colon-free text between the third and fourth colon, in both directions.
- `Hermes` (`hermes.dfy`): the `/event` handler. Class `Service` holds the
  process-wide state: the topic ARN, the region and the two counters. Two ghost
  fields record the requests handled so far (`history`) and every side effect
  in order (`trace`). `HandleEvent` follows the handler's nested type tests and
  early returns statement by statement. It is proved against three independent
  definitions:
  - `Reply`: a flat table from outcome to response.
  - `RequestEffects`: the ordered side effects of one request.
  - `Tally`: the counters after a sequence of requests.

  The object invariant `Valid()` says the counters equal `Tally(history)`. So
  after any sequence of calls the received counter is the number of requests,
  the error counter is the number of failing requests, and errors never exceed
  receipts.

The handler's inputs stand in for its I/O:

- whether reading the body succeeded;
- the bytes that were read;
- what the SNS publish returned. The publish outcome has four cases:
  - `Published` (nil error);
  - `RequestFailure`: an `awserr.RequestFailure`, which also satisfies
    `awserr.Error`;
  - `AwsError`: any other `awserr.Error`;
  - `OtherError`.

Status codes are those of RFC 9110:

- 204 No Content (section 15.3.5);
- 500 Internal Server Error (section 15.6.1);
- 502 Bad Gateway (section 15.6.3).

On a publish failure the handler writes the response (main.go:88, 92, 95)
before it increments the error counter (main.go:89, 97). `RequestEffects`
records that order.

The handler runs only in a process whose startup succeeded. `init` inflects the
region from the configured topic ARN (main.go:41) and exits otherwise, so
`HandleEvent` requires that the stored region is the one inflected from the
service's topic ARN. The order of startup and serving is not modelled beyond
that requirement.

When the body cannot be read, the handler writes no response. The model
returns `None` for that case. What the HTTP framework then sends by default is
outside the model.

## Model

| member | source | states |
|---|---|---|
| `Arn.Split` | main.go:113 | splitting on `:` gives one more part than there are colons, and no part contains a colon |
| `Arn.JoinSplit` | main.go:113 | joining the parts of a split with the separator gives back the original string, so splitting loses nothing |
| `Arn.SplitJoin` | main.go:113 | splitting the join of a non-empty list of separator-free parts gives back exactly those parts |
| `Arn.SplitAround` | main.go:113 | splitting `a + ":" + b` gives the parts of `a` followed by the parts of `b` |
| `Arn.InflectRegion` | main.go:112-118 | an ARN is accepted iff it has exactly five colons, i.e. splits into six parts; any other count, the empty string included, is the fatal case; an accepted region never contains a colon |
| `Arn.RegionBetweenColons` | main.go:113-117 | any colon-free text between the third and fourth colon of an ARN with five colons is the region inflected |
| `Arn.RegionLocated` | main.go:113-117 | conversely, an accepted ARN is its region framed by text holding two colons before it and one colon after it |
| `Arn.ExampleArn` | main.go:112-118 | `arn:aws:sns:us-west-2:123456789012:my-topic` yields region `us-west-2` |
| `Arn.RejectedArns` | main.go:114-116 | `bad-arn` and the empty string are fatal |
| `Hermes.Reply` | main.go:58-104 | no response iff the read failed; 204 with an empty body iff the request did not fail; a non-204 status iff the body was read and the publish failed; every failure response has body `ERR`; per outcome: 500 for a RequestFailure, 502 for another AWS error, 500 for a non-AWS error |
| `Hermes.RequestEffectsOrder` | main.go:55-104 | the received counter is incremented first and only once; the error counter is incremented iff the request fails, and at most once; the publish and the single response happen only when the body was read, the publish second and the response third |
| `Hermes.TallyCounts` | main.go:55-97 | after any sequence of requests, received equals the number of requests and errored the number of failing ones, so errored never exceeds received |
| `Hermes.TallyMonotone` | main.go:55-97 | over any sequence of requests both counters only grow; the remaining requests add exactly one each to received and at most one each to errored |
| `Hermes.Service.constructor` | main.go:17-30 | a fresh process has the configured topic, an empty region, zero counters and no history |
| `Hermes.Service.InflectRegionFromArn` | main.go:112-118 | succeeds iff the ARN has five colons and then stores its region field (colon-free); otherwise it returns the fatal log message and leaves the region unchanged |
| `Hermes.ForwardToSns` | main.go:120-129 | the publish call carries the stored region as the client region, the body bytes unchanged as `Message`, and the configured topic ARN as `TopicARN` |
| `Hermes.Service.HandleEvent` | main.go:54-105 | given a region inflected from the configured topic, as at startup: received grows by exactly 1. errored grows by 1 exactly on a read or publish failure; the early return at main.go:90 prevents a second increment. The response is `Reply`'s. A publish happens iff the body was read, with the body bytes unchanged as `Message`, the configured ARN as `TopicARN` and the stored region as the client region (forwardToSNS, main.go:120-129). The side effects happen in the order `RequestEffects` lists. The invariant that the counters equal the tally of all requests handled is kept |
| `Hermes.ExampleSession` | main.go:54-104 | a service on the example topic answers 204, 500 and 502 to a success, a remote-service failure and a client error, and ends with received 3 and errored 2; the successful publish carries the body `{"hello":"world"}` and the configured topic in region `us-west-2` |

## Left out

- HTTP routing and response writing (gin), the `/metrics` endpoint and the
  server start (main.go:53, 107-109). A written response is modelled as the
  value `HandleEvent` returns.
- Reading and closing the request body (main.go:57-58). The read's success and
  bytes are inputs of `HandleEvent`.
- Building the AWS SDK client and the `svc.Publish` remote call (main.go:121,
  127). The call is modelled as the `SnsCall` value made and the outcome passed
  in. Fields that the SDK errors carry are kept in `PublishOutcome` but affect
  only logging.
- All logrus logging, including the debug-mode log of the client IP and body
  (main.go:60-62, 67-72, 78-87, 94, 101-103). Logging has no state the handler
  reads back.
- Command-line parsing, debug-mode setup and Prometheus registration in `init`
  (main.go:19-20, 32-50). The topic ARN is the constructor's argument.
- Prometheus counters are float64 values updated atomically under concurrent
  handlers. The model uses unbounded naturals and one handler at a time, so
  float precision loss and interleavings are not modelled.
- `log.Fatal` ends the process (main.go:115). `InflectRegionFromArn` returns
  the fatal message instead, and the region stays unchanged.
- Go strings are byte strings. The ARN is modelled as a `string` of characters.
  Splitting on the ASCII colon gives the same fields either way. The body and
  the published `Message` are modelled as bytes, since `string(data)` keeps
  them byte for byte.
