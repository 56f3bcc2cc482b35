# Hono resource identifiers and the telemetry read stream, in Dafny

This project models two pieces of Eclipse Hono and proves properties of them.

- **`ResourceIdentifier`** (`resource_identifier.dfy`, module `ResourceIdentifiers`) is the
  immutable address of a Hono resource, `endpoint/tenantId[/deviceId]`. It is a datatype
  holding the two private fields, the segment array and the string form cached when it is
  built. The factories `fromString`, `fromStringAssumingDefaultTenant`, `from` and
  `fromPath` are functions over `Build`. `Build` is what the private constructors get
  from `setResourcePath`. The three loops of the class are methods proved equal to
  their specification functions: `setResourcePath` (`SetResourcePath` against `Build`),
  `createStringRepresentation` (`CreateStringRepresentation` against `Join`) and
  `matches` (`Matches` against `FitsPattern`).
- **`TelemetryDataReadStream`** (`telemetry_data_read_stream.dfy`, module `TelemetryStreams`)
  is the test helper that produces a given number of telemetry messages from a periodic
  timer, honouring pause and resume, and then schedules its end handler. It is a class
  with the source's mutable fields. The timer body is an explicit `Tick`. A ghost log
  records every id taken from the counter and every end handler scheduled.
- `java_lang.dfy` (module `JavaLang`) models what the code takes from Java. `Option` stands
  for a reference that may be null. `Exception` and `Result` stand for what is thrown
  or returned. `Int32` is `int`. `Split` is `String.split("\\/")`: a string without `/`
  comes back whole (so `""` gives `[""]`), leading empty pieces stay (`"/a"` gives
  `["", "a"]`), and trailing ones go (`"a/b/"` gives `["a", "b"]`, `"/"` gives `[]`).

Some behaviour of the code is easy to miss; the model follows the code:

- The code does not reject empty segments: `"/t"` parses to `["", "t"]`.
- `fromPath` guarantees no tenant and not even an endpoint. `fromPath(["ep"])` has one
  segment, so `getTenantId` throws. `fromPath([null])` has none, so `getEndpoint` throws.
  `FromPathWithoutTenant` states both.
- The end handler fires at most once per `endHandler` registration, not exactly once.
  Each non-null `handler` call starts one more periodic timer. Each timer cancels itself on
  the first tick that finds the stream finished. An end handler registered after the last
  live timer has cancelled itself never fires. One registered while another timer is
  still live, or before a later `handler` call, fires on that timer's next tick.
- A tick that finds the handler reset to null, while the stream is not paused and messages
  remain, still takes the id from the counter and then throws `NullPointerException`. That
  id reaches no handler and is logged as `Dropped`. A paused tick takes no id and throws
  nothing. Ids taken stay consecutive, and the ids handlers see stay
  strictly increasing.

## Model

All source paths are under `server/src/` and name the two Java files.

| member | source | states |
|---|---|---|
| JavaLang.RawSplit | server/src/main/java/org/eclipse/hono/util/ResourceIdentifier.java:45 | the pieces between separators: at least one piece, and none contains `/` |
| JavaLang.StripTrailingEmpty | server/src/main/java/org/eclipse/hono/util/ResourceIdentifier.java:45 | the result is a prefix of the pieces that does not end with `""`, and every dropped piece is `""` |
| JavaLang.Split | server/src/main/java/org/eclipse/hono/util/ResourceIdentifier.java:45 | no segment contains `/`; a string without `/` comes back whole; otherwise the last segment, if any, is not empty |
| JavaLang.SplitEmptyIffOnlySeparators | server/src/main/java/org/eclipse/hono/util/ResourceIdentifier.java:45-48 | `split` yields no segment exactly for a non-empty string made only of `/`, the only inputs that reach the "must at least contain an endpoint" error |
| JavaLang.RawSplitAllEmpty | server/src/main/java/org/eclipse/hono/util/ResourceIdentifier.java:45 | every raw piece is empty iff the string consists of separators only |
| ResourceIdentifiers.CreateStringRepresentation | server/src/main/java/org/eclipse/hono/util/ResourceIdentifier.java:99-108 | the `StringBuilder` loop yields the segments joined by single `/`, with none in front or at the end (`Join`) |
| ResourceIdentifiers.RawSplitJoin | server/src/main/java/org/eclipse/hono/util/ResourceIdentifier.java:99-108 | splitting the joined form gives back any non-empty list of segments that contain no `/` |
| ResourceIdentifiers.SplitJoin | server/src/main/java/org/eclipse/hono/util/ResourceIdentifier.java:45 | `split` undoes the join for one segment, or for several whose last one is not empty |
| ResourceIdentifiers.NonNullPrefix | server/src/main/java/org/eclipse/hono/util/ResourceIdentifier.java:74-86 | the longest run of non-null segments at the start: each kept entry is the array's, and the next entry, if any, is null |
| ResourceIdentifiers.NonNullPrefixUnique | server/src/main/java/org/eclipse/hono/util/ResourceIdentifier.java:74-86 | those properties determine the kept segments uniquely |
| ResourceIdentifiers.Normalize | server/src/main/java/org/eclipse/hono/util/ResourceIdentifier.java:74-86 | fails, with the "trailing null segments only" error, exactly when a non-null segment follows a null one; otherwise it keeps the non-null prefix and everything after it is null |
| ResourceIdentifiers.NormalizePadded | server/src/main/java/org/eclipse/hono/util/ResourceIdentifier.java:161-165 | any segments followed by any number of nulls normalise to exactly those segments (trailing nulls are stripped) |
| ResourceIdentifiers.Build | server/src/main/java/org/eclipse/hono/util/ResourceIdentifier.java:66-88 | fails exactly on a hole; otherwise it stores the non-null prefix and caches its joined form |
| ResourceIdentifiers.SetResourcePath | server/src/main/java/org/eclipse/hono/util/ResourceIdentifier.java:74-88 | the flag-driven loop and the string form it then computes give exactly `Build` of the array |
| ResourceIdentifiers.ParseBuildsSegments | server/src/main/java/org/eclipse/hono/util/ResourceIdentifier.java:52-61 | the array the string constructor builds never has a hole, and its non-null entries are the stored segments |
| ResourceIdentifiers.FromString | server/src/main/java/org/eclipse/hono/util/ResourceIdentifier.java:44-64 | null throws `NullPointerException` (line 124); otherwise it succeeds iff `split` gives 2 or 3 segments, stores exactly those, and otherwise throws the "endpoint and the tenantId" or "more than 3" error |
| ResourceIdentifiers.FromStringAssumingDefaultTenant | server/src/main/java/org/eclipse/hono/util/ResourceIdentifier.java:46-53 | null throws (line 142); otherwise it succeeds iff `split` gives 1 or 2 segments, and stores the first, then `DEFAULT_TENANT`, then the second if present; 0 or more than 2 segments throw their errors |
| ResourceIdentifiers.From | server/src/main/java/org/eclipse/hono/util/ResourceIdentifier.java:155-159 | throws `NullPointerException` iff endpoint or tenant id is null; otherwise it stores `[endpoint, tenantId]`, plus the device id when it is not null |
| ResourceIdentifiers.FromPath | server/src/main/java/org/eclipse/hono/util/ResourceIdentifier.java:174-181 | a null array throws NPE and an empty one the "at least one segment" error; otherwise it succeeds iff the array has no hole, storing the non-null prefix |
| ResourceIdentifiers.ToPath | server/src/main/java/org/eclipse/hono/util/ResourceIdentifier.java:95-97 | returns a fresh array equal to the stored segments |
| ResourceIdentifiers.Matches | server/src/main/java/org/eclipse/hono/util/ResourceIdentifier.java:208-222 | never throws; false whenever the lengths differ; otherwise true iff every pattern segment is `*` or equals the path segment at that position |
| ResourceIdentifiers.FitsPatternProperties | server/src/main/java/org/eclipse/hono/util/ResourceIdentifier.java:208-222 | an all-`*` pattern of the right length fits every identifier, and so does its own path; a pattern of another length fits none; turning any segment of a fitting pattern into `*` keeps it fitting |
| ResourceIdentifiers.Parse | server/src/main/java/org/eclipse/hono/util/ResourceIdentifier.java:44-64 | the private string constructor succeeds iff `split` gives 1-2 segments (default tenant assumed) or 2-3 (otherwise); on failure it throws the message for too few or too many segments; on success it stores the split segments, with `DEFAULT_TENANT` inserted second when assumed, and caches their joined form |
| ResourceIdentifiers.GetEndpoint | server/src/main/java/org/eclipse/hono/util/ResourceIdentifier.java:186-188 | the first segment, which starts the string form; an identifier without segments throws `ArrayIndexOutOfBoundsException` for index 0 |
| ResourceIdentifiers.GetTenantId | server/src/main/java/org/eclipse/hono/util/ResourceIdentifier.java:193-195 | the second segment, which follows the endpoint and a `/` at the start of the string form; fewer than two segments throw for index 1 |
| ResourceIdentifiers.GetDeviceId | server/src/main/java/org/eclipse/hono/util/ResourceIdentifier.java:200-206 | the third segment when there is one, else null; for three segments the string form ends with `/` and the device id |
| ResourceIdentifiers.ToString | server/src/main/java/org/eclipse/hono/util/ResourceIdentifier.java:224-236 | the cached string form, which is the segments joined by `/` |
| ResourceIdentifiers.Equals | server/src/main/java/org/eclipse/hono/util/ResourceIdentifier.java:238-247 | an identifier equals itself, never equals null, and equal identifiers have equal `hashCode` |
| ResourceIdentifiers.StringHashCode | server/src/main/java/org/eclipse/hono/util/ResourceIdentifier.java:251 | `String.hashCode` computed step by step in `int` arithmetic equals the documented `s[0]*31^(n-1) + ... + s[n-1]` wrapped to `int` |
| ResourceIdentifiers.ArraysHashCode | server/src/main/java/org/eclipse/hono/util/ResourceIdentifier.java:251 | `Arrays.hashCode` computed step by step from 1 in `int` arithmetic equals `31^n + h[0]*31^(n-1) + ... + h[n-1]` over the segment hashes, wrapped to `int` |
| ResourceIdentifiers.PolynomialSnoc | server/src/main/java/org/eclipse/hono/util/ResourceIdentifier.java:251 | appending a term multiplies the polynomial by 31 and adds the term, which is the step both hash loops take |
| ResourceIdentifiers.HashCode | server/src/main/java/org/eclipse/hono/util/ResourceIdentifier.java:249-252 | the hash of an identifier depends only on its segments, by the closed form of `Arrays.hashCode` |
| ResourceIdentifiers.JoinPrefix | server/src/main/java/org/eclipse/hono/util/ResourceIdentifier.java:99-108 | the joined form of the first `k` segments starts the joined form of all of them |
| ResourceIdentifiers.EqualsIsStructural | server/src/main/java/org/eclipse/hono/util/ResourceIdentifier.java:238-252 | for built identifiers, `equals` holds iff the values are the same; `equals(null)` is false; equal identifiers have equal `hashCode` |
| ResourceIdentifiers.FromStringOfToString | server/src/main/java/org/eclipse/hono/util/ResourceIdentifier.java:233-236 | `toString` is the cached join; for 2 or 3 segments without `/` and a non-empty last one, `fromString(toString(x))` is `x` |
| ResourceIdentifiers.FromStringIdempotent | server/src/main/java/org/eclipse/hono/util/ResourceIdentifier.java:123-126 | re-parsing the string form of any parsed identifier gives the same identifier, even after trailing `/` were dropped |
| ResourceIdentifiers.FromAgreesWithFromPath | server/src/main/java/org/eclipse/hono/util/ResourceIdentifier.java:155-181 | for all segments, `from` and `fromPath` build equal identifiers, with or without a trailing null for the device id |
| ResourceIdentifiers.FactoriesAgree | server/src/main/java/org/eclipse/hono/util/ResourceIdentifier.java:123-159 | `from` and `fromString` of the joined form build equal identifiers whenever no segment contains `/` and the last segment is not empty (an empty tenant before a device id is allowed) |
| ResourceIdentifiers.AccessorsOfFactories | server/src/main/java/org/eclipse/hono/util/ResourceIdentifier.java:186-206 | after each factory, the endpoint and tenant are the first two segments, and the device id is the third or null; the default-tenant parser reports `DEFAULT_TENANT` |
| ResourceIdentifiers.FromPathWithoutTenant | server/src/main/java/org/eclipse/hono/util/ResourceIdentifier.java:174-195 | `fromPath(["ep"])` has one segment, so `getTenantId` throws; `fromPath([null])` has none, so `getEndpoint` throws |
| ResourceIdentifiers.ExampleSegmentCounts | server/src/main/java/org/eclipse/hono/util/ResourceIdentifier.java:55-61 | `"onlyendpoint"` and `"a/b/c/d"` are rejected with their two different errors |
| ResourceIdentifiers.ExampleDefaultTenant | server/src/main/java/org/eclipse/hono/util/ResourceIdentifier.java:46-52 | `"ep/dev"` with the default tenant assumed is `ep/DEFAULT_TENANT/dev` |
| ResourceIdentifiers.ExampleFromPath | server/src/main/java/org/eclipse/hono/util/ResourceIdentifier.java:74-86 | `fromPath(["ep","t",null])` equals `from("ep","t",null)`; `fromPath(["ep",null,"d"])` throws |
| ResourceIdentifiers.ExampleMatches | server/src/main/java/org/eclipse/hono/util/ResourceIdentifier.java:208-222 | `["ep","*","d1"]` fits `ep/t1/d1` but not `ep/t1/d2` |
| TelemetryStreams.ConsecutiveIds | server/src/test/java/org/eclipse/hono/util/TelemetryDataReadStream.java:82-83 | the recursive numbering invariant holds iff the emission at position i carries id i, for every i |
| TelemetryStreams.FiredAtMostOnce | server/src/test/java/org/eclipse/hono/util/TelemetryDataReadStream.java:87-92 | fired registrations are strictly increasing and below the bound, so no registration of an end handler fires twice |
| TelemetryStreams.DeliveredIdsIncrease | server/src/test/java/org/eclipse/hono/util/TelemetryDataReadStream.java:82-86 | with ids taken consecutively, handlers see strictly increasing ids below the counter, and exactly `0..n-1` when none was dropped |
| TelemetryStreams.TelemetryDataReadStream.constructor | server/src/test/java/org/eclipse/hono/util/TelemetryDataReadStream.java:43-46 | a new stream keeps the count, has produced nothing, is not paused, and has no handler, end handler or timer |
| TelemetryStreams.TelemetryDataReadStream.IsFinished | server/src/test/java/org/eclipse/hono/util/TelemetryDataReadStream.java:72-74 | finished iff the counter has reached the number of messages, or zero for a negative count |
| TelemetryStreams.TelemetryDataReadStream.SendMore | server/src/test/java/org/eclipse/hono/util/TelemetryDataReadStream.java:76-78 | more is sent iff the stream is not paused and messages remain |
| TelemetryStreams.TelemetryDataReadStream.Handler | server/src/test/java/org/eclipse/hono/util/TelemetryDataReadStream.java:64-70 | a non-null handler starts one more timer and a null one none; the counter and everything else are unchanged |
| TelemetryStreams.TelemetryDataReadStream.Tick | server/src/test/java/org/eclipse/hono/util/TelemetryDataReadStream.java:81-95 | emits the next id iff not paused and messages remain, raising the counter by exactly 1 (never past the count); a paused tick emits nothing; a finishing tick cancels its timer and clears and schedules the end handler, so each registration fires at most once and only with every message produced |
| TelemetryStreams.TelemetryDataReadStream.EmitNext | server/src/test/java/org/eclipse/hono/util/TelemetryDataReadStream.java:82-86 | the first half of a tick: when more is due, takes exactly the next id and delivers it, or records it as dropped and throws `NullPointerException` when there is no handler; otherwise changes nothing |
| TelemetryStreams.TelemetryDataReadStream.CompleteIfFinished | server/src/test/java/org/eclipse/hono/util/TelemetryDataReadStream.java:87-94 | the second half of a tick: once the counter has reached the count, cancels its timer and clears and schedules a registered end handler, as the current registration; otherwise changes nothing |
| TelemetryStreams.TelemetryDataReadStream.Pause | server/src/test/java/org/eclipse/hono/util/TelemetryDataReadStream.java:104-108 | sets `paused` and changes nothing else |
| TelemetryStreams.TelemetryDataReadStream.Resume | server/src/test/java/org/eclipse/hono/util/TelemetryDataReadStream.java:116-120 | clears `paused` and changes nothing else |
| TelemetryStreams.TelemetryDataReadStream.EndHandler | server/src/test/java/org/eclipse/hono/util/TelemetryDataReadStream.java:128-131 | replaces the end handler with a new, unfired registration; production is untouched |

The class invariant `TelemetryDataReadStream.Valid` holds after every operation. It says:

- The counter is between 0 and the count.
- The ids taken so far are exactly `0, 1, ..., counter-1`, in order.
- Registrations of the end handler fire in increasing order, so none fires twice.
- The current registration has not fired.
- Firing happens only once the counter has reached the count.
- Nothing runs before a non-null handler is registered.

Two scenarios are proved from these contracts alone.
`PauseHoldsPosition` checks that a tick while paused takes no id and that production resumes with the next one.
`EndHandlerAfterLastMessage` checks that, for two messages, the end handler is not scheduled after the first and is scheduled once after the second, when the only timer cancels itself.

## Left out

- `RegistrationClient` (client/src/main/java/org/eclipse/hono/client/RegistrationClient.java) is an interface without behaviour: asynchronous AMQP request/response calls whose result codes a separate registry defines.
- Vert.x scheduling: `setPeriodic`, the 3 ms cadence, `cancelTimer`, `runOnContext` and `synchronized`. Timers are a count of live timers, a tick is an explicit `Tick`, and scheduling an end handler appends it to a ghost log. Concurrency is not modelled.
- The message payload built by `TestSupport.newTelemetryData` (device `bumlux:temp:4711`, value `messageId % 35`); `TestSupport` is not part of this model. A delivery is recorded as its id and the handler that received it.
- Logging and the no-op `exceptionHandler`; the `Vertx` argument of the stream's constructor and its null check.
- `Constants.DEFAULT_TENANT`: `Constants` is not part of this model. The constant is declared without a value, and no proof depends on its value.
- `String.split` is modelled only for the literal one-character separator used here, not for general regular expressions.
- Matches: a null varargs array (which would throw `NullPointerException`) is not modelled; the pattern is a sequence whose entries may be null.
- Equals: comparing with an object of another class is not modelled; the argument is an identifier or null.
- ResourceIdentifiers.StringHashCode: hashes Dafny characters, which are Unicode scalar values. Java hashes UTF-16 code units, so the two differ for characters outside the Basic Multilingual Plane.
- ToPath: Java's `Arrays.copyOf` returns a separate array; the identifier itself is a value, so aliasing cannot arise in the model.
