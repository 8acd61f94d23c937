# RiemannPublisher dispatch core, in Dafny

This project models the dispatch logic of `RiemannPublisher`, an OpenTSDB real-time publisher
plugin that forwards every data point to one of several Riemann servers. It covers four parts:

- **Shard selection** (`chooseRiemann`), in `shard.dfy`. The metric name is hashed over its
  UTF-16 code units. The hash starts at 7 and steps `hash * 31 + charAt(i)` with Java's 32-bit
  `int` wrap-around. The index is `Math.abs(hash % clients.length)`, with Java's truncating `%`.
  The `int` operations live in `java_int.dfy`.
- **Tag splitting** (`filter_keywords`), in `tags.dfy`. The caller's `Map` is a `TagMap` object
  whose entries the method removes in place. `HashMap` iteration order is unspecified, so the
  returned tag list is specified by its multiset of values.
- **Event construction** (the body of `publishDataPoint`), in `events.dfy` and `publisher.dfy`.
  The control tags are read before filtering. An event builder starts blank and is filled setter
  by setter. The two overloads (`long` and `double` value) are one method over `MetricValue`.
- **Reconnect policy** (`reconnectClient`), in `reconnect.dfy` and `publisher.dfy`. It keeps one
  `lastException` timestamp for the whole pool and a 5000 ms window. The current time and the
  outcome of the transport's `reconnect()` are parameters.

`Publisher.RiemannPublisher` is the class. It holds the `clients` array, the `lastException`
field and the shared `event` field. Each `Client` is a liveness flag plus the sequence of events
sent on it.

What is proved beyond the method contracts:
- The wrapping loop computes the exact polynomial `7·31^n + Σ unit[i]·31^(n-1-i)`, truncated
  to 32 bits (`HashIsWrappedPolynomial`).
- The shard index is `|hash| mod n`. It lies in `[0, n)` for every name, including the empty
  name, and it is 0 when there is one client. The `Math.abs` overflow on `Integer.MIN_VALUE`
  cannot occur, because `|hash % n| < n`.
- The tag list holds each non-reserved value once per key that carries it, whatever the
  iteration order (`ValueBagCount`, `TagListValues`).
- Replaying the reconnect policy over a series of disconnected observations shows two things.
  While retries keep failing within the window, every observation retries. Once the recorded
  time is more than five seconds away from every later observation, nothing is ever retried
  again, and a successful reconnect does not re-arm the timer.

Where the code does something a reader might not expect, the model follows the code:
- The caller's tag map is mutated: the reserved keys are removed in place (line 79). This
  happens only when `ttl` parses, because the parse at line 103 precedes `filter_keywords`.
- `host(hostName)` is called even when there is no `host` tag (line 111). The model records
  `None` there, meaning "set to null".
- The timestamp is never attached to the event (`time` stays `None`).
- The event builder is a field shared across calls (lines 37 and 110), not a call-local value.
- The reconnect timestamp is shared by all clients (line 34), not kept per connection.
- With an empty host list (`",".split(",")` has no elements), `hash % 0` throws after the tags
  are filtered. The exception is swallowed, and the model ends the call there.

## Model

| member | source | states |
|---|---|---|
| JavaInt.Wrap | src/main/java/at/ac/uniak/tsdb/RiemannPublisher.java:88 | an `int` result is the unique 32-bit value congruent to the exact result modulo 2^32, and is the exact result when that fits |
| JavaInt.Rem | src/main/java/at/ac/uniak/tsdb/RiemannPublisher.java:90 | Java `%`: `a == Quot(a,b)*b + r`, `|r| < |b|`, `r` has the sign of `a`, and `|r| == |a| mod |b|` |
| JavaInt.Abs | src/main/java/at/ac/uniak/tsdb/RiemannPublisher.java:90 | `Math.abs(int)`: the magnitude, except that `Integer.MIN_VALUE` maps to itself |
| JavaInt.WrapShift | src/main/java/at/ac/uniak/tsdb/RiemannPublisher.java:88 | adding any multiple of 2^32 leaves the wrapped `int` unchanged |
| Shard.Utf16 | src/main/java/at/ac/uniak/tsdb/RiemannPublisher.java:87-88 | the code units `charAt` walks: each is below 2^16, there are at least as many as characters, and for a name without supplementary characters they are the characters themselves |
| Shard.Hash | src/main/java/at/ac/uniak/tsdb/RiemannPublisher.java:86-89 | the folded hash is always a 32-bit `int` |
| Shard.StepTracksPolynomial | src/main/java/at/ac/uniak/tsdb/RiemannPublisher.java:88 | one wrapped step `hash*31 + c` on the wrapped value equals the exact step, wrapped |
| Shard.WeightedAppend | src/main/java/at/ac/uniak/tsdb/RiemannPublisher.java:87-89 | appending a code unit multiplies the weighted sum by 31 and adds the unit |
| Shard.HashIsWrappedPolynomial | src/main/java/at/ac/uniak/tsdb/RiemannPublisher.java:86-89 | the hash of a name is the exact polynomial `7·31^n + Σ unit[i]·31^(n-1-i)` truncated to 32 bits |
| Shard.ShardIndex | src/main/java/at/ac/uniak/tsdb/RiemannPublisher.java:90 | `Math.abs(hash % n)` lies in `[0, n)`, equals `|hash| mod n`, and is 0 when `n == 1` |
| Shard.ChooseRiemann | src/main/java/at/ac/uniak/tsdb/RiemannPublisher.java:85-91 | the loop returns the shard index of the name's code units, so equal names get equal indices, always within `[0, clients.length)` |
| Tags.KeywordsAreReserved | src/main/java/at/ac/uniak/tsdb/RiemannPublisher.java:36 | the `keywords` array holds exactly host, state, ttl and description |
| Tags.Remaining | src/main/java/at/ac/uniak/tsdb/RiemannPublisher.java:76-81 | a key survives filtering iff it is present and not reserved, and its value is unchanged |
| Tags.ValueBagUnfold | src/main/java/at/ac/uniak/tsdb/RiemannPublisher.java:82 | the values collection of a non-empty map is some entry's value plus the values of the rest |
| Tags.ValueBagCount | src/main/java/at/ac/uniak/tsdb/RiemannPublisher.java:82 | a value occurs in `values()` exactly as often as keys map to it |
| Tags.KeysWithRemove | src/main/java/at/ac/uniak/tsdb/RiemannPublisher.java:82 | removing a key drops it from the keys holding its value and from no other |
| Tags.ValueBagRemoveCount | src/main/java/at/ac/uniak/tsdb/RiemannPublisher.java:82 | removing a key lowers the count of its value by one and of no other value |
| Tags.ValueBagRemove | src/main/java/at/ac/uniak/tsdb/RiemannPublisher.java:82 | removing any key removes exactly its value from `values()`, whichever order is used |
| Tags.TagListValues | src/main/java/at/ac/uniak/tsdb/RiemannPublisher.java:76-83 | a value is in the tag list iff some non-reserved key holds it, once per such key |
| Tags.ValuesInIterationOrder | src/main/java/at/ac/uniak/tsdb/RiemannPublisher.java:106 | copying `values()` into a list yields exactly that multiset of values |
| Tags.FilterKeywords | src/main/java/at/ac/uniak/tsdb/RiemannPublisher.java:76-83 | the caller's map loses exactly the reserved keys and keeps the other entries unchanged; the returned list holds exactly the remaining values |
| Events.Lookup | src/main/java/at/ac/uniak/tsdb/RiemannPublisher.java:102 | a tag is read as its value when present and as null otherwise |
| Events.ReadControl | src/main/java/at/ac/uniak/tsdb/RiemannPublisher.java:101-105 | the call aborts iff `ttl` is present and unparsable; otherwise state, host and description equal their tags when present and are null otherwise, and ttl is the parsed tag when present |
| Events.ExampleTagBag | src/main/java/at/ac/uniak/tsdb/RiemannPublisher.java:106 | for tags {state, ttl, host, env: prod}, the tag list values are exactly {prod} |
| Events.ExampleEvent | src/main/java/at/ac/uniak/tsdb/RiemannPublisher.java:101-124 | for metric cpu.load, value 0.95 and tags {state: critical, ttl: 30.5, host: nodeA, env: prod}, the event has state critical, ttl 30.5, host nodeA, no description, and tags exactly ["prod"] |
| Reconnect.Decide | src/main/java/at/ac/uniak/tsdb/RiemannPublisher.java:176-191 | a first failure only records now; later, reconnect is attempted iff the time since the record is at most 5000 ms; only a failed attempt moves the record to now |
| Reconnect.Replay | src/main/java/at/ac/uniak/tsdb/RiemannPublisher.java:176-191 | over a series of disconnects there is at most one attempt per disconnect, fewer attempts than disconnects when no failure was recorded yet, and once armed the timestamp is never cleared |
| Reconnect.StaleTimerNeverRetries | src/main/java/at/ac/uniak/tsdb/RiemannPublisher.java:181-190 | when every later disconnect is more than 5000 ms from the recorded time, no reconnect is ever attempted and the record never moves |
| Reconnect.FailingRetriesKeepRetrying | src/main/java/at/ac/uniak/tsdb/RiemannPublisher.java:183-189 | while retries fail and disconnects keep coming within 5000 ms of each other, every disconnect retries and the record ends at the last one |
| Reconnect.SuccessDoesNotRearm | src/main/java/at/ac/uniak/tsdb/RiemannPublisher.java:184-189 | after a successful reconnect the record keeps its old time, so a disconnect more than 5000 ms after it is not retried |
| Publisher.Client.Send | src/main/java/at/ac/uniak/tsdb/RiemannPublisher.java:124 | sending appends the event to the client's sent events and leaves liveness alone |
| Publisher.Client.Reconnect | src/main/java/at/ac/uniak/tsdb/RiemannPublisher.java:185 | a successful reconnect leaves the client connected; a failed one leaves it as it was |
| Publisher.RiemannPublisher.constructor | src/main/java/at/ac/uniak/tsdb/RiemannPublisher.java:45-53 | the publisher starts with its client pool, no recorded failure and no event |
| Publisher.RiemannPublisher.ReconnectClient | src/main/java/at/ac/uniak/tsdb/RiemannPublisher.java:176-191 | `lastException` and the target's liveness change exactly as `Decide` says; nothing is sent |
| Publisher.RiemannPublisher.PublishDataPoint | src/main/java/at/ac/uniak/tsdb/RiemannPublisher.java:93-174 | an unparsable ttl changes nothing. Otherwise the reserved keys leave the caller's map. A connected target gets exactly one event built for the data point, and nothing else changes. A disconnected target gets no event, and only the reconnect policy runs. Other clients are untouched |

## Left out

- `initialize`: configuration reads, socket addresses, TCP connects and the netty
  deadlock-checker flag are I/O. The constructor receives the built clients. The pool that a
  failed connect leaves half-filled with null clients is not modelled.
- `Float.parseFloat` is a parameter of type `string -> Option<real>`. The 32-bit float
  rounding of `ttl` is not modelled, nor are the NaN and infinite values it returns for
  "NaN" and "Infinity", which the source would set as the event's ttl.
- `double` metric values are reals. NaN, infinities and rounding are not modelled, and `long`
  values are not bounded to 64 bits.
- The Riemann client library is reduced to four things. `isConnected()` reads a flag.
  `event()` is a blank builder. `send()` appends to the client's sent events.
  `reconnect()` leaves the client connected when the caller's flag says it succeeds;
  otherwise it throws and the client stays as it was.
- Send failures and the wire protocol are not modelled. Neither is the default host, if any,
  that the library's builder uses when `host(null)` is called.
- `synchronized` and every concurrent interleaving are left out, because the model is
  sequential. The shared `event` field is kept, but its corruption by concurrent calls is not
  modelled.
- The `Deferred` result, logging, `shutdown`, `publishAnnotation`, `version` and
  `collectStats` carry no dispatch logic.
- `catch (Throwable)` is modelled only for two exceptions: the unparsable ttl and `% 0`. Each
  ends the call early. Exceptions the library might throw are not modelled.
- `new Date()` is the parameter `now`, in milliseconds.
- Publisher.RiemannPublisher.ReconnectClient: after a failed reconnect, the source reads the
  clock again (line 188). The model records the same `now` it compared against, so the time
  the reconnect attempt took is not modelled.
- Publisher.RiemannPublisher.ReconnectClient: the `long` subtraction and `Math.abs(long)` are
  computed without 64-bit overflow, which only matters for timestamps about 2^63 ms apart.
- Shard.Utf16: Java strings holding unpaired surrogates cannot be written as Dafny strings, so
  those metric names are not covered.
- A null metric name, null tag values, and a tag map whose `remove` throws (an unmodifiable
  map) are not modelled.
