/**
 * `RiemannPublisher`: the pool of Riemann clients, the shared reconnect timestamp, the shared
 * event builder field, and `publishDataPoint` composing tag splitting, shard selection, event
 * construction and the reconnect policy.
 */
module Publisher {
  import opened Wrappers
  import JavaInt
  import Shard
  import Tags
  import Events
  import Reconnect

  /**
   * A `RiemannClient`, reduced to its liveness flag and the events it has sent, in order.
   * The transport itself is not modelled.
   */
  class Client {
    var connected: bool
    var outbox: seq<Events.Event>

    constructor (connected: bool)
      ensures this.connected == connected && outbox == []
    {
      this.connected := connected;
      outbox := [];
    }

    /** `send()` on an event built from this client. */
    method Send(e: Events.Event)
      modifies this
      ensures outbox == old(outbox) + [e]
      ensures connected == old(connected)
    {
      outbox := outbox + [e];
    }

    /** `reconnect()`: connected afterwards when it succeeds, left as it was when it throws. */
    method Reconnect(succeeds: bool)
      modifies this
      ensures connected == (old(connected) || succeeds)
      ensures outbox == old(outbox)
    {
      if succeeds {
        connected := true;
      }
    }
  }

  class RiemannPublisher {
    /** `clients`, one per configured host; fixed once built. */
    const clients: array<Client>
    /** `lastException`, in milliseconds. */
    var lastException: Option<int>
    /** The `event` field: the builder of the last event sent, shared across calls. */
    var event: Option<Events.Event>

    /** A Java array holds at most `Integer.MAX_VALUE` elements. */
    ghost predicate Valid()
      reads this
    {
      clients.Length <= JavaInt.IntMax
    }

    ghost function Pool(): set<Client>
      reads this, clients
    {
      set i | 0 <= i < clients.Length :: clients[i]
    }

    /** The client `chooseRiemann(metric)` picks. */
    ghost function Target(metric: string): Client
      reads this, clients
      requires Valid() && clients.Length > 0
    {
      clients[Shard.ShardIndex(Shard.Utf16(metric), clients.Length)]
    }

    /** The state `initialize` leaves behind once every client is created. */
    constructor (clients: array<Client>)
      requires clients.Length <= JavaInt.IntMax
      ensures Valid()
      ensures this.clients == clients && lastException == None && event == None
    {
      this.clients := clients;
      lastException := None;
      event := None;
    }

    /** `reconnectClient(riemannIndex)` at time `now`, with `reconnect()` succeeding iff `succeeds`. */
    method ReconnectClient(riemannIndex: int, now: int, succeeds: bool)
      requires 0 <= riemannIndex < clients.Length
      modifies this`lastException, clients[riemannIndex]
      ensures lastException == Reconnect.Decide(old(lastException), now, succeeds).lastException
      ensures clients[riemannIndex].connected ==
        (old(clients[riemannIndex].connected) || (Reconnect.Decide(old(lastException), now, succeeds).attempts && succeeds))
      ensures clients[riemannIndex].outbox == old(clients[riemannIndex].outbox)
    {
      if lastException.None? {
        lastException := Some(now);
        return;
      }
      var timeDiffInMillis := JavaInt.Magnitude(now - lastException.value);
      if timeDiffInMillis <= Reconnect.Window {
        clients[riemannIndex].Reconnect(succeeds);
        if !succeeds {
          lastException := Some(now);
        }
      }
    }

    /**
     * `publishDataPoint(metric, timestamp, value, tags, tsuid)` at time `now`. Every exception the
     * source catches and logs ends the call early here, with the effects made before it kept.
     */
    method PublishDataPoint(metric: string, timestamp: int, value: Events.MetricValue, tags: Tags.TagMap,
                            tsuid: seq<bv8>, now: int, reconnectSucceeds: bool, parseFloat: string -> Option<real>)
      requires Valid()
      modifies this`lastException, this`event, tags, Pool()
      ensures Valid()
      // An unparsable ttl ends the call before anything is touched.
      ensures Events.ReadControl(old(tags.entries), parseFloat).None? ==>
        && tags.entries == old(tags.entries)
        && lastException == old(lastException) && event == old(event)
        && forall c :: c in Pool() ==> unchanged(c)
      // Otherwise the reserved keys are gone from the caller's map.
      ensures Events.ReadControl(old(tags.entries), parseFloat).Some? ==>
        tags.entries == Tags.Remaining(old(tags.entries))
      // With no clients, `hash % 0` throws.
      ensures Events.ReadControl(old(tags.entries), parseFloat).Some? && clients.Length == 0 ==>
        lastException == old(lastException) && event == old(event)
      ensures Events.ReadControl(old(tags.entries), parseFloat).Some? && clients.Length > 0 ==>
        && (forall c :: c in Pool() && c != Target(metric) ==> unchanged(c))
        // A connected target gets exactly one event for the data point.
        && (old(Target(metric).connected) ==>
              && event.Some?
              && Events.IsEventFor(event.value, metric, value,
                   Events.ReadControl(old(tags.entries), parseFloat).value, old(tags.entries))
              && Target(metric).outbox == old(Target(metric).outbox) + [event.value]
              && Target(metric).connected
              && lastException == old(lastException))
        // A disconnected target gets nothing; only the reconnect policy runs.
        && (!old(Target(metric).connected) ==>
              && event == old(event)
              && Target(metric).outbox == old(Target(metric).outbox)
              && lastException == Reconnect.Decide(old(lastException), now, reconnectSucceeds).lastException
              && Target(metric).connected ==
                   (Reconnect.Decide(old(lastException), now, reconnectSucceeds).attempts && reconnectSucceeds))
    {
      var keys := tags.entries;
      var state := Events.Lookup(keys, "state");
      var ttl: Option<real> := None;
      if "ttl" in keys {
        ttl := parseFloat(keys["ttl"]);
        if ttl.None? {
          return;
        }
      }
      var hostName := Events.Lookup(keys, "host");
      var description := Events.Lookup(keys, "description");
      var tagValues := Tags.FilterKeywords(tags);
      if clients.Length == 0 {
        return;
      }
      var riemannIndex := Shard.ChooseRiemann(metric, clients.Length);
      var client := clients[riemannIndex];
      if client.connected {
        event := Some(Events.Blank);
        event := Some(event.value.(host := hostName, service := Some(metric), metric := Some(value)));
        event := Some(event.value.(tags := tagValues));
        if ttl.Some? {
          event := Some(event.value.(ttl := ttl));
        }
        if state.Some? {
          event := Some(event.value.(state := state));
        }
        if description.Some? {
          event := Some(event.value.(description := description));
        }
        client.Send(event.value);
      } else {
        ReconnectClient(riemannIndex, now, reconnectSucceeds);
      }
    }
  }
}
