/**
 * Event construction in `publishDataPoint`: reading the reserved control tags before they are
 * filtered out, and the fields the event builder ends up holding.
 */
module Events {
  import opened Wrappers
  import Tags

  /** The `long` and `double` overloads of `publishDataPoint`, as one value type. */
  datatype MetricValue = LongValue(long: int) | DoubleValue(double: real)

  /**
   * The fields of one Riemann event builder. `client.event()` yields `Blank`; each setter fills
   * one field, and a field that no setter touches stays `None`.
   */
  datatype Event = Event(
    host: Option<string>,
    service: Option<string>,
    metric: Option<MetricValue>,
    ttl: Option<real>,
    state: Option<string>,
    description: Option<string>,
    tags: seq<string>,
    time: Option<int>)

  const Blank: Event := Event(None, None, None, None, None, None, [], None)

  /** The reserved tags read into local variables (`null` is `None`). */
  datatype Control = Control(
    state: Option<string>,
    ttl: Option<real>,
    host: Option<string>,
    description: Option<string>)

  /** `keys.contains(key) ? tags.get(key) : null`. */
  function Lookup(m: map<string, string>, key: string): (r: Option<string>)
    ensures r.Some? <==> key in m
    ensures r.Some? ==> r.value == m[key]
  {
    if key in m then Some(m[key]) else None
  }

  /**
   * The control fields of a tag map, read in the order of the source; `None` when `ttl` is
   * present but `parseFloat` rejects it (the `NumberFormatException` that ends the call).
   */
  function ReadControl(m: map<string, string>, parseFloat: string -> Option<real>): (r: Option<Control>)
    ensures r.None? <==> "ttl" in m && parseFloat(m["ttl"]).None?
    ensures r.Some? ==> r.value.state == Lookup(m, "state")
    ensures r.Some? ==> r.value.host == Lookup(m, "host")
    ensures r.Some? ==> r.value.description == Lookup(m, "description")
    ensures r.Some? ==> (r.value.ttl.Some? <==> "ttl" in m)
    ensures r.Some? && "ttl" in m ==> r.value.ttl == parseFloat(m["ttl"])
  {
    var state := Lookup(m, "state");
    if "ttl" in m && parseFloat(m["ttl"]).None? then None
    else
      var ttl := if "ttl" in m then parseFloat(m["ttl"]) else None;
      Some(Control(state, ttl, Lookup(m, "host"), Lookup(m, "description")))
  }

  /**
   * `e` is the event sent for a data point: service and metric always set, host set from the
   * `host` tag (or cleared), ttl/state/description only when their tag is present, no time, and
   * the tag list holding the values of the non-reserved tags.
   */
  ghost predicate IsEventFor(e: Event, metric: string, value: MetricValue, c: Control, tags: map<string, string>)
  {
    && e.host == c.host
    && e.service == Some(metric)
    && e.metric == Some(value)
    && e.ttl == c.ttl
    && e.state == c.state
    && e.description == c.description
    && e.time == None
    && multiset(e.tags) == Tags.ValueBag(Tags.Remaining(tags))
  }

  const ExampleTags: map<string, string> := map["state" := "critical", "ttl" := "30.5", "host" := "nodeA", "env" := "prod"]

  /** The only non-reserved tag of the example is `env`, so the tag list holds just its value. */
  lemma ExampleTagBag()
    ensures Tags.ValueBag(Tags.Remaining(ExampleTags)) == multiset{"prod"}
  {
    var rest := Tags.Remaining(ExampleTags);
    assert rest == map["env" := "prod"];
    Tags.ValueBagRemove(rest, "env");
    assert rest - {"env"} == map[];
  }

  /**
   * The worked example: with tags {state: critical, ttl: 30.5, host: nodeA, env: prod}, the
   * event carries state, ttl and host from the tags, no description, and exactly the tag list ["prod"].
   */
  lemma ExampleEvent(parseFloat: string -> Option<real>, e: Event)
    requires parseFloat("30.5") == Some(30.5)
    requires ReadControl(ExampleTags, parseFloat).Some?
    requires IsEventFor(e, "cpu.load", DoubleValue(0.95), ReadControl(ExampleTags, parseFloat).value, ExampleTags)
    ensures e.state == Some("critical") && e.ttl == Some(30.5) && e.host == Some("nodeA") && e.description == None
    ensures e.service == Some("cpu.load") && e.metric == Some(DoubleValue(0.95))
    ensures e.tags == ["prod"]
  {
    ExampleTagBag();
    assert multiset(e.tags) == multiset{"prod"};
    assert |e.tags| == 1;
    assert e.tags[0] in multiset(e.tags);
  }
}
