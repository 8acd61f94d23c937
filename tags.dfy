/**
 * Tag splitting (`filter_keywords`): the reserved Riemann keys are removed in place from the
 * caller's tag map, and the values of the remaining entries become the event's tag list, in
 * the map's (unspecified) iteration order.
 */
module Tags {
  /** The `keywords` field, in its declared order. */
  const Keywords: seq<string> := ["host", "state", "ttl", "description"]

  /** The reserved keys as a set. */
  const Reserved: set<string> := {"host", "state", "ttl", "description"}

  lemma KeywordsAreReserved()
    ensures (set j | 0 <= j < |Keywords| :: Keywords[j]) == Reserved
  {
    var s := set j | 0 <= j < |Keywords| :: Keywords[j];
    assert Keywords[0] in s && Keywords[1] in s && Keywords[2] in s && Keywords[3] in s;
  }

  /** The caller's `Map<String, String>`: a shared object whose entries can be removed in place. */
  class TagMap {
    var entries: map<string, string>

    constructor (entries: map<string, string>)
      ensures this.entries == entries
    {
      this.entries := entries;
    }
  }

  /** The entries of `m` that are not reserved, unchanged. */
  function Remaining(m: map<string, string>): (r: map<string, string>)
    ensures forall k :: k in r <==> k in m && k !in Reserved
    ensures forall k :: k in r ==> r[k] == m[k]
  {
    m - Reserved
  }

  /** The keys of `m` whose value is `v`. */
  function KeysWith(m: map<string, string>, v: string): set<string> {
    set k | k in m && m[k] == v
  }

  /** The values of `m`, each counted once per key that holds it (Java's `Map.values()` collection). */
  ghost function ValueBag(m: map<string, string>): multiset<string>
    decreases |m|
  {
    if m == map[] then multiset{}
    else
      var k :| k in m;
      ValueBag(m - {k}) + multiset{m[k]}
  }

  /** Unfolds `ValueBag` at the key its definition happened to pick. */
  lemma ValueBagUnfold(m: map<string, string>) returns (k: string)
    requires m != map[]
    ensures k in m && ValueBag(m) == ValueBag(m - {k}) + multiset{m[k]}
  {
    assert exists j :: j in m && ValueBag(m) == ValueBag(m - {j}) + multiset{m[j]};
    k :| k in m && ValueBag(m) == ValueBag(m - {k}) + multiset{m[k]};
  }

  /** A value occurs in `ValueBag(m)` exactly as often as keys of `m` map to it. */
  lemma {:induction false} ValueBagCount(m: map<string, string>, v: string)
    ensures ValueBag(m)[v] == |KeysWith(m, v)|
    decreases |m|
  {
    if m != map[] {
      var k := ValueBagUnfold(m);
      ValueBagCount(m - {k}, v);
      KeysWithRemove(m, k, v);
    }
  }

  lemma KeysWithRemove(m: map<string, string>, k: string, v: string)
    requires k in m
    ensures |KeysWith(m, v)| == |KeysWith(m - {k}, v)| + (if m[k] == v then 1 else 0)
  {
    var rest := m - {k};
    if m[k] == v {
      assert k !in KeysWith(rest, v);
      assert KeysWith(m, v) == KeysWith(rest, v) + {k};
    } else {
      assert KeysWith(m, v) == KeysWith(rest, v);
    }
  }

  /** Taking out any one key takes exactly its value out of the bag, whatever the iteration order. */
  lemma ValueBagRemove(m: map<string, string>, k: string)
    requires k in m
    ensures ValueBag(m) == ValueBag(m - {k}) + multiset{m[k]}
  {
    forall v {
      ValueBagRemoveCount(m, k, v);
    }
  }

  lemma ValueBagRemoveCount(m: map<string, string>, k: string, v: string)
    requires k in m
    ensures ValueBag(m)[v] == (ValueBag(m - {k}) + multiset{m[k]})[v]
  {
    ValueBagCount(m, v);
    ValueBagCount(m - {k}, v);
    KeysWithRemove(m, k, v);
  }

  /** A value is in the tag list exactly when some non-reserved key holds it, once per such key. */
  lemma TagListValues(m: map<string, string>, v: string)
    ensures ValueBag(Remaining(m))[v] == |set k | k in m && k !in Reserved && m[k] == v|
    ensures v in ValueBag(Remaining(m)) <==> exists k :: k in m && k !in Reserved && m[k] == v
  {
    ValueBagCount(Remaining(m), v);
    assert KeysWith(Remaining(m), v) == set k | k in m && k !in Reserved && m[k] == v;
    if exists k :: k in m && k !in Reserved && m[k] == v {
      var k :| k in m && k !in Reserved && m[k] == v;
      assert k in KeysWith(Remaining(m), v);
    }
  }

  /** `new ArrayList<String>(tags.values())`: the values of `m` in some iteration order. */
  method ValuesInIterationOrder(m: map<string, string>) returns (values: seq<string>)
    ensures multiset(values) == ValueBag(m)
  {
    values := [];
    var rest := m;
    while rest != map[]
      invariant multiset(values) + ValueBag(rest) == ValueBag(m)
      decreases |rest|
    {
      var k :| k in rest;
      ValueBagRemove(rest, k);
      values := values + [rest[k]];
      rest := rest - {k};
    }
  }

  /**
   * `filter_keywords(tags)`: removes every reserved key from the caller's map and returns the
   * values left in it.
   */
  method FilterKeywords(tags: TagMap) returns (values: seq<string>)
    modifies tags
    ensures tags.entries == Remaining(old(tags.entries))
    ensures multiset(values) == ValueBag(tags.entries)
  {
    for i := 0 to |Keywords|
      invariant tags.entries == old(tags.entries) - set j | 0 <= j < i :: Keywords[j]
    {
      if Keywords[i] in tags.entries {
        tags.entries := tags.entries - {Keywords[i]};
      }
    }
    KeywordsAreReserved();
    values := ValuesInIterationOrder(tags.entries);
  }
}
