/**
 * Event providers: adapters that subscribe to one of the host's event
 * streams and forward its events, with their raw type ids translated into
 * the engine's event type space.
 */
module EventProviders {
  import opened Optional
  import opened EventTypes
  import opened OrderedDict

  /** The table `remap_types` builds: same raw ids, each name interned with `type_for`. */
  ghost function Remapped(typeMapping: ODict<int, string>): map<int, int> {
    map k | k in typeMapping.vals :: TypeFor(typeMapping.vals[k])
  }

  /** `EventProvider.remap_types`: builds the interned table one entry at a time, in key order. */
  method RemapTypes(typeMapping: ODict<int, string>) returns (newMap: map<int, int>)
    requires typeMapping.Valid()
    ensures newMap == Remapped(typeMapping)
  {
    newMap := map[];
    var keys := typeMapping.keys;
    for i := 0 to |keys|
      invariant forall k :: k in newMap <==> k in keys[..i]
      invariant forall k :: k in newMap ==> k in typeMapping.vals && newMap[k] == TypeFor(typeMapping.vals[k])
    {
      var k := keys[i];
      assert keys[..i + 1] == keys[..i] + [k];
      newMap := newMap[k := TypeFor(typeMapping.vals[k])];
    }
    assert keys[..|keys|] == keys;
    forall k
      ensures k in newMap <==> k in Remapped(typeMapping)
    {
      assert k in typeMapping.vals <==> k in keys;
    }
    assert newMap.Keys == Remapped(typeMapping).Keys;
    assert forall k :: k in newMap ==> newMap[k] == Remapped(typeMapping)[k];
  }

  /**
   * A provider built from a table of names offers the id of `name` exactly
   * when `name` is one of the table's names, and two raw ids share an
   * interned id only when they share a name.
   */
  lemma RemappedOffers(typeMapping: ODict<int, string>, name: string)
    ensures (exists k :: k in Remapped(typeMapping) && Remapped(typeMapping)[k] == TypeFor(name))
        <==> (exists k :: k in typeMapping.vals && typeMapping.vals[k] == name)
    ensures forall k1, k2 :: k1 in typeMapping.vals && k2 in typeMapping.vals ==>
      (Remapped(typeMapping)[k1] == Remapped(typeMapping)[k2] <==> typeMapping.vals[k1] == typeMapping.vals[k2])
  {
    var m, r := typeMapping.vals, Remapped(typeMapping);
    if exists k :: k in r && r[k] == TypeFor(name) {
      var k :| k in r && r[k] == TypeFor(name);
      TypeForInjective(m[k], name);
    }
    forall k1, k2 | k1 in m && k2 in m
      ensures r[k1] == r[k2] <==> m[k1] == m[k2]
    {
      TypeForInjective(m[k1], m[k2]);
    }
  }

  /** How a subscription receives events: as they are pushed, or when the stream is pumped. */
  datatype Mode = PushMode | PopMode

  /** The mode `activate` subscribes with. */
  function ModeFor(usePush: bool): Mode {
    if usePush then PushMode else PopMode
  }

  /** `EventStreamProvider`: forwards the mapped events of one host event stream. */
  class EventStreamProvider {
    const typeMapping: map<int, int>
    const usePush: bool
    /** The live subscription to the stream, if any. */
    var subscription: Option<Mode>

    constructor (mapping: ODict<int, string>, usePush: bool)
      requires mapping.Valid()
      ensures typeMapping == Remapped(mapping)
      ensures this.usePush == usePush
      ensures subscription == None
    {
      var m := RemapTypes(mapping);
      typeMapping := m;
      this.usePush := usePush;
      subscription := None;
    }

    /** `get_types`: the interned ids this provider can forward. */
    function GetTypes(): set<int> {
      typeMapping.Values
    }

    /**
     * The filtering closure `activate` installs: an event of a mapped raw
     * type is forwarded with its interned id, any other event is dropped.
     */
    function Forward(rawType: int): (r: Option<int>)
      ensures r.Some? <==> rawType in typeMapping
      ensures r.Some? ==> r.value == typeMapping[rawType] && r.value in GetTypes()
    {
      if rawType in typeMapping then Some(typeMapping[rawType]) else None
    }

    /** What reaches the callback when the stream emits an event of `rawType`. */
    function Delivered(rawType: int): (r: Option<int>)
      reads this
      ensures r.Some? <==> subscription.Some? && rawType in typeMapping
      ensures r.Some? ==> r.value == typeMapping[rawType] && r.value in GetTypes()
    {
      if subscription.None? then None else Forward(rawType)
    }

    /** `activate`: subscribes in push mode iff `use_push`, otherwise in pop mode. */
    method Activate()
      modifies this
      ensures subscription == Some(ModeFor(usePush))
    {
      subscription := Some(ModeFor(usePush));
    }

    /**
     * `deactivate`: unsubscribes when subscribed and leaves no subscription;
     * `unsubscribed` tells whether there was one to cancel.
     */
    method Deactivate() returns (unsubscribed: bool)
      modifies this
      ensures subscription == None
      ensures unsubscribed == old(subscription).Some?
    {
      unsubscribed := subscription.Some?;
      if subscription.Some? {
        subscription := None;
      }
    }
  }
}
