/**
 * `ModelEventRegistry`: the bridge between the host and the manager. It
 * turns the current stage's change notices into link creation, link removal
 * and attribute watcher calls, switches the event providers on and off as
 * the registered event types require, and hands provider events to the
 * manager's dispatch.
 *
 * The manager fires its notices on an event stream that it pumps right away,
 * so the registry hears each one while the manager call that fired it is
 * still running. Here the registry hears them (`DeliverNotices`) as soon as
 * that manager call returns; the calls the registry makes change no
 * activator, so the provider state it computes is the same.
 */
module ModelEventRegistry {
  import opened Optional
  import opened OrderedDict
  import opened Scene
  import opened EventTypes
  import opened Activators
  import opened LinkTable
  import opened EventProviders
  import opened ModelLinkManager

  /** A `Tf.Notice` registration: the stage whose notices it listens to, and whether it is still live. */
  datatype Listener = Listener(scope: Option<StageId>, live: bool)

  /** The stage event types `_on_stage_event` tells apart. */
  datatype StageEvent = Opened | Closed | OtherStageEvent

  /** The sender a listener registered for `s` is scoped to. */
  function ScopeOf(s: Option<Stage>): (r: Option<StageId>)
    ensures r.Some? <==> s.Some?
    ensures r.Some? ==> r.value == s.value.id
  {
    if s.Some? then Some(s.value.id) else None
  }

  /** A notice passes the filter of `_handle_usd_event` only when its sender is the current stage. */
  predicate FromStage(sender: Option<StageId>, stage: Option<Stage>) {
    sender.Some? && stage.Some? && sender.value == stage.value.id
  }

  /** Whether a link notice (link added or removed) is among `log[from..to]`. */
  predicate LinkNoticeIn(log: seq<Notice>, from: nat, to: nat) {
    exists i :: from <= i < to && to <= |log| && IsLinkNotice(log[i])
  }

  /** One more notice brings a link notice exactly when it is one. */
  lemma LinkNoticeSnoc(log: seq<Notice>, from: nat, i: nat)
    requires from <= i < |log|
    ensures LinkNoticeIn(log, from, i + 1) <==> LinkNoticeIn(log, from, i) || IsLinkNotice(log[i])
  {
    if LinkNoticeIn(log, from, i + 1) && !IsLinkNotice(log[i]) {
      var j :| from <= j < i + 1 && IsLinkNotice(log[j]);
      assert j < i;
    }
  }

  /** The subscriptions of `ps`, in order. */
  ghost function SubscriptionsOf(ps: seq<EventStreamProvider>): (r: seq<Option<Mode>>)
    reads (set i | 0 <= i < |ps| :: ps[i])`subscription
    ensures |r| == |ps| && forall i :: 0 <= i < |ps| ==> r[i] == ps[i].subscription
  {
    if ps == [] then [] else SubscriptionsOf(ps[..|ps| - 1]) + [ps[|ps| - 1].subscription]
  }

  /**
   * The subscription `_activate_event_providers` leaves `p` with when
   * `registered` is the set of registered event types: one in `p`'s mode when
   * the types meet, none otherwise.
   */
  function Wanted(p: EventStreamProvider, registered: set<EventType>): Option<Mode> {
    if p.GetTypes() * registered != {} then Some(ModeFor(p.usePush)) else None
  }

  /** The raw timeline event ids of play, pause and stop, as the dict literal `_register_event_providers` builds. */
  function TimelineNames(play: int, pause: int, stop: int): (r: ODict<int, string>)
    ensures r.Valid() && r.vals.Keys == {play, pause, stop}
    ensures r.vals[stop] == "stop"
    ensures pause != stop ==> r.vals[pause] == "pause"
    ensures play != pause && play != stop ==> r.vals[play] == "play"
  {
    Empty<int, string>().Put(play, "play").Put(pause, "pause").Put(stop, "stop")
  }

  /** A table mapping raw id 0 to `name`. */
  function SingleName(name: string): (r: ODict<int, string>)
    ensures r.Valid() && r.vals == map[0 := name]
  {
    Empty<int, string>().Put(0, name)
  }

  /** A provider remapping raw id 0 to `name` offers exactly the id of `name`. */
  lemma SingleNameTypes(name: string)
    ensures Remapped(SingleName(name)).Values == {TypeFor(name)}
  {
    var m := Remapped(SingleName(name));
    assert 0 in m && m[0] == TypeFor(name);
    assert m == map[0 := TypeFor(name)];
  }

  class EventRegistry {
    const manager: LinkManager
    /** `_stage`. */
    var stage: Option<Stage>
    /** `_listener`. */
    var listener: Option<Listener>
    /** `_event_providers`. */
    var providers: seq<EventStreamProvider>
    /** Whether `_stage_listener` still holds the subscription to the stage events. */
    var stageListening: bool
    /** Whether `_modellink_listener` holds the subscription to the manager's event stream. */
    var linkListening: bool
    /** How many of the manager's notices have been delivered. */
    var heard: nat

    ghost predicate Valid()
      reads this`heard, manager`links, manager`log
    {
      manager.links.Valid() && heard <= |manager.log|
    }

    function Providers(): set<EventStreamProvider>
      reads this`providers
    {
      set p | p in providers
    }

    /** Every provider is subscribed exactly when its types meet `registered`. */
    ghost predicate Synced(registered: set<EventType>)
      reads this`providers, Providers()`subscription
    {
      forall i :: 0 <= i < |providers| ==> providers[i].subscription == Wanted(providers[i], registered)
    }

    /** The providers' subscriptions, in order. */
    ghost function Subscriptions(): (r: seq<Option<Mode>>)
      reads this`providers, Providers()`subscription
      ensures |r| == |providers| && forall i :: 0 <= i < |providers| ==> r[i] == providers[i].subscription
    {
      SubscriptionsOf(providers)
    }

    /** No provider is subscribed. */
    ghost predicate AllOff()
      reads this`providers, Providers()`subscription
    {
      forall i :: 0 <= i < |providers| ==> providers[i].subscription == None
    }

    /**
     * Providers `n`, `n + 1` and `n + 2` are the pull-mode update, pre-update
     * and timeline providers that `_register_event_providers` appends.
     */
    ghost predicate DefaultProvidersAt(n: nat, play: int, pause: int, stop: int)
      reads this`providers
    {
      && |providers| == n + 3
      && providers[n].GetTypes() == {TypeFor("update")} && providers[n + 1].GetTypes() == {TypeFor("pre_update")}
      && providers[n + 2].typeMapping == Remapped(TimelineNames(play, pause, stop))
      && !providers[n].usePush && !providers[n + 1].usePush && !providers[n + 2].usePush
    }

    /**
     * `__init__`: registers the update, pre-update and timeline providers,
     * opens the context stage, and only then subscribes to the manager's
     * notices.
     */
    constructor (manager: LinkManager, contextStage: Option<Stage>, play: int, pause: int, stop: int)
      requires manager.links.Valid()
      modifies manager`links, manager`log, manager`eventCache
      ensures this.manager == manager && Valid()
      ensures DefaultProvidersAt(0, play, pause, stop)
      ensures fresh(providers[0]) && fresh(providers[1]) && fresh(providers[2])
      ensures stage == contextStage && listener == Some(Listener(ScopeOf(contextStage), true))
      ensures AllOff() && stageListening && linkListening && heard == |manager.log|
      ensures contextStage.None? ==> manager.links == old(manager.links)
    {
      this.manager := manager;
      stage := None;
      listener := None;
      stageListening := false;
      linkListening := false;
      providers := [];
      heard := |manager.log|;
      new;
      RegisterEventProviders(play, pause, stop);
      OpenAndListen(contextStage);
    }

    /** `_handle_stage_open`, then the stage event and manager event subscriptions. */
    method OpenAndListen(contextStage: Option<Stage>)
      requires Valid()
      modifies this`stage, this`listener, this`heard, this`stageListening, this`linkListening, Providers()
      modifies manager`links, manager`log, manager`eventCache
      ensures Valid() && providers == old(providers)
      ensures stage == contextStage && listener == Some(Listener(ScopeOf(contextStage), true))
      ensures AllOff() && stageListening && linkListening && heard == |manager.log|
      ensures contextStage.None? ==> manager.links == old(manager.links)
      ensures contextStage.Some? ==>
        var ps, ts := contextStage.value.Traversal(), old(manager.Targets(contextStage.value.nodes));
        manager.links == Relink(old(manager.links), ps, ts, true)
    {
      HandleStageOpen(contextStage);
      stageListening, linkListening := true, true;
    }

    /**
     * `_register_event_providers`: appends pull-mode providers for the update
     * stream (`{0: "update"}`), the pre-update stream (`{0: "pre_update"}`) and
     * the timeline stream (play, pause and stop), none of them subscribed.
     */
    method RegisterEventProviders(play: int, pause: int, stop: int)
      modifies this`providers
      ensures var n := |old(providers)|;
        && DefaultProvidersAt(n, play, pause, stop) && providers[..n] == old(providers)
        && fresh(providers[n]) && fresh(providers[n + 1]) && fresh(providers[n + 2])
        && providers[n].subscription == None && providers[n + 1].subscription == None
        && providers[n + 2].subscription == None
      ensures forall q :: q in Providers() ==> q in old(Providers()) || fresh(q)
    {
      var update := AddNewProvider(SingleName("update"));
      SingleNameTypes("update");
      var preUpdate := AddNewProvider(SingleName("pre_update"));
      SingleNameTypes("pre_update");
      var timeline := AddNewProvider(TimelineNames(play, pause, stop));
    }

    /** `add_event_provider(EventStreamProvider(stream, mapping))` for a stream in pull mode. */
    method AddNewProvider(mapping: ODict<int, string>) returns (p: EventStreamProvider)
      requires mapping.Valid()
      modifies this`providers
      ensures fresh(p) && p.typeMapping == Remapped(mapping) && !p.usePush && p.subscription == None
      ensures providers == old(providers) + [p]
      ensures forall q :: q in Providers() ==> q in old(Providers()) || fresh(q)
    {
      p := new EventStreamProvider(mapping, false);
      AddEventProvider(p);
    }

    /** `add_event_provider`. */
    method AddEventProvider(p: EventStreamProvider)
      modifies this`providers
      ensures providers == old(providers) + [p]
      ensures Providers() == old(Providers()) + {p}
    {
      providers := providers + [p];
    }

    /** `clear`: drops the scene listener and the providers' subscriptions, then the stage event subscription. */
    method Clear()
      modifies this`stage, this`listener, this`stageListening, Providers()
      ensures stage == None && AllOff() && !stageListening
      ensures listener == if old(listener).Some? then Some(old(listener).value.(live := false)) else None
    {
      ClearUsdEvents();
      stageListening := false;
    }

    /**
     * `_on_modellink_event`: a link added or removed recomputes which
     * providers are subscribed; the activator notices are only logged.
     */
    method OnModelLinkEvent(n: Notice)
      modifies Providers(), manager`eventCache
      ensures manager.CachedOrFresh() == old(manager.CachedOrFresh())
      ensures old(manager.CacheSound()) ==> manager.CacheSound()
      ensures IsLinkNotice(n) ==> Synced(old(manager.CachedOrFresh()))
      ensures !IsLinkNotice(n) ==> unchanged(Providers()) && manager.eventCache == old(manager.eventCache)
    {
      if n.LinkAdded? || n.LinkRemoved? {
        ActivateEventProviders();
      }
    }

    /** One delivery of the loop of `DeliverNotices`: notice `i` of `log` goes to `_on_modellink_event`. */
    method DeliverAt(log: seq<Notice>, from: nat, i: nat, ghost registered: set<EventType>, ghost sound: bool,
                     ghost before: seq<Option<Mode>>)
      requires from <= i < |log|
      requires manager.CachedOrFresh() == registered && (sound ==> manager.CacheSound())
      requires LinkNoticeIn(log, from, i) ==> Synced(registered)
      requires !LinkNoticeIn(log, from, i) ==> Subscriptions() == before
      modifies Providers(), manager`eventCache
      ensures manager.CachedOrFresh() == registered && (sound ==> manager.CacheSound())
      ensures LinkNoticeIn(log, from, i + 1) ==> Synced(registered)
      ensures !LinkNoticeIn(log, from, i + 1) ==> Subscriptions() == before
    {
      OnModelLinkEvent(log[i]);
      LinkNoticeSnoc(log, from, i);
    }

    /** Hands the notices of `log` from index `from` on, in order, to `_on_modellink_event`. */
    method DeliverFrom(log: seq<Notice>, from: nat)
      requires from <= |log|
      modifies Providers(), manager`eventCache
      ensures manager.CachedOrFresh() == old(manager.CachedOrFresh())
      ensures old(manager.CacheSound()) ==> manager.CacheSound()
      ensures LinkNoticeIn(log, from, |log|) ==> Synced(old(manager.CachedOrFresh()))
      ensures !LinkNoticeIn(log, from, |log|) ==> Subscriptions() == old(Subscriptions())
    {
      ghost var registered := manager.CachedOrFresh();
      ghost var sound := manager.CacheSound();
      ghost var before := Subscriptions();
      for i := from to |log|
        invariant manager.CachedOrFresh() == registered && (sound ==> manager.CacheSound())
        invariant LinkNoticeIn(log, from, i) ==> Synced(registered)
        invariant !LinkNoticeIn(log, from, i) ==> Subscriptions() == before
      {
        DeliverAt(log, from, i, registered, sound, before);
      }
    }

    /**
     * The manager's event stream handing its undelivered notices, in order,
     * to `_on_modellink_event`, when the registry is subscribed.
     */
    method DeliverNotices()
      requires Valid()
      modifies this`heard, Providers(), manager`eventCache
      ensures Valid() && heard == |manager.log|
      ensures manager.CachedOrFresh() == old(manager.CachedOrFresh())
      ensures old(manager.CacheSound()) ==> manager.CacheSound()
      ensures linkListening && LinkNoticeIn(manager.log, old(heard), |manager.log|) ==> Synced(old(manager.CachedOrFresh()))
      ensures !(linkListening && LinkNoticeIn(manager.log, old(heard), |manager.log|)) ==> Subscriptions() == old(Subscriptions())
    {
      var log, from := manager.log, heard;
      heard := |log|;
      forall a | a in old(manager.Filed()) ensures unchanged(a`members) { }
      manager.CacheFramed();
      if linkListening {
        DeliverFrom(log, from);
      }
    }

    /** `_is_event_type_used`: whether the provider's types meet the registered event types. */
    method IsEventTypeUsed(p: EventStreamProvider) returns (used: bool)
      modifies manager`eventCache
      ensures used <==> p.GetTypes() * old(manager.CachedOrFresh()) != {}
      ensures manager.CachedOrFresh() == old(manager.CachedOrFresh())
      ensures manager.eventCache == Some(old(manager.CachedOrFresh()))
      ensures old(manager.CacheSound()) ==>
        manager.CacheSound() && (used <==> p.GetTypes() * manager.RegisteredEvents() != {})
    {
      var registered := manager.GetRegisteredEvents();
      used := p.GetTypes() * registered != {};
    }

    /**
     * The body of the loop of `_activate_event_providers` for one provider:
     * unsubscribe it, then subscribe it again when its types are in use.
     */
    method Resubscribe(p: EventStreamProvider)
      modifies p, manager`eventCache
      ensures p.subscription == Wanted(p, old(manager.CachedOrFresh()))
      ensures manager.CachedOrFresh() == old(manager.CachedOrFresh())
      ensures manager.eventCache == Some(old(manager.CachedOrFresh()))
      ensures old(manager.CacheSound()) ==> manager.CacheSound()
    {
      Unsubscribe(p);
      var used := IsEventTypeUsed(p);
      if used {
        Subscribe(p);
      }
    }

    /** `provider.deactivate()`, which leaves the manager as it was. */
    method Unsubscribe(p: EventStreamProvider)
      modifies p
      ensures p.subscription == None
      ensures manager.CachedOrFresh() == old(manager.CachedOrFresh())
      ensures old(manager.CacheSound()) ==> manager.CacheSound()
    {
      var cancelled := p.Deactivate();
      forall a | a in old(manager.Filed()) ensures unchanged(a`members) { }
      manager.CacheFramed();
    }

    /** `provider.activate(self._on_event)`, which leaves the manager as it was. */
    method Subscribe(p: EventStreamProvider)
      modifies p
      ensures p.subscription == Some(ModeFor(p.usePush))
      ensures manager.CachedOrFresh() == old(manager.CachedOrFresh())
      ensures old(manager.CacheSound()) ==> manager.CacheSound()
    {
      p.Activate();
      forall a | a in old(manager.Filed()) ensures unchanged(a`members) { }
      manager.CacheFramed();
    }

    /**
     * `_activate_event_providers`: every provider is unsubscribed, then
     * subscribed again when its types meet the registered event types.
     */
    method ActivateEventProviders()
      modifies Providers(), manager`eventCache
      ensures Synced(old(manager.CachedOrFresh()))
      ensures manager.CachedOrFresh() == old(manager.CachedOrFresh())
      ensures old(manager.CacheSound()) ==> manager.CacheSound() && Synced(old(manager.RegisteredEvents()))
    {
      ghost var registered := manager.CachedOrFresh();
      for i := 0 to |providers|
        invariant manager.CachedOrFresh() == registered
        invariant i == 0 ==> manager.eventCache == old(manager.eventCache)
        invariant i > 0 ==> manager.eventCache == Some(registered)
        invariant forall j :: 0 <= j < i ==> providers[j].subscription == Wanted(providers[j], registered)
      {
        ResubscribeAt(i, registered);
        forall a | a in old(manager.Filed()) ensures unchanged(a`members) { }
        manager.CacheRefilled(registered);
      }
      forall a | a in old(manager.Filed()) ensures unchanged(a`members) { }
      if old(manager.CacheSound()) {
        manager.CacheRefilledSound();
      }
    }

    /** One step of the loop of `_activate_event_providers`: provider `i` is resubscribed, the earlier ones keep theirs. */
    method ResubscribeAt(i: nat, ghost registered: set<EventType>)
      requires i < |providers|
      requires manager.CachedOrFresh() == registered
      requires forall j :: 0 <= j < i ==> providers[j].subscription == Wanted(providers[j], registered)
      modifies providers[i], manager`eventCache
      ensures manager.eventCache == Some(registered)
      ensures forall j :: 0 <= j <= i ==> providers[j].subscription == Wanted(providers[j], registered)
    {
      var p := providers[i];
      ghost var ps, want := providers, Wanted(p, registered);
      Resubscribe(p);
      assert providers == ps && p.subscription == want;
      forall j | 0 <= j < i
        ensures ps[j].subscription == Wanted(ps[j], registered)
      {
        if ps[j] != p {
          assert ps[j].subscription == old(ps[j].subscription);
        }
      }
    }

    /** `_deactivate_event_providers`. */
    method DeactivateEventProviders()
      modifies Providers()
      ensures AllOff()
    {
      for i := 0 to |providers|
        invariant forall j :: 0 <= j < i ==> providers[j].subscription == None
      {
        var cancelled := providers[i].Deactivate();
      }
    }

    /** `_clear_usd_events`: revokes the scene listener, forgets the stage and unsubscribes every provider. */
    method ClearUsdEvents()
      modifies this`stage, this`listener, Providers()
      ensures stage == None && AllOff()
      ensures listener == if old(listener).Some? then Some(old(listener).value.(live := false)) else None
      ensures manager.CachedOrFresh() == old(manager.CachedOrFresh())
      ensures old(manager.CacheSound()) ==> manager.CacheSound()
    {
      if listener.Some? {
        listener := Some(listener.value.(live := false));
      }
      stage := None;
      DeactivateEventProviders();
      forall a | a in old(manager.Filed()) ensures unchanged(a`members) { }
      manager.CacheFramed();
    }

    /** `_setup_usd_events`: clears, then listens to the change notices of `s`. */
    method SetupUsdEvents(s: Option<Stage>)
      modifies this`stage, this`listener, Providers()
      ensures stage == s && listener == Some(Listener(ScopeOf(s), true)) && AllOff()
    {
      ClearUsdEvents();
      stage := s;
      listener := Some(Listener(ScopeOf(s), true));
    }

    /**
     * `_handle_stage_open`: relinks the whole context stage (`renew_all`),
     * then listens to its notices. Setting up the listener unsubscribes every
     * provider, including any the relinking subscribed.
     */
    method HandleStageOpen(contextStage: Option<Stage>)
      requires Valid()
      modifies this`stage, this`listener, this`heard, Providers(), manager`links, manager`log, manager`eventCache
      ensures Valid() && heard == |manager.log|
      ensures stage == contextStage && listener == Some(Listener(ScopeOf(contextStage), true))
      ensures AllOff()
      ensures contextStage.None? ==> manager.links == old(manager.links) && manager.log == old(manager.log)
      ensures contextStage.Some? ==>
        var ps, ts := contextStage.value.Traversal(), old(manager.Targets(contextStage.value.nodes));
        && manager.links == Relink(old(manager.links), ps, ts, true)
        && manager.log == old(manager.log) + RelinkNotices(old(manager.links), ps, ts, true)
    {
      manager.LinkEntireStage(contextStage, contextStage);
      stage := contextStage;
      DeliverNotices();
      SetupUsdEvents(contextStage);
    }

    /**
     * `_handle_stage_close`: clears the scene listener and the providers,
     * removes every link and forgets the stage. Each removed link is
     * announced, and hearing it subscribes the providers whose types are
     * registered again.
     */
    method HandleStageClose()
      requires Valid()
      modifies this`stage, this`listener, this`heard, Providers(), manager`links, manager`log, manager`eventCache
      ensures Valid() && heard == |manager.log|
      ensures stage == None && manager.links == Empty()
      ensures listener == if old(listener).Some? then Some(old(listener).value.(live := false)) else None
      ensures manager.log == old(manager.log) + Removals(old(manager.links), old(manager.links).keys, None)
      ensures linkListening && LinkNoticeIn(manager.log, old(heard), |manager.log|) ==> Synced(old(manager.CachedOrFresh()))
      ensures !(linkListening && LinkNoticeIn(manager.log, old(heard), |manager.log|)) ==> AllOff()
    {
      ClearUsdEvents();
      ClearLinksHeard();
      stage := None;
    }

    /** `clear_links()` on the manager, whose removal notices the registry hears as they are pumped. */
    method ClearLinksHeard()
      requires Valid()
      modifies this`heard, Providers(), manager`links, manager`log, manager`eventCache
      ensures Valid() && heard == |manager.log| && manager.links == Empty()
      ensures manager.log == old(manager.log) + Removals(old(manager.links), old(manager.links).keys, None)
      ensures linkListening && LinkNoticeIn(manager.log, old(heard), |manager.log|) ==> Synced(old(manager.CachedOrFresh()))
      ensures !(linkListening && LinkNoticeIn(manager.log, old(heard), |manager.log|)) ==> (old(AllOff()) ==> AllOff())
    {
      manager.ClearLinks();
      DeliverNotices();
    }

    /** `_on_stage_event`, while the stage event subscription is held. */
    method OnStageEvent(e: StageEvent, contextStage: Option<Stage>)
      requires Valid()
      modifies this`stage, this`listener, this`heard, Providers(), manager`links, manager`log, manager`eventCache
      ensures Valid()
      ensures !stageListening || e == OtherStageEvent ==>
        unchanged(this) && unchanged(Providers()) && manager.links == old(manager.links) && manager.log == old(manager.log)
      ensures stageListening && e == Opened ==>
        stage == contextStage && listener == Some(Listener(ScopeOf(contextStage), true)) && AllOff()
      ensures stageListening && e == Opened && contextStage.None? ==>
        manager.links == old(manager.links) && manager.log == old(manager.log)
      ensures stageListening && e == Opened && contextStage.Some? ==>
        var ps, ts := contextStage.value.Traversal(), old(manager.Targets(contextStage.value.nodes));
        && manager.links == Relink(old(manager.links), ps, ts, true)
        && manager.log == old(manager.log) + RelinkNotices(old(manager.links), ps, ts, true)
      ensures stageListening && e == Closed ==>
        && stage == None && manager.links == Empty()
        && listener == (if old(listener).Some? then Some(old(listener).value.(live := false)) else None)
        && manager.log == old(manager.log) + Removals(old(manager.links), old(manager.links).keys, None)
        && (linkListening && LinkNoticeIn(manager.log, old(heard), |manager.log|) ==> Synced(old(manager.CachedOrFresh())))
        && (!(linkListening && LinkNoticeIn(manager.log, old(heard), |manager.log|)) ==> AllOff())
    {
      if stageListening {
        match e {
          case Opened => HandleStageOpen(contextStage);
          case Closed => HandleStageClose();
          case OtherStageEvent =>
        }
      }
    }

    /**
     * One iteration of the resync loop of `_handle_usd_event`: a present,
     * active prim gets `create_new_link`, an absent one `remove_link`.
     */
    method ResyncAt(ghost start: Links, rps: seq<ScenePath>, i: nat, s: Stage, ghost ts: map<PrimPath, Activator>,
                    ghost base: seq<Notice>)
      requires i < |rps| && manager.links.Valid()
      requires var rp := rps[i];
        IsPrimPath(rp) && rp.path in s.nodes ==>
          && (rp.path in ts <==> s.nodes[rp.path].active && manager.Target(s.nodes[rp.path]).Some?)
          && (rp.path in ts ==> manager.Target(s.nodes[rp.path]) == Some(ts[rp.path]))
      requires manager.links == Resynced(start, rps[..i], s.nodes, ts)
      requires manager.log == base + ResyncNotices(start, rps[..i], s.nodes, ts)
      modifies manager`links, manager`log
      ensures manager.links.Valid()
      ensures manager.links == Resynced(start, rps[..i + 1], s.nodes, ts)
      ensures manager.log == base + ResyncNotices(start, rps[..i + 1], s.nodes, ts)
    {
      ResyncStep(start, rps, i, s.nodes, ts);
      var rp := rps[i];
      ghost var before := ResyncNotices(start, rps[..i], s.nodes, ts);
      if IsPrimPath(rp) {
        if rp.path in s.nodes && s.nodes[rp.path].active {
          ghost var added := if rp.path in ts then [LinkAdded(rp.path, ts[rp.path].clazz.name)] else [];
          manager.CreateNewLink(rp.path, s.nodes[rp.path]);
          AppendAssoc(base, before, added);
        }
        if rp.path !in s.nodes {
          ghost var prev := manager.links;
          ghost var removed := if rp.path in prev.vals then [LinkRemoved(rp.path, prev.vals[rp.path].clazz.name)] else [];
          if rp.path !in prev.vals {
            RemoveAbsent(prev, rp.path);
          }
          manager.RemoveLink(rp.path);
          AppendAssoc(base, before, removed);
        }
      }
    }

    /** The resync loop of `_handle_usd_event` over the prim paths `rps` of stage `s`. */
    method ResyncAll(rps: seq<ScenePath>, s: Stage)
      requires manager.links.Valid()
      modifies manager`links, manager`log
      ensures manager.links.Valid()
      ensures var ts := old(manager.Targets(s.nodes));
        && manager.links == Resynced(old(manager.links), rps, s.nodes, ts)
        && manager.log == old(manager.log) + ResyncNotices(old(manager.links), rps, s.nodes, ts)
    {
      ghost var ts := manager.Targets(s.nodes);
      ghost var start := manager.links;
      for i := 0 to |rps|
        invariant manager.links.Valid()
        invariant manager.links == Resynced(start, rps[..i], s.nodes, ts)
        invariant manager.log == old(manager.log) + ResyncNotices(start, rps[..i], s.nodes, ts)
      {
        if IsPrimPath(rps[i]) && rps[i].path in s.nodes {
          manager.TargetFramed(s.nodes[rps[i].path]);
        }
        ResyncAt(start, rps, i, s, ts, old(manager.log));
      }
      assert rps[..|rps|] == rps;
    }

    /** The `property_changed` loop of `_handle_usd_event`: the watcher calls, in order. */
    method WatchAll(cps: seq<ScenePath>) returns (calls: seq<AttrCall>)
      requires manager.links.Valid()
      ensures calls == manager.Watched(cps)
    {
      calls := [];
      for i := 0 to |cps|
        invariant calls == manager.Watched(cps[..i])
      {
        assert cps[..i + 1][..i] == cps[..i];
        if IsPropertyPath(cps[i]) {
          var r := manager.PropertyChanged(cps[i]);
          if r.Some? {
            calls := calls + [r.value];
          }
        }
      }
      assert cps[..|cps|] == cps;
    }

    /**
     * `_handle_usd_event`: a notice from another sender (or none) is
     * ignored. Otherwise every resynced prim path is handled first, then
     * `property_changed` runs on every changed-info property path; the
     * watcher calls it makes are answered in order. The prims are looked
     * up in `live`, what `_stage` holds when the notice arrives, which may
     * differ from what it held when it was opened.
     */
    method HandleUsdEvent(notice: ObjectsChanged, sender: Option<StageId>, live: Stage) returns (calls: seq<AttrCall>)
      requires Valid()
      requires stage.Some? ==> live.id == stage.value.id
      modifies this`heard, Providers(), manager`links, manager`log, manager`eventCache
      ensures Valid()
      ensures !FromStage(sender, stage) ==>
        && calls == [] && manager.links == old(manager.links) && manager.log == old(manager.log)
        && heard == old(heard) && unchanged(Providers())
      ensures FromStage(sender, stage) ==>
        var nodes := live.nodes;
        var ts := old(manager.Targets(nodes));
        && manager.links == Resynced(old(manager.links), notice.resynced, nodes, ts)
        && manager.log == old(manager.log) + ResyncNotices(old(manager.links), notice.resynced, nodes, ts)
        && calls == manager.Watched(notice.changedInfoOnly)
        && heard == |manager.log|
        && (linkListening && LinkNoticeIn(manager.log, old(heard), |manager.log|) ==> Synced(old(manager.CachedOrFresh())))
        && (!(linkListening && LinkNoticeIn(manager.log, old(heard), |manager.log|)) ==> Subscriptions() == old(Subscriptions()))
    {
      calls := [];
      if !FromStage(sender, stage) {
        return;
      }
      ResyncAll(notice.resynced, live);
      assert Subscriptions() == old(Subscriptions());
      forall a | a in old(manager.Filed()) ensures unchanged(a`members) { }
      manager.CacheFramed();
      DeliverNotices();
      calls := WatchAll(notice.changedInfoOnly);
    }

    /** `_on_event`: a provider's event is dispatched to every link. */
    method OnEvent(t: EventType, playing: bool) returns (calls: seq<Call>)
      requires manager.links.Valid()
      ensures calls == Dispatched(manager.links.keys, manager.LinkMembers(), manager.editFlags, t, playing)
    {
      calls := manager.DispatchEvents(t, playing);
    }

    /**
     * A host event of `rawType` on the stream of `p`: when `p` is subscribed
     * and maps that type, the mapped id is dispatched; otherwise nothing runs.
     */
    method OnStreamEvent(p: EventStreamProvider, rawType: int, playing: bool) returns (calls: seq<Call>)
      requires manager.links.Valid()
      ensures p.Delivered(rawType).None? ==> calls == []
      ensures p.Delivered(rawType).Some? ==>
        rawType in p.typeMapping
        && calls == Dispatched(manager.links.keys, manager.LinkMembers(), manager.editFlags, p.typeMapping[rawType], playing)
    {
      calls := [];
      var t := p.Delivered(rawType);
      if t.Some? {
        calls := OnEvent(t.value, playing);
      }
    }
  }
}
