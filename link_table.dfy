/**
 * The link table: which prim path is linked to which activator, and the
 * effect on it of the manager's scans, resyncs and removals, stated on
 * values. A link is represented by the activator that created it; the
 * instance it holds is not part of this model.
 */
module LinkTable {
  import opened Optional
  import opened OrderedDict
  import opened Scene
  import opened Activators

  /** The lifecycle events the manager fires on its event stream, with their payloads. */
  datatype Notice =
    | LinkAdded(path: PrimPath, className: string)
    | LinkRemoved(path: PrimPath, className: string)
    | ActivatorAdded(kind: Kind, reference: string, className: string)
    | ActivatorRemoved(kind: Kind, reference: string, className: string)
    | ActivatorEnabled(kind: Kind, reference: string, className: string)
    | ActivatorDisabled(kind: Kind, reference: string, className: string)

  /** The notices the event registry reacts to. */
  predicate IsLinkNotice(n: Notice) {
    n.LinkAdded? || n.LinkRemoved?
  }

  /** `_links`: prim path to link, in insertion order. */
  type Links = ODict<PrimPath, Activator>

  /**
   * The links after `create_new_link` has been tried, in order, on the paths
   * of `ps` (all of them when `renew`, otherwise only the unlinked ones);
   * `targets` says which enabled activator a path would be linked to.
   */
  function Relink(links: Links, ps: seq<PrimPath>, targets: map<PrimPath, Activator>, renew: bool): (r: Links)
    ensures links.Valid() ==> r.Valid()
    ensures forall p :: p in r.vals <==> p in links.vals || (p in ps && p in targets)
    ensures forall p :: p in ps && p in targets && (renew || p !in links.vals) ==> r.vals[p] == targets[p]
    ensures forall p :: p in links.vals && !(renew && p in ps && p in targets) ==> r.vals[p] == links.vals[p]
  {
    if ps == [] then links
    else
      var init := ps[..|ps| - 1];
      var prev := Relink(links, init, targets, renew);
      var p := ps[|ps| - 1];
      assert forall q :: q in ps <==> q in init || q == p;
      if (renew || p !in prev.vals) && p in targets then prev.Put(p, targets[p]) else prev
  }

  /**
   * The `LinkAdded` notices the same scan fires, in order: one for every
   * link the scan creates or renews, and no other.
   */
  function RelinkNotices(links: Links, ps: seq<PrimPath>, targets: map<PrimPath, Activator>, renew: bool): (r: seq<Notice>)
    ensures forall n :: n in r ==>
      n.LinkAdded? && n.path in ps && n.path in targets && n.className == targets[n.path].clazz.name
    ensures !renew ==> forall n :: n in r ==> n.path !in links.vals
    ensures forall p :: p in ps && p in targets && (renew || p !in links.vals) ==>
      LinkAdded(p, targets[p].clazz.name) in r
  {
    if ps == [] then []
    else
      var init := ps[..|ps| - 1];
      var rest := RelinkNotices(links, init, targets, renew);
      var prev := Relink(links, init, targets, renew);
      var p := ps[|ps| - 1];
      assert forall q :: q in ps <==> q in init || q == p;
      if (renew || p !in prev.vals) && p in targets then rest + [LinkAdded(p, targets[p].clazz.name)] else rest
  }

  /** One step of the scan: the `i`-th path is linked to its target when it has one and is unlinked or `renew` holds. */
  lemma RelinkStep(links: Links, ps: seq<PrimPath>, i: nat, targets: map<PrimPath, Activator>, renew: bool)
    requires i < |ps|
    ensures var cur, p := Relink(links, ps[..i], targets, renew), ps[i];
      var hit := (renew || p !in cur.vals) && p in targets;
      && Relink(links, ps[..i + 1], targets, renew) == (if hit then cur.Put(p, targets[p]) else cur)
      && RelinkNotices(links, ps[..i + 1], targets, renew)
           == RelinkNotices(links, ps[..i], targets, renew) + (if hit then [LinkAdded(p, targets[p].clazz.name)] else [])
  {
    assert ps[..i + 1][..i] == ps[..i];
  }

  /** A scan over paths that are all linked already (or have no target) changes nothing and fires nothing. */
  lemma {:induction false} RelinkCovered(links: Links, ps: seq<PrimPath>, targets: map<PrimPath, Activator>)
    requires forall p :: p in ps && p in targets ==> p in links.vals
    ensures Relink(links, ps, targets, false) == links
    ensures RelinkNotices(links, ps, targets, false) == []
  {
    if ps != [] {
      var init := ps[..|ps| - 1];
      assert forall p :: p in init ==> p in ps;
      RelinkCovered(links, init, targets);
    }
  }

  /** `update_links()` run twice on an unchanged stage: the second run links nothing and fires nothing. */
  lemma RescanAddsNothing(links: Links, ps: seq<PrimPath>, targets: map<PrimPath, Activator>)
    ensures Relink(Relink(links, ps, targets, false), ps, targets, false) == Relink(links, ps, targets, false)
    ensures RelinkNotices(Relink(links, ps, targets, false), ps, targets, false) == []
  {
    RelinkCovered(Relink(links, ps, targets, false), ps, targets);
  }

  /** Whether removal with `owner` hits the link at `p`: any link when `owner` is `None`, else that activator's. */
  predicate Hit(links: Links, p: PrimPath, owner: Option<Activator>) {
    p in links.vals && (owner.None? || links.vals[p] == owner.value)
  }

  /** The paths among `ks` whose links removal with `owner` hits. */
  function Doomed(links: Links, ks: seq<PrimPath>, owner: Option<Activator>): set<PrimPath> {
    set p | p in ks && Hit(links, p, owner)
  }

  /** Extending the scanned paths by one adds that path to the doomed ones exactly when removal hits it. */
  lemma DoomedStep(links: Links, ks: seq<PrimPath>, k: PrimPath, owner: Option<Activator>)
    ensures Doomed(links, ks + [k], owner) == Doomed(links, ks, owner) + (if Hit(links, k, owner) then {k} else {})
  {
    assert forall q :: q in ks + [k] <==> q in ks || q == k;
  }

  /**
   * One step of the removal loop over the snapshot `links.keys`: after the
   * first `i` paths, removing the next one if removal hits it gives the state
   * after `i + 1` paths.
   */
  lemma RemovalStep(start: Links, i: nat, owner: Option<Activator>)
    requires start.Valid() && i < |start.keys|
    ensures var ks, k := start.keys, start.keys[i];
      var cur := start.RemoveAll(Doomed(start, ks[..i], owner));
      && (Hit(cur, k, owner) <==> Hit(start, k, owner))
      && (Hit(cur, k, owner) ==>
            cur.vals[k] == start.vals[k] && cur.Remove(k) == start.RemoveAll(Doomed(start, ks[..i + 1], owner)))
      && (!Hit(cur, k, owner) ==> cur == start.RemoveAll(Doomed(start, ks[..i + 1], owner)))
      && Removals(start, ks[..i + 1], owner) == Removals(start, ks[..i], owner)
           + (if Hit(start, k, owner) then [LinkRemoved(k, start.vals[k].clazz.name)] else [])
  {
    var ks, k := start.keys, start.keys[i];
    var gone := Doomed(start, ks[..i], owner);
    assert ks[..i + 1] == ks[..i] + [k];
    assert ks[..i + 1][..i] == ks[..i];
    assert k !in gone;
    assert k in start.vals by { assert k in ks; }
    DoomedStep(start, ks[..i], k, owner);
    if Hit(start, k, owner) {
      RemoveAllTwice(start, gone, {k});
    } else {
      assert Doomed(start, ks[..i + 1], owner) == gone;
    }
  }

  /** Before the removal loop: nothing scanned, nothing removed, nothing announced. */
  lemma RemovalStart(start: Links, owner: Option<Activator>)
    requires start.Valid()
    ensures start.RemoveAll(Doomed(start, start.keys[..0], owner)) == start
    ensures Removals(start, start.keys[..0], owner) == []
  {
    assert Doomed(start, start.keys[..0], owner) == {};
    KeysNotInAbsent(start.keys, {});
    assert start.vals - {} == start.vals;
  }

  /** After the removal loop over every path of the snapshot: exactly `Unlinked`. */
  lemma RemovalEnd(start: Links, owner: Option<Activator>)
    requires start.Valid()
    ensures start.RemoveAll(Doomed(start, start.keys[..|start.keys|], owner)) == Unlinked(start, owner)
    ensures Removals(start, start.keys[..|start.keys|], owner) == Removals(start, start.keys, owner)
  {
    assert start.keys[..|start.keys|] == start.keys;
  }

  /**
   * The links left by `clear_links` (`owner == None`) or by
   * `_remove_links_for_activator(a)` (`owner == Some(a)`): exactly the links
   * of other activators remain, unchanged and in their order.
   */
  function Unlinked(links: Links, owner: Option<Activator>): (r: Links)
    requires links.Valid()
    ensures r.Valid()
    ensures forall p :: p in r.vals <==> p in links.vals && owner.Some? && links.vals[p] != owner.value
    ensures forall p :: p in r.vals ==> r.vals[p] == links.vals[p]
    ensures r.keys == KeysNotIn(links.keys, Doomed(links, links.keys, owner))
    ensures owner.None? ==> r == Empty()
  {
    var gone := Doomed(links, links.keys, owner);
    if owner.None? then
      KeysNotInCovering(links.keys, gone);
      assert links.vals - gone == map[];
      links.RemoveAll(gone)
    else
      links.RemoveAll(gone)
  }

  /** The `LinkRemoved` notices of that removal, in the order of `ks`. */
  function Removals(links: Links, ks: seq<PrimPath>, owner: Option<Activator>): (r: seq<Notice>)
    ensures forall n :: n in r ==>
      n.LinkRemoved? && n.path in ks && Hit(links, n.path, owner) && n.className == links.vals[n.path].clazz.name
    ensures forall p :: p in ks && Hit(links, p, owner) ==> LinkRemoved(p, links.vals[p].clazz.name) in r
  {
    if ks == [] then []
    else
      var init := ks[..|ks| - 1];
      var k := ks[|ks| - 1];
      assert forall q :: q in ks <==> q in init || q == k;
      Removals(links, init, owner) + (if Hit(links, k, owner) then [LinkRemoved(k, links.vals[k].clazz.name)] else [])
  }

  /** A resynced path that names a prim (not `/`, not a property). */
  predicate ResyncedPrim(rps: seq<ScenePath>, p: PrimPath) {
    p != [] && PrimAt(p) in rps
  }

  /**
   * The links after the resync loop of `_handle_usd_event`: a prim that is
   * present and active gets `create_new_link`, an absent one `remove_link`.
   * `targets` holds the enabled activator of each present, active prim that
   * has one.
   */
  function Resynced(links: Links, rps: seq<ScenePath>, nodes: map<PrimPath, Node>, targets: map<PrimPath, Activator>): (r: Links)
    ensures links.Valid() ==> r.Valid()
  {
    if rps == [] then links
    else
      var prev := Resynced(links, rps[..|rps| - 1], nodes, targets);
      var rp := rps[|rps| - 1];
      if !IsPrimPath(rp) then prev
      else if rp.path !in nodes then prev.Remove(rp.path)
      else if rp.path in targets then prev.Put(rp.path, targets[rp.path])
      else prev
  }

  /** The notices the resync loop fires, in order. */
  function ResyncNotices(links: Links, rps: seq<ScenePath>, nodes: map<PrimPath, Node>, targets: map<PrimPath, Activator>): (r: seq<Notice>)
    ensures forall n :: n in r ==> IsLinkNotice(n) && ResyncedPrim(rps, n.path)
  {
    if rps == [] then []
    else
      var init := rps[..|rps| - 1];
      var rest := ResyncNotices(links, init, nodes, targets);
      var prev := Resynced(links, init, nodes, targets);
      var rp := rps[|rps| - 1];
      assert forall q :: q in rps <==> q in init || q == rp;
      if !IsPrimPath(rp) then rest
      else if rp.path !in nodes then
        (if rp.path in prev.vals then rest + [LinkRemoved(rp.path, prev.vals[rp.path].clazz.name)] else rest)
      else if rp.path in targets then rest + [LinkAdded(rp.path, targets[rp.path].clazz.name)]
      else rest
  }

  /** One step of the resync loop: the `i`-th resynced path acts on the links the earlier ones left. */
  lemma ResyncStep(links: Links, rps: seq<ScenePath>, i: nat, nodes: map<PrimPath, Node>, targets: map<PrimPath, Activator>)
    requires i < |rps|
    ensures var prev, rp := Resynced(links, rps[..i], nodes, targets), rps[i];
      && Resynced(links, rps[..i + 1], nodes, targets) ==
           (if !IsPrimPath(rp) then prev
            else if rp.path !in nodes then prev.Remove(rp.path)
            else if rp.path in targets then prev.Put(rp.path, targets[rp.path])
            else prev)
      && ResyncNotices(links, rps[..i + 1], nodes, targets) == ResyncNotices(links, rps[..i], nodes, targets) +
           (if !IsPrimPath(rp) then []
            else if rp.path !in nodes then (if rp.path in prev.vals then [LinkRemoved(rp.path, prev.vals[rp.path].clazz.name)] else [])
            else if rp.path in targets then [LinkAdded(rp.path, targets[rp.path].clazz.name)]
            else [])
  {
    assert rps[..i + 1][..i] == rps[..i];
  }

  /**
   * What a resync notice does to each path: a resynced prim that is gone is
   * unlinked, one that is present and active with an enabled activator is
   * linked to it, and every other path (including the descendants of a
   * resynced prim) keeps its link.
   */
  lemma {:induction false} ResyncOutcome(links: Links, rps: seq<ScenePath>, nodes: map<PrimPath, Node>,
                                         targets: map<PrimPath, Activator>, p: PrimPath)
    requires forall q :: q in targets ==> q in nodes
    ensures var r := Resynced(links, rps, nodes, targets);
      && (ResyncedPrim(rps, p) && p !in nodes ==> p !in r.vals)
      && (ResyncedPrim(rps, p) && p in targets ==> p in r.vals && r.vals[p] == targets[p])
      && (!ResyncedPrim(rps, p) || (p in nodes && p !in targets) ==>
            (p in r.vals <==> p in links.vals) && (p in r.vals ==> r.vals[p] == links.vals[p]))
  {
    if rps != [] {
      var init := rps[..|rps| - 1];
      var rp := rps[|rps| - 1];
      ResyncOutcome(links, init, nodes, targets, p);
      assert forall q :: q in rps <==> q in init || q == rp;
      assert ResyncedPrim(rps, p) <==> ResyncedPrim(init, p) || (IsPrimPath(rp) && rp.path == p);
    }
  }

  /**
   * Every link a resync changes is announced: a resynced prim that is gone
   * and was linked gets a `LinkRemoved` with its class, and one that is
   * linked gets a `LinkAdded` with its activator's class.
   */
  lemma {:induction false} ResyncAnnounced(links: Links, rps: seq<ScenePath>, nodes: map<PrimPath, Node>,
                                           targets: map<PrimPath, Activator>, p: PrimPath)
    requires forall q :: q in targets ==> q in nodes
    ensures var r := ResyncNotices(links, rps, nodes, targets);
      && (ResyncedPrim(rps, p) && p !in nodes && p in links.vals ==> LinkRemoved(p, links.vals[p].clazz.name) in r)
      && (ResyncedPrim(rps, p) && p in targets ==> LinkAdded(p, targets[p].clazz.name) in r)
  {
    if rps != [] {
      var init := rps[..|rps| - 1];
      var rp := rps[|rps| - 1];
      ResyncAnnounced(links, init, nodes, targets, p);
      ResyncOutcome(links, init, nodes, targets, p);
      assert forall q :: q in rps <==> q in init || q == rp;
      assert ResyncedPrim(rps, p) <==> ResyncedPrim(init, p) || (IsPrimPath(rp) && rp.path == p);
    }
  }

  /** A call made by `dispatch_events`: the linked prim and the handler run for it. */
  datatype Call = Call(path: PrimPath, fn: Callable)

  /** The calls `dispatch_events(t)` makes, visiting the links of `ks` in order. */
  function Dispatched(ks: seq<PrimPath>, members: map<PrimPath, Members>, flags: EditFlags, t: EventType, playing: bool): (r: seq<Call>)
  {
    if ks == [] then []
    else
      var k := ks[|ks| - 1];
      Dispatched(ks[..|ks| - 1], members, flags, t, playing)
        + (if k in members then CallsAt(k, Gated(HandlersFor(members[k], t), flags, playing)) else [])
  }

  /** One step of the dispatch loop: the `i`-th link's calls come after those of the links before it. */
  lemma DispatchStep(ks: seq<PrimPath>, i: nat, members: map<PrimPath, Members>, flags: EditFlags, t: EventType, playing: bool)
    requires i < |ks|
    ensures Dispatched(ks[..i + 1], members, flags, t, playing) == Dispatched(ks[..i], members, flags, t, playing)
      + (if ks[i] in members then CallsAt(ks[i], Gated(HandlersFor(members[ks[i]], t), flags, playing)) else [])
  {
    assert ks[..i + 1][..i] == ks[..i];
  }

  function CallsAt(p: PrimPath, fns: seq<Callable>): (r: seq<Call>)
    ensures |r| == |fns| && forall i :: 0 <= i < |r| ==> r[i] == Call(p, fns[i])
  {
    if fns == [] then [] else [Call(p, fns[0])] + CallsAt(p, fns[1..])
  }

  /**
   * The editmode gate over a whole dispatch: every call is a handler of `t`
   * on a linked prim that passes the gate, and every such handler is called.
   */
  lemma {:induction false} DispatchGate(ks: seq<PrimPath>, members: map<PrimPath, Members>, flags: EditFlags, t: EventType, playing: bool, c: Call)
    ensures c in Dispatched(ks, members, flags, t, playing) <==>
      c.path in ks && c.path in members && c.fn in HandlersFor(members[c.path], t) && Fires(c.fn, flags, playing)
  {
    if ks != [] {
      var init := ks[..|ks| - 1];
      var k := ks[|ks| - 1];
      DispatchGate(init, members, flags, t, playing, c);
      assert forall q :: q in ks <==> q in init || q == k;
      if k in members {
        var fns := Gated(HandlersFor(members[k], t), flags, playing);
        var calls := CallsAt(k, fns);
        assert c in calls <==> c.path == k && c.fn in fns by {
          if c in calls {
            var i :| 0 <= i < |calls| && calls[i] == c;
          }
          if c.path == k && c.fn in fns {
            var i :| 0 <= i < |fns| && fns[i] == c.fn;
            assert calls[i] == c;
          }
        }
      }
    }
  }

  /**
   * While the timeline is paused, only handlers whose function currently has
   * its editmode flag set are called.
   */
  lemma PausedDispatchRunsEditmodeOnly(ks: seq<PrimPath>, members: map<PrimPath, Members>, flags: EditFlags, t: EventType, c: Call)
    requires c in Dispatched(ks, members, flags, t, false)
    ensures c.path in members && c.fn in HandlersFor(members[c.path], t)
    ensures c.fn in flags && flags[c.fn]
  {
    DispatchGate(ks, members, flags, t, false, c);
  }
}
