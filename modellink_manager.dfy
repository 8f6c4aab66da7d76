/**
 * `ModelLinkManager`: the registry of activators, the staging table of
 * members declared before their class is registered, the link table, the
 * cache of registered event types, and the lifecycle events it fires.
 */
module ModelLinkManager {
  import opened Optional
  import opened OrderedDict
  import opened Scene
  import opened Naming
  import opened Activators
  import opened LinkTable

  /** An activator table keyed by reference, holding only activators of `kind` filed under their own reference. */
  ghost predicate Indexed(table: ODict<string, Activator>, kind: Kind) {
    table.Valid()
    && forall k :: k in table.vals ==> table.vals[k].DetectType() == kind && table.vals[k].Reference() == k
  }

  /** The event types some activator of `acts` has handlers for. */
  function EventsOf(acts: seq<Activator>): (r: set<EventType>)
    reads (set i | 0 <= i < |acts| :: acts[i])`members
    ensures forall t :: t in r <==> exists i :: 0 <= i < |acts| && t in acts[i].members.event
  {
    if acts == [] then {}
    else
      var init := acts[..|acts| - 1];
      assert forall i :: 0 <= i < |init| ==> init[i] == acts[i];
      EventsOf(init) + acts[|acts| - 1].members.event.Keys
  }

  /** The rebuild loop of `get_registered_events`: the union of the handled event types of `acts`. */
  method CollectEvents(acts: seq<Activator>) returns (s: set<EventType>)
    ensures s == EventsOf(acts)
  {
    s := {};
    for i := 0 to |acts|
      invariant s == EventsOf(acts[..i])
    {
      assert acts[..i + 1][..i] == acts[..i];
      s := s + acts[i].members.event.Keys;
    }
    assert acts[..|acts|] == acts;
  }

  /** The members staged for class `name`, or none. */
  function StagedFor(staged: map<string, Members>, name: string): Members {
    if name in staged then staged[name] else NoMembers()
  }

  /** What `discard_namespace` and `discard_class` select. */
  datatype Criterion = InNamespace(prefix: string) | IsClass(clazz: ClassRef)

  /** `clazz.__module__.startswith(prefix)`, or `clazz is c` (class identity as equality of `ClassRef`). */
  predicate Matches(c: Criterion, clazz: ClassRef) {
    match c
    case InNamespace(prefix) => prefix <= clazz.moduleName
    case IsClass(k) => clazz == k
  }

  /** The state one activator table's discard loop leaves: the table, the links, the notices, and whether anything was discarded. */
  datatype Discarded = Discarded(table: ODict<string, Activator>, links: Links, notices: seq<Notice>, hit: bool)

  /** The activators of `table` under the keys `ks` that `c` selects. */
  function Selected(table: ODict<string, Activator>, ks: seq<string>, c: Criterion): set<Activator> {
    set k | k in ks && k in table.vals && Matches(c, table.vals[k].clazz) :: table.vals[k]
  }

  /**
   * The discard loop over the snapshot keys `ks` of `table`: each selected
   * activator loses its links, leaves the table and is announced.
   */
  function DiscardFold(table: ODict<string, Activator>, links: Links, ks: seq<string>, c: Criterion): (r: Discarded)
    requires table.Valid() && links.Valid()
    ensures r.table.Valid() && r.links.Valid()
    ensures !r.hit ==> r.table == table && r.links == links && r.notices == []
  {
    if ks == [] then Discarded(table, links, [], false)
    else
      var init := ks[..|ks| - 1];
      var prev := DiscardFold(table, links, init, c);
      var k := ks[|ks| - 1];
      if k in table.vals && Matches(c, table.vals[k].clazz) then
        var a := table.vals[k];
        Discarded(prev.table.Remove(k), Unlinked(prev.links, Some(a)),
                  prev.notices + Removals(prev.links, prev.links.keys, Some(a))
                    + [ActivatorRemoved(a.DetectType(), a.Reference(), a.clazz.name)],
                  true)
      else
        prev
  }

  /**
   * The discard loop removes from the table exactly the selected keys among
   * `ks`, and from the links exactly those whose activator it removed; what
   * stays keeps its value.
   */
  lemma {:induction false} DiscardFoldOutcome(table: ODict<string, Activator>, links: Links, ks: seq<string>, c: Criterion)
    requires table.Valid() && links.Valid()
    ensures forall k :: k in DiscardFold(table, links, ks, c).table.vals
                        <==> k in table.vals && !(k in ks && Matches(c, table.vals[k].clazz))
    ensures forall k :: k in DiscardFold(table, links, ks, c).table.vals
                        ==> DiscardFold(table, links, ks, c).table.vals[k] == table.vals[k]
    ensures LinksKept(links, Selected(table, ks, c), DiscardFold(table, links, ks, c).links)
  {
    if ks != [] {
      var init, k := ks[..|ks| - 1], ks[|ks| - 1];
      DiscardFoldOutcome(table, links, init, c);
      SelectedStep(table, ks, c);
      var prev := DiscardFold(table, links, init, c);
      assert forall q :: q in ks <==> q in init || q == k;
      if k in table.vals && Matches(c, table.vals[k].clazz) {
        var a := table.vals[k];
        assert DiscardFold(table, links, ks, c).table == prev.table.Remove(k);
        assert DiscardFold(table, links, ks, c).links == Unlinked(prev.links, Some(a));
      } else {
        assert DiscardFold(table, links, ks, c) == prev;
        assert Selected(table, ks, c) == Selected(table, init, c);
      }
    }
  }

  /** The keys among `ks` of the entries of `table` that `c` selects. */
  ghost function PickedAmong(table: ODict<string, Activator>, ks: seq<string>, c: Criterion): set<string> {
    set k | k in ks && k in table.vals && Matches(c, table.vals[k].clazz)
  }

  /** Extending the scanned keys by one adds that key to the picked ones exactly when `c` selects its entry. */
  lemma PickedAmongStep(table: ODict<string, Activator>, ks: seq<string>, c: Criterion)
    requires ks != []
    ensures var init, k := ks[..|ks| - 1], ks[|ks| - 1];
      PickedAmong(table, ks, c)
        == PickedAmong(table, init, c) + (if k in table.vals && Matches(c, table.vals[k].clazz) then {k} else {})
  {
    assert forall q :: q in ks <==> q in ks[..|ks| - 1] || q == ks[|ks| - 1];
  }

  /** The discard loop keeps the unselected keys of the table in insertion order. */
  lemma {:induction false} DiscardFoldTableOrder(table: ODict<string, Activator>, links: Links, ks: seq<string>, c: Criterion)
    requires table.Valid() && links.Valid()
    ensures DiscardFold(table, links, ks, c).table.keys == KeysNotIn(table.keys, PickedAmong(table, ks, c))
  {
    if ks == [] {
      assert PickedAmong(table, ks, c) == {};
      KeysNotInAbsent(table.keys, {});
    } else {
      var init, k := ks[..|ks| - 1], ks[|ks| - 1];
      DiscardFoldTableOrder(table, links, init, c);
      PickedAmongStep(table, ks, c);
      var prev := DiscardFold(table, links, init, c);
      if k in table.vals && Matches(c, table.vals[k].clazz) {
        assert DiscardFold(table, links, ks, c).table == prev.table.Remove(k);
        KeysNotInTwice(table.keys, PickedAmong(table, init, c), {k});
      } else {
        assert DiscardFold(table, links, ks, c) == prev;
        assert PickedAmong(table, ks, c) == PickedAmong(table, init, c);
      }
    }
  }

  /** `left` is `links` without exactly the links of the activators in `gone`; the rest keep their values. */
  ghost predicate LinksKept(links: Links, gone: set<Activator>, left: Links) {
    && (forall p :: p in left.vals <==> p in links.vals && links.vals[p] !in gone)
    && (forall p :: p in left.vals ==> left.vals[p] == links.vals[p])
  }

  /** Orphaning `s` and then, among what is left, `t` orphans `s + t`. */
  lemma OrphansChain(links: Links, mid: Links, s: set<Activator>, t: set<Activator>)
    requires LinksKept(links, s, mid)
    ensures Orphans(links, s) + Orphans(mid, t) == Orphans(links, s + t)
  {
  }

  /** The paths `_remove_links_for_activator(a)` removes from a valid table are those linked to `a`. */
  lemma DoomedOrphans(links: Links, a: Activator)
    requires links.Valid()
    ensures Doomed(links, links.keys, Some(a)) == Orphans(links, {a})
  {
  }

  /** Extending the scanned keys by one adds that key's activator to the selected ones exactly when `c` selects it. */
  lemma SelectedStep(table: ODict<string, Activator>, ks: seq<string>, c: Criterion)
    requires ks != []
    ensures var init, k := ks[..|ks| - 1], ks[|ks| - 1];
      Selected(table, ks, c)
        == Selected(table, init, c) + (if k in table.vals && Matches(c, table.vals[k].clazz) then {table.vals[k]} else {})
  {
    assert forall q :: q in ks <==> q in ks[..|ks| - 1] || q == ks[|ks| - 1];
  }

  /** The discard loop keeps the surviving links in their order. */
  lemma {:induction false} DiscardFoldLinksOrder(table: ODict<string, Activator>, links: Links, ks: seq<string>, c: Criterion)
    requires table.Valid() && links.Valid()
    ensures DiscardFold(table, links, ks, c).links.keys == KeysNotIn(links.keys, Orphans(links, Selected(table, ks, c)))
  {
    if ks == [] {
      assert Orphans(links, Selected(table, ks, c)) == {};
      KeysNotInAbsent(links.keys, {});
    } else {
      var init, k := ks[..|ks| - 1], ks[|ks| - 1];
      DiscardFoldLinksOrder(table, links, init, c);
      SelectedStep(table, ks, c);
      var prev := DiscardFold(table, links, init, c).links;
      if k in table.vals && Matches(c, table.vals[k].clazz) {
        var a := table.vals[k];
        assert DiscardFold(table, links, ks, c).links == Unlinked(prev, Some(a));
        DiscardFoldOutcome(table, links, init, c);
        DoomedOrphans(prev, a);
        OrphansChain(links, prev, Selected(table, init, c), {a});
        KeysNotInTwice(links.keys, Orphans(links, Selected(table, init, c)), Orphans(prev, {a}));
      } else {
        assert DiscardFold(table, links, ks, c).links == prev;
        assert Selected(table, ks, c) == Selected(table, init, c);
      }
    }
  }

  /**
   * The notices of the discard loop: a `LinkRemoved` for every link of a
   * selected activator and an `ActivatorRemoved` for every selected
   * activator, and nothing else.
   */
  lemma {:induction false} DiscardFoldNotices(table: ODict<string, Activator>, links: Links, ks: seq<string>, c: Criterion)
    requires table.Valid() && links.Valid()
    ensures RemovalsAnnounced(links, Selected(table, ks, c), DiscardFold(table, links, ks, c).notices)
  {
    if ks != [] {
      var init := ks[..|ks| - 1];
      var k := ks[|ks| - 1];
      DiscardFoldNotices(table, links, init, c);
      DiscardFoldOutcome(table, links, init, c);
      var prev := DiscardFold(table, links, init, c);
      assert forall q :: q in ks <==> q in init || q == k;
      if k in table.vals && Matches(c, table.vals[k].clazz) {
        var a := table.vals[k];
        assert Selected(table, ks, c) == Selected(table, init, c) + {a};
        assert DiscardFold(table, links, ks, c).notices
          == prev.notices + Removals(prev.links, prev.links.keys, Some(a))
             + [ActivatorRemoved(a.DetectType(), a.Reference(), a.clazz.name)];
        AnnounceStep(links, prev.links, Selected(table, init, c), a, prev.notices);
      } else {
        assert DiscardFold(table, links, ks, c) == prev;
        assert Selected(table, ks, c) == Selected(table, init, c);
      }
    }
  }

  /**
   * One selected activator's turn of the discard loop: announcing its
   * links and then itself extends what is announced by that activator.
   */
  lemma AnnounceStep(links: Links, prev: Links, gone: set<Activator>, a: Activator, ns: seq<Notice>)
    requires prev.Valid() && LinksKept(links, gone, prev) && RemovalsAnnounced(links, gone, ns)
    ensures RemovalsAnnounced(links, gone + {a}, ns + Removals(prev, prev.keys, Some(a))
                                                 + [ActivatorRemoved(a.DetectType(), a.Reference(), a.clazz.name)])
  {
    var rm := Removals(prev, prev.keys, Some(a));
    forall p | p in links.vals && links.vals[p] == a && a !in gone
      ensures LinkRemoved(p, a.clazz.name) in rm
    {
      assert p in prev.keys;
    }
  }

  /**
   * After a table's discard loop over all its keys, the table left holds
   * entries of the original only, and none of its activators is selected.
   */
  lemma DiscardClears(table: ODict<string, Activator>, links: Links, c: Criterion)
    requires table.Valid() && links.Valid()
    ensures var left := DiscardFold(table, links, table.keys, c).table;
      && (forall k :: k in left.vals ==> k in table.vals && left.vals[k] == table.vals[k])
      && (forall a :: a in left.ValueSet() ==> !Matches(c, a.clazz))
  {
    DiscardFoldOutcome(table, links, table.keys, c);
  }

  /** The keys of `t` whose activator `c` selects. */
  ghost function Picked(c: Criterion, t: ODict<string, Activator>): set<string> {
    set k | k in t.vals && Matches(c, t.vals[k].clazz)
  }

  /** The paths of `links` linked to an activator in `gone`. */
  ghost function Orphans(links: Links, gone: set<Activator>): set<PrimPath> {
    set p | p in links.vals && links.vals[p] in gone
  }

  /**
   * `u` is `t` without exactly the entries whose activator `c` selects; the
   * rest keep their values and their insertion order.
   */
  ghost predicate TableDiscarded(c: Criterion, t: ODict<string, Activator>, u: ODict<string, Activator>) {
    && (forall k :: k in u.vals <==> k in t.vals && !Matches(c, t.vals[k].clazz))
    && (forall k :: k in u.vals ==> u.vals[k] == t.vals[k])
    && u.keys == KeysNotIn(t.keys, Picked(c, t))
  }

  /** The activators of the three tables that `c` selects. */
  ghost function Gone(c: Criterion, t1: ODict<string, Activator>, t2: ODict<string, Activator>,
                      t3: ODict<string, Activator>): set<Activator>
  {
    set a | a in t1.ValueSet() + t2.ValueSet() + t3.ValueSet() && Matches(c, a.clazz)
  }

  /** The links that go are exactly those of the activators in `gone`; the rest keep theirs, in their order. */
  ghost predicate LinksDiscarded(links: Links, gone: set<Activator>, left: Links) {
    && LinksKept(links, gone, left)
    && left.keys == KeysNotIn(links.keys, Orphans(links, gone))
  }

  /** Every link of an activator in `gone` and every activator in `gone` is announced, and nothing else is. */
  ghost predicate RemovalsAnnounced(links: Links, gone: set<Activator>, notices: seq<Notice>) {
    && (forall p :: p in links.vals && links.vals[p] in gone ==> LinkRemoved(p, links.vals[p].clazz.name) in notices)
    && (forall a :: a in gone ==> ActivatorRemoved(a.DetectType(), a.Reference(), a.clazz.name) in notices)
    && (forall n :: n in notices ==>
          || (n.LinkRemoved? && n.path in links.vals && links.vals[n.path] in gone
              && n.className == links.vals[n.path].clazz.name)
          || (n.ActivatorRemoved? && exists a :: a in gone && n == ActivatorRemoved(a.DetectType(), a.Reference(), a.clazz.name)))
  }

  /**
   * What discarding the activators `c` selects does: each table loses
   * exactly those activators, the links that go are exactly theirs, and
   * the removals are announced.
   */
  ghost predicate Discards(c: Criterion, t1: ODict<string, Activator>, t2: ODict<string, Activator>,
                           t3: ODict<string, Activator>, links: Links, u1: ODict<string, Activator>,
                           u2: ODict<string, Activator>, u3: ODict<string, Activator>, left: Links, notices: seq<Notice>)
  {
    && TableDiscarded(c, t1, u1) && TableDiscarded(c, t2, u2) && TableDiscarded(c, t3, u3)
    && LinksDiscarded(links, Gone(c, t1, t2, t3), left)
    && RemovalsAnnounced(links, Gone(c, t1, t2, t3), notices)
  }

  /** The selected activators of a whole valid table are its values that `c` selects. */
  lemma SelectedAll(t: ODict<string, Activator>, c: Criterion)
    requires t.Valid()
    ensures forall a :: a in Selected(t, t.keys, c) <==> a in t.ValueSet() && Matches(c, a.clazz)
  {
  }

  /** The activators the three loops select are `Gone`. */
  lemma GoneSelected(t1: ODict<string, Activator>, t2: ODict<string, Activator>, t3: ODict<string, Activator>, c: Criterion)
    requires t1.Valid() && t2.Valid() && t3.Valid()
    ensures Gone(c, t1, t2, t3) == Selected(t1, t1.keys, c) + Selected(t2, t2.keys, c) + Selected(t3, t3.keys, c)
  {
    SelectedAll(t1, c);
    SelectedAll(t2, c);
    SelectedAll(t3, c);
  }

  /** A whole table's discard loop leaves the table as `TableDiscarded` says. */
  lemma TableDiscardedFold(t: ODict<string, Activator>, links: Links, c: Criterion)
    requires t.Valid() && links.Valid()
    ensures TableDiscarded(c, t, DiscardFold(t, links, t.keys, c).table)
  {
    DiscardFoldOutcome(t, links, t.keys, c);
    DiscardFoldTableOrder(t, links, t.keys, c);
    assert PickedAmong(t, t.keys, c) == Picked(c, t);
  }

  /** The three loops together remove exactly the links of the selected activators. */
  lemma DiscardLinksOutcome(t1: ODict<string, Activator>, t2: ODict<string, Activator>, t3: ODict<string, Activator>,
                            links: Links, c: Criterion)
    requires t1.Valid() && t2.Valid() && t3.Valid() && links.Valid()
    ensures var d1 := DiscardFold(t1, links, t1.keys, c);
      var d2 := DiscardFold(t2, d1.links, t2.keys, c);
      LinksDiscarded(links, Gone(c, t1, t2, t3), DiscardFold(t3, d2.links, t3.keys, c).links)
  {
    var d1 := DiscardFold(t1, links, t1.keys, c);
    var d2 := DiscardFold(t2, d1.links, t2.keys, c);
    DiscardFoldOutcome(t1, links, t1.keys, c);
    DiscardFoldOutcome(t2, d1.links, t2.keys, c);
    DiscardFoldOutcome(t3, d2.links, t3.keys, c);
    GoneSelected(t1, t2, t3, c);
    DiscardLinksOrder(t1, t2, t3, links, c);
  }

  /** The three loops together keep the surviving links in their order. */
  lemma DiscardLinksOrder(t1: ODict<string, Activator>, t2: ODict<string, Activator>, t3: ODict<string, Activator>,
                          links: Links, c: Criterion)
    requires t1.Valid() && t2.Valid() && t3.Valid() && links.Valid()
    ensures var d1 := DiscardFold(t1, links, t1.keys, c);
      var d2 := DiscardFold(t2, d1.links, t2.keys, c);
      DiscardFold(t3, d2.links, t3.keys, c).links.keys == KeysNotIn(links.keys, Orphans(links, Gone(c, t1, t2, t3)))
  {
    var d1 := DiscardFold(t1, links, t1.keys, c);
    var d2 := DiscardFold(t2, d1.links, t2.keys, c);
    var s1, s2, s3 := Selected(t1, t1.keys, c), Selected(t2, t2.keys, c), Selected(t3, t3.keys, c);
    DiscardFoldOutcome(t1, links, t1.keys, c);
    DiscardFoldOutcome(t2, d1.links, t2.keys, c);
    assert LinksKept(links, s1 + s2, d2.links);
    DiscardFoldLinksOrder(t1, links, t1.keys, c);
    DiscardFoldLinksOrder(t2, d1.links, t2.keys, c);
    DiscardFoldLinksOrder(t3, d2.links, t3.keys, c);
    OrphansChain(links, d1.links, s1, s2);
    OrphansChain(links, d2.links, s1 + s2, s3);
    KeysNotInTwice(links.keys, Orphans(links, s1), Orphans(d1.links, s2));
    KeysNotInTwice(links.keys, Orphans(links, s1 + s2), Orphans(d2.links, s3));
    GoneSelected(t1, t2, t3, c);
  }

  /** Every link the three loops remove is announced. */
  lemma DiscardLinkNotices(t1: ODict<string, Activator>, t2: ODict<string, Activator>, t3: ODict<string, Activator>,
                           links: Links, c: Criterion)
    requires t1.Valid() && t2.Valid() && t3.Valid() && links.Valid()
    ensures var d1 := DiscardFold(t1, links, t1.keys, c);
      var d2 := DiscardFold(t2, d1.links, t2.keys, c);
      var ns := d1.notices + d2.notices + DiscardFold(t3, d2.links, t3.keys, c).notices;
      forall p :: p in links.vals && links.vals[p] in Gone(c, t1, t2, t3) ==> LinkRemoved(p, links.vals[p].clazz.name) in ns
  {
    var d1 := DiscardFold(t1, links, t1.keys, c);
    var d2 := DiscardFold(t2, d1.links, t2.keys, c);
    var d3 := DiscardFold(t3, d2.links, t3.keys, c);
    var s1, s2, s3 := Selected(t1, t1.keys, c), Selected(t2, t2.keys, c), Selected(t3, t3.keys, c);
    GoneSelected(t1, t2, t3, c);
    forall p | p in links.vals && links.vals[p] in Gone(c, t1, t2, t3)
      ensures LinkRemoved(p, links.vals[p].clazz.name) in d1.notices + d2.notices + d3.notices
    {
      var a := links.vals[p];
      if a in s1 {
        DiscardFoldNotices(t1, links, t1.keys, c);
        assert LinkRemoved(p, a.clazz.name) in d1.notices;
      } else {
        DiscardFoldOutcome(t1, links, t1.keys, c);
        assert p in d1.links.vals && d1.links.vals[p] == a;
        if a in s2 {
          DiscardFoldNotices(t2, d1.links, t2.keys, c);
          assert LinkRemoved(p, a.clazz.name) in d2.notices;
        } else {
          assert a in s3;
          DiscardFoldOutcome(t2, d1.links, t2.keys, c);
          assert p in d2.links.vals && d2.links.vals[p] == a;
          DiscardFoldNotices(t3, d2.links, t3.keys, c);
          assert LinkRemoved(p, a.clazz.name) in d3.notices;
        }
      }
    }
  }

  /** Every activator the three loops remove is announced. */
  lemma DiscardActivatorNotices(t1: ODict<string, Activator>, t2: ODict<string, Activator>, t3: ODict<string, Activator>,
                                links: Links, c: Criterion)
    requires t1.Valid() && t2.Valid() && t3.Valid() && links.Valid()
    ensures var d1 := DiscardFold(t1, links, t1.keys, c);
      var d2 := DiscardFold(t2, d1.links, t2.keys, c);
      var ns := d1.notices + d2.notices + DiscardFold(t3, d2.links, t3.keys, c).notices;
      forall a :: a in Gone(c, t1, t2, t3) ==> ActivatorRemoved(a.DetectType(), a.Reference(), a.clazz.name) in ns
  {
    var d1 := DiscardFold(t1, links, t1.keys, c);
    var d2 := DiscardFold(t2, d1.links, t2.keys, c);
    DiscardFoldNotices(t1, links, t1.keys, c);
    DiscardFoldNotices(t2, d1.links, t2.keys, c);
    DiscardFoldNotices(t3, d2.links, t3.keys, c);
    GoneSelected(t1, t2, t3, c);
  }

  /** The three loops announce nothing but removed links and removed activators. */
  lemma DiscardNoticesSound(t1: ODict<string, Activator>, t2: ODict<string, Activator>, t3: ODict<string, Activator>,
                            links: Links, c: Criterion)
    requires t1.Valid() && t2.Valid() && t3.Valid() && links.Valid()
    ensures var d1 := DiscardFold(t1, links, t1.keys, c);
      var d2 := DiscardFold(t2, d1.links, t2.keys, c);
      var ns, gone := d1.notices + d2.notices + DiscardFold(t3, d2.links, t3.keys, c).notices, Gone(c, t1, t2, t3);
      forall n :: n in ns ==>
        || (n.LinkRemoved? && n.path in links.vals && links.vals[n.path] in gone
            && n.className == links.vals[n.path].clazz.name)
        || (n.ActivatorRemoved? && exists a :: a in gone && n == ActivatorRemoved(a.DetectType(), a.Reference(), a.clazz.name))
  {
    var d1 := DiscardFold(t1, links, t1.keys, c);
    var d2 := DiscardFold(t2, d1.links, t2.keys, c);
    var d3 := DiscardFold(t3, d2.links, t3.keys, c);
    GoneSelected(t1, t2, t3, c);
    var gone := Gone(c, t1, t2, t3);
    forall n | n in d1.notices + d2.notices + d3.notices
      ensures || (n.LinkRemoved? && n.path in links.vals && links.vals[n.path] in gone
                  && n.className == links.vals[n.path].clazz.name)
              || (n.ActivatorRemoved? && exists a :: a in gone && n == ActivatorRemoved(a.DetectType(), a.Reference(), a.clazz.name))
    {
      if n in d1.notices {
        DiscardFoldNotices(t1, links, t1.keys, c);
      } else if n in d2.notices {
        DiscardFoldOutcome(t1, links, t1.keys, c);
        DiscardFoldNotices(t2, d1.links, t2.keys, c);
      } else {
        DiscardFoldOutcome(t1, links, t1.keys, c);
        DiscardFoldOutcome(t2, d1.links, t2.keys, c);
        DiscardFoldNotices(t3, d2.links, t3.keys, c);
      }
    }
  }

  /** The three loops together announce exactly the removed links and activators. */
  lemma DiscardNoticesOutcome(t1: ODict<string, Activator>, t2: ODict<string, Activator>, t3: ODict<string, Activator>,
                              links: Links, c: Criterion)
    requires t1.Valid() && t2.Valid() && t3.Valid() && links.Valid()
    ensures var d1 := DiscardFold(t1, links, t1.keys, c);
      var d2 := DiscardFold(t2, d1.links, t2.keys, c);
      var d3 := DiscardFold(t3, d2.links, t3.keys, c);
      RemovalsAnnounced(links, Gone(c, t1, t2, t3), d1.notices + d2.notices + d3.notices)
  {
    DiscardLinkNotices(t1, t2, t3, links, c);
    DiscardActivatorNotices(t1, t2, t3, links, c);
    DiscardNoticesSound(t1, t2, t3, links, c);
  }

  /** The three table discard loops, one after the other, discard as `Discards` says. */
  lemma DiscardTablesOutcome(t1: ODict<string, Activator>, t2: ODict<string, Activator>, t3: ODict<string, Activator>,
                             links: Links, c: Criterion)
    requires t1.Valid() && t2.Valid() && t3.Valid() && links.Valid()
    ensures var d1 := DiscardFold(t1, links, t1.keys, c);
      var d2 := DiscardFold(t2, d1.links, t2.keys, c);
      var d3 := DiscardFold(t3, d2.links, t3.keys, c);
      Discards(c, t1, t2, t3, links, d1.table, d2.table, d3.table, d3.links, d1.notices + d2.notices + d3.notices)
  {
    var d1 := DiscardFold(t1, links, t1.keys, c);
    var d2 := DiscardFold(t2, d1.links, t2.keys, c);
    TableDiscardedFold(t1, links, c);
    TableDiscardedFold(t2, d1.links, c);
    TableDiscardedFold(t3, d2.links, c);
    DiscardLinksOutcome(t1, t2, t3, links, c);
    DiscardNoticesOutcome(t1, t2, t3, links, c);
  }

  /** A valid table whose entries all come from an indexed table is indexed. */
  lemma IndexedKept(t: ODict<string, Activator>, u: ODict<string, Activator>, kind: Kind)
    requires Indexed(t, kind) && u.Valid()
    requires forall k :: k in u.vals ==> k in t.vals && u.vals[k] == t.vals[k]
    ensures Indexed(u, kind)
  {
  }

  /** One step of the discard loop: the `i`-th snapshot key is discarded when `c` selects its activator. */
  lemma DiscardStep(table: ODict<string, Activator>, links: Links, ks: seq<string>, i: nat, c: Criterion)
    requires table.Valid() && links.Valid() && i < |ks|
    ensures var prev, k := DiscardFold(table, links, ks[..i], c), ks[i];
      DiscardFold(table, links, ks[..i + 1], c) ==
        if k in table.vals && Matches(c, table.vals[k].clazz) then
          var a := table.vals[k];
          Discarded(prev.table.Remove(k), Unlinked(prev.links, Some(a)),
                    prev.notices + Removals(prev.links, prev.links.keys, Some(a))
                      + [ActivatorRemoved(a.DetectType(), a.Reference(), a.clazz.name)],
                    true)
        else prev
  {
    assert ks[..i + 1][..i] == ks[..i];
  }

  /** Every value of three valid tables is among their values listed one table after the other. */
  lemma TablesCovered(t1: ODict<string, Activator>, t2: ODict<string, Activator>, t3: ODict<string, Activator>)
    requires t1.Valid() && t2.Valid() && t3.Valid()
    ensures forall a :: a in t1.ValueSet() + t2.ValueSet() + t3.ValueSet() ==> a in t1.Values() + t2.Values() + t3.Values()
  {
    ValuesCover(t1);
    ValuesCover(t2);
    ValuesCover(t3);
  }

  /** `detectFunc(prim)`: a custom activator asks its detection function; the default detector accepts every prim. */
  predicate Accepts(detects: (string, Node) -> bool, a: Activator, n: Node) {
    a.rule.DetectorRule? ==> detects(a.rule.detector, n)
  }

  /** The first activator of `acts` whose detector accepts `n`. */
  function FirstAccepting(detects: (string, Node) -> bool, acts: seq<Activator>, n: Node): (r: Option<Activator>)
    ensures r.Some? ==> r.value in acts && Accepts(detects, r.value, n)
  {
    if acts == [] then None
    else if Accepts(detects, acts[0], n) then Some(acts[0])
    else FirstAccepting(detects, acts[1..], n)
  }

  /** `FirstAccepting` finds nothing only when nothing accepts, and otherwise the earliest that does. */
  lemma {:induction false} FirstAcceptingIsFirst(detects: (string, Node) -> bool, acts: seq<Activator>, n: Node)
    ensures var r := FirstAccepting(detects, acts, n);
      && (r.None? <==> forall i :: 0 <= i < |acts| ==> !Accepts(detects, acts[i], n))
      && (r.Some? ==> exists i :: 0 <= i < |acts| && acts[i] == r.value && forall j :: 0 <= j < i ==> !Accepts(detects, acts[j], n))
  {
    if acts != [] && !Accepts(detects, acts[0], n) {
      FirstAcceptingIsFirst(detects, acts[1..], n);
      var r := FirstAccepting(detects, acts[1..], n);
      assert forall i :: 0 <= i < |acts| - 1 ==> acts[1..][i] == acts[i + 1];
      if r.Some? {
        var i :| 0 <= i < |acts| - 1 && acts[1..][i] == r.value && forall j :: 0 <= j < i ==> !Accepts(detects, acts[1..][j], n);
        assert acts[i + 1] == r.value;
      }
    }
  }

  /** The first activator of `acts` whose class has the `__name__` `name`. */
  function FirstNamed(acts: seq<Activator>, name: string): (r: Option<Activator>)
    ensures r.Some? ==> r.value in acts && r.value.clazz.name == name
  {
    if acts == [] then None
    else if acts[0].clazz.name == name then Some(acts[0])
    else FirstNamed(acts[1..], name)
  }

  /** `FirstNamed` finds nothing only when no class has that name, and otherwise the earliest that has. */
  lemma {:induction false} FirstNamedIsFirst(acts: seq<Activator>, name: string)
    ensures var r := FirstNamed(acts, name);
      && (r.None? <==> forall i :: 0 <= i < |acts| ==> acts[i].clazz.name != name)
      && (r.Some? ==> exists i :: 0 <= i < |acts| && acts[i] == r.value && forall j :: 0 <= j < i ==> acts[j].clazz.name != name)
  {
    if acts != [] && acts[0].clazz.name != name {
      FirstNamedIsFirst(acts[1..], name);
      var r := FirstNamed(acts[1..], name);
      assert forall i :: 0 <= i < |acts| - 1 ==> acts[1..][i] == acts[i + 1];
      if r.Some? {
        var i :| 0 <= i < |acts| - 1 && acts[1..][i] == r.value && forall j :: 0 <= j < i ==> acts[1..][j].clazz.name != name;
        assert acts[i + 1] == r.value;
      }
    }
  }

  /** The singleton manager. */
  class LinkManager {
    /** The custom detection functions, by name (`detectFunc(prim)`). */
    const detects: (string, Node) -> bool
    /** `_activators['class']`, `_activators['schema']`, `_activators['custom']`. */
    var classActs: ODict<string, Activator>
    var schemaActs: ODict<string, Activator>
    var customActs: ODict<string, Activator>
    /** `_members`: members declared for classes not yet registered. */
    var staged: map<string, Members>
    /** `_links`. */
    var links: Links
    /** `_event_cache`. */
    var eventCache: Option<set<EventType>>
    /** Everything fired on the manager's event stream so far. */
    var log: seq<Notice>
    /** The `__meta_editmode__` flag `register_event` last set on each function. */
    var editFlags: EditFlags
    /** The `__meta_value_param__` `add_usd_attr` last set on each function. */
    var valueParams: ValueParams

    ghost predicate Valid()
      reads this`classActs, this`schemaActs, this`customActs, this`links
    {
      Indexed(classActs, ClassKind) && Indexed(schemaActs, SchemaKind) && Indexed(customActs, CustomKind)
      && links.Valid()
    }

    /** `_init`. */
    constructor (detects: (string, Node) -> bool)
      ensures Valid() && this.detects == detects
      ensures classActs == Empty() && schemaActs == Empty() && customActs == Empty()
      ensures staged == map[] && links == Empty() && eventCache == None && log == []
      ensures editFlags == map[] && valueParams == map[]
    {
      this.detects := detects;
      classActs, schemaActs, customActs := Empty(), Empty(), Empty();
      staged := map[];
      links := Empty();
      eventCache := None;
      log := [];
      editFlags := map[];
      valueParams := map[];
    }

    /** `_activators[kind]`. */
    function Table(kind: Kind): ODict<string, Activator>
      reads this`classActs, this`schemaActs, this`customActs
    {
      match kind
      case ClassKind => classActs
      case SchemaKind => schemaActs
      case CustomKind => customActs
    }

    /** Every activator some table holds. */
    function Filed(): set<Activator>
      reads this`classActs, this`schemaActs, this`customActs
    {
      classActs.ValueSet() + schemaActs.ValueSet() + customActs.ValueSet()
    }

    /** `get_activators()`: the class, schema and custom tables in turn, each in insertion order. */
    function Registered(): seq<Activator>
      reads this`classActs, this`schemaActs, this`customActs
    {
      classActs.Values() + schemaActs.Values() + customActs.Values()
    }

    /** `get_activators()` yields one activator per filed key and nothing else. */
    lemma RegisteredLength()
      requires classActs.Valid() && schemaActs.Valid() && customActs.Valid()
      ensures |Registered()| == |classActs.keys| + |schemaActs.keys| + |customActs.keys|
    {
    }

    /** `get_activators()` yields the class table first, in insertion order. */
    lemma RegisteredClassFirst()
      requires classActs.Valid() && schemaActs.Valid() && customActs.Valid()
      ensures forall i :: 0 <= i < |classActs.keys| ==> Registered()[i] == classActs.vals[classActs.keys[i]]
    {
      FirstInOrder(classActs, schemaActs, customActs);
    }

    /** `get_activators()` yields the schema table next, in insertion order. */
    lemma RegisteredSchemaNext()
      requires classActs.Valid() && schemaActs.Valid() && customActs.Valid()
      ensures forall i :: 0 <= i < |schemaActs.keys| ==>
        Registered()[|classActs.keys| + i] == schemaActs.vals[schemaActs.keys[i]]
    {
      SecondInOrder(classActs, schemaActs, customActs);
    }

    /** `get_activators()` yields the custom table last, in insertion order. */
    lemma RegisteredCustomLast()
      requires classActs.Valid() && schemaActs.Valid() && customActs.Valid()
      ensures forall i :: 0 <= i < |customActs.keys| ==>
        Registered()[|classActs.keys| + |schemaActs.keys| + i] == customActs.vals[customActs.keys[i]]
    {
      ThirdInOrder(classActs, schemaActs, customActs);
    }

    /** `get_activators()` yields every filed activator. */
    lemma RegisteredCovers()
      requires classActs.Valid() && schemaActs.Valid() && customActs.Valid()
      ensures forall a :: a in Filed() ==> a in Registered()
    {
      TablesCovered(classActs, schemaActs, customActs);
    }

    /** `get_activators()` yields filed activators only. */
    lemma RegisteredFiled()
      ensures forall a :: a in Registered() ==> a in Filed()
    {
      forall a | a in Registered()
        ensures a in Filed()
      {
        if a in classActs.Values() {
          var k :| k in classActs.vals && classActs.vals[k] == a;
        } else if a in schemaActs.Values() {
          var k :| k in schemaActs.vals && schemaActs.vals[k] == a;
        } else {
          var k :| k in customActs.vals && customActs.vals[k] == a;
        }
      }
    }

    /** The event types the registered activators (enabled or not) have handlers for. */
    function RegisteredEvents(): set<EventType>
      reads this`classActs, this`schemaActs, this`customActs, Filed()`members
    {
      EventsOf(Registered())
    }

    /** The cache, when set and non-empty, holds exactly the registered event types. */
    ghost predicate CacheSound()
      reads this`eventCache, this`classActs, this`schemaActs, this`customActs, Filed()`members
    {
      eventCache.Some? && eventCache.value != {} ==> eventCache.value == RegisteredEvents()
    }

    /** The cache stays sound while neither the tables, the cache nor any member set changes. */
    twostate lemma CacheSoundFramed()
      requires unchanged(this`classActs, this`schemaActs, this`customActs, this`eventCache)
      requires unchanged(old(Filed())`members)
      ensures CacheSound() <==> old(CacheSound())
    {
    }

    /** The registered event types stay while neither the tables nor any member set changes. */
    twostate lemma EventsFramed()
      requires unchanged(this`classActs, this`schemaActs, this`customActs)
      requires forall a :: a in old(Filed()) ==> unchanged(a`members)
      ensures RegisteredEvents() == old(RegisteredEvents())
    {
    }

    /** Nothing `get_registered_events` depends on changes while the tables, the cache and the member sets stay. */
    twostate lemma CacheFramed()
      requires unchanged(this`classActs, this`schemaActs, this`customActs, this`eventCache)
      requires forall a :: a in old(Filed()) ==> unchanged(a`members)
      ensures CachedOrFresh() == old(CachedOrFresh())
      ensures CacheSound() <==> old(CacheSound())
    {
    }

    /**
     * Caching what `get_registered_events` answered, with the tables and the
     * member sets as they were, leaves that answer the same.
     */
    twostate lemma CacheRefilled(r: set<EventType>)
      requires unchanged(this`classActs, this`schemaActs, this`customActs)
      requires forall a :: a in old(Filed()) ==> unchanged(a`members)
      requires old(CachedOrFresh()) == r && eventCache == Some(r)
      ensures CachedOrFresh() == r
    {
      EventsFramed();
    }

    /**
     * Caching what `get_registered_events` answered keeps a sound cache
     * sound (or leaves it as it was).
     */
    twostate lemma CacheRefilledSound()
      requires unchanged(this`classActs, this`schemaActs, this`customActs)
      requires forall a :: a in old(Filed()) ==> unchanged(a`members)
      requires old(CacheSound())
      requires eventCache == old(eventCache) || eventCache == Some(old(CachedOrFresh()))
      ensures CacheSound()
    {
      EventsFramed();
    }

    /** What `get_registered_events` answers now: a set, non-empty cache, else a fresh union. */
    function CachedOrFresh(): set<EventType>
      reads this`eventCache, this`classActs, this`schemaActs, this`customActs, Filed()`members
    {
      if eventCache.Some? && eventCache.value != {} then eventCache.value else RegisteredEvents()
    }

    /**
     * `_find_activator`: a schema activator for the prim's type name wins;
     * otherwise a class activator for its `linkedClass`; otherwise the first
     * custom activator, in insertion order, whose detector accepts the prim.
     */
    function FindActivator(n: Node): (r: Option<Activator>)
      reads this`classActs, this`schemaActs, this`customActs
      ensures r.Some? ==> r.value in Filed()
    {
      if schemaActs.vals != map[] && n.typeName in schemaActs.vals then Some(schemaActs.vals[n.typeName])
      else if classActs.vals != map[] && LinkedClass(n).Some? && LinkedClass(n).value in classActs.vals then
        Some(classActs.vals[LinkedClass(n).value])
      else if customActs.vals != map[] then FirstAccepting(detects, customActs.Values(), n)
      else None
    }

    /** The precedence of `_find_activator`: schema, then class, then the first accepting custom activator. */
    lemma FindActivatorPrecedence(n: Node)
      ensures var r := FindActivator(n);
        && (n.typeName in schemaActs.vals ==> r == Some(schemaActs.vals[n.typeName]))
        && (n.typeName !in schemaActs.vals && LinkedClass(n).Some? && LinkedClass(n).value in classActs.vals ==>
              r == Some(classActs.vals[LinkedClass(n).value]))
        && (n.typeName !in schemaActs.vals && !(LinkedClass(n).Some? && LinkedClass(n).value in classActs.vals) ==>
              var cs := customActs.Values();
              && (r.None? <==> forall i :: 0 <= i < |cs| ==> !Accepts(detects, cs[i], n))
              && (r.Some? ==>
                    exists i :: 0 <= i < |cs| && cs[i] == r.value && Accepts(detects, r.value, n)
                      && forall j :: 0 <= j < i ==> !Accepts(detects, cs[j], n)))
    {
      FirstAcceptingIsFirst(detects, customActs.Values(), n);
    }

    /** The activator found for `n`, as a frame. */
    function Found(n: Node): set<Activator>
      reads this`classActs, this`schemaActs, this`customActs
    {
      if FindActivator(n).Some? then {FindActivator(n).value} else {}
    }

    /** The enabled activator `create_new_link` links a prim to, if any. */
    function Target(n: Node): Option<Activator>
      reads this`classActs, this`schemaActs, this`customActs, Found(n)`enabled
    {
      var found := FindActivator(n);
      if found.Some? && found.value.enabled then found else None
    }

    twostate lemma TargetFramed(n: Node)
      requires unchanged(this`classActs, this`schemaActs, this`customActs)
      requires old(FindActivator(n)).Some? ==> unchanged(old(FindActivator(n)).value`enabled)
      ensures Target(n) == old(Target(n))
    {
      assert FindActivator(n) == old(FindActivator(n));
    }

    /** The targets stay the same while neither the tables nor any enabled flag changes. */
    twostate lemma TargetsFramed(nodes: map<PrimPath, Node>)
      requires unchanged(this`classActs, this`schemaActs, this`customActs)
      requires unchanged(old(Filed())`enabled)
      ensures Targets(nodes) == old(Targets(nodes))
    {
      forall p | p in nodes
        ensures Target(nodes[p]) == old(Target(nodes[p]))
      {
        TargetFramed(nodes[p]);
      }
    }

    /** The target of every present, active prim of `nodes` that has one. */
    ghost function Targets(nodes: map<PrimPath, Node>): (r: map<PrimPath, Activator>)
      reads this`classActs, this`schemaActs, this`customActs, Filed()`enabled
      ensures forall p :: p in r <==> p in nodes && nodes[p].active && Target(nodes[p]).Some?
      ensures forall p :: p in r ==> Some(r[p]) == Target(nodes[p])
    {
      map p | p in nodes && nodes[p].active && Target(nodes[p]).Some? :: Target(nodes[p]).value
    }

    /** `_find_activator_by_class_name`: the first registered activator whose class has that `__name__`. */
    function FindByClassName(name: string): (r: Option<Activator>)
      reads this`classActs, this`schemaActs, this`customActs
      ensures r.Some? ==> r.value.clazz.name == name && r.value in Filed()
    {
      FirstNamed(Registered(), name)
    }

    /** `_find_activator_by_class_name` answers the first registered activator of that name, and none only when there is none. */
    lemma FindByClassNameIsFirst(name: string)
      ensures var r, acts := FindByClassName(name), Registered();
        && (r.None? <==> forall i :: 0 <= i < |acts| ==> acts[i].clazz.name != name)
        && (r.Some? ==> exists i :: 0 <= i < |acts| && acts[i] == r.value && forall j :: 0 <= j < i ==> acts[j].clazz.name != name)
    {
      FirstNamedIsFirst(Registered(), name);
    }

    /** The activator `set_class_enabled` would change, as a frame. */
    function ByClassName(name: string): set<Activator>
      reads this`classActs, this`schemaActs, this`customActs
    {
      if FindByClassName(name).Some? then {FindByClassName(name).value} else {}
    }

    /** The activators the links refer to. */
    function LinkedActs(): set<Activator>
      reads this`links
    {
      set p | p in links.vals :: links.vals[p]
    }

    /** The members of each linked prim's activator. */
    ghost function LinkMembers(): map<PrimPath, Members>
      reads this`links, LinkedActs()`members
    {
      map p | p in links.vals :: links.vals[p].members
    }

    /**
     * `add_activator`: files the activator under its kind and reference,
     * replacing any activator filed there, hands it the members staged for
     * its class name, invalidates the cache and announces it.
     */
    method AddActivator(a: Activator)
      requires Valid()
      modifies this`classActs, this`schemaActs, this`customActs, this`staged, this`eventCache, this`log, {a}`members
      ensures Valid() && CacheSound()
      ensures Table(a.DetectType()) == old(Table(a.DetectType())).Put(a.Reference(), a)
      ensures forall k :: k != a.DetectType() ==> Table(k) == old(Table(k))
      ensures a.members == if a.clazz.name in old(staged) then old(staged)[a.clazz.name] else old(a.members)
      ensures staged == old(staged) - {a.clazz.name}
      ensures eventCache == None
      ensures log == old(log) + [ActivatorAdded(a.DetectType(), a.Reference(), a.clazz.name)]
    {
      match a.DetectType() {
        case ClassKind => classActs := classActs.Put(a.Reference(), a);
        case SchemaKind => schemaActs := schemaActs.Put(a.Reference(), a);
        case CustomKind => customActs := customActs.Put(a.Reference(), a);
      }
      MoveMembersToActivator(a.clazz.name, a);
      eventCache := None;
      log := log + [ActivatorAdded(a.DetectType(), a.Reference(), a.clazz.name)];
    }

    /** `_move_members_to_activator`: the staged members of `name` move into `a`. */
    method MoveMembersToActivator(name: string, a: Activator)
      modifies this`staged, {a}`members
      ensures a.members == if name in old(staged) then old(staged)[name] else old(a.members)
      ensures staged == old(staged) - {name}
    {
      if name in staged {
        a.members := staged[name];
        staged := staged - {name};
      }
    }

    /** `update_links()` on `stage` followed by firing `note`: the enabling path of `set_class_enabled`. */
    method RelinkThenNote(stage: Stage, note: Notice)
      requires links.Valid()
      modifies this`links, this`log
      ensures links.Valid()
      ensures var ps, ts := stage.Traversal(), old(Targets(stage.nodes));
        && links == Relink(old(links), ps, ts, false)
        && log == old(log) + RelinkNotices(old(links), ps, ts, false) + [note]
      ensures Targets(stage.nodes) == old(Targets(stage.nodes))
    {
      UpdateLinks(false, None, Some(stage));
      log := log + [note];
      TargetsFramed(stage.nodes);
    }

    /**
     * `set_class_enabled`: sets the flag of the first activator of that class
     * name; enabling rescans the context stage, disabling removes that
     * activator's links unless `keepLinks`.
     */
    method SetClassEnabled(clazz: ClassRef, enabled: bool, keepLinks: bool, contextStage: Option<Stage>)
      requires links.Valid()
      modifies this`links, this`log, ByClassName(clazz.name)`enabled
      ensures links.Valid()
      ensures old(FindByClassName(clazz.name)).None? ==> links == old(links) && log == old(log)
      ensures var found := old(FindByClassName(clazz.name));
        found.Some? ==> found.value.enabled == enabled
      ensures var found := old(FindByClassName(clazz.name));
        found.Some? && enabled && contextStage.None? ==>
          links == old(links) && log == old(log) + [ActivatorEnabled(found.value.DetectType(), found.value.Reference(), clazz.name)]
      ensures var found := old(FindByClassName(clazz.name));
        found.Some? && enabled && contextStage.Some? ==>
          var ps, ts := contextStage.value.Traversal(), Targets(contextStage.value.nodes);
          && links == Relink(old(links), ps, ts, false)
          && log == old(log) + RelinkNotices(old(links), ps, ts, false)
               + [ActivatorEnabled(found.value.DetectType(), found.value.Reference(), clazz.name)]
      ensures var found := old(FindByClassName(clazz.name));
        found.Some? && !enabled && !keepLinks ==>
          && links == Unlinked(old(links), found)
          && log == old(log) + Removals(old(links), old(links).keys, found)
               + [ActivatorDisabled(found.value.DetectType(), found.value.Reference(), clazz.name)]
      ensures var found := old(FindByClassName(clazz.name));
        found.Some? && !enabled && keepLinks ==>
          links == old(links) && log == old(log) + [ActivatorDisabled(found.value.DetectType(), found.value.Reference(), clazz.name)]
    {
      var found := FindByClassName(clazz.name);
      if found.Some? {
        var a := found.value;
        var note := if enabled then ActivatorEnabled(a.DetectType(), a.Reference(), a.clazz.name)
                    else ActivatorDisabled(a.DetectType(), a.Reference(), a.clazz.name);
        a.enabled := enabled;
        if enabled && contextStage.Some? {
          RelinkThenNote(contextStage.value, note);
        } else {
          if !enabled && !keepLinks {
            RemoveLinks(found);
          }
          log := log + [note];
        }
      }
    }

    /**
     * `add_usd_attr`: stages `f` as the watcher of `path` for the class of
     * `f`. The value parameter, by default the part of `path` after its last
     * dot, is recorded on `f` only when `f` binds a parameter of that name;
     * otherwise `f` keeps whatever parameter an earlier call recorded.
     */
    method AddUsdAttr(f: Callable, path: string, paramName: Option<string>)
      modifies this`staged, this`valueParams
      ensures var name := ClassNameOf(f.qualname);
        staged == old(staged)[name := WithWatcher(StagedFor(old(staged), name), path, f)]
      ensures var param := if paramName.Some? then paramName.value else SplitLast(path, '.');
        && (param in f.bindings ==> valueParams == old(valueParams)[f := param])
        && (param !in f.bindings ==> valueParams == old(valueParams))
    {
      var param := if paramName.Some? then paramName.value else SplitLast(path, '.');
      var name := ClassNameOf(f.qualname);
      staged := staged[name := WithWatcher(StagedFor(staged, name), path, f)];
      if param in f.bindings {
        valueParams := valueParams[f := param];
      }
    }

    /**
     * `register_event`: stages `f` as a handler of the event for the class of
     * `f`, after the earlier ones, and sets the editmode flag of `f`, which
     * then gates every event `f` handles.
     */
    method RegisterEvent(f: Callable, id: EventId, editmode: bool)
      modifies this`staged, this`editFlags
      ensures var name := ClassNameOf(f.qualname);
        staged == old(staged)[name := WithHandler(StagedFor(old(staged), name), EventTypeOf(id), f)]
      ensures editFlags == old(editFlags)[f := editmode]
      ensures forall playing: bool :: Fires(f, editFlags, playing) <==> playing || editmode
    {
      var eventType := EventTypeOf(id);
      var name := ClassNameOf(f.qualname);
      staged := staged[name := WithHandler(StagedFor(staged, name), eventType, f)];
      editFlags := editFlags[f := editmode];
    }

    /**
     * `get_registered_events`: answers from the cache unless it is unset or
     * empty, in which case it first rebuilds it from every registered
     * activator. With a sound cache the answer is the registered event types.
     */
    method GetRegisteredEvents() returns (r: set<EventType>)
      modifies this`eventCache
      ensures r == old(CachedOrFresh()) && CachedOrFresh() == r
      ensures eventCache == Some(r)
      ensures old(CacheSound()) ==> r == RegisteredEvents() && CacheSound()
    {
      if eventCache.None? || eventCache.value == {} {
        var s := CollectEvents(Registered());
        eventCache := Some(s);
        forall a | a in old(Filed()) ensures unchanged(a`members) { }
        EventsFramed();
      }
      r := eventCache.value;
    }

    /**
     * `remove_link`: pops the link at `p` and announces it; a path with no
     * link is left alone, silently.
     */
    method RemoveLink(p: PrimPath)
      requires links.Valid()
      modifies this`links, this`log
      ensures links.Valid()
      ensures p in old(links.vals) ==>
        links == old(links).Remove(p) && log == old(log) + [LinkRemoved(p, old(links.vals[p]).clazz.name)]
      ensures p !in old(links.vals) ==> links == old(links) && log == old(log)
    {
      if p in links.vals {
        var a := links.vals[p];
        links := links.Remove(p);
        log := log + [LinkRemoved(p, a.clazz.name)];
      }
    }

    /**
     * `create_new_link`: links `p` to the activator found for its node, when
     * there is one and it is enabled, replacing any link `p` had.
     */
    method CreateNewLink(p: PrimPath, n: Node)
      requires links.Valid()
      modifies this`links, this`log
      ensures links.Valid()
      ensures old(Target(n)).Some? ==>
        links == old(links).Put(p, old(Target(n)).value) && log == old(log) + [LinkAdded(p, old(Target(n)).value.clazz.name)]
      ensures old(Target(n)).None? ==> links == old(links) && log == old(log)
    {
      var found := FindActivator(n);
      if found.Some? && found.value.enabled {
        links := links.Put(p, found.value);
        log := log + [LinkAdded(p, found.value.clazz.name)];
      }
    }

    /**
     * One iteration of the removal loop: the link at the `i`-th snapshot
     * path `k` is removed when removal with `owner` hits it.
     */
    method RemoveAt(ghost start: Links, i: nat, k: PrimPath, owner: Option<Activator>, ghost base: seq<Notice>)
      requires start.Valid() && i < |start.keys| && k == start.keys[i] && links.Valid()
      requires links == start.RemoveAll(Doomed(start, start.keys[..i], owner))
      requires log == base + Removals(start, start.keys[..i], owner)
      modifies this`links, this`log
      ensures links.Valid()
      ensures links == start.RemoveAll(Doomed(start, start.keys[..i + 1], owner))
      ensures log == base + Removals(start, start.keys[..i + 1], owner)
    {
      RemovalStep(start, i, owner);
      if Hit(links, k, owner) {
        AppendAssoc(base, Removals(start, start.keys[..i], owner), [LinkRemoved(k, links.vals[k].clazz.name)]);
        RemoveLink(k);
      }
    }

    /**
     * The removal loop of `clear_links` (`owner == None`) and of
     * `_remove_links_for_activator` (`owner == Some(a)`), over a snapshot of
     * the link paths.
     */
    method RemoveLinks(owner: Option<Activator>)
      requires links.Valid()
      modifies this`links, this`log
      ensures links.Valid()
      ensures links == Unlinked(old(links), owner)
      ensures log == old(log) + Removals(old(links), old(links).keys, owner)
    {
      var ks := links.keys;
      ghost var start := links;
      RemovalStart(start, owner);
      for i := 0 to |ks|
        invariant links.Valid()
        invariant links == start.RemoveAll(Doomed(start, ks[..i], owner))
        invariant log == old(log) + Removals(start, ks[..i], owner)
      {
        RemoveAt(start, i, ks[i], owner, old(log));
      }
      RemovalEnd(start, owner);
    }

    /** `clear_links`: removes every link, announcing each in link order. */
    method ClearLinks()
      requires links.Valid()
      modifies this`links, this`log
      ensures links.Valid() && links == Empty()
      ensures log == old(log) + Removals(old(links), old(links).keys, None)
      ensures CachedOrFresh() == old(CachedOrFresh()) && (old(CacheSound()) ==> CacheSound())
    {
      RemoveLinks(None);
      forall a | a in old(Filed()) ensures unchanged(a`members) { }
      CacheFramed();
    }

    /**
     * `clear`: removes every link and forgets every activator and staged
     * member. The event cache is left as it was.
     */
    method Clear()
      requires Valid()
      modifies this`classActs, this`schemaActs, this`customActs, this`staged, this`links, this`log
      ensures Valid()
      ensures links == Empty() && classActs == Empty() && schemaActs == Empty() && customActs == Empty()
      ensures staged == map[]
      ensures log == old(log) + Removals(old(links), old(links).keys, None)
    {
      ClearLinks();
      classActs, schemaActs, customActs := Empty(), Empty(), Empty();
      staged := map[];
    }

    /**
     * One iteration of a table's discard loop: the activator under the
     * `i`-th snapshot key, when `c` selects it, loses its links, leaves the
     * table (answered as `left`) and is announced, and the cache is dropped.
     */
    method DiscardAt(table: ODict<string, Activator>, ghost startLinks: Links, ks: seq<string>, i: nat, c: Criterion,
                     left0: ODict<string, Activator>, ghost base: seq<Notice>, ghost cache0: Option<set<EventType>>)
      returns (left: ODict<string, Activator>)
      requires table.Valid() && startLinks.Valid() && links.Valid() && i < |ks| && ks[i] in table.vals
      requires var d := DiscardFold(table, startLinks, ks[..i], c);
        && left0 == d.table && links == d.links && log == base + d.notices
        && eventCache == (if d.hit then None else cache0)
      modifies this`links, this`log, this`eventCache
      ensures links.Valid()
      ensures var d := DiscardFold(table, startLinks, ks[..i + 1], c);
        && left == d.table && links == d.links && log == base + d.notices
        && eventCache == (if d.hit then None else cache0)
    {
      DiscardStep(table, startLinks, ks, i, c);
      left := left0;
      var k := ks[i];
      var a := table.vals[k];
      if Matches(c, a.clazz) {
        ghost var prev := DiscardFold(table, startLinks, ks[..i], c);
        RemoveLinks(Some(a));
        ghost var gone := Removals(prev.links, prev.links.keys, Some(a));
        left := left.Remove(k);
        eventCache := None;
        log := log + [ActivatorRemoved(a.DetectType(), a.Reference(), a.clazz.name)];
        AppendAssoc(base, prev.notices, gone);
        AppendAssoc(base, prev.notices + gone, [ActivatorRemoved(a.DetectType(), a.Reference(), a.clazz.name)]);
      }
    }

    /**
     * The discard loop over one activator table, on a snapshot of its keys;
     * answers the table that is left.
     */
    method DiscardIn(table: ODict<string, Activator>, c: Criterion) returns (left: ODict<string, Activator>)
      requires table.Valid() && links.Valid()
      modifies this`links, this`log, this`eventCache
      ensures links.Valid()
      ensures left == DiscardFold(table, old(links), table.keys, c).table
      ensures links == DiscardFold(table, old(links), table.keys, c).links
      ensures log == old(log) + DiscardFold(table, old(links), table.keys, c).notices
      ensures eventCache == (if DiscardFold(table, old(links), table.keys, c).hit then None else old(eventCache))
    {
      left := table;
      var ks := table.keys;
      ghost var startLinks := links;
      for i := 0 to |ks|
        invariant links.Valid()
        invariant var d := DiscardFold(table, startLinks, ks[..i], c);
          && left == d.table && links == d.links && log == old(log) + d.notices
          && eventCache == (if d.hit then None else old(eventCache))
      {
        assert ks[i] in table.vals by { assert ks[i] in ks; }
        left := DiscardAt(table, startLinks, ks, i, c, left, old(log), old(eventCache));
      }
      assert ks[..|ks|] == ks;
    }

    /**
     * The shared body of `discard_namespace` and `discard_class`: every
     * selected activator of the class, schema and custom tables, in turn,
     * loses its links and leaves its table.
     */
    method Discard(c: Criterion)
      requires Valid()
      modifies this`classActs, this`schemaActs, this`customActs, this`links, this`log, this`eventCache
      ensures Valid()
      ensures old(CacheSound()) ==> CacheSound()
      ensures var d1 := DiscardFold(old(classActs), old(links), old(classActs).keys, c);
        var d2 := DiscardFold(old(schemaActs), d1.links, old(schemaActs).keys, c);
        var d3 := DiscardFold(old(customActs), d2.links, old(customActs).keys, c);
        && classActs == d1.table && schemaActs == d2.table && customActs == d3.table
        && links == d3.links && log == old(log) + d1.notices + d2.notices + d3.notices
        && eventCache == (if d1.hit || d2.hit || d3.hit then None else old(eventCache))
      ensures forall a :: a in Filed() ==> !Matches(c, a.clazz)
    {
      DiscardClears(classActs, links, c);
      classActs := DiscardIn(classActs, c);
      DiscardClears(schemaActs, links, c);
      schemaActs := DiscardIn(schemaActs, c);
      DiscardClears(customActs, links, c);
      customActs := DiscardIn(customActs, c);
      IndexedKept(old(classActs), classActs, ClassKind);
      IndexedKept(old(schemaActs), schemaActs, SchemaKind);
      IndexedKept(old(customActs), customActs, CustomKind);
      if eventCache.Some? {
        CacheSoundFramed();
      }
    }

    /** `discard_namespace`: discards the activators whose class's module starts with `prefix`. */
    method DiscardNamespace(prefix: string)
      requires Valid()
      modifies this`classActs, this`schemaActs, this`customActs, this`links, this`log, this`eventCache
      ensures Valid()
      ensures old(CacheSound()) ==> CacheSound()
      ensures forall k :: k in Filed() ==> !(prefix <= k.clazz.moduleName)
      ensures old(log) <= log
      ensures Discards(InNamespace(prefix), old(classActs), old(schemaActs), old(customActs), old(links),
                       classActs, schemaActs, customActs, links, log[|old(log)|..])
    {
      var c := InNamespace(prefix);
      ghost var t1, t2, t3, l0 := classActs, schemaActs, customActs, links;
      ghost var d1 := DiscardFold(t1, l0, t1.keys, c);
      ghost var d2 := DiscardFold(t2, d1.links, t2.keys, c);
      ghost var d3 := DiscardFold(t3, d2.links, t3.keys, c);
      DiscardTablesOutcome(t1, t2, t3, l0, c);
      Discard(c);
      AppendAssoc(old(log) + d1.notices, d2.notices, d3.notices);
      AppendAssoc(old(log), d1.notices, d2.notices + d3.notices);
      AppendAssoc(d1.notices, d2.notices, d3.notices);
      assert log[|old(log)|..] == d1.notices + d2.notices + d3.notices;
    }

    /** `discard_class`: discards the activators of `clazz`. */
    method DiscardClass(clazz: ClassRef)
      requires Valid()
      modifies this`classActs, this`schemaActs, this`customActs, this`links, this`log, this`eventCache
      ensures Valid()
      ensures old(CacheSound()) ==> CacheSound()
      ensures forall k :: k in Filed() ==> k.clazz != clazz
      ensures old(log) <= log
      ensures Discards(IsClass(clazz), old(classActs), old(schemaActs), old(customActs), old(links),
                       classActs, schemaActs, customActs, links, log[|old(log)|..])
    {
      var c := IsClass(clazz);
      ghost var t1, t2, t3, l0 := classActs, schemaActs, customActs, links;
      ghost var d1 := DiscardFold(t1, l0, t1.keys, c);
      ghost var d2 := DiscardFold(t2, d1.links, t2.keys, c);
      ghost var d3 := DiscardFold(t3, d2.links, t3.keys, c);
      DiscardTablesOutcome(t1, t2, t3, l0, c);
      Discard(c);
      AppendAssoc(old(log) + d1.notices, d2.notices, d3.notices);
      AppendAssoc(old(log), d1.notices, d2.notices + d3.notices);
      AppendAssoc(d1.notices, d2.notices, d3.notices);
      assert log[|old(log)|..] == d1.notices + d2.notices + d3.notices;
    }

    /**
     * One iteration of the `update_links` scan: `create_new_link` on the
     * `i`-th path, when it is unlinked or `renewAll` holds.
     */
    method RelinkAt(ghost start: Links, ps: seq<PrimPath>, i: nat, ghost ts: map<PrimPath, Activator>,
                    renewAll: bool, n: Node, ghost base: seq<Notice>)
      requires i < |ps| && links.Valid()
      requires links == Relink(start, ps[..i], ts, renewAll)
      requires log == base + RelinkNotices(start, ps[..i], ts, renewAll)
      requires ps[i] in ts <==> Target(n).Some?
      requires ps[i] in ts ==> Target(n) == Some(ts[ps[i]])
      modifies this`links, this`log
      ensures links.Valid()
      ensures links == Relink(start, ps[..i + 1], ts, renewAll)
      ensures log == base + RelinkNotices(start, ps[..i + 1], ts, renewAll)
    {
      var p := ps[i];
      RelinkStep(start, ps, i, ts, renewAll);
      ghost var log0 := log;
      ghost var hit := (renewAll || p !in links.vals) && p in ts;
      ghost var added: seq<Notice> := if hit then [LinkAdded(p, ts[p].clazz.name)] else [];
      if renewAll || p !in links.vals {
        CreateNewLink(p, n);
      }
      assert log == log0 + added;
      AppendAssoc(base, RelinkNotices(start, ps[..i], ts, renewAll), added);
    }

    /**
     * `update_links`: tries `create_new_link` on every traversed prim of the
     * given stage (else the context stage), skipping linked paths unless
     * `renewAll`.
     */
    method UpdateLinks(renewAll: bool, stage: Option<Stage>, contextStage: Option<Stage>)
      requires links.Valid()
      modifies this`links, this`log
      ensures links.Valid()
      ensures var s := if stage.Some? then stage else contextStage;
        && (s.None? ==> links == old(links) && log == old(log))
        && (s.Some? ==>
              var ps, ts := s.value.Traversal(), old(Targets(s.value.nodes));
              links == Relink(old(links), ps, ts, renewAll) && log == old(log) + RelinkNotices(old(links), ps, ts, renewAll))
    {
      var s := if stage.Some? then stage else contextStage;
      if s.Some? {
        var ps := s.value.Traversal();
        ghost var ts := Targets(s.value.nodes);
        ghost var start := links;
        for i := 0 to |ps|
          invariant links.Valid()
          invariant links == Relink(start, ps[..i], ts, renewAll)
          invariant log == old(log) + RelinkNotices(start, ps[..i], ts, renewAll)
        {
          assert ps[i] in ps;
          var n := s.value.nodes[ps[i]];
          TargetFramed(n);
          RelinkAt(start, ps, i, ts, renewAll, n, old(log));
        }
        assert ps[..|ps|] == ps;
      }
    }

    /** `link_entire_stage`: `update_links` with `renew_all`. */
    method LinkEntireStage(stage: Option<Stage>, contextStage: Option<Stage>)
      requires links.Valid()
      modifies this`links, this`log
      ensures links.Valid()
      ensures var s := if stage.Some? then stage else contextStage;
        && (s.None? ==> links == old(links) && log == old(log))
        && (s.Some? ==>
              var ps, ts := s.value.Traversal(), old(Targets(s.value.nodes));
              links == Relink(old(links), ps, ts, true) && log == old(log) + RelinkNotices(old(links), ps, ts, true))
    {
      UpdateLinks(true, stage, contextStage);
    }

    /**
     * `property_changed`: the watcher, if any, that the link of the changed
     * property's prim has for that property's name.
     */
    function PropertyChanged(changed: ScenePath): (r: Option<AttrCall>)
      reads this`links, this`valueParams, LinkedActs()`members
      ensures r.Some? <==>
        PrimPathOf(changed) in links.vals && NameOf(changed) in links.vals[PrimPathOf(changed)].members.attr
      ensures r.Some? ==> r.value.fn == links.vals[PrimPathOf(changed)].members.attr[NameOf(changed)]
      ensures r.Some? ==> r.value.valueParam == if r.value.fn in valueParams then Some(valueParams[r.value.fn]) else None
    {
      var p := PrimPathOf(changed);
      if p in links.vals then links.vals[p].CallAttrChanged(changed, valueParams) else None
    }

    /**
     * The watcher calls the changed-info loop of `_handle_usd_event` makes:
     * `property_changed` on each property path of `cps`, in order.
     */
    function Watched(cps: seq<ScenePath>): (r: seq<AttrCall>)
      reads this`links, this`valueParams, LinkedActs()`members
      ensures forall c :: c in r ==> exists cp :: cp in cps && IsPropertyPath(cp) && PropertyChanged(cp) == Some(c)
      ensures forall cp :: cp in cps && IsPropertyPath(cp) && PropertyChanged(cp).Some? ==> PropertyChanged(cp).value in r
    {
      if cps == [] then []
      else
        var init, cp := cps[..|cps| - 1], cps[|cps| - 1];
        assert forall q :: q in cps <==> q in init || q == cp;
        Watched(init) + (if IsPropertyPath(cp) && PropertyChanged(cp).Some? then [PropertyChanged(cp).value] else [])
    }

    /** One link's turn of `dispatch_events`: its activator's gated handlers of `t`, tagged with its path. */
    method LinkCalls(k: PrimPath, t: EventType, playing: bool) returns (calls: seq<Call>)
      requires k in links.vals
      ensures k in LinkMembers()
      ensures calls == CallsAt(k, Gated(HandlersFor(LinkMembers()[k], t), editFlags, playing))
    {
      var fired := links.vals[k].CallEvent(t, editFlags, playing);
      calls := CallsAt(k, fired);
    }

    /** `dispatch_events`: every link, in link order, runs its activator's gated handlers of `t`. */
    method DispatchEvents(t: EventType, playing: bool) returns (calls: seq<Call>)
      requires links.Valid()
      ensures calls == Dispatched(links.keys, LinkMembers(), editFlags, t, playing)
    {
      calls := [];
      var ks := links.keys;
      ghost var ms := LinkMembers();
      for i := 0 to |ks|
        invariant calls == Dispatched(ks[..i], ms, editFlags, t, playing)
      {
        var k := ks[i];
        assert k in links.vals by { assert k in ks; }
        var more := LinkCalls(k, t, playing);
        calls := calls + more;
        DispatchStep(ks, i, ms, editFlags, t, playing);
      }
      assert ks[..|ks|] == ks;
      assert ms == LinkMembers();
    }
  }
}
