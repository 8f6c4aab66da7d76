/**
 * Activators: the registration of a class as linkable to prims. An activator
 * knows its class, how prims are detected for it (its rule), whether it is
 * enabled, and the attribute watchers and event handlers declared by the
 * class's methods.
 */
module Activators {
  import opened Optional
  import opened Scene
  import opened Naming
  import opened EventTypes

  type EventType = int

  /** The three detection kinds, in the order the manager keeps their tables. */
  datatype Kind = ClassKind | SchemaKind | CustomKind

  /** A Python class as the engine uses it: its `__module__` and its `__name__`. */
  datatype ClassRef = ClassRef(moduleName: string, name: string)

  /**
   * The argument of `@linked`: none, a schema name, or a detection function
   * (named by its `__name__`).
   */
  datatype Rule = NoRule | SchemaRule(schema: string) | DetectorRule(detector: string)

  /**
   * The `(detectType, reference)` an activator is filed under. A missing or
   * empty rule detects by class name, a non-empty string by schema, a
   * function by calling it, filed as `"function;Class"`.
   */
  function DetectionKey(clazz: ClassRef, rule: Rule): (key: (Kind, string))
    ensures key.0 == ClassKind <==> rule == NoRule || rule == SchemaRule("")
    ensures key.0 == ClassKind ==> key.1 == clazz.name
    ensures key.0 == SchemaKind ==> rule.SchemaRule? && rule.schema != "" && key.1 == rule.schema
    ensures key.0 == CustomKind <==> rule.DetectorRule?
    ensures key.0 == CustomKind ==> key.1 == rule.detector + ";" + clazz.name
  {
    match rule
    case NoRule => (ClassKind, clazz.name)
    case SchemaRule(s) => if s == "" then (ClassKind, clazz.name) else (SchemaKind, s)
    case DetectorRule(f) => (CustomKind, f + ";" + clazz.name)
  }

  /**
   * Two custom activators are filed under the same reference (and so replace
   * one another) exactly when they share the detection function's name and
   * the class name, provided function names hold no `;`.
   */
  lemma CustomKeyIdentifies(c1: ClassRef, f1: string, c2: ClassRef, f2: string)
    requires ';' !in f1 && ';' !in f2
    ensures DetectionKey(c1, DetectorRule(f1)) == DetectionKey(c2, DetectorRule(f2))
        <==> f1 == f2 && c1.name == c2.name
  {
    var k1, k2 := f1 + [';'] + c1.name, f2 + [';'] + c2.name;
    assert DetectionKey(c1, DetectorRule(f1)).1 == k1;
    assert DetectionKey(c2, DetectorRule(f2)).1 == k2;
    if k1 == k2 {
      SplitFirstOfJoined(f1, ';', c1.name);
      SplitFirstOfJoined(f2, ';', c2.name);
      assert c1.name == k1[|f1| + 1..];
      assert c2.name == k2[|f2| + 1..];
    }
  }

  /**
   * A decorated function: its `__qualname__` and the names of the
   * parameters the injector binds for it (`get_bindings`).
   */
  datatype Callable = Callable(qualname: string, bindings: set<string>)

  /**
   * The `__meta_editmode__` attribute of each decorated function: one flag
   * per function, set by every `register_event` of it, so the last
   * registration decides for all of them.
   */
  type EditFlags = map<Callable, bool>

  /**
   * The `__meta_value_param__` attribute of each decorated function: one
   * parameter name per function, written by `add_usd_attr` only when the
   * name is among the function's bindings, so the last such write decides
   * for every attribute the function watches.
   */
  type ValueParams = map<Callable, string>

  /** `Members`: attribute watchers by attribute name, event handlers by event type. */
  datatype Members = Members(attr: map<string, Callable>, event: map<EventType, seq<Callable>>)

  function NoMembers(): Members {
    Members(map[], map[])
  }

  /** The handlers registered for `t`, in registration order. */
  function HandlersFor(m: Members, t: EventType): (hs: seq<Callable>)
    ensures t !in m.event ==> hs == []
  {
    if t in m.event then m.event[t] else []
  }

  /** `m` with `h` appended to the handlers of `t`. */
  function WithHandler(m: Members, t: EventType, h: Callable): (r: Members)
    ensures r.attr == m.attr && r.event.Keys == m.event.Keys + {t}
    ensures HandlersFor(r, t) == HandlersFor(m, t) + [h]
    ensures forall u :: u != t ==> HandlersFor(r, u) == HandlersFor(m, u)
  {
    m.(event := m.event[t := HandlersFor(m, t) + [h]])
  }

  /** `m` with `w` watching `path`, replacing any earlier watcher of it. */
  function WithWatcher(m: Members, path: string, w: Callable): (r: Members)
    ensures r.event == m.event && r.attr.Keys == m.attr.Keys + {path} && r.attr[path] == w
    ensures forall p :: p in m.attr && p != path ==> r.attr[p] == m.attr[p]
  {
    m.(attr := m.attr[path := w])
  }

  /**
   * The `call_event` gate: a handler runs while the timeline plays, or always
   * if its function's flag is set. Every function in a handler list went
   * through `register_event`, which sets the flag; one that did not has none.
   */
  predicate Fires(f: Callable, flags: EditFlags, playing: bool) {
    playing || (f in flags && flags[f])
  }

  /** The handlers of `hs` that pass the gate, in order. */
  function Gated(hs: seq<Callable>, flags: EditFlags, playing: bool): (r: seq<Callable>)
    ensures |r| <= |hs|
    ensures playing ==> r == hs
    ensures forall f :: f in r <==> f in hs && Fires(f, flags, playing)
  {
    if hs == [] then []
    else
      var init := hs[..|hs| - 1];
      var last := hs[|hs| - 1];
      var rest := Gated(init, flags, playing);
      assert hs == init + [last];
      if Fires(last, flags, playing) then rest + [last] else rest
  }

  /** An event name or number as given to `register_event`. */
  datatype EventId = Named(name: string) | Numbered(number: int)

  /** A string id is interned with `type_for`, an integer id is used as it is. */
  function EventTypeOf(id: EventId): (t: EventType)
    ensures id.Numbered? ==> t == id.number
    ensures id.Named? ==> t >= 0 && (t == 0 <==> id.name == "")
  {
    match id
    case Named(name) => TypeFor(name)
    case Numbered(n) => n
  }

  /**
   * The event decorators: `on_update`/`on_pre_update` bare or called with
   * arguments, the fixed-event decorators, and `on_event(id)`.
   */
  datatype Decorator =
    | OnUpdate(called: bool, editmode: bool)
    | OnPreUpdate(called: bool, editmode: bool)
    | OnDestroy | OnPlay | OnPause | OnStop | OnStep
    | OnEvent(id: EventId)

  /**
   * What a decorator passes to `register_event`: the event and the editmode
   * flag. Timeline handlers (play, pause, stop) set the flag; a bare
   * `@on_update` clears it, whatever its default says.
   */
  function Registration(d: Decorator): (r: (EventId, bool))
    ensures d.OnPlay? || d.OnPause? || d.OnStop? ==> r.1
    ensures d.OnDestroy? || d.OnStep? || d.OnEvent? ==> !r.1
    ensures d.OnUpdate? || d.OnPreUpdate? ==> (r.1 <==> d.called && d.editmode)
    ensures d.OnUpdate? ==> r.0 == Named("update")
    ensures d.OnPreUpdate? ==> r.0 == Named("pre_update")
    ensures d.OnDestroy? ==> r.0 == Named("destroy")
    ensures d.OnPlay? ==> r.0 == Named("play")
    ensures d.OnPause? ==> r.0 == Named("pause")
    ensures d.OnStop? ==> r.0 == Named("stop")
    ensures d.OnStep? ==> r.0 == Named("step")
    ensures d.OnEvent? ==> r.0 == d.id
  {
    match d
    case OnUpdate(called, editmode) => (Named("update"), called && editmode)
    case OnPreUpdate(called, editmode) => (Named("pre_update"), called && editmode)
    case OnDestroy => (Named("destroy"), false)
    case OnPlay => (Named("play"), true)
    case OnPause => (Named("pause"), true)
    case OnStop => (Named("stop"), true)
    case OnStep => (Named("step"), false)
    case OnEvent(id) => (id, false)
  }

  /**
   * A call of an attribute watcher: the function, and the parameter the
   * attribute's value goes to, if the function has one.
   */
  datatype AttrCall = AttrCall(fn: Callable, valueParam: Option<string>)

  /** `ModelLinkActivator`: a class registered for linking, with its members. */
  class Activator {
    const clazz: ClassRef
    const rule: Rule
    var enabled: bool
    var members: Members

    constructor (clazz: ClassRef, rule: Rule, enabled: bool)
      ensures this.clazz == clazz && this.rule == rule
      ensures this.enabled == enabled && members == NoMembers()
    {
      this.clazz := clazz;
      this.rule := rule;
      this.enabled := enabled;
      members := NoMembers();
    }

    /** `detectType`. */
    function DetectType(): Kind {
      DetectionKey(clazz, rule).0
    }

    /** `reference`. */
    function Reference(): string {
      DetectionKey(clazz, rule).1
    }

    /**
     * `call_attr_changed`: the watcher of the changed attribute's name is
     * called, and nothing is called for an attribute nobody watches. The
     * value goes to the parameter recorded on the watcher's function, and
     * to none when no parameter was recorded for it.
     */
    function CallAttrChanged(changed: ScenePath, params: ValueParams): (r: Option<AttrCall>)
      reads this`members
      ensures r.Some? <==> NameOf(changed) in members.attr
      ensures r.Some? ==> r.value.fn == members.attr[NameOf(changed)]
      ensures r.Some? ==> (r.value.valueParam.Some? <==> r.value.fn in params)
      ensures r.Some? && r.value.valueParam.Some? ==> r.value.valueParam.value == params[r.value.fn]
    {
      var attr := NameOf(changed);
      if attr in members.attr then
        var f := members.attr[attr];
        Some(AttrCall(f, if f in params then Some(params[f]) else None))
      else None
    }

    /**
     * `call_event`: runs the handlers of `t` in registration order, skipping
     * those the gate holds back.
     */
    method CallEvent(t: EventType, flags: EditFlags, playing: bool) returns (fired: seq<Callable>)
      ensures fired == Gated(HandlersFor(members, t), flags, playing)
    {
      fired := [];
      if t in members.event {
        var hs := members.event[t];
        for i := 0 to |hs|
          invariant fired == Gated(hs[..i], flags, playing)
        {
          assert hs[..i + 1][..i] == hs[..i];
          if playing || (hs[i] in flags && flags[hs[i]]) {
            fired := fired + [hs[i]];
          }
        }
        assert hs[..|hs|] == hs;
      }
    }
  }
}
