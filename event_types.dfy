/**
 * The event type space: every event name (`"update"`, `"play"`, a custom
 * signal name) is turned into an integer id by `type_for`, which the source
 * delegates to the host's `type_from_string`. The model gives it a concrete
 * definition with the one property the engine relies on: equal names give
 * equal ids and distinct names give distinct ids.
 */
module EventTypes {

  /** One more than the largest code point, so every digit `c as int + 1` is below it. */
  const Radix: int := 0x11_0001

  function Digit(c: char): (d: int)
    ensures 1 <= d < Radix
  {
    c as int + 1
  }

  /** `type_for(name)`: `name` read as a numeral in bijective base `Radix`. */
  function TypeFor(name: string): (id: int)
    ensures id >= 0
    ensures id == 0 <==> name == []
  {
    if name == [] then 0
    else TypeFor(name[..|name| - 1]) * Radix + Digit(name[|name| - 1])
  }

  /** Distinct names are never interned to the same id. */
  lemma {:induction false} TypeForInjective(a: string, b: string)
    ensures TypeFor(a) == TypeFor(b) ==> a == b
  {
    if TypeFor(a) == TypeFor(b) && a != [] && b != [] {
      var a', b' := a[..|a| - 1], b[..|b| - 1];
      var x, y := TypeFor(a'), TypeFor(b');
      var da, db := Digit(a[|a| - 1]), Digit(b[|b| - 1]);
      assert x * Radix + da == y * Radix + db;
      assert x == y && da == db;
      TypeForInjective(a', b');
      assert a == a' + [a[|a| - 1]] && b == b' + [b[|b| - 1]];
    }
  }
}
