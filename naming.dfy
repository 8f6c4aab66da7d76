/** The string splits the registration code performs on separated names. */
module Naming {

  /** `s.split(sep)[0]`: everything before the first `sep`. */
  function SplitFirst(s: string, sep: char): (r: string)
    ensures r <= s
    ensures sep !in r
    ensures |r| < |s| ==> s[|r|] == sep
  {
    if s == [] || s[0] == sep then []
    else [s[0]] + SplitFirst(s[1..], sep)
  }

  /** `s.split(sep)[-1]`: everything after the last `sep`. */
  function SplitLast(s: string, sep: char): (r: string)
    ensures |r| <= |s| && sep !in r
  {
    if s == [] || s[|s| - 1] == sep then []
    else SplitLast(s[..|s| - 1], sep) + [s[|s| - 1]]
  }

  /** The last piece is a suffix of `s`, preceded by `sep` when it is not all of `s`. */
  lemma {:induction false} SplitLastIsSuffix(s: string, sep: char)
    ensures var r := SplitLast(s, sep);
      r == s[|s| - |r|..] && (|r| < |s| ==> s[|s| - |r| - 1] == sep)
  {
    if s != [] && s[|s| - 1] != sep {
      var init := s[..|s| - 1];
      SplitLastIsSuffix(init, sep);
      var r' := SplitLast(init, sep);
      assert init[|init| - |r'|..] + [s[|s| - 1]] == s[|s| - |r'| - 1..];
    }
  }

  /** Splitting `a + sep + b` at its first `sep` gives back `a` when `a` holds no `sep`. */
  lemma {:induction false} SplitFirstOfJoined(a: string, sep: char, b: string)
    requires sep !in a
    ensures SplitFirst(a + [sep] + b, sep) == a
  {
    var s := a + [sep] + b;
    if a != [] {
      assert s[0] == a[0] != sep;
      assert s[1..] == a[1..] + [sep] + b;
      SplitFirstOfJoined(a[1..], sep, b);
      assert a == [a[0]] + a[1..];
    }
  }

  /** Splitting `a + sep + b` at its last `sep` gives back `b` when `b` holds no `sep`. */
  lemma {:induction false} SplitLastOfJoined(a: string, sep: char, b: string)
    requires sep !in b
    ensures SplitLast(a + [sep] + b, sep) == b
  {
    var s := a + [sep] + b;
    if b != [] {
      var b' := b[..|b| - 1];
      assert s[|s| - 1] == b[|b| - 1] != sep;
      assert s[..|s| - 1] == a + [sep] + b';
      SplitLastOfJoined(a, sep, b');
      assert b == b' + [b[|b| - 1]];
    }
  }

  /** `_extract_class_name`: the class part of a method's qualified name `Class.method`. */
  function ClassNameOf(qualname: string): (r: string)
    ensures r <= qualname && '.' !in r
  {
    SplitFirst(qualname, '.')
  }

  /** The class part of `Class.method` is `Class`. */
  lemma ClassNameOfMethod(cls: string, method_: string)
    requires '.' !in cls
    ensures ClassNameOf(cls + "." + method_) == cls
  {
    SplitFirstOfJoined(cls, '.', method_);
  }
}
