/** Helpers shared by every module of the model: an Option type, the string
    operations of Python and JavaScript that the backend, the bots and the
    frontend rely on, and decimal rendering of naturals. */
module Common {

  datatype Option<+T> = None | Some(value: T)

  /** Python's `x or default` on an optional string: absent and empty are both falsy. */
  function OrElse(s: Option<string>, default: string): string
  {
    if s.Some? && s.value != "" then s.value else default
  }

  // ---------------------------------------------------------------- characters

  predicate IsAsciiUpper(c: char) { 'A' <= c <= 'Z' }

  function LowerChar(c: char): char
  {
    if IsAsciiUpper(c) then (c as int + 32) as char else c
  }

  /** `str.lower()` / `String.prototype.toLowerCase()` restricted to ASCII letters. */
  function Lower(s: string): (r: string)
    ensures |r| == |s|
    ensures forall i :: 0 <= i < |s| ==> r[i] == LowerChar(s[i])
  {
    seq(|s|, i requires 0 <= i < |s| => LowerChar(s[i]))
  }

  /** The characters for which Python's `str.isspace()` holds (what `strip()` removes). */
  predicate IsPyWhitespace(c: char)
  {
    c == ' ' || ('\t' <= c <= '\r') || ('\U{1C}' <= c <= '\U{1F}') || c == '\U{85}' || c == '\U{A0}'
    || c == '\U{1680}' || ('\U{2000}' <= c <= '\U{200A}') || c == '\U{2028}' || c == '\U{2029}'
    || c == '\U{202F}' || c == '\U{205F}' || c == '\U{3000}'
  }

  /** The characters matched by JavaScript's `\s` (what `trim()` removes). */
  predicate IsJsWhitespace(c: char)
  {
    c == ' ' || ('\t' <= c <= '\r') || c == '\U{A0}'
    || c == '\U{1680}' || ('\U{2000}' <= c <= '\U{200A}') || c == '\U{2028}' || c == '\U{2029}'
    || c == '\U{202F}' || c == '\U{205F}' || c == '\U{3000}' || c == '\U{FEFF}'
  }

  function PyLStrip(s: string): string
  {
    if |s| > 0 && IsPyWhitespace(s[0]) then PyLStrip(s[1..]) else s
  }

  function PyRStrip(s: string): string
  {
    if |s| > 0 && IsPyWhitespace(s[|s| - 1]) then PyRStrip(s[..|s| - 1]) else s
  }

  /** Python's `str.strip()` with no argument. */
  function PyStrip(s: string): string
  {
    PyRStrip(PyLStrip(s))
  }

  /** A word of lower-case letters and underscores is left alone by both
      `strip()` and `lower()`. */
  lemma PlainKey(s: string)
    requires |s| > 0 && forall i :: 0 <= i < |s| ==> 'a' <= s[i] <= 'z' || s[i] == '_'
    ensures PyStrip(s) == s && Lower(s) == s
  {
    assert PyLStrip(s) == s;
  }

  function JsTrimStart(s: string): string
  {
    if |s| > 0 && IsJsWhitespace(s[0]) then JsTrimStart(s[1..]) else s
  }

  function JsTrimEnd(s: string): string
  {
    if |s| > 0 && IsJsWhitespace(s[|s| - 1]) then JsTrimEnd(s[..|s| - 1]) else s
  }

  /** JavaScript's `String.prototype.trim()`. */
  function JsTrim(s: string): string
  {
    JsTrimEnd(JsTrimStart(s))
  }

  /** Python's `str.rstrip(chars)`: removes the longest trailing run of characters from `chars`. */
  function RStripChars(s: string, chars: set<char>): string
  {
    if |s| > 0 && s[|s| - 1] in chars then RStripChars(s[..|s| - 1], chars) else s
  }

  /** What `rstrip(chars)` leaves: a prefix of `s` that does not end in a stripped
      character, followed in `s` only by stripped characters. */
  lemma {:induction false} RStripCharsSpec(s: string, chars: set<char>)
    ensures var r := RStripChars(s, chars);
      |r| <= |s| && r == s[..|r|]
      && (forall i :: |r| <= i < |s| ==> s[i] in chars)
      && (|r| == 0 || r[|r| - 1] !in chars)
    decreases |s|
  {
    if |s| > 0 && s[|s| - 1] in chars {
      RStripCharsSpec(s[..|s| - 1], chars);
    }
  }

  /** Replace every occurrence of the single character `a` by `b` (length preserving). */
  function ReplaceChar(s: string, a: char, b: char): (r: string)
    ensures |r| == |s|
    ensures forall i :: 0 <= i < |s| ==> r[i] == (if s[i] == a then b else s[i])
  {
    seq(|s|, i requires 0 <= i < |s| => if s[i] == a then b else s[i])
  }

  predicate StartsWith(s: string, prefix: string)
  {
    |prefix| <= |s| && s[..|prefix|] == prefix
  }

  /** Python's `s[:n]` for n >= 0. */
  function Take(s: string, n: nat): string
  {
    if |s| <= n then s else s[..n]
  }

  /** Python's `s[-n:]` for n > 0 (the whole string when it is shorter). */
  function TakeLast(s: string, n: nat): string
  {
    if |s| <= n then s else s[|s| - n..]
  }

  predicate ContainsChar(s: string, c: char)
  {
    exists i :: 0 <= i < |s| && s[i] == c
  }

  /** Index of the first occurrence of `c` in `s`, or |s| when there is none. */
  function IndexOfChar(s: string, c: char): (k: nat)
    ensures k <= |s|
    ensures k < |s| ==> s[k] == c
    ensures forall i :: 0 <= i < k ==> s[i] != c
  {
    if |s| == 0 then 0 else if s[0] == c then 0 else 1 + IndexOfChar(s[1..], c)
  }

  // ---------------------------------------------------------------- numbers

  function DigitChar(d: nat): char
    requires d < 10
  {
    ('0' as int + d) as char
  }

  /** Decimal rendering of a natural number, as Python's `str(n)` and JavaScript's template literals do. */
  function NatToString(n: nat): (r: string)
    ensures |r| >= 1
    ensures n >= 10 ==> |r| >= 2
    ensures forall i :: 0 <= i < |r| ==> '0' <= r[i] <= '9'
  {
    if n < 10 then [DigitChar(n)] else NatToString(n / 10) + [DigitChar(n % 10)]
  }

  lemma {:induction false} NatToStringInjective(m: nat, n: nat)
    requires NatToString(m) == NatToString(n)
    ensures m == n
  {
    if m >= 10 && n >= 10 {
      var sm, sn := NatToString(m), NatToString(n);
      assert sm[..|sm| - 1] == NatToString(m / 10);
      assert sn[..|sn| - 1] == NatToString(n / 10);
      NatToStringInjective(m / 10, n / 10);
    }
  }

  // ---------------------------------------------------------------- selection

  /** Python's `min(xs, key=key)`, as an index: the first element whose key is
      least (a later element replaces the current best only when strictly smaller). */
  function ArgMin<T>(xs: seq<T>, key: T -> real): (i: nat)
    requires |xs| > 0
    ensures i < |xs|
    ensures forall j :: 0 <= j < |xs| ==> key(xs[i]) <= key(xs[j])
    ensures forall j :: 0 <= j < i ==> key(xs[j]) > key(xs[i])
  {
    if |xs| == 1 then 0
    else
      var j := 1 + ArgMin(xs[1..], key);
      if key(xs[j]) < key(xs[0]) then j else 0
  }

  // ---------------------------------------------------------------- fresh identifiers

  /** A finite set of strings always leaves some string unused: the database's
      `gen_random_uuid()` is modelled by picking such a string. */
  lemma {:induction false} FreshStringExists(used: set<string>) returns (s: string)
    ensures s !in used
    ensures forall u :: u in used ==> |u| < |s|
    decreases |used|
  {
    if used == {} {
      s := "";
    } else {
      var u :| u in used;
      var t := FreshStringExists(used - {u});
      s := if |t| > |u| then t else u + "0";
    }
  }

  /** A duplicate-free list of the elements of `s`, in no particular order
      (Python's `list(a_set)`). */
  method ListOf<T>(s: set<T>) returns (xs: seq<T>)
    ensures forall x :: x in s <==> x in xs
    ensures forall i, j :: 0 <= i < j < |xs| ==> xs[i] != xs[j]
    ensures |xs| == |s|
  {
    xs := [];
    var rest := s;
    while rest != {}
      invariant rest <= s
      invariant forall x :: x in s <==> x in xs || x in rest
      invariant forall x :: x in xs ==> x !in rest
      invariant forall i, j :: 0 <= i < j < |xs| ==> xs[i] != xs[j]
      invariant |xs| + |rest| == |s|
      decreases rest
    {
      var x :| x in rest;
      xs := xs + [x];
      rest := rest - {x};
    }
  }
}
