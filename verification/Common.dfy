/** Datatypes and text helpers shared by the other modules. */
module Common {

  datatype Option<+T> = None | Some(value: T)

  datatype Result<+T, +E> = Ok(value: T) | Err(error: E)

  /** A JavaScript value as `Object.is` sees it: a primitive is its own identity, an object or
      array is identified by where it lives, whatever it holds. */
  datatype Value = Primitive(code: int) | Reference(address: nat)

  function Max(a: int, b: int): int { if a < b then b else a }

  function Min(a: int, b: int): int { if a < b then a else b }

  /** The characters `String.prototype.trim` removes: WhiteSpace and LineTerminator. */
  predicate IsJsSpace(c: char) {
    || '\t' <= c <= '\r'
    || c == ' '
    || c == '\U{A0}'
    || c == '\U{1680}'
    || '\U{2000}' <= c <= '\U{200A}'
    || c == '\U{2028}' || c == '\U{2029}' || c == '\U{202F}' || c == '\U{205F}'
    || c == '\U{3000}' || c == '\U{FEFF}'
  }

  function TrimStart(s: string): string {
    if s != [] && IsJsSpace(s[0]) then TrimStart(s[1..]) else s
  }

  function TrimEnd(s: string): string {
    if s != [] && IsJsSpace(s[|s| - 1]) then TrimEnd(s[..|s| - 1]) else s
  }

  function Trim(s: string): string { TrimEnd(TrimStart(s)) }

  /** No surrounding white space to remove. */
  predicate Tight(s: string) {
    s == [] || (!IsJsSpace(s[0]) && !IsJsSpace(s[|s| - 1]))
  }

  predicate Trimmed(s: string) { Trim(s) == s }

  lemma {:induction false} TrimEndShape(s: string)
    ensures TrimEnd(s) <= s
    ensures TrimEnd(s) == [] || !IsJsSpace(TrimEnd(s)[|TrimEnd(s)| - 1])
    ensures s == [] || !IsJsSpace(s[|s| - 1]) ==> TrimEnd(s) == s
    decreases |s|
  {
    if s != [] && IsJsSpace(s[|s| - 1]) { TrimEndShape(s[..|s| - 1]); }
  }

  lemma {:induction false} TrimStartShape(s: string)
    ensures TrimStart(s) == [] || !IsJsSpace(TrimStart(s)[0])
    ensures s == [] || !IsJsSpace(s[0]) ==> TrimStart(s) == s
    ensures |TrimStart(s)| <= |s|
    decreases |s|
  {
    if s != [] && IsJsSpace(s[0]) { TrimStartShape(s[1..]); }
  }

  /** Trimming removes all surrounding white space, and nothing from a string without any. */
  lemma TrimShape(s: string)
    ensures Tight(Trim(s))
    ensures Trim(s) == s <==> Tight(s)
    ensures Trim(Trim(s)) == Trim(s)
  {
    TrimStartShape(s);
    TrimEndShape(TrimStart(s));
    var t := Trim(s);
    assert t <= TrimStart(s);
    if t != [] { assert t[0] == TrimStart(s)[0]; }
    TrimStartShape(t);
    TrimEndShape(t);
  }

  /** Nothing but white space. */
  predicate Blank(s: string) { forall c :: c in s ==> IsJsSpace(c) }

  lemma {:induction false} TrimStartOfBlank(s: string)
    ensures Blank(s) <==> TrimStart(s) == ""
    decreases |s|
  {
    if s != "" {
      assert s == [s[0]] + s[1..];
      TrimStartOfBlank(s[1..]);
    }
  }

  lemma {:induction false} TrimEndOfBlank(s: string)
    ensures Blank(s) <==> TrimEnd(s) == ""
    decreases |s|
  {
    if s != "" {
      assert s == s[..|s| - 1] + [s[|s| - 1]];
      TrimEndOfBlank(s[..|s| - 1]);
    }
  }

  /** `s.trim() === ""` says that `s` is blank. */
  lemma TrimOfBlank(s: string)
    ensures Trim(s) == "" <==> Blank(s)
  {
    TrimStartOfBlank(s);
    TrimEndOfBlank(TrimStart(s));
    TrimStartShape(s);
    var t := TrimStart(s);
    assert t != "" ==> t[0] in t;
  }

  lemma {:induction false} TrimStartCuts(a: string, x: string)
    requires Blank(a) && (x == "" || !IsJsSpace(x[0]))
    ensures TrimStart(a + x) == x
    decreases |a|
  {
    if a == "" {
      assert a + x == x;
    } else {
      assert a[0] in a && (a + x)[1..] == a[1..] + x;
      TrimStartCuts(a[1..], x);
    }
  }

  lemma {:induction false} TrimEndCuts(x: string, b: string)
    requires Blank(b) && (x == "" || !IsJsSpace(x[|x| - 1]))
    ensures TrimEnd(x + b) == x
    decreases |b|
  {
    if b == "" {
      assert x + b == x;
    } else {
      assert b[|b| - 1] in b && (x + b)[..|x + b| - 1] == x + b[..|b| - 1];
      TrimEndCuts(x, b[..|b| - 1]);
    }
  }

  /** Trimming cuts off exactly the white space around a text. */
  lemma TrimCuts(a: string, x: string, b: string)
    requires Blank(a) && Blank(b) && Tight(x)
    ensures Trim(a + x + b) == x
  {
    if x == "" {
      assert a + x + b == a + b;
      TrimOfBlank(a + b);
    } else {
      assert a + x + b == a + (x + b) && (x + b)[0] == x[0];
      TrimStartCuts(a, x + b);
      TrimEndCuts(x, b);
    }
  }

  /** What is cut off: ECMAScript WhiteSpace and LineTerminator, sections 12.2 and 12.3 of ECMA-262. */
  lemma WhiteSpaceIs(c: char)
    ensures IsJsSpace(c) <==>
              var n := c as int;
              || 0x9 <= n <= 0xD || 0x2000 <= n <= 0x200A
              || n in {0x20, 0xA0, 0x1680, 0x2028, 0x2029, 0x202F, 0x205F, 0x3000, 0xFEFF}
  {
  }
}
