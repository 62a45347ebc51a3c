/** JSON Pointer evaluation and in-place assignment, as serde_json's
    `Value::pointer` and `Value::pointer_mut` implement section 4 of RFC 6901:
    the text after the leading '/' is split at '/', each reference token has
    `~1` turned into '/' and then `~0` into '~', an object is indexed by the
    token as a key and an array by the token read as a canonical decimal index. */
module Pointer {
  import opened Wrappers
  import opened Json
  import opened Text

  /** Indices are `usize`; a larger numeral does not parse. */
  const USIZE_LIMIT: nat := 0x1_0000_0000_0000_0000

  /** One reference token with its escapes undone (`~1` first, then `~0`). */
  function UnescapeToken(t: string): string
  {
    ReplaceAll(ReplaceAll(t, "~1", "/"), "~0", "~")
  }

  function UnescapeTokens(parts: seq<string>): (ts: seq<string>)
    ensures |ts| == |parts|
  {
    if parts == [] then [] else [UnescapeToken(parts[0])] + UnescapeTokens(parts[1..])
  }

  /** The reference tokens of a non-empty pointer: `split('/').skip(1)`, unescaped. */
  function Tokens(ptr: string): seq<string>
    requires |ptr| > 0
  {
    UnescapeTokens(Split(ptr, '/')[1..])
  }

  /** serde_json's `parse_index`: no '+' sign, no leading zero, decimal digits only, fits `usize`. */
  function ParseIndex(t: string): Option<nat>
  {
    if |t| == 0 || t[0] == '+' || (t[0] == '0' && |t| != 1) || !AllDigits(t) then None
    else if DigitsValue(t) < USIZE_LIMIT then Some(DigitsValue(t))
    else None
  }

  /** The value reached by following `toks` from `v`, if every step exists. */
  function Resolve(v: Value, toks: seq<string>): Option<Value>
    decreases |toks|
  {
    if toks == [] then Some(v)
    else match v
      case Object(m) => if toks[0] in m then Resolve(m[toks[0]], toks[1..]) else None
      case Array(a) =>
        (match ParseIndex(toks[0])
          case Some(i) => if i < |a| then Resolve(a[i], toks[1..]) else None
          case None => None)
      case _ => None
  }

  /** `Value::pointer`: "" is the whole document; a pointer not starting with '/' resolves nowhere. */
  function Get(v: Value, ptr: string): Option<Value>
  {
    if ptr == [] then Some(v)
    else if ptr[0] != '/' then None
    else Resolve(v, Tokens(ptr))
  }

  /** `v` with the location `toks` replaced by `x`; `v` itself when that location does not exist. */
  function SetAt(v: Value, toks: seq<string>, x: Value): Value
    decreases |toks|
  {
    if toks == [] then x
    else match v
      case Object(m) =>
        if toks[0] in m then Object(m[toks[0] := SetAt(m[toks[0]], toks[1..], x)]) else v
      case Array(a) =>
        (match ParseIndex(toks[0])
          case Some(i) => if i < |a| then Array(a[i := SetAt(a[i], toks[1..], x)]) else v
          case None => v)
      case _ => v
  }

  /** `if let Some(slot) = v.pointer_mut(ptr) { *slot = f(slot.clone()) }`. */
  function Rewrite(v: Value, ptr: string, f: Value -> Value): Value
  {
    match Get(v, ptr)
    case None => v
    case Some(cur) =>
      if ptr == [] then f(cur) else SetAt(v, Tokens(ptr), f(cur))
  }

  // ---------------------------------------------------------------------
  // array indices

  /** An index token is exactly the numeral of the index it denotes. */
  lemma ParseIndexCanonical(t: string, n: nat)
    requires ParseIndex(t) == Some(n)
    ensures t == Decimal(n)
  {
    ValueDecimal(t);
  }

  /** Distinct tokens never denote the same array element. */
  lemma ParseIndexInjective(t: string, u: string)
    requires ParseIndex(t).Some? && ParseIndex(t) == ParseIndex(u)
    ensures t == u
  {
    ParseIndexCanonical(t, ParseIndex(t).value);
    ParseIndexCanonical(u, ParseIndex(u).value);
  }

  /** Every index `usize` holds is addressed by its numeral. */
  lemma ParseIndexDecimal(n: nat)
    requires n < USIZE_LIMIT
    ensures ParseIndex(Decimal(n)) == Some(n)
  {
    DecimalValue(n);
  }

  // ---------------------------------------------------------------------
  // assignment through a pointer

  predicate IsPrefix(p: seq<string>, q: seq<string>)
  {
    |p| <= |q| && q[..|p|] == p
  }

  /** Two locations of which one lies on the path to the other. */
  predicate Related(p: seq<string>, q: seq<string>)
  {
    IsPrefix(p, q) || IsPrefix(q, p)
  }

  /** Two locations that share a first token are related when what follows it is. */
  lemma RelatedTails(p: seq<string>, q: seq<string>)
    requires p != [] && q != [] && p[0] == q[0]
    ensures Related(p[1..], q[1..]) ==> Related(p, q)
  {
    if IsPrefix(p[1..], q[1..]) {
      assert q[..|p|] == [q[0]] + q[1..][..|p| - 1];
      assert p == [p[0]] + p[1..];
    } else if IsPrefix(q[1..], p[1..]) {
      assert p[..|q|] == [p[0]] + p[1..][..|q| - 1];
      assert q == [q[0]] + q[1..];
    }
  }

  /** Assigning at a location that does not exist leaves the document unchanged. */
  lemma {:induction false} SetAtUnresolved(v: Value, toks: seq<string>, x: Value)
    requires Resolve(v, toks).None?
    ensures SetAt(v, toks, x) == v
    decreases |toks|
  {
    match v
    case Object(m) =>
      if toks[0] in m { SetAtUnresolved(m[toks[0]], toks[1..], x); }
    case Array(a) =>
      if ParseIndex(toks[0]).Some? && ParseIndex(toks[0]).value < |a| {
        SetAtUnresolved(a[ParseIndex(toks[0]).value], toks[1..], x);
      }
    case _ =>
  }

  /** After assigning at an existing location, that location holds the new value. */
  lemma {:induction false} SetAtResolved(v: Value, toks: seq<string>, x: Value)
    requires Resolve(v, toks).Some?
    ensures Resolve(SetAt(v, toks, x), toks) == Some(x)
    decreases |toks|
  {
    if toks != [] {
      match v
      case Object(m) => SetAtResolved(m[toks[0]], toks[1..], x);
      case Array(a) => SetAtResolved(a[ParseIndex(toks[0]).value], toks[1..], x);
    }
  }

  /** Assigning a location the value it already holds changes nothing. */
  lemma {:induction false} SetAtSame(v: Value, toks: seq<string>)
    requires Resolve(v, toks).Some?
    ensures SetAt(v, toks, Resolve(v, toks).value) == v
    decreases |toks|
  {
    if toks != [] {
      match v
      case Object(m) =>
        SetAtSame(m[toks[0]], toks[1..]);
        assert m[toks[0] := m[toks[0]]] == m;
      case Array(a) =>
        var i := ParseIndex(toks[0]).value;
        SetAtSame(a[i], toks[1..]);
        assert a[i := a[i]] == a;
    }
  }

  /** Assigning at `p` leaves every location off the path through `p` as it was. */
  lemma {:induction false} SetAtElsewhere(v: Value, p: seq<string>, q: seq<string>, x: Value)
    requires !Related(p, q)
    ensures Resolve(SetAt(v, p, x), q) == Resolve(v, q)
    decreases |p|
  {
    assert p != [] && q != [] by { assert IsPrefix([], q) && IsPrefix([], p); }
    match v
    case Object(m) =>
      if p[0] in m && p[0] == q[0] {
        RelatedTails(p, q);
        SetAtElsewhere(m[p[0]], p[1..], q[1..], x);
      }
    case Array(a) =>
      if ParseIndex(p[0]).Some? && ParseIndex(p[0]).value < |a| && ParseIndex(q[0]) == ParseIndex(p[0]) {
        ParseIndexInjective(p[0], q[0]);
        RelatedTails(p, q);
        SetAtElsewhere(a[ParseIndex(p[0]).value], p[1..], q[1..], x);
      }
    case _ =>
  }

  /** A second assignment at the same location overrides the first. */
  lemma {:induction false} SetAtTwice(v: Value, toks: seq<string>, x: Value, y: Value)
    requires Resolve(v, toks).Some?
    ensures SetAt(SetAt(v, toks, x), toks, y) == SetAt(v, toks, y)
    decreases |toks|
  {
    if toks != [] {
      match v
      case Object(m) =>
        SetAtTwice(m[toks[0]], toks[1..], x, y);
        assert m[toks[0] := SetAt(m[toks[0]], toks[1..], x)][toks[0] := SetAt(m[toks[0]], toks[1..], y)]
            == m[toks[0] := SetAt(m[toks[0]], toks[1..], y)];
      case Array(a) =>
        var i := ParseIndex(toks[0]).value;
        SetAtTwice(a[i], toks[1..], x, y);
        assert a[i := SetAt(a[i], toks[1..], x)][i := SetAt(a[i], toks[1..], y)] == a[i := SetAt(a[i], toks[1..], y)];
    }
  }

  // ---------------------------------------------------------------------
  // rewriting through a pointer

  /** A pointer that does not resolve is skipped: the document is unchanged. */
  lemma RewriteUnresolved(v: Value, ptr: string, f: Value -> Value)
    requires Get(v, ptr).None?
    ensures Rewrite(v, ptr, f) == v
  {
  }

  /** A pointer that resolves to `x` afterwards resolves to `f(x)`. */
  lemma RewriteResolved(v: Value, ptr: string, f: Value -> Value)
    requires Get(v, ptr).Some?
    ensures Get(Rewrite(v, ptr, f), ptr) == Some(f(Get(v, ptr).value))
  {
    if ptr != [] { SetAtResolved(v, Tokens(ptr), f(Get(v, ptr).value)); }
  }

  /** Rewriting through a pointer leaves every location off its path untouched. */
  lemma RewriteElsewhere(v: Value, ptr: string, f: Value -> Value, q: seq<string>)
    requires |ptr| > 0 && ptr[0] == '/' && !Related(Tokens(ptr), q)
    ensures Resolve(Rewrite(v, ptr, f), q) == Resolve(v, q)
  {
    if Get(v, ptr).Some? { SetAtElsewhere(v, Tokens(ptr), q, f(Get(v, ptr).value)); }
  }

  /** Rewriting twice at a location whose value `g` restores after `f` gives the document back. */
  lemma RewriteInverse(v: Value, ptr: string, f: Value -> Value, g: Value -> Value)
    requires Get(v, ptr).Some? && g(f(Get(v, ptr).value)) == Get(v, ptr).value
    ensures Rewrite(Rewrite(v, ptr, f), ptr, g) == v
  {
    var x := Get(v, ptr).value;
    RewriteResolved(v, ptr, f);
    if ptr != [] {
      SetAtTwice(v, Tokens(ptr), f(x), x);
      SetAtSame(v, Tokens(ptr));
    }
  }

  /** Rewriting twice with a function that is idempotent at the location is rewriting once. */
  lemma RewriteIdempotent(v: Value, ptr: string, f: Value -> Value)
    requires Get(v, ptr).Some? && f(f(Get(v, ptr).value)) == f(Get(v, ptr).value)
    ensures Rewrite(Rewrite(v, ptr, f), ptr, f) == Rewrite(v, ptr, f)
  {
    var x := Get(v, ptr).value;
    RewriteResolved(v, ptr, f);
    if ptr != [] {
      SetAtTwice(v, Tokens(ptr), f(x), f(f(x)));
    }
  }
}
