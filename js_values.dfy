/**
 * The slice of JavaScript's value semantics that the app's helpers rely on:
 * truthiness, String(v) (what template literals and `+` produce, and what
 * `.toString()` returns when it does not throw), `===` on strings and
 * String.prototype.trim.
 */
module JsValues {
  import opened Wrappers
  import Decimal

  /** The errors a helper can throw. */
  datatype JsError = TypeError

  /**
   * A JavaScript value as the helpers see it. Numbers are integers (NaN and
   * fractions are not modelled). An object exposes the two properties the app
   * reads, `_id` and `ejercicioId` (Undefined when absent), and `display`, the
   * text its `toString()` produces ("[object Object]" for a plain object, the
   * hexadecimal text for a MongoDB ObjectId).
   */
  datatype JsValue =
    | Undefined
    | Null
    | Bool(b: bool)
    | Num(n: int)
    | Str(s: string)
    | Obj(id: JsValue, ejercicioId: JsValue, display: string)

  /** JavaScript truthiness (`!v` is its negation). */
  predicate Truthy(v: JsValue)
  {
    match v
    case Undefined => false
    case Null => false
    case Bool(b) => b
    case Num(n) => n != 0
    case Str(s) => s != ""
    case Obj(_, _, _) => true
  }

  /** String(v): the text a template literal or string concatenation produces. */
  function JsString(v: JsValue): string
  {
    match v
    case Undefined => "undefined"
    case Null => "null"
    case Bool(b) => if b then "true" else "false"
    case Num(n) => Decimal.IntToString(n)
    case Str(s) => s
    case Obj(_, _, display) => display
  }

  /** `a === b` on strings: the same code unit at every position, and the same length. */
  predicate StrictEquals(a: string, b: string)
  {
    if a == [] || b == [] then a == [] && b == []
    else a[0] == b[0] && StrictEquals(a[1..], b[1..])
  }

  /** `===` on strings is equality of the sequences of code units. */
  lemma {:induction false} StrictEqualsIsEquality(a: string, b: string)
    ensures StrictEquals(a, b) <==> a == b
  {
    if a != [] && b != [] {
      StrictEqualsIsEquality(a[1..], b[1..]);
      if a[0] == b[0] && a[1..] == b[1..] {
        assert a == [a[0]] + a[1..] && b == [b[0]] + b[1..];
      }
    }
  }

  /** The characters String.prototype.trim removes: WhiteSpace and LineTerminator of ECMAScript. */
  predicate IsJsSpace(c: char)
  {
    c == '\t' || c == '\n' || c == '\U{000B}' || c == '\U{000C}' || c == '\r' || c == ' '
    || c == '\U{00A0}' || c == '\U{1680}' || ('\U{2000}' <= c <= '\U{200A}')
    || c == '\U{2028}' || c == '\U{2029}' || c == '\U{202F}' || c == '\U{205F}'
    || c == '\U{3000}' || c == '\U{FEFF}'
  }

  predicate AllSpace(s: string)
  {
    forall i :: 0 <= i < |s| ==> IsJsSpace(s[i])
  }

  /** Drops leading white space. */
  function TrimStart(s: string): string
  {
    if |s| > 0 && IsJsSpace(s[0]) then TrimStart(s[1..]) else s
  }

  /** Drops trailing white space. */
  function TrimEnd(s: string): string
  {
    if |s| > 0 && IsJsSpace(s[|s| - 1]) then TrimEnd(s[..|s| - 1]) else s
  }

  /** TrimStart keeps the suffix that starts at the first non-space character. */
  lemma {:induction false} TrimStartShape(s: string)
    ensures var r := TrimStart(s);
      |r| <= |s| && r == s[|s| - |r|..] && (r == [] || !IsJsSpace(r[0])) && AllSpace(s[..|s| - |r|])
  {
    if |s| > 0 && IsJsSpace(s[0]) {
      TrimStartShape(s[1..]);
      var r := TrimStart(s);
      assert s[..|s| - |r|] == [s[0]] + s[1..][..|s| - 1 - |r|];
    }
  }

  /** TrimEnd keeps the prefix that ends at the last non-space character. */
  lemma {:induction false} TrimEndShape(s: string)
    ensures var r := TrimEnd(s);
      |r| <= |s| && r == s[..|r|] && (r == [] || !IsJsSpace(r[|r| - 1])) && AllSpace(s[|r|..])
  {
    if |s| > 0 && IsJsSpace(s[|s| - 1]) {
      TrimEndShape(s[..|s| - 1]);
      var r := TrimEnd(s);
      assert s[|r|..] == s[..|s| - 1][|r|..] + [s[|s| - 1]];
    }
  }

  /** String.prototype.trim. */
  function Trim(s: string): string
  {
    TrimEnd(TrimStart(s))
  }

  /** Leading white space does not reach the result of TrimStart. */
  lemma {:induction false} TrimStartSpacePrefix(w: string, s: string)
    requires AllSpace(w)
    ensures TrimStart(w + s) == TrimStart(s)
  {
    if w != [] {
      assert (w + s)[1..] == w[1..] + s;
      TrimStartSpacePrefix(w[1..], s);
    } else {
      assert w + s == s;
    }
  }

  /** Trailing white space does not reach the result of TrimEnd. */
  lemma {:induction false} TrimEndSpaceSuffix(s: string, w: string)
    requires AllSpace(w)
    ensures TrimEnd(s + w) == TrimEnd(s)
  {
    if w != [] {
      var w' := w[..|w| - 1];
      assert (s + w)[..|s + w| - 1] == s + w';
      TrimEndSpaceSuffix(s, w');
    } else {
      assert s + w == s;
    }
  }

  /** TrimStart of a concatenation, split on whether the first part is blank. */
  lemma {:induction false} TrimStartAppend(s: string, w: string)
    ensures AllSpace(s) ==> TrimStart(s + w) == TrimStart(w)
    ensures !AllSpace(s) ==> TrimStart(s + w) == TrimStart(s) + w
  {
    if s == [] {
      assert s + w == w;
    } else if IsJsSpace(s[0]) {
      assert (s + w)[1..] == s[1..] + w;
      TrimStartAppend(s[1..], w);
      if AllSpace(s[1..]) {
        assert AllSpace(s);
      } else {
        assert !AllSpace(s) by {
          var i :| 0 <= i < |s[1..]| && !IsJsSpace(s[1..][i]);
          assert s[i + 1] == s[1..][i];
        }
      }
    } else {
      assert !AllSpace(s) by { assert !IsJsSpace(s[0]); }
    }
  }

  /** trim() ignores white space added on either side of a string. */
  lemma TrimPadded(w1: string, s: string, w2: string)
    requires AllSpace(w1) && AllSpace(w2)
    ensures Trim(w1 + s + w2) == Trim(s)
  {
    assert w1 + s + w2 == w1 + (s + w2);
    TrimStartSpacePrefix(w1, s + w2);
    TrimStartAppend(s, w2);
    if AllSpace(s) {
      TrimStartAppend(s, []);
      assert s + [] == s;
      assert TrimStart(s) == [];
      assert TrimStart(w2) == [] by { TrimStartAppend(w2, []); assert w2 + [] == w2; }
    } else {
      TrimEndSpaceSuffix(TrimStart(s), w2);
    }
  }

  /** A string that neither starts nor ends with white space is its own trim. */
  lemma TrimUnpadded(s: string)
    requires s != [] && !IsJsSpace(s[0]) && !IsJsSpace(s[|s| - 1])
    ensures Trim(s) == s
  {
  }

  /** trim() is idempotent. */
  lemma TrimIdempotent(s: string)
    ensures Trim(Trim(s)) == Trim(s)
  {
    var t := TrimStart(s);
    var r := TrimEnd(t);
    TrimStartShape(s);
    TrimEndShape(t);
    if r != [] {
      assert r[0] == t[0];
      TrimUnpadded(r);
    }
  }
}
