/**
 * `ObjectExtension`: the lenient conversion of any value to a `long`
 * (`ObjToLong`), together with the decimal text form of a `long` it inverts,
 * and the reflection test `HasImplementedRawGeneric`.
 */
module ObjectExtension {
  import opened Common
  import opened Text

  // ---------------------------------------------------------------------------
  // Decimal digits
  // ---------------------------------------------------------------------------

  predicate IsDigit(c: char) {
    '0' <= c <= '9'
  }

  predicate AllDigits(s: string) {
    forall i | 0 <= i < |s| :: IsDigit(s[i])
  }

  function DigitValue(c: char): nat
    requires IsDigit(c)
  {
    (c as int) - ('0' as int)
  }

  function DigitChar(d: nat): (c: char)
    requires d < 10
    ensures IsDigit(c) && DigitValue(c) == d
  {
    (('0' as int) + d) as char
  }

  /** The number a string of decimal digits denotes, most significant digit first. */
  function DigitsValue(s: string): nat
    requires AllDigits(s)
    decreases |s|
  {
    if |s| == 0 then 0 else DigitsValue(s[..|s| - 1]) * 10 + DigitValue(s[|s| - 1])
  }

  /** The shortest decimal digit string of `n`: no leading zero, and it denotes `n`. */
  function NatToDigits(n: nat): (s: string)
    ensures |s| > 0 && AllDigits(s)
    ensures s[0] != '0' || n == 0
    ensures DigitsValue(s) == n
    decreases n
  {
    if n < 10 then [DigitChar(n)]
    else
      var prefix := NatToDigits(n / 10);
      var s := prefix + [DigitChar(n % 10)];
      assert s[..|s| - 1] == prefix;
      s
  }

  // ---------------------------------------------------------------------------
  // long.ToString() and long.TryParse(string)
  // ---------------------------------------------------------------------------

  /** `n.ToString()` for a `long`: an optional minus sign and the shortest digit string. */
  function FormatInt64(n: int64): (s: string)
    ensures |s| > 0 && (s[0] == '-' || IsDigit(s[0])) && IsDigit(s[|s| - 1])
  {
    if n < 0 then "-" + NatToDigits(-(n as int)) else NatToDigits(n)
  }

  /**
   * `long.TryParse(s, out v)` with the default integer style: white space
   * around the number, an optional `+` or `-`, then one or more decimal
   * digits whose value fits in a `long`. `None` stands for a `false` return.
   */
  function ParseInt64(s: string): (r: Option<int64>)
    ensures r.Some? ==> HasDigit(s) && NumberCharsOnly(s)
  {
    var r := ParseSignedDigits(TrimBy(s, IsNumberWhite));
    if r.None? then r else ParsedCharacters(s, TrimBy(s, IsNumberWhite)); r
  }

  /** A character `long.TryParse` accepts somewhere in its input. */
  predicate IsNumberChar(c: char) {
    IsNumberWhite(c) || IsDigit(c) || c == '-' || c == '+'
  }

  predicate HasDigit(s: string) {
    exists i | 0 <= i < |s| :: IsDigit(s[i])
  }

  predicate NumberCharsOnly(s: string) {
    forall i | 0 <= i < |s| :: IsNumberChar(s[i])
  }

  /** Text that parses has a digit and nothing but white space, signs and digits. */
  lemma ParsedCharacters(s: string, t: string)
    requires t == TrimBy(s, IsNumberWhite) && |t| > 0 && IsDigit(t[|t| - 1])
    requires forall i | 0 <= i < |t| :: IsNumberChar(t[i])
    ensures HasDigit(s) && NumberCharsOnly(s)
  {
    var e := TrimEnd(s, IsNumberWhite);
    var a := |e| - |t|;
    assert t == s[a..|e|];
    assert s[|e| - 1] == t[|t| - 1];
    forall i | 0 <= i < |s|
      ensures IsNumberChar(s[i])
    {
      if i >= |e| {
        assert IsNumberWhite(s[i]);
      } else if i < a {
        TrimmedPrefixIsWhite(s, i);
      } else {
        assert s[i] == t[i - a];
      }
    }
  }

  /** What `TrimBy` drops in front of the kept text is white space. */
  lemma TrimmedPrefixIsWhite(s: string, i: nat)
    requires i < |TrimEnd(s, IsNumberWhite)| - |TrimBy(s, IsNumberWhite)|
    ensures IsNumberWhite(s[i])
  {
    var e := TrimEnd(s, IsNumberWhite);
    var t := TrimStart(e, IsNumberWhite);
    assert IsNumberWhite(e[i]);
    assert e == s[..|e|];
  }

  /** The number between the white space: an optional sign and one or more digits, in range. */
  function ParseSignedDigits(t: string): (r: Option<int64>)
    ensures r.Some? ==> |t| > 0 && IsDigit(t[|t| - 1])
    ensures r.Some? ==> forall i | 0 <= i < |t| :: IsDigit(t[i]) || (i == 0 && (t[0] == '-' || t[0] == '+'))
  {
    if |t| == 0 then None
    else
      var digits := if t[0] == '-' || t[0] == '+' then t[1..] else t;
      if |digits| == 0 || !AllDigits(digits) then None
      else
        var magnitude: int := DigitsValue(digits);
        var v := if t[0] == '-' then -magnitude else magnitude;
        if Int64Min <= v <= Int64Max then Some(v) else None
  }

  /** Text that starts and ends with a sign or digit is left alone by the white-space trimming of parsing. */
  lemma TrimNumberTight(s: string)
    requires |s| > 0
    requires s[0] == '-' || s[0] == '+' || IsDigit(s[0])
    requires IsDigit(s[|s| - 1])
    ensures TrimBy(s, IsNumberWhite) == s
  {
    assert !IsNumberWhite(s[|s| - 1]);
    assert TrimEnd(s, IsNumberWhite) == s;
    assert !IsNumberWhite(s[0]);
    assert TrimStart(s, IsNumberWhite) == s;
  }

  /** Parsing the text form of a `long` gives that `long` back. */
  lemma ParseFormatRoundTrip(n: int64)
    ensures ParseInt64(FormatInt64(n)) == Some(n)
  {
    var s := FormatInt64(n);
    TrimNumberTight(s);
    if n < 0 {
      var d := NatToDigits(-(n as int));
      assert s[0] == '-' && s[1..] == d;
      assert DigitsValue(d) == -(n as int);
    } else {
      assert s[0] != '-' && s[0] != '+';
    }
    assert ParseSignedDigits(s) == Some(n);
  }

  /** Digit strings whose value lies beyond the range of a `long` do not parse, with or without a minus sign. */
  lemma ParseOutOfRange(s: string)
    requires |s| > 0 && AllDigits(s) && DigitsValue(s) > Int64Max
    ensures ParseInt64(s) == None
    ensures DigitsValue(s) > -Int64Min ==> ParseInt64("-" + s) == None
  {
    TrimNumberTight(s);
    var m := "-" + s;
    TrimNumberTight(m);
    assert m[1..] == s;
  }

  /** White space around a number does not change what it parses to. */
  lemma ParseIgnoresNumberWhite(pad: string, s: string)
    requires forall i | 0 <= i < |pad| :: IsNumberWhite(pad[i])
    requires |s| > 0 && !IsNumberWhite(s[0]) && !IsNumberWhite(s[|s| - 1])
    ensures ParseInt64(pad + s + pad) == ParseInt64(s)
  {
    var p := pad + s + pad;
    var e := TrimEnd(p, IsNumberWhite);
    assert p[..|pad| + |s|] == pad + s;
    TrimEndPast(p, pad + s, IsNumberWhite);
    assert e == pad + s;
    TrimStartPast(pad + s, s, IsNumberWhite);
    assert TrimEnd(s, IsNumberWhite) == s;
    assert TrimStart(s, IsNumberWhite) == s;
  }

  /** TrimEnd removes exactly a trailing run of white characters before a non-white one. */
  lemma TrimEndPast(p: string, keep: string, white: char -> bool)
    requires |keep| > 0 && |keep| <= |p| && p[..|keep|] == keep && !white(keep[|keep| - 1])
    requires forall i | |keep| <= i < |p| :: white(p[i])
    ensures TrimEnd(p, white) == keep
  {
  }

  /** TrimStart removes exactly a leading run of white characters before a non-white one. */
  lemma TrimStartPast(p: string, keep: string, white: char -> bool)
    requires |keep| > 0 && |keep| <= |p| && p[|p| - |keep|..] == keep && !white(keep[0])
    requires forall i | 0 <= i < |p| - |keep| :: white(p[i])
    ensures TrimStart(p, white) == keep
  {
  }

  // ---------------------------------------------------------------------------
  // ObjToLong
  // ---------------------------------------------------------------------------

  /** A value handed to `ObjToLong`: `null`, `DBNull.Value`, or any other object, seen through its `ToString()` text. */
  datatype Obj = Null | DbNull | Boxed(text: string)

  /**
   * `ObjToLong`: the value's text parsed as a `long`, or 0 when the value is
   * `null` or `DBNull`, or its text is not a `long`.
   */
  function ObjToLong(o: Obj): (r: int64)
    ensures r != 0 ==> o.Boxed? && ParseInt64(o.text) == Some(r)
    ensures o.Boxed? && ParseInt64(o.text).Some? ==> r == ParseInt64(o.text).value
  {
    match o
    case Boxed(text) => ParseInt64(text).GetOr(0)
    case _ => 0
  }

  /** Converting the text form of any `long` gives that `long` back. */
  lemma ObjToLongRoundTrip(n: int64)
    ensures ObjToLong(Boxed(FormatInt64(n))) == n
  {
    ParseFormatRoundTrip(n);
  }

  /** `null`, `DBNull`, blank text and out-of-range digit strings all convert to 0. */
  lemma ObjToLongDefaults(blank: string, big: string)
    requires forall i | 0 <= i < |blank| :: IsNumberWhite(blank[i])
    requires |big| > 0 && AllDigits(big) && DigitsValue(big) > Int64Max
    ensures ObjToLong(Null) == 0 && ObjToLong(DbNull) == 0
    ensures ObjToLong(Boxed(blank)) == 0
    ensures ObjToLong(Boxed(big)) == 0
  {
    assert |TrimBy(blank, IsNumberWhite)| == 0;
    ParseOutOfRange(big);
  }

  // ---------------------------------------------------------------------------
  // HasImplementedRawGeneric
  // ---------------------------------------------------------------------------

  /**
   * A type as reflection describes it. Types are numbered, and a base type
   * always has a smaller number than the types deriving from it, so every
   * walk up the base-type chain ends.
   * `genericDefinition` is `Some(d)` exactly when the type is generic, `d`
   * being its generic type definition; `interfaces` is everything
   * `GetInterfaces()` reports; `baseType` is `None` for `object` and for
   * interfaces.
   */
  datatype ClrType = ClrType(genericDefinition: Option<nat>, interfaces: seq<nat>, baseType: Option<nat>)

  type Hierarchy = seq<ClrType>

  /** Number of `System.Object`. */
  const ObjectType: nat := 0

  predicate Refers(t: ClrType, n: nat) {
    && (t.genericDefinition.Some? ==> t.genericDefinition.value < n)
    && (forall i | 0 <= i < |t.interfaces| :: t.interfaces[i] < n)
    && (t.baseType.Some? ==> t.baseType.value < n)
  }

  /** A closed, acyclic type hierarchy rooted at `object`. */
  predicate WellFormed(h: Hierarchy) {
    && |h| > ObjectType
    && h[ObjectType].baseType.None?
    && forall t | 0 <= t < |h| :: Refers(h[t], |h|) && (h[t].baseType.Some? ==> h[t].baseType.value < t)
  }

  /** The local test of the source: `generic` is the type itself, or its generic definition when the type is generic. */
  predicate IsTheRawGenericType(h: Hierarchy, t: nat, generic: nat)
    requires t < |h|
  {
    generic == (if h[t].genericDefinition.Some? then h[t].genericDefinition.value else t)
  }

  /** The types the base-type walk visits from `t`: `t`, its base, and so on, stopping before `object` or a missing base. */
  function Lineage(h: Hierarchy, t: nat): (r: seq<nat>)
    requires WellFormed(h) && t < |h|
    ensures forall k | 0 <= k < |r| :: r[k] < |h| && r[k] != ObjectType
    decreases t
  {
    if t == ObjectType then []
    else match h[t].baseType
      case None => [t]
      case Some(b) => [t] + Lineage(h, b)
  }

  /** The walk from an optional current type, as the loop sees it. */
  function LineageFrom(h: Hierarchy, cur: Option<nat>): seq<nat>
    requires WellFormed(h) && (cur.Some? ==> cur.value < |h|)
  {
    if cur.None? then [] else Lineage(h, cur.value)
  }

  /** Some type of `ts` is `generic` in raw form. */
  predicate AnyRaw(h: Hierarchy, ts: seq<nat>, generic: nat)
    requires forall k | 0 <= k < |ts| :: ts[k] < |h|
  {
    exists k | 0 <= k < |ts| :: IsTheRawGenericType(h, ts[k], generic)
  }

  /** What `HasImplementedRawGeneric` promises: some interface or some type on the walk is `generic` in raw form. */
  predicate ImplementsRawGeneric(h: Hierarchy, t: nat, generic: nat)
    requires WellFormed(h) && t < |h|
  {
    AnyRaw(h, h[t].interfaces, generic) || AnyRaw(h, Lineage(h, t), generic)
  }

  /** The first loop of the source: whether some type of `ts` is `generic` in raw form. */
  method FindRawAmong(h: Hierarchy, ts: seq<nat>, generic: nat) returns (r: bool)
    requires forall k | 0 <= k < |ts| :: ts[k] < |h|
    ensures r <==> AnyRaw(h, ts, generic)
  {
    var i := 0;
    while i < |ts|
      invariant 0 <= i <= |ts|
      invariant forall j | 0 <= j < i :: !IsTheRawGenericType(h, ts[j], generic)
    {
      if IsTheRawGenericType(h, ts[i], generic) {
        return true;
      }
      i := i + 1;
    }
    r := false;
  }

  /** One step of the walk: `t` followed by the walk from its base. */
  lemma LineageStep(h: Hierarchy, t: nat)
    requires WellFormed(h) && t < |h| && t != ObjectType
    ensures Lineage(h, t) == [t] + LineageFrom(h, h[t].baseType)
  {
  }

  /** The second loop of the source: the walk up the base types from `t`, stopping at `object`. */
  method FindRawOnLineage(h: Hierarchy, t: nat, generic: nat) returns (r: bool)
    requires WellFormed(h) && t < |h|
    ensures r <==> AnyRaw(h, Lineage(h, t), generic)
  {
    ghost var walk := Lineage(h, t);
    var cur: Option<nat> := Some(t);
    ghost var n := 0;
    while cur.Some? && cur.value != ObjectType
      invariant cur.Some? ==> cur.value < |h|
      invariant n <= |walk| && LineageFrom(h, cur) == walk[n..]
      invariant forall k | 0 <= k < n :: !IsTheRawGenericType(h, walk[k], generic)
      decreases if cur.Some? then cur.value + 1 else 0
    {
      var c := cur.value;
      LineageStep(h, c);
      assert walk[n] == c && walk[n + 1..] == LineageFrom(h, h[c].baseType);
      if IsTheRawGenericType(h, c, generic) {
        return true;
      }
      n := n + 1;
      cur := h[c].baseType;
    }
    assert n == |walk|;
    r := false;
  }

  /** `type.HasImplementedRawGeneric(generic)`: the interfaces first, then the base-type walk. */
  method HasImplementedRawGeneric(h: Hierarchy, t: nat, generic: nat) returns (r: bool)
    requires WellFormed(h) && t < |h|
    ensures r <==> ImplementsRawGeneric(h, t, generic)
  {
    assert Refers(h[t], |h|);
    r := FindRawAmong(h, h[t].interfaces, generic);
    if !r {
      r := FindRawOnLineage(h, t, generic);
    }
  }

  /** A raw generic found on the base class's walk is found on the derived type's walk too. */
  lemma {:induction false} BaseClassMatchInherited(h: Hierarchy, t: nat, generic: nat)
    requires WellFormed(h) && t < |h| && t != ObjectType && h[t].baseType.Some?
    requires AnyRaw(h, Lineage(h, h[t].baseType.value), generic)
    ensures ImplementsRawGeneric(h, t, generic)
  {
    var b := h[t].baseType.value;
    var k :| 0 <= k < |Lineage(h, b)| && IsTheRawGenericType(h, Lineage(h, b)[k], generic);
    assert Lineage(h, t)[k + 1] == Lineage(h, b)[k];
  }
}
