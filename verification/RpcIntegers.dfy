/** Integers on the Fiber RPC wire: hexadecimal quantities out, hexadecimal or decimal text in
    (src/integrations/fiber/real-fiber-client.ts:82-151). */
module RpcIntegers {
  import opened Basics
  import opened JsText

  /** A value of an RPC response, as far as integer fields tell values apart. */
  datatype RpcValue = BigInt(n: int) | Whole(n: int) | Fraction | Str(s: string) | Other

  type Base = b: int | b == 10 || b == 16 witness 10

  function DigitValue(c: char): int {
    if '0' <= c <= '9' then c as int - '0' as int
    else if 'a' <= c <= 'f' then c as int - 'a' as int + 10
    else if 'A' <= c <= 'F' then c as int - 'A' as int + 10
    else -1
  }

  predicate IsDigit(c: char, b: Base) {
    0 <= DigitValue(c) < b
  }

  predicate IsDigits(s: string, b: Base) {
    s != "" && forall i | 0 <= i < |s| :: IsDigit(s[i], b)
  }

  function ValueOf(s: string, b: Base): nat
    requires forall i | 0 <= i < |s| :: IsDigit(s[i], b)
  {
    if s == "" then 0
    else
      assert IsDigit(s[|s| - 1], b);
      (if b == 16 then 16 * ValueOf(s[..|s| - 1], b) else 10 * ValueOf(s[..|s| - 1], b)) + DigitValue(s[|s| - 1])
  }

  function DigitChar(d: int): (c: char)
    requires 0 <= d < 16
    ensures DigitValue(c) == d && LowerChar(c) == c
  {
    if d < 10 then ('0' as int + d) as char else ('a' as int + d - 10) as char
  }

  /** `toString(radix)` of a non-negative integer. */
  function Print(n: nat, b: Base): (s: string)
    ensures IsDigits(s, b)
    ensures ValueOf(s, b) == n
    decreases n
  {
    if n < b then [DigitChar(n)]
    else
      var q := if b == 16 then n / 16 else n / 10;
      var d := if b == 16 then n % 16 else n % 10;
      var s := Print(q, b) + [DigitChar(d)];
      assert s[..|s| - 1] == Print(q, b);
      s
  }

  /** `toHexQuantity`; `None` is the thrown error. */
  function ToHexQuantity(n: int): Option<string> {
    if n <= 0 then None else Some("0x" + Print(n, 16))
  }

  predicate IsHexText(s: string) {
    |s| > 2 && s[0] == '0' && (s[1] == 'x' || s[1] == 'X') && IsDigits(s[2..], 16)
  }

  function ParseText(t: string): Option<nat> {
    if IsHexText(t) then Some(ValueOf(t[2..], 16))
    else if IsDigits(t, 10) then Some(ValueOf(t, 10))
    else None
  }

  /** `parseRpcInteger`. */
  function ParseRpcInteger(v: RpcValue): Option<nat> {
    match v
    case BigInt(n) => if n >= 0 then Some(n) else None
    case Whole(n) => if n >= 0 then Some(n) else None
    case Str(s) => ParseText(Trim(s))
    case _ => None
  }

  /** `readIntegerField` on the own members of an object. */
  function ReadIntegerField(fields: map<string, RpcValue>, keys: seq<string>): Option<string> {
    if keys == [] then None
    else
      var parsed := if keys[0] in fields then ParseRpcInteger(fields[keys[0]]) else None;
      if parsed.Some? then Some(Print(parsed.value, 10)) else ReadIntegerField(fields, keys[1..])
  }

  lemma {:induction false} LeadingZeros(z: string, s: string, b: Base)
    requires forall i | 0 <= i < |z| :: z[i] == '0'
    requires forall i | 0 <= i < |s| :: IsDigit(s[i], b)
    ensures forall i | 0 <= i < |z + s| :: IsDigit((z + s)[i], b)
    ensures ValueOf(z + s, b) == ValueOf(s, b)
    decreases |z| + |s|
  {
    if s != "" {
      assert (z + s)[..|z + s| - 1] == z + s[..|s| - 1];
      LeadingZeros(z, s[..|s| - 1], b);
    } else if z != "" {
      assert z + s == z && z[..|z| - 1] + "" == z[..|z| - 1];
      LeadingZeros(z[..|z| - 1], "", b);
    }
  }

  lemma {:induction false} CaseOfDigits(s: string, s': string, b: Base)
    requires Lower(s) == Lower(s')
    requires forall i | 0 <= i < |s| :: IsDigit(s[i], b)
    ensures |s| == |s'|
    ensures forall i | 0 <= i < |s'| :: IsDigit(s'[i], b)
    ensures ValueOf(s, b) == ValueOf(s', b)
  {
    assert |Lower(s)| == |s| && |Lower(s')| == |s'|;
    forall i | 0 <= i < |s'|
      ensures IsDigit(s'[i], b) && DigitValue(s[i]) == DigitValue(s'[i])
    {
      assert Lower(s)[i] == LowerChar(s[i]) && Lower(s')[i] == LowerChar(s'[i]);
      SameDigit(s[i], s'[i]);
    }
    if s != "" {
      var n := |s| - 1;
      assert Lower(s[..n]) == Lower(s)[..n] && Lower(s'[..n]) == Lower(s')[..n];
      CaseOfDigits(s[..n], s'[..n], b);
    }
  }

  lemma SameDigit(c: char, d: char)
    requires LowerChar(c) == LowerChar(d) && DigitValue(c) >= 0
    ensures DigitValue(d) == DigitValue(c)
  {
  }

  lemma DigitsAreTight(s: string, b: Base)
    requires IsDigits(s, b)
    ensures Tight(s)
  {
    assert IsDigit(s[0], b) && IsDigit(s[|s| - 1], b);
  }

  lemma ParseTight(a: string, u: string, b: string)
    requires AllSpace(a) && AllSpace(b) && Tight(u)
    ensures ParseRpcInteger(Str(a + u + b)) == ParseText(u)
  {
    TrimOf(a, u, b);
  }

  lemma HexTextIsTight(prefix: string, t: string)
    requires IsDigits(t, 16)
    requires prefix == "0x" || prefix == "0X"
    ensures Tight(prefix + t) && ParseText(prefix + t) == Some(ValueOf(t, 16))
  {
    var u := prefix + t;
    DigitsAreTight(t, 16);
    assert u[2..] == t;
    assert u[0] == '0' && u[1] == prefix[1];
    assert u[|u| - 1] == t[|t| - 1];
    assert !IsSpace(u[0]);
  }

  lemma DecimalTextIsTight(t: string)
    requires IsDigits(t, 10)
    ensures Tight(t) && ParseText(t) == Some(ValueOf(t, 10))
  {
    DigitsAreTight(t, 10);
    if |t| > 1 {
      assert IsDigit(t[1], 10);
      assert t[1] != 'x' && t[1] != 'X';
    }
  }

  lemma DigitsRespelled(z: string, s: string, s': string, b: Base)
    requires forall i | 0 <= i < |z| :: z[i] == '0'
    requires IsDigits(s, b) && Lower(s) == Lower(s')
    ensures IsDigits(z + s', b) && ValueOf(z + s', b) == ValueOf(s, b)
  {
    CaseOfDigits(s, s', b);
    LeadingZeros(z, s', b);
  }

  /** However a number is spelled (outer white space, either case of the prefix and digits, leading zeros),
      parsing its hexadecimal or decimal text yields the value of its digits. */
  lemma SpellingNeverMatters(a: string, prefix: string, z: string, s: string, s': string, b: string, base: Base)
    requires AllSpace(a) && AllSpace(b)
    requires forall i | 0 <= i < |z| :: z[i] == '0'
    requires IsDigits(s, base) && Lower(s) == Lower(s')
    requires if base == 16 then prefix == "0x" || prefix == "0X" else prefix == ""
    ensures ParseRpcInteger(Str(a + (prefix + (z + s')) + b)) == Some(ValueOf(s, base))
  {
    DigitsRespelled(z, s, s', base);
    var t := z + s';
    if base == 16 {
      HexTextIsTight(prefix, t);
    } else {
      DecimalTextIsTight(t);
      assert prefix + t == t;
    }
    ParseTight(a, prefix + t, b);
  }

  /** A number parses to itself unless it is negative or has a fraction; what is neither number nor text does not
      parse. */
  lemma NumbersParse(v: RpcValue)
    ensures v.BigInt? || v.Whole? ==> ParseRpcInteger(v) == if v.n >= 0 then Some(v.n) else None
    ensures v.Fraction? || v.Other? ==> ParseRpcInteger(v) == None
  {
  }

  predicate IsDecimal(c: char) {
    '0' <= c <= '9'
  }

  predicate IsHex(c: char) {
    '0' <= c <= '9' || 'a' <= c <= 'f' || 'A' <= c <= 'F'
  }

  /** A text parses exactly when, trimmed, it is one or more decimal digits, or `0x` in either case and one or more
      hexadecimal digits. */
  lemma TextParsesIff(s: string)
    ensures var t := Trim(s);
      ParseRpcInteger(Str(s)).Some? <==>
        || (|t| > 0 && forall i | 0 <= i < |t| :: IsDecimal(t[i]))
        || (|t| > 2 && t[0] == '0' && (t[1] == 'x' || t[1] == 'X') && forall i | 2 <= i < |t| :: IsHex(t[i]))
  {
    var t := Trim(s);
    forall i | 0 <= i < |t|
      ensures IsDigit(t[i], 10) <==> IsDecimal(t[i])
      ensures IsDigit(t[i], 16) <==> IsHex(t[i])
    {
    }
    if |t| > 2 {
      HexTail(t);
    }
  }

  lemma HexTail(t: string)
    requires |t| > 2
    ensures IsDigits(t[2..], 16) <==> forall i | 2 <= i < |t| :: IsDigit(t[i], 16)
  {
    if IsDigits(t[2..], 16) {
      forall i | 2 <= i < |t|
        ensures IsDigit(t[i], 16)
      {
        assert t[2..][i - 2] == t[i];
      }
    }
  }

  /** Printing a positive quantity and parsing it gives it back; nothing else is printed. */
  lemma QuantityRoundTrip(n: int)
    ensures ToHexQuantity(n).Some? <==> n > 0
    ensures n > 0 ==> ParseRpcInteger(Str(ToHexQuantity(n).value)) == Some(n)
  {
    if n > 0 {
      PrintedQuantity(n);
    }
  }

  lemma PrintedQuantity(n: nat)
    requires n > 0
    ensures ToHexQuantity(n).Some? && ParseRpcInteger(Str(ToHexQuantity(n).value)) == Some(n)
  {
    var s := Print(n, 16);
    SpellingNeverMatters("", "0x", "", s, s, "", 16);
    assert "" + ("0x" + ("" + s)) + "" == "0x" + s;
  }

  lemma DecimalRoundTrip(n: nat)
    ensures ParseRpcInteger(Str(Print(n, 10))) == Some(n)
  {
    SpellingNeverMatters("", "", "", Print(n, 10), Print(n, 10), "", 10);
    assert "" + ("" + ("" + Print(n, 10))) + "" == Print(n, 10);
  }

  /** The decimal text read from a field denotes the value of the first listed field that holds an integer,
      and parses back to it. */
  lemma {:induction false} FieldTextReparses(fields: map<string, RpcValue>, keys: seq<string>)
    ensures var t := ReadIntegerField(fields, keys);
      if t.None? then forall i | 0 <= i < |keys| && keys[i] in fields :: ParseRpcInteger(fields[keys[i]]) == None
      else exists i :: 0 <= i < |keys| && FirstInteger(fields, keys, i)
             && ParseRpcInteger(Str(t.value)) == ParseRpcInteger(fields[keys[i]])
  {
    if keys != [] {
      var t := ReadIntegerField(fields, keys);
      if keys[0] in fields && ParseRpcInteger(fields[keys[0]]).Some? {
        DecimalRoundTrip(ParseRpcInteger(fields[keys[0]]).value);
        assert FirstInteger(fields, keys, 0);
      } else {
        FieldTextReparses(fields, keys[1..]);
        if t.Some? {
          var i :| 0 <= i < |keys[1..]| && FirstInteger(fields, keys[1..], i)
                   && ParseRpcInteger(Str(t.value)) == ParseRpcInteger(fields[keys[1..][i]]);
          assert keys[1..][i] == keys[i + 1];
          assert FirstInteger(fields, keys, i + 1);
        } else {
          forall i | 0 <= i < |keys| && keys[i] in fields
            ensures ParseRpcInteger(fields[keys[i]]) == None
          {
            if i > 0 {
              assert keys[i] == keys[1..][i - 1];
            }
          }
        }
      }
    }
  }

  /** `keys[i]` is the first listed member that holds an integer. */
  predicate FirstInteger(fields: map<string, RpcValue>, keys: seq<string>, i: nat)
    requires i < |keys|
  {
    && keys[i] in fields && ParseRpcInteger(fields[keys[i]]).Some?
    && forall j | 0 <= j < i && keys[j] in fields :: ParseRpcInteger(fields[keys[j]]) == None
  }
}
