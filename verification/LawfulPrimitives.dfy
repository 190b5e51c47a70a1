/** The assumptions on encodings and signatures can be met: one way to write records and signatures as base64url
    text so that they can be read back. */
module LawfulPrimitives {
  import opened Basics
  import opened CompactText
  import opened Tokens

  // ----- records as numbers -----

  function TextCode(s: string): seq<nat> {
    [|s|] + seq(|s|, i requires 0 <= i < |s| => s[i] as int)
  }

  predicate IsPlain(v: JsValue) {
    v.JsNull? || v.Bool? || v.Integer? || v.Text?
  }

  function Tag(v: JsValue): nat {
    match v
    case Bool(_) => 1
    case Integer(i) => if i >= 0 then 2 else 3
    case Text(_) => 4
    case _ => 0
  }

  function Body(v: JsValue): seq<nat> {
    match v
    case Bool(b) => [if b then 1 else 0]
    case Integer(i) => [if i >= 0 then i else -i]
    case Text(s) => TextCode(s)
    case _ => []
  }

  function ValueCode(v: JsValue): seq<nat> {
    [Tag(v)] + Body(v)
  }

  ghost function PairsCode(m: JsRecord): seq<nat>
    decreases |m|
  {
    if m == map[] then []
    else
      var k :| k in m;
      assert |m - {k}| < |m| by { assert k in m.Keys && (m - {k}).Keys == m.Keys - {k}; }
      TextCode(k) + (ValueCode(m[k]) + PairsCode(m - {k}))
  }

  ghost function RecordCode(m: JsRecord): seq<nat> {
    [|m|] + PairsCode(m)
  }

  lemma SameHead(a: nat, b: nat, x: seq<nat>, y: seq<nat>)
    requires [a] + x == [b] + y
    ensures a == b && x == y
  {
    assert ([a] + x)[0] == a && ([b] + y)[0] == b;
    assert ([a] + x)[1..] == x && ([b] + y)[1..] == y;
  }

  lemma SameFront(a: seq<nat>, b: seq<nat>, x: seq<nat>, y: seq<nat>)
    requires |a| == |b| && a + x == b + y
    ensures a == b && x == y
  {
    assert (a + x)[..|a|] == a && (b + y)[..|b|] == b;
    assert (a + x)[|a|..] == x && (b + y)[|b|..] == y;
  }

  lemma TextApart(s: string, t: string, x: seq<nat>, y: seq<nat>)
    requires TextCode(s) + x == TextCode(t) + y
    ensures s == t && x == y
  {
    assert (TextCode(s) + x)[0] == |s| && (TextCode(t) + y)[0] == |t|;
    SameFront(TextCode(s), TextCode(t), x, y);
    forall i | 0 <= i < |s|
      ensures s[i] == t[i]
    {
      assert TextCode(s)[i + 1] == s[i] as int && TextCode(t)[i + 1] == t[i] as int;
    }
  }

  lemma BodyApart(v: JsValue, w: JsValue, x: seq<nat>, y: seq<nat>)
    requires IsPlain(v) && IsPlain(w) && Tag(v) == Tag(w) && Body(v) + x == Body(w) + y
    ensures v == w && x == y
  {
    if v.Text? {
      TextApart(v.s, w.s, x, y);
    } else {
      SameFront(Body(v), Body(w), x, y);
      if v.Bool? || v.Integer? {
        assert Body(v)[0] == Body(w)[0];
      }
    }
  }

  lemma ValueApart(v: JsValue, w: JsValue, x: seq<nat>, y: seq<nat>)
    requires IsPlain(v) && IsPlain(w) && ValueCode(v) + x == ValueCode(w) + y
    ensures v == w && x == y
  {
    Regroup([Tag(v)], Body(v), x);
    Regroup([Tag(w)], Body(w), y);
    SameHead(Tag(v), Tag(w), Body(v) + x, Body(w) + y);
    BodyApart(v, w, x, y);
  }

  lemma Regroup(a: seq<nat>, b: seq<nat>, c: seq<nat>)
    ensures a + b + c == a + (b + c)
  {
  }

  lemma PairApart(k: string, l: string, v: JsValue, w: JsValue, x: seq<nat>, y: seq<nat>)
    requires IsPlain(v) && IsPlain(w)
    requires TextCode(k) + (ValueCode(v) + x) == TextCode(l) + (ValueCode(w) + y)
    ensures k == l && v == w && x == y
  {
    TextApart(k, l, ValueCode(v) + x, ValueCode(w) + y);
    ValueApart(v, w, x, y);
  }

  lemma {:induction false} PairsApart(m: JsRecord, n: JsRecord, x: seq<nat>, y: seq<nat>)
    requires JsonSafe(m) && JsonSafe(n) && |m| == |n| && PairsCode(m) + x == PairsCode(n) + y
    ensures m == n && x == y
    decreases |m|
  {
    if m == map[] {
      assert n == map[];
      assert [] + x == x && [] + y == y;
    } else {
      var k, rest := FirstPair(m, x);
      var l, rest' := FirstPair(n, y);
      PairApart(k, l, m[k], n[l], PairsCode(rest) + x, PairsCode(rest') + y);
      PairsApart(rest, rest', x, y);
      assert m == rest[k := m[k]] && n == rest'[l := n[l]];
    }
  }

  /** The pair that the code of a record starts with. */
  lemma FirstPair(m: JsRecord, x: seq<nat>) returns (k: string, rest: JsRecord)
    requires m != map[] && JsonSafe(m)
    ensures k in m && rest == m - {k} && |rest| == |m| - 1
    ensures JsonSafe(rest) && IsPlain(m[k])
    ensures PairsCode(m) + x == TextCode(k) + (ValueCode(m[k]) + (PairsCode(rest) + x))
  {
    k :| k in m && PairsCode(m) == TextCode(k) + (ValueCode(m[k]) + PairsCode(m - {k}));
    rest := m - {k};
    assert rest.Keys == m.Keys - {k};
    Regroup(TextCode(k), ValueCode(m[k]) + PairsCode(rest), x);
    Regroup(ValueCode(m[k]), PairsCode(rest), x);
  }

  lemma RecordsApart(m: JsRecord, n: JsRecord)
    requires JsonSafe(m) && JsonSafe(n) && RecordCode(m) == RecordCode(n)
    ensures m == n
  {
    SameHead(|m|, |n|, PairsCode(m), PairsCode(n));
    PairsApart(m, n, [], []);
  }

  // ----- numbers as text -----

  function Unary(n: nat): string {
    if n == 0 then "B" else "A" + Unary(n - 1)
  }

  function Letters(b: seq<nat>): string {
    if b == [] then "" else Unary(b[0]) + Letters(b[1..])
  }

  /** Padded to a length that base64url text can have. */
  function Spelled(b: seq<nat>): string {
    Letters(b) + if |Letters(b)| % 4 == 1 then "C" else ""
  }

  lemma {:induction false} UnaryIsLetters(n: nat)
    ensures |Unary(n)| > 0 && forall i | 0 <= i < |Unary(n)| :: Unary(n)[i] == 'A' || Unary(n)[i] == 'B'
  {
    if n > 0 {
      UnaryIsLetters(n - 1);
    }
  }

  lemma {:induction false} LettersAreLetters(b: seq<nat>)
    ensures forall i | 0 <= i < |Letters(b)| :: Letters(b)[i] == 'A' || Letters(b)[i] == 'B'
    ensures b != [] ==> Letters(b) != ""
  {
    if b != [] {
      UnaryIsLetters(b[0]);
      LettersAreLetters(b[1..]);
    }
  }

  lemma SpelledIsSegment(b: seq<nat>)
    requires b != []
    ensures IsSegment(Spelled(b))
  {
    LettersAreLetters(b);
  }

  lemma {:induction false} UnaryApart(n: nat, m: nat, x: string, y: string)
    requires Unary(n) + x == Unary(m) + y
    ensures n == m && x == y
  {
    assert (Unary(n) + x)[0] == Unary(n)[0] && (Unary(m) + y)[0] == Unary(m)[0];
    assert (Unary(n) + x)[1..] == Unary(n)[1..] + x && (Unary(m) + y)[1..] == Unary(m)[1..] + y;
    if n > 0 && m > 0 {
      UnaryApart(n - 1, m - 1, x, y);
    } else {
      assert "" + x == x && "" + y == y;
    }
  }

  predicate IsPad(x: string) {
    x == "" || x == "C"
  }

  lemma OnlyPadIfEmpty(b: seq<nat>, y: string)
    requires IsPad(y)
    ensures IsPad(Letters(b) + y) <==> b == []
  {
    LettersAreLetters(b);
    if b == [] {
      assert "" + y == y;
    } else {
      assert (Letters(b) + y)[0] == Letters(b)[0];
    }
  }

  lemma {:induction false} LettersApart(a: seq<nat>, b: seq<nat>, x: string, y: string)
    requires Letters(a) + x == Letters(b) + y && IsPad(x) && IsPad(y)
    ensures a == b
    decreases |a|
  {
    OnlyPadIfEmpty(a, x);
    OnlyPadIfEmpty(b, y);
    if a != [] {
      assert Unary(a[0]) + Letters(a[1..]) + x == Unary(a[0]) + (Letters(a[1..]) + x);
      assert Unary(b[0]) + Letters(b[1..]) + y == Unary(b[0]) + (Letters(b[1..]) + y);
      UnaryApart(a[0], b[0], Letters(a[1..]) + x, Letters(b[1..]) + y);
      LettersApart(a[1..], b[1..], x, y);
      assert a == [a[0]] + a[1..] && b == [b[0]] + b[1..];
    }
  }

  lemma SpelledApart(a: seq<nat>, b: seq<nat>)
    requires Spelled(a) == Spelled(b)
    ensures a == b
  {
    LettersApart(a, b, if |Letters(a)| % 4 == 1 then "C" else "", if |Letters(b)| % 4 == 1 then "C" else "");
  }

  // ----- reading back -----

  ghost function Read(s: string): Bytes {
    if b: Bytes :| Spelled(b) == s then b else []
  }

  ghost function Decoded(s: string): Option<JsRecord> {
    if exists r: JsRecord :: JsonSafe(r) && Spelled(RecordCode(r)) == s
    then (var r: JsRecord :| JsonSafe(r) && Spelled(RecordCode(r)) == s; Some(r)) else None
  }

  function Signature(k: Key, m: string): Bytes {
    [k] + TextCode(m)
  }

  lemma ReadsBack(b: Bytes)
    ensures Read(Spelled(b)) == b
  {
    var c := Read(Spelled(b));
    assert Spelled(c) == Spelled(b);
    SpelledApart(c, b);
  }

  lemma DecodesBack(r: JsRecord)
    requires JsonSafe(r)
    ensures Decoded(Spelled(RecordCode(r))) == Some(r)
  {
    var d := Decoded(Spelled(RecordCode(r)));
    assert d.Some? && JsonSafe(d.value) && Spelled(RecordCode(d.value)) == Spelled(RecordCode(r));
    SpelledApart(RecordCode(d.value), RecordCode(r));
    RecordsApart(d.value, r);
  }

  /** So nothing proved of lawful primitives is proved of nothing. */
  lemma LawfulExists()
    ensures exists x: Primitives :: Lawful(x)
  {
    var x := Primitives(
      (r: JsRecord) => Spelled(RecordCode(r)), (s: string) => Decoded(s),
      (b: Bytes) => Spelled(b), (s: string) => Read(s),
      (k: Key, m: string) => Signature(k, m), (k: Key, m: string, b: Bytes) => b == Signature(k, m));
    forall r: JsRecord | JsonSafe(r)
      ensures IsSegment(x.encode(r)) && x.decode(x.encode(r)) == Some(r)
    {
      SpelledIsSegment(RecordCode(r));
      DecodesBack(r);
    }
    forall k: Key, m: string
      ensures IsSegment(x.spell(x.sign(k, m))) && x.read(x.spell(x.sign(k, m))) == x.sign(k, m)
    {
      SpelledIsSegment(Signature(k, m));
      ReadsBack(Signature(k, m));
    }
    forall k: Key, l: Key, m: string | k != l
      ensures x.sign(k, m) != x.sign(l, m)
    {
      assert Signature(k, m)[0] == k && Signature(l, m)[0] == l;
    }
    assert Lawful(x);
  }
}
