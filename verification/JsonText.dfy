/**
 JSON texts, as RFC 8259 (sections 2 to 7) writes them, and what they mean.

 A value here is a syntax tree: it keeps the white space between the tokens and the way each
 character of a string is written, so that every text of the grammar is the text of such a value.
 Of a number with a fraction or an exponent the meaning says only that it is one.
 */
module JsonText {
  import opened JsonParser

  /** One character of a string, as written: itself, by a short escape, by \u, or by a surrogate pair. */
  datatype Elem = Raw(c: char) | Short(c: char) | Code(d: string) | Pair(hi: string, lo: string)

  /** A number; without a fraction `frac` is empty. */
  datatype Numeral = Numeral(negative: bool, digits: string, frac: string, exp: Exponent)

  datatype Exponent = NoExponent | Exponent(mark: char, sign: string, digits: string)

  datatype Value =
    | Null
    | True
    | False
    | Number(num: Numeral)
    | Text(elems: seq<Elem>)
    | Array(gap: string, items: Items)
    | Object(gap: string, members: Members)

  /** `pre` and `post` are the white space around a value. `gap` above is that of an empty container. */
  datatype Items = NoItems | Item(pre: string, value: Value, post: string, rest: Items)

  datatype Members =
    | NoMembers
    | Member(pre: string, key: seq<Elem>, colonPre: string, colonPost: string, value: Value, post: string, rest: Members)

  /** What a text denotes. */
  datatype Json =
    | JNull
    | JBool(b: bool)
    | JInt(i: int)
    | JReal
    | JString(s: string)
    | JArray(items: seq<Json>)
    | JObject(members: seq<(string, Json)>)

  // ----- the grammar -----

  predicate IsGap(w: string) { forall k :: 0 <= k < |w| ==> IsSpace(w[k]) }

  predicate IsHex4(d: string) { |d| == 4 && HexAt(d, 0) }

  predicate GoodElem(e: Elem) {
    match e
    case Raw(c) => c >= ' ' && c != '"' && c != '\\'
    case Short(c) => c in "\"\\/bfnrt"
    case Code(d) => IsHex4(d) && !IsSurrogate(CodeAt(d, 0))
    case Pair(hi, lo) => IsHex4(hi) && IsHex4(lo) && 0xD800 <= CodeAt(hi, 0) < 0xDC00 <= CodeAt(lo, 0) < 0xE000
  }

  predicate GoodElems(es: seq<Elem>) { forall k :: 0 <= k < |es| ==> GoodElem(es[k]) }

  predicate AllDigits(d: string) { forall k :: 0 <= k < |d| ==> IsDigit(d[k]) }

  function Magnitude(d: string): nat
    requires AllDigits(d)
  {
    if d == "" then 0 else Magnitude(d[..|d| - 1]) * 10 + DigitValue(d[|d| - 1])
  }

  predicate GoodNumeral(n: Numeral) {
    && n.digits != "" && AllDigits(n.digits) && (n.digits[0] == '0' ==> |n.digits| == 1)
    && AllDigits(n.frac)
    && (n.exp.Exponent? ==>
          && (n.exp.mark == 'e' || n.exp.mark == 'E') && (n.exp.sign == "" || n.exp.sign == "+" || n.exp.sign == "-")
          && n.exp.digits != "" && AllDigits(n.exp.digits))
  }

  predicate IsInteger(n: Numeral) { n.frac == "" && n.exp.NoExponent? }

  function IntValue(n: Numeral): int
    requires GoodNumeral(n)
  {
    if n.negative then 0 - Magnitude(n.digits) else Magnitude(n.digits)
  }

  predicate Good(v: Value) {
    match v
    case Number(n) => GoodNumeral(n)
    case Text(es) => GoodElems(es)
    case Array(gap, items) => IsGap(gap) && GoodItems(items)
    case Object(gap, members) => IsGap(gap) && GoodMembers(members)
    case _ => true
  }

  predicate GoodItems(items: Items) {
    items.Item? ==> IsGap(items.pre) && Good(items.value) && IsGap(items.post) && GoodItems(items.rest)
  }

  predicate GoodMembers(ms: Members) {
    ms.Member? ==>
      && IsGap(ms.pre) && GoodElems(ms.key) && IsGap(ms.colonPre) && IsGap(ms.colonPost)
      && Good(ms.value) && IsGap(ms.post) && GoodMembers(ms.rest)
  }

  // ----- the text -----

  function ElemText(e: Elem): string {
    match e
    case Raw(c) => [c]
    case Short(c) => ['\\', c]
    case Code(d) => "\\u" + d
    case Pair(hi, lo) => "\\u" + hi + "\\u" + lo
  }

  function ElemsText(es: seq<Elem>): string {
    if es == [] then "" else ElemText(es[0]) + ElemsText(es[1..])
  }

  function Quoted(es: seq<Elem>): string { "\"" + ElemsText(es) + "\"" }

  function FracText(frac: string): string { if frac == "" then "" else "." + frac }

  function ExpText(exp: Exponent): string {
    if exp.NoExponent? then "" else [exp.mark] + (exp.sign + exp.digits)
  }

  function Sign(negative: bool): string { if negative then "-" else "" }

  function NumeralText(n: Numeral): (w: string)
    requires GoodNumeral(n)
    ensures w != "" && w[0] == if n.negative then '-' else n.digits[0]
  {
    Sign(n.negative) + (n.digits + (FracText(n.frac) + ExpText(n.exp)))
  }

  function ValueText(v: Value): (w: string)
    requires Good(v)
    ensures w != "" && !IsSpace(w[0]) && w[0] != ']' && w[0] != '/'
  {
    match v
    case Null => "null"
    case True => "true"
    case False => "false"
    case Number(n) => NumeralText(n)
    case Text(es) => Quoted(es)
    case Array(gap, items) => "[" + (if items.NoItems? then gap else ItemsText(items)) + "]"
    case Object(gap, ms) => "{" + (if ms.NoMembers? then gap else MembersText(ms)) + "}"
  }

  function ItemsText(items: Items): string
    requires GoodItems(items)
  {
    match items
    case NoItems => ""
    case Item(pre, v, post, rest) => pre + (ValueText(v) + (post + (if rest.NoItems? then "" else "," + ItemsText(rest))))
  }

  function MembersText(ms: Members): string
    requires GoodMembers(ms)
  {
    match ms
    case NoMembers => ""
    case Member(pre, key, cpre, cpost, v, post, rest) =>
      pre + (Quoted(key) + (cpre + (":" + (cpost + (ValueText(v) + (post + (if rest.NoMembers? then "" else "," + MembersText(rest))))))))
  }

  // ----- the meaning -----

  /** The code point of a surrogate pair (section 7 of RFC 8259). */
  function PairPoint(hi: nat, lo: nat): nat
    requires 0xD800 <= hi < 0xDC00 <= lo < 0xE000
    ensures 0x10000 <= PairPoint(hi, lo) < 0x110000
  {
    0x10000 + (hi - 0xD800) * 1024 + (lo - 0xDC00)
  }

  /** The bytes an element stands for: by the standard if `exact`, and as the parser reads it if not. */
  function ElemBytes(exact: bool, e: Elem): string
    requires GoodElem(e)
  {
    match e
    case Raw(c) => [c]
    case Short(c) => [Unescape(c)]
    case Code(d) => Utf8(CodeAt(d, 0))
    case Pair(hi, lo) =>
      if exact then Utf8(PairPoint(CodeAt(hi, 0), CodeAt(lo, 0))) else Utf8(PairCode(CodeAt(hi, 0), CodeAt(lo, 0)))
  }

  function Bytes(exact: bool, es: seq<Elem>): string
    requires GoodElems(es)
  {
    if es == [] then "" else ElemBytes(exact, es[0]) + Bytes(exact, es[1..])
  }

  /** The parser reads an integer into 64 bits. */
  function NumeralMeaning(exact: bool, n: Numeral): Json
    requires GoodNumeral(n)
  {
    if !IsInteger(n) then JReal else JInt(if exact then IntValue(n) else Wrap64(IntValue(n)))
  }

  function Meaning(exact: bool, v: Value): Json
    requires Good(v)
  {
    match v
    case Null => JNull
    case True => JBool(true)
    case False => JBool(false)
    case Number(n) => NumeralMeaning(exact, n)
    case Text(es) => JString(Bytes(exact, es))
    case Array(_, items) => JArray(ItemsMeaning(exact, items))
    case Object(_, ms) => JObject(MembersMeaning(exact, ms))
  }

  function ItemsMeaning(exact: bool, items: Items): seq<Json>
    requires GoodItems(items)
  {
    match items
    case NoItems => []
    case Item(_, v, _, rest) => [Meaning(exact, v)] + ItemsMeaning(exact, rest)
  }

  function MembersMeaning(exact: bool, ms: Members): seq<(string, Json)>
    requires GoodMembers(ms)
  {
    match ms
    case NoMembers => []
    case Member(_, key, _, _, v, _, rest) => [(Bytes(exact, key), Meaning(exact, v))] + MembersMeaning(exact, rest)
  }

  // ----- where the parser's reading and the standard agree -----

  /** Bit 16 of the pair's offset is clear, so that OR-ing the plane in is adding it. */
  predicate CleanElem(e: Elem)
    requires GoodElem(e)
  {
    e.Pair? ==> CodeAt(e.hi, 0) / 64 % 2 == 0
  }

  predicate CleanElems(es: seq<Elem>)
    requires GoodElems(es)
  {
    forall k :: 0 <= k < |es| ==> CleanElem(es[k])
  }

  /** An integer of 64 bits. */
  predicate CleanNumeral(n: Numeral)
    requires GoodNumeral(n)
  {
    IsInteger(n) ==> -0x8000_0000_0000_0000 <= IntValue(n) < 0x8000_0000_0000_0000
  }

  /** Every integer in the value fits, and every surrogate pair is one that the parser puts together correctly. */
  predicate Clean(v: Value)
    requires Good(v)
  {
    match v
    case Number(n) => CleanNumeral(n)
    case Text(es) => CleanElems(es)
    case Array(_, items) => CleanItems(items)
    case Object(_, ms) => CleanMembers(ms)
    case _ => true
  }

  predicate CleanItems(items: Items)
    requires GoodItems(items)
  {
    items.Item? ==> Clean(items.value) && CleanItems(items.rest)
  }

  predicate CleanMembers(ms: Members)
    requires GoodMembers(ms)
  {
    ms.Member? ==> CleanElems(ms.key) && Clean(ms.value) && CleanMembers(ms.rest)
  }

  // ----- where the parser comes back -----

  /** The exponent is not negative, unless it is zero, and it is an int; and so is the length of the fraction. */
  predicate TameNumeral(n: Numeral)
    requires GoodNumeral(n)
  {
    && |n.frac| <= INT_MAX
    && (n.exp.Exponent? ==>
          (n.exp.sign == "-" ==> Magnitude(n.exp.digits) == 0) && Magnitude(n.exp.digits) <= INT_MAX)
  }

  predicate Tame(v: Value)
    requires Good(v)
  {
    match v
    case Number(n) => TameNumeral(n)
    case Array(_, items) => TameItems(items)
    case Object(_, ms) => TameMembers(ms)
    case _ => true
  }

  predicate TameItems(items: Items)
    requires GoodItems(items)
  {
    items.Item? ==> Tame(items.value) && TameItems(items.rest)
  }

  predicate TameMembers(ms: Members)
    requires GoodMembers(ms)
  {
    ms.Member? ==> Tame(ms.value) && TameMembers(ms.rest)
  }

  lemma WrapExact(x: int)
    ensures Wrap64(x) == x <==> -0x8000_0000_0000_0000 <= x < 0x8000_0000_0000_0000
  {
  }

  lemma SixBits(u: nat)
    ensures u == u / 64 * 64 + u % 64
    ensures u / 64 / 64 == u / 4096 && u / 4096 / 64 == u / 0x40000
  {
  }

  /** Four-byte sequences tell their code points apart. */
  lemma Utf8Injective(u: nat, u': nat)
    requires 0x10000 <= u < 0x110000 && 0x10000 <= u' < 0x110000 && Utf8(u) == Utf8(u')
    ensures u == u'
  {
    FourCodes(u);
    FourCodes(u');
    hide Utf8;
    SixBits(u); SixBits(u / 64); SixBits(u / 4096);
    SixBits(u'); SixBits(u' / 64); SixBits(u' / 4096);
    assert u / 4096 == u' / 4096;
    assert u / 64 == u' / 64;
  }

  lemma FourCodes(u: nat)
    requires 0x10000 <= u < 0x110000
    ensures |Utf8(u)| == 4
    ensures Utf8(u)[0] as int == 0xF0 + u / 0x40000 && Utf8(u)[1] as int == 0x80 + u / 4096 % 64
    ensures Utf8(u)[2] as int == 0x80 + u / 64 % 64 && Utf8(u)[3] as int == 0x80 + u % 64
  {
  }

  lemma Halves(hi: nat, lo: nat, h: nat, l: nat)
    requires h < 1024 && l < 1024 && hi == 0xD800 + h && lo == 0xDC00 + l
    ensures hi % 1024 == h && lo % 1024 == l && hi / 64 % 2 == h / 64 % 2
  {
    assert hi / 64 == 864 + h / 64;
  }

  lemma PlaneBit(h: nat, l: nat)
    requires h < 1024 && l < 1024
    ensures (h * 1024 + l) / 0x10000 == h / 64
  {
    var q, r := h / 64, h % 64;
    assert h * 1024 + l == 0x10000 * q + (r * 1024 + l);
  }

  lemma PairExact(hi: nat, lo: nat)
    requires 0xD800 <= hi < 0xDC00 <= lo < 0xE000
    ensures PairPoint(hi, lo) == PairCode(hi, lo) <==> hi / 64 % 2 == 0
  {
    var h, l := hi - 0xD800, lo - 0xDC00;
    Halves(hi, lo, h, l);
    PlaneBit(h, l);
  }

  lemma ElemExact(e: Elem)
    requires GoodElem(e)
    ensures ElemBytes(true, e) == ElemBytes(false, e) <==> CleanElem(e)
    ensures |ElemBytes(true, e)| == |ElemBytes(false, e)|
  {
    if e.Pair? {
      hide Utf8, PairCode, PairPoint;
      var hi, lo := CodeAt(e.hi, 0), CodeAt(e.lo, 0);
      PairExact(hi, lo);
      FourCodes(PairPoint(hi, lo));
      FourCodes(PairCode(hi, lo));
      if ElemBytes(true, e) == ElemBytes(false, e) {
        Utf8Injective(PairPoint(hi, lo), PairCode(hi, lo));
      }
    }
  }

  lemma {:induction false} BytesExact(es: seq<Elem>)
    requires GoodElems(es)
    ensures Bytes(true, es) == Bytes(false, es) <==> CleanElems(es)
    ensures |Bytes(true, es)| == |Bytes(false, es)|
    decreases |es|
  {
    hide ElemBytes, CleanElem;
    if es != [] {
      ElemExact(es[0]);
      BytesExact(es[1..]);
      var a, a' := ElemBytes(true, es[0]), ElemBytes(false, es[0]);
      var b, b' := Bytes(true, es[1..]), Bytes(false, es[1..]);
      assert (a + b)[..|a|] == a && (a' + b')[..|a'|] == a' && (a + b)[|a|..] == b && (a' + b')[|a'|..] == b';
      assert CleanElems(es) <==> CleanElem(es[0]) && CleanElems(es[1..]) by {
        assert forall k :: 0 < k < |es| ==> es[k] == es[1..][k - 1];
      }
    }
  }

  lemma {:induction false} MeaningExact(v: Value)
    requires Good(v)
    ensures Meaning(true, v) == Meaning(false, v) <==> Clean(v)
    decreases v
  {
    hide Magnitude, Wrap64;
    match v
    case Number(n) => WrapExact(IntValue(n));
    case Text(es) => BytesExact(es);
    case Array(_, items) => ItemsExact(items);
    case Object(_, ms) => MembersExact(ms);
    case _ =>
  }

  lemma {:induction false} ItemsExact(items: Items)
    requires GoodItems(items)
    ensures ItemsMeaning(true, items) == ItemsMeaning(false, items) <==> CleanItems(items)
    decreases items
  {
    hide Meaning, Clean;
    if items.Item? {
      MeaningExact(items.value);
      ItemsExact(items.rest);
      var a, a' := ItemsMeaning(true, items), ItemsMeaning(false, items);
      assert a[0] == Meaning(true, items.value) && a'[0] == Meaning(false, items.value);
      assert a[1..] == ItemsMeaning(true, items.rest) && a'[1..] == ItemsMeaning(false, items.rest);
    }
  }

  lemma {:induction false} MembersExact(ms: Members)
    requires GoodMembers(ms)
    ensures MembersMeaning(true, ms) == MembersMeaning(false, ms) <==> CleanMembers(ms)
    decreases ms
  {
    hide Meaning, Clean, Bytes;
    if ms.Member? {
      BytesExact(ms.key);
      MeaningExact(ms.value);
      MembersExact(ms.rest);
      var a, a' := MembersMeaning(true, ms), MembersMeaning(false, ms);
      assert a[0] == (Bytes(true, ms.key), Meaning(true, ms.value)) && a'[0] == (Bytes(false, ms.key), Meaning(false, ms.value));
      assert a[1..] == MembersMeaning(true, ms.rest) && a'[1..] == MembersMeaning(false, ms.rest);
    }
  }
}
