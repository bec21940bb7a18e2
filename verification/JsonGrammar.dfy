/**
 The texts that src/json.c accepts, as a grammar written for it. It differs from JSON: a comma may stand before a
 closing bracket, a backslash may stand before any character, a number may be a lone minus sign, or go
 straight from the sign to the exponent, and a zero byte ends the text.
 */
module JsonGrammar {
  import opened JsonParser

  /** Where a part of the text ends; or that it is not of the grammar, or holds a number from which the parser does not come back. */
  datatype Scan = To(end: nat) | Bad | Stuck

  predicate Space(c: char) { c == ' ' || c == '\t' || c == '\r' || c == '\n' }

  predicate Digit(c: char) { '0' <= c <= '9' }

  predicate HexDigit(c: char) { Digit(c) || 'a' <= c <= 'f' || 'A' <= c <= 'F' }

  predicate IsE(c: char) { c == 'e' || c == 'E' }

  // ----- white space and comments -----

  /** The beginning of a comment. None may follow a number directly. */
  predicate Comment(cfg: Config, text: string, i: nat) { cfg.comments && At(text, i) == '/' }

  /** The end of a line, where a comment that runs to it stops. */
  function LineEnd(text: string, i: nat): (j: nat)
    requires i <= |text|
    ensures i <= j <= |text|
    decreases |text| - i
  {
    if i == |text| || text[i] == '\r' || text[i] == '\n' || text[i] == '\0' then i else LineEnd(text, i + 1)
  }

  /** Behind the closing mark of a comment. */
  function BlockEnd(text: string, i: nat): (s: Scan)
    requires i <= |text|
    ensures !s.Stuck? && (s.To? ==> i < s.end <= |text|)
    decreases |text| - i
  {
    if i == |text| || text[i] == '\0' then Bad
    else if text[i] == '*' && i + 1 < |text| && text[i + 1] == '/' then To(i + 2)
    else BlockEnd(text, i + 1)
  }

  /** White space, and comments, if they are allowed. */
  function Gap(cfg: Config, text: string, i: nat): (s: Scan)
    requires i <= |text|
    ensures !s.Stuck? && (s.To? ==> i <= s.end <= |text| && !Space(At(text, s.end)) && !Comment(cfg, text, s.end))
    decreases |text| - i
  {
    if i < |text| && Space(text[i]) then Gap(cfg, text, i + 1)
    else if !Comment(cfg, text, i) then To(i)
    else if i + 1 >= |text| then Bad
    else if text[i + 1] == '/' then Gap(cfg, text, LineEnd(text, i + 2))
    else if text[i + 1] == '*' then
      var b := BlockEnd(text, i + 2);
      if b.To? then Gap(cfg, text, b.end) else Bad
    else Bad
  }

  // ----- strings -----

  predicate Hex4(text: string, i: nat) {
    i + 4 <= |text| && HexDigit(text[i]) && HexDigit(text[i + 1]) && HexDigit(text[i + 2]) && HexDigit(text[i + 3])
  }

  /** Four digits that are half of a surrogate pair: D800 to DFFF. */
  predicate HalfPair(text: string, i: nat)
    requires Hex4(text, i)
  {
    (text[i] == 'd' || text[i] == 'D') && !('0' <= text[i + 1] <= '7')
  }

  /** Behind an escape, whose letter stands at `i`. */
  function EscapeEnd(text: string, i: nat): (s: Scan)
    requires i <= |text|
    ensures !s.Stuck? && (s.To? ==> i < s.end <= |text|)
  {
    if At(text, i) == '\0' then Bad
    else if text[i] != 'u' then To(i + 1)
    else if !Hex4(text, i + 1) then Bad
    else if !HalfPair(text, i + 1) then To(i + 5)
    else if At(text, i + 5) == '\\' && At(text, i + 6) == 'u' && Hex4(text, i + 7) then To(i + 11)
    else Bad
  }

  /** Behind the closing quote. */
  function StringEnd(text: string, i: nat): (s: Scan)
    requires i <= |text|
    ensures !s.Stuck? && (s.To? ==> i < s.end <= |text|)
    decreases |text| - i
  {
    if At(text, i) == '\0' then Bad
    else if text[i] == '"' then To(i + 1)
    else if text[i] != '\\' then StringEnd(text, i + 1)
    else
      var e := EscapeEnd(text, i + 1);
      if e.To? then StringEnd(text, e.end) else Bad
  }

  // ----- numbers -----

  function DigitsEnd(text: string, i: nat): (j: nat)
    requires i <= |text|
    ensures i <= j <= |text| && (forall k :: i <= k < j ==> Digit(text[k])) && !Digit(At(text, j))
    decreases |text| - i
  {
    if i < |text| && Digit(text[i]) then DigitsEnd(text, i + 1) else i
  }

  /** What a row of digits means. */
  function Decimal(d: string): nat
    requires forall k :: 0 <= k < |d| ==> Digit(d[k])
  {
    if d == "" then 0 else
    var last := d[|d| - 1];
    assert Digit(last);
    10 * Decimal(d[..|d| - 1]) + (last as int - '0' as int)
  }

  /** Behind the exponent, whose e stands before `i`. */
  function ExponentEnd(cfg: Config, text: string, i: nat): (s: Scan)
    requires i <= |text|
    ensures s.To? ==> i < s.end <= |text|
  {
    var a := if At(text, i) == '+' || At(text, i) == '-' then i + 1 else i;
    var b := DigitsEnd(text, a);
    if b == a || Comment(cfg, text, b) then Bad
    else if Decimal(text[a..b]) > (if At(text, i) == '-' then 0 else INT_MAX) then Stuck
    else To(b)
  }

  /** Behind the fraction, whose point stands before `i`, and what exponent there is. */
  function FractionEnd(cfg: Config, text: string, i: nat): (s: Scan)
    requires i <= |text|
    ensures s.To? ==> i < s.end <= |text|
  {
    var d := DigitsEnd(text, i);
    if d == i || Comment(cfg, text, d) then Bad
    else if d - i > INT_MAX then Stuck
    else if IsE(At(text, d)) then ExponentEnd(cfg, text, d + 1)
    else To(d)
  }

  function NumberEnd(cfg: Config, text: string, i: nat): (s: Scan)
    requires i < |text| && (Digit(text[i]) || text[i] == '-')
    ensures s.To? ==> i < s.end <= |text|
  {
    var a := if text[i] == '-' then i + 1 else i;
    var b := DigitsEnd(text, a);
    if (b > a + 1 && text[a] == '0') || Comment(cfg, text, b) then Bad
    else if At(text, b) == '.' then (if b == a then Bad else FractionEnd(cfg, text, b + 1))
    else if IsE(At(text, b)) then ExponentEnd(cfg, text, b + 1)
    else To(b)
  }

  // ----- values -----

  predicate Word(text: string, i: nat, w: string) { i + |w| <= |text| && text[i..i + |w|] == w }

  function ValueEnd(cfg: Config, text: string, i: nat): (s: Scan)
    requires i <= |text|
    ensures s.To? ==> i < s.end <= |text|
    decreases |text| - i, 0
  {
    var c := At(text, i);
    if c == '{' then
      var g := Gap(cfg, text, i + 1);
      if g.To? then MembersEnd(cfg, text, g.end) else Bad
    else if c == '[' then
      var g := Gap(cfg, text, i + 1);
      if g.To? then ItemsEnd(cfg, text, g.end) else Bad
    else if c == '"' then StringEnd(text, i + 1)
    else if Word(text, i, "true") || Word(text, i, "null") then To(i + 4)
    else if Word(text, i, "false") then To(i + 5)
    else if Digit(c) || c == '-' then NumberEnd(cfg, text, i)
    else Bad
  }

  /** The closing bracket, or the next entry behind a comma, after an entry that ends at `i`. */
  function NextEntry(cfg: Config, text: string, i: nat, close: char): (s: Scan)
    requires i <= |text|
    ensures !s.Stuck? && (s.To? ==> i <= s.end <= |text| && (At(text, s.end) != close ==> i < s.end))
  {
    var g := Gap(cfg, text, i);
    if !g.To? || At(text, g.end) == close then g
    else if At(text, g.end) == ',' then Gap(cfg, text, g.end + 1)
    else Bad
  }

  /** Behind the closing bracket of an array, with items from `i` on. */
  function ItemsEnd(cfg: Config, text: string, i: nat): (s: Scan)
    requires i <= |text|
    ensures s.To? ==> i < s.end <= |text| && text[s.end - 1] == ']'
    decreases |text| - i, 1
  {
    if At(text, i) == ']' then To(i + 1)
    else
      var v := ValueEnd(cfg, text, i);
      if !v.To? then v
      else
        var n := NextEntry(cfg, text, v.end, ']');
        if n.To? then ItemsEnd(cfg, text, n.end) else Bad
  }

  /** Where the value of a member begins, whose name begins at `i`. */
  function NameEnd(cfg: Config, text: string, i: nat): (s: Scan)
    requires i <= |text|
    ensures !s.Stuck? && (s.To? ==> i < s.end <= |text|)
  {
    if At(text, i) != '"' then Bad
    else
      var q := StringEnd(text, i + 1);
      if !q.To? then Bad
      else
        var g := Gap(cfg, text, q.end);
        if g.To? && At(text, g.end) == ':' then Gap(cfg, text, g.end + 1) else Bad
  }

  /** Behind the closing brace of an object, with members from `i` on. */
  function MembersEnd(cfg: Config, text: string, i: nat): (s: Scan)
    requires i <= |text|
    ensures s.To? ==> i < s.end <= |text| && text[s.end - 1] == '}'
    decreases |text| - i, 1
  {
    if At(text, i) == '}' then To(i + 1)
    else
      var k := NameEnd(cfg, text, i);
      if !k.To? then Bad
      else
        var v := ValueEnd(cfg, text, k.end);
        if !v.To? then v
        else
          var n := NextEntry(cfg, text, v.end, '}');
          if n.To? then MembersEnd(cfg, text, n.end) else Bad
  }

  /** A value, with gaps around it, up to the end of the text or a zero byte. */
  function Document(cfg: Config, text: string): Scan {
    var a := Gap(cfg, text, 0);
    if !a.To? then Bad
    else
      var v := ValueEnd(cfg, text, a.end);
      if !v.To? then v
      else
        var b := Gap(cfg, text, v.end);
        if b.To? && At(text, b.end) == '\0' then b else Bad
  }
}
