/**
 The parsing machine of src/json.c.

 The parser walks the same text twice. The first pass creates the nodes and only counts what
 they will hold; the second takes the nodes in allocation order, gives each a block of the
 counted size and fills the blocks. `Step` is one iteration of the loop that both passes share.

 The node arena is a sequence in allocation order, so "next_alloc" of node i is i + 1 and a
 pointer to a node is its index. Every access the C code makes through a pointer or into a block
 is checked: one that would miss yields the outcome `Fault`.
 */
module JsonParser {

  const NONE: int := -1
  const UINT_MAX: nat := 0xFFFFFFFF - 8
  const INT_MAX: nat := 0x7FFF_FFFF

  /** The most members an object can have for the size of its entries to be an int. */
  const MAX_MEMBERS: nat := 89478485

  datatype Kind = KObject | KArray | KInteger | KDouble | KString | KBoolean | KNull

  /** An entry of an object (or, using only `value`, of an array). */
  datatype Slot = Slot(nameAt: nat, nameLen: nat, value: int)

  /** `length` and `names` are the counters of the first pass; `slots` and `mem` are the blocks of
      the second, `memAt` the place in `mem` where the next member name goes. */
  datatype Node = Node(kind: Kind, parent: int, integer: int, boolean: bool,
                       length: nat, names: nat, slots: seq<Slot>, mem: string, memAt: nat)

  /** The comment setting, and what freshly allocated, uninitialised memory happens to hold. */
  datatype Config = Config(comments: bool, junkChar: char, junkSlot: Slot)

  datatype Number = Number(negative: bool, zero: bool, e: bool, eGotSign: bool, eNegative: bool,
                           digits: nat, exp: nat)

  datatype Flags = Flags(needComma: bool, seekValue: bool, escaped: bool, inString: bool,
                         needColon: bool, done: bool, lineComment: bool, blockComment: bool)

  datatype State = State(ptr: nat, top: int, nodes: seq<Node>, alloc: nat, flags: Flags, num: Number, strLen: nat)

  /** `Hang` is a call of `ipow` with a negative exponent, which does not return, or with one that is no int. */
  datatype Outcome = Continue(s: State) | Accept(nodes: seq<Node>) | Reject | Hang | Fault

  const NoNumber := Number(false, false, false, false, false, 0, 0)

  function Start(nodes: seq<Node>): State {
    State(0, NONE, nodes, 0, Flags(false, true, false, false, false, false, false, false), NoNumber, 0)
  }

  // ----- characters -----

  /** The text is followed by a NUL, as C strings are. */
  function At(text: string, i: nat): char {
    if i < |text| then text[i] else '\0'
  }

  predicate IsDigit(c: char) { '0' <= c <= '9' }

  predicate IsSpace(c: char) { c == '\n' || c == ' ' || c == '\t' || c == '\r' }

  predicate IsNumberChar(c: char) {
    IsDigit(c) || c == '+' || c == '-' || c == 'e' || c == 'E' || c == '.'
  }

  function DigitValue(c: char): (d: nat)
    requires IsDigit(c)
    ensures d < 10
  {
    c as int - '0' as int
  }

  /** The value of a hexadecimal digit, 0xFF for anything else. */
  function HexValue(c: char): (v: nat)
    ensures v < 16 || v == 0xFF
  {
    if IsDigit(c) then c as int - '0' as int
    else if 'a' <= c <= 'f' then c as int - 'a' as int + 10
    else if 'A' <= c <= 'F' then c as int - 'A' as int + 10
    else 0xFF
  }

  predicate HexAt(text: string, i: nat)
    ensures HexAt(text, i) ==> i + 4 <= |text|
  {
    && HexValue(At(text, i)) != 0xFF
    && HexValue(At(text, i + 1)) != 0xFF
    && HexValue(At(text, i + 2)) != 0xFF
    && HexValue(At(text, i + 3)) != 0xFF
  }

  /** The 16-bit code unit written by the four digits at `i`. */
  function CodeAt(text: string, i: nat): (u: nat)
    requires HexAt(text, i)
    ensures u < 0x10000
  {
    HexValue(At(text, i)) * 4096 + HexValue(At(text, i + 1)) * 256
    + HexValue(At(text, i + 2)) * 16 + HexValue(At(text, i + 3))
  }

  predicate IsSurrogate(u: nat) { 0xD800 <= u < 0xE000 }

  /** The parser's way to put a surrogate pair together: the plane is OR-ed in, not added. */
  function PairCode(hi: nat, lo: nat): (u: nat)
    ensures 0x10000 <= u < 0x110000
  {
    var v := hi % 1024 * 1024 + lo % 1024;
    if v / 0x10000 % 2 == 1 then v else v + 0x10000
  }

  /** The bytes of a code point, one to four, each as the character with that code. */
  function Utf8(u: nat): (bytes: string)
    requires u < 0x110000
    ensures 1 <= |bytes| <= 4
  {
    if u <= 0x7F then [u as char]
    else if u <= 0x7FF then [(0xC0 + u / 64) as char, (0x80 + u % 64) as char]
    else if u <= 0xFFFF then
      [(0xE0 + u / 4096) as char, (0x80 + u / 64 % 64) as char, (0x80 + u % 64) as char]
    else
      [(0xF0 + u / 0x40000) as char, (0x80 + u / 4096 % 64) as char,
       (0x80 + u / 64 % 64) as char, (0x80 + u % 64) as char]
  }

  /** The character meant by a backslash followed by `c`. */
  function Unescape(c: char): char {
    match c
    case 'b' => '\U{0008}'
    case 'f' => '\U{000C}'
    case 'n' => '\n'
    case 'r' => '\r'
    case 't' => '\t'
    case _ => c
  }

  /** Arithmetic of the 64-bit accumulator. */
  function Wrap64(x: int): int {
    (x + 0x8000_0000_0000_0000) % 0x1_0000_0000_0000_0000 - 0x8000_0000_0000_0000
  }

  // ----- nodes -----

  predicate IsContainer(k: Kind) { k.KObject? || k.KArray? }

  predicate ValidTop(s: State) { 0 <= s.top < |s.nodes| }

  function SetTop(s: State, n: Node): (r: State)
    requires ValidTop(s)
  {
    s.(nodes := s.nodes[s.top := n])
  }

  /** A new node of the first pass. */
  function FreshNode(kind: Kind, parent: int): Node {
    Node(kind, parent, 0, false, 0, 0, [], "", 0)
  }

  /** Conversion to a 32-bit int. */
  function Int32(x: int): int { (x + 0x8000_0000) % 0x1_0000_0000 - 0x8000_0000 }

  /**
   Where the names start in the block of an object: behind the entries, of 24 bytes each where
   pointers have eight; but the size of all entries is held in an int.
   */
  function NamesAt(length: nat): int { Int32(24 * length) }

  /** So many members that the size of the entries has wrapped. */
  predicate Wrapped(length: nat) { NamesAt(length) != 24 * length }

  predicate Oversized(n: Node) { n.kind.KObject? && Wrapped(n.length) }

  /** How much is asked for such a block, with all names in it. */
  function BlockSize(length: nat, names: nat): nat { (NamesAt(length) + names) % 0x1_0000_0000_0000_0000 }

  /** No allocator has half of all memory to give. */
  predicate Refused(n: Node) { Oversized(n) && BlockSize(n.length, n.names) >= 0x8000_0000_0000_0000 }

  /** The names start before the block. */
  predicate Misplaced(n: Node) { Oversized(n) && NamesAt(n.length) < 0 }

  /** Entries that take `bytes` bytes go beyond the block. */
  predicate Spills(length: nat, names: nat, bytes: nat) { Wrapped(length) && bytes > BlockSize(length, names) }

  /**
   There is a next entry, and its first `bytes` bytes lie in the block: 12 for the name and its
   length, 24 with the value.
   */
  predicate HasRoom(n: Node, bytes: nat) {
    n.length < |n.slots| && !(n.kind.KObject? && Spills(|n.slots|, |n.mem|, 24 * n.length + bytes))
  }

  /**
   An allocation of the second pass has failed, and the unfinished document is freed from its root
   on: a root that has got no block still has its count, and entries are looked for at null.
   */
  function Refuse(s: State): Outcome { if s.alloc == 0 then Fault else Reject }

  /** The blocks that the second pass gives a node. */
  function WithBlocks(cfg: Config, n: Node): Node {
    match n.kind
    case KArray =>
      if n.length == 0 then n else n.(slots := seq(n.length, _ => cfg.junkSlot), length := 0)
    case KObject =>
      if n.length == 0 then n
      else n.(slots := seq(n.length, _ => cfg.junkSlot), mem := seq(n.names, _ => cfg.junkChar), memAt := 0, length := 0)
    case KString => n.(mem := seq(n.length + 1, _ => cfg.junkChar), length := 0)
    case _ => n
  }

  function NewValue(first: bool, cfg: Config, s: State, kind: Kind): (r: Outcome)
    ensures r.Continue? || r.Fault? || r.Reject?
    ensures r.Continue? ==> ValidTop(r.s) && r.s.ptr == s.ptr && r.s.flags == s.flags
    ensures first ==> r.Continue? && r.s.nodes[r.s.top].kind == kind
  {
    if first then
      Continue(s.(nodes := s.nodes + [FreshNode(kind, s.top)], top := |s.nodes|, alloc := |s.nodes| + 1))
    else if s.alloc < |s.nodes| then
      var n := s.nodes[s.alloc];
      if Refused(n) then Refuse(s)
      else if Misplaced(n) then Fault
      else Continue(s.(nodes := s.nodes[s.alloc := WithBlocks(cfg, n)], top := s.alloc, alloc := s.alloc + 1))
    else Fault
  }

  /** Writes `out` at the current place of the string being read. */
  function Poke(s: State, out: string): (r: Outcome)
    ensures r.Continue? || r.Fault?
    ensures r.Continue? ==> r.s.ptr == s.ptr && r.s.flags == s.flags && r.s.top == s.top && |r.s.nodes| == |s.nodes|
  {
    if !ValidTop(s) then Fault else
    var n := s.nodes[s.top];
    var at := (if n.kind.KObject? then n.memAt else 0) + s.strLen;
    if at + |out| > |n.mem| then Fault
    else Continue(SetTop(s, n.(mem := n.mem[..at] + out + n.mem[at + |out|..])))
  }

  /** string_add, for one to four bytes. */
  function AddChars(first: bool, s: State, out: string): (r: Outcome)
    ensures r.Continue? || r.Fault?
    ensures r.Continue? ==> r.s.ptr == s.ptr && r.s.flags == s.flags && r.s.top == s.top
  {
    if first then Continue(s.(strLen := s.strLen + |out|))
    else
      var r := Poke(s, out);
      if r.Continue? then Continue(r.s.(strLen := s.strLen + |out|)) else r
  }

  /** What happens when the value at `top` is complete ("flag_next"). */
  function Finish(first: bool, s: State): (r: Outcome)
    ensures r.Continue? ==> r.s.ptr == s.ptr
    ensures r.Continue? ==> r.s.flags == s.flags.(needComma := true, done := r.s.flags.done, seekValue := r.s.flags.seekValue)
    ensures !r.Accept?
  {
    if !ValidTop(s) then Fault else
    var p := s.nodes[s.top].parent;
    if p == NONE then Continue(s.(flags := s.flags.(needComma := true, done := true)))
    else if !(0 <= p < |s.nodes|) then Fault else
    var n := s.nodes[p];
    if !first && !HasRoom(n, 24) then Fault else
    var n' := if first then n else n.(slots := n.slots[n.length := n.slots[n.length].(value := s.top)]);
    if n.length + 1 > UINT_MAX then Reject
    else Continue(s.(nodes := s.nodes[p := n'.(length := n.length + 1)], top := p, flags := s.flags.(needComma := true, seekValue := s.flags.seekValue || n.kind.KArray?)))
  }

  // ----- one iteration of the loop, by mode -----

  datatype Decoded = Malformed | Chars(next: nat, out: string)

  /** What the escape whose letter is at `i` stands for, and where it ends. */
  function DecodeEscape(text: string, i: nat): (d: Decoded)
    requires i < |text|
    ensures d.Chars? ==> i < d.next <= |text| && 1 <= |d.out| <= 4
  {
    if text[i] != 'u' then Chars(i + 1, [Unescape(text[i])])
    else if |text| - i < 4 || !HexAt(text, i + 1) then Malformed else
    var u := CodeAt(text, i + 1);
    if !IsSurrogate(u) then Chars(i + 5, Utf8(u))
    else if |text| - (i + 4) < 6 || At(text, i + 5) != '\\' || At(text, i + 6) != 'u' || !HexAt(text, i + 7) then Malformed
    else Chars(i + 11, Utf8(PairCode(u, CodeAt(text, i + 7))))
  }

  function EscapeStep(first: bool, text: string, s: State): (r: Outcome)
    requires s.ptr < |text|
    ensures !r.Accept?
  {
    match DecodeEscape(text, s.ptr)
    case Malformed => Reject
    case Chars(next, out) => AddChars(first, s.(ptr := next, flags := s.flags.(escaped := false)), out)
  }

  /** The closing quote. */
  function CloseString(first: bool, s: State): (r: Outcome)
    ensures !r.Accept?
  {
    var closed := if first then Continue(s) else Poke(s, "\0");
    if closed.Fault? || !ValidTop(s) then Fault else
    var s1 := closed.s.(ptr := s.ptr + 1, flags := closed.s.flags.(inString := false));
    var n := s1.nodes[s1.top];
    match n.kind
    case KString => Finish(first, SetTop(s1, n.(length := s.strLen)))
    case KObject =>
      var s2 := s1.(flags := s1.flags.(seekValue := true, needColon := true));
      if first then Continue(SetTop(s2, n.(names := n.names + s.strLen + 1)))
      else if !HasRoom(n, 12) then Fault
      else
        var slot := n.slots[n.length].(nameAt := n.memAt, nameLen := s.strLen);
        Continue(SetTop(s2, n.(slots := n.slots[n.length := slot], memAt := n.memAt + s.strLen + 1)))
    case _ => Fault
  }

  function StringStep(first: bool, text: string, s: State): (r: Outcome)
    ensures !r.Accept?
  {
    var b := At(text, s.ptr);
    if b == '\0' then Reject
    else if s.strLen > UINT_MAX then Reject
    else if s.flags.escaped then EscapeStep(first, text, s)
    else if b == '\\' then Continue(s.(ptr := s.ptr + 1, flags := s.flags.(escaped := true)))
    else if b == '"' then CloseString(first, s)
    else AddChars(first, s.(ptr := s.ptr + 1), [b])
  }

  /** Inside a comment. The end of a line comment is looked at again, so that a NUL is not lost. */
  function CommentStep(text: string, s: State): (r: Outcome) {
    var b := At(text, s.ptr);
    if s.flags.lineComment then
      if b == '\r' || b == '\n' || b == '\0' then Continue(s.(flags := s.flags.(lineComment := false)))
      else Continue(s.(ptr := s.ptr + 1))
    else if b == '\0' then Reject
    else if b == '*' && s.ptr + 1 < |text| && text[s.ptr + 1] == '/' then
      Continue(s.(ptr := s.ptr + 2, flags := s.flags.(blockComment := false)))
    else Continue(s.(ptr := s.ptr + 1))
  }

  function CommentOpen(text: string, s: State): (r: Outcome) {
    if !(s.flags.seekValue || s.flags.done) && !ValidTop(s) then Fault
    else if !(s.flags.seekValue || s.flags.done) && !s.nodes[s.top].kind.KObject? then Reject
    else if s.ptr + 1 >= |text| then Reject
    else if text[s.ptr + 1] == '/' then Continue(s.(ptr := s.ptr + 2, flags := s.flags.(lineComment := true)))
    else if text[s.ptr + 1] == '*' then Continue(s.(ptr := s.ptr + 2, flags := s.flags.(blockComment := true)))
    else Reject
  }

  function DoneStep(text: string, s: State): (r: Outcome) {
    var b := At(text, s.ptr);
    if b == '\0' then Accept(s.nodes)
    else if IsSpace(b) then Continue(s.(ptr := s.ptr + 1))
    else Reject
  }

  /** The end of a run of characters that may occur in a number. */
  function SkipNumber(text: string, i: nat): (q: nat)
    requires i <= |text|
    ensures i <= q <= |text|
    ensures forall k :: i <= k < q ==> IsNumberChar(text[k])
    ensures q < |text| ==> !IsNumberChar(text[q])
    decreases |text| - i
  {
    if i < |text| && IsNumberChar(text[i]) then SkipNumber(text, i + 1) else i
  }

  predicate Word(text: string, i: nat, w: string) {
    forall k :: 0 <= k < |w| ==> At(text, i + k) == w[k]
  }

  function Literal(first: bool, cfg: Config, text: string, s: State, word: string, kind: Kind, truth: bool): (r: Outcome)
    ensures !r.Accept?
  {
    if !Word(text, s.ptr, word) then Reject else
    var r := NewValue(first, cfg, s, kind);
    if !r.Continue? then r
    else
      var n := r.s.nodes[r.s.top];
      Finish(first, SetTop(r.s, n.(boolean := truth || n.boolean)).(ptr := s.ptr + |word|))
  }

  function NumberStart(first: bool, cfg: Config, text: string, s: State): (r: Outcome)
    requires s.ptr <= |text|
    ensures !r.Accept?
  {
    var b := At(text, s.ptr);
    var r := NewValue(first, cfg, s, KInteger);
    if !r.Continue? then r
    else if !first then Finish(first, r.s.(ptr := SkipNumber(text, s.ptr)))
    else if b == '-' then Continue(r.s.(num := NoNumber.(negative := true), ptr := s.ptr + 1))
    else Continue(r.s.(num := NoNumber))
  }

  function SeekStep(first: bool, cfg: Config, text: string, s: State): (r: Outcome)
    requires s.ptr <= |text|
    ensures !r.Accept?
  {
    var b := At(text, s.ptr);
    if IsSpace(b) then Continue(s.(ptr := s.ptr + 1))
    else if b == ']' then
      if ValidTop(s) && s.nodes[s.top].kind.KArray? then
        Finish(first, s.(ptr := s.ptr + 1, flags := s.flags.(needComma := false, seekValue := false)))
      else Reject
    else if s.flags.needComma then
      if b == ',' then Continue(s.(ptr := s.ptr + 1, flags := s.flags.(needComma := false))) else Reject
    else if s.flags.needColon then
      if b == ':' then Continue(s.(ptr := s.ptr + 1, flags := s.flags.(needColon := false))) else Reject
    else
      var s' := s.(flags := s.flags.(seekValue := false));
      match b
      case '{' =>
        NewValue(first, cfg, s'.(ptr := s.ptr + 1), KObject)
      case '[' =>
        NewValue(first, cfg, s'.(ptr := s.ptr + 1, flags := s'.flags.(seekValue := true)), KArray)
      case '"' =>
        NewValue(first, cfg, s'.(strLen := 0, ptr := s.ptr + 1, flags := s'.flags.(inString := true)), KString)
      case 't' => Literal(first, cfg, text, s', "true", KBoolean, true)
      case 'f' => Literal(first, cfg, text, s', "false", KBoolean, false)
      case 'n' => Literal(first, cfg, text, s', "null", KNull, false)
      case _ =>
        if IsDigit(b) || b == '-' then NumberStart(first, cfg, text, s') else Reject
  }

  function ObjectStep(first: bool, text: string, s: State): (r: Outcome)
    ensures !r.Accept?
  {
    var b := At(text, s.ptr);
    var s' := s.(ptr := s.ptr + 1);
    if IsSpace(b) then Continue(s')
    else if b == '"' then
      if s.flags.needComma then Reject else Continue(s'.(strLen := 0, flags := s'.flags.(inString := true)))
    else if b == '}' then Finish(first, s'.(flags := s'.flags.(needComma := false)))
    else if b == ',' && s.flags.needComma then Continue(s'.(flags := s'.flags.(needComma := false)))
    else Reject
  }

  function DigitStep(s: State, b: char): (r: Outcome)
    requires ValidTop(s) && IsDigit(b)
  {
    var n := s.nodes[s.top];
    var num := s.num.(digits := s.num.digits + 1);
    var s' := s.(ptr := s.ptr + 1);
    if num.e then
      Continue(s'.(num := num.(eGotSign := true, exp := num.exp * 10 + DigitValue(b))))
    else if n.kind.KDouble? then Continue(s'.(num := num))
    else if num.zero then Reject
    else
      Continue(SetTop(s', n.(integer := Wrap64(n.integer * 10 + DigitValue(b))))
                 .(num := num.(zero := num.digits == 1 && b == '0')))
  }

  /** The number with its sign. */
  function Signed(s: State): State
    requires ValidTop(s)
  {
    var n := s.nodes[s.top];
    if s.num.negative && n.kind.KInteger? then SetTop(s, n.(integer := Wrap64(-n.integer))) else s
  }

  /** The character that ends a number is not consumed. */
  function NumberEnd(first: bool, s: State): (r: Outcome)
    requires ValidTop(s)
    ensures !r.Accept?
  {
    if s.num.e && s.num.digits == 0 then Reject
    else if s.num.e && ((s.num.eNegative && s.num.exp > 0) || s.num.exp > INT_MAX) then Hang
    else Finish(first, Signed(s))
  }

  function NumberStep(first: bool, text: string, s: State): (r: Outcome)
    requires ValidTop(s)
    ensures !r.Accept?
  {
    var b := At(text, s.ptr);
    var n := s.nodes[s.top];
    var s' := s.(ptr := s.ptr + 1);
    if IsDigit(b) then DigitStep(s, b)
    else if (b == '+' || b == '-') && s.num.e && !s.num.eGotSign then
      Continue(s'.(num := s.num.(eGotSign := true, eNegative := s.num.eNegative || b == '-')))
    else if b == '.' && n.kind.KInteger? then
      if s.num.digits == 0 then Reject
      else Continue(SetTop(s', n.(kind := KDouble)).(num := s.num.(digits := 0)))
    else if !s.num.e && n.kind.KDouble? && s.num.digits == 0 then Reject
    else if !s.num.e && n.kind.KDouble? && s.num.digits > INT_MAX then Hang
    else if !s.num.e && (b == 'e' || b == 'E') then
      Continue(SetTop(s', n.(kind := KDouble)).(num := s.num.(e := true, digits := 0, zero := false)))
    else NumberEnd(first, s)
  }

  predicate InNumber(s: State) {
    && !s.flags.inString && !s.flags.done && !s.flags.seekValue && !s.flags.needComma && ValidTop(s)
    && (s.nodes[s.top].kind.KInteger? || s.nodes[s.top].kind.KDouble?)
  }

  function Step(first: bool, cfg: Config, text: string, s: State): (r: Outcome)
    requires s.ptr <= |text|
  {
    if s.flags.inString then StringStep(first, text, s)
    else if cfg.comments && (s.flags.lineComment || s.flags.blockComment) then CommentStep(text, s)
    else if cfg.comments && At(text, s.ptr) == '/' then CommentOpen(text, s)
    else if s.flags.done then DoneStep(text, s)
    else if s.flags.seekValue then SeekStep(first, cfg, text, s)
    else if !ValidTop(s) then Fault
    else if s.nodes[s.top].kind.KObject? then ObjectStep(first, text, s)
    else if InNumber(s) then NumberStep(first, text, s)
    else Fault
  }

  // ----- the loop -----

  /** Iterations that leave `ptr` where it is lower the rank. */
  function Rank(cfg: Config, s: State): nat {
    if cfg.comments && s.flags.lineComment then 3
    else if InNumber(s) then 1
    else if s.flags.seekValue && !s.flags.needComma then 2
    else 0
  }

  function Measure(cfg: Config, text: string, s: State): nat
    requires s.ptr <= |text|
  {
    4 * (|text| - s.ptr) + Rank(cfg, s)
  }

  lemma WordFits(text: string, i: nat, w: string)
    requires w != "" && w[|w| - 1] != '\0'
    ensures Word(text, i, w) ==> i + |w| <= |text|
  {
    if Word(text, i, w) {
      assert At(text, i + (|w| - 1)) == w[|w| - 1];
    }
  }

  lemma EscapeProgress(first: bool, text: string, s: State)
    requires s.ptr < |text|
    ensures var r := EscapeStep(first, text, s);
            r.Continue? ==> s.ptr < r.s.ptr <= |text| && r.s.flags.lineComment == s.flags.lineComment
  {
    hide DecodeEscape, AddChars;
  }

  lemma CloseProgress(first: bool, s: State)
    ensures var r := CloseString(first, s);
            r.Continue? ==> r.s.ptr == s.ptr + 1 && r.s.flags.lineComment == s.flags.lineComment
  {
    hide Finish, Poke;
  }

  lemma StringProgress(first: bool, text: string, s: State)
    requires s.ptr <= |text|
    ensures var r := StringStep(first, text, s);
            r.Continue? ==> s.ptr < r.s.ptr <= |text| && r.s.flags.lineComment == s.flags.lineComment
  {
    hide EscapeStep, CloseString, AddChars;
    if s.ptr < |text| {
      EscapeProgress(first, text, s);
      CloseProgress(first, s);
    }
  }

  lemma LiteralProgress(first: bool, cfg: Config, text: string, s: State, word: string, kind: Kind, truth: bool)
    requires s.ptr <= |text| && word != "" && word[|word| - 1] != '\0'
    ensures var r := Literal(first, cfg, text, s, word, kind, truth);
            r.Continue? ==> s.ptr < r.s.ptr <= |text| && r.s.flags.lineComment == s.flags.lineComment
  {
    hide NewValue, Finish;
    WordFits(text, s.ptr, word);
  }

  lemma NumberStartProgress(first: bool, cfg: Config, text: string, s: State)
    requires s.ptr < |text| && !s.flags.inString && !s.flags.done && !s.flags.seekValue && !s.flags.needComma
    ensures var r := NumberStart(first, cfg, text, s);
            r.Continue? ==>
              && s.ptr <= r.s.ptr <= |text| && r.s.flags.lineComment == s.flags.lineComment
              && (InNumber(r.s) || r.s.flags.needComma)
  {
    hide NewValue, Finish;
  }

  lemma SeekProgress(first: bool, cfg: Config, text: string, s: State)
    requires s.ptr <= |text| && !s.flags.inString && !s.flags.done && s.flags.seekValue
    ensures var r := SeekStep(first, cfg, text, s);
            r.Continue? ==>
              && s.ptr <= r.s.ptr <= |text| && r.s.flags.lineComment == s.flags.lineComment
              && (r.s.ptr == s.ptr ==> !s.flags.needComma && (InNumber(r.s) || r.s.flags.needComma))
  {
    hide NewValue, Finish, Literal, NumberStart;
    var b := At(text, s.ptr);
    var s' := s.(flags := s.flags.(seekValue := false));
    if IsSpace(b) || b == ']' || s.flags.needComma || s.flags.needColon {
    } else if IsDigit(b) || b == '-' {
      NumberStartProgress(first, cfg, text, s');
    } else {
      LiteralProgress(first, cfg, text, s', "true", KBoolean, true);
      LiteralProgress(first, cfg, text, s', "false", KBoolean, false);
      LiteralProgress(first, cfg, text, s', "null", KNull, false);
    }
  }

  lemma StepProgress(first: bool, cfg: Config, text: string, s: State)
    requires s.ptr <= |text|
    ensures var r := Step(first, cfg, text, s);
            r.Continue? ==> s.ptr <= r.s.ptr <= |text| && Measure(cfg, text, r.s) < Measure(cfg, text, s)
  {
    hide StringStep, SeekStep, Finish;
    if s.flags.inString {
      StringProgress(first, text, s);
    } else if cfg.comments && (s.flags.lineComment || s.flags.blockComment || At(text, s.ptr) == '/') {
    } else if s.flags.done {
    } else if s.flags.seekValue {
      SeekProgress(first, cfg, text, s);
    } else if ValidTop(s) && s.nodes[s.top].kind.KObject? {
    } else {
    }
  }

  /** One whole pass from state `s`. */
  function Run(first: bool, cfg: Config, text: string, s: State): (r: Outcome)
    requires s.ptr <= |text|
    ensures !r.Continue?
    decreases Measure(cfg, text, s)
  {
    StepProgress(first, cfg, text, s);
    match Step(first, cfg, text, s)
    case Continue(s') => Run(first, cfg, text, s')
    case r => r
  }

  lemma RunStep(first: bool, cfg: Config, text: string, s: State)
    requires s.ptr <= |text|
    ensures var r := Step(first, cfg, text, s);
            if r.Continue? then s.ptr <= r.s.ptr <= |text| && Run(first, cfg, text, s) == Run(first, cfg, text, r.s)
            else Run(first, cfg, text, s) == r
  {
    hide Step;
    StepProgress(first, cfg, text, s);
  }

  /** Both passes. The byte-order mark is skipped first. */
  function Parse(cfg: Config, json: string): (r: Outcome) {
    var text := SkipMark(json);
    match Run(true, cfg, text, Start([]))
    case Accept(nodes) => Run(false, cfg, text, Start(nodes))
    case r => r
  }

  function SkipMark(json: string): string {
    if |json| >= 3 && json[0] == 0xEF as char && json[1] == 0xBB as char && json[2] == 0xBF as char
    then json[3..] else json
  }
}
