/**
 The regular expression matcher of src/slre.c: three functions that call one another, over a
 regex whose brackets and branches have been found beforehand. They come to an end, and the match
 they report stays within the text, or one past it where a set is matched at the very end.
 */
module Slre {

  const NO_MATCH := -1
  const UNEXPECTED_QUANTIFIER := -2
  const UNBALANCED_BRACKETS := -3
  const INTERNAL_ERROR := -4
  const INVALID_CHARACTER_SET := -5
  const INVALID_METACHARACTER := -6
  const CAPS_ARRAY_TOO_SMALL := -7
  const TOO_MANY_BRANCHES := -8
  const TOO_MANY_BRACKETS := -9

  const MAX_BRANCHES: nat := 100
  const MAX_BRACKETS: nat := 100

  /** A NUL-terminated string: past its end one reads zero. */
  function At(s: seq<char>, k: int): char { if 0 <= k < |s| then s[k] else '\0' }

  /** `ptr` and `schlong` are offsets into the regex. */
  datatype Bracket = Bracket(ptr: nat, len: int, branches: nat, numBranches: nat)

  datatype Branch = Branch(bracketIndex: int, schlong: nat)

  datatype Cap = Cap(ptr: nat, len: nat)

  class Info {
    /** The brackets found, and then what the rest of the array holds. */
    var brackets: seq<Bracket>
    var numBrackets: nat
    var branches: seq<Branch>
    var caps: map<int, Cap>
    const hasCaps: bool
    const ignoreCase: bool

    constructor (hasCaps: bool, ignoreCase: bool, rest: seq<Bracket>)
      requires |rest| == MAX_BRACKETS + 1
      ensures brackets == rest && numBrackets == 0 && branches == [] && caps == map[]
    {
      brackets, numBrackets, branches, caps := rest, 0, [], map[];
      this.hasCaps, this.ignoreCase := hasCaps, ignoreCase;
    }

    /** What parsing leaves: every bracket's branches are in the table. */
    ghost predicate Parsed()
      reads this
    {
      && 0 < numBrackets <= MAX_BRACKETS < |brackets|
      && forall k :: 0 <= k < numBrackets ==> brackets[k].branches + brackets[k].numBranches <= |branches|
    }

    /** Every capture lies in the text, or ends one past it. */
    ghost predicate CapsWithin(total: nat)
      reads this
    {
      forall k :: k in caps ==> caps[k].ptr + caps[k].len <= total + 1
    }
  }

  // ----- small pieces -----

  function OpLen(re: seq<char>, r: nat): (n: nat)
    ensures 1 <= n <= 4
  {
    if At(re, r) == '\\' && At(re, r + 1) == 'x' then 4 else if At(re, r) == '\\' then 2 else 1
  }

  predicate IsQuantifier(c: char) { c == '*' || c == '+' || c == '?' }

  predicate IsDigit(c: char) { '0' <= c <= '9' }

  predicate IsSpace(c: char) { c == ' ' || 9 as char <= c <= 13 as char }

  function ToLower(c: char): char { if 'A' <= c <= 'Z' then c - 'A' + 'a' else c }

  function Toi(c: char): int { if IsDigit(c) then c as int - '0' as int else c as int - 'W' as int }

  /** For hexadecimal digits, which parsing has made sure of, the two halves do not overlap. */
  function Hextoi(a: char, b: char): int { Toi(ToLower(a)) * 16 + Toi(ToLower(b)) }

  /** How far the operators of a set reach before its closing bracket or the end. */
  function SetEnd(re: seq<char>, r: nat, reLen: int, len: nat): (n: nat)
    ensures n >= len && (n < reLen ==> At(re, r + n) == ']')
    ensures forall k :: len <= k < n && StartsOp(re, r, len, k) ==> At(re, r + k) != ']'
    decreases reLen - len
  {
    if len < reLen && At(re, r + len) != ']' then SetEnd(re, r, reLen, len + OpLen(re, r + len)) else len
  }

  /** Whether an operator of the set starts at `k`, given that one starts at `len`. */
  predicate StartsOp(re: seq<char>, r: nat, len: nat, k: nat)
    decreases k - len
  {
    len == k || (len < k && StartsOp(re, r, len + OpLen(re, r + len), k))
  }

  /** A set that an operator cut short by the end of the regex keeps from being closed. */
  predicate Unclosed(re: seq<char>, r: nat, reLen: int) { SetEnd(re, r, reLen, 0) > reLen }

  /** set_len: past the closing bracket, or -1. */
  method SetLen(re: seq<char>, r: nat, reLen: int) returns (n: int)
    ensures n == if Unclosed(re, r, reLen) then -1 else SetEnd(re, r, reLen, 0) + 1
    ensures n != -1 && n != reLen + 1 ==> n > 0 && At(re, r + n - 1) == ']'
  {
    var len := 0;
    while len < reLen && At(re, r + len) != ']'
      invariant SetEnd(re, r, reLen, len) == SetEnd(re, r, reLen, 0)
      decreases reLen - len
    {
      len := len + OpLen(re, r + len);
    }
    n := if len <= reLen then len + 1 else -1;
  }

  /** get_op_len: 0 exactly at a set that is never closed. */
  method GetOpLen(re: seq<char>, r: nat, reLen: int) returns (n: int)
    ensures n >= 0 && (n == 0 <==> At(re, r) == '[' && Unclosed(re, r + 1, reLen - 1))
    ensures n == StepLen(re, r, reLen)
  {
    if At(re, r) == '[' {
      var k := SetLen(re, r + 1, reLen - 1);
      return k + 1;
    }
    n := OpLen(re, r);
  }

  function StepLen(re: seq<char>, r: nat, reLen: int): nat {
    if At(re, r) != '[' then OpLen(re, r)
    else if Unclosed(re, r + 1, reLen - 1) then 0
    else SetEnd(re, r + 1, reLen - 1, 0) + 2
  }

  /** match_op: one character, or an error. */
  function MatchOp(re: seq<char>, r: nat, c: char, ignoreCase: bool): (n: int)
    ensures n == 1 || n == NO_MATCH || n == INTERNAL_ERROR
  {
    var m := At(re, r + 1);
    var no := NO_MATCH;
    match At(re, r)
    case '\\' =>
      if m == 'S' then (if IsSpace(c) then no else 1)
      else if m == 's' then (if IsSpace(c) then 1 else no)
      else if m == 'd' then (if IsDigit(c) then 1 else no)
      else if m == 'b' then (if c == 8 as char then 1 else no)
      else if m == 'f' then (if c == 12 as char then 1 else no)
      else if m == 'n' then (if c == '\n' then 1 else no)
      else if m == 'r' then (if c == '\r' then 1 else no)
      else if m == 't' then (if c == '\t' then 1 else no)
      else if m == 'v' then (if c == 11 as char then 1 else no)
      else if m == 'x' then (if Hextoi(At(re, r + 2), At(re, r + 3)) == c as int then 1 else no)
      else if m == c then 1 else no
    case '|' => INTERNAL_ERROR
    case '$' => no
    case '.' => 1
    case x => if (if ignoreCase then ToLower(x) == ToLower(c) else x == c) then 1 else no
  }

  /** match_set: 1 or -1. */
  method MatchSet(re: seq<char>, r0: nat, reLen0: int, c: char, ignoreCase: bool) returns (n: int)
    ensures n == 1 || n == -1
  {
    var r, reLen, len, result := r0, reLen0, 0, -1;
    var invert := At(re, r) == '^';
    if invert {
      r, reLen := r + 1, reLen - 1;
    }
    while len <= reLen && At(re, r + len) != ']' && result <= 0
      decreases reLen - len
    {
      var lo, hi := At(re, r + len), At(re, r + len + 2);
      if lo != '-' && At(re, r + len + 1) == '-' && hi != ']' && hi != '\0' {
        var inside := if ignoreCase then ToLower(lo) <= ToLower(c) <= ToLower(hi) else lo <= c <= hi;
        result := if inside then 1 else 0;
        len := len + 3;
      } else {
        result := MatchOp(re, r + len, c, ignoreCase);
        len := len + OpLen(re, r + len);
      }
    }
    n := if (!invert && result > 0) || (invert && result <= 0) then 1 else -1;
  }

  function Max(a: int, b: int): int { if a < b then b else a }

  // ----- matching -----

  /** How far a match in a text of `sLen` characters may reach: one further with sets in the regex. */
  function Reach(re: seq<char>, sLen: int): int { if '[' in re then sLen + 1 else Max(sLen, 0) }

  /** doh: the branches of bracket `bi`, one after another. */
  method Doh(re: seq<char>, s: seq<char>, at: nat, sLen: int, info: Info, bi: nat) returns (result: int)
    requires info.Parsed() && bi < info.numBrackets && -1 <= sLen && at + sLen <= |s| && info.CapsWithin(|s|)
    modifies info`caps
    ensures result <= Reach(re, sLen) && info.CapsWithin(|s|)
    decreases info.numBrackets - bi, 1, 0
  {
    var b := info.brackets[bi];
    var i := 0;
    while true
      invariant i <= b.numBranches && info.CapsWithin(|s|)
      decreases b.numBranches - i
    {
      var p := if i == 0 then b.ptr else info.branches[b.branches + i - 1].schlong + 1;
      var len :=
        if b.numBranches == 0 then b.len
        else if i == b.numBranches then b.ptr + b.len - p
        else info.branches[b.branches + i].schlong - p;
      result := Bar(re, p, len, s, at, sLen, info, bi);
      if result > 0 || i >= b.numBranches {
        return;
      }
      i := i + 1;
    }
  }

  /** bar: a run of the regex, from `r` on, over the text from `at` on; `first` is the bracket it lies in. */
  method Bar(re: seq<char>, r: nat, reLen: int, s: seq<char>, at: nat, sLen: int, info: Info, first: nat) returns (result: int)
    requires info.Parsed() && first < info.numBrackets && -1 <= sLen && at + sLen <= |s| && info.CapsWithin(|s|)
    modifies info`caps
    ensures result <= Reach(re, sLen) && info.CapsWithin(|s|)
    decreases info.numBrackets - first, 0, Max(reLen, 0)
  {
    var i, j, bi := 0, 0, first;
    while i < reLen && j <= sLen
      invariant 0 <= i && 0 <= j <= Reach(re, sLen) && j <= sLen + 1 && first <= bi < info.numBrackets && info.CapsWithin(|s|)
      decreases reLen - i
    {
      var c := At(re, r + i);
      var step;
      if c == '(' {
        step := info.brackets[bi + 1].len + 2;
      } else {
        step := GetOpLen(re, r + i, reLen - i);
      }
      if IsQuantifier(c) {
        return UNEXPECTED_QUANTIFIER;
      }
      if step <= 0 {
        return INVALID_CHARACTER_SET;
      }
      if i + step < reLen && IsQuantifier(At(re, r + i + step)) {
        if At(re, r + i + step) == '?' {
          var n := Bar(re, r + i, step, s, at + j, sLen - j, info, bi);
          j := j + if n > 0 then n else 0;
          i := i + 1 + step;
          continue;
        }
        result := Repeat(re, r + i, step, reLen - i, s, at + j, sLen - j, info, bi);
        if result >= 0 {
          result := result + j;
        }
        return;
      }
      if c == '[' {
        var n := MatchSet(re, r + i + 1, reLen - (i + 2), At(s, at + j), info.ignoreCase);
        if n <= 0 {
          return NO_MATCH;
        }
        j := j + n;
      } else if c == '(' {
        bi := bi + 1;
        if bi >= info.numBrackets {
          return INTERNAL_ERROR;
        }
        var n := Group(re, r + i + step, reLen - (i + step), s, at + j, sLen - j, info, bi);
        if n < 0 {
          return n;
        }
        if info.hasCaps && n > 0 {
          info.caps := info.caps[bi - 1 := Cap(at + j, n)];
        }
        j := j + n;
      } else if c == '^' {
        if j != 0 {
          return NO_MATCH;
        }
      } else if c == '$' {
        if j != sLen {
          return NO_MATCH;
        }
      } else {
        if j >= sLen {
          return NO_MATCH;
        }
        var n := MatchOp(re, r + i, At(s, at + j), info.ignoreCase);
        if n <= 0 {
          return n;
        }
        j := j + n;
      }
      i := i + step;
    }
    result := j;
  }

  /**
   The part of bar for a bracket: its match, shortened until what follows it in the regex, from
   `r` on, matches too.
   */
  method Group(re: seq<char>, r: nat, reLen: int, s: seq<char>, at: nat, sLen: int, info: Info, bi: nat) returns (n: int)
    requires info.Parsed() && bi < info.numBrackets && 0 <= sLen && at + sLen <= |s| && info.CapsWithin(|s|)
    modifies info`caps
    ensures n <= Reach(re, sLen) && info.CapsWithin(|s|)
    decreases info.numBrackets - bi, 2, 0
  {
    n := NO_MATCH;
    if reLen <= 0 {
      n := Doh(re, s, at, sLen, info, bi);
      return;
    }
    var j2 := 0;
    while j2 <= sLen
      invariant n <= Reach(re, sLen) && info.CapsWithin(|s|)
    {
      n := Doh(re, s, at, sLen - j2, info, bi);
      if n >= 0 {
        var rest := Bar(re, r, reLen, s, at + n, sLen - n, info, bi);
        if rest >= 0 {
          return;
        }
      }
      j2 := j2 + 1;
    }
  }

  /**
   The part of bar for a star or plus: the `step` characters at `r`, as often as they match, with
   what follows the quantifier tried each time.
   */
  method Repeat(re: seq<char>, r: nat, step: nat, reLen: int, s: seq<char>, at: nat, sLen: int, info: Info, bi: nat)
    returns (nj: int)
    requires info.Parsed() && bi < info.numBrackets && 0 <= sLen && at + sLen <= |s| && info.CapsWithin(|s|)
    requires 0 < step < reLen
    modifies info`caps
    ensures nj <= Reach(re, sLen) && info.CapsWithin(|s|)
    decreases info.numBrackets - bi, 0, Max(reLen, 0), 0
  {
    var plus := At(re, r + step) == '+';
    var j2, n1, n2, ni, nonGreedy := 0, 0, -1, step + 1, false;
    nj := 0;
    if ni < reLen && At(re, r + ni) == '?' {
      nonGreedy, ni := true, ni + 1;
    }
    var go := true;
    while go
      invariant 0 <= j2 <= sLen + 1 && j2 <= Reach(re, sLen) && 0 <= nj <= Reach(re, sLen) && info.CapsWithin(|s|)
      decreases go, sLen + 1 - j2
    {
      n1 := Bar(re, r, step, s, at + j2, sLen - j2, info, bi);
      if n1 > 0 {
        j2 := j2 + n1;
      }
      if plus && n1 < 0 {
        break;
      }
      if ni >= reLen {
        nj := j2;
      } else {
        n2 := Bar(re, r + ni, reLen - ni, s, at + j2, sLen - j2, info, bi);
        if n2 >= 0 {
          nj := j2 + n2;
        }
      }
      if nj > 0 && nonGreedy {
        break;
      }
      go := n1 > 0;
    }
    if n1 < 0 && n2 < 0 && !plus {
      n2 := Bar(re, r + ni, reLen - ni, s, at, sLen, info, bi);
      if n2 > 0 {
        nj := n2;
      }
    }
    if plus && nj == 0 {
      return NO_MATCH;
    }
    if nj == 0 && ni < reLen && n2 < 0 {
      return NO_MATCH;
    }
  }

  /** baz: the first place in the text from which the whole regex matches. */
  method Baz(re: seq<char>, s: seq<char>, info: Info) returns (result: int)
    requires info.Parsed() && info.CapsWithin(|s|)
    modifies info`caps
    ensures result <= Reach(re, |s|) && info.CapsWithin(|s|)
  {
    result := -1;
    var anchored := At(re, info.brackets[0].ptr) == '^';
    var i := 0;
    while i <= |s|
      invariant result < 0 && info.CapsWithin(|s|)
    {
      result := Doh(re, s, i, |s| - i, info, 0);
      if result >= 0 {
        result := result + i;
        return;
      }
      if anchored {
        return;
      }
      i := i + 1;
    }
  }

  // ----- parsing -----

  predicate IsMetacharacter(c: char) { c in "^$().[]*+?|\\Ssdbfnrtv\0" }

  predicate IsHexDigit(c: char) { IsDigit(c) || 'a' <= ToLower(c) <= 'f' }

  predicate Sorted(s: seq<Branch>) { forall i, j :: 0 <= i < j < |s| ==> s[i].bracketIndex <= s[j].bracketIndex }

  lemma Swapped(s: seq<Branch>, i: nat, j: nat)
    requires i < j < |s|
    ensures multiset(s[i := s[j]][j := s[i]]) == multiset(s)
  {
  }

  /** The inner loop of the sort: the least of the branches from `i` on comes to `i`. */
  method Settle(rest: seq<Branch>) returns (r: seq<Branch>)
    requires rest != []
    ensures |r| == |rest| && multiset(r) == multiset(rest)
    ensures forall b :: 0 <= b < |r| ==> r[0].bracketIndex <= r[b].bracketIndex
  {
    r := rest;
    var j := 1;
    while j < |r|
      invariant 0 < j <= |r| && |r| == |rest| && multiset(r) == multiset(rest)
      invariant forall b :: 0 <= b < j ==> r[0].bracketIndex <= r[b].bracketIndex
    {
      if r[0].bracketIndex > r[j].bracketIndex {
        Swapped(r, 0, j);
        r := r[0 := r[j]][j := r[0]];
      }
      j := j + 1;
    }
  }

  /** The sorting loop of setup_branch_points. */
  method SortBranches(branches: seq<Branch>) returns (r: seq<Branch>)
    ensures Sorted(r) && multiset(r) == multiset(branches)
  {
    r := branches;
    var i := 0;
    while i < |r|
      invariant i <= |r| && |r| == |branches| && multiset(r) == multiset(branches)
      invariant Sorted(r[..i]) && (forall a, b :: 0 <= a < i <= b < |r| ==> r[a].bracketIndex <= r[b].bracketIndex)
    {
      ghost var was := r;
      var rest := Settle(r[i..]);
      assert was == was[..i] + was[i..];
      r := r[..i] + rest;
      Settled(was, rest, i);
      i := i + 1;
    }
    assert r[..i] == r;
  }

  lemma Settled(was: seq<Branch>, rest: seq<Branch>, i: nat)
    requires i < |was| && multiset(rest) == multiset(was[i..]) && Sorted(was[..i]) && |rest| == |was| - i
    requires forall a, b :: 0 <= a < i <= b < |was| ==> was[a].bracketIndex <= was[b].bracketIndex
    requires forall b :: 0 <= b < |rest| ==> rest[0].bracketIndex <= rest[b].bracketIndex
    ensures var r := was[..i] + rest;
            && Sorted(r[..i + 1])
            && forall a, b :: 0 <= a < i + 1 <= b < |r| ==> r[a].bracketIndex <= r[b].bracketIndex
  {
    var r := was[..i] + rest;
    forall a, b | 0 <= a < i <= b < |r| ensures r[a].bracketIndex <= r[b].bracketIndex {
      assert r[b] in multiset(rest) && r[b] in multiset(was[i..]);
      var k :| 0 <= k < |was[i..]| && was[i..][k] == r[b];
      assert was[i + k] == r[b];
    }
  }

  /** The branches of bracket `k` are those of the table that name it. */
  ghost predicate Owns(b: Bracket, k: int, branches: seq<Branch>) {
    && b.branches + b.numBranches <= |branches|
    && forall m :: 0 <= m < |branches| ==>
         (b.branches <= m < b.branches + b.numBranches <==> branches[m].bracketIndex == k)
  }

  /** setup_branch_points: every bracket is given exactly the branches that name it. */
  method SetupBranchPoints(info: Info)
    requires 0 < info.numBrackets <= MAX_BRACKETS < |info.brackets|
    requires forall m :: 0 <= m < |info.branches| ==> 0 <= info.branches[m].bracketIndex < info.numBrackets
    modifies info`brackets, info`branches
    ensures info.Parsed() && |info.brackets| == old(|info.brackets|)
    ensures multiset(info.branches) == old(multiset(info.branches))
    ensures forall k :: 0 <= k < info.numBrackets ==> Owns(info.brackets[k], k, info.branches)
  {
    var sorted := SortBranches(info.branches);
    ghost var was := info.branches;
    forall m | 0 <= m < |sorted| ensures 0 <= sorted[m].bracketIndex < info.numBrackets {
      assert sorted[m] in multiset(sorted);
      assert sorted[m] in multiset(was);
    }
    info.branches := sorted;
    var i, j := 0, 0;
    while i < info.numBrackets
      invariant i <= info.numBrackets && j <= |sorted| && |info.brackets| == old(|info.brackets|)
      invariant info.numBrackets == old(info.numBrackets) && info.branches == sorted
      invariant forall m :: 0 <= m < |sorted| ==> (m < j <==> sorted[m].bracketIndex < i)
      invariant forall k :: 0 <= k < i ==> Owns(info.brackets[k], k, sorted)
    {
      var from := j;
      while j < |sorted| && sorted[j].bracketIndex == i
        invariant from <= j <= |sorted|
        invariant forall m :: from <= m < j ==> sorted[m].bracketIndex == i
      {
        j := j + 1;
      }
      forall m | j <= m < |sorted| ensures sorted[m].bracketIndex > i {
        assert sorted[j].bracketIndex != i && sorted[j].bracketIndex >= i;
      }
      info.brackets := info.brackets[i := info.brackets[i].(branches := from, numBranches := j - from)];
      i := i + 1;
    }
  }

  /** `Endless`: the parser stays for ever at a set that is never closed. */
  datatype Outcome = Result(n: int) | Endless(where_: nat)

  /** What the parser counts: how deep it is in brackets, and the brackets and branches it has found. */
  datatype Tally = Tally(depth: int, brackets: nat, branches: nat)

  /** The error that the parser reports at an operator, or 0. */
  function ErrorAt(re: seq<char>, i: nat, t: Tally, numCaps: int): (error: int)
    ensures error <= 0
  {
    var c, m := At(re, i), At(re, i + 1);
    if c == '|' then (if t.branches >= MAX_BRANCHES then TOO_MANY_BRANCHES else 0)
    else if c == '\\' then
      if i >= |re| - 1 then INVALID_METACHARACTER
      else if m != 'x' then (if IsMetacharacter(m) then 0 else INVALID_METACHARACTER)
      else if i >= |re| - 3 || !(IsHexDigit(At(re, i + 2)) && IsHexDigit(At(re, i + 3))) then INVALID_METACHARACTER
      else 0
    else if c == '(' then
      if t.brackets >= MAX_BRACKETS then TOO_MANY_BRACKETS
      else if numCaps > 0 && t.brackets > numCaps then CAPS_ARRAY_TOO_SMALL else 0
    else if c == ')' then
      if t.depth < 1 then UNBALANCED_BRACKETS
      else if i > 0 && At(re, i - 1) == '(' then NO_MATCH else 0
    else 0
  }

  function Next(re: seq<char>, i: nat, t: Tally): Tally {
    var c := At(re, i);
    if c == '|' then t.(branches := t.branches + 1)
    else if c == '(' then t.(depth := t.depth + 1, brackets := t.brackets + 1)
    else if c == ')' then t.(depth := t.depth - 1) else t
  }

  /** How the parse ends that has come to `i`: a whole regex, an error, or a place where it stays for ever. */
  datatype Scanned = Whole | Failed(error: int) | Stuck(where_: nat)

  function Scan(re: seq<char>, i: nat, t: Tally, numCaps: int): (r: Scanned)
    ensures r.Failed? ==> r.error < 0
    ensures r.Stuck? ==> i <= r.where_ < |re| && At(re, r.where_) == '[' && Unclosed(re, r.where_ + 1, |re| - r.where_ - 1)
    decreases |re| - i
  {
    if i >= |re| then (if t.depth != 0 then Failed(UNBALANCED_BRACKETS) else Whole)
    else if ErrorAt(re, i, t, numCaps) < 0 then Failed(ErrorAt(re, i, t, numCaps))
    else if StepLen(re, i, |re| - i) == 0 then Stuck(i)
    else Scan(re, i + StepLen(re, i, |re| - i), Next(re, i, t), numCaps)
  }

  lemma ScanStep(re: seq<char>, i: nat, t: Tally, numCaps: int)
    requires i < |re|
    ensures var error, step := ErrorAt(re, i, t, numCaps), StepLen(re, i, |re| - i);
            Scan(re, i, t, numCaps) ==
            if error < 0 then Failed(error) else if step == 0 then Stuck(i) else Scan(re, i + step, Next(re, i, t), numCaps)
  {
    hide ErrorAt, StepLen, Next;
  }

  lemma ScanEnd(re: seq<char>, i: nat, t: Tally, numCaps: int)
    requires i >= |re|
    ensures Scan(re, i, t, numCaps) == if t.depth != 0 then Failed(UNBALANCED_BRACKETS) else Whole
  {
  }

  /** Without a backslash the parse always comes to an end. */
  lemma StuckNeedsEscape(re: seq<char>, t: Tally, numCaps: int)
    requires '\\' !in re
    ensures !Scan(re, 0, t, numCaps).Stuck?
  {
    var r := Scan(re, 0, t, numCaps);
    if r.Stuck? {
      SetStays(re, r.where_ + 1, |re| - r.where_ - 1, 0);
    }
  }

  lemma {:induction false} SetStays(re: seq<char>, r: nat, reLen: nat, len: nat)
    requires '\\' !in re && len <= reLen
    ensures SetEnd(re, r, reLen, len) <= reLen
    decreases reLen - len
  {
    if len < reLen && At(re, r + len) != ']' {
      assert OpLen(re, r + len) == 1;
      SetStays(re, r, reLen, len + 1);
    }
  }

  /** The parser's step at one character: an error, or 0. */
  method ParseAt(re: seq<char>, i: nat, depth: int, info: Info, numCaps: int) returns (error: int, depth': int)
    requires i < |re| && 0 <= depth < info.numBrackets <= MAX_BRACKETS < |info.brackets|
    requires |info.branches| <= MAX_BRANCHES
    requires forall m :: 0 <= m < |info.branches| ==> 0 <= info.branches[m].bracketIndex < info.numBrackets
    modifies info`brackets, info`numBrackets, info`branches
    ensures error <= 0 && info.numBrackets <= MAX_BRACKETS && |info.brackets| == old(|info.brackets|)
    ensures error == ErrorAt(re, i, Tally(depth, old(info.numBrackets), |old(info.branches)|), numCaps)
    ensures error == 0 ==>
              Tally(depth', info.numBrackets, |info.branches|) == Next(re, i, Tally(depth, old(info.numBrackets), |old(info.branches)|))
    ensures error == 0 ==> 0 <= depth' < info.numBrackets && |info.branches| <= MAX_BRANCHES
    ensures error == 0 ==> forall m :: 0 <= m < |info.branches| ==> 0 <= info.branches[m].bracketIndex < info.numBrackets
  {
    depth' := depth;
    var c, last := At(re, i), info.numBrackets - 1;
    var open := if info.brackets[last].len == -1 then last else depth;
    if c == '|' {
      if |info.branches| >= MAX_BRANCHES {
        return TOO_MANY_BRANCHES, depth;
      }
      info.branches := info.branches + [Branch(open, i)];
    } else if c == '\\' {
      if i >= |re| - 1 {
        return INVALID_METACHARACTER, depth;
      }
      if At(re, i + 1) == 'x' {
        if i >= |re| - 3 || !(IsHexDigit(At(re, i + 2)) && IsHexDigit(At(re, i + 3))) {
          return INVALID_METACHARACTER, depth;
        }
      } else if !IsMetacharacter(At(re, i + 1)) {
        return INVALID_METACHARACTER, depth;
      }
    } else if c == '(' {
      if info.numBrackets >= MAX_BRACKETS {
        return TOO_MANY_BRACKETS, depth;
      }
      depth' := depth + 1;
      info.brackets := info.brackets[info.numBrackets := Bracket(i + 1, -1, 0, 0)];
      info.numBrackets := info.numBrackets + 1;
      if numCaps > 0 && info.numBrackets - 1 > numCaps {
        return CAPS_ARRAY_TOO_SMALL, depth';
      }
    } else if c == ')' {
      info.brackets := info.brackets[open := info.brackets[open].(len := i - info.brackets[open].ptr)];
      depth' := depth - 1;
      if depth' < 0 {
        return UNBALANCED_BRACKETS, depth';
      }
      if i > 0 && At(re, i - 1) == '(' {
        return NO_MATCH, depth';
      }
    }
    error := 0;
  }

  /** A regex that the parser never gets through: a set that ends in a backslash. */
  lemma EndlessSet(numCaps: int)
    ensures Scan("[\\", 0, Tally(0, 1, 0), numCaps) == Stuck(0)
  {
    var re := "[\\";
    assert At(re, 0) == '[' && At(re, 1) == '\\' && At(re, 2) == '\0';
    assert OpLen(re, 1) == 2;
    assert SetEnd(re, 1, 1, 0) == SetEnd(re, 1, 1, 2) == 2;
  }

  /**
   foo: the regex is parsed, and then matched. It ends unless its scan meets a set that is never closed,
   before an error; there it stays.
   */
  method Foo(re: seq<char>, s: seq<char>, info: Info, numCaps: int) returns (outcome: Outcome)
    requires MAX_BRACKETS < |info.brackets| && info.branches == [] && info.caps == map[]
    modifies info
    ensures match Scan(re, 0, Tally(0, 1, 0), numCaps)
            case Stuck(where_) => outcome == Endless(where_)
            case Failed(error) => outcome == Result(error)
            case Whole => outcome.Result? && outcome.n <= Reach(re, |s|)
    ensures info.CapsWithin(|s|)
  {
    hide Scan, ErrorAt, Next, StepLen, Reach;
    info.brackets := info.brackets[0 := Bracket(0, |re|, info.brackets[0].branches, info.brackets[0].numBranches)];
    info.numBrackets := 1;
    var i, depth := 0, 0;
    while i < |re|
      invariant 0 <= depth < info.numBrackets <= MAX_BRACKETS < |info.brackets|
      invariant |info.branches| <= MAX_BRANCHES && info.caps == map[]
      invariant Scan(re, i, Tally(depth, info.numBrackets, |info.branches|), numCaps) == Scan(re, 0, Tally(0, 1, 0), numCaps)
      invariant forall m :: 0 <= m < |info.branches| ==> 0 <= info.branches[m].bracketIndex < info.numBrackets
    {
      ScanStep(re, i, Tally(depth, info.numBrackets, |info.branches|), numCaps);
      var step := GetOpLen(re, i, |re| - i);
      var error;
      error, depth := ParseAt(re, i, depth, info, numCaps);
      if error < 0 {
        return Result(error);
      }
      if step == 0 {
        return Endless(i);
      }
      i := i + step;
    }
    ScanEnd(re, i, Tally(depth, info.numBrackets, |info.branches|), numCaps);
    if depth != 0 {
      return Result(UNBALANCED_BRACKETS);
    }
    SetupBranchPoints(info);
    var n := Baz(re, s, info);
    return Result(n);
  }
}
