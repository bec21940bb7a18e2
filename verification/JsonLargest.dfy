/** The largest object that src/json.c can parse, and what becomes of larger ones. */
module JsonLargest {
  import opened JsonParser
  import opened JsonFirstReading
  import opened JsonFate
  import opened JsonSizes
  import opened JsonRoundTrip
  import JsonSafety
  import S = JsonSecondPass
  import T = JsonText

  const ZERO: T.Value := T.Number(T.Numeral(false, "0", "", T.NoExponent))

  /** A member with an empty name. */
  function Unnamed(v: T.Value, rest: T.Members): T.Members { T.Member("", [], "", "", v, "", rest) }

  /** `k` members, each with an empty name and a zero. */
  function Row(k: nat): T.Members {
    if k == 0 then T.NoMembers else Unnamed(ZERO, Row(k - 1))
  }

  function Large(k: nat): T.Value { T.Object("", Row(k)) }

  lemma {:induction false} RowGood(k: nat)
    ensures T.GoodMembers(Row(k)) && T.TameMembers(Row(k)) && CountMembers(Row(k)) == k
  {
    if k > 0 {
      RowGood(k - 1);
    }
  }

  lemma UnnamedText(v: T.Value, rest: T.Members)
    requires T.Good(v) && T.GoodMembers(rest)
    ensures var ms := Unnamed(v, rest);
            && T.GoodMembers(ms) && NameBytes(ms) == 1 + NameBytes(rest) && (T.TameMembers(ms) <==> T.Tame(v) && T.TameMembers(rest))
            && |T.MembersText(ms)| == 3 + |T.ValueText(v)| + if rest.Member? then 1 + |T.MembersText(rest)| else 0
  {
    hide T.ValueText;
    assert T.Bytes(false, []) == "" && T.ElemsText([]) == "";
  }

  lemma ObjectText(ms: T.Members)
    requires ms.Member? && T.GoodMembers(ms)
    ensures var v := T.Object("", ms);
            T.Good(v) && (T.Tame(v) <==> T.TameMembers(ms)) && |T.ValueText(v)| == |T.MembersText(ms)| + 2 && T.ValueText(v)[0] == '{'
  {
    hide T.MembersText;
  }

  lemma {:induction false} RowText(k: nat)
    requires k > 0
    ensures Row(k).Member? && T.GoodMembers(Row(k)) && |T.MembersText(Row(k))| == 5 * k - 1 && NameBytes(Row(k)) == k
    ensures T.Good(Large(k)) && T.Tame(Large(k)) && |T.ValueText(Large(k))| == 5 * k + 1 && T.ValueText(Large(k))[0] == '{'
  {
    hide NameBytes, T.MembersText;
    assert T.ValueText(ZERO) == "0";
    RowGood(k);
    RowGood(k - 1);
    UnnamedText(ZERO, Row(k - 1));
    ObjectText(Row(k));
    if k > 1 {
      RowText(k - 1);
    } else {
      NoNames();
    }
  }

  lemma NoNames()
    ensures NameBytes(T.NoMembers) == 0
  {
  }

  /** A row of zeros goes well exactly if its last entry does. */
  lemma {:induction false} RowFate(n: Node, i: nat, k: nat)
    ensures T.GoodMembers(Row(k))
    ensures MembersFate(n, i, Row(k)) == if k == 0 || S.Within(n, 24 * (i + k)) then Completes else Overruns
    decreases k
  {
    hide Wrapped, BlockSize;
    RowGood(k);
    if k > 0 {
      RowFate(n, i + 1, k - 1);
    }
  }

  lemma LargeFate(k: nat)
    requires 0 < k <= UINT_MAX
    ensures T.Good(Large(k)) && T.GoodMembers(Row(k)) && Header(Row(k), NONE).length == Header(Row(k), NONE).names == k
    ensures ValueFate(Large(k)) ==
              if k <= MAX_MEMBERS then Completes else if Refused(Header(Row(k), NONE)) then Starves else Overruns
    ensures RootStarves(Large(k)) <==> Refused(Header(Row(k), NONE))
  {
    hide Refused, Misplaced, MembersFate, Row;
    RowGood(k);
    RowText(k);
    var n := Header(Row(k), NONE);
    RowFate(n, 0, k);
    LargeFits(n);
  }

  /** As many bytes of names as members never make up for entries that are too large. */
  lemma LargeFits(n: Node)
    requires n.kind.KObject? && n.length == n.names <= UINT_MAX
    ensures n.length <= MAX_MEMBERS ==> S.Holds(n, n.length)
    ensures n.length > MAX_MEMBERS ==> !S.Holds(n, n.length)
  {
    if n.length > MAX_MEMBERS && NamesAt(n.length) >= 0 {
      JsonSafety.WrappedFar(n.length);
    }
  }

  /** A text that is an object from its first character to its last. */
  lemma ObjectParsed(cfg: Config, v: T.Value)
    requires T.Good(v) && T.Tame(v) && 0 < |T.ValueText(v)| <= UINT_MAX && T.ValueText(v)[0] == '{'
    ensures match ValueFate(v)
            case Completes => Parse(cfg, T.ValueText(v)).Accept?
            case Starves => Parse(cfg, T.ValueText(v)) == if RootStarves(v) then Fault else Reject
            case Overruns => Parse(cfg, T.ValueText(v)) == Fault
  {
    hide Parse, T.ValueText, T.Good, T.Tame, Denotes, T.Meaning, T.Clean, ValueFate, RootStarves;
    var text := T.ValueText(v);
    assert text == "" + (text + "");
    ParseMeaning(cfg, text, "", v, "");
  }

  /**
   A text that is an object of k members with empty names takes the 5k + 1 characters that any of k members
   takes at least, and is accepted up to 89478485 members; with more the parser follows a null pointer or
   writes outside the block.
   */
  lemma LargeIs(cfg: Config, k: nat) returns (text: string)
    requires 0 < k && 5 * k + 1 <= UINT_MAX
    ensures T.Good(Large(k)) && text == T.ValueText(Large(k)) && |text| == 5 * k + 1
    ensures if k <= MAX_MEMBERS then Parse(cfg, text).Accept? else Parse(cfg, text) == Fault
  {
    hide Parse, T.ValueText, T.Good, T.Tame, Refused, ValueFate, RootStarves, Large;
    RowText(k);
    LargeFate(k);
    ObjectParsed(cfg, Large(k));
    text := T.ValueText(Large(k));
  }

  /** The largest of these that is accepted. */
  lemma LargestAccepted(cfg: Config, k: nat) returns (text: string)
    requires k == MAX_MEMBERS
    ensures T.Good(Large(k)) && text == T.ValueText(Large(k))
    ensures |text| == JsonSafety.LEAST_OVERSIZED - 5 && Parse(cfg, text).Accept?
  {
    hide Row, Large, Parse, T.ValueText, T.Good;
    text := LargeIs(cfg, k);
  }

  /** One member more: no block is to be had, and freeing the root looks for its entries at null. */
  lemma LeastFaults(cfg: Config, k: nat) returns (text: string)
    requires k == MAX_MEMBERS + 1
    ensures T.Good(Large(k)) && text == T.ValueText(Large(k)) && ValueFate(Large(k)) == Starves
    ensures |text| == JsonSafety.LEAST_OVERSIZED && Parse(cfg, text) == Fault
  {
    hide Row, Large, Parse, T.ValueText, T.Good, Refused, ValueFate;
    LargeFate(k);
    SizesOf(Header(Row(k), NONE));
    text := LargeIs(cfg, k);
  }

  /** With 178956971 members the size of the entries has wrapped to eight bytes, and they are written outside the block. */
  lemma WrappedFaults(cfg: Config, k: nat) returns (text: string)
    requires k == 178956971
    ensures T.Good(Large(k)) && text == T.ValueText(Large(k)) && ValueFate(Large(k)) == Overruns
    ensures NamesAt(k) == 8 && BlockSize(k, k) == 8 + k && |text| == 894784856 && Parse(cfg, text) == Fault
  {
    hide Row, Large, Parse, T.ValueText, T.Good, Refused, ValueFate;
    LargeFate(k);
    SizesOf(Header(Row(k), NONE));
    text := LargeIs(cfg, k);
  }

  lemma SizesOf(n: Node)
    requires n.kind.KObject? && n.names == n.length
    ensures n.length == MAX_MEMBERS + 1 ==> Refused(n)
    ensures n.length == 178956971 ==> NamesAt(n.length) == 8 && BlockSize(n.length, n.names) == 8 + n.length && S.Given(n) && S.Within(n, 12)
  {
  }

  // ----- one inside another -----

  /** An object of `k` members, of which the first is one of `m`. */
  function Nested(k: nat, m: nat): T.Value
    requires k > 0
  {
    T.Object("", Unnamed(Large(m), Row(k - 1)))
  }

  lemma NestedText(k: nat, m: nat)
    requires k > 1 && 0 < m <= UINT_MAX
    ensures T.Good(Nested(k, m)) && T.Tame(Nested(k, m))
    ensures |T.ValueText(Nested(k, m))| == 5 * (k + m) + 1 && T.ValueText(Nested(k, m))[0] == '{'
    ensures T.GoodMembers(Nested(k, m).members)
    ensures Header(Nested(k, m).members, NONE).length == Header(Nested(k, m).members, NONE).names == k
  {
    hide Row, Large, NameBytes, T.MembersText, T.ValueText, T.Good, T.GoodMembers, T.Tame, T.TameMembers;
    RowText(m);
    RowGood(k - 1);
    RowText(k - 1);
    UnnamedText(Large(m), Row(k - 1));
    ObjectText(Unnamed(Large(m), Row(k - 1)));
  }

  lemma NestedFate(k: nat, m: nat)
    requires k == 178956971 && m == MAX_MEMBERS + 1
    ensures T.Good(Nested(k, m)) && ValueFate(Nested(k, m)) == Starves && !RootStarves(Nested(k, m))
  {
    hide Row, Refused, Misplaced, T.ValueText, S.Within, NamesAt, BlockSize, Large;
    NestedText(k, m);
    LargeFate(m);
    SizesOf(Header(Row(m), NONE));
    SizesOf(Header(Nested(k, m).members, NONE));
  }

  /** The inner object is refused before anything of the outer one has been written outside its block. */
  lemma NestedRejected(cfg: Config, k: nat, m: nat) returns (text: string)
    requires k == 178956971 && m == MAX_MEMBERS + 1
    ensures T.Good(Nested(k, m)) && text == T.ValueText(Nested(k, m))
    ensures |text| == 1342177286 && Parse(cfg, text) == Reject
  {
    hide Row, Nested, Parse, RootStarves, ValueFate, T.ValueText, T.Good, T.Tame;
    NestedText(k, m);
    NestedFate(k, m);
    ObjectParsed(cfg, Nested(k, m));
    text := T.ValueText(Nested(k, m));
  }
}
