/** How safe src/json.c is on a text, by its length, and what its document is then. */
module JsonSafety {
  import opened JsonParser
  import opened JsonPasses
  import opened JsonSecondPass
  import opened JsonFate
  import opened JsonTree
  import opened JsonBounds

  /** The length of the shortest text whose object the parser cannot size: 89478486 members with empty names. */
  const LEAST_OVERSIZED: nat := 447392431

  ghost predicate Sized(nodes: seq<Node>) { forall i :: 0 <= i < |nodes| ==> !Oversized(nodes[i]) }

  /**
   On no shorter text does the parser follow a null pointer or reach outside a block, and what its first
   pass accepts, the second does.
   */
  lemma ParseSafe(cfg: Config, json: string)
    requires |SkipMark(json)| < LEAST_OVERSIZED
    ensures !Parse(cfg, json).Fault?
    ensures Run(true, cfg, SkipMark(json), Start([])).Accept? <==> Parse(cfg, json).Accept?
  {
    hide Run, Complete, Shaped, Wrapped, Refused, FateFrom, Nameless;
    var text := SkipMark(json);
    RunPays(cfg, text, Start([]), []);
    FirstPassSafe(cfg, text, Start([]), []);
    var first := Run(true, cfg, text, Start([]));
    if first.Accept? {
      NoneOversized(first.nodes, |text|);
      AllComplete(first.nodes, 0, []);
      SecondPassFollows(cfg, text);
    }
  }

  lemma NoneOversized(nodes: seq<Node>, len: nat)
    requires len < LEAST_OVERSIZED && forall i :: 0 <= i < |nodes| ==> Bounded(nodes[i], len)
    ensures Sized(nodes)
  {
    hide Oversized;
    forall i | 0 <= i < |nodes|
      ensures !Oversized(nodes[i])
    {
      OversizedIff(nodes[i]);
      assert Bounded(nodes[i], len);
    }
  }

  /** Of an accepted text of less than 2^32 characters no object is oversized. */
  lemma AcceptedSized(cfg: Config, json: string)
    requires Parse(cfg, json).Accept? && |SkipMark(json)| < 0x1_0000_0000
    ensures Sized(Run(true, cfg, SkipMark(json), Start([])).nodes)
  {
    hide Run, Shaped, Wrapped, Refused, Misplaced, Spills, FateFrom, Nameless;
    var text := SkipMark(json);
    RunPays(cfg, text, Start([]), []);
    var final := Run(true, cfg, text, Start([])).nodes;
    SecondPassFollows(cfg, text);
    forall i | 0 <= i < |final|
      ensures !Oversized(final[i])
    {
      HeldIsSized(final[i], |text|);
    }
  }

  /**
   The document of an accepted text is a tree exactly if no object in it is oversized; an oversized one
   has its names and its entries in the same bytes. On texts of less than 2^32 characters there is none.
   */
  lemma ParseTree(cfg: Config, json: string)
    requires Parse(cfg, json).Accept?
    ensures var nodes := Parse(cfg, json).nodes;
            && (IsTree(nodes) <==> Sized(nodes))
            && (|SkipMark(json)| < 0x1_0000_0000 ==> IsTree(nodes))
  {
    hide Run, Shaped, Wrapped, Refused, Misplaced, Spills, FateFrom;
    var text := SkipMark(json);
    RunPays(cfg, text, Start([]), []);
    var final, nodes := Run(true, cfg, text, Start([])).nodes, Parse(cfg, json).nodes;
    SecondPassFollows(cfg, text);
    if |text| < 0x1_0000_0000 {
      AcceptedSized(cfg, json);
    }
    forall i | 0 <= i < |nodes|
      ensures Nameless(nodes[i]) && (Oversized(nodes[i]) <==> Oversized(final[i]))
    {
      assert Nameless(final[i]);
    }
  }

  /** The names are not enough to make up for what the size of the entries lacks. */
  lemma HeldIsSized(f: Node, len: nat)
    requires Holds(f, f.length) && Bounded(f, len) && len < 0x1_0000_0000
    ensures !Oversized(f)
  {
    if Oversized(f) {
      WrappedFar(f.length);
    }
  }

  lemma WrappedFar(length: nat)
    requires Wrapped(length) && NamesAt(length) >= 0
    ensures 24 * length - NamesAt(length) >= 0x1_0000_0000
  {
  }

  /** An oversized object fits its block exactly if its names do make up for it. */
  lemma HeldIff(f: Node)
    requires Oversized(f) && f.names < 0x4000_0000_0000_0000
    ensures Holds(f, f.length) <==> NamesAt(f.length) >= 0 && f.names >= 24 * f.length - NamesAt(f.length)
  {
  }
}
