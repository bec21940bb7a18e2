/** json_parse_ex as the two loops it is, and the document it hands out. */
module JsonParse {
  import opened JsonParser
  import JsonSafety
  import JsonTree
  import JsonFree

  /** The nodes left by both passes, or how the parse ended without them. */
  method ParseEx(cfg: Config, json: string) returns (r: Outcome)
    ensures r == Parse(cfg, json)
    ensures |SkipMark(json)| < JsonSafety.LEAST_OVERSIZED ==> !r.Fault?
    ensures r.Accept? ==> (JsonTree.IsTree(r.nodes) <==> JsonSafety.Sized(r.nodes))
    ensures r.Accept? && |SkipMark(json)| < 0x1_0000_0000 ==> JsonTree.IsTree(r.nodes)
  {
    hide Step, Run, Measure, JsonTree.IsTree, JsonSafety.Sized;
    if |SkipMark(json)| < JsonSafety.LEAST_OVERSIZED {
      JsonSafety.ParseSafe(cfg, json);
    }
    if Parse(cfg, json).Accept? {
      JsonSafety.ParseTree(cfg, json);
    }
    var text := SkipMark(json);
    var nodes := [];
    var pass := 1;
    while pass >= 0
      invariant -1 <= pass <= 1
      invariant Parse(cfg, json) ==
                  if pass == 1 then Parse(cfg, json)
                  else if pass == 0 then Run(false, cfg, text, Start(nodes))
                  else Accept(nodes)
      invariant pass == 1 ==> nodes == []
    {
      var s := Start(nodes);
      var running := true;
      while running
        invariant s.ptr <= |text|
        invariant if running then Run(pass == 1, cfg, text, s) == Run(pass == 1, cfg, text, Start(nodes))
                  else Run(pass == 1, cfg, text, Start(nodes)) == Accept(s.nodes)
        decreases running, Measure(cfg, text, s)
      {
        StepProgress(pass == 1, cfg, text, s);
        RunStep(pass == 1, cfg, text, s);
        var step := Step(pass == 1, cfg, text, s);
        match step
        case Continue(next) => s := next;
        case Accept(found) =>
          s := s.(nodes := found);
          running := false;
        case _ => return step;
      }
      nodes := s.nodes;
      pass := pass - 1;
    }
    r := Accept(nodes);
  }

  /**
   A document that is parsed and then given back loses every node, and every block a node owns; a
   node given back twice would be an error of FreeEx. `freed` and `blocks` are what the allocator gets.
   A text of 2^32 characters may give a document that is no tree, and is not given back here.
   */
  method ParseAndFree(cfg: Config, json: string) returns (ok: bool, ghost freed: set<int>, ghost blocks: set<int>)
    ensures ok <==> Parse(cfg, json).Accept? && |SkipMark(json)| < 0x1_0000_0000
    ensures ok ==> var nodes := Parse(cfg, json).nodes;
                   && (forall i :: i in freed <==> 0 <= i < |nodes|)
                   && (forall i :: i in blocks <==> 0 <= i < |nodes| && JsonFree.OwnsBlock(nodes[i].kind))
  {
    var r := ParseEx(cfg, json);
    ok, freed, blocks := r.Accept? && |SkipMark(json)| < 0x1_0000_0000, {}, {};
    if ok {
      var d := new JsonFree.Document(r.nodes);
      d.FreeEx();
      freed, blocks := d.freed, d.blocks;
    }
  }
}
