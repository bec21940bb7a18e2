/** The verdict of both passes of src/json.c on a text, and on a JSON text with something behind it. */
module JsonAccept {
  import opened JsonParser
  import opened JsonReading
  import opened JsonNumbers
  import opened JsonFirstReading
  import opened JsonRoundTrip
  import opened JsonSafety
  import opened JsonVerdict
  import T = JsonText
  import G = JsonGrammar

  /**
   A text that is not of the grammar is rejected, and one with a number from which the parser does not come back
   hangs. Too short for an object of a wrong size, it is accepted exactly if it is of the grammar.
   */
  lemma ParseVerdict(cfg: Config, json: string)
    requires |SkipMark(json)| <= UINT_MAX
    ensures var g, r := G.Document(cfg, SkipMark(json)), Parse(cfg, json);
            && (g.Bad? ==> r == Reject)
            && (g.Stuck? ==> r == Hang)
            && (g.To? && |SkipMark(json)| < LEAST_OVERSIZED ==> r.Accept?)
  {
    hide Run, G.Document;
    Verdict(cfg, SkipMark(json));
    if |SkipMark(json)| < LEAST_OVERSIZED {
      ParseSafe(cfg, json);
    }
  }

  /** Every JSON text is of the grammar, but for those numbers. */
  lemma JsonIsOfGrammar(cfg: Config, text: string, pre: string, v: T.Value, post: string)
    requires IsText(text, pre, v, post) && |text| <= UINT_MAX
    ensures T.Good(v) && if T.Tame(v) then G.Document(cfg, text).To? else G.Document(cfg, text).Stuck?
  {
    hide Run, G.Document, IsText, T.Tame, Skel;
    IsGood(text, pre, v, post);
    Verdict(cfg, text);
    FirstPass(cfg, text, pre, v, post);
  }

  /** A byte order mark makes no difference. */
  lemma MarkSkipped(cfg: Config, json: string)
    requires SkipMark(json) == json
    ensures Parse(cfg, [0xEF as char, 0xBB as char, 0xBF as char] + json) == Parse(cfg, json)
  {
    var marked := [0xEF as char, 0xBB as char, 0xBF as char] + json;
    assert marked[3..] == json;
  }

  // ----- a value with something behind it -----

  /** `c` neither ends the text nor belongs to a gap. */
  predicate IsGarbage(cfg: Config, c: char) { !IsSpace(c) && c != '\0' && !(cfg.comments && c == '/') }

  /** A value and a gap, and behind them `c` and more; if they touch, `c` does not go on a number. */
  predicate HasTail(cfg: Config, text: string, pre: string, v: T.Value, post: string, c: char, more: string) {
    && T.Good(v) && T.IsGap(pre) && T.IsGap(post) && IsGarbage(cfg, c)
    && (v.Number? && post == "" ==> !IsNumberChar(c))
    && text == pre + (T.ValueText(v) + (post + ([c] + more)))
  }

  lemma TailHere(cfg: Config, text: string, pre: string, v: T.Value, post: string, c: char, more: string)
    requires HasTail(cfg, text, pre, v, post, c, more)
    ensures var i := |pre|;
            var j := i + |T.ValueText(v)|;
            && Here(text, 0, pre) && Here(text, i, T.ValueText(v)) && Here(text, j, post)
            && j + |post| < |text| && At(text, j + |post|) == c && (v.Number? ==> Stops(cfg, At(text, j)))
  {
    hide T.ValueText, Here, T.Good, T.IsGap;
    var w, rest := T.ValueText(v), [c] + more;
    WholeHere(text);
    HereFits(text, 0, text);
    HereSplit(text, 0, pre, w + (post + rest));
    HereSplit(text, |pre|, w, post + rest);
    HereSplit(text, |pre| + |w|, post, rest);
    HereAt(text, |pre| + |w| + |post|, rest, 0);
    if post != "" {
      HereAt(text, |pre| + |w|, post, 0);
      assert T.IsGap(post) ==> IsSpace(post[0]) by { FirstSpace(post); }
    }
  }

  lemma WholeHere(text: string)
    ensures Here(text, 0, text)
  {
    assert text[0..0 + |text|] == text;
  }

  lemma FirstSpace(w: string)
    requires w != ""
    ensures T.IsGap(w) ==> IsSpace(w[0])
  {
  }

  /** Whatever follows a value, but white space, comments and a zero byte, makes the parser reject the text. */
  lemma Garbage(cfg: Config, json: string, pre: string, v: T.Value, post: string, c: char, more: string)
    requires HasTail(cfg, SkipMark(json), pre, v, post, c, more) && |SkipMark(json)| <= UINT_MAX
    ensures Parse(cfg, json) == if T.Tame(v) then Reject else Hang
  {
    hide Run, T.ValueText, Skel, Step, T.Tame, HasTail;
    var text := SkipMark(json);
    TailHere(cfg, text, pre, v, post, c, more);
    var s := Start([]);
    TailGood(cfg, text, pre, v, post, c, more);
    ReadGap(true, cfg, text, s, pre);
    var t := ReadValue1(cfg, text, s.(ptr := |pre|), v);
    ReadGap(true, cfg, text, t, post);
    var u := t.(ptr := t.ptr + |post|);
    LastStep(cfg, text, u);
    RunStep(true, cfg, text, u);
  }

  lemma TailGood(cfg: Config, text: string, pre: string, v: T.Value, post: string, c: char, more: string)
    requires HasTail(cfg, text, pre, v, post, c, more)
    ensures T.Good(v) && T.IsGap(pre) && T.IsGap(post) && IsGarbage(cfg, c)
  {
  }
}
