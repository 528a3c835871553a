/**
 * The specificity detector of src/routing/specificity.rs: which of nine task categories a request
 * belongs to. The keyword and tool-prefix tables and the header spellings are parameters. The scores
 * live in an unordered map; the order in which it is walked is a parameter of the detector, and the
 * theorems say what does and what does not depend on it. Lower-casing is ASCII.
 */
module Specificity {
  import opened Base

  datatype Category =
    | Coding | WebBrowsing | DataAnalysis | ImageGeneration | VideoGeneration
    | SocialMedia | EmailManagement | CalendarManagement | Trading

  const ALL: seq<Category> :=
    [Coding, WebBrowsing, DataAnalysis, ImageGeneration, VideoGeneration,
     SocialMedia, EmailManagement, CalendarManagement, Trading]

  const TOOL_MATCH_WEIGHT := 3
  const STICKY_HISTORY_WINDOW := 3
  const STICKY_BIAS := 2
  const U32_MAX := 0xFFFF_FFFF

  function DefaultThreshold(c: Category): nat {
    match c
    case Coding => 2
    case ImageGeneration | VideoGeneration => 4
    case _ => 3
  }

  datatype Rule = Rule(category: Category, primary: string, threshold: Option<nat>)

  datatype Config = Config(enabled: bool, rules: seq<Rule>)

  /** Only the first rule of a category counts. */
  function FirstRule(rules: seq<Rule>, c: Category): Option<Rule> {
    if rules == [] then None
    else if rules[0].category == c then Some(rules[0])
    else FirstRule(rules[1..], c)
  }

  function PrimaryOf(cfg: Config, c: Category): Option<string> {
    var r := FirstRule(cfg.rules, c);
    if r.Some? then Some(r.value.primary) else None
  }

  function ThresholdOf(cfg: Config, c: Category): nat {
    var r := FirstRule(cfg.rules, c);
    if r.Some? && r.value.threshold.Some? then r.value.threshold.value else DefaultThreshold(c)
  }

  // ----- the request -----

  /** Message content: a string, a list of parts of which some carry text, or anything else. */
  datatype Content = Text(text: string) | Parts(texts: seq<Option<string>>) | Other

  datatype Message = Message(role: string, content: Content)

  datatype Request = Request(messages: seq<Message>, tools: Option<seq<string>>)

  function JoinLines(parts: seq<Option<string>>): string {
    if parts == [] then ""
    else
      var before := JoinLines(parts[..|parts| - 1]);
      match parts[|parts| - 1]
      case None => before
      case Some(text) => if AnyText(parts[..|parts| - 1]) then before + "\n" + text else text
  }

  predicate AnyText(parts: seq<Option<string>>) {
    exists i :: 0 <= i < |parts| && parts[i].Some?
  }

  function ExtractText(c: Content): string {
    match c
    case Text(s) => s
    case Parts(parts) => JoinLines(parts)
    case Other => ""
  }

  /** The last message of the user, or the first message of all. */
  function LastUserIndex(messages: seq<Message>): (k: nat)
    requires messages != []
    ensures k < |messages|
  {
    var n := |messages| - 1;
    if messages[n].role == "user" then n
    else if n == 0 then 0
    else LastUserIndex(messages[..n])
  }

  function LastUserText(messages: seq<Message>): string
    requires messages != []
  {
    ExtractText(messages[LastUserIndex(messages)].content)
  }

  // ----- scores -----

  datatype Tables = Tables(
    prefixes: seq<(string, Category)>,
    keywords: Category -> seq<(string, nat)>,
    parse: string -> Option<Category>)

  function PrefixScore(prefixes: seq<(string, Category)>, name: string, c: Category): nat {
    if prefixes == [] then 0
    else
      var p := prefixes[|prefixes| - 1];
      PrefixScore(prefixes[..|prefixes| - 1], name, c)
      + if p.0 <= name && p.1 == c then TOOL_MATCH_WEIGHT else 0
  }

  function ToolScore(prefixes: seq<(string, Category)>, tools: seq<string>, c: Category): nat {
    if tools == [] then 0
    else ToolScore(prefixes, tools[..|tools| - 1], c) + PrefixScore(prefixes, Lower(tools[|tools| - 1]), c)
  }

  function KeywordScore(words: seq<(string, nat)>, text: string): nat {
    if words == [] then 0
    else
      var w := words[|words| - 1];
      KeywordScore(words[..|words| - 1], text) + if Contains(text, w.0) then w.1 else 0
  }

  function StickyScore(recent: seq<Category>, c: Category): nat {
    var n := |recent|;
    if n >= STICKY_HISTORY_WINDOW && recent[n - 3] == recent[n - 2] == recent[n - 1] == c then STICKY_BIAS else 0
  }

  function Tools(req: Request): seq<string> {
    if req.tools.Some? then req.tools.value else []
  }

  function Score(t: Tables, req: Request, recent: seq<Category>, c: Category): nat
    requires req.messages != []
  {
    ToolScore(t.prefixes, Tools(req), c)
    + KeywordScore(t.keywords(c), Lower(LastUserText(req.messages)))
    + StickyScore(recent, c)
  }

  type Scores = map<Category, nat>

  predicate Total(scores: Scores) {
    forall c: Category :: c in scores
  }

  method AddTools(prefixes: seq<(string, Category)>, tools: seq<string>, before: Scores) returns (scores: Scores)
    requires Total(before)
    ensures Total(scores) && forall c :: scores[c] == before[c] + ToolScore(prefixes, tools, c)
  {
    scores := before;
    for i := 0 to |tools|
      invariant Total(scores) && forall c :: scores[c] == before[c] + ToolScore(prefixes, tools[..i], c)
    {
      var name := Lower(tools[i]);
      ghost var outer := scores;
      for j := 0 to |prefixes|
        invariant Total(scores) && forall c :: scores[c] == outer[c] + PrefixScore(prefixes[..j], name, c)
      {
        var (prefix, cat) := prefixes[j];
        if prefix <= name {
          scores := scores[cat := scores[cat] + TOOL_MATCH_WEIGHT];
        }
        assert prefixes[..j + 1][..j] == prefixes[..j];
      }
      assert prefixes[..|prefixes|] == prefixes;
      assert tools[..i + 1][..i] == tools[..i];
    }
    assert tools[..|tools|] == tools;
  }

  method AddKeywords(keywords: Category -> seq<(string, nat)>, text: string, before: Scores) returns (scores: Scores)
    requires Total(before)
    ensures Total(scores) && forall c :: scores[c] == before[c] + KeywordScore(keywords(c), text)
  {
    scores := before;
    for i := 0 to |ALL|
      invariant Total(scores)
      invariant forall c :: scores[c] == before[c] + if c in ALL[..i] then KeywordScore(keywords(c), text) else 0
    {
      var cat := ALL[i];
      var words := keywords(cat);
      ghost var outer := scores;
      for j := 0 to |words|
        invariant Total(scores) && scores[cat] == outer[cat] + KeywordScore(words[..j], text)
        invariant forall c :: c != cat ==> scores[c] == outer[c]
      {
        var found := FindIn(text, words[j].0);
        if found {
          scores := scores[cat := scores[cat] + words[j].1];
        }
        assert words[..j + 1][..j] == words[..j];
      }
      assert words[..|words|] == words;
      NoRepeats(i);
    }
    assert ALL[..|ALL|] == ALL;
    forall c: Category
      ensures c in ALL
    {
      AllListed(c);
    }
  }

  lemma NoRepeats(i: nat)
    requires i < |ALL|
    ensures ALL[i] !in ALL[..i] && forall c :: c in ALL[..i + 1] <==> c in ALL[..i] || c == ALL[i]
  {
  }

  lemma AllListed(c: Category)
    ensures c in ALL
  {
  }

  method AddStickiness(recent: seq<Category>, before: Scores) returns (scores: Scores)
    requires Total(before)
    ensures Total(scores) && forall c :: scores[c] == before[c] + StickyScore(recent, c)
  {
    scores := before;
    if |recent| >= STICKY_HISTORY_WINDOW {
      var last := recent[|recent| - STICKY_HISTORY_WINDOW..];
      if last[0] == last[1] == last[2] {
        scores := scores[last[0] := scores[last[0]] + STICKY_BIAS];
      }
    }
  }

  method ScoreAll(t: Tables, req: Request, recent: seq<Category>) returns (scores: Scores)
    requires req.messages != []
    ensures Total(scores) && forall c :: scores[c] == Score(t, req, recent, c)
  {
    var start := map c: Category | c in ALL :: 0;
    forall c: Category
      ensures c in ALL
    {
      AllListed(c);
    }
    var withTools := AddTools(t.prefixes, Tools(req), start);
    var withWords := AddKeywords(t.keywords, Lower(LastUserText(req.messages)), withTools);
    scores := AddStickiness(recent, withWords);
  }

  // ----- the choice -----

  /** A category can be chosen when it clears its threshold and has a primary. */
  predicate Qualifies(cfg: Config, scores: Scores, c: Category)
    requires Total(scores)
  {
    scores[c] >= ThresholdOf(cfg, c) && PrimaryOf(cfg, c).Some?
  }

  /** Higher score first, then higher threshold. */
  predicate NoBetter(cfg: Config, scores: Scores, c: Category, d: Category)
    requires Total(scores)
  {
    scores[c] < scores[d] || (scores[c] == scores[d] && ThresholdOf(cfg, c) <= ThresholdOf(cfg, d))
  }

  predicate Best(cfg: Config, scores: Scores, c: Category)
    requires Total(scores)
  {
    && Qualifies(cfg, scores, c)
    && forall d: Category | d in ALL :: Qualifies(cfg, scores, d) ==> NoBetter(cfg, scores, d, c)
  }

  predicate Distinct(s: seq<Category>) {
    forall i, j :: 0 <= i < j < |s| ==> s[i] != s[j]
  }

  /** An order in which the map may be walked: every category once. */
  predicate IsOrder(order: seq<Category>) {
    Distinct(order) && forall c: Category :: c in order
  }

  /** The place in the walk of the first category that no other qualifying one beats. */
  ghost predicate FirstBest(cfg: Config, scores: Scores, order: seq<Category>, i: nat)
    requires Total(scores)
  {
    i < |order| && Qualifies(cfg, scores, order[i])
    && (forall j :: 0 <= j < i && Qualifies(cfg, scores, order[j]) ==> !NoBetter(cfg, scores, order[i], order[j]))
    && (forall j :: i < j < |order| && Qualifies(cfg, scores, order[j]) ==> NoBetter(cfg, scores, order[j], order[i]))
  }

  datatype Candidate = Candidate(category: Category, score: nat, threshold: nat)

  method PickBest(cfg: Config, scores: Scores, order: seq<Category>) returns (best: Option<Candidate>)
    requires Total(scores)
    ensures best.None? <==> forall c <- order :: !Qualifies(cfg, scores, c)
    ensures best.Some? ==>
              best.value.score == scores[best.value.category]
              && best.value.threshold == ThresholdOf(cfg, best.value.category)
              && exists i: nat :: FirstBest(cfg, scores, order, i) && order[i] == best.value.category
  {
    best := None;
    ghost var at: nat := 0;
    for i := 0 to |order|
      invariant best.None? ==> forall j :: 0 <= j < i ==> !Qualifies(cfg, scores, order[j])
      invariant best.Some? ==>
                  at < i && FirstBest(cfg, scores, order[..i], at)
                  && best.value == Candidate(order[at], scores[order[at]], ThresholdOf(cfg, order[at]))
    {
      var cat := order[i];
      var score, threshold := scores[cat], ThresholdOf(cfg, cat);
      if score < threshold { continue; }
      if PrimaryOf(cfg, cat).None? { continue; }
      match best {
        case Some(Candidate(_, bs, bt)) =>
          if !(score < bs) && !(score == bs && threshold <= bt) {
            best, at := Some(Candidate(cat, score, threshold)), i;
          }
        case None =>
          best, at := Some(Candidate(cat, score, threshold)), i;
      }
    }
    if best.Some? {
      assert order[..|order|] == order;
      assert FirstBest(cfg, scores, order, at);
    }
  }

  datatype Decision = Decision(category: Category, score: nat, threshold: nat, primary: string)

  /** A request without messages makes the detector index an empty list. */
  datatype Outcome = Panics | Decided(decision: Option<Decision>)

  function Override(t: Tables, cfg: Config, header: Option<string>): Option<Decision> {
    if header.None? then None
    else
      match t.parse(header.value)
      case None => None
      case Some(cat) =>
        if PrimaryOf(cfg, cat).None? then None
        else Some(Decision(cat, U32_MAX, 0, PrimaryOf(cfg, cat).value))
  }

  /** What a decision made by scoring is: the first best category of the walk, with its own numbers. */
  ghost predicate Detected(cfg: Config, scores: Scores, order: seq<Category>, d: Option<Decision>)
    requires Total(scores)
  {
    match d
    case None => forall c: Category | c in ALL :: !Qualifies(cfg, scores, c)
    case Some(Decision(c, score, threshold, primary)) =>
      score == scores[c] && threshold == ThresholdOf(cfg, c) && PrimaryOf(cfg, c) == Some(primary)
      && Best(cfg, scores, c) && exists i: nat :: FirstBest(cfg, scores, order, i) && order[i] == c
  }

  method Detect(t: Tables, cfg: Config, req: Request, header: Option<string>, recent: seq<Category>,
                order: seq<Category>)
    returns (r: Outcome, ghost scores: Scores)
    requires IsOrder(order)
    ensures Total(scores)
    ensures !cfg.enabled ==> r == Decided(None)
    ensures cfg.enabled && Override(t, cfg, header).Some? ==> r == Decided(Override(t, cfg, header))
    ensures cfg.enabled && Override(t, cfg, header).None? ==>
              if req.messages == [] then r == Panics
              else (forall c :: scores[c] == Score(t, req, recent, c))
                   && r.Decided? && Detected(cfg, scores, order, r.decision)
  {
    scores := map c: Category | c in ALL :: 0;
    forall c: Category
      ensures c in ALL
    {
      AllListed(c);
    }
    if !cfg.enabled { return Decided(None), scores; }
    if header.Some? {
      var cat := t.parse(header.value);
      if cat.Some? && PrimaryOf(cfg, cat.value).Some? {
        return Decided(Some(Decision(cat.value, U32_MAX, 0, PrimaryOf(cfg, cat.value).value))), scores;
      }
    }
    if req.messages == [] { return Panics, scores; }
    var all := ScoreAll(t, req, recent);
    scores := all;
    var best := PickBest(cfg, all, order);
    if best.None? { return Decided(None), scores; }
    var Candidate(cat, score, threshold) := best.value;
    ghost var i: nat :| FirstBest(cfg, scores, order, i) && order[i] == cat;
    FirstBestIsBest(cfg, scores, order, i);
    r := Decided(Some(Decision(cat, score, threshold, PrimaryOf(cfg, cat).value)));
  }

  lemma FirstBestIsBest(cfg: Config, scores: Scores, order: seq<Category>, i: nat)
    requires Total(scores) && IsOrder(order) && FirstBest(cfg, scores, order, i)
    ensures Best(cfg, scores, order[i])
  {
    forall d: Category | d in ALL && Qualifies(cfg, scores, d)
      ensures NoBetter(cfg, scores, d, order[i])
    {
      assert d in order;
      var j :| 0 <= j < |order| && order[j] == d;
    }
  }

  // ----- what counts -----

  /** What is scored is the last message of the user; only when there is none, the first of all. */
  lemma {:induction false} LastUserExactly(messages: seq<Message>)
    requires messages != []
    ensures
      var k := LastUserIndex(messages);
      && (forall i :: k < i < |messages| ==> messages[i].role != "user")
      && (messages[k].role == "user" || (k == 0 && forall i :: 0 <= i < |messages| ==> messages[i].role != "user"))
  {
    var n := |messages| - 1;
    if messages[n].role != "user" && n > 0 {
      LastUserExactly(messages[..n]);
      var k := LastUserIndex(messages[..n]);
      forall i | k < i < |messages|
        ensures messages[i].role != "user"
      {
        if i < n { assert messages[..n][i] == messages[i]; }
      }
    }
  }

  lemma KeywordSnoc(words: seq<(string, nat)>, w: (string, nat), text: string)
    ensures KeywordScore(words + [w], text) == KeywordScore(words, text) + if Contains(text, w.0) then w.1 else 0
  {
    assert (words + [w])[..|words|] == words;
  }

  lemma {:induction false} KeywordCounts(a: seq<(string, nat)>, w: (string, nat), b: seq<(string, nat)>, text: string)
    ensures KeywordScore(a + [w] + b, text) == KeywordScore(a + b, text) + if Contains(text, w.0) then w.1 else 0
    decreases |b|
  {
    if b == [] {
      KeywordSnoc(a, w, text);
      assert a + [w] + b == a + [w] && a + b == a;
    } else {
      var last, rest := b[|b| - 1], b[..|b| - 1];
      KeywordCounts(a, w, rest, text);
      KeywordSnoc(a + [w] + rest, last, text);
      KeywordSnoc(a + rest, last, text);
      assert a + [w] + b == a + [w] + rest + [last] && a + b == a + rest + [last];
    }
  }

  lemma PrefixSnoc(rows: seq<(string, Category)>, p: (string, Category), name: string, c: Category)
    ensures PrefixScore(rows + [p], name, c) == PrefixScore(rows, name, c) + if p.0 <= name && p.1 == c then 3 else 0
  {
    assert (rows + [p])[..|rows|] == rows;
  }

  lemma {:induction false} PrefixCounts(a: seq<(string, Category)>, p: (string, Category), b: seq<(string, Category)>,
                                        name: string, c: Category)
    ensures PrefixScore(a + [p] + b, name, c)
            == PrefixScore(a + b, name, c) + if p.0 <= name && p.1 == c then 3 else 0
    decreases |b|
  {
    if b == [] {
      PrefixSnoc(a, p, name, c);
      assert a + [p] + b == a + [p] && a + b == a;
    } else {
      var last, rest := b[|b| - 1], b[..|b| - 1];
      PrefixCounts(a, p, rest, name, c);
      PrefixSnoc(a + [p] + rest, last, name, c);
      PrefixSnoc(a + rest, last, name, c);
      assert a + [p] + b == a + [p] + rest + [last] && a + b == a + rest + [last];
    }
  }

  lemma ToolSnoc(prefixes: seq<(string, Category)>, tools: seq<string>, tool: string, c: Category)
    ensures ToolScore(prefixes, tools + [tool], c)
            == ToolScore(prefixes, tools, c) + PrefixScore(prefixes, Lower(tool), c)
  {
    assert (tools + [tool])[..|tools|] == tools;
  }

  lemma {:induction false} ToolCounts(prefixes: seq<(string, Category)>, a: seq<string>, tool: string, b: seq<string>,
                                      c: Category)
    ensures ToolScore(prefixes, a + [tool] + b, c)
            == ToolScore(prefixes, a + b, c) + PrefixScore(prefixes, Lower(tool), c)
    decreases |b|
  {
    if b == [] {
      ToolSnoc(prefixes, a, tool, c);
      assert a + [tool] + b == a + [tool] && a + b == a;
    } else {
      var last, rest := b[|b| - 1], b[..|b| - 1];
      ToolCounts(prefixes, a, tool, rest, c);
      ToolSnoc(prefixes, a + [tool] + rest, last, c);
      ToolSnoc(prefixes, a + rest, last, c);
      assert a + [tool] + b == a + [tool] + rest + [last] && a + b == a + rest + [last];
    }
  }

  /**
   * What one thing more adds to a score, wherever it stands in its list: a tool three for every row of the
   * category whose prefix it has, a keyword its weight if it occurs in what the user said last, and three
   * recent decisions of the category, the last ones, two.
   */
  lemma ToolAdds(t: Tables, req: Request, recent: seq<Category>, c: Category, a: seq<string>, tool: string,
                 b: seq<string>)
    requires req.messages != [] && Tools(req) == a + b
    ensures Score(t, req.(tools := Some(a + [tool] + b)), recent, c)
            == Score(t, req, recent, c) + PrefixScore(t.prefixes, Lower(tool), c)
  {
    ToolCounts(t.prefixes, a, tool, b, c);
  }

  lemma KeywordAdds(t: Tables, more: Tables, req: Request, recent: seq<Category>, c: Category,
                    a: seq<(string, nat)>, w: (string, nat), b: seq<(string, nat)>)
    requires req.messages != [] && more.prefixes == t.prefixes
    requires t.keywords(c) == a + b && more.keywords(c) == a + [w] + b
    ensures Score(more, req, recent, c)
            == Score(t, req, recent, c) + if Contains(Lower(LastUserText(req.messages)), w.0) then w.1 else 0
  {
    KeywordCounts(a, w, b, Lower(LastUserText(req.messages)));
  }

  lemma StickinessAdds(t: Tables, req: Request, recent: seq<Category>, c: Category)
    requires req.messages != []
    ensures Score(t, req, recent, c)
            == Score(t, req, [], c) + if |recent| >= 3 && recent[|recent| - 3..] == [c, c, c] then 2 else 0
  {
    if |recent| >= 3 {
      var last := recent[|recent| - 3..];
      assert last[0] == recent[|recent| - 3] && last[1] == recent[|recent| - 2] && last[2] == recent[|recent| - 1];
      if last[0] == last[1] == last[2] == c { assert last == [c, c, c]; }
    }
  }

  /** With nothing that counts there is no score. */
  lemma NothingScores(t: Tables, req: Request, c: Category)
    requires req.messages != [] && t.keywords(c) == [] && Tools(req) == []
    ensures Score(t, req, [], c) == 0
    ensures forall name :: PrefixScore([], name, c) == 0
  {
  }

  /** The rule of a category is the first that names it. */
  lemma {:induction false} FirstRuleExactly(rules: seq<Rule>, c: Category)
    ensures FirstRule(rules, c).None? <==> forall r <- rules :: r.category != c
    ensures FirstRule(rules, c).Some? ==>
              exists i :: 0 <= i < |rules| && rules[i] == FirstRule(rules, c).value && rules[i].category == c
                          && forall j :: 0 <= j < i ==> rules[j].category != c
  {
    if rules != [] && rules[0].category != c {
      FirstRuleExactly(rules[1..], c);
      if FirstRule(rules[1..], c).Some? {
        var i :| 0 <= i < |rules[1..]| && rules[1..][i] == FirstRule(rules[1..], c).value
                 && rules[1..][i].category == c && forall j :: 0 <= j < i ==> rules[1..][j].category != c;
        assert rules[i + 1] == FirstRule(rules, c).value;
        forall j | 0 <= j < i + 1
          ensures rules[j].category != c
        {
          if j > 0 { assert rules[1..][j - 1] == rules[j]; }
        }
      }
    }
  }

  /**
   * What it takes to be chosen without a threshold of one's own: two for coding, four for images and video,
   * three for everything else; so a single tool decides for all but images and video.
   */
  lemma DefaultsInForce(cfg: Config, scores: Scores, c: Category)
    requires Total(scores) && FirstRule(cfg.rules, c).Some? && FirstRule(cfg.rules, c).value.threshold.None?
    ensures scores[c] == 3 ==> (Qualifies(cfg, scores, c) <==> !c.ImageGeneration? && !c.VideoGeneration?)
    ensures scores[c] == 2 ==> (Qualifies(cfg, scores, c) <==> c.Coding?)
    ensures scores[c] >= 4 ==> Qualifies(cfg, scores, c)
    ensures scores[c] <= 1 ==> !Qualifies(cfg, scores, c)
  {
  }

  /** A rule's own threshold is what its category takes; a category without a rule is never chosen. */
  lemma OwnThreshold(cfg: Config, scores: Scores, c: Category)
    requires Total(scores)
    ensures
      match FirstRule(cfg.rules, c)
      case None => !Qualifies(cfg, scores, c)
      case Some(Rule(_, _, Some(least))) => Qualifies(cfg, scores, c) <==> scores[c] >= least
      case _ => true
  {
  }

  /** A header overrides the scores exactly when it names a category that has a rule; its score is the largest. */
  lemma OverrideExactly(t: Tables, cfg: Config, header: Option<string>)
    ensures Override(t, cfg, header).Some?
            <==> header.Some? && t.parse(header.value).Some?
                 && FirstRule(cfg.rules, t.parse(header.value).value).Some?
    ensures Override(t, cfg, header).Some? ==>
              var c := t.parse(header.value).value;
              Override(t, cfg, header).value == Decision(c, 4_294_967_295, 0, FirstRule(cfg.rules, c).value.primary)
  {
  }

  // ----- what does not depend on the order of the walk -----

  /** The score and threshold of the decision are the same for every order of the walk, and so is None. */
  lemma OrderIndependent(cfg: Config, scores: Scores, o: seq<Category>, p: seq<Category>,
                         d: Option<Decision>, e: Option<Decision>)
    requires Total(scores) && Detected(cfg, scores, o, d) && Detected(cfg, scores, p, e)
    ensures d.Some? == e.Some?
    ensures d.Some? ==> d.value.score == e.value.score && d.value.threshold == e.value.threshold
  {
  }

  /** An order that starts with a given category. */
  function Fronted(c: Category): seq<Category> {
    [c] + Without(ALL, c)
  }

  function Without(s: seq<Category>, c: Category): seq<Category> {
    if s == [] then [] else (if s[0] == c then [] else [s[0]]) + Without(s[1..], c)
  }

  lemma {:induction false} WithoutKeeps(s: seq<Category>, c: Category)
    requires Distinct(s)
    ensures Distinct(Without(s, c)) && forall d :: d in Without(s, c) <==> d in s && d != c
  {
    if s != [] {
      WithoutKeeps(s[1..], c);
      var w := Without(s[1..], c);
      assert forall d :: d in s <==> d == s[0] || d in s[1..];
      assert s[0] !in s[1..];
      assert s[0] !in w;
    }
  }

  function Place(c: Category): nat {
    match c
    case Coding => 0
    case WebBrowsing => 1
    case DataAnalysis => 2
    case ImageGeneration => 3
    case VideoGeneration => 4
    case SocialMedia => 5
    case EmailManagement => 6
    case CalendarManagement => 7
    case Trading => 8
  }

  lemma AllDistinct()
    ensures Distinct(ALL)
  {
  }

  lemma FrontedKeeps(s: seq<Category>, c: Category)
    requires IsOrder(s)
    ensures IsOrder([c] + Without(s, c))
  {
    WithoutKeeps(s, c);
    var w := Without(s, c);
    forall j | 0 <= j < |w|
      ensures w[j] != c
    {
      assert w[j] in w;
    }
    forall d: Category
      ensures d in [c] + w
    {
      assert d == c || d in w;
    }
  }

  lemma FrontedIsOrder(c: Category)
    ensures IsOrder(Fronted(c))
  {
    AllDistinct();
    forall d: Category
      ensures d in ALL
    {
      AllListed(d);
    }
    FrontedKeeps(ALL, c);
  }

  lemma FrontedWins(cfg: Config, scores: Scores, c: Category)
    requires Total(scores) && Best(cfg, scores, c)
    ensures FirstBest(cfg, scores, Fronted(c), 0)
  {
    forall j | 0 < j < |Fronted(c)| && Qualifies(cfg, scores, Fronted(c)[j])
      ensures NoBetter(cfg, scores, Fronted(c)[j], c)
    {
      AllListed(Fronted(c)[j]);
    }
  }

  ghost predicate SameForAllOrders(cfg: Config, scores: Scores)
    requires Total(scores)
  {
    forall o, p, i: nat, j: nat ::
      IsOrder(o) && IsOrder(p) && FirstBest(cfg, scores, o, i) && FirstBest(cfg, scores, p, j) ==> o[i] == p[j]
  }

  /** The category of the decision is the same for every order exactly when the best one is unique. */
  lemma CategoryDependsOnTies(cfg: Config, scores: Scores)
    requires Total(scores)
    ensures SameForAllOrders(cfg, scores)
            <==> forall c, d :: Best(cfg, scores, c) && Best(cfg, scores, d) ==> c == d
  {
    forall o, p, i: nat, j: nat |
      IsOrder(o) && IsOrder(p) && FirstBest(cfg, scores, o, i) && FirstBest(cfg, scores, p, j)
      ensures Best(cfg, scores, o[i]) && Best(cfg, scores, p[j])
    {
      FirstBestIsBest(cfg, scores, o, i);
      FirstBestIsBest(cfg, scores, p, j);
    }
    if SameForAllOrders(cfg, scores) {
      forall c, d | Best(cfg, scores, c) && Best(cfg, scores, d)
        ensures c == d
      {
        FrontedIsOrder(c);
        FrontedIsOrder(d);
        FrontedWins(cfg, scores, c);
        FrontedWins(cfg, scores, d);
        assert Fronted(c)[0] == Fronted(d)[0];
      }
    }
  }

  // ----- requests with a tie -----

  /** Exactly one row of the table of tool prefixes matches the name, and it is the category's. */
  ghost predicate OneRow(prefixes: seq<(string, Category)>, name: string, c: Category) {
    exists i :: 0 <= i < |prefixes| && OnlyRow(prefixes, name, c, i)
  }

  ghost predicate OnlyRow(prefixes: seq<(string, Category)>, name: string, c: Category, i: nat)
    requires i < |prefixes|
  {
    && prefixes[i].0 <= name && prefixes[i].1 == c
    && forall j :: 0 <= j < |prefixes| && j != i ==> !(prefixes[j].0 <= name)
  }

  lemma {:induction false} NoRowScore(prefixes: seq<(string, Category)>, name: string, d: Category)
    requires forall j :: 0 <= j < |prefixes| ==> !(prefixes[j].0 <= name)
    ensures PrefixScore(prefixes, name, d) == 0
  {
    if prefixes != [] { NoRowScore(prefixes[..|prefixes| - 1], name, d); }
  }

  lemma {:induction false} OneRowScore(prefixes: seq<(string, Category)>, name: string, c: Category, d: Category,
                                       i: nat)
    requires i < |prefixes| && OnlyRow(prefixes, name, c, i)
    ensures PrefixScore(prefixes, name, d) == if d == c then TOOL_MATCH_WEIGHT else 0
  {
    var n := |prefixes| - 1;
    if i == n {
      NoRowScore(prefixes[..n], name, d);
    } else {
      OneRowScore(prefixes[..n], name, c, d, i);
    }
  }

  /** No keyword occurs in the empty text: none is empty itself. */
  ghost predicate KeywordsSaySomething(t: Tables) {
    forall c, i :: 0 <= i < |t.keywords(c)| ==> t.keywords(c)[i].0 != ""
  }

  lemma {:induction false} SilentScore(words: seq<(string, nat)>)
    requires forall i :: 0 <= i < |words| ==> words[i].0 != ""
    ensures KeywordScore(words, "") == 0
  {
    if words != [] { SilentScore(words[..|words| - 1]); }
  }

  /** A request that says nothing and has two tools. */
  function TwoTools(first: string, second: string): Request {
    Request([Message("user", Text(""))], Some([first, second]))
  }

  lemma TwoToolScore(prefixes: seq<(string, Category)>, first: string, second: string, c: Category)
    ensures ToolScore(prefixes, [first, second], c)
            == PrefixScore(prefixes, Lower(first), c) + PrefixScore(prefixes, Lower(second), c)
  {
    var tools := [first, second];
    assert tools[..1] == [first] && tools[..1][..0] == [];
    assert ToolScore(prefixes, tools[..1], c) == PrefixScore(prefixes, Lower(first), c);
  }

  lemma {:induction false} NoKeywordScore(t: Tables, e: Category)
    requires KeywordsSaySomething(t)
    ensures KeywordScore(t.keywords(e), Lower("")) == 0
  {
    SilentScore(t.keywords(e));
    assert Lower("") == "";
  }

  lemma OneRowFound(prefixes: seq<(string, Category)>, name: string, c: Category, e: Category)
    requires OneRow(prefixes, name, c)
    ensures PrefixScore(prefixes, name, e) == if e == c then TOOL_MATCH_WEIGHT else 0
  {
    var i :| 0 <= i < |prefixes| && OnlyRow(prefixes, name, c, i);
    OneRowScore(prefixes, name, c, e, i);
  }

  lemma TieScore(t: Tables, first: string, second: string, c: Category, d: Category, e: Category)
    requires OneRow(t.prefixes, Lower(first), c) && OneRow(t.prefixes, Lower(second), d) && c != d
    requires KeywordsSaySomething(t)
    ensures Score(t, TwoTools(first, second), [], e) == if e == c || e == d then TOOL_MATCH_WEIGHT else 0
  {
    OneRowFound(t.prefixes, Lower(first), c, e);
    OneRowFound(t.prefixes, Lower(second), d, e);
    TwoToolScore(t.prefixes, first, second, e);
    NoKeywordScore(t, e);
  }

  lemma BestOfTie(cfg: Config, scores: Scores, c: Category, d: Category)
    requires Total(scores) && scores[c] == TOOL_MATCH_WEIGHT
    requires forall e :: scores[e] == if e == c || e == d then TOOL_MATCH_WEIGHT else 0
    requires PrimaryOf(cfg, c).Some? && ThresholdOf(cfg, c) == ThresholdOf(cfg, d) <= TOOL_MATCH_WEIGHT
    ensures Best(cfg, scores, c)
  {
  }

  lemma TwoBest(cfg: Config, scores: Scores, c: Category, d: Category)
    requires Total(scores) && c != d && Best(cfg, scores, c) && Best(cfg, scores, d)
    ensures !SameForAllOrders(cfg, scores)
  {
    CategoryDependsOnTies(cfg, scores);
  }

  /**
   * For any tables: two tools that each match one row, of two categories with primaries and one threshold
   * that a tool clears, make a request that is of the one category or the other as the map happens to be
   * walked.
   */
  lemma TieExists(t: Tables, cfg: Config, first: string, second: string, c: Category, d: Category, scores: Scores)
    requires OneRow(t.prefixes, Lower(first), c) && OneRow(t.prefixes, Lower(second), d) && c != d
    requires KeywordsSaySomething(t) && PrimaryOf(cfg, c).Some? && PrimaryOf(cfg, d).Some?
    requires ThresholdOf(cfg, c) == ThresholdOf(cfg, d) <= TOOL_MATCH_WEIGHT
    requires Total(scores) && forall e :: scores[e] == Score(t, TwoTools(first, second), [], e)
    ensures Best(cfg, scores, c) && Best(cfg, scores, d) && !SameForAllOrders(cfg, scores)
  {
    forall e
      ensures scores[e] == if e == c || e == d then TOOL_MATCH_WEIGHT else 0
    {
      TieScore(t, first, second, c, d, e);
    }
    BestOfTie(cfg, scores, c, d);
    BestOfTie(cfg, scores, d, c);
    TwoBest(cfg, scores, c, d);
  }

  // ----- more evidence never hurts -----

  lemma {:induction false} ToolsInserted(prefixes: seq<(string, Category)>, a: seq<string>, m: seq<string>,
                                         b: seq<string>, c: Category)
    ensures ToolScore(prefixes, a + b, c) <= ToolScore(prefixes, a + m + b, c)
    decreases |m| + |b|
  {
    if b != [] {
      ToolsInserted(prefixes, a, m, b[..|b| - 1], c);
      assert (a + b)[..|a + b| - 1] == a + b[..|b| - 1];
      assert (a + m + b)[..|a + m + b| - 1] == a + m + b[..|b| - 1];
    } else if m != [] {
      ToolsInserted(prefixes, a, m[..|m| - 1], [], c);
      assert a + b == a && a + m[..|m| - 1] + [] == a + m[..|m| - 1] && a + [] == a;
      assert (a + m + b)[..|a + m + b| - 1] == a + m[..|m| - 1];
    } else {
      assert a + m + b == a + b;
    }
  }

  lemma {:induction false} KeywordsGrow(words: seq<(string, nat)>, before: string, text: string, after: string)
    ensures KeywordScore(words, text) <= KeywordScore(words, before + text + after)
  {
    if words != [] {
      KeywordsGrow(words[..|words| - 1], before, text, after);
      if Contains(text, words[|words| - 1].0) {
        ContainsGrows(before, text, after, words[|words| - 1].0);
      }
    }
  }

  /** The request gained tools, at any place of its list, and text around what the user said last. */
  ghost predicate Grown(req: Request, more: Request, a: seq<string>, m: seq<string>, b: seq<string>,
                        before: string, after: string)
    requires req.messages != [] && more.messages != []
  {
    Tools(req) == a + b && Tools(more) == a + m + b
    && LastUserText(more.messages) == before + LastUserText(req.messages) + after
  }

  lemma ScoreGrows(t: Tables, req: Request, more: Request, recent: seq<Category>, c: Category,
                   a: seq<string>, m: seq<string>, b: seq<string>, before: string, after: string)
    requires req.messages != [] && more.messages != [] && Grown(req, more, a, m, b, before, after)
    ensures Score(t, req, recent, c) <= Score(t, more, recent, c)
  {
    ToolsInserted(t.prefixes, a, m, b, c);
    var text := LastUserText(req.messages);
    KeywordsGrow(t.keywords(c), Lower(before), Lower(text), Lower(after));
    assert Lower(before + text + after) == Lower(before) + Lower(text) + Lower(after);
  }

  /** With scores that only grew, a decision stays a decision and its numbers do not fall. */
  lemma DecisionGrows(cfg: Config, scores: Scores, higher: Scores, o: seq<Category>, p: seq<Category>,
                      d: Option<Decision>, e: Option<Decision>)
    requires Total(scores) && Total(higher) && forall c :: scores[c] <= higher[c]
    requires Detected(cfg, scores, o, d) && Detected(cfg, higher, p, e) && d.Some?
    ensures e.Some?
    ensures d.value.score < e.value.score
            || (d.value.score == e.value.score && d.value.threshold <= e.value.threshold)
  {
    AllListed(d.value.category);
    assert Qualifies(cfg, higher, d.value.category);
  }

  /**
   * Adding tools, or text around the last user text, never turns a decision into none and never
   * lowers its score, whatever the orders of the two walks.
   */
  lemma MoreEvidence(t: Tables, cfg: Config, req: Request, more: Request, recent: seq<Category>,
                     a: seq<string>, m: seq<string>, b: seq<string>, before: string, after: string,
                     scores: Scores, higher: Scores, o: seq<Category>, p: seq<Category>,
                     d: Option<Decision>, e: Option<Decision>)
    requires req.messages != [] && more.messages != [] && Grown(req, more, a, m, b, before, after)
    requires Total(scores) && forall c :: scores[c] == Score(t, req, recent, c)
    requires Total(higher) && forall c :: higher[c] == Score(t, more, recent, c)
    requires Detected(cfg, scores, o, d) && Detected(cfg, higher, p, e) && d.Some?
    ensures e.Some? && d.value.score <= e.value.score
  {
    forall c
      ensures scores[c] <= higher[c]
    {
      ScoreGrows(t, req, more, recent, c, a, m, b, before, after);
    }
    DecisionGrows(cfg, scores, higher, o, p, d, e);
  }

  /** New content for the last user message leaves it the last, and is what is scored. */
  lemma {:induction false} RewritingLast(messages: seq<Message>, content: Content)
    requires messages != []
    ensures var k := LastUserIndex(messages);
            var longer := messages[k].(content := content);
            LastUserIndex(messages[k := longer]) == k && LastUserText(messages[k := longer]) == ExtractText(content)
  {
    var n, k := |messages| - 1, LastUserIndex(messages);
    var longer := messages[k].(content := content);
    if messages[n].role != "user" && n != 0 {
      RewritingLast(messages[..n], content);
      assert messages[..n][k := longer] == messages[k := longer][..n];
    }
  }

  /** Content that goes on: a longer string, or one more part, of text or of another kind. */
  function GoesOn(c: Content, extra: string): seq<Content> {
    match c
    case Text(s) => [Text(s + extra)]
    case Parts(parts) => [Parts(parts + [Some(extra)]), Parts(parts + [None])]
    case Other => []
  }

  lemma {:induction false} NoTextNoLines(parts: seq<Option<string>>)
    requires !AnyText(parts)
    ensures JoinLines(parts) == ""
  {
    if parts != [] {
      var before := parts[..|parts| - 1];
      assert parts[|parts| - 1].None?;
      assert forall i :: 0 <= i < |before| ==> before[i] == parts[i];
      NoTextNoLines(before);
    }
  }

  lemma PartAdded(parts: seq<Option<string>>, part: Option<string>)
    ensures JoinLines(parts + [part])
            == if part.None? then JoinLines(parts)
               else if AnyText(parts) then JoinLines(parts) + "\n" + part.value else part.value
  {
    assert (parts + [part])[..|parts|] == parts;
  }

  lemma TextGoesOn(c: Content, extra: string, more: Content) returns (after: string)
    requires more in GoesOn(c, extra)
    ensures ExtractText(more) == ExtractText(c) + after
    ensures after in {extra, "\n" + extra, ""}
  {
    match c {
      case Text(s) => after := extra;
      case Parts(parts) =>
        PartAdded(parts, Some(extra));
        PartAdded(parts, None);
        if more == Parts(parts + [None]) {
          after := "";
        } else if AnyText(parts) {
          after := "\n" + extra;
          Assoc(JoinLines(parts), "\n", extra);
        } else {
          NoTextNoLines(parts);
          after := extra;
        }
    }
  }

  /**
   * Writing on in the last user message, in its string or by one more part of its list, keeps it the
   * last and only adds to the text that is scored: the request has grown.
   */
  lemma WritingOn(req: Request, extra: string, more: Content) returns (longer: Request, after: string)
    requires req.messages != [] && more in GoesOn(req.messages[LastUserIndex(req.messages)].content, extra)
    ensures var k := LastUserIndex(req.messages);
            longer == req.(messages := req.messages[k := req.messages[k].(content := more)])
            && LastUserIndex(longer.messages) == k && Grown(req, longer, Tools(req), [], [], "", after)
  {
    var k := LastUserIndex(req.messages);
    longer := req.(messages := req.messages[k := req.messages[k].(content := more)]);
    RewritingLast(req.messages, more);
    after := TextGoesOn(req.messages[k].content, extra, more);
    assert "" + LastUserText(req.messages) + after == LastUserText(req.messages) + after;
    assert Tools(req) + [] == Tools(req) && Tools(req) + [] + [] == Tools(req);
  }
}
