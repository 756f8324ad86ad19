/** The robots.txt decision of the playwright worker (playwright-worker/worker/robots.py): which rules
    govern ScrapeFlow, and which of them decides a path. */
module Robots {
  datatype Rule = Rule(allow: bool, prefix: string)

  datatype Line = Blank | Agent(name: string) | RuleLine(rule: Rule) | Other

  // ----- one line ------------------------------------------------------------------------------------------

  /** What `str.strip` removes, as far as ASCII goes. */
  predicate IsSpace(c: char) {
    c == ' ' || '\t' <= c <= '\r' || '\U{1C}' <= c <= '\U{1F}'
  }

  function StripLeft(s: string): string {
    if s != "" && IsSpace(s[0]) then StripLeft(s[1..]) else s
  }

  function StripRight(s: string): string {
    if s != "" && IsSpace(s[|s| - 1]) then StripRight(s[..|s| - 1]) else s
  }

  function Strip(s: string): string {
    StripRight(StripLeft(s))
  }

  function Lower(s: string): string {
    seq(|s|, i requires 0 <= i < |s| => if 'A' <= s[i] <= 'Z' then s[i] + 32 as char else s[i])
  }

  /** The position of `c`, or the length. */
  function Find(s: string, c: char): (k: nat)
    ensures k <= |s| && c !in s[..k] && (k < |s| ==> s[k] == c)
  {
    if s == "" || s[0] == c then 0
    else
      var k := Find(s[1..], c);
      assert s[..k + 1] == [s[0]] + s[1..][..k];
      k + 1
  }

  function ParseLine(raw: string): Line {
    var line := Strip(raw[..Find(raw, '#')]);
    if line == "" then Blank
    else if Find(line, ':') == |line| then Other
    else
      var field, value := Lower(Strip(line[..Find(line, ':')])), Strip(line[Find(line, ':') + 1..]);
      if field == "user-agent" then Agent(Lower(value))
      else if field == "disallow" then RuleLine(Rule(false, value))
      else if field == "allow" then RuleLine(Rule(true, value))
      else Other
  }

  predicate Padding(s: string) {
    forall i :: 0 <= i < |s| ==> IsSpace(s[i])
  }

  predicate Trimmed(s: string) {
    s == "" || (!IsSpace(s[0]) && !IsSpace(s[|s| - 1]))
  }

  lemma {:induction false} StripLeftPad(a: string, x: string)
    requires Padding(a) && (x == "" || !IsSpace(x[0]))
    ensures StripLeft(a + x) == x
  {
    if a == "" {
      assert a + x == x;
    } else {
      assert (a + x)[1..] == a[1..] + x;
      StripLeftPad(a[1..], x);
    }
  }

  lemma {:induction false} StripRightPad(x: string, b: string)
    requires Padding(b) && (x == "" || !IsSpace(x[|x| - 1]))
    ensures StripRight(x + b) == x
  {
    if b == "" {
      assert x + b == x;
    } else {
      assert (x + b)[..|x + b| - 1] == x + b[..|b| - 1];
      StripRightPad(x, b[..|b| - 1]);
    }
  }

  lemma StripPad(a: string, x: string, b: string)
    requires Padding(a) && Padding(b) && Trimmed(x)
    ensures Strip(a + x + b) == x
  {
    if x == "" {
      StripLeftPad(a + b, "");
      assert a + x + b == a + b + "";
    } else {
      StripLeftPad(a, x + b);
      assert a + x + b == a + (x + b);
      StripRightPad(x, b);
    }
  }

  lemma {:induction false} FindAt(s: string, c: char, t: string)
    requires c !in s && (t == "" || t[0] == c)
    ensures Find(s + t, c) == |s| && (s + t)[..|s|] == s && (s + t)[|s|..] == t
  {
    if s == "" {
      assert s + t == t;
    } else {
      FindAt(s[1..], c, t);
      assert (s + t)[1..] == s[1..] + t;
    }
  }

  /** What a line says, however it is spaced and whatever comment follows: a field and a value. */
  lemma LineReads(pad: string, field: string, gap: string, lead: string, value: string, tail: string, comment: string)
    requires Padding(pad) && Padding(gap) && Padding(lead) && Padding(tail)
    requires Trimmed(field) && field != "" && ':' !in field && '#' !in field && Trimmed(value) && '#' !in value
    requires comment == "" || comment[0] == '#'
    ensures var line := ParseLine(pad + field + gap + ":" + lead + value + tail + comment);
            && (Lower(field) == "disallow" ==> line == RuleLine(Rule(false, value)))
            && (Lower(field) == "allow" ==> line == RuleLine(Rule(true, value)))
            && (Lower(field) == "user-agent" ==> line == Agent(Lower(value)))
            && (Lower(field) !in {"disallow", "allow", "user-agent"} ==> line == Other)
  {
    hide Strip, Find, Lower;
    var core := field + gap + ":" + lead + value;
    var full := pad + field + gap + ":" + lead + value + tail;
    FindAt(full, '#', comment);
    CoreStrips(pad, field, gap, lead, value, tail);
    var line := Strip(full);
    var rest := line[|field + gap| + 1..];
    assert line == (field + gap) + (":" + rest);
    FindAt(field + gap, ':', ":" + rest);
    assert line != "" && |field + gap| < |line|;
    StripPad("", field, gap);
    assert "" + field + gap == field + gap == line[..|field + gap|];
    assert Strip(rest) == value;
  }

  /** Stripping the line leaves the field and, stripped again behind the colon, the value. */
  lemma CoreStrips(pad: string, field: string, gap: string, lead: string, value: string, tail: string)
    requires Padding(pad) && Padding(gap) && Padding(lead) && Padding(tail)
    requires Trimmed(field) && field != "" && Trimmed(value)
    ensures var line := Strip(pad + field + gap + ":" + lead + value + tail);
            && |line| > |field + gap| && line[..|field + gap| + 1] == field + gap + ":"
            && Strip(line[|field + gap| + 1..]) == value
  {
    hide Strip;
    var head := field + gap + ":";
    if value == "" {
      StripPad(pad, head, lead + tail);
      assert pad + head + (lead + tail) == pad + field + gap + ":" + lead + value + tail;
      StripPad("", "", "");
      assert head[|field + gap| + 1..] == "" + "" + "";
    } else {
      var core := head + lead + value;
      assert core[0] == field[0] && core[|core| - 1] == value[|value| - 1];
      StripPad(pad, core, tail);
      assert pad + core + tail == pad + field + gap + ":" + lead + value + tail;
      StripPad(lead, value, "");
      assert core[|head|..] == lead + value + "";
      assert core[..|head|] == head;
    }
  }

  /** A line of nothing but space and a comment is blank. */
  lemma BlankReads(pad: string, comment: string)
    requires Padding(pad) && (comment == "" || comment[0] == '#')
    ensures ParseLine(pad + comment) == Blank
  {
    FindAt(pad, '#', comment);
    StripPad(pad, "", "");
    assert pad + "" + "" == pad;
  }

  /** Case and tabs do not matter. */
  lemma DisallowExample()
    ensures ParseLine("\tDisAllow : /p # x") == RuleLine(Rule(false, "/p"))
  {
    hide ParseLine;
    assert Lower("DisAllow") == "disallow";
    LineReads("\t", "DisAllow", " ", " ", "/p", " ", "# x");
    assert "\t" + "DisAllow" + " " + ":" + " " + "/p" + " " + "# x" == "\tDisAllow : /p # x";
  }

  lemma AllowExample()
    ensures ParseLine("ALLOW:/p") == RuleLine(Rule(true, "/p"))
  {
    hide ParseLine;
    assert Lower("ALLOW") == "allow";
    LineReads("", "ALLOW", "", "", "/p", "", "");
    assert "" + "ALLOW" + "" + ":" + "" + "/p" + "" + "" == "ALLOW:/p";
  }

  lemma AgentExample()
    ensures ParseLine("User-Agent: ScrapeFlow") == Agent("scrapeflow")
  {
    hide ParseLine;
    assert Lower("User-Agent") == "user-agent" && Lower("ScrapeFlow") == "scrapeflow";
    LineReads("", "User-Agent", "", " ", "ScrapeFlow", "", "");
    assert "" + "User-Agent" + "" + ":" + " " + "ScrapeFlow" + "" + "" == "User-Agent: ScrapeFlow";
  }

  // ----- which rules govern an agent ---------------------------------------------------------------------------

  /** `current_agents` after the first n lines. */
  function Agents(lines: seq<Line>, n: nat): seq<string>
    requires n <= |lines|
  {
    if n == 0 then []
    else match lines[n - 1]
         case Blank => []
         case Agent(name) => Agents(lines, n - 1) + [name]
         case _ => Agents(lines, n - 1)
  }

  function Copies(r: Rule, agents: seq<string>, agent: string): seq<Rule> {
    if agents == [] then [] else (if agents[0] == agent then [r] else []) + Copies(r, agents[1..], agent)
  }

  /** The rules the first n lines give an agent, in their order. */
  function RulesFor(lines: seq<Line>, n: nat, agent: string): seq<Rule>
    requires n <= |lines|
  {
    if n == 0 then []
    else RulesFor(lines, n - 1, agent) +
         match lines[n - 1]
         case RuleLine(r) => Copies(r, Agents(lines, n - 1), agent)
         case _ => []
  }

  /** A rule line governs an agent named on an earlier line when no blank line comes between. */
  ghost predicate Governs(lines: seq<Line>, i: nat, agent: string) {
    && i < |lines| && lines[i].RuleLine?
    && exists j :: 0 <= j < i && lines[j] == Agent(agent) && NoBlank(lines, j, i)
  }

  ghost predicate NoBlank(lines: seq<Line>, j: nat, i: nat)
    requires i <= |lines|
  {
    forall m :: j < m < i ==> !lines[m].Blank?
  }

  lemma {:induction false} AgentsInForce(lines: seq<Line>, n: nat, agent: string)
    requires n <= |lines|
    ensures agent in Agents(lines, n) <==> exists j :: 0 <= j < n && lines[j] == Agent(agent) && NoBlank(lines, j, n)
  {
    if n > 0 {
      AgentsInForce(lines, n - 1, agent);
      if j :| 0 <= j < n - 1 && lines[j] == Agent(agent) && NoBlank(lines, j, n - 1) && !lines[n - 1].Blank? {
        assert NoBlank(lines, j, n);
      }
      if j :| 0 <= j < n && lines[j] == Agent(agent) && NoBlank(lines, j, n) {
        if j < n - 1 {
          assert NoBlank(lines, j, n - 1);
        }
      }
    }
  }

  lemma NoCopies(r: Rule)
    ensures forall agent :: Copies(r, [], agent) == []
  {
  }

  lemma {:induction false} CopiesOf(r: Rule, agents: seq<string>, agent: string)
    ensures forall c :: c in Copies(r, agents, agent) <==> c == r && agent in agents
  {
    if agents != [] {
      CopiesOf(r, agents[1..], agent);
      assert agents == [agents[0]] + agents[1..];
    }
  }

  lemma GovernsIsInForce(lines: seq<Line>, i: nat, agent: string)
    requires i < |lines| && lines[i].RuleLine?
    ensures Governs(lines, i, agent) <==> agent in Agents(lines, i)
  {
    AgentsInForce(lines, i, agent);
  }

  lemma NoRuleGovernsNot(lines: seq<Line>, i: nat, agent: string)
    requires i < |lines| && !lines[i].RuleLine?
    ensures !Governs(lines, i, agent)
  {
  }

  ghost predicate GivenBefore(lines: seq<Line>, n: nat, agent: string, r: Rule)
    requires n <= |lines|
  {
    exists i :: 0 <= i < n && Governs(lines, i, agent) && lines[i] == RuleLine(r)
  }

  lemma GivenNext(lines: seq<Line>, n: nat, agent: string, r: Rule)
    requires n < |lines|
    ensures GivenBefore(lines, n + 1, agent, r) <==>
            GivenBefore(lines, n, agent, r) || (Governs(lines, n, agent) && lines[n] == RuleLine(r))
  {
    hide Governs;
    if i :| 0 <= i < n && Governs(lines, i, agent) && lines[i] == RuleLine(r) {
      assert GivenBefore(lines, n + 1, agent, r);
    }
  }

  lemma NoRules(lines: seq<Line>, agent: string)
    ensures RulesFor(lines, 0, agent) == []
  {
  }

  lemma RulesStep(lines: seq<Line>, n: nat, agent: string)
    requires n < |lines|
    ensures RulesFor(lines, n + 1, agent) ==
            RulesFor(lines, n, agent) + if lines[n].RuleLine? then Copies(lines[n].rule, Agents(lines, n), agent) else []
  {
    hide Copies, Agents;
  }

  lemma NoneGivenYet(lines: seq<Line>, agent: string, r: Rule)
    ensures !GivenBefore(lines, 0, agent, r)
  {
  }

  /** The loop gives an agent exactly the rules of the lines that govern it. */
  lemma {:induction false} RulesAreTheGoverning(lines: seq<Line>, n: nat, agent: string, r: Rule)
    requires n <= |lines|
    ensures r in RulesFor(lines, n, agent) <==> GivenBefore(lines, n, agent, r)
  {
    hide Governs, GivenBefore, Copies, Agents, RulesFor;
    if n == 0 {
      NoRules(lines, agent);
      NoneGivenYet(lines, agent, r);
    } else {
      RulesAreTheGoverning(lines, n - 1, agent, r);
      GivenNext(lines, n - 1, agent, r);
      RulesStep(lines, n - 1, agent);
      if lines[n - 1].RuleLine? {
        GovernsIsInForce(lines, n - 1, agent);
        CopiesOf(lines[n - 1].rule, Agents(lines, n - 1), agent);
      } else {
        NoRuleGovernsNot(lines, n - 1, agent);
      }
    }
  }

  // ----- which rule decides -------------------------------------------------------------------------------------

  predicate Matches(r: Rule, path: string) {
    r.prefix != "" && r.prefix <= path
  }

  /** The first of the longest matching rules. */
  predicate Decides(rules: seq<Rule>, path: string, k: int) {
    && 0 <= k < |rules| && Matches(rules[k], path)
    && (forall i :: 0 <= i < |rules| && Matches(rules[i], path) ==> |rules[i].prefix| <= |rules[k].prefix|)
    && (forall i :: 0 <= i < k && Matches(rules[i], path) ==> |rules[i].prefix| < |rules[k].prefix|)
  }

  ghost predicate Disallowed(rules: seq<Rule>, path: string) {
    exists k :: Decides(rules, path, k) && !rules[k].allow
  }

  /** `_apply_rules`. */
  method ApplyRules(rules: seq<Rule>, path: string) returns (disallowed: bool)
    ensures disallowed <==> Disallowed(rules, path)
    // The longest prefix decides, the first of several; an empty one matches nothing.
    ensures disallowed <==>
              exists k :: && 0 <= k < |rules| && !rules[k].allow && rules[k].prefix != "" && rules[k].prefix <= path
                          && (forall i :: 0 <= i < |rules| && rules[i].prefix <= path ==>
                                |rules[i].prefix| <= |rules[k].prefix|)
                          && (forall i :: 0 <= i < k && rules[i].prefix <= path ==> |rules[i].prefix| < |rules[k].prefix|)
  {
    var bestLen, bestAllow := -1, true;
    ghost var best := 0;
    for i := 0 to |rules|
      invariant bestLen == -1 ==> bestAllow && forall j :: 0 <= j < i ==> !Matches(rules[j], path)
      invariant bestLen != -1 ==> Decides(rules[..i], path, best)
      invariant bestLen != -1 ==> bestLen == |rules[best].prefix| && bestAllow == rules[best].allow
    {
      var r := rules[i];
      assert forall j :: 0 <= j < i ==> rules[..i][j] == rules[j] == rules[..i + 1][j];
      assert rules[..i + 1][i] == r;
      if r.prefix == "" {
        continue;
      }
      if r.prefix <= path && |r.prefix| > bestLen {
        bestLen, bestAllow := |r.prefix|, r.allow;
        best := i;
      }
    }
    assert rules[..|rules|] == rules;
    disallowed := !bestAllow;
    if bestLen != -1 {
      OneDecides(rules, path, best);
    }
  }

  lemma OneDecides(rules: seq<Rule>, path: string, k: int)
    requires Decides(rules, path, k)
    ensures forall i :: Decides(rules, path, i) ==> i == k
  {
  }

  lemma {:induction false} SomeDecides(rules: seq<Rule>, path: string, i: nat)
    requires i < |rules| && Matches(rules[i], path)
    ensures exists k :: Decides(rules, path, k)
  {
    var front := rules[..|rules| - 1];
    var last := rules[|rules| - 1];
    if j :| 0 <= j < |front| && Matches(front[j], path) {
      SomeDecides(front, path, j);
      var k :| Decides(front, path, k);
      assert front[k] == rules[k];
      if Matches(last, path) && |last.prefix| > |rules[k].prefix| {
        assert Decides(rules, path, |rules| - 1);
      } else {
        assert Decides(rules, path, k);
      }
    } else {
      assert forall j :: 0 <= j < |front| ==> rules[j] == front[j];
      assert Decides(rules, path, |rules| - 1);
    }
  }

  /** No prefix of the path is both allowed and disallowed. */
  ghost predicate Consistent(rules: seq<Rule>, path: string) {
    forall r, q :: r in rules && q in rules && Matches(r, path) && r.prefix == q.prefix ==> r.allow == q.allow
  }

  /** Then the order of the rules, and repeating one, do not matter. */
  lemma OrderDoesNotMatter(rules: seq<Rule>, others: seq<Rule>, path: string)
    requires Consistent(rules, path) && forall r :: r in rules <==> r in others
    ensures Disallowed(rules, path) <==> Disallowed(others, path)
  {
    if k :| Decides(rules, path, k) {
      SameVerdict(rules, others, path, k);
    } else if k :| Decides(others, path, k) {
      assert others[k] in rules;
      var i :| 0 <= i < |rules| && rules[i] == others[k];
      SomeDecides(rules, path, i);
    }
  }

  lemma SameVerdict(rules: seq<Rule>, others: seq<Rule>, path: string, k: int)
    requires Consistent(rules, path) && (forall r :: r in rules <==> r in others) && Decides(rules, path, k)
    ensures Disallowed(rules, path) <==> Disallowed(others, path)
  {
    OneDecides(rules, path, k);
    assert rules[k] in others;
    var i :| 0 <= i < |others| && others[i] == rules[k];
    SomeDecides(others, path, i);
    var m :| Decides(others, path, m);
    OneDecides(others, path, m);
    assert others[m] in rules;
    var j :| 0 <= j < |rules| && rules[j] == others[m];
    assert others[m].prefix == path[..|others[m].prefix|] == rules[k].prefix;
  }

  /** Section 2.2.2 of RFC 9309, for literal paths: the match of the most octets, and allow if an allow and
      a disallow tie. */
  ghost predicate RfcDisallowed(rules: seq<Rule>, path: string) {
    exists r :: r in rules && Matches(r, path) && !r.allow
                && forall q :: q in rules && Matches(q, path) ==>
                     |q.prefix| < |r.prefix| || (|q.prefix| == |r.prefix| && !q.allow)
  }

  /** The verdict is the standard's exactly when it is not a disallow that ties with a later allow of the
      same prefix. */
  lemma FollowsRfcExactly(rules: seq<Rule>, path: string)
    ensures (Disallowed(rules, path) <==> RfcDisallowed(rules, path)) <==>
            !exists k :: Decides(rules, path, k) && !rules[k].allow && Rule(true, rules[k].prefix) in rules
  {
    if k :| Decides(rules, path, k) {
      OneDecides(rules, path, k);
      RfcOfDecider(rules, path, k);
    } else if r :| r in rules && Matches(r, path) {
      var i :| 0 <= i < |rules| && rules[i] == r;
      SomeDecides(rules, path, i);
    }
  }

  lemma RfcOfDecider(rules: seq<Rule>, path: string, k: int)
    requires Decides(rules, path, k)
    ensures RfcDisallowed(rules, path) <==> !rules[k].allow && Rule(true, rules[k].prefix) !in rules
  {
    if r :| r in rules && Matches(r, path) && !r.allow
            && forall q :: q in rules && Matches(q, path) ==> |q.prefix| < |r.prefix| || (|q.prefix| == |r.prefix| && !q.allow)
    {
      assert rules[k] in rules;
      assert r.prefix == path[..|r.prefix|] && rules[k].prefix == path[..|rules[k].prefix|];
    }
    if !rules[k].allow && Rule(true, rules[k].prefix) !in rules {
      assert rules[k] in rules;
      forall q | q in rules && Matches(q, path)
        ensures |q.prefix| < |rules[k].prefix| || (|q.prefix| == |rules[k].prefix| && !q.allow)
      {
        var i :| 0 <= i < |rules| && rules[i] == q;
        if |q.prefix| == |rules[k].prefix| {
          assert q.prefix == path[..|q.prefix|] == rules[k].prefix;
          assert q == Rule(q.allow, rules[k].prefix);
        }
      }
    }
  }

  /** Such a tie: the standard allows the page, the worker does not fetch it. */
  lemma TieGoesToTheFirst()
    ensures var rules := [Rule(false, "/a"), Rule(true, "/a")];
            Disallowed(rules, "/a") && !RfcDisallowed(rules, "/a")
  {
    var rules := [Rule(false, "/a"), Rule(true, "/a")];
    assert Decides(rules, "/a", 0);
    assert rules[1] in rules;
    RfcOfDecider(rules, "/a", 0);
  }

  // ----- the whole text --------------------------------------------------------------------------------------------

  const OURS := "scrapeflow"
  const ANY := "*"

  /** The rules that decide: ScrapeFlow's own if there is one, or else everybody's. */
  function Governing(lines: seq<Line>): seq<Rule> {
    if RulesFor(lines, |lines|, OURS) != [] then RulesFor(lines, |lines|, OURS) else RulesFor(lines, |lines|, ANY)
  }

  function Parsed(raw: seq<string>): seq<Line> {
    seq(|raw|, i requires 0 <= i < |raw| => ParseLine(raw[i]))
  }

  /** `_is_path_disallowed`, on the lines of the text. */
  method IsPathDisallowed(raw: seq<string>, path: string) returns (disallowed: bool)
    ensures disallowed <==> Disallowed(Governing(Parsed(raw)), path)
    ensures var lines := Parsed(raw);
            if exists i :: Governs(lines, i, "scrapeflow") then
              disallowed <==> Disallowed(RulesFor(lines, |lines|, "scrapeflow"), path)
            else disallowed <==> Disallowed(RulesFor(lines, |lines|, "*"), path)
  {
    SomeOfOurs(Parsed(raw));
    hide ParseLine, Disallowed, Copies;
    ghost var lines := Parsed(raw);
    var ours: seq<Rule>, everybodys: seq<Rule> := [], [];
    var currentAgents: seq<string>, inBlock := [], false;
    for i := 0 to |raw|
      invariant currentAgents == Agents(lines, i) && (inBlock <==> currentAgents != [])
      invariant ours == RulesFor(lines, i, OURS) && everybodys == RulesFor(lines, i, ANY)
    {
      match ParseLine(raw[i]) {
        case Blank =>
          currentAgents, inBlock := [], false;
        case Agent(name) =>
          currentAgents, inBlock := currentAgents + [name], true;
        case RuleLine(rule) =>
          NoCopies(rule);
          if inBlock {
            var a, b := Attribute(currentAgents, rule);
            ours, everybodys := ours + a, everybodys + b;
          }
        case Other =>
      }
    }
    disallowed := ApplyRules(if ours != [] then ours else everybodys, path);
  }

  lemma SomeOfOurs(lines: seq<Line>)
    ensures RulesFor(lines, |lines|, OURS) != [] <==> exists i :: Governs(lines, i, OURS)
  {
    hide RulesFor;
    var rules := RulesFor(lines, |lines|, OURS);
    if rules != [] {
      assert rules[0] in rules;
      RulesAreTheGoverning(lines, |lines|, OURS, rules[0]);
    }
    if i: nat :| Governs(lines, i, OURS) {
      assert i < |lines| && lines[i].RuleLine?;
      RulesAreTheGoverning(lines, |lines|, OURS, lines[i].rule);
    }
  }

  /** The inner loop over `current_agents`. */
  method Attribute(agents: seq<string>, rule: Rule) returns (ours: seq<Rule>, everybodys: seq<Rule>)
    ensures ours == Copies(rule, agents, OURS) && everybodys == Copies(rule, agents, ANY)
  {
    ours, everybodys := [], [];
    for i := 0 to |agents|
      invariant ours + Copies(rule, agents[i..], OURS) == Copies(rule, agents, OURS)
      invariant everybodys + Copies(rule, agents[i..], ANY) == Copies(rule, agents, ANY)
    {
      assert agents[i..][1..] == agents[i + 1..];
      if agents[i] == OURS {
        ours := ours + [rule];
      } else if agents[i] == ANY {
        everybodys := everybodys + [rule];
      }
    }
    assert agents[|agents|..] == [];
  }

  /** The text with every `User-agent: *` line struck out. */
  function WithoutAny(lines: seq<Line>): (r: seq<Line>)
    ensures |r| == |lines|
  {
    seq(|lines|, i requires 0 <= i < |lines| => if lines[i] == Agent(ANY) then Other else lines[i])
  }

  /** Once a rule governs ScrapeFlow, the wildcard's groups might as well not be there. */
  lemma WildcardIsIgnored(lines: seq<Line>, i: nat, path: string)
    requires Governs(lines, i, OURS)
    ensures Disallowed(Governing(lines), path) <==> Disallowed(Governing(WithoutAny(lines)), path)
  {
    RulesAreTheGoverning(lines, |lines|, OURS, lines[i].rule);
    SameRules(lines, |lines|, OURS);
  }

  lemma StruckOut(lines: seq<Line>, i: nat)
    requires i < |lines|
    ensures lines[i].RuleLine? ==> WithoutAny(lines)[i] == lines[i]
    ensures !lines[i].RuleLine? ==> !WithoutAny(lines)[i].RuleLine?
  {
  }

  lemma {:induction false} SameRules(lines: seq<Line>, n: nat, agent: string)
    requires n <= |lines| && agent != ANY
    ensures RulesFor(WithoutAny(lines), n, agent) == RulesFor(lines, n, agent)
  {
    hide Copies, Agents, WithoutAny, RulesFor;
    if n == 0 {
      NoRules(lines, agent);
      NoRules(WithoutAny(lines), agent);
    } else {
      SameRules(lines, n - 1, agent);
      StruckOut(lines, n - 1);
      RulesStep(lines, n - 1, agent);
      RulesStep(WithoutAny(lines), n - 1, agent);
      if lines[n - 1].RuleLine? {
        SameCopies(lines, n - 1, lines[n - 1].rule, agent);
      }
    }
  }

  lemma {:induction false} SameCopies(lines: seq<Line>, n: nat, r: Rule, agent: string)
    requires n <= |lines| && agent != ANY
    ensures Copies(r, Agents(WithoutAny(lines), n), agent) == Copies(r, Agents(lines, n), agent)
  {
    if n > 0 {
      hide Copies;
      SameCopies(lines, n - 1, r, agent);
      if lines[n - 1].Agent? {
        CopiesSnoc(r, Agents(lines, n - 1), lines[n - 1].name, agent);
        CopiesSnoc(r, Agents(WithoutAny(lines), n - 1), lines[n - 1].name, agent);
      }
    }
  }

  lemma {:induction false} CopiesSnoc(r: Rule, agents: seq<string>, name: string, agent: string)
    ensures Copies(r, agents + [name], agent) == Copies(r, agents, agent) + if name == agent then [r] else []
  {
    if agents == [] {
      assert ([] + [name])[1..] == [];
    } else {
      CopiesSnoc(r, agents[1..], name, agent);
      assert (agents + [name])[1..] == agents[1..] + [name];
    }
  }
}
