/** Router rules: first match over composite conditions, precompiled patterns, and
    the conversions a router passes through on its way to the data plane.
 */
module Routing {
  import opened Options

  const HOST := "host"
  const HOST_SUFFIX := "host_suffix"
  const PATH_PREFIX := "path_prefix"
  const PATH_REGEX := "path_regex"
  const METHOD := "method"
  const HEADER := "header"
  const CATCH_ALL := "catch_all"

  predicate ValidType(t: string)
  {
    t == HOST || t == HOST_SUFFIX || t == PATH_PREFIX || t == PATH_REGEX || t == METHOD || t == HEADER
    || t == CATCH_ALL
  }

  datatype Request = Request(host: string, path: string, verb: string)

  /** The library functions that rule evaluation calls; nothing is known of them. */
  datatype Library = Library(
    compiles: string -> bool,                  // regexp.Compile succeeds
    regexMatch: (string, string) -> bool,      // Regexp.MatchString
    globMatch: (string, string) -> Option<bool>, // filepath.Match; None is a bad pattern
    hostOnly: string -> string,                // hostWithoutPort
    equalFold: (string, string) -> bool,
    headerGet: (Request, string) -> string)

  /** `re` is the precompiled pattern.  It is not persisted and not sent. */
  datatype Condition = Condition(ctype: string, value: string, re: Option<string>)
  datatype Match = Match(ctype: string, value: string, all: seq<Condition>, any: seq<Condition>,
                         not: Option<Condition>, re: Option<string>)
  datatype Rule = Rule(id: string, match_: Match, target: string)
  datatype Router = Router(id: string, title: string, description: string, rules: seq<Rule>,
                           createdAt: int, updatedAt: int)

  function Map<A, B>(f: A -> B, xs: seq<A>): (ys: seq<B>)
    ensures |ys| == |xs| && forall i | 0 <= i < |xs| :: ys[i] == f(xs[i])
  {
    seq(|xs|, i requires 0 <= i < |xs| => f(xs[i]))
  }

  /** The append loops of the conversions compute `Map`. */
  method AppendAll<A, B>(f: A -> B, xs: seq<A>) returns (ys: seq<B>)
    ensures ys == Map(f, xs)
  {
    ys := [];
    for i := 0 to |xs|
      invariant |ys| == i && forall j | 0 <= j < i :: ys[j] == f(xs[j])
    {
      ys := ys + [f(xs[i])];
    }
  }

  // ---------- Conditions ----------

  predicate HasPrefix(s: string, prefix: string)
  {
    |prefix| <= |s| && s[..|prefix|] == prefix
  }

  predicate HasSuffix(s: string, suffix: string)
  {
    |suffix| <= |s| && s[|s| - |suffix|..] == suffix
  }

  function TrimDot(s: string): string
  {
    if HasPrefix(s, ".") then s[1..] else s
  }

  /** Position of the first colon, or the length when there is none. */
  function FirstColon(s: string): (k: nat)
    ensures k <= |s| && (k < |s| ==> s[k] == ':') && forall i | 0 <= i < k :: s[i] != ':'
  {
    if s == "" || s[0] == ':' then 0 else 1 + FirstColon(s[1..])
  }

  predicate HostSuffixMatches(host: string, value: string)
  {
    var suffix := if HasPrefix(value, ".") then value else "." + value;
    host == TrimDot(suffix) || HasSuffix(host, suffix)
  }

  predicate HeaderMatches(lib: Library, req: Request, value: string)
  {
    var k := FirstColon(value);
    k < |value| && lib.headerGet(req, value[..k]) == value[k + 1..]
  }

  /** What a condition says of a request, apart from whether its pattern happens to
      be compiled. */
  predicate Holds(lib: Library, ctype: string, value: string, req: Request)
  {
    if ctype == CATCH_ALL then true
    else if ctype == HOST then lib.globMatch(value, lib.hostOnly(req.host)) == Some(true)
    else if ctype == HOST_SUFFIX then HostSuffixMatches(lib.hostOnly(req.host), value)
    else if ctype == PATH_PREFIX then HasPrefix(req.path, value)
    else if ctype == PATH_REGEX then lib.compiles(value) && lib.regexMatch(value, req.path)
    else if ctype == METHOD then lib.equalFold(req.verb, value)
    else ctype == HEADER && HeaderMatches(lib, req, value)
  }

  /** `RouterCondition.evaluate`: a path_regex that is not compiled never matches. */
  predicate Evaluate(lib: Library, c: Condition, req: Request)
  {
    if c.ctype == PATH_REGEX then c.re.Some? && lib.regexMatch(c.re.value, req.path)
    else Holds(lib, c.ctype, c.value, req)
  }

  /** Ending in a suffix is being some prefix followed by it. */
  lemma SuffixSplit(host: string, suffix: string)
    ensures HasSuffix(host, suffix) <==> exists p: string :: host == p + suffix
  {
    if HasSuffix(host, suffix) {
      assert host == host[..|host| - |suffix|] + suffix;
    }
  }

  /** A host_suffix value means the domain itself or any name below it, with or
      without a leading dot in the value. */
  lemma HostSuffixMeaning(host: string, value: string)
    ensures HostSuffixMatches(host, value) <==>
      host == TrimDot(value) || exists p: string :: host == p + ("." + TrimDot(value))
  {
    var suffix := if HasPrefix(value, ".") then value else "." + value;
    assert suffix == "." + TrimDot(value);
    assert TrimDot(suffix) == TrimDot(value);
    SuffixSplit(host, suffix);
  }

  /** A path_prefix matches the paths that begin with the value. */
  lemma PathPrefixMeaning(lib: Library, value: string, req: Request)
    ensures Holds(lib, "path_prefix", value, req) <==> exists rest: string :: req.path == value + rest
  {
    if Holds(lib, "path_prefix", value, req) {
      assert req.path == value + req.path[|value|..];
    }
  }

  lemma {:induction false} ColonAfter(name: string, value: string)
    requires ':' !in name
    ensures FirstColon(name + ":" + value) == |name|
  {
    var s := name + ":" + value;
    assert s[|name|] == ':';
    assert forall i | 0 <= i < |name| :: s[i] == name[i];
  }

  /** A header value is a name and, after the first colon, what that header must be; without a
      colon it matches nothing. */
  lemma HeaderMeaning(lib: Library, name: string, value: string, req: Request)
    requires ':' !in name
    ensures Holds(lib, "header", name + ":" + value, req) <==> lib.headerGet(req, name) == value
    ensures !Holds(lib, "header", name, req)
  {
    var s := name + ":" + value;
    ColonAfter(name, value);
    assert s[..|name|] == name && s[|name| + 1..] == value;
  }

  /** Host conditions look at the host without its port, method conditions at the method
      regardless of case, and path conditions at the path.  An unknown type never matches. */
  lemma ConditionMeaning(lib: Library, ctype: string, value: string, req: Request)
    ensures Holds(lib, "catch_all", value, req)
    ensures Holds(lib, "host", value, req) <==> lib.globMatch(value, lib.hostOnly(req.host)) == Some(true)
    ensures Holds(lib, "host_suffix", value, req) <==>
      var domain := if value != "" && value[0] == '.' then value[1..] else value;
      lib.hostOnly(req.host) == domain || exists p: string :: lib.hostOnly(req.host) == p + ("." + domain)
    ensures Holds(lib, "path_regex", value, req) <==> lib.compiles(value) && lib.regexMatch(value, req.path)
    ensures Holds(lib, "method", value, req) <==> lib.equalFold(req.verb, value)
    ensures ctype !in {"catch_all", "host", "host_suffix", "path_prefix", "path_regex", "method", "header"} ==>
      !Holds(lib, ctype, value, req) && !ValidType(ctype)
    ensures ctype in {"catch_all", "host", "host_suffix", "path_prefix", "path_regex", "method", "header"} ==>
      ValidType(ctype)
  {
    HostSuffixMeaning(lib.hostOnly(req.host), value);
    assert TrimDot(value) == if value != "" && value[0] == '.' then value[1..] else value;
  }

  // ---------- Rules ----------

  /** What a rule says of a request: its `not` condition excludes; otherwise a valid
      shorthand decides; otherwise `all` when present; otherwise `any`. */
  ghost predicate Says(lib: Library, m: Match, req: Request)
  {
    && (m.not.Some? ==> !Holds(lib, m.not.value.ctype, m.not.value.value, req))
    && if ValidType(m.ctype) then Holds(lib, m.ctype, m.value, req)
       else if m.all != [] then forall c | c in m.all :: Holds(lib, c.ctype, c.value, req)
       else exists c | c in m.any :: Holds(lib, c.ctype, c.value, req)
  }

  /** Any number of conditions: `all` wants every one, `any` wants one, a shorthand overrides
      both, `all` overrides `any`, a `not` that holds overrules everything, and a match that
      says nothing matches nothing. */
  lemma MatchMeaning(lib: Library, m: Match, req: Request)
    ensures m.not.Some? && Holds(lib, m.not.value.ctype, m.not.value.value, req) ==> !Says(lib, m, req)
    ensures m.not.Some? && !Holds(lib, m.not.value.ctype, m.not.value.value, req) ==>
      (Says(lib, m, req) <==> Says(lib, m.(not := None), req))
    ensures m.not == None && ValidType(m.ctype) ==> (Says(lib, m, req) <==> Holds(lib, m.ctype, m.value, req))
    ensures m.not == None && !ValidType(m.ctype) && m.all != [] ==>
      (Says(lib, m, req) <==> !exists i :: 0 <= i < |m.all| && !Holds(lib, m.all[i].ctype, m.all[i].value, req))
    ensures m.not == None && !ValidType(m.ctype) && m.all == [] ==>
      (Says(lib, m, req) <==> exists i :: 0 <= i < |m.any| && Holds(lib, m.any[i].ctype, m.any[i].value, req))
  {
    assert forall i | 0 <= i < |m.all| :: m.all[i] in m.all;
    assert forall i | 0 <= i < |m.any| :: m.any[i] in m.any;
  }

  /** `RouterMatch.Evaluate`, loop by loop. */
  method EvaluateMatch(lib: Library, m: Match, req: Request) returns (matched: bool)
    ensures matched == Evaluates(lib, m, req)
  {
    if m.not.Some? {
      if Evaluate(lib, m.not.value, req) {
        return false;
      }
    }
    if ValidType(m.ctype) {
      return Evaluate(lib, Condition(m.ctype, m.value, m.re), req);
    }
    if |m.all| > 0 {
      for i := 0 to |m.all|
        invariant forall c | c in m.all[..i] :: Evaluate(lib, c, req)
      {
        if !Evaluate(lib, m.all[i], req) {
          return false;
        }
        assert m.all[..i + 1] == m.all[..i] + [m.all[i]];
      }
      assert m.all[..|m.all|] == m.all;
      return true;
    }
    if |m.any| > 0 {
      for i := 0 to |m.any|
        invariant forall c | c in m.any[..i] :: !Evaluate(lib, c, req)
      {
        if Evaluate(lib, m.any[i], req) {
          return true;
        }
        assert m.any[..i + 1] == m.any[..i] + [m.any[i]];
      }
      assert m.any[..|m.any|] == m.any;
      return false;
    }
    return false;
  }

  ghost predicate Evaluates(lib: Library, m: Match, req: Request)
  {
    && (m.not.Some? ==> !Evaluate(lib, m.not.value, req))
    && if ValidType(m.ctype) then Evaluate(lib, Condition(m.ctype, m.value, m.re), req)
       else if m.all != [] then forall c | c in m.all :: Evaluate(lib, c, req)
       else exists c | c in m.any :: Evaluate(lib, c, req)
  }

  // ---------- Compilation ----------

  function CompiledRe(ctype: string, value: string, re: Option<string>): Option<string>
  {
    if ctype == PATH_REGEX then Some(value) else re
  }

  function CompiledCondition(c: Condition): Condition
  {
    c.(re := CompiledRe(c.ctype, c.value, c.re))
  }

  function CompiledMatch(m: Match): Match
  {
    m.(re := CompiledRe(m.ctype, m.value, m.re),
       all := Map(CompiledCondition, m.all),
       any := Map(CompiledCondition, m.any),
       not := if m.not.Some? then Some(CompiledCondition(m.not.value)) else None)
  }

  function CompiledRule(r: Rule): Rule
  {
    r.(match_ := CompiledMatch(r.match_))
  }

  /** The pattern is needed and acceptable, or not needed. */
  predicate Compilable(lib: Library, ctype: string, value: string)
  {
    ctype == PATH_REGEX ==> lib.compiles(value)
  }

  predicate CompilableMatch(lib: Library, m: Match)
  {
    && Compilable(lib, m.ctype, m.value)
    && (forall c | c in m.all :: Compilable(lib, c.ctype, c.value))
    && (forall c | c in m.any :: Compilable(lib, c.ctype, c.value))
    && (m.not.Some? ==> Compilable(lib, m.not.value.ctype, m.not.value.value))
  }

  predicate CompilableRules(lib: Library, rules: seq<Rule>)
  {
    forall r | r in rules :: CompilableMatch(lib, r.match_)
  }

  /** The persisted part: what remains when precompiled patterns are dropped. */
  function StripCondition(c: Condition): Condition
  {
    c.(re := None)
  }

  function StripMatch(m: Match): Match
  {
    m.(re := None, all := Map(StripCondition, m.all), any := Map(StripCondition, m.any),
       not := if m.not.Some? then Some(StripCondition(m.not.value)) else None)
  }

  function StripRule(r: Rule): Rule
  {
    r.(match_ := StripMatch(r.match_))
  }

  /** No path_regex condition is left without its own compiled pattern. */
  ghost predicate FullyCompiled(m: Match)
  {
    && (m.ctype == PATH_REGEX ==> m.re == Some(m.value))
    && (forall c | c in m.all + m.any :: c.ctype == PATH_REGEX ==> c.re == Some(c.value))
    && (m.not.Some? && m.not.value.ctype == PATH_REGEX ==> m.not.value.re == Some(m.not.value.value))
  }

  /** The loop over `All` or `Any`: stops at the first bad pattern. */
  method CompileConditions(lib: Library, cs: seq<Condition>) returns (out: seq<Condition>, ok: bool)
    ensures ok == forall c | c in cs :: Compilable(lib, c.ctype, c.value)
    ensures ok ==> out == Map(CompiledCondition, cs)
    ensures Map(StripCondition, out) == Map(StripCondition, cs)
  {
    out := cs;
    for i := 0 to |cs|
      invariant |out| == |cs|
      invariant forall j | 0 <= j < i :: Compilable(lib, cs[j].ctype, cs[j].value) && out[j] == CompiledCondition(cs[j])
      invariant forall j | i <= j < |cs| :: out[j] == cs[j]
    {
      if cs[i].ctype == PATH_REGEX {
        if !lib.compiles(cs[i].value) {
          return out, false;
        }
        out := out[i := cs[i].(re := Some(cs[i].value))];
      }
    }
    ok := true;
  }

  method CompileMatch(lib: Library, m: Match) returns (out: Match, ok: bool)
    ensures ok == CompilableMatch(lib, m)
    ensures ok ==> out == CompiledMatch(m)
    ensures StripMatch(out) == StripMatch(m)
  {
    out := m;
    if m.ctype == PATH_REGEX {
      if !lib.compiles(m.value) {
        return out, false;
      }
      out := out.(re := Some(m.value));
    }
    var all, okAll := CompileConditions(lib, m.all);
    out := out.(all := all);
    if !okAll {
      return out, false;
    }
    var any, okAny := CompileConditions(lib, m.any);
    out := out.(any := any);
    if !okAny {
      return out, false;
    }
    if m.not.Some? && m.not.value.ctype == PATH_REGEX {
      if !lib.compiles(m.not.value.value) {
        return out, false;
      }
      out := out.(not := Some(m.not.value.(re := Some(m.not.value.value))));
    }
    ok := true;
  }

  // ---------- Validation ----------

  /** `validateRule`: the conditions under which a rule is accepted. */
  predicate ValidRule(r: Rule)
  {
    var m := r.match_;
    && (ValidType(m.ctype) || m.all != [] || m.any != [])
    && (ValidType(m.ctype) && m.ctype != CATCH_ALL ==> m.value != "")
    && (forall c | c in m.all :: ValidType(c.ctype))
    && (forall c | c in m.any :: ValidType(c.ctype))
    && (m.not.Some? ==> ValidType(m.not.value.ctype))
    && r.target != ""
  }

  predicate ValidRouter(lib: Library, rules: seq<Rule>)
  {
    (forall r | r in rules :: ValidRule(r)) && CompilableRules(lib, rules)
  }

  /** A rule is accepted exactly when it has a target, something to match, a value for a
      shorthand that needs one, and no condition of an unknown type. */
  lemma ValidRuleMeaning(r: Rule)
    ensures ValidRule(r) <==>
      var known := {"catch_all", "host", "host_suffix", "path_prefix", "path_regex", "method", "header"};
      && r.target != ""
      && (r.match_.ctype in known || |r.match_.all| > 0 || |r.match_.any| > 0)
      && (r.match_.ctype in known && r.match_.value == "" ==> r.match_.ctype == "catch_all")
      && (forall i | 0 <= i < |r.match_.all| :: r.match_.all[i].ctype in known)
      && (forall i | 0 <= i < |r.match_.any| :: r.match_.any[i].ctype in known)
      && (r.match_.not == None || r.match_.not.value.ctype in known)
  {
    var m := r.match_;
    assert forall i | 0 <= i < |m.all| :: m.all[i] in m.all;
    assert forall i | 0 <= i < |m.any| :: m.any[i] in m.any;
  }

  /** The router object of the data plane: compilation writes into its rules. */
  class RouterObject {
    var rules: seq<Rule>

    constructor (rules: seq<Rule>)
      ensures this.rules == rules
    {
      this.rules := rules;
    }

    /** Succeeds exactly when every pattern is acceptable; then every rule is
        compiled.  On failure the rules still mean the same configuration. */
    method Compile(lib: Library) returns (ok: bool)
      modifies this
      ensures ok == CompilableRules(lib, old(rules))
      ensures ok ==> rules == Map(CompiledRule, old(rules))
      ensures Map(StripRule, rules) == Map(StripRule, old(rules))
    {
      for i := 0 to |rules|
        invariant |rules| == |old(rules)|
        invariant forall j | 0 <= j < i ::
            CompilableMatch(lib, old(rules)[j].match_) && rules[j] == CompiledRule(old(rules)[j])
        invariant forall j | i <= j < |rules| :: rules[j] == old(rules)[j]
        invariant forall j | 0 <= j < |rules| :: StripRule(rules[j]) == StripRule(old(rules)[j])
      {
        var m, compiled := CompileMatch(lib, rules[i].match_);
        rules := rules[i := rules[i].(match_ := m)];
        if !compiled {
          return false;
        }
      }
      ok := true;
    }

    /** Accepts exactly the valid rule lists, and leaves accepted ones compiled. */
    method Validate(lib: Library) returns (ok: bool)
      modifies this
      ensures ok == ValidRouter(lib, old(rules))
      ensures ok ==> rules == Map(CompiledRule, old(rules))
      ensures Map(StripRule, rules) == Map(StripRule, old(rules))
    {
      for i := 0 to |rules|
        invariant rules == old(rules) && forall r | r in rules[..i] :: ValidRule(r)
      {
        if !ValidRule(rules[i]) {
          return false;
        }
        assert rules[..i + 1] == rules[..i] + [rules[i]];
      }
      assert rules[..|rules|] == rules;
      ok := Compile(lib);
    }

    /** The target of the first matching rule. */
    method Resolve(lib: Library, req: Request) returns (target: Option<string>)
      ensures target == FirstMatch(lib, rules, req)
    {
      for i := 0 to |rules|
        invariant forall j | 0 <= j < i :: !Evaluates(lib, rules[j].match_, req)
      {
        var matched := EvaluateMatch(lib, rules[i].match_, req);
        if matched {
          FirstMatchAt(lib, rules, req, i);
          return Some(rules[i].target);
        }
      }
      FirstMatchNone(lib, rules, req);
      target := None;
    }
  }

  /** Target of the first rule that evaluates to true. */
  ghost function FirstMatch(lib: Library, rules: seq<Rule>, req: Request): Option<string>
  {
    if rules == [] then None
    else if Evaluates(lib, rules[0].match_, req) then Some(rules[0].target)
    else FirstMatch(lib, rules[1..], req)
  }

  lemma {:induction false} FirstMatchAt(lib: Library, rules: seq<Rule>, req: Request, k: nat)
    requires k < |rules| && Evaluates(lib, rules[k].match_, req)
    requires forall j | 0 <= j < k :: !Evaluates(lib, rules[j].match_, req)
    ensures FirstMatch(lib, rules, req) == Some(rules[k].target)
  {
    if k > 0 {
      FirstMatchAt(lib, rules[1..], req, k - 1);
    }
  }

  lemma {:induction false} FirstMatchNone(lib: Library, rules: seq<Rule>, req: Request)
    requires forall j | 0 <= j < |rules| :: !Evaluates(lib, rules[j].match_, req)
    ensures FirstMatch(lib, rules, req) == None
  {
    if rules != [] {
      FirstMatchNone(lib, rules[1..], req);
    }
  }

  // ---------- What resolution means ----------

  /** After a successful validation no path_regex condition is left uncompiled. */
  lemma ValidateCompilesAll(m: Match)
    ensures FullyCompiled(CompiledMatch(m))
  {
  }

  /** Evaluating a compiled rule gives the meaning of its configuration. */
  lemma CompiledMatchSays(lib: Library, m: Match, req: Request)
    requires CompilableMatch(lib, m)
    ensures Evaluates(lib, CompiledMatch(m), req) == Says(lib, m, req)
  {
    var c := CompiledMatch(m);
    assert forall i | 0 <= i < |m.all| :: c.all[i].ctype == m.all[i].ctype && c.all[i].value == m.all[i].value;
    assert forall i | 0 <= i < |m.any| :: c.any[i].ctype == m.any[i].ctype && c.any[i].value == m.any[i].value;
    if m.not.Some? {
      assert Evaluate(lib, c.not.value, req) == Holds(lib, m.not.value.ctype, m.not.value.value, req);
    }
    if !ValidType(m.ctype) && m.all == [] {
      ConditionsAgree(lib, m.any, c.any, req);
    } else if !ValidType(m.ctype) {
      ConditionsAgree(lib, m.all, c.all, req);
    }
  }

  lemma ConditionsAgree(lib: Library, cs: seq<Condition>, compiled: seq<Condition>, req: Request)
    requires compiled == Map(CompiledCondition, cs)
    requires forall c | c in cs :: Compilable(lib, c.ctype, c.value)
    ensures (forall c | c in compiled :: Evaluate(lib, c, req))
        <==> (forall c | c in cs :: Holds(lib, c.ctype, c.value, req))
    ensures (exists c | c in compiled :: Evaluate(lib, c, req))
        <==> (exists c | c in cs :: Holds(lib, c.ctype, c.value, req))
  {
    forall i | 0 <= i < |cs|
      ensures Evaluate(lib, compiled[i], req) == Holds(lib, cs[i].ctype, cs[i].value, req)
    {
      assert cs[i] in cs;
    }
    if exists c | c in cs :: Holds(lib, c.ctype, c.value, req) {
      var i :| 0 <= i < |cs| && Holds(lib, cs[i].ctype, cs[i].value, req);
      assert compiled[i] in compiled;
    }
    if exists c | c in compiled :: Evaluate(lib, c, req) {
      var i :| 0 <= i < |compiled| && Evaluate(lib, compiled[i], req);
      assert cs[i] in cs;
    }
    if forall c | c in compiled :: Evaluate(lib, c, req) {
      forall i | 0 <= i < |cs|
        ensures Holds(lib, cs[i].ctype, cs[i].value, req)
      {
        assert compiled[i] in compiled;
      }
    }
    if forall c | c in cs :: Holds(lib, c.ctype, c.value, req) {
      forall i | 0 <= i < |cs|
        ensures Evaluate(lib, compiled[i], req)
      {
        assert cs[i] in cs;
      }
    }
  }

  /** On a validated router, resolution returns the target of the least-index rule
      whose configuration says yes, and nothing exactly when no rule does (`k` is
      that index, or the number of rules). */
  lemma ResolveMeaning(lib: Library, rules: seq<Rule>, req: Request) returns (k: nat)
    requires CompilableRules(lib, rules)
    ensures k <= |rules|
    ensures forall j | 0 <= j < k :: !Says(lib, rules[j].match_, req)
    ensures k < |rules| ==> Says(lib, rules[k].match_, req)
    ensures FirstMatch(lib, Map(CompiledRule, rules), req)
         == if k < |rules| then Some(rules[k].target) else None
  {
    k := 0;
    while k < |rules| && !Says(lib, rules[k].match_, req)
      invariant k <= |rules|
      invariant forall j | 0 <= j < k :: !Says(lib, rules[j].match_, req)
    {
      k := k + 1;
    }
    var compiled := Map(CompiledRule, rules);
    forall j | 0 <= j < |rules|
      ensures Evaluates(lib, compiled[j].match_, req) == Says(lib, rules[j].match_, req)
    {
      CompiledMatchSays(lib, rules[j].match_, req);
    }
    if k < |rules| {
      FirstMatchAt(lib, compiled, req, k);
    } else {
      FirstMatchNone(lib, compiled, req);
    }
  }

  /** Rules after a catch_all without a `not` are dead: dropping them changes no
      resolution. */
  lemma {:induction false} CatchAllEndsRouter(lib: Library, rules: seq<Rule>, k: nat, req: Request)
    requires k < |rules| && rules[k].match_.ctype == CATCH_ALL && rules[k].match_.not == None
    ensures FirstMatch(lib, rules, req) == FirstMatch(lib, rules[..k + 1], req)
  {
    if k > 0 {
      CatchAllEndsRouter(lib, rules[1..], k - 1, req);
      assert rules[1..][..k] == rules[..k + 1][1..];
    }
  }

  // ---------- Conversions ----------

  // Specification documents (internal/schema/router/v1) and the wire messages.
  datatype ConditionSpec = ConditionSpec(ctype: string, value: string)
  datatype MatchSpec = MatchSpec(ctype: string, value: string, all: seq<ConditionSpec>, any: seq<ConditionSpec>,
                                 not: Option<ConditionSpec>)
  datatype RuleSpec = RuleSpec(id: string, match_: MatchSpec, target: string)
  datatype RouterSpec = RouterSpec(title: string, description: string, rules: seq<RuleSpec>)

  datatype ConditionMessage = ConditionMessage(ctype: string, value: string)
  datatype MatchMessage = MatchMessage(ctype: string, value: string, all: seq<ConditionMessage>,
                                       any: seq<ConditionMessage>, not: Option<ConditionMessage>)
  datatype RuleMessage = RuleMessage(id: string, match_: Option<MatchMessage>, target: string)
  datatype RouterMessage = RouterMessage(id: string, title: string, description: string, rules: seq<RuleMessage>,
                                         createdAt: int, updatedAt: int)
  datatype SpecMessage = SpecMessage(title: string, description: string, rules: seq<RuleMessage>)

  function MapOption<A, B>(f: A -> B, o: Option<A>): Option<B>
  {
    if o.Some? then Some(f(o.value)) else None
  }

  // Domain to wire (server) and back (client).
  function ConditionToMessage(c: Condition): ConditionMessage { ConditionMessage(c.ctype, c.value) }
  function ConditionFromMessage(p: ConditionMessage): Condition { Condition(p.ctype, p.value, None) }

  function RuleToMessage(r: Rule): RuleMessage
  {
    var m := r.match_;
    RuleMessage(r.id,
                Some(MatchMessage(m.ctype, m.value, Map(ConditionToMessage, m.all), Map(ConditionToMessage, m.any),
                                  MapOption(ConditionToMessage, m.not))),
                r.target)
  }

  function MatchFromMessage(p: Option<MatchMessage>): Match
  {
    match p
    case None => Match("", "", [], [], None, None)
    case Some(m) =>
      Match(m.ctype, m.value, Map(ConditionFromMessage, m.all), Map(ConditionFromMessage, m.any),
            MapOption(ConditionFromMessage, m.not), None)
  }

  function RuleFromMessage(p: RuleMessage): Rule
  {
    Rule(p.id, MatchFromMessage(p.match_), p.target)
  }

  function RouterToMessage(r: Router): RouterMessage
  {
    RouterMessage(r.id, r.title, r.description, Map(RuleToMessage, r.rules), r.createdAt, r.updatedAt)
  }

  /** The client does not read the timestamps of the message. */
  function RouterFromMessage(p: RouterMessage): Router
  {
    Router(p.id, p.title, p.description, Map(RuleFromMessage, p.rules), 0, 0)
  }

  // Specification to wire (client) and back (server).
  function ConditionSpecToMessage(c: ConditionSpec): ConditionMessage { ConditionMessage(c.ctype, c.value) }
  function ConditionSpecFromMessage(p: ConditionMessage): ConditionSpec { ConditionSpec(p.ctype, p.value) }

  function RuleSpecToMessage(r: RuleSpec): RuleMessage
  {
    var m := r.match_;
    RuleMessage(r.id,
                Some(MatchMessage(m.ctype, m.value, Map(ConditionSpecToMessage, m.all),
                                  Map(ConditionSpecToMessage, m.any), MapOption(ConditionSpecToMessage, m.not))),
                r.target)
  }

  function MatchSpecFromMessage(p: Option<MatchMessage>): MatchSpec
  {
    match p
    case None => MatchSpec("", "", [], [], None)
    case Some(m) =>
      MatchSpec(m.ctype, m.value, Map(ConditionSpecFromMessage, m.all), Map(ConditionSpecFromMessage, m.any),
                MapOption(ConditionSpecFromMessage, m.not))
  }

  function RuleSpecFromMessage(p: RuleMessage): RuleSpec
  {
    RuleSpec(p.id, MatchSpecFromMessage(p.match_), p.target)
  }

  function SpecToMessage(s: RouterSpec): SpecMessage
  {
    SpecMessage(s.title, s.description, Map(RuleSpecToMessage, s.rules))
  }

  function SpecFromMessage(p: SpecMessage): RouterSpec
  {
    RouterSpec(p.title, p.description, Map(RuleSpecFromMessage, p.rules))
  }

  // Specification to domain, on apply, and the specification of a stored router.
  function ConditionFromSpec(c: ConditionSpec): Condition { Condition(c.ctype, c.value, None) }
  function ConditionToSpec(c: Condition): ConditionSpec { ConditionSpec(c.ctype, c.value) }

  function RuleFromSpec(r: RuleSpec): Rule
  {
    var m := r.match_;
    Rule(r.id,
         Match(m.ctype, m.value, Map(ConditionFromSpec, m.all), Map(ConditionFromSpec, m.any),
               MapOption(ConditionFromSpec, m.not), None),
         r.target)
  }

  function RuleToSpec(r: Rule): RuleSpec
  {
    var m := r.match_;
    RuleSpec(r.id,
             MatchSpec(m.ctype, m.value, Map(ConditionToSpec, m.all), Map(ConditionToSpec, m.any),
                       MapOption(ConditionToSpec, m.not)),
             r.target)
  }

  ghost predicate Carried(cs: seq<ConditionMessage>, types: seq<string>, values: seq<string>)
  {
    |cs| == |types| == |values| && forall i | 0 <= i < |cs| :: cs[i].ctype == types[i] && cs[i].value == values[i]
  }

  function CType(c: Condition): string { c.ctype }
  function CValue(c: Condition): string { c.value }

  /** A message carries each field of the rule in the field of that name. */
  lemma MessageCarries(r: Rule)
    ensures var p := RuleToMessage(r);
      && p.id == r.id && p.target == r.target && p.match_.Some?
      && var m := p.match_.value;
         && m.ctype == r.match_.ctype && m.value == r.match_.value
         && Carried(m.all, Map(CType, r.match_.all), Map(CValue, r.match_.all))
         && Carried(m.any, Map(CType, r.match_.any), Map(CValue, r.match_.any))
         && (m.not == None <==> r.match_.not == None)
         && (m.not.Some? ==> m.not.value == ConditionMessage(r.match_.not.value.ctype, r.match_.not.value.value))
  {
  }

  /** A rule that arrives without a match matches nothing. */
  lemma EmptyMessageMatchesNothing(lib: Library, id: string, target: string, req: Request)
    ensures !Says(lib, RuleFromMessage(RuleMessage(id, None, target)).match_, req)
  {
  }

  lemma RuleRoundTrip(r: Rule)
    ensures RuleFromMessage(RuleToMessage(r)) == StripRule(r)
  {
    var back, strip := RuleFromMessage(RuleToMessage(r)).match_, StripMatch(r.match_);
    assert back.all == strip.all;
    assert back.any == strip.any;
  }

  lemma RuleSpecRoundTrip(r: RuleSpec)
    ensures RuleSpecFromMessage(RuleSpecToMessage(r)) == r
  {
    var back := RuleSpecFromMessage(RuleSpecToMessage(r)).match_;
    assert back.all == r.match_.all;
    assert back.any == r.match_.any;
  }

  /** A rule read back from its own specification is the stored rule. */
  lemma RuleDumpRoundTrip(r: Rule)
    ensures RuleFromSpec(RuleToSpec(r)) == StripRule(r)
  {
    var back, strip := RuleFromSpec(RuleToSpec(r)).match_, StripMatch(r.match_);
    assert back.all == strip.all;
    assert back.any == strip.any;
  }

  /** The specification of the rule built from a specification is that specification. */
  lemma RuleSpecDumpRoundTrip(r: RuleSpec)
    ensures RuleToSpec(RuleFromSpec(r)) == r
  {
    var back := RuleToSpec(RuleFromSpec(r)).match_;
    assert back.all == r.match_.all;
    assert back.any == r.match_.any;
  }

  lemma StripKeepsMeaning(lib: Library, m: Match, req: Request)
    ensures Says(lib, StripMatch(m), req) == Says(lib, m, req)
    ensures CompilableMatch(lib, StripMatch(m)) == CompilableMatch(lib, m)
  {
    var s := StripMatch(m);
    StripConditions(lib, m.all, s.all, req);
    StripConditions(lib, m.any, s.any, req);
  }

  lemma StripConditions(lib: Library, cs: seq<Condition>, stripped: seq<Condition>, req: Request)
    requires stripped == Map(StripCondition, cs)
    ensures (forall c | c in stripped :: Holds(lib, c.ctype, c.value, req))
        <==> (forall c | c in cs :: Holds(lib, c.ctype, c.value, req))
    ensures (forall c | c in stripped :: !Holds(lib, c.ctype, c.value, req))
        <==> (forall c | c in cs :: !Holds(lib, c.ctype, c.value, req))
    ensures (forall c | c in stripped :: Compilable(lib, c.ctype, c.value))
        <==> (forall c | c in cs :: Compilable(lib, c.ctype, c.value))
  {
    assert forall i | 0 <= i < |cs| :: stripped[i] in stripped && cs[i] in cs;
    assert forall c | c in cs :: exists i | 0 <= i < |cs| :: cs[i] == c && stripped[i] == StripCondition(c);
    assert forall c | c in stripped :: exists i | 0 <= i < |cs| :: stripped[i] == c && c == StripCondition(cs[i]);
  }

  /** Sending a validated router over the wire and compiling it there resolves every
      request as the original does. */
  lemma WireKeepsResolution(lib: Library, router: Router, req: Request)
    requires CompilableRules(lib, router.rules)
    ensures var back := RouterFromMessage(RouterToMessage(router));
      back.id == router.id && back.title == router.title && back.description == router.description
    ensures var received := RouterFromMessage(RouterToMessage(router)).rules;
      && received == Map(StripRule, router.rules)
      && CompilableRules(lib, received)
      && FirstMatch(lib, Map(CompiledRule, received), req)
           == FirstMatch(lib, Map(CompiledRule, router.rules), req)
  {
    var received := RouterFromMessage(RouterToMessage(router)).rules;
    forall i | 0 <= i < |router.rules|
      ensures received[i] == StripRule(router.rules[i])
      ensures CompilableMatch(lib, received[i].match_)
      ensures Says(lib, received[i].match_, req) == Says(lib, router.rules[i].match_, req)
    {
      RuleRoundTrip(router.rules[i]);
      StripKeepsMeaning(lib, router.rules[i].match_, req);
    }
    assert received == Map(StripRule, router.rules);
    var k := ResolveMeaning(lib, router.rules, req);
    var k' := ResolveMeaning(lib, received, req);
    assert k == k';
  }

  /** A specification applied through the wire is the specification itself, so it
      builds the same router as one applied locally. */
  lemma WireKeepsSpec(spec: RouterSpec)
    ensures SpecFromMessage(SpecToMessage(spec)) == spec
  {
    var back := SpecFromMessage(SpecToMessage(spec));
    forall i | 0 <= i < |spec.rules|
      ensures back.rules[i] == spec.rules[i]
    {
      RuleSpecRoundTrip(spec.rules[i]);
    }
    assert back.rules == spec.rules;
  }
}
