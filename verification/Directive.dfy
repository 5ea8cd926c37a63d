/** Conditions of conditional compilation: the recursive-descent evaluator and what
    it computes for a printed condition. Characters stand for source bytes. */
module Directive {
  import opened Ir

  type Text = seq<char>
  type Env = map<Text, Text>

  predicate IsSpace(c: char) { c == ' ' || c == '\t' || c == '\r' || c == '\n' }
  predicate IsAlpha(c: char) { 'a' <= c <= 'z' || 'A' <= c <= 'Z' }
  predicate IsDigit(c: char) { '0' <= c <= '9' }
  predicate IsWord(c: char) { IsAlpha(c) || IsDigit(c) || c == '_' }

  function Lower(c: char): char {
    if 'A' <= c <= 'Z' then (c as int + 32) as char else c
  }

  predicate SaysFalse(s: Text) {
    |s| == 5 && Lower(s[0]) == 'f' && Lower(s[1]) == 'a' && Lower(s[2]) == 'l' && Lower(s[3]) == 's' && Lower(s[4]) == 'e'
  }

  predicate Truthy(s: Text) {
    s != "" && s != "0" && !SaysFalse(s)
  }

  /** A name without a value is false. */
  predicate Holds(env: Env, name: Text) {
    name in env && Truthy(env[name])
  }

  // ---- The evaluator, as a function of the text still to be read ----------------------------

  datatype Parsed<+T> = Ok(v: T, rest: Text) | Bad

  datatype Value = Bool(b: bool) | Ident(name: Text) | Literal(s: Text)

  predicate AsBool(v: Value) {
    match v
    case Bool(b) => b
    case Ident(name) => Truthy(name)
    case Literal(s) => Truthy(s)
  }

  function AsText(v: Value, env: Env): Text {
    match v
    case Bool(b) => if b then "true" else "false"
    case Ident(name) => if name in env then env[name] else name
    case Literal(s) => s
  }

  function Skip(s: Text): (r: Text)
    ensures |r| <= |s| && (r != [] ==> !IsSpace(r[0]))
  {
    if s != [] && IsSpace(s[0]) then Skip(s[1..]) else s
  }

  function WordEnd(s: Text): (n: nat)
    ensures n <= |s| && (n < |s| ==> !IsWord(s[n])) && forall i :: 0 <= i < n ==> IsWord(s[i])
  {
    if s != [] && IsWord(s[0]) then 1 + WordEnd(s[1..]) else 0
  }

  function Find(c: char, s: Text): (r: Option<nat>)
    ensures r.Some? ==> r.value < |s| && s[r.value] == c
  {
    if s == [] then None
    else if s[0] == c then Some(0)
    else match Find(c, s[1..])
      case Some(n) => Some(n + 1)
      case None => None
  }

  function Later(n: nat, r: Option<nat>): Option<nat> {
    if r.Some? then Some(n + r.value) else None
  }

  lemma FindStep(c: char, s: Text)
    requires s != []
    ensures Find(c, s) == if s[0] == c then Some(0) else Later(1, Find(c, s[1..]))
  {
  }

  lemma FindNothing(c: char)
    ensures Find(c, []) == None
  {
  }

  /** A string, up to the next quote like its first character. */
  function ParseQuoted(t: Text): (r: Parsed<Value>)
    requires t != []
    ensures r.Ok? ==> |r.rest| < |t|
  {
    match Find(t[0], t[1..])
    case Some(n) => Ok(Literal(t[1..][..n]), t[1..][n + 1..])
    case None => Bad
  }

  function ParseValue(s: Text): (r: Parsed<Value>)
    ensures r.Ok? ==> |r.rest| < |s|
  {
    var t := Skip(s);
    if t == [] then Bad
    else if IsAlpha(t[0]) || t[0] == '_' then Ok(Ident(t[..WordEnd(t)]), t[WordEnd(t)..])
    else if IsDigit(t[0]) then Ok(Literal(t[..WordEnd(t)]), t[WordEnd(t)..])
    else if t[0] == '\'' || t[0] == '"' then
      ParseQuoted(t)
    else Bad
  }

  function ParseComparison(s: Text, env: Env): (r: Parsed<Value>)
    ensures r.Ok? ==> |r.rest| < |s|
  {
    match ParseValue(s)
    case Bad => Bad
    case Ok(left, rest) =>
      var t := Skip(rest);
      if "=" <= t || "#" <= t then
        match ParseValue(t[1..])
        case Bad => Bad
        case Ok(right, rest2) =>
          var same := AsText(left, env) == AsText(right, env);
          Ok(Bool(if "=" <= t then same else !same), rest2)
      else if left.Ident? then Ok(Bool(Holds(env, left.name)), t)
      else Ok(left, t)
  }

  function ParsePrimary(s: Text, env: Env): (r: Parsed<bool>)
    ensures r.Ok? ==> |r.rest| < |s|
    decreases |s|, 0
  {
    var t := Skip(s);
    if t == [] then Bad
    else if t[0] == '(' then
      match ParseOr(t[1..], env)
      case Bad => Bad
      case Ok(v, rest) =>
        var u := Skip(rest);
        if ")" <= u then Ok(v, u[1..]) else Bad
    else
      match ParseComparison(t, env)
      case Bad => Bad
      case Ok(v, rest) => Ok(AsBool(v), rest)
  }

  function ParseUnary(s: Text, env: Env): (r: Parsed<bool>)
    ensures r.Ok? ==> |r.rest| < |s|
    decreases |s|, 1
  {
    var t := Skip(s);
    if "!" <= t then
      match ParseUnary(t[1..], env)
      case Bad => Bad
      case Ok(v, rest) => Ok(!v, rest)
    else ParsePrimary(t, env)
  }

  function ParseAnd(s: Text, env: Env): (r: Parsed<bool>)
    ensures r.Ok? ==> |r.rest| < |s|
    decreases |s|, 2
  {
    match ParseUnary(s, env)
    case Bad => Bad
    case Ok(v, rest) => AndTail(v, rest, env)
  }

  function AndTail(left: bool, s: Text, env: Env): (r: Parsed<bool>)
    ensures r.Ok? ==> |r.rest| <= |s|
    decreases |s|, 2
  {
    var t := Skip(s);
    if "&&" <= t then
      match ParseUnary(t[2..], env)
      case Bad => Bad
      case Ok(v, rest) => AndTail(left && v, rest, env)
    else Ok(left, t)
  }

  function ParseOr(s: Text, env: Env): (r: Parsed<bool>)
    ensures r.Ok? ==> |r.rest| < |s|
    decreases |s|, 4
  {
    match ParseAnd(s, env)
    case Bad => Bad
    case Ok(v, rest) => OrTail(v, rest, env)
  }

  function OrTail(left: bool, s: Text, env: Env): (r: Parsed<bool>)
    ensures r.Ok? ==> |r.rest| <= |s|
    decreases |s|, 4
  {
    var t := Skip(s);
    if "||" <= t then
      match ParseAnd(t[2..], env)
      case Bad => Bad
      case Ok(v, rest) => OrTail(left || v, rest, env)
    else Ok(left, t)
  }

  /** The value of a whole condition; None when it is not one. */
  function Evaluate(s: Text, env: Env): Option<bool> {
    match ParseOr(s, env)
    case Bad => None
    case Ok(v, rest) => if Skip(rest) == [] then Some(v) else None
  }

  // ---- The evaluator with its cursor -----------------------------------------------------------

  class ExprParser {
    const src: Text
    const env: Env
    var pos: nat

    ghost predicate Valid()
      reads this
    {
      pos <= |src|
    }

    ghost function Ahead(): Text
      reads this
      requires Valid()
    {
      src[pos..]
    }

    /** `r` and the cursor are as the function says. */
    ghost predicate Did<T>(r: Option<T>, spec: Parsed<T>)
      reads this
      requires Valid()
    {
      match spec
      case Ok(v, rest) => r == Some(v) && Ahead() == rest
      case Bad => r.None?
    }

    constructor (src: Text, env: Env)
      ensures Valid() && this.src == src && this.env == env && Ahead() == src
    {
      this.src, this.env, pos := src, env, 0;
    }

    method SkipSpace()
      requires Valid()
      modifies this
      ensures Valid() && Ahead() == Skip(old(Ahead()))
    {
      while pos < |src| && IsSpace(src[pos])
        invariant Valid() && Skip(Ahead()) == Skip(old(Ahead()))
      {
        assert src[pos..][1..] == src[pos + 1..];
        pos := pos + 1;
      }
    }

    method Matches(p: Text) returns (yes: bool)
      requires Valid() && p != []
      modifies this
      ensures Valid() && yes == (p <= old(Ahead())) && Ahead() == if yes then old(Ahead())[|p|..] else old(Ahead())
    {
      yes := p <= src[pos..];
      if yes {
        assert src[pos..][|p|..] == src[pos + |p|..];
        pos := pos + |p|;
      }
    }

    method Word() returns (w: Text)
      requires Valid()
      modifies this
      ensures Valid() && w == old(Ahead())[..WordEnd(old(Ahead()))] && Ahead() == old(Ahead())[WordEnd(old(Ahead()))..]
    {
      var start := pos;
      while pos < |src| && IsWord(src[pos])
        invariant start <= pos <= |src| && start == old(pos)
        invariant WordEnd(old(Ahead())) == (pos - start) + WordEnd(Ahead())
      {
        assert src[pos..][1..] == src[pos + 1..];
        pos := pos + 1;
      }
      w := src[start..pos];
      assert old(Ahead())[..pos - start] == w && old(Ahead())[pos - start..] == src[pos..];
    }

    /** On to the next quote; is there one? */
    method ToQuote(quote: char) returns (found: bool)
      requires Valid()
      modifies this
      ensures Valid() && old(pos) <= pos && (found ==> pos < |src|)
      ensures Find(quote, old(Ahead())) == if found then Some(pos - old(pos)) else None
    {
      hide Find;
      while pos < |src| && src[pos] != quote
        invariant old(pos) <= pos <= |src|
        invariant Find(quote, src[old(pos)..]) == Later(pos - old(pos), Find(quote, src[pos..]))
      {
        assert src[pos..][1..] == src[pos + 1..];
        FindStep(quote, src[pos..]);
        pos := pos + 1;
      }
      found := pos < |src|;
      if found {
        FindStep(quote, src[pos..]);
      } else {
        FindNothing(quote);
      }
    }

    method StringValue() returns (r: Option<Value>)
      requires Valid() && pos < |src|
      modifies this
      ensures Valid() && Did(r, ParseQuoted(old(Ahead())))
    {
      hide Find;
      var quote := src[pos];
      pos := pos + 1;
      var start := pos;
      assert old(Ahead())[1..] == src[start..];
      var found := ToQuote(quote);
      if found {
        r := Some(Literal(src[start..pos]));
        Cut(src[start..], start, pos);
        pos := pos + 1;
      } else {
        r := None;
      }
    }

    lemma Cut(body: Text, start: nat, n: nat)
      requires start <= n < |src| && body == src[start..]
      ensures body[..n - start] == src[start..n] && body[n - start + 1..] == src[n + 1..]
    {
    }

    method ParseOperand() returns (r: Option<Value>)
      requires Valid()
      modifies this
      ensures Valid() && Did(r, ParseValue(old(Ahead())))
    {
      SkipSpace();
      if pos == |src| {
        return None;
      }
      var c := src[pos];
      if IsAlpha(c) || c == '_' {
        var w := Word();
        r := Some(Ident(w));
      } else if IsDigit(c) {
        var w := Word();
        r := Some(Literal(w));
      } else if c == '\'' || c == '"' {
        r := StringValue();
      } else {
        r := None;
      }
    }

    method Comparison() returns (r: Option<Value>)
      requires Valid()
      modifies this
      ensures Valid() && Did(r, ParseComparison(old(Ahead()), env))
    {
      hide ParseValue;
      var left := ParseOperand();
      if left.None? {
        return None;
      }
      SkipSpace();
      var eq := Matches("=");
      var ne := false;
      if !eq {
        ne := Matches("#");
      }
      if eq || ne {
        var right := ParseOperand();
        if right.None? {
          return None;
        }
        var same := AsText(left.value, env) == AsText(right.value, env);
        return Some(Bool(if eq then same else !same));
      }
      if left.value.Ident? {
        return Some(Bool(Holds(env, left.value.name)));
      }
      r := left;
    }

    method Primary() returns (r: Option<bool>)
      requires Valid()
      modifies this
      ensures Valid() && Did(r, ParsePrimary(old(Ahead()), env))
      decreases |Ahead()|, 0
    {
      hide ParseComparison, ParseOr;
      SkipSpace();
      if pos == |src| {
        return None;
      }
      if src[pos] == '(' {
        assert src[pos..][1..] == src[pos + 1..];
        pos := pos + 1;
        r := Disjunction();
        if r.None? {
          return;
        }
        SkipSpace();
        var closed := Matches(")");
        if !closed {
          r := None;
        }
      } else {
        var v := Comparison();
        r := if v.Some? then Some(AsBool(v.value)) else None;
      }
    }

    method Negation() returns (r: Option<bool>)
      requires Valid()
      modifies this
      ensures Valid() && Did(r, ParseUnary(old(Ahead()), env))
      decreases |Ahead()|, 1
    {
      hide ParsePrimary;
      SkipSpace();
      var not := Matches("!");
      if not {
        r := Negation();
        r := if r.Some? then Some(!r.value) else None;
      } else {
        r := Primary();
      }
    }

    method Conjunction() returns (r: Option<bool>)
      requires Valid()
      modifies this
      ensures Valid() && Did(r, ParseAnd(old(Ahead()), env))
      decreases |Ahead()|, 2
    {
      hide ParseUnary;
      r := Negation();
      if r.None? {
        return;
      }
      while true
        invariant Valid() && |Ahead()| < |old(Ahead())| && r.Some? && ParseAnd(old(Ahead()), env) == AndTail(r.value, Ahead(), env)
        decreases |Ahead()|
      {
        ghost var before := Ahead();
        SkipSpace();
        var more := Matches("&&");
        if !more {
          return;
        }
        var right := Negation();
        if right.None? {
          return None;
        }
        r := Some(r.value && right.value);
      }
    }

    method Disjunction() returns (r: Option<bool>)
      requires Valid()
      modifies this
      ensures Valid() && Did(r, ParseOr(old(Ahead()), env))
      decreases |Ahead()|, 4
    {
      hide ParseAnd;
      r := Conjunction();
      if r.None? {
        return;
      }
      while true
        invariant Valid() && |Ahead()| < |old(Ahead())| && r.Some? && ParseOr(old(Ahead()), env) == OrTail(r.value, Ahead(), env)
        decreases |Ahead()|
      {
        SkipSpace();
        var more := Matches("||");
        if !more {
          return;
        }
        var right := Conjunction();
        if right.None? {
          return None;
        }
        r := Some(r.value || right.value);
      }
    }
  }

  /** Evaluate a whole condition; None when it is not one. */
  method EvalExpr(s: Text, env: Env) returns (r: Option<bool>)
    ensures r == Evaluate(s, env)
  {
    var p := new ExprParser(s, env);
    r := p.Disjunction();
    if r.Some? {
      p.SkipSpace();
      if p.pos != |p.src| {
        r := None;
      }
    }
  }

  // ---- Conditions as trees -------------------------------------------------------------------------

  datatype Operand = Name(s: Text) | Number(s: Text) | Quoted(q: char, s: Text)

  datatype Cond =
    | Test(o: Operand)
    | Compare(l: Operand, equal: bool, r: Operand)
    | Not(c: Cond)
    | And(a: Cond, b: Cond)
    | Or(a: Cond, b: Cond)

  ghost predicate AllWord(s: Text) {
    forall i :: 0 <= i < |s| ==> IsWord(s[i])
  }

  ghost predicate WfOperand(o: Operand) {
    match o
    case Name(s) => s != [] && (IsAlpha(s[0]) || s[0] == '_') && AllWord(s)
    case Number(s) => s != [] && IsDigit(s[0]) && AllWord(s)
    case Quoted(q, s) => (q == '\'' || q == '"') && q !in s && '%' !in s
  }

  ghost predicate WfCond(c: Cond) {
    match c
    case Test(o) => WfOperand(o)
    case Compare(l, _, r) => WfOperand(l) && WfOperand(r)
    case Not(d) => WfCond(d)
    case And(a, b) => WfCond(a) && WfCond(b)
    case Or(a, b) => WfCond(a) && WfCond(b)
  }

  function OperandText(o: Operand, env: Env): Text {
    match o
    case Name(s) => if s in env then env[s] else s
    case Number(s) => s
    case Quoted(_, s) => s
  }

  /** Neither empty, nor 0, nor the word false. */
  ghost predicate Affirms(s: Text) {
    s != "" && s != "0" && !(|s| == 5 && forall i :: 0 <= i < 5 ==> s[i] == "false"[i] || s[i] == "FALSE"[i])
  }

  /** What a condition means. */
  ghost predicate Meaning(c: Cond, env: Env) {
    match c
    case Test(Name(s)) => s in env && Affirms(env[s])
    case Test(o) => Affirms(o.s)
    case Compare(l, equal, r) => equal == (OperandText(l, env) == OperandText(r, env))
    case Not(d) => !Meaning(d, env)
    case And(a, b) => Meaning(a, env) && Meaning(b, env)
    case Or(a, b) => Meaning(a, env) || Meaning(b, env)
  }

  function Shown(o: Operand): Text {
    match o
    case Name(s) => s
    case Number(s) => s
    case Quoted(q, s) => [q] + s + [q]
  }

  /** A condition as the evaluator gets it, with no parentheses but those that the
      strength of the operators asks for: 0 in an OR, 1 in an AND, 2 under NOT. */
  function Printed(c: Cond, level: nat): Text {
    match c
    case Test(o) => Shown(o)
    case Compare(l, equal, r) => Shown(l) + (if equal then " = " else " # ") + Shown(r)
    case Not(d) => " !  " + Printed(d, 2)
    case And(a, b) =>
      var s := Printed(a, 1) + " &&  " + Printed(b, 2);
      if level > 1 then "(" + s + ")" else s
    case Or(a, b) =>
      var s := Printed(a, 0) + " ||  " + Printed(b, 1);
      if level > 0 then "(" + s + ")" else s
  }

  /** Text that ends an operand and is no comparison. */
  ghost predicate Ends(rest: Text) {
    && (rest == [] || !IsWord(rest[0]))
    && !("=" <= Skip(rest)) && !("#" <= Skip(rest))
  }

  lemma {:induction false} SkipTwice(s: Text)
    ensures Skip(Skip(s)) == Skip(s)
    decreases |s|
  {
    if s != [] && IsSpace(s[0]) {
      SkipTwice(s[1..]);
    }
  }

  lemma {:induction false} WordThen(w: Text, rest: Text)
    requires AllWord(w) && (rest == [] || !IsWord(rest[0]))
    ensures WordEnd(w + rest) == |w|
    decreases |w|
  {
    if w == [] {
      assert w + rest == rest;
    } else {
      assert (w + rest)[1..] == w[1..] + rest;
      WordThen(w[1..], rest);
    }
  }

  lemma {:induction false} FindThen(c: char, s: Text, rest: Text)
    requires c !in s
    ensures Find(c, s + [c] + rest) == Some(|s|)
    decreases |s|
  {
    var t := s + [c] + rest;
    if s != [] {
      assert t[1..] == s[1..] + [c] + rest;
      FindThen(c, s[1..], rest);
    }
  }

  function ValueOf(o: Operand): Value {
    match o
    case Name(s) => Ident(s)
    case Number(s) => Literal(s)
    case Quoted(_, s) => Literal(s)
  }

  lemma WordBack(s: Text, rest: Text)
    requires s != [] && AllWord(s) && (rest == [] || !IsWord(rest[0]))
    ensures Skip(s + rest) == s + rest && (s + rest)[0] == s[0]
    ensures (s + rest)[..WordEnd(s + rest)] == s && (s + rest)[WordEnd(s + rest)..] == rest
  {
    WordThen(s, rest);
    assert IsWord(s[0]);
  }

  lemma QuotedBack(q: char, s: Text, rest: Text)
    requires (q == '\'' || q == '"') && q !in s
    ensures var t := [q] + s + [q] + rest;
            Skip(t) == t && t[0] == q && Find(q, t[1..]) == Some(|s|) && t[1..][..|s|] == s && t[1..][|s| + 1..] == rest
  {
    var t := [q] + s + [q] + rest;
    assert t[1..] == s + [q] + rest;
    FindThen(q, s, rest);
  }

  /** No operator starts like an operand. */
  predicate Starts(c: char) {
    IsAlpha(c) || c == '_' || IsDigit(c) || c == '\'' || c == '"'
  }

  /** An operand comes back as it was printed. */
  lemma OperandBack(o: Operand, rest: Text)
    requires WfOperand(o) && (rest == [] || !IsWord(rest[0]))
    ensures ParseValue(Shown(o) + rest) == Ok(ValueOf(o), rest)
    ensures Skip(Shown(o) + rest) == Shown(o) + rest && Shown(o) != [] && Starts(Shown(o)[0])
  {
    hide Skip, WordEnd, Find;
    match o
    case Name(s) => WordBack(s, rest);
    case Number(s) => WordBack(s, rest);
    case Quoted(q, s) => QuotedBack(q, s, rest);
  }

  lemma ValueSkips(s: Text)
    ensures ParseValue(" " + s) == ParseValue(s)
  {
    assert (" " + s)[1..] == s;
  }

  /** What starts like an operand is read as a comparison. */
  lemma OperandFirst(t: Text, env: Env)
    requires t != [] && Starts(t[0]) && Skip(t) == t
    ensures ParseUnary(t, env) == match ParseComparison(t, env) case Bad => Bad case Ok(v, rest) => Ok(AsBool(v), rest)
  {
    hide ParseComparison, ParseOr;
  }

  lemma TestBack(o: Operand, env: Env, rest: Text)
    requires WfOperand(o) && Ends(rest)
    ensures ParseComparison(Shown(o) + rest, env).Ok?
    ensures AsBool(ParseComparison(Shown(o) + rest, env).v) == Meaning(Test(o), env)
    ensures ParseComparison(Shown(o) + rest, env).rest == Skip(rest)
  {
    hide ParseValue, Skip, Truthy, Affirms;
    OperandBack(o, rest);
    forall s: Text
      ensures Truthy(s) == Affirms(s)
    {
      AffirmsIs(s);
    }
  }

  lemma AffirmsIs(s: Text)
    ensures Truthy(s) == Affirms(s)
  {
    FalseIsSpelled(s);
  }

  lemma CompareBack(l: Operand, equal: bool, r: Operand, env: Env, rest: Text)
    requires WfOperand(l) && WfOperand(r) && Ends(rest)
    ensures ParseComparison(Printed(Compare(l, equal, r), 2) + rest, env) == Ok(Bool(Meaning(Compare(l, equal, r), env)), rest)
  {
    hide ParseValue, Skip, Shown;
    var op := if equal then "=" else "#";
    var after := " " + (Shown(r) + rest);
    var tail := " " + op + after;
    assert Printed(Compare(l, equal, r), 2) + rest == Shown(l) + tail;
    OperandBack(l, tail);
    OperandBack(r, rest);
    OpSkips(op, after);
    ValueSkips(Shown(r) + rest);
  }

  lemma OpSkips(op: Text, after: Text)
    requires op == "=" || op == "#"
    ensures var t := Skip(" " + op + after);
            t == op + after && t[1..] == after && ("=" <= t <==> op == "=") && ("#" <= t <==> op == "#")
    ensures !IsWord((" " + op + after)[0])
  {
    var s := " " + op + after;
    assert s[1..] == op + after;
    assert (op + after)[0] == op[0];
  }

  lemma TestUnary(o: Operand, env: Env, rest: Text)
    requires WfOperand(o) && Ends(rest)
    ensures ParseUnary(Shown(o) + rest, env) == Ok(Meaning(Test(o), env), Skip(rest))
  {
    hide ParseComparison, Skip, ParseUnary, Meaning;
    OperandBack(o, rest);
    TestBack(o, env, rest);
    OperandFirst(Shown(o) + rest, env);
  }

  lemma CompareUnary(l: Operand, equal: bool, r: Operand, env: Env, rest: Text)
    requires WfOperand(l) && WfOperand(r) && Ends(rest)
    ensures ParseUnary(Printed(Compare(l, equal, r), 2) + rest, env) == Ok(Meaning(Compare(l, equal, r), env), rest)
  {
    hide ParseComparison, Skip, ParseUnary, Meaning;
    var t := Printed(Compare(l, equal, r), 2) + rest;
    var tail := (if equal then " = " else " # ") + (Shown(r) + rest);
    assert t == Shown(l) + tail;
    OperandBack(l, tail);
    CompareBack(l, equal, r, env, rest);
    OperandFirst(t, env);
  }

  lemma ComparisonBack(c: Cond, env: Env, rest: Text)
    requires (c.Test? || c.Compare?) && WfCond(c) && Ends(rest)
    ensures ParseUnary(Printed(c, 2) + rest, env).Ok?
    ensures ParseUnary(Printed(c, 2) + rest, env).v == Meaning(c, env)
    ensures Skip(ParseUnary(Printed(c, 2) + rest, env).rest) == Skip(rest)
  {
    hide ParseUnary, Skip;
    SkipTwice(rest);
    match c
    case Test(o) => TestUnary(o, env, rest);
    case Compare(l, equal, r) => CompareUnary(l, equal, r, env, rest);
  }

  lemma {:induction false} UnaryBack(c: Cond, env: Env, rest: Text)
    requires WfCond(c) && Ends(rest)
    ensures ParseUnary(Printed(c, 2) + rest, env).Ok?
    ensures ParseUnary(Printed(c, 2) + rest, env).v == Meaning(c, env)
    ensures Skip(ParseUnary(Printed(c, 2) + rest, env).rest) == Skip(rest)
    decreases c, if c.And? then 3 else if c.Or? then 2 else 0
  {
    hide AndTail, ParseComparison;
    match c
    case Test(_) => ComparisonBack(c, env, rest);
    case Compare(_, _, _) => ComparisonBack(c, env, rest);
    case Not(d) =>
      var t := Printed(c, 2) + rest;
      var s := " " + (Printed(d, 2) + rest);
      assert t == " " + ("!" + (" " + s));
      assert t[1..] == "!" + (" " + s);
      assert Skip(t) == t[1..];
      assert t[1..][1..] == " " + s;
      UnarySkips(s, env);
      UnarySkips(Printed(d, 2) + rest, env);
      UnaryBack(d, env, rest);
    case And(a, b) => GroupBack(c, env, rest);
    case Or(a, b) => GroupBack(c, env, rest);
  }

  lemma UnarySkips(s: Text, env: Env)
    ensures ParseUnary(" " + s, env) == ParseUnary(s, env)
  {
    hide ParsePrimary;
    assert (" " + s)[1..] == s;
    assert Skip(" " + s) == Skip(s);
    SkipTwice(s);
  }

  /** In parentheses. */
  lemma {:induction false} GroupBack(c: Cond, env: Env, rest: Text)
    requires WfCond(c) && (c.And? || c.Or?)
    ensures ParseUnary(Printed(c, 2) + rest, env) == Ok(Meaning(c, env), rest)
    decreases c, if c.And? then 2 else 1
  {
    hide ParseComparison, OrTail, AndTail, ParseAnd;
    var inner := Printed(c, 0);
    var t := Printed(c, 2) + rest;
    assert t == "(" + (inner + (")" + rest));
    assert t[1..] == inner + (")" + rest);
    assert Skip(t) == t;
    EndsClose(rest);
    OrBack(c, env, ")" + rest);
    OrStops(Meaning(c, env), ")" + rest, env);
    assert (")" + rest)[1..] == rest;
  }

  lemma EndsClose(rest: Text)
    ensures Ends(")" + rest) && Skip(")" + rest) == ")" + rest && !("&&" <= ")" + rest) && !("||" <= ")" + rest)
  {
    var t := ")" + rest;
    assert t[0] == ')';
  }

  lemma OrStops(v: bool, s: Text, env: Env)
    requires !("||" <= Skip(s))
    ensures OrTail(v, s, env) == Ok(v, Skip(s))
  {
  }

  /** A chain of ANDs: after it, the evaluator looks for another `&&`. */
  lemma {:induction false} AndBack(c: Cond, env: Env, rest: Text)
    requires WfCond(c) && Ends(rest)
    ensures ParseAnd(Printed(c, 1) + rest, env) == AndTail(Meaning(c, env), rest, env)
    decreases c, if c.And? then 0 else if c.Or? then 3 else 1
  {
    hide ParseUnary, AndTail;
    if c.And? {
      var s := " " + (Printed(c.b, 2) + rest);
      var tail := " && " + s;
      assert Printed(c, 1) + rest == Printed(c.a, 1) + tail;
      OperatorEnds("&&", s);
      assert tail == " " + "&&" + " " + s;
      AndBack(c.a, env, tail);
      UnaryBack(c.b, env, rest);
      UnarySkips(Printed(c.b, 2) + rest, env);
      AndStep(Meaning(c.a, env), s, env, rest);
    } else {
      assert Printed(c, 1) == Printed(c, 2);
      UnaryBack(c, env, rest);
      AndFrom(Meaning(c, env), ParseUnary(Printed(c, 2) + rest, env).rest, rest, env);
    }
  }

  lemma OperatorEnds(op: Text, s: Text)
    requires op == "&&" || op == "||"
    ensures var t := " " + op + " " + s;
            Ends(t) && Skip(t) == op + " " + s && Skip(t)[2..] == " " + s
  {
    var t := " " + op + " " + s;
    assert t[1..] == op + " " + s;
    assert t[1..][0] == op[0];
    assert t[1..][2..] == " " + s;
  }

  lemma AndFrom(v: bool, s: Text, rest: Text, env: Env)
    requires Skip(s) == Skip(rest)
    ensures AndTail(v, s, env) == AndTail(v, rest, env)
  {
    hide ParseUnary;
  }

  lemma AndStep(v: bool, s: Text, env: Env, rest: Text)
    requires ParseUnary(s, env).Ok? && Skip(ParseUnary(s, env).rest) == Skip(rest)
    ensures AndTail(v, " && " + s, env) == AndTail(v && ParseUnary(s, env).v, rest, env)
  {
    hide ParseUnary;
    OperatorEnds("&&", s);
    assert " && " + s == " " + "&&" + " " + s;
    UnarySkips(s, env);
    AndFrom(v && ParseUnary(s, env).v, ParseUnary(s, env).rest, rest, env);
  }

  lemma {:induction false} OrBack(c: Cond, env: Env, rest: Text)
    requires WfCond(c) && Ends(rest) && !("&&" <= Skip(rest))
    ensures ParseOr(Printed(c, 0) + rest, env) == OrTail(Meaning(c, env), rest, env)
    decreases c, if c.And? then 1 else if c.Or? then 0 else 2
  {
    hide ParseAnd, OrTail, AndTail, Skip;
    SkipTwice(rest);
    if c.Or? {
      var s := " " + (Printed(c.b, 1) + rest);
      var tail := " || " + s;
      assert Printed(c, 0) + rest == Printed(c.a, 0) + tail;
      OperatorEnds("||", s);
      assert tail == " " + "||" + " " + s;
      OrBack(c.a, env, tail);
      AndBack(c.b, env, rest);
      AndStops(Meaning(c.b, env), rest, env);
      AndSkips(Printed(c.b, 1) + rest, env);
      OrStep(Meaning(c.a, env), s, env, rest);
    } else {
      assert Printed(c, 0) == Printed(c, 1);
      AndBack(c, env, rest);
      AndStops(Meaning(c, env), rest, env);
      SkipTwice(rest);
      OrFrom(Meaning(c, env), Skip(rest), rest, env);
    }
  }

  lemma AndStops(v: bool, s: Text, env: Env)
    requires !("&&" <= Skip(s))
    ensures AndTail(v, s, env) == Ok(v, Skip(s))
  {
  }

  lemma OrFrom(v: bool, s: Text, rest: Text, env: Env)
    requires Skip(s) == Skip(rest)
    ensures OrTail(v, s, env) == OrTail(v, rest, env)
  {
    hide ParseAnd;
  }

  lemma OrStep(v: bool, s: Text, env: Env, rest: Text)
    requires ParseAnd(s, env).Ok? && Skip(ParseAnd(s, env).rest) == Skip(rest)
    ensures OrTail(v, " || " + s, env) == OrTail(v || ParseAnd(s, env).v, rest, env)
  {
    hide ParseAnd;
    OperatorEnds("||", s);
    assert " || " + s == " " + "||" + " " + s;
    assert ParseAnd(" " + s, env) == ParseAnd(s, env) by { AndSkips(s, env); }
    OrFrom(v || ParseAnd(s, env).v, ParseAnd(s, env).rest, rest, env);
  }

  lemma AndSkips(s: Text, env: Env)
    ensures ParseAnd(" " + s, env) == ParseAnd(s, env)
  {
    hide ParseUnary;
    UnarySkips(s, env);
  }

  /** Every condition, printed with the fewest parentheses, evaluates to its meaning,
      and nothing is left over. */
  lemma PrintedEvaluates(c: Cond, env: Env)
    requires WfCond(c)
    ensures Evaluate(Printed(c, 0), env) == Some(Meaning(c, env))
  {
    hide ParseOr;
    OrBack(c, env, []);
    assert Printed(c, 0) + [] == Printed(c, 0);
    OrStops(Meaning(c, env), [], env);
  }

  // ---- Told of the text ----------------------------------------------------------------------------

  ghost predicate IsLetter(c: char) { 'a' <= c <= 'z' || 'A' <= c <= 'Z' }

  ghost predicate IsLetterOrSo(c: char) { IsLetter(c) || '0' <= c <= '9' || c == '_' }

  ghost predicate IsNameText(s: Text) {
    && s != [] && (IsLetter(s[0]) || s[0] == '_')
    && forall i :: 0 <= i < |s| ==> IsLetterOrSo(s[i])
  }

  ghost predicate IsNumberText(s: Text) {
    && s != [] && '0' <= s[0] <= '9'
    && forall i :: 0 <= i < |s| ==> IsLetterOrSo(s[i])
  }

  lemma Letters(s: Text)
    ensures IsNameText(s) ==> WfOperand(Name(s))
    ensures IsNumberText(s) ==> WfOperand(Number(s))
  {
  }

  lemma FalseIsSpelled(s: Text)
    ensures Truthy(s) <==> s != "" && s != "0" && !(|s| == 5 && forall i :: 0 <= i < 5 ==> s[i] == "false"[i] || s[i] == "FALSE"[i])
  {
    if |s| == 5 && forall i :: 0 <= i < 5 ==> s[i] == "false"[i] || s[i] == "FALSE"[i] {
      assert (s[0] == 'f' || s[0] == 'F') && (s[1] == 'a' || s[1] == 'A') && (s[2] == 'l' || s[2] == 'L');
      assert (s[3] == 's' || s[3] == 'S') && (s[4] == 'e' || s[4] == 'E');
    }
  }

  /** A name alone holds if and only if it has a value that is not empty, not 0 and not
      the word false in any mixture of cases. */
  lemma NameDecides(n: Text, env: Env)
    requires IsNameText(n)
    ensures Evaluate(n, env) == Some(
      && n in env && env[n] != "" && env[n] != "0"
      && !(|env[n]| == 5 && forall i :: 0 <= i < 5 ==> env[n][i] == "false"[i] || env[n][i] == "FALSE"[i]))
  {
    hide Evaluate, Truthy;
    Letters(n);
    PrintedEvaluates(Test(Name(n)), env);
    if n in env { FalseIsSpelled(env[n]); }
  }

  /** A number alone holds unless it is 0. */
  lemma NumberDecides(n: Text, env: Env)
    requires IsNumberText(n)
    ensures Evaluate(n, env) == Some(n != "0")
  {
    hide Evaluate;
    Letters(n);
    PrintedEvaluates(Test(Number(n)), env);
    FalseIsSpelled(n);
  }

  /** A string alone holds unless it is empty, 0 or the word false. */
  lemma QuotedDecides(q: char, s: Text, env: Env)
    requires q in "'\"" && q !in s && '%' !in s
    ensures Evaluate([q] + s + [q], env) == Some(
      s != "" && s != "0" && !(|s| == 5 && forall i :: 0 <= i < 5 ==> s[i] == "false"[i] || s[i] == "FALSE"[i]))
  {
    hide Evaluate;
    PrintedEvaluates(Test(Quoted(q, s)), env);
    FalseIsSpelled(s);
  }

  /** Two names are equal when their values are, a name without a value standing for itself. */
  lemma NamesCompare(m: Text, n: Text, env: Env)
    requires IsNameText(m) && IsNameText(n)
    ensures Evaluate(m + " = " + n, env) == Some((if m in env then env[m] else m) == (if n in env then env[n] else n))
    ensures Evaluate(m + " # " + n, env) == Some((if m in env then env[m] else m) != (if n in env then env[n] else n))
  {
    hide Evaluate;
    Letters(m);
    Letters(n);
    PrintedEvaluates(Compare(Name(m), true, Name(n)), env);
    PrintedEvaluates(Compare(Name(m), false, Name(n)), env);
  }

  /** A name is compared with a string. */
  lemma NameIsText(m: Text, q: char, s: Text, env: Env)
    requires IsNameText(m) && q in "'\"" && q !in s && '%' !in s
    ensures Evaluate(m + " = " + ([q] + s + [q]), env) == Some((if m in env then env[m] else m) == s)
  {
    hide Evaluate;
    Letters(m);
    PrintedEvaluates(Compare(Name(m), true, Quoted(q, s)), env);
  }

  /** AND binds closer than OR, and NOT closer than both; parentheses go first. */
  lemma StrengthOfOperators(a: Text, b: Text, c: Text, env: Env)
    requires IsNameText(a) && IsNameText(b) && IsNameText(c)
    ensures Evaluate(a, env).Some? && Evaluate(b, env).Some? && Evaluate(c, env).Some?
    ensures var (x, y, z) := (Evaluate(a, env).value, Evaluate(b, env).value, Evaluate(c, env).value);
            && Evaluate(a + " ||  " + (b + " &&  " + c), env) == Some(x || (y && z))
            && Evaluate(a + " &&  " + b + " ||  " + c, env) == Some((x && y) || z)
            && Evaluate(" !  " + a + " &&  " + b, env) == Some(!x && y)
            && Evaluate("(" + (a + " ||  " + b) + ")" + " &&  " + c, env) == Some((x || y) && z)
  {
    hide Evaluate, Affirms;
    Letters(a);
    Letters(b);
    Letters(c);
    var (p, q, r) := (Test(Name(a)), Test(Name(b)), Test(Name(c)));
    PrintedEvaluates(p, env);
    PrintedEvaluates(q, env);
    PrintedEvaluates(r, env);
    Spellings(a, b, c);
    Evaluated(Cond.Or(p, Cond.And(q, r)), env);
    Evaluated(Cond.Or(Cond.And(p, q), r), env);
    Evaluated(Cond.And(Cond.Not(p), q), env);
    Evaluated(Cond.And(Cond.Or(p, q), r), env);
  }

  lemma Evaluated(c: Cond, env: Env)
    requires WfCond(c)
    ensures Evaluate(Printed(c, 0), env) == Some(Meaning(c, env))
  {
    hide Evaluate;
    PrintedEvaluates(c, env);
  }

  lemma Spellings(a: Text, b: Text, c: Text)
    ensures var (p, q, r) := (Test(Name(a)), Test(Name(b)), Test(Name(c)));
            && Printed(Cond.Or(p, Cond.And(q, r)), 0) == a + " ||  " + (b + " &&  " + c)
            && Printed(Cond.Or(Cond.And(p, q), r), 0) == a + " &&  " + b + " ||  " + c
            && Printed(Cond.And(Cond.Not(p), q), 0) == " !  " + a + " &&  " + b
            && Printed(Cond.And(Cond.Or(p, q), r), 0) == "(" + (a + " ||  " + b) + ")" + " &&  " + c
  {
    var (p, q, r) := (Test(Name(a)), Test(Name(b)), Test(Name(c)));
    assert Printed(p, 0) == a == Printed(p, 1) == Printed(p, 2);
    assert Printed(q, 1) == b == Printed(q, 2);
    assert Printed(r, 1) == c == Printed(r, 2);
  }

  /** What is no condition has no value: nothing, something left over, a parenthesis that
      is not closed, an operator without its right side. */
  lemma NoConditions(m: Text, n: Text, env: Env)
    requires IsNameText(m) && IsNameText(n)
    ensures Evaluate("", env).None? && Evaluate(m + " " + n, env).None? && Evaluate("(" + n, env).None?
    ensures Evaluate(m + " && ", env).None? && Evaluate(m + " || ", env).None? && Evaluate("!", env).None?
  {
    hide ParseOr;
    Letters(m);
    Letters(n);
    NoOperand(env);
    LeftOver(m, n, env);
    Unclosed(n, env);
    NoRight(m, env);
  }

  lemma NoOperand(env: Env)
    ensures ParseOr("", env).Bad? && ParseUnary(" ", env).Bad? && ParseAnd(" ", env).Bad? && ParseOr("!", env).Bad?
  {
    assert " "[1..] == "" && "!"[1..] == "";
    assert ParseUnary("", env).Bad?;
  }

  lemma LeftOver(m: Text, n: Text, env: Env)
    requires IsNameText(m) && IsNameText(n)
    ensures Evaluate(m + " " + n, env).None?
  {
    hide ParseOr;
    Letters(m);
    var rest := " " + n;
    assert rest[1..] == n && m + rest == m + " " + n;
    SkipName(n);
    OrBack(Test(Name(m)), env, rest);
    OrStops(Meaning(Test(Name(m)), env), rest, env);
  }

  lemma SkipName(n: Text)
    requires IsNameText(n)
    ensures Skip(n) == n && Skip(" " + n) == n && n != []
  {
    assert (" " + n)[1..] == n;
  }

  lemma Unclosed(n: Text, env: Env)
    requires IsNameText(n)
    ensures ParseOr("(" + n, env).Bad?
  {
    hide ParseComparison, AndTail, OrTail;
    Letters(n);
    assert ("(" + n)[1..] == n && n + [] == n;
    OrBack(Test(Name(n)), env, []);
    OrStops(Meaning(Test(Name(n)), env), [], env);
    assert ParsePrimary("(" + n, env).Bad?;
    assert ParseUnary("(" + n, env).Bad?;
    assert ParseAnd("(" + n, env).Bad?;
  }

  lemma NoRight(m: Text, env: Env)
    requires IsNameText(m)
    ensures ParseOr(m + " && ", env).Bad? && ParseOr(m + " || ", env).Bad?
  {
    hide ParseUnary, ParseComparison;
    Letters(m);
    NoOperand(env);
    var c := Test(Name(m));
    var (and, or) := (" && ", " || ");
    assert and[1..] == "&& " && or[1..] == "|| " && "&& "[2..] == " " && "|| "[2..] == " ";
    AndBack(c, env, and);
    assert AndTail(Meaning(c, env), and, env).Bad?;
    assert Printed(c, 0) == m == Printed(c, 1);
    OrBack(c, env, or);
    OrTailStuck(Meaning(c, env), env);
  }

  lemma OrTailStuck(v: bool, env: Env)
    ensures OrTail(v, " || ", env).Bad?
  {
    hide ParseAnd;
    NoOperand(env);
    assert " || "[1..] == "|| " && "|| "[2..] == " ";
  }

  /** Blanks, tabs and line ends in front do not matter. */
  lemma SpacesInFront(c: char, s: Text, env: Env)
    requires c == ' ' || c == '\t' || c == '\r' || c == '\n'
    ensures Evaluate([c] + s, env) == Evaluate(s, env)
  {
    hide ParseUnary;
    assert ([c] + s)[1..] == s;
    assert Skip([c] + s) == Skip(s);
    UnaryHere(s, env);
    UnaryHere([c] + s, env);
    AndHere(s, [c] + s, env);
  }

  lemma AndHere(s: Text, t: Text, env: Env)
    requires ParseUnary(s, env) == ParseUnary(t, env)
    ensures ParseOr(s, env) == ParseOr(t, env)
  {
    hide ParseUnary, AndTail, OrTail;
    assert ParseAnd(s, env) == ParseAnd(t, env);
  }

  lemma UnaryHere(s: Text, env: Env)
    ensures ParseUnary(s, env) == ParseUnary(Skip(s), env)
  {
    hide ParsePrimary;
    SkipTwice(s);
  }
}
