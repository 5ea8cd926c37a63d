/** Conditional compilation: the parts a source falls into, and what the
    preprocessor does with them, one after the other. */
module PreSpec {
  import opened Ir
  import opened Directive

  /** A stretch of source: text with the bodies of the pragmas in it (one token's
      worth), or a directive. `s` are its bytes. */
  datatype Item =
    | Plain(s: Text, pragmas: seq<Text>)
    | If(s: Text, cond: Text)
    | Elsif(s: Text, cond: Text)
    | Else(s: Text)
    | End(s: Text)

  // ---- Scanning ---------------------------------------------------------------------------

  predicate Two(s: Text, a: char, b: char) {
    |s| >= 2 && s[0] == a && s[1] == b
  }

  /** To the end of the line, the newline included. */
  function LineLen(s: Text): (n: nat)
    ensures n <= |s| && (s != [] ==> n >= 1)
  {
    if s == [] then 0 else if s[0] == '\n' then 1 else 1 + LineLen(s[1..])
  }

  /** Behind the closing quote; a newline comes too early. */
  function StringLen(s: Text, quote: char): (r: Option<nat>)
    ensures r.Some? ==> 1 <= r.value <= |s|
  {
    if s == [] || s[0] == '\n' then None
    else if s[0] == quote then Some(1)
    else Plus(1, StringLen(s[1..], quote))
  }

  function Plus(n: nat, r: Option<nat>): Option<nat> {
    if r.Some? then Some(n + r.value) else None
  }

  /** How much of `s` is in front of the pragma's close. */
  function PragmaLen(s: Text): (r: Option<nat>)
    ensures r.Some? ==> r.value + 2 <= |s|
  {
    if s == [] then None
    else if Two(s, '*', '>') then Some(0)
    else Plus(1, PragmaLen(s[1..]))
  }

  /** Does a pragma's close come before a comment's? */
  predicate ClosesFirst(s: Text)
    decreases |s|
  {
    if |s| < 2 then false
    else if Two(s, '*', '>') then true
    else if Two(s, '*', ')') then false
    else ClosesFirst(s[1..])
  }

  datatype Comment = Comment(len: nat, pragmas: seq<Text>)

  function Longer(n: nat, more: seq<Text>, r: Option<Comment>): Option<Comment> {
    if r.Some? then Some(Comment(n + r.value.len, more + r.value.pragmas)) else None
  }

  /** A block comment, from behind its opening to behind the close at depth 0. */
  function CommentLen(s: Text, depth: nat): (r: Option<Comment>)
    ensures r.Some? ==> r.value.len <= |s|
    decreases |s|
  {
    if depth == 0 then Some(Comment(0, []))
    else if s == [] then None
    else if Two(s, '(', '*') then Longer(2, [], CommentLen(s[2..], depth + 1))
    else if Two(s, '<', '*') then
      if !ClosesFirst(s[2..]) then Longer(1, [], CommentLen(s[1..], depth))
      else
        match PragmaLen(s[2..])
        case None => None
        case Some(n) => Longer(n + 4, [s[2..][..n]], CommentLen(s[2..][n + 2..], depth))
    else if Two(s, '*', ')') then Longer(2, [], CommentLen(s[2..], depth - 1))
    else Longer(1, [], CommentLen(s[1..], depth))
  }

  function AlphaLen(s: Text): (n: nat)
    ensures n <= |s| && (n < |s| ==> !IsAlpha(s[n])) && forall i :: 0 <= i < n ==> IsAlpha(s[i])
  {
    if s != [] && IsAlpha(s[0]) then 1 + AlphaLen(s[1..]) else 0
  }

  datatype Read = Read(cond: Text, len: nat)

  function Before(t: Text, n: nat, r: Option<Read>): Option<Read> {
    if r.Some? then Some(Read(t + r.value.cond, n + r.value.len)) else None
  }

  /** The evaluator's spelling of an operator. */
  function Operator(kw: Text): Option<Text> {
    if kw == "AND" then Some(" && ")
    else if kw == "OR" then Some(" || ")
    else if kw == "NOT" then Some(" ! ")
    else None
  }

  /** The condition up to %THEN, its operators put the evaluator's way. */
  function ReadExpr(s: Text): (r: Option<Read>)
    ensures r.Some? ==> r.value.len <= |s|
    decreases |s|
  {
    if s == [] then None
    else if s[0] != '%' then Before([s[0]], 1, ReadExpr(s[1..]))
    else
      var n := AlphaLen(s[1..]);
      var kw := s[1..][..n];
      if kw == "THEN" then Some(Read([], n + 1))
      else if Operator(kw).None? then None
      else Before(Operator(kw).value, n + 1, ReadExpr(s[n + 1..]))
  }

  function DirectiveItem(s: Text): (r: Option<Item>)
    requires s != []
    ensures r.Some? ==> 1 <= |r.value.s| <= |s| && r.value.s == s[..|r.value.s|] && !r.value.Plain?
  {
    var n := AlphaLen(s[1..]);
    var kw := s[1..][..n];
    var rest := s[n + 1..];
    if kw == "IF" then
      match ReadExpr(rest)
      case Some(e) => Some(If(s[..n + 1 + e.len], e.cond))
      case None => None
    else if kw == "ELSIF" then
      match ReadExpr(rest)
      case Some(e) => Some(Elsif(s[..n + 1 + e.len], e.cond))
      case None => None
    else if kw == "ELSE" then Some(Else(s[..n + 1]))
    else if kw == "END" then Some(End(s[..n + 1]))
    else None
  }

  /** The first item of a source; None when there is none that is complete. */
  function First(s: Text): (r: Option<Item>)
    requires s != []
    ensures r.Some? ==> 1 <= |r.value.s| <= |s| && r.value.s == s[..|r.value.s|]
  {
    if Two(s, '(', '*') then
      match CommentLen(s[2..], 1)
      case Some(c) => Some(Plain(s[..c.len + 2], c.pragmas))
      case None => None
    else if Two(s, '/', '/') then Some(Plain(s[..LineLen(s)], []))
    else if s[0] == '"' || s[0] == '\'' then
      match StringLen(s[1..], s[0])
      case Some(n) => Some(Plain(s[..n + 1], []))
      case None => None
    else if Two(s, '<', '*') then
      match PragmaLen(s[2..])
      case Some(n) => Some(Plain(s[..n + 4], [s[2..][..n]]))
      case None => None
    else if s[0] == '%' then DirectiveItem(s)
    else Some(Plain(s[..1], []))
  }

  function Lex(s: Text): Option<seq<Item>>
    decreases |s|
  {
    if s == [] then Some([])
    else
      match First(s)
      case None => None
      case Some(item) =>
        match Lex(s[|item.s|..])
        case None => None
        case Some(items) => Some([item] + items)
  }

  // ---- Pragmas ----------------------------------------------------------------------------

  /** White space as Unicode has it. */
  predicate IsBlank(n: int) {
    9 <= n <= 13 || n == 0x20 || n == 0x85 || n == 0xA0 || n == 0x1680 || 0x2000 <= n <= 0x200A
    || n == 0x2028 || n == 0x2029 || n == 0x202F || n == 0x205F || n == 0x3000
  }

  /** The character of one to three bytes at `i`; -1 when there is none of that length. */
  function CharAt(s: Text, i: nat, n: nat): int {
    if n == 0 || i + n > |s| then -1
    else
      var a := s[i] as int;
      if n == 1 then (if a < 0x80 then a else -1)
      else
        var b := s[i + 1] as int - 0x80;
        if n == 2 then (if 0xC2 <= a < 0xE0 && 0 <= b < 0x40 then (a - 0xC0) * 0x40 + b else -1)
        else
          var c := s[i + 2] as int - 0x80;
          if 0xE0 <= a < 0xF0 && 0 <= b < 0x40 && 0 <= c < 0x40 then (a - 0xE0) * 0x1000 + b * 0x40 + c else -1
  }

  predicate BlankAt(s: Text, i: nat, n: nat)
    ensures BlankAt(s, i, n) ==> 1 <= n && i + n <= |s|
  {
    IsBlank(CharAt(s, i, n))
  }

  function TrimStart(s: Text): Text {
    if BlankAt(s, 0, 1) then TrimStart(s[1..])
    else if BlankAt(s, 0, 2) then TrimStart(s[2..])
    else if BlankAt(s, 0, 3) then TrimStart(s[3..])
    else s
  }

  function TrimEnd(s: Text): Text {
    var n := |s|;
    if n >= 1 && BlankAt(s, n - 1, 1) then TrimEnd(s[..n - 1])
    else if n >= 2 && BlankAt(s, n - 2, 2) then TrimEnd(s[..n - 2])
    else if n >= 3 && BlankAt(s, n - 3, 3) then TrimEnd(s[..n - 3])
    else s
  }

  function Trim(s: Text): Text { TrimEnd(TrimStart(s)) }

  /** Every comma-separated name becomes true. */
  function DefineNames(env: Env, names: Text): Env
    decreases |names|
  {
    match Find(',', names)
    case None => DefineName(env, Trim(names))
    case Some(n) => DefineNames(DefineName(env, Trim(names[..n])), names[n + 1..])
  }

  function DefineName(env: Env, name: Text): Env {
    if name == [] then env else env[name := "true"]
  }

  function ApplyPragma(env: Env, body: Text): Env {
    var t := Trim(body);
    if "/VERSION:" <= t then DefineNames(env, t[9..])
    else if "/VALIDVERSION:" <= t then DefineNames(env, t[14..])
    else if "/VALIDVER:" <= t then DefineNames(env, t[10..])
    else env
  }

  function ApplyAll(env: Env, pragmas: seq<Text>): Env
    decreases |pragmas|
  {
    if pragmas == [] then env else ApplyAll(ApplyPragma(env, pragmas[0]), pragmas[1..])
  }

  // ---- The stack machine --------------------------------------------------------------------

  /** One open %IF: is what surrounds it shown, has a branch been taken, is this one? */
  datatype Level = Level(outer: bool, taken: bool, live: bool)

  predicate Active(stack: seq<Level>) {
    forall i :: 0 <= i < |stack| ==> stack[i].live
  }

  function BlankOf(c: char): char {
    if c == '\n' then c else ' '
  }

  function Blank(s: Text): (r: Text)
    ensures |r| == |s| && forall i :: 0 <= i < |s| ==> r[i] == BlankOf(s[i])
  {
    seq(|s|, i requires 0 <= i < |s| => BlankOf(s[i]))
  }

  function Show(live: bool, s: Text): Text {
    if live then s else Blank(s)
  }

  datatype State = State(out: Text, env: Env, stack: seq<Level>)

  function RunPlain(item: Item, st: State): State
    requires item.Plain?
  {
    var live := Active(st.stack);
    st.(out := st.out + Show(live, item.s), env := if live then ApplyAll(st.env, item.pragmas) else st.env)
  }

  function RunItem(item: Item, st: State): Option<State> {
    match item
    case Plain(_, _) => Some(RunPlain(item, st))
    case If(s, cond) =>
      (match Evaluate(cond, st.env)
       case None => None
       case Some(c) =>
         var outer := Active(st.stack);
         Some(st.(out := st.out + Blank(s), stack := st.stack + [Level(outer, outer && c, outer && c)])))
    case Elsif(s, cond) =>
      if st.stack == [] then None
      else (match Evaluate(cond, st.env)
        case None => None
        case Some(c) => Some(NextBranch(s, c, st)))
    case Else(s) => if st.stack == [] then None else Some(NextBranch(s, true, st))
    case End(s) => if st.stack == [] then None else Some(st.(out := st.out + Blank(s), stack := st.stack[..|st.stack| - 1]))
  }

  function NextBranch(s: Text, c: bool, st: State): State
    requires st.stack != []
  {
    var n := |st.stack| - 1;
    var top := st.stack[n];
    var take := top.outer && !top.taken && c;
    st.(out := st.out + Blank(s), stack := st.stack[..n] + [Level(top.outer, top.taken || take, take)])
  }

  function RunAll(items: seq<Item>, st: State): Option<State> {
    if items == [] then Some(st)
    else
      match RunItem(items[0], st)
      case None => None
      case Some(st1) => RunAll(items[1..], st1)
  }

  /** Scanning and running in one go. */
  function RunFrom(s: Text, st: State): Option<State>
    decreases |s|
  {
    if s == [] then Some(st)
    else
      match First(s)
      case None => None
      case Some(item) =>
        match RunItem(item, st)
        case None => None
        case Some(st1) => RunFrom(s[|item.s|..], st1)
  }

  function Start(env: Env): State { State([], env, []) }

  /** The full pass; None when the source is rejected. */
  function FullPass(src: Text, env: Env): Option<Text> {
    match RunFrom(src, Start(env))
    case None => None
    case Some(st) => if st.stack == [] then Some(st.out) else None
  }

  /** A source without a percent sign is handed through unread. */
  function Preprocess(src: Text, env: Env): Option<Text> {
    if '%' !in src then Some(src) else FullPass(src, env)
  }

  /** Scanning and running may be told apart, but for the order of complaints. */
  lemma {:induction false} RunsItems(s: Text, st: State)
    ensures Lex(s).Some? ==> RunFrom(s, st) == RunAll(Lex(s).value, st)
    ensures Lex(s).None? ==> RunFrom(s, st).None?
    decreases |s|
  {
    hide First, RunItem;
    if s != [] && First(s).Some? {
      var item := First(s).value;
      var rest := s[|item.s|..];
      if RunItem(item, st).Some? {
        RunsItems(rest, RunItem(item, st).value);
      }
      if Lex(rest).Some? {
        assert ([item] + Lex(rest).value)[1..] == Lex(rest).value;
      }
    }
  }
}
