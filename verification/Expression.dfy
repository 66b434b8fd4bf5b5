/** The language of policies: identities combined by `&` and `|`. The two operators have equal
    precedence and associate to the left; parsing and evaluating are one. */
module Expression {

  type Checker = string -> bool

  datatype Parsed = NoMatch | Got(value: bool, rest: string)

  // ---- the scanner ----

  predicate IsSpace(c: char) {
    c == ' ' || c == '\t' || c == '\r' || c == '\n'
  }

  predicate IsAlnum(c: char) {
    '0' <= c <= '9' || 'a' <= c <= 'z'
  }

  predicate IsHex(c: char) {
    '0' <= c <= '9' || 'a' <= c <= 'f'
  }

  function SkipSpace(s: string): (r: string)
    ensures |r| <= |s|
  {
    if s != "" && IsSpace(s[0]) then SkipSpace(s[1..]) else s
  }

  /** How many characters at the start belong to a class. */
  function RunAlnum(s: string): (n: nat)
    ensures n <= |s|
  {
    if s != "" && IsAlnum(s[0]) then 1 + RunAlnum(s[1..]) else 0
  }

  function RunHex(s: string): (n: nat)
    ensures n <= |s|
  {
    if s != "" && IsHex(s[0]) then 1 + RunHex(s[1..]) else 0
  }

  /** The length of the identity at the start, 0 if there is none: letters and digits, a colon,
      hexadecimal digits. */
  function IdLength(s: string): (n: nat)
    ensures n <= |s|
  {
    var a := RunAlnum(s);
    if a == 0 || a >= |s| || s[a] != ':' then 0
    else
      var b := RunHex(s[a + 1..]);
      if b == 0 then 0 else a + 1 + b
  }

  /** A token of one character, after spaces; None if something else is there. */
  function Token(c: char, s: string): (r: Parsed)
    ensures r.Got? ==> |r.rest| < |s|
  {
    var t := SkipSpace(s);
    if t != "" && t[0] == c then Got(true, t[1..]) else NoMatch
  }

  // ---- the grammar ----

  /** value: an identity, or an expression in parentheses */
  function ParseValue(fn: Checker, s: string): (r: Parsed)
    ensures r.Got? ==> |r.rest| < |s|
    decreases |s|, 0
  {
    var t := SkipSpace(s);
    var n := IdLength(t);
    if n > 0 then Got(fn(t[..n]), t[n..])
    else match Token('(', s)
      case NoMatch => NoMatch
      case Got(_, inside) =>
        match ParseSum(fn, inside)
        case NoMatch => NoMatch
        case Got(v, rest) =>
          match Token(')', rest)
          case NoMatch => NoMatch
          case Got(_, outside) => Got(v, outside)
  }

  /** sum: a value, then operators and values */
  function ParseSum(fn: Checker, s: string): (r: Parsed)
    ensures r.Got? ==> |r.rest| < |s|
    decreases |s|, 1
  {
    match ParseValue(fn, s)
    case NoMatch => NoMatch
    case Got(v, rest) => ParseMore(fn, v, rest)
  }

  /** As many operators with a value after them as there are, folded from the left. */
  function ParseMore(fn: Checker, acc: bool, s: string): (r: Parsed)
    ensures r.Got? && |r.rest| <= |s|
    decreases |s|, 2
  {
    match Token('&', s)
    case Got(_, t) =>
      (match ParseValue(fn, t)
       case NoMatch => Got(acc, s)
       case Got(v, rest) => ParseMore(fn, acc && v, rest))
    case NoMatch =>
      match Token('|', s)
      case NoMatch => Got(acc, s)
      case Got(_, t) =>
        match ParseValue(fn, t)
        case NoMatch => Got(acc, s)
        case Got(v, rest) => ParseMore(fn, acc || v, rest)
  }

  datatype Verdict = Value(value: bool) | NotEmpty | NotBool

  /** Evaluate; a parser that fails gives back what it was given. */
  function Evaluate(fn: Checker, s: string): Verdict {
    match ParseSum(fn, s)
    case NoMatch => if SkipSpace(s) != "" then NotEmpty else NotBool
    case Got(v, rest) => if SkipSpace(rest) != "" then NotEmpty else Value(v)
  }

  // ---- expressions as trees ----

  datatype Oper = And | Or

  datatype Expr = Id(name: string) | Bin(oper: Oper, left: Expr, right: Expr)

  function Sign(o: Oper): string {
    match o
    case And => " & "
    case Or => " | "
  }

  function Combine(o: Oper, a: bool, b: bool): bool {
    match o
    case And => a && b
    case Or => a || b
  }

  const LETTERS := "0123456789abcdefghijklmnopqrstuvwxyz"
  const DIGITS := "0123456789abcdef"

  predicate AllIn(s: string, chars: string) {
    s != "" && forall i :: 0 <= i < |s| ==> s[i] in chars
  }

  ghost predicate IdParts(s: string, kind: string, name: string) {
    s == kind + ":" + name && AllIn(kind, LETTERS) && AllIn(name, DIGITS)
  }

  /** An identity: letters and digits, a colon, hexadecimal digits. */
  ghost predicate IsId(s: string) {
    exists kind, name :: IdParts(s, kind, name)
  }

  ghost predicate WellFormed(e: Expr) {
    match e
    case Id(name) => IsId(name)
    case Bin(_, l, r) => WellFormed(l) && WellFormed(r)
  }

  function Meaning(fn: Checker, e: Expr): bool {
    match e
    case Id(name) => fn(name)
    case Bin(o, l, r) => Combine(o, Meaning(fn, l), Meaning(fn, r))
  }

  /** Fully parenthesised. */
  function Print(e: Expr): string {
    match e
    case Id(name) => name
    case Bin(o, l, r) => "(" + Print(l) + Sign(o) + Print(r) + ")"
  }

  /** What may follow an identity without becoming part of it. */
  predicate Ends(rest: string) {
    rest == "" || !IsHex(rest[0])
  }

  // ---- the scanner finds identities ----

  lemma LetterAt(k: nat)
    requires k < 36
    ensures LETTERS[k] as int == if k < 10 then 48 + k else 87 + k
  {
  }

  lemma DigitAt(k: nat)
    requires k < 16
    ensures DIGITS[k] as int == if k < 10 then 48 + k else 87 + k
  {
  }

  lemma Alnums(c: char)
    ensures IsAlnum(c) <==> c in LETTERS
  {
    if k :| 0 <= k < 36 && LETTERS[k] == c {
      LetterAt(k);
    }
    if IsAlnum(c) {
      LetterAt(if c <= '9' then c as int - 48 else c as int - 87);
    }
  }

  lemma Hexes(c: char)
    ensures IsHex(c) <==> c in DIGITS
  {
    if k :| 0 <= k < 16 && DIGITS[k] == c {
      DigitAt(k);
    }
    if IsHex(c) {
      DigitAt(if c <= '9' then c as int - 48 else c as int - 87);
    }
  }

  lemma Classes(c: char)
    ensures IsAlnum(c) <==> c in LETTERS
    ensures IsHex(c) <==> c in DIGITS
  {
    hide IsAlnum, IsHex;
    Alnums(c);
    Hexes(c);
  }

  lemma {:induction false} RunAlnumIs(s: string, n: nat)
    requires n <= |s| && (forall i :: 0 <= i < n ==> IsAlnum(s[i])) && (n < |s| ==> !IsAlnum(s[n]))
    ensures RunAlnum(s) == n
  {
    if n > 0 {
      RunAlnumIs(s[1..], n - 1);
    }
  }

  lemma {:induction false} RunAlnumAll(s: string)
    ensures forall i :: 0 <= i < RunAlnum(s) ==> IsAlnum(s[i])
  {
    if s != "" && IsAlnum(s[0]) {
      RunAlnumAll(s[1..]);
      assert forall i :: 1 <= i < RunAlnum(s) ==> s[i] == s[1..][i - 1];
    }
  }

  lemma {:induction false} RunHexIs(s: string)
    ensures RunHex(s) == |s| <==> forall i :: 0 <= i < |s| ==> IsHex(s[i])
  {
    if s != "" {
      RunHexIs(s[1..]);
      assert forall i :: 1 <= i < |s| ==> s[i] == s[1..][i - 1];
    }
  }

  lemma AllAlnum(s: string)
    ensures AllIn(s, LETTERS) <==> s != "" && forall i :: 0 <= i < |s| ==> IsAlnum(s[i])
  {
    hide IsAlnum;
    forall i | 0 <= i < |s| ensures IsAlnum(s[i]) <==> s[i] in LETTERS {
      Classes(s[i]);
    }
  }

  lemma AllHex(s: string)
    ensures AllIn(s, DIGITS) <==> s != "" && forall i :: 0 <= i < |s| ==> IsHex(s[i])
  {
    hide IsHex;
    forall i | 0 <= i < |s| ensures IsHex(s[i]) <==> s[i] in DIGITS {
      Classes(s[i]);
    }
  }

  lemma PartsScanned(s: string, kind: string, name: string)
    requires IdParts(s, kind, name)
    ensures s != "" && IdLength(s) == |s|
  {
    hide AllIn, IsHex;
    AllAlnum(kind);
    AllHex(name);
    var n := |kind|;
    assert forall i :: 0 <= i < n ==> s[i] == kind[i];
    RunAlnumIs(s, n);
    assert s[n] == ':' && s[n + 1..] == name;
    RunHexIs(name);
  }

  /** The scanner takes a whole string for an identity exactly if it is one. */
  lemma IdScanned(s: string)
    ensures IsId(s) <==> s != "" && IdLength(s) == |s|
  {
    hide AllIn, IsAlnum, IsHex, RunAlnum, RunHex;
    if kind, name :| IdParts(s, kind, name) {
      PartsScanned(s, kind, name);
    }
    if s != "" && IdLength(s) == |s| {
      var n := RunAlnum(s);
      RunAlnumAll(s);
      RunHexIs(s[n + 1..]);
      AllAlnum(s[..n]);
      AllHex(s[n + 1..]);
      assert IdParts(s, s[..n], s[n + 1..]);
    }
  }

  lemma {:induction false} RunAlnumPrefix(s: string, rest: string)
    requires RunAlnum(s) < |s|
    ensures RunAlnum(s + rest) == RunAlnum(s)
  {
    if IsAlnum(s[0]) {
      assert (s + rest)[1..] == s[1..] + rest;
      RunAlnumPrefix(s[1..], rest);
    }
  }

  lemma {:induction false} RunHexEnds(s: string, rest: string)
    requires RunHex(s) == |s| && Ends(rest)
    ensures RunHex(s + rest) == |s|
  {
    if s == "" {
      assert s + rest == rest;
    } else {
      assert (s + rest)[1..] == s[1..] + rest;
      RunHexEnds(s[1..], rest);
    }
  }

  lemma IdThen(name: string, rest: string)
    requires IsId(name) && Ends(rest)
    ensures IdLength(name + rest) == |name| && !IsSpace(name[0])
  {
    hide IsId;
    IdScanned(name);
    var a := RunAlnum(name);
    RunAlnumPrefix(name, rest);
    assert (name + rest)[a + 1..] == name[a + 1..] + rest;
    RunHexEnds(name[a + 1..], rest);
  }

  /** An identity is read back, whatever follows that does not belong to it. */
  lemma ValueOfId(fn: Checker, name: string, rest: string)
    requires IsId(name) && Ends(rest)
    ensures ParseValue(fn, name + rest) == Got(fn(name), rest)
  {
    hide IsId;
    IdScanned(name);
    IdThen(name, rest);
    assert SkipSpace(name + rest) == name + rest;
    assert (name + rest)[..|name|] == name && (name + rest)[|name|..] == rest;
  }

  lemma OpenParenthesis(s: string)
    ensures IdLength("(" + s) == 0 && SkipSpace("(" + s) == "(" + s && Token('(', "(" + s) == Got(true, s)
  {
    assert ("(" + s)[1..] == s;
  }

  lemma SignThen(o: Oper, s: string)
    ensures Ends(Sign(o) + s)
    ensures Token('&', Sign(o) + s) == if o.And? then Got(true, " " + s) else NoMatch
    ensures Token('|', Sign(o) + s) == if o.Or? then Got(true, " " + s) else NoMatch
  {
    var t := Sign(o) + s;
    assert t[0] == ' ' && t[1..] == (if o.And? then "&" else "|") + " " + s;
    assert SkipSpace(t) == t[1..];
    assert t[1..][1..] == " " + s;
  }

  lemma SpaceThen(fn: Checker, s: string)
    ensures ParseValue(fn, " " + s) == ParseValue(fn, s)
  {
    assert (" " + s)[1..] == s;
    assert SkipSpace(" " + s) == SkipSpace(s);
  }

  lemma CloseThen(s: string)
    ensures Token(')', ")" + s) == Got(true, s) && Ends(")" + s)
    ensures Token('&', ")" + s) == NoMatch && Token('|', ")" + s) == NoMatch
  {
    assert (")" + s)[1..] == s;
    assert SkipSpace(")" + s) == ")" + s;
  }

  /** What stands between parentheses is read as the value of the whole. */
  lemma Parenthesised(fn: Checker, inside: string, v: bool, rest: string)
    requires ParseSum(fn, inside) == Got(v, ")" + rest)
    ensures ParseValue(fn, "(" + inside) == Got(v, rest)
  {
    OpenParenthesis(inside);
    CloseThen(rest);
  }

  /** A printed tree is read back as its meaning. */
  lemma {:induction false} ValueOfPrint(fn: Checker, e: Expr, rest: string)
    requires WellFormed(e) && Ends(rest)
    ensures ParseValue(fn, Print(e) + rest) == Got(Meaning(fn, e), rest)
    decreases e
  {
    match e
    case Id(name) => ValueOfId(fn, name, rest);
    case Bin(o, l, r) =>
      hide Ends, Token, ParseValue, ParseMore, Sign, Combine;
      var last := ")" + rest;
      var second := Print(r) + last;
      var inside := Print(l) + (Sign(o) + second);
      assert Print(e) + rest == "(" + inside;
      CloseThen(rest);
      SignThen(o, second);
      ValueOfPrint(fn, l, Sign(o) + second);
      ValueOfPrint(fn, r, last);
      TurnOver(fn, Meaning(fn, l), o, second, Meaning(fn, r), last);
      Stops(fn, Meaning(fn, e), last);
      Parenthesised(fn, inside, Meaning(fn, e), rest);
  }

  /** One turn of the loop over operators. */
  lemma TurnOver(fn: Checker, acc: bool, o: Oper, s: string, v: bool, rest: string)
    requires ParseValue(fn, s) == Got(v, rest)
    ensures ParseMore(fn, acc, Sign(o) + s) == ParseMore(fn, Combine(o, acc, v), rest)
  {
    SignThen(o, s);
    SpaceThen(fn, s);
  }

  lemma Stops(fn: Checker, acc: bool, s: string)
    requires Token('&', s) == NoMatch && Token('|', s) == NoMatch
    ensures ParseMore(fn, acc, s) == Got(acc, s)
  {
  }

  // ---- blanks ----

  const BLANKS := " \t\r\n"

  ghost predicate Blank(w: string) {
    forall i :: 0 <= i < |w| ==> w[i] in BLANKS
  }

  lemma BlankIs(c: char)
    ensures IsSpace(c) <==> c in BLANKS
  {
    if IsSpace(c) {
      assert BLANKS[0] == ' ' && BLANKS[1] == '\t' && BLANKS[2] == '\r' && BLANKS[3] == '\n';
    }
  }

  lemma {:induction false} SkipBlank(w: string, s: string)
    requires Blank(w)
    ensures SkipSpace(w + s) == SkipSpace(s)
    decreases |w|
  {
    if w == "" {
      assert w + s == s;
    } else {
      BlankIs(w[0]);
      assert (w + s)[1..] == w[1..] + s;
      SkipBlank(w[1..], s);
    }
  }

  /** Blanks in front of a value, an operator or a parenthesis make no difference. */
  lemma BlankThen(fn: Checker, w: string, s: string)
    requires Blank(w)
    ensures ParseValue(fn, w + s) == ParseValue(fn, s) && forall c :: Token(c, w + s) == Token(c, s)
  {
    SkipBlank(w, s);
  }

  function OperSign(o: Oper): string {
    match o
    case And => "&"
    case Or => "|"
  }

  /** Fully parenthesised, with blanks wherever they are allowed. */
  function PrintSpaced(w: string, e: Expr): string {
    match e
    case Id(name) => w + name
    case Bin(o, l, r) => w + ("(" + (PrintSpaced(w, l) + (w + (OperSign(o) + (PrintSpaced(w, r) + (w + ")"))))))
  }

  lemma OperThen(fn: Checker, w: string, o: Oper, s: string)
    requires Blank(w)
    ensures Ends(w + (OperSign(o) + s))
    ensures Token('&', w + (OperSign(o) + s)) == if o.And? then Got(true, s) else NoMatch
    ensures Token('|', w + (OperSign(o) + s)) == if o.Or? then Got(true, s) else NoMatch
  {
    var t := OperSign(o) + s;
    BlankThen(fn, w, t);
    assert t[0] == (if o.And? then '&' else '|') && t[1..] == s && SkipSpace(t) == t;
    BlankEnds(w, t);
  }

  lemma BlankEnds(w: string, s: string)
    requires Blank(w) && Ends(s)
    ensures Ends(w + s)
  {
    if w == "" {
      assert w + s == s;
    } else {
      BlankIs(w[0]);
    }
  }

  /** A printed tree is read back as its meaning, however many blanks there are. */
  lemma {:induction false} ValueOfSpaced(fn: Checker, w: string, e: Expr, rest: string)
    requires Blank(w) && WellFormed(e) && Ends(rest)
    ensures ParseValue(fn, PrintSpaced(w, e) + rest) == Got(Meaning(fn, e), rest)
    decreases e
  {
    hide Ends, Token, ParseValue, ParseMore, OperSign, Combine, Blank, IsId;
    match e
    case Id(name) =>
      assert PrintSpaced(w, e) + rest == w + (name + rest);
      BlankThen(fn, w, name + rest);
      ValueOfId(fn, name, rest);
    case Bin(o, l, r) =>
      var close := ")" + rest;
      var last := w + close;
      var second := PrintSpaced(w, r) + last;
      var inside := PrintSpaced(w, l) + (w + (OperSign(o) + second));
      assert PrintSpaced(w, e) + rest == w + ("(" + inside);
      CloseThen(rest);
      BlankThen(fn, w, close);
      BlankEnds(w, close);
      OperThen(fn, w, o, second);
      ValueOfSpaced(fn, w, l, w + (OperSign(o) + second));
      ValueOfSpaced(fn, w, r, last);
      OperTurn(fn, Meaning(fn, l), o, w + (OperSign(o) + second), second, Meaning(fn, r), last);
      Stops(fn, Meaning(fn, e), last);
      SpacedParenthesis(fn, w, inside, Meaning(fn, e), last, rest);
  }

  lemma OperTurn(fn: Checker, acc: bool, o: Oper, s: string, t: string, v: bool, rest: string)
    requires Token('&', s) == if o.And? then Got(true, t) else NoMatch
    requires Token('|', s) == if o.Or? then Got(true, t) else NoMatch
    requires ParseValue(fn, t) == Got(v, rest)
    ensures ParseMore(fn, acc, s) == ParseMore(fn, Combine(o, acc, v), rest)
  {
  }

  lemma SpacedParenthesis(fn: Checker, w: string, inside: string, v: bool, last: string, rest: string)
    requires Blank(w) && ParseSum(fn, inside) == Got(v, last) && Token(')', last) == Got(true, rest)
    ensures ParseValue(fn, w + ("(" + inside)) == Got(v, rest)
  {
    BlankThen(fn, w, "(" + inside);
    OpenParenthesis(inside);
  }

  /** So evaluating it gives its meaning; anything else after it, but for operators, is an error. */
  lemma EvaluateSpaced(fn: Checker, w: string, e: Expr, rest: string)
    requires Blank(w) && WellFormed(e) && Ends(rest) && Token('&', rest) == NoMatch && Token('|', rest) == NoMatch
    ensures Evaluate(fn, PrintSpaced(w, e) + rest) == if Blank(rest) then Value(Meaning(fn, e)) else NotEmpty
  {
    ValueOfSpaced(fn, w, e, rest);
    Stops(fn, Meaning(fn, e), rest);
    SkippedIff(rest);
  }

  lemma {:induction false} SkippedIff(w: string)
    ensures SkipSpace(w) == "" <==> Blank(w)
    decreases |w|
  {
    if w != "" {
      BlankIs(w[0]);
      SkippedIff(w[1..]);
      assert forall i :: 1 <= i < |w| ==> w[i] == w[1..][i - 1];
    }
  }

  // ---- chains without parentheses ----

  datatype Link = Link(oper: Oper, expr: Expr)

  function PrintChain(e: Expr, links: seq<Link>): string
    decreases |links|
  {
    if links == [] then Print(e) else Print(e) + Sign(links[0].oper) + PrintChain(links[0].expr, links[1..])
  }

  ghost predicate ChainOk(e: Expr, links: seq<Link>) {
    WellFormed(e) && forall i :: 0 <= i < |links| ==> WellFormed(links[i].expr)
  }

  datatype Term = Term(oper: Oper, value: bool)

  function Terms(fn: Checker, links: seq<Link>): (ts: seq<Term>)
    ensures |ts| == |links|
  {
    seq(|links|, i requires 0 <= i < |links| => Term(links[i].oper, Meaning(fn, links[i].expr)))
  }

  /** From the left, with equal precedence. */
  function FoldLeft(acc: bool, ts: seq<Term>): bool
    decreases |ts|
  {
    if ts == [] then acc else FoldLeft(Combine(ts[0].oper, acc, ts[0].value), ts[1..])
  }

  /** sumNode */
  method SumNode(first: bool, ts: seq<Term>) returns (val: bool)
    ensures val == FoldLeft(first, ts)
  {
    val := first;
    for i := 0 to |ts|
      invariant FoldLeft(val, ts[i..]) == FoldLeft(first, ts)
    {
      assert ts[i..][1..] == ts[i + 1..];
      match ts[i].oper
      case And => val := val && ts[i].value;
      case Or => val := val || ts[i].value;
    }
    assert ts[|ts|..] == [];
  }

  lemma {:induction false} MoreOfChain(fn: Checker, acc: bool, e: Expr, links: seq<Link>, o: Oper)
    requires ChainOk(e, links)
    ensures ParseMore(fn, acc, Sign(o) + PrintChain(e, links)) ==
      Got(FoldLeft(acc, [Term(o, Meaning(fn, e))] + Terms(fn, links)), "")
    decreases |links|
  {
    hide ParseValue, ParseMore, Sign, Print, Meaning, FoldLeft, Terms;
    var v := Meaning(fn, e);
    NoTerms(fn, acc);
    FoldOne(acc, Term(o, v), Terms(fn, links));
    if links == [] {
      assert Print(e) + "" == Print(e);
      ValueOfPrint(fn, e, "");
      TurnOver(fn, acc, o, Print(e), v, "");
      Stops(fn, Combine(o, acc, v), "");
    } else {
      var next := PrintChain(links[0].expr, links[1..]);
      var rest := Sign(links[0].oper) + next;
      assert PrintChain(e, links) == Print(e) + rest;
      SignThen(links[0].oper, next);
      ValueOfPrint(fn, e, rest);
      TurnOver(fn, acc, o, PrintChain(e, links), v, rest);
      MoreOfChain(fn, Combine(o, acc, v), links[0].expr, links[1..], links[0].oper);
      TermsFirst(fn, links);
    }
  }

  lemma FoldOne(acc: bool, t: Term, ts: seq<Term>)
    ensures FoldLeft(acc, [t] + ts) == FoldLeft(Combine(t.oper, acc, t.value), ts)
  {
    assert ([t] + ts)[1..] == ts;
  }

  lemma NoTerms(fn: Checker, acc: bool)
    ensures Terms(fn, []) == [] && forall a: bool :: FoldLeft(a, []) == a
  {
  }

  lemma TermsFirst(fn: Checker, links: seq<Link>)
    requires links != []
    ensures Terms(fn, links) == [Term(links[0].oper, Meaning(fn, links[0].expr))] + Terms(fn, links[1..])
  {
  }

  /** A chain is folded from the left, whatever its operators; each of its parts may be an
      identity or a tree in parentheses. */
  lemma EvaluateChain(fn: Checker, e: Expr, links: seq<Link>)
    requires ChainOk(e, links)
    ensures Evaluate(fn, PrintChain(e, links)) == Value(FoldLeft(Meaning(fn, e), Terms(fn, links)))
  {
    hide ParseValue, ParseMore, Sign, Print, Meaning, Token;
    if links == [] {
      assert Print(e) + "" == Print(e);
      ValueOfPrint(fn, e, "");
      Stops(fn, Meaning(fn, e), "");
    } else {
      var rest := Sign(links[0].oper) + PrintChain(links[0].expr, links[1..]);
      assert PrintChain(e, links) == Print(e) + rest;
      SignThen(links[0].oper, PrintChain(links[0].expr, links[1..]));
      ValueOfPrint(fn, e, rest);
      MoreOfChain(fn, Meaning(fn, e), links[0].expr, links[1..], links[0].oper);
      TermsFirst(fn, links);
    }
  }

  /** The meaning of every expression, printed with all its parentheses. */
  lemma EvaluatePrint(fn: Checker, e: Expr)
    requires WellFormed(e)
    ensures Evaluate(fn, Print(e)) == Value(Meaning(fn, e))
  {
    EvaluateChain(fn, e, []);
  }

  // ---- the grammar of the documentation ----

  /** There `|` binds more tightly than `&`: a conjunction of disjunctions. */
  function Documented(acc: bool, ts: seq<Term>): bool
    decreases |ts|
  {
    if ts == [] then acc
    else match ts[0].oper
      case Or => Documented(acc || ts[0].value, ts[1..])
      case And => acc && Documented(ts[0].value, ts[1..])
  }

  /** No `&` comes before a `|`. */
  predicate OrsFirst(os: seq<Oper>) {
    forall i, j :: 0 <= i < j < |os| && os[i] == And ==> os[j] == And
  }

  function Zip(os: seq<Oper>, vs: seq<bool>): (ts: seq<Term>)
    requires |os| == |vs|
    ensures |ts| == |os|
  {
    seq(|os|, i requires 0 <= i < |os| => Term(os[i], vs[i]))
  }

  lemma ZipTail(os: seq<Oper>, vs: seq<bool>)
    requires |os| == |vs| && os != []
    ensures Zip(os, vs)[1..] == Zip(os[1..], vs[1..])
  {
  }

  lemma {:induction false} AllAnds(acc: bool, os: seq<Oper>, vs: seq<bool>)
    requires |os| == |vs| && forall i :: 0 <= i < |os| ==> os[i] == And
    ensures FoldLeft(acc, Zip(os, vs)) == (acc && forall i :: 0 <= i < |vs| ==> vs[i])
    ensures Documented(acc, Zip(os, vs)) == (acc && forall i :: 0 <= i < |vs| ==> vs[i])
    decreases |os|
  {
    if os != [] {
      ZipTail(os, vs);
      AllAnds(acc && vs[0], os[1..], vs[1..]);
      AllAnds(vs[0], os[1..], vs[1..]);
      assert forall i :: 1 <= i < |vs| ==> vs[i] == vs[1..][i - 1];
    }
  }

  lemma {:induction false} OrsFirstAgree(acc: bool, os: seq<Oper>, vs: seq<bool>)
    requires |os| == |vs| && OrsFirst(os)
    ensures FoldLeft(acc, Zip(os, vs)) == Documented(acc, Zip(os, vs))
    decreases |os|
  {
    if os != [] {
      ZipTail(os, vs);
      if os[0] == And {
        AllAnds(acc, os, vs);
      } else {
        OrsFirstAgree(acc || vs[0], os[1..], vs[1..]);
      }
    }
  }

  lemma {:induction false} AllTrue(os: seq<Oper>, vs: seq<bool>)
    requires |os| == |vs| && forall i :: 0 <= i < |vs| ==> vs[i]
    ensures FoldLeft(true, Zip(os, vs))
    decreases |os|
  {
    if os != [] {
      ZipTail(os, vs);
      AllTrue(os[1..], vs[1..]);
    }
  }

  /** Identities that are false up to a `|` and true from there on tell the two readings apart,
      if there is an `&` before it. */
  lemma {:induction false} TellApart(os: seq<Oper>, vs: seq<bool>, i: nat, j: nat)
    requires |os| == |vs| && i < j < |os| && os[i] == And && os[j] == Or
    requires forall k :: 0 <= k < |vs| ==> (vs[k] <==> k >= j)
    ensures FoldLeft(false, Zip(os, vs)) && !Documented(false, Zip(os, vs))
    decreases |os|
  {
    ZipTail(os, vs);
    if i == 0 {
      FalseThenTrue(os, vs, j);
    } else {
      TellApart(os[1..], vs[1..], i - 1, j - 1);
    }
  }

  lemma {:induction false} FalseThenTrue(os: seq<Oper>, vs: seq<bool>, j: nat)
    requires |os| == |vs| && j < |os| && os[j] == Or && forall k :: 0 <= k < |vs| ==> (vs[k] <==> k >= j)
    ensures FoldLeft(false, Zip(os, vs))
    decreases |os|
  {
    ZipTail(os, vs);
    if j == 0 {
      AllTrue(os[1..], vs[1..]);
    } else {
      FalseThenTrue(os[1..], vs[1..], j - 1);
    }
  }

  /** The code and its documentation agree on a chain of operators, for all values, exactly if
      no `&` comes before a `|`. */
  lemma DocumentationHolds(os: seq<Oper>)
    ensures OrsFirst(os) <==>
      forall acc, vs: seq<bool> :: |vs| == |os| ==> FoldLeft(acc, Zip(os, vs)) == Documented(acc, Zip(os, vs))
  {
    if OrsFirst(os) {
      forall acc, vs: seq<bool> | |vs| == |os| ensures FoldLeft(acc, Zip(os, vs)) == Documented(acc, Zip(os, vs)) {
        OrsFirstAgree(acc, os, vs);
      }
    } else {
      var i, j :| 0 <= i < j < |os| && os[i] == And && os[j] != And;
      var vs := seq(|os|, k => k >= j);
      TellApart(os, vs, i, j);
      assert FoldLeft(false, Zip(os, vs)) != Documented(false, Zip(os, vs));
    }
  }

  lemma ThreeChain(fn: Checker, a: Expr, b: Expr, c: Expr, links: seq<Link>)
    requires WellFormed(a) && WellFormed(b) && WellFormed(c) && links == [Link(And, b), Link(Or, c)]
    ensures Evaluate(fn, PrintChain(a, links)) == Value((Meaning(fn, a) && Meaning(fn, b)) || Meaning(fn, c))
    ensures Documented(Meaning(fn, a), Terms(fn, links)) == (Meaning(fn, a) && (Meaning(fn, b) || Meaning(fn, c)))
  {
    hide Evaluate, PrintChain, Meaning, WellFormed;
    EvaluateChain(fn, a, links);
    var ts := Terms(fn, links);
    assert ts == [Term(And, Meaning(fn, b)), Term(Or, Meaning(fn, c))];
    assert ts[1..] == [Term(Or, Meaning(fn, c))] && ts[1..][1..] == [];
    assert FoldLeft(Meaning(fn, a) && Meaning(fn, b), ts[1..]) == ((Meaning(fn, a) && Meaning(fn, b))
      || Meaning(fn, c));
    assert Documented(Meaning(fn, b), ts[1..]) == (Meaning(fn, b) || Meaning(fn, c));
  }

  /** a & b | c with only c valid: the code says yes, the documentation no. */
  lemma DocumentationFails(fn: Checker)
    requires !fn("a:a") && !fn("b:b") && fn("c:c")
    ensures Evaluate(fn, "a:a & b:b | c:c") == Value(true)
    ensures
      var links := [Link(And, Id("b:b")), Link(Or, Id("c:c"))];
      PrintChain(Id("a:a"), links) == "a:a & b:b | c:c" && !Documented(fn("a:a"), Terms(fn, links))
  {
    var links := [Link(And, Id("b:b")), Link(Or, Id("c:c"))];
    SmallIds();
    PrintsTo(links);
    hide Evaluate, PrintChain, IsId, Documented, Terms;
    ThreeChain(fn, Id("a:a"), Id("b:b"), Id("c:c"), links);
  }

  lemma PrintsTo(links: seq<Link>)
    requires links == [Link(And, Id("b:b")), Link(Or, Id("c:c"))]
    ensures PrintChain(Id("a:a"), links) == "a:a & b:b | c:c"
  {
    assert links[1..] == [links[1]] && [links[1]][1..] == [];
    assert PrintChain(Id("b:b"), links[1..]) == "b:b" + " | " + "c:c";
  }

  lemma SmallIds()
    ensures IsId("a:a") && IsId("b:b") && IsId("c:c")
  {
    SmallId('a');
    SmallId('b');
    SmallId('c');
    assert ['a'] + ":" + ['a'] == "a:a" && ['b'] + ":" + ['b'] == "b:b" && ['c'] + ":" + ['c'] == "c:c";
  }

  lemma SmallId(c: char)
    requires 'a' <= c <= 'f'
    ensures IsId([c] + ":" + [c])
  {
    Classes(c);
    assert IdParts([c] + ":" + [c], [c], [c]);
  }

  /** The identity of a key, the first example of the documentation */
  lemma KeyIdentity(fn: Checker)
    ensures IsId("ed25519:deadbeef")
    ensures Evaluate(fn, "ed25519:deadbeef") == Value(fn("ed25519:deadbeef"))
  {
    var kind, name := "ed25519", "deadbeef";
    forall i | 0 <= i < |kind| ensures kind[i] in LETTERS {
      Classes(kind[i]);
    }
    forall i | 0 <= i < |name| ensures name[i] in DIGITS {
      Classes(name[i]);
    }
    assert IdParts("ed25519:deadbeef", kind, name);
    hide Evaluate;
    EvaluatePrint(fn, Id("ed25519:deadbeef"));
  }

  // ---- expressions over a list of identities ----

  function Join(ids: seq<string>, sep: string): string {
    if ids == [] then "" else if |ids| == 1 then ids[0] else ids[0] + sep + Join(ids[1..], sep)
  }

  /** InitAndExpr and InitOrExpr */
  function InitExpr(o: Oper, ids: seq<string>): string {
    Join(ids, Sign(o))
  }

  lemma InitExprText(ids: seq<string>)
    requires |ids| >= 2
    ensures InitExpr(And, ids) == ids[0] + " & " + InitExpr(And, ids[1..])
    ensures InitExpr(Or, ids) == ids[0] + " | " + InitExpr(Or, ids[1..])
    ensures InitExpr(And, [ids[0]]) == InitExpr(Or, [ids[0]]) == ids[0]
  {
  }

  function ChainOf(o: Oper, ids: seq<string>): (links: seq<Link>)
    ensures |links| == |ids|
  {
    seq(|ids|, i requires 0 <= i < |ids| => Link(o, Id(ids[i])))
  }

  lemma {:induction false} JoinIsChain(o: Oper, ids: seq<string>)
    requires ids != []
    ensures InitExpr(o, ids) == PrintChain(Id(ids[0]), ChainOf(o, ids[1..]))
  {
    if |ids| > 1 {
      JoinIsChain(o, ids[1..]);
      assert ChainOf(o, ids[1..])[1..] == ChainOf(o, ids[1..][1..]);
    }
  }

  lemma {:induction false} FoldSame(fn: Checker, o: Oper, acc: bool, ids: seq<string>)
    ensures FoldLeft(acc, Terms(fn, ChainOf(o, ids))) == match o
      case And => acc && forall i :: 0 <= i < |ids| ==> fn(ids[i])
      case Or => acc || exists i :: 0 <= i < |ids| && fn(ids[i])
    decreases |ids|
  {
    if ids != [] {
      assert Terms(fn, ChainOf(o, ids))[1..] == Terms(fn, ChainOf(o, ids[1..]));
      FoldSame(fn, o, Combine(o, acc, fn(ids[0])), ids[1..]);
      assert forall i :: 1 <= i < |ids| ==> ids[i] == ids[1..][i - 1];
    }
  }

  /** All identities valid, or some identity valid; no identities at all are an error. */
  lemma InitExprMeaning(fn: Checker, o: Oper, ids: seq<string>)
    requires forall i :: 0 <= i < |ids| ==> IsId(ids[i])
    ensures Evaluate(fn, InitExpr(o, ids)) ==
      if ids == [] then NotBool
      else if o == And then Value(forall i :: 0 <= i < |ids| ==> fn(ids[i]))
      else Value(exists i :: 0 <= i < |ids| && fn(ids[i]))
  {
    if ids == [] {
      assert ParseSum(fn, "") == NoMatch;
    } else {
      JoinIsChain(o, ids);
      EvaluateChain(fn, Id(ids[0]), ChainOf(o, ids[1..]));
      FoldSame(fn, o, fn(ids[0]), ids[1..]);
      assert forall i :: 1 <= i < |ids| ==> ids[i] == ids[1..][i - 1];
    }
  }

  // ---- monotonicity ----

  ghost predicate Implies(f: Checker, g: Checker) {
    forall name :: f(name) ==> g(name)
  }

  ghost predicate NoLess(a: Parsed, b: Parsed) {
    match a
    case NoMatch => b == NoMatch
    case Got(v, rest) => b.Got? && b.rest == rest && (v ==> b.value)
  }

  /** What parses does not depend on which identities are valid, and more valid identities never
      turn a yes into a no. */
  lemma {:induction false} ValueMonotone(f: Checker, g: Checker, s: string)
    requires Implies(f, g)
    ensures NoLess(ParseValue(f, s), ParseValue(g, s))
    decreases |s|, 0
  {
    var t := SkipSpace(s);
    if IdLength(t) == 0 && Token('(', s).Got? {
      SumMonotone(f, g, Token('(', s).rest);
    }
  }

  lemma {:induction false} SumMonotone(f: Checker, g: Checker, s: string)
    requires Implies(f, g)
    ensures NoLess(ParseSum(f, s), ParseSum(g, s))
    decreases |s|, 1
  {
    ValueMonotone(f, g, s);
    if ParseValue(f, s).Got? {
      MoreMonotone(f, g, ParseValue(f, s).value, ParseValue(g, s).value, ParseValue(f, s).rest);
    }
  }

  lemma {:induction false} MoreMonotone(f: Checker, g: Checker, a: bool, b: bool, s: string)
    requires Implies(f, g) && (a ==> b)
    ensures NoLess(ParseMore(f, a, s), ParseMore(g, b, s))
    decreases |s|, 2
  {
    var amp, bar := Token('&', s), Token('|', s);
    if amp.Got? {
      ValueMonotone(f, g, amp.rest);
      var v, w := ParseValue(f, amp.rest), ParseValue(g, amp.rest);
      if v.Got? {
        MoreMonotone(f, g, a && v.value, b && w.value, v.rest);
      }
    } else if bar.Got? {
      ValueMonotone(f, g, bar.rest);
      var v, w := ParseValue(f, bar.rest), ParseValue(g, bar.rest);
      if v.Got? {
        MoreMonotone(f, g, a || v.value, b || w.value, v.rest);
      }
    }
  }

  lemma EvaluateMonotone(f: Checker, g: Checker, s: string)
    requires Implies(f, g)
    ensures Evaluate(f, s) == Value(true) ==> Evaluate(g, s) == Value(true)
    ensures Evaluate(f, s).Value? == Evaluate(g, s).Value?
  {
    SumMonotone(f, g, s);
  }

  // ---- the identities that an expression asks about ----

  const ANYONE: Checker := name => true

  /** The identities that are looked at when a value is parsed. */
  function NamesValue(s: string): set<string>
    decreases |s|, 0
  {
    var t := SkipSpace(s);
    var n := IdLength(t);
    if n > 0 then {t[..n]}
    else match Token('(', s)
      case NoMatch => {}
      case Got(_, inside) => NamesSum(inside)
  }

  function NamesSum(s: string): set<string>
    decreases |s|, 1
  {
    match ParseValue(ANYONE, s)
    case NoMatch => NamesValue(s)
    case Got(_, rest) => NamesValue(s) + NamesMore(rest)
  }

  function NamesMore(s: string): set<string>
    decreases |s|, 2
  {
    match (if Token('&', s).Got? then Token('&', s) else Token('|', s))
    case NoMatch => {}
    case Got(_, t) =>
      match ParseValue(ANYONE, t)
      case NoMatch => NamesValue(t)
      case Got(_, rest) => NamesValue(t) + NamesMore(rest)
  }

  ghost predicate Agree(f: Checker, g: Checker, names: set<string>) {
    forall name :: name in names ==> f(name) == g(name)
  }

  lemma ValueAnyone(f: Checker, s: string)
    ensures ParseValue(f, s).Got? == ParseValue(ANYONE, s).Got?
    ensures ParseValue(f, s).Got? ==> ParseValue(f, s).rest == ParseValue(ANYONE, s).rest
  {
    ValueMonotone(f, ANYONE, s);
  }

  /** The outcome depends on nothing else. */
  lemma {:induction false} ValueAgrees(f: Checker, g: Checker, s: string)
    requires Agree(f, g, NamesValue(s))
    ensures ParseValue(f, s) == ParseValue(g, s)
    decreases |s|, 0
  {
    var t := SkipSpace(s);
    if IdLength(t) == 0 && Token('(', s).Got? {
      SumAgrees(f, g, Token('(', s).rest);
    }
  }

  lemma {:induction false} SumAgrees(f: Checker, g: Checker, s: string)
    requires Agree(f, g, NamesSum(s))
    ensures ParseSum(f, s) == ParseSum(g, s)
    decreases |s|, 1
  {
    ValueAgrees(f, g, s);
    ValueAnyone(f, s);
    if ParseValue(f, s).Got? {
      MoreAgrees(f, g, ParseValue(f, s).value, ParseValue(f, s).rest);
    }
  }

  lemma {:induction false} MoreAgrees(f: Checker, g: Checker, acc: bool, s: string)
    requires Agree(f, g, NamesMore(s))
    ensures ParseMore(f, acc, s) == ParseMore(g, acc, s)
    decreases |s|, 2
  {
    var op := if Token('&', s).Got? then Token('&', s) else Token('|', s);
    if op.Got? {
      ValueAgrees(f, g, op.rest);
      ValueAnyone(f, op.rest);
      var v := ParseValue(f, op.rest);
      if v.Got? {
        MoreAgrees(f, g, Combine(if Token('&', s).Got? then And else Or, acc, v.value), v.rest);
      }
    }
  }

  lemma EvaluateAgrees(f: Checker, g: Checker, s: string)
    requires Agree(f, g, NamesSum(s))
    ensures Evaluate(f, s) == Evaluate(g, s)
  {
    SumAgrees(f, g, s);
  }

  // ---- answers that crash ----

  /** What comes of asking about an identity; a crash ends the whole evaluation. */
  datatype Check = Accept | Reject | Crash

  type Asker = string -> Check

  datatype Tried = Crashed | Parses(parsed: Parsed)

  /** The parser again, as it runs: it asks while it parses, and stops at a crash. */
  function TryValue(ask: Asker, s: string): (r: Tried)
    ensures r.Parses? && r.parsed.Got? ==> |r.parsed.rest| < |s|
    decreases |s|, 0
  {
    var t := SkipSpace(s);
    var n := IdLength(t);
    if n > 0 then
      match ask(t[..n])
      case Crash => Crashed
      case other => Parses(Got(other == Accept, t[n..]))
    else match Token('(', s)
      case NoMatch => Parses(NoMatch)
      case Got(_, inside) =>
        match TrySum(ask, inside)
        case Crashed => Crashed
        case Parses(NoMatch) => Parses(NoMatch)
        case Parses(Got(v, rest)) =>
          match Token(')', rest)
          case NoMatch => Parses(NoMatch)
          case Got(_, outside) => Parses(Got(v, outside))
  }

  function TrySum(ask: Asker, s: string): (r: Tried)
    ensures r.Parses? && r.parsed.Got? ==> |r.parsed.rest| < |s|
    decreases |s|, 1
  {
    match TryValue(ask, s)
    case Crashed => Crashed
    case Parses(NoMatch) => Parses(NoMatch)
    case Parses(Got(v, rest)) => TryMore(ask, v, rest)
  }

  function TryMore(ask: Asker, acc: bool, s: string): (r: Tried)
    ensures r.Parses? ==> r.parsed.Got? && |r.parsed.rest| <= |s|
    decreases |s|, 2
  {
    var op := if Token('&', s).Got? then And else Or;
    match Token(if op.And? then '&' else '|', s)
    case NoMatch => Parses(Got(acc, s))
    case Got(_, t) =>
      match TryValue(ask, t)
      case Crashed => Crashed
      case Parses(NoMatch) => Parses(Got(acc, s))
      case Parses(Got(v, rest)) => TryMore(ask, Combine(op, acc, v), rest)
  }

  function Accepts(ask: Asker): Checker {
    name => ask(name) == Accept
  }

  ghost predicate CrashesOn(ask: Asker, names: set<string>) {
    exists name :: name in names && ask(name) == Crash
  }

  /** It crashes exactly if one of the identities it looks at does, and otherwise parses alike. */
  lemma {:induction false} TryValueIs(ask: Asker, s: string)
    ensures TryValue(ask, s) == if CrashesOn(ask, NamesValue(s)) then Crashed else Parses(ParseValue(Accepts(ask), s))
    decreases |s|, 0
  {
    var t := SkipSpace(s);
    if IdLength(t) > 0 {
      assert t[..IdLength(t)] in NamesValue(s);
    } else if Token('(', s).Got? {
      TrySumIs(ask, Token('(', s).rest);
    }
  }

  lemma {:induction false} TrySumIs(ask: Asker, s: string)
    ensures TrySum(ask, s) == if CrashesOn(ask, NamesSum(s)) then Crashed else Parses(ParseSum(Accepts(ask), s))
    decreases |s|, 1
  {
    TryValueIs(ask, s);
    ValueAnyone(Accepts(ask), s);
    var v := ParseValue(Accepts(ask), s);
    if v.Got? {
      TryMoreIs(ask, v.value, v.rest);
      assert NamesSum(s) == NamesValue(s) + NamesMore(v.rest);
    }
  }

  lemma {:induction false} TryMoreIs(ask: Asker, acc: bool, s: string)
    ensures TryMore(ask, acc, s) == if CrashesOn(ask, NamesMore(s)) then Crashed
      else Parses(ParseMore(Accepts(ask), acc, s))
    decreases |s|, 2
  {
    var op := if Token('&', s).Got? then And else Or;
    var o := Token(if op.And? then '&' else '|', s);
    if o.Got? {
      TryValueIs(ask, o.rest);
      ValueAnyone(Accepts(ask), o.rest);
      var v := ParseValue(Accepts(ask), o.rest);
      if v.Got? {
        TryMoreIs(ask, Combine(op, acc, v.value), v.rest);
        assert NamesMore(s) == NamesValue(o.rest) + NamesMore(v.rest);
      }
    }
  }

  /** Evaluate when asking may crash; an expression that does not parse is not satisfied. */
  function Judge(ask: Asker, s: string): Check {
    match TrySum(ask, s)
    case Crashed => Crash
    case Parses(NoMatch) => Reject
    case Parses(Got(v, rest)) => if SkipSpace(rest) == "" && v then Accept else Reject
  }

  lemma JudgeIs(ask: Asker, s: string)
    ensures Judge(ask, s) ==
      if CrashesOn(ask, NamesSum(s)) then Crash else if Evaluate(Accepts(ask), s) == Value(true) then Accept
        else Reject
  {
    TrySumIs(ask, s);
  }

  lemma JudgeAgrees(a: Asker, b: Asker, s: string)
    requires forall name :: name in NamesSum(s) ==> a(name) == b(name)
    ensures Judge(a, s) == Judge(b, s)
  {
    JudgeIs(a, s);
    JudgeIs(b, s);
    EvaluateAgrees(Accepts(a), Accepts(b), s);
  }

  /** More acceptance in place of rejection never turns a yes into a no. */
  lemma JudgeMonotone(a: Asker, b: Asker, s: string)
    requires forall name :: (a(name) == Accept ==> b(name) == Accept) && (a(name) == Crash <==> b(name) == Crash)
    ensures (Judge(a, s) == Accept ==> Judge(b, s) == Accept) && (Judge(a, s) == Crash <==> Judge(b, s) == Crash)
  {
    JudgeIs(a, s);
    JudgeIs(b, s);
    EvaluateMonotone(Accepts(a), Accepts(b), s);
  }

  lemma NamesOfId(name: string, rest: string)
    requires IsId(name) && Ends(rest)
    ensures NamesValue(name + rest) == {name} && NamesValue(" " + name + rest) == {name}
  {
    hide NamesValue, IdLength, Ends, Token;
    IdThen(name, rest);
    assert SkipSpace(name + rest) == name + rest && (name + rest)[..|name|] == name;
    NamesAtId(name + rest, name + rest, |name|);
    assert " " + name + rest == " " + (name + rest) && (" " + (name + rest))[1..] == name + rest;
    NamesAtId(" " + name + rest, name + rest, |name|);
  }

  lemma NamesAtId(s: string, t: string, n: nat)
    requires SkipSpace(s) == t && IdLength(t) == n > 0
    ensures NamesValue(s) == {t[..n]}
  {
  }

  /** The identities of an expression. */
  function IdsOf(e: Expr): set<string> {
    match e
    case Id(name) => {name}
    case Bin(_, l, r) => IdsOf(l) + IdsOf(r)
  }

  lemma NamesBlank(s: string)
    ensures NamesValue(" " + s) == NamesValue(s)
  {
    assert (" " + s)[1..] == s;
    assert SkipSpace(" " + s) == SkipSpace(s);
  }

  /** All the identities of a printed tree are asked about, whatever the answers. */
  lemma {:induction false} NamesOfPrint(e: Expr, rest: string)
    requires WellFormed(e) && Ends(rest)
    ensures NamesValue(Print(e) + rest) == IdsOf(e)
    decreases e
  {
    hide Ends, Token, ParseValue, NamesValue, NamesMore, Sign, IsId;
    match e
    case Id(name) => NamesOfId(name, rest);
    case Bin(o, l, r) =>
      var last := ")" + rest;
      var second := Print(r) + last;
      var inside := Print(l) + (Sign(o) + second);
      assert Print(e) + rest == "(" + inside;
      CloseThen(rest);
      SignThen(o, second);
      ValueOfPrint(ANYONE, l, Sign(o) + second);
      ValueOfPrint(ANYONE, r, last);
      SpaceThen(ANYONE, second);
      NamesBlank(second);
      NamesOfPrint(l, Sign(o) + second);
      NamesOfPrint(r, last);
      NamesTurn(o, second, Meaning(ANYONE, r), last);
      NamesInside(inside, IdsOf(e));
  }

  lemma NamesTurn(o: Oper, s: string, v: bool, last: string)
    requires Token('&', Sign(o) + s) == if o.And? then Got(true, " " + s) else NoMatch
    requires Token('|', Sign(o) + s) == if o.Or? then Got(true, " " + s) else NoMatch
    requires ParseValue(ANYONE, " " + s) == Got(v, last)
    requires Token('&', last) == NoMatch && Token('|', last) == NoMatch
    ensures NamesMore(Sign(o) + s) == NamesValue(" " + s)
  {
    assert NamesMore(last) == {};
  }

  lemma NamesInside(inside: string, names: set<string>)
    requires NamesSum(inside) == names
    ensures NamesValue("(" + inside) == names
  {
    OpenParenthesis(inside);
  }

  lemma NamesOfTree(e: Expr)
    requires WellFormed(e)
    ensures NamesSum(Print(e)) == IdsOf(e)
  {
    NamesOfPrint(e, "");
    ValueOfPrint(ANYONE, e, "");
    assert Print(e) + "" == Print(e);
    assert NamesMore("") == {};
  }

  /** Two identities: both are asked about, whatever the answer to the first. */
  lemma EitherNames(a: string, b: string)
    requires IsId(a) && IsId(b)
    ensures NamesSum(a + " | " + b) == {a, b}
  {
    var tail := " | " + b;
    assert a + " | " + b == a + tail;
    SignThen(Or, b);
    ValueOfId(ANYONE, a, tail);
    NamesOfId(a, tail);
    SpaceThen(ANYONE, b);
    ValueOfId(ANYONE, b, "");
    NamesOfId(b, "");
    assert b + "" == b && " " + b + "" == " " + b;
    assert NamesMore("") == {};
    assert NamesMore(tail) == {b};
  }
}
