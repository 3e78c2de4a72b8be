/** The boolean `when` expressions of keybindings: the printer (`keybindings.ts` of the server) and the
    tokenizer and recursive-descent parser that read the text back (`keybindings.ts` of the shared
    package). */
module WhenExpressions {
  import opened Prelude

  datatype When = Identifier(name: string) | Not(node: When) | And(left: When, right: When) | Or(left: When, right: When)

  const MAX_WHEN_EXPRESSION_DEPTH := 64
  const MAX_KEYBINDING_WHEN_LENGTH := 256

  function Encode(node: When): string {
    match node
    case Identifier(name) => name
    case Not(inner) => "!(" + Encode(inner) + ")"
    case And(left, right) => "(" + Encode(left) + " && " + Encode(right) + ")"
    case Or(left, right) => "(" + Encode(left) + " || " + Encode(right) + ")"
  }

  // ----- Unique readability -----

  /** A name that cannot be taken for the beginning or the end of anything else. */
  predicate PlainName(name: string) {
    && ' ' !in name && ')' !in name
    && (name == "" || (name[0] != '!' && name[0] != '('))
  }

  predicate PlainNames(node: When) {
    match node
    case Identifier(name) => PlainName(name)
    case Not(inner) => PlainNames(inner)
    case And(left, right) => PlainNames(left) && PlainNames(right)
    case Or(left, right) => PlainNames(left) && PlainNames(right)
  }

  /** What can follow an expression inside another one: its closing parenthesis or an operator. */
  predicate Delimits(rest: string) {
    rest == "" || rest[0] == ')' || rest[0] == ' '
  }

  lemma NameEndsFirst(a: string, b: string, s: string, t: string)
    requires PlainName(b) && Delimits(s) && a + s == b + t
    ensures |b| <= |a|
  {
    assert forall k :: 0 <= k < |b| ==> (b + t)[k] == b[k] && b[k] in b;
    assert s != "" ==> (a + s)[|a|] == s[0];
  }

  lemma NamesArePrefixFree(a: string, b: string, s: string, t: string)
    requires PlainName(a) && PlainName(b) && Delimits(s) && Delimits(t) && a + s == b + t
    ensures a == b && s == t
  {
    NameEndsFirst(a, b, s, t);
    NameEndsFirst(b, a, t, s);
    assert a == (a + s)[..|a|] && b == (b + t)[..|b|];
    assert s == (a + s)[|a|..] && t == (b + t)[|b|..];
  }

  lemma CancelPrefix(p: string, u: string, v: string)
    requires p + u == p + v
    ensures u == v
  {
    assert u == (p + u)[|p|..] && v == (p + v)[|p|..];
  }

  predicate Binary(node: When) { node.And? || node.Or? }

  function Operator(node: When): string
    requires Binary(node)
  {
    if node.And? then " && " else " || "
  }

  lemma EncodeBinary(node: When, rest: string)
    requires Binary(node)
    ensures Encode(node) + rest == "(" + (Encode(node.left) + (Operator(node) + (Encode(node.right) + (")" + rest))))
  {
  }

  lemma EncodeNot(node: When, rest: string)
    requires node.Not?
    ensures Encode(node) + rest == "!(" + (Encode(node.node) + (")" + rest))
  {
  }

  /** The prefix lemma: an expression's text ends where the expression ends, however deep the
      parentheses, so equal texts come from equal expressions. */
  lemma {:induction false} TextsArePrefixFree(a: When, b: When, s: string, t: string)
    requires PlainNames(a) && PlainNames(b) && Delimits(s) && Delimits(t)
    requires Encode(a) + s == Encode(b) + t
    ensures a == b && s == t
    decreases a
  {
    FirstCharacter(a, s);
    FirstCharacter(b, t);
    if a.Identifier? {
      NamesArePrefixFree(a.name, b.name, s, t);
    } else if a.Not? {
      EncodeNot(a, s);
      EncodeNot(b, t);
      CancelPrefix("!(", Encode(a.node) + (")" + s), Encode(b.node) + (")" + t));
      TextsArePrefixFree(a.node, b.node, ")" + s, ")" + t);
      CancelPrefix(")", s, t);
    } else {
      EncodeBinary(a, s);
      EncodeBinary(b, t);
      var s' := Operator(a) + (Encode(a.right) + (")" + s));
      var t' := Operator(b) + (Encode(b.right) + (")" + t));
      CancelPrefix("(", Encode(a.left) + s', Encode(b.left) + t');
      TextsArePrefixFree(a.left, b.left, s', t');
      assert s'[1] == Operator(a)[1] && t'[1] == Operator(b)[1];
      CancelPrefix(Operator(a), Encode(a.right) + (")" + s), Encode(b.right) + (")" + t));
      TextsArePrefixFree(a.right, b.right, ")" + s, ")" + t);
      CancelPrefix(")", s, t);
    }
  }

  /** The first character tells the kind of node. */
  lemma FirstCharacter(node: When, rest: string)
    requires PlainNames(node) && Delimits(rest)
    ensures var text := Encode(node) + rest;
      && (node.Not? <==> text != "" && text[0] == '!')
      && (Binary(node) <==> text != "" && text[0] == '(')
  {
  }

  /** Two expressions with the same text are equal. */
  lemma UniquelyReadable(a: When, b: When)
    requires PlainNames(a) && PlainNames(b) && Encode(a) == Encode(b)
    ensures a == b
  {
    assert Encode(a) + "" == Encode(a) && Encode(b) + "" == Encode(b);
    TextsArePrefixFree(a, b, "", "");
  }

  /** The names matter: one that looks like an expression is mistaken for it. */
  lemma OddNamesAreAmbiguous()
    ensures Identifier("!(x)") != Not(Identifier("x")) && Encode(Identifier("!(x)")) == Encode(Not(Identifier("x")))
  {
  }

  // ----- Tokens -----

  datatype Token = Name(value: string) | Bang | Ampersands | Bars | Open | Close

  /** The white space of the pattern `\\s`. */
  predicate IsSpace(c: char) {
    || c == ' ' || '\t' <= c <= '\r' || c == '\U{00A0}' || c == '\U{1680}' || '\U{2000}' <= c <= '\U{200A}'
    || c == '\U{2028}' || c == '\U{2029}' || c == '\U{202F}' || c == '\U{205F}' || c == '\U{3000}' || c == '\U{FEFF}'
  }

  predicate StartsName(c: char) {
    'A' <= c <= 'Z' || 'a' <= c <= 'z' || c == '_'
  }

  predicate ContinuesName(c: char) {
    StartsName(c) || '0' <= c <= '9' || c == '.' || c == '-'
  }

  predicate ValidName(name: string) {
    name != "" && StartsName(name[0]) && forall c <- name :: ContinuesName(c)
  }

  /** How far a name reaches. */
  function NameRun(text: string): (n: nat)
    ensures n <= |text|
  {
    if text == "" || !ContinuesName(text[0]) then 0 else 1 + NameRun(text[1..])
  }

  function Prepend(token: Token, rest: Option<seq<Token>>): Option<seq<Token>> {
    if rest.Some? then Some([token] + rest.value) else None
  }

  function PrependAll(tokens: seq<Token>, rest: Option<seq<Token>>): Option<seq<Token>> {
    if rest.Some? then Some(tokens + rest.value) else None
  }

  lemma PrependNext(tokens: seq<Token>, token: Token, rest: Option<seq<Token>>)
    ensures PrependAll(tokens, Prepend(token, rest)) == PrependAll(tokens + [token], rest)
  {
    if rest.Some? {
      assert tokens + ([token] + rest.value) == tokens + [token] + rest.value;
    }
  }

  predicate StartsWith(text: string, prefix: string) {
    |prefix| <= |text| && text[..|prefix|] == prefix
  }

  /** The token a text begins with, and its length. */
  function NextToken(text: string): (next: Option<(Token, nat)>)
    requires text != ""
    ensures next.Some? ==> 0 < next.value.1 <= |text|
  {
    if StartsWith(text, "&&") then Some((Ampersands, 2))
    else if StartsWith(text, "||") then Some((Bars, 2))
    else if text[0] == '!' then Some((Bang, 1))
    else if text[0] == '(' then Some((Open, 1))
    else if text[0] == ')' then Some((Close, 1))
    else if !StartsName(text[0]) then None
    else Some((Name(text[..NameRun(text)]), NameRun(text)))
  }

  function Tokens(text: string): Option<seq<Token>>
    decreases |text|
  {
    if text == "" then Some([])
    else if IsSpace(text[0]) then Tokens(text[1..])
    else
      var next := NextToken(text);
      if next.None? then None else Prepend(next.value.0, Tokens(text[next.value.1..]))
  }

  lemma SpaceSkipped(expression: string, index: nat)
    requires index < |expression| && IsSpace(expression[index])
    ensures Tokens(expression[index..]) == Tokens(expression[index + 1..])
  {
    assert expression[index..][1..] == expression[index + 1..];
  }

  /** One round of the tokenizer's loop at a character that is no space. */
  method TakeToken(expression: string, index: nat) returns (token: Option<Token>, after: nat)
    requires index < |expression| && !IsSpace(expression[index])
    ensures token.Some? ==> index < after <= |expression|
    ensures Tokens(expression[index..]) == if token.Some? then Prepend(token.value, Tokens(expression[after..])) else None
  {
    var next := NextToken(expression[index..]);
    if next.None? {
      return None, index;
    }
    token, after := Some(next.value.0), index + next.value.1;
    assert expression[index..][next.value.1..] == expression[after..];
  }

  lemma NothingTaken(expression: string)
    ensures Tokens(expression) == PrependAll([], Tokens(expression[0..]))
  {
    assert expression[0..] == expression;
    assert Tokens(expression).Some? ==> [] + Tokens(expression).value == Tokens(expression).value;
  }

  lemma AllTaken(expression: string, output: seq<Token>)
    ensures PrependAll(output, Tokens(expression[|expression|..])) == Some(output)
  {
    assert output + [] == output;
  }

  method Tokenize(expression: string) returns (tokens: Option<seq<Token>>)
    ensures tokens == Tokens(expression)
  {
    var output: seq<Token> := [];
    var index := 0;
    ghost var all := Tokens(expression);
    NothingTaken(expression);
    while index < |expression|
      invariant index <= |expression|
      invariant all == PrependAll(output, Tokens(expression[index..]))
    {
      if IsSpace(expression[index]) {
        SpaceSkipped(expression, index);
        index := index + 1;
      } else {
        var token, after := TakeToken(expression, index);
        if token.None? {
          return None;
        }
        PrependNext(output, token.value, Tokens(expression[after..]));
        output, index := output + [token.value], after;
      }
    }
    AllTaken(expression, output);
    tokens := Some(output);
  }

  // ----- The grammar -----

  /** An expression and what is left after it. */
  type Parsed = Option<(When, seq<Token>)>

  function Negated(count: nat, node: When): When {
    if count == 0 then node else Negated(count - 1, Not(node))
  }

  function Primary(tokens: seq<Token>, depth: nat): (parsed: Parsed)
    ensures parsed.Some? ==> |parsed.value.1| < |tokens|
    decreases |tokens|, 0
  {
    if depth > MAX_WHEN_EXPRESSION_DEPTH || tokens == [] then None
    else match tokens[0]
      case Name(value) => Some((Identifier(value), tokens[1..]))
      case Open =>
        var inner := Disjunction(tokens[1..], depth + 1);
        if inner.Some? && inner.value.1 != [] && inner.value.1[0] == Close then Some((inner.value.0, inner.value.1[1..])) else None
      case _ => None
  }

  /** `nots` negations have been read. */
  function Unary(tokens: seq<Token>, depth: nat, nots: nat): (parsed: Parsed)
    ensures parsed.Some? ==> |parsed.value.1| < |tokens|
    decreases |tokens|, 1
  {
    if tokens != [] && tokens[0] == Bang then
      if nots + 1 > MAX_WHEN_EXPRESSION_DEPTH then None else Unary(tokens[1..], depth, nots + 1)
    else
      var primary := Primary(tokens, depth);
      if primary.Some? then Some((Negated(nots, primary.value.0), primary.value.1)) else None
  }

  /** The operands after `left`, joined to it from the left. */
  function MoreConjuncts(left: When, tokens: seq<Token>, depth: nat): (parsed: Parsed)
    ensures parsed.Some? ==> |parsed.value.1| <= |tokens|
    decreases |tokens|, 0
  {
    if tokens != [] && tokens[0] == Ampersands then
      var right := Unary(tokens[1..], depth, 0);
      if right.Some? then MoreConjuncts(And(left, right.value.0), right.value.1, depth) else None
    else Some((left, tokens))
  }

  function Conjunction(tokens: seq<Token>, depth: nat): (parsed: Parsed)
    ensures parsed.Some? ==> |parsed.value.1| < |tokens|
    decreases |tokens|, 2
  {
    var left := Unary(tokens, depth, 0);
    if left.Some? then MoreConjuncts(left.value.0, left.value.1, depth) else None
  }

  function MoreDisjuncts(left: When, tokens: seq<Token>, depth: nat): (parsed: Parsed)
    ensures parsed.Some? ==> |parsed.value.1| <= |tokens|
    decreases |tokens|, 0
  {
    if tokens != [] && tokens[0] == Bars then
      var right := Conjunction(tokens[1..], depth);
      if right.Some? then MoreDisjuncts(Or(left, right.value.0), right.value.1, depth) else None
    else Some((left, tokens))
  }

  function Disjunction(tokens: seq<Token>, depth: nat): (parsed: Parsed)
    ensures parsed.Some? ==> |parsed.value.1| < |tokens|
    decreases |tokens|, 3
  {
    var left := Conjunction(tokens, depth);
    if left.Some? then MoreDisjuncts(left.value.0, left.value.1, depth) else None
  }

  /** `parseKeybindingWhenExpression`. */
  function Parse(expression: string): Option<When> {
    var tokens := Tokens(expression);
    if tokens.None? || tokens.value == [] then None
    else
      var parsed := Disjunction(tokens.value, 0);
      if parsed.Some? && parsed.value.1 == [] then Some(parsed.value.0) else None
  }

  /** A parser's result and what it left, against the grammar. */
  predicate Agrees(node: Option<When>, rest: seq<Token>, parsed: Parsed) {
    if node.None? then parsed.None? else parsed == Some((node.value, rest))
  }

  /** The recursive-descent parser: a cursor over the tokens, moved by each method. */
  class WhenParser {
    const tokens: seq<Token>
    var index: nat

    ghost predicate Valid()
      reads this
    {
      index <= |tokens|
    }

    ghost function Rest(): seq<Token>
      reads this
      requires Valid()
    {
      tokens[index..]
    }

    constructor (tokens: seq<Token>)
      ensures Valid() && this.tokens == tokens && Rest() == tokens
    {
      this.tokens, index := tokens, 0;
    }

    predicate At(token: Token)
      reads this
      requires Valid()
    {
      index < |tokens| && tokens[index] == token
    }

    method ParsePrimary(depth: nat) returns (node: Option<When>)
      requires Valid()
      modifies this
      ensures Valid() && index >= old(index)
      ensures Agrees(node, Rest(), Primary(old(Rest()), depth))
      decreases |tokens| - index, 0
    {
      ghost var rest := Rest();
      if depth > MAX_WHEN_EXPRESSION_DEPTH || index == |tokens| {
        return None;
      }
      match tokens[index] {
        case Name(value) =>
          index := index + 1;
          return Some(Identifier(value));
        case Open =>
          index := index + 1;
          assert Rest() == rest[1..];
          var inner := ParseOr(depth + 1);
          if inner.None? || !At(Close) {
            return None;
          }
          index := index + 1;
          return inner;
        case _ =>
          return None;
      }
    }

    method ParseUnary(depth: nat) returns (node: Option<When>)
      requires Valid()
      modifies this
      ensures Valid() && index >= old(index)
      ensures Agrees(node, Rest(), Unary(old(Rest()), depth, 0))
      decreases |tokens| - index, 1
    {
      var notCount := 0;
      while At(Bang)
        invariant Valid() && index >= old(index) && notCount <= MAX_WHEN_EXPRESSION_DEPTH
        invariant Unary(old(Rest()), depth, 0) == Unary(Rest(), depth, notCount)
        decreases |tokens| - index
      {
        ghost var rest := Rest();
        index := index + 1;
        notCount := notCount + 1;
        assert Rest() == rest[1..];
        if notCount > MAX_WHEN_EXPRESSION_DEPTH {
          return None;
        }
      }
      ghost var rest := Rest();
      node := ParsePrimary(depth);
      if node.None? {
        return;
      }
      ghost var negated := Negated(notCount, node.value);
      while notCount > 0
        invariant node.Some? && Negated(notCount, node.value) == negated
      {
        node := Some(Not(node.value));
        notCount := notCount - 1;
      }
    }

    method ParseAnd(depth: nat) returns (node: Option<When>)
      requires Valid()
      modifies this
      ensures Valid() && index >= old(index)
      ensures Agrees(node, Rest(), Conjunction(old(Rest()), depth))
      decreases |tokens| - index, 2
    {
      node := ParseUnary(depth);
      if node.None? {
        return;
      }
      var left := node.value;
      while At(Ampersands)
        invariant Valid() && index > old(index)
        invariant Conjunction(old(Rest()), depth) == MoreConjuncts(left, Rest(), depth)
        decreases |tokens| - index
      {
        ghost var rest := Rest();
        index := index + 1;
        assert Rest() == rest[1..];
        var right := ParseUnary(depth);
        if right.None? {
          return None;
        }
        left := And(left, right.value);
      }
      node := Some(left);
    }

    method ParseOr(depth: nat) returns (node: Option<When>)
      requires Valid()
      modifies this
      ensures Valid() && index >= old(index)
      ensures Agrees(node, Rest(), Disjunction(old(Rest()), depth))
      decreases |tokens| - index, 3
    {
      node := ParseAnd(depth);
      if node.None? {
        return;
      }
      var left := node.value;
      while At(Bars)
        invariant Valid() && index > old(index)
        invariant Disjunction(old(Rest()), depth) == MoreDisjuncts(left, Rest(), depth)
        decreases |tokens| - index
      {
        ghost var rest := Rest();
        index := index + 1;
        assert Rest() == rest[1..];
        var right := ParseAnd(depth);
        if right.None? {
          return None;
        }
        left := Or(left, right.value);
      }
      node := Some(left);
    }
  }

  method ParseExpression(expression: string) returns (ast: Option<When>)
    ensures ast == Parse(expression)
  {
    var tokens := Tokenize(expression);
    if tokens.None? || tokens.value == [] {
      return None;
    }
    var parser := new WhenParser(tokens.value);
    ast := parser.ParseOr(0);
    if ast.Some? && parser.index != |tokens.value| {
      ast := None;
    }
  }

  // ----- Reading back what was printed -----

  /** The tokens of an expression, followed by `rest`. */
  function Emit(node: When, rest: seq<Token>): seq<Token> {
    match node
    case Identifier(name) => [Name(name)] + rest
    case Not(inner) => [Bang] + ([Open] + Emit(inner, [Close] + rest))
    case And(left, right) => [Open] + Emit(left, [Ampersands] + Emit(right, [Close] + rest))
    case Or(left, right) => [Open] + Emit(left, [Bars] + Emit(right, [Close] + rest))
  }

  predicate ValidNames(node: When) {
    match node
    case Identifier(name) => ValidName(name)
    case Not(inner) => ValidNames(inner)
    case And(left, right) => ValidNames(left) && ValidNames(right)
    case Or(left, right) => ValidNames(left) && ValidNames(right)
  }

  /** How deep the printer's parentheses nest. */
  function Depth(node: When): nat {
    match node
    case Identifier(_) => 0
    case Not(inner) => 1 + Depth(inner)
    case And(left, right) => 1 + Max(Depth(left), Depth(right))
    case Or(left, right) => 1 + Max(Depth(left), Depth(right))
  }

  function Max(a: nat, b: nat): nat { if a < b then b else a }

  lemma {:induction false} NameRunIsName(name: string, rest: string)
    requires forall c <- name :: ContinuesName(c)
    requires EndsName(rest)
    ensures NameRun(name + rest) == |name|
  {
    if name == "" {
      assert name + rest == rest;
    } else {
      assert name[0] in name;
      assert (name + rest)[1..] == name[1..] + rest;
      NameRunIsName(name[1..], rest);
    }
  }

  predicate EndsName(rest: string) { rest == "" || !ContinuesName(rest[0]) }

  lemma NameToken(name: string, rest: string)
    requires ValidName(name) && EndsName(rest) && Tokens(rest).Some?
    ensures Tokens(name + rest) == Some([Name(name)] + Tokens(rest).value)
  {
    var text := name + rest;
    NameRunIsName(name, rest);
    assert text[..|name|] == name && text[|name|..] == rest && text[0] == name[0];
    var c := text[0];
    assert StartsName(c) && !IsSpace(c);
    assert |text| >= 2 ==> text[..2][0] == c;
  }

  lemma NextIsOneCharacter(text: string, token: Token)
    requires text != ""
    requires (text[0] == '!' && token == Bang) || (text[0] == '(' && token == Open) || (text[0] == ')' && token == Close)
    ensures NextToken(text) == Some((token, 1)) && !IsSpace(text[0])
  {
    assert |text| >= 2 ==> text[..2][0] == text[0];
  }

  lemma OneToken(c: char, token: Token, rest: string)
    requires (c == '!' && token == Bang) || (c == '(' && token == Open) || (c == ')' && token == Close)
    requires Tokens(rest).Some?
    ensures Tokens([c] + rest) == Some([token] + Tokens(rest).value)
  {
    NextIsOneCharacter([c] + rest, token);
    assert ([c] + rest)[1..] == rest;
  }

  lemma SpaceToken(rest: string)
    ensures Tokens(" " + rest) == Tokens(rest)
  {
    assert (" " + rest)[1..] == rest;
  }

  lemma BareOperatorToken(operator: string, token: Token, rest: string)
    requires (operator == "&&" && token == Ampersands) || (operator == "||" && token == Bars)
    requires Tokens(rest).Some?
    ensures Tokens(operator + rest) == Some([token] + Tokens(rest).value)
  {
    var text := operator + rest;
    assert text[..2] == operator && text[2..] == rest && text[0] == operator[0];
  }

  lemma OperatorToken(operator: string, token: Token, rest: string)
    requires (operator == "&&" && token == Ampersands) || (operator == "||" && token == Bars)
    requires Tokens(rest).Some?
    ensures Tokens(" " + (operator + (" " + rest))) == Some([token] + Tokens(rest).value)
  {
    SpaceToken(rest);
    BareOperatorToken(operator, token, " " + rest);
    SpaceToken(operator + (" " + rest));
  }

  lemma PrintedOperator(node: When, rest: string)
    requires Binary(node)
    ensures Operator(node) + rest == " " + ((if node.And? then "&&" else "||") + (" " + rest))
  {
  }

  lemma NotText(tail: string)
    ensures "!(" + tail == ['!'] + (['('] + tail)
  {
  }

  lemma PrintedNot(tail: string, tokens: seq<Token>)
    requires Tokens(tail) == Some(tokens)
    ensures Tokens("!(" + tail) == Some([Bang] + ([Open] + tokens))
  {
    NotText(tail);
    OneToken('(', Open, tail);
    OneToken('!', Bang, ['('] + tail);
  }

  lemma PrintedRight(node: When, rest: string, tokens: seq<Token>)
    requires Binary(node) && Tokens(Encode(node.right) + rest) == Some(tokens)
    ensures Tokens(Operator(node) + (Encode(node.right) + rest)) == Some([if node.And? then Ampersands else Bars] + tokens)
  {
    var after := Encode(node.right) + rest;
    PrintedOperator(node, after);
    OperatorToken(if node.And? then "&&" else "||", if node.And? then Ampersands else Bars, after);
  }

  /** The tokenizer finds the printer's tokens, and nothing runs into what follows. */
  lemma {:induction false} PrintedTokens(node: When, rest: string)
    requires ValidNames(node) && EndsName(rest) && Tokens(rest).Some?
    ensures Tokens(Encode(node) + rest) == Some(Emit(node, Tokens(rest).value))
    decreases node
  {
    var after := Tokens(rest).value;
    if node.Identifier? {
      NameToken(node.name, rest);
    } else {
      OneToken(')', Close, rest);
      if node.Not? {
        PrintedTokens(node.node, ")" + rest);
        PrintedNot(Encode(node.node) + (")" + rest), Emit(node.node, [Close] + after));
        EncodeNot(node, rest);
      } else {
        PrintedTokens(node.right, ")" + rest);
        PrintedRight(node, ")" + rest, Emit(node.right, [Close] + after));
        var tail := Operator(node) + (Encode(node.right) + (")" + rest));
        PrintedTokens(node.left, tail);
        OneToken('(', Open, Encode(node.left) + tail);
        EncodeBinary(node, rest);
      }
    }
  }

  // The grammar, one step at a time.

  lemma Cons(token: Token, rest: seq<Token>)
    ensures ([token] + rest)[0] == token && ([token] + rest)[1..] == rest
  {
  }

  lemma ConjunctionStops(tokens: seq<Token>, depth: nat)
    requires var left := Unary(tokens, depth, 0); left.None? || left.value.1 == [] || left.value.1[0] != Ampersands
    ensures Conjunction(tokens, depth) == Unary(tokens, depth, 0)
  {
  }

  lemma DisjunctionStops(tokens: seq<Token>, depth: nat)
    requires var left := Conjunction(tokens, depth); left.None? || left.value.1 == [] || left.value.1[0] != Bars
    ensures Disjunction(tokens, depth) == Conjunction(tokens, depth)
  {
  }

  /** A result that is there only if the parentheses fit. */
  function IfFits(fits: bool, node: When, rest: seq<Token>): Parsed {
    if fits then Some((node, rest)) else None
  }

  lemma Parenthesized(inside: seq<Token>, node: When, rest: seq<Token>, depth: nat, deepest: nat)
    requires Disjunction(inside, depth + 1) == IfFits(deepest <= MAX_WHEN_EXPRESSION_DEPTH, node, [Close] + rest)
    requires deepest > depth
    ensures Primary([Open] + inside, depth) == IfFits(deepest <= MAX_WHEN_EXPRESSION_DEPTH, node, rest)
    ensures Unary([Open] + inside, depth, 0) == IfFits(deepest <= MAX_WHEN_EXPRESSION_DEPTH, node, rest)
    ensures Unary([Open] + inside, depth, 1) == IfFits(deepest <= MAX_WHEN_EXPRESSION_DEPTH, Not(node), rest)
  {
    Cons(Open, inside);
    Cons(Close, rest);
    assert Negated(1, node) == Not(node);
  }

  lemma NegatedOnce(tokens: seq<Token>, depth: nat)
    ensures Unary([Bang] + tokens, depth, 0) == Unary(tokens, depth, 1)
  {
    Cons(Bang, tokens);
  }

  lemma ConjunctionOfTwo(left: When, right: When, inside: seq<Token>, after: seq<Token>, rest: seq<Token>, depth: nat, leftFits: bool, rightFits: bool)
    requires Unary(inside, depth, 0) == IfFits(leftFits, left, [Ampersands] + after)
    requires Unary(after, depth, 0) == IfFits(rightFits, right, [Close] + rest)
    ensures Disjunction(inside, depth) == IfFits(leftFits && rightFits, And(left, right), [Close] + rest)
  {
    Cons(Ampersands, after);
    Cons(Close, rest);
    assert MoreConjuncts(And(left, right), [Close] + rest, depth) == Some((And(left, right), [Close] + rest));
    assert leftFits ==> Conjunction(inside, depth) == MoreConjuncts(left, [Ampersands] + after, depth);
    assert Conjunction(inside, depth) == IfFits(leftFits && rightFits, And(left, right), [Close] + rest);
    DisjunctionStops(inside, depth);
  }

  lemma DisjunctionOfTwo(left: When, right: When, inside: seq<Token>, after: seq<Token>, rest: seq<Token>, depth: nat, leftFits: bool, rightFits: bool)
    requires Unary(inside, depth, 0) == IfFits(leftFits, left, [Bars] + after)
    requires Unary(after, depth, 0) == IfFits(rightFits, right, [Close] + rest)
    ensures Disjunction(inside, depth) == IfFits(leftFits && rightFits, Or(left, right), [Close] + rest)
  {
    Cons(Bars, after);
    Cons(Close, rest);
    ConjunctionStops(inside, depth);
    ConjunctionStops(after, depth);
    assert MoreDisjuncts(Or(left, right), [Close] + rest, depth) == Some((Or(left, right), [Close] + rest));
    assert leftFits ==> Disjunction(inside, depth) == MoreDisjuncts(left, [Bars] + after, depth);
  }

  predicate Fits(node: When, depth: nat) {
    depth + Depth(node) <= MAX_WHEN_EXPRESSION_DEPTH
  }

  /** Reading an expression's tokens gives it back when the parentheses fit, and fails when not. */
  lemma {:induction false} UnaryReads(node: When, rest: seq<Token>, depth: nat)
    ensures Unary(Emit(node, rest), depth, 0) == IfFits(Fits(node, depth), node, rest)
    decreases node
  {
    match node
    case Identifier(name) =>
      Cons(Name(name), rest);
    case Not(inner) =>
      var inside := Emit(inner, [Close] + rest);
      UnaryReads(inner, [Close] + rest, depth + 1);
      ConjunctionStops(inside, depth + 1);
      DisjunctionStops(inside, depth + 1);
      Parenthesized(inside, inner, rest, depth, depth + Depth(node));
      NegatedOnce([Open] + inside, depth);
    case And(left, right) =>
      var after := Emit(right, [Close] + rest);
      var inside := Emit(left, [Ampersands] + after);
      UnaryReads(left, [Ampersands] + after, depth + 1);
      UnaryReads(right, [Close] + rest, depth + 1);
      ConjunctionOfTwo(left, right, inside, after, rest, depth + 1, Fits(left, depth + 1), Fits(right, depth + 1));
      Parenthesized(inside, node, rest, depth, depth + Depth(node));
    case Or(left, right) =>
      var after := Emit(right, [Close] + rest);
      var inside := Emit(left, [Bars] + after);
      UnaryReads(left, [Bars] + after, depth + 1);
      UnaryReads(right, [Close] + rest, depth + 1);
      DisjunctionOfTwo(left, right, inside, after, rest, depth + 1, Fits(left, depth + 1), Fits(right, depth + 1));
      Parenthesized(inside, node, rest, depth, depth + Depth(node));
  }

  lemma EmitsSomething(node: When, rest: seq<Token>)
    ensures Emit(node, rest) != []
  {
  }

  /** Parsing a printed expression with valid names: it comes back exactly when its parentheses nest no
      deeper than the parser follows. */
  lemma ParsesIfShallow(node: When)
    requires ValidNames(node)
    ensures Parse(Encode(node)) == if Depth(node) <= MAX_WHEN_EXPRESSION_DEPTH then Some(node) else None
  {
    assert Encode(node) + "" == Encode(node);
    PrintedTokens(node, "");
    EmitsSomething(node, []);
    UnaryReads(node, [], 0);
    ConjunctionStops(Emit(node, []), 0);
    DisjunctionStops(Emit(node, []), 0);
  }

  // The parser never makes up a name.

  predicate NamesAreValid(tokens: seq<Token>) {
    forall token <- tokens :: token.Name? ==> ValidName(token.value)
  }

  lemma {:induction false} NameRunContinues(text: string)
    ensures forall c <- text[..NameRun(text)] :: ContinuesName(c)
  {
    if text != "" && ContinuesName(text[0]) {
      NameRunContinues(text[1..]);
      assert text[..NameRun(text)] == [text[0]] + text[1..][..NameRun(text[1..])];
    }
  }

  lemma {:induction false} TokensAreValid(text: string)
    ensures Tokens(text).Some? ==> NamesAreValid(Tokens(text).value)
    decreases |text|
  {
    if text == "" {
    } else if IsSpace(text[0]) {
      TokensAreValid(text[1..]);
    } else if StartsWith(text, "&&") || StartsWith(text, "||") {
      TokensAreValid(text[2..]);
    } else if text[0] in "!()" {
      TokensAreValid(text[1..]);
    } else if StartsName(text[0]) {
      NameRunContinues(text);
      TokensAreValid(text[NameRun(text)..]);
    }
  }

  predicate ParsedIsValid(parsed: Parsed) {
    parsed.Some? ==> ValidNames(parsed.value.0) && NamesAreValid(parsed.value.1)
  }

  lemma {:induction false} NegatedNames(count: nat, node: When)
    ensures ValidNames(Negated(count, node)) == ValidNames(node)
  {
    if count > 0 {
      NegatedNames(count - 1, Not(node));
    }
  }

  lemma {:induction false} PrimaryIsValid(tokens: seq<Token>, depth: nat)
    requires NamesAreValid(tokens)
    ensures ParsedIsValid(Primary(tokens, depth))
    decreases |tokens|, 0
  {
    if tokens != [] && tokens[0] == Open {
      DisjunctionIsValid(tokens[1..], depth + 1);
    }
  }

  lemma {:induction false} UnaryIsValid(tokens: seq<Token>, depth: nat, nots: nat)
    requires NamesAreValid(tokens)
    ensures ParsedIsValid(Unary(tokens, depth, nots))
    decreases |tokens|, 1
  {
    if tokens != [] && tokens[0] == Bang {
      UnaryIsValid(tokens[1..], depth, nots + 1);
    } else {
      PrimaryIsValid(tokens, depth);
      if Primary(tokens, depth).Some? {
        NegatedNames(nots, Primary(tokens, depth).value.0);
      }
    }
  }

  lemma {:induction false} MoreConjunctsAreValid(left: When, tokens: seq<Token>, depth: nat)
    requires ValidNames(left) && NamesAreValid(tokens)
    ensures ParsedIsValid(MoreConjuncts(left, tokens, depth))
    decreases |tokens|, 0
  {
    if tokens != [] && tokens[0] == Ampersands {
      UnaryIsValid(tokens[1..], depth, 0);
      var right := Unary(tokens[1..], depth, 0);
      if right.Some? {
        MoreConjunctsAreValid(And(left, right.value.0), right.value.1, depth);
      }
    }
  }

  lemma {:induction false} ConjunctionIsValid(tokens: seq<Token>, depth: nat)
    requires NamesAreValid(tokens)
    ensures ParsedIsValid(Conjunction(tokens, depth))
    decreases |tokens|, 2
  {
    UnaryIsValid(tokens, depth, 0);
    var left := Unary(tokens, depth, 0);
    if left.Some? {
      MoreConjunctsAreValid(left.value.0, left.value.1, depth);
    }
  }

  lemma {:induction false} MoreDisjunctsAreValid(left: When, tokens: seq<Token>, depth: nat)
    requires ValidNames(left) && NamesAreValid(tokens)
    ensures ParsedIsValid(MoreDisjuncts(left, tokens, depth))
    decreases |tokens|, 0
  {
    if tokens != [] && tokens[0] == Bars {
      ConjunctionIsValid(tokens[1..], depth);
      var right := Conjunction(tokens[1..], depth);
      if right.Some? {
        MoreDisjunctsAreValid(Or(left, right.value.0), right.value.1, depth);
      }
    }
  }

  lemma {:induction false} DisjunctionIsValid(tokens: seq<Token>, depth: nat)
    requires NamesAreValid(tokens)
    ensures ParsedIsValid(Disjunction(tokens, depth))
    decreases |tokens|, 3
  {
    ConjunctionIsValid(tokens, depth);
    var left := Conjunction(tokens, depth);
    if left.Some? {
      MoreDisjunctsAreValid(left.value.0, left.value.1, depth);
    }
  }

  /** A printed expression parses back to itself exactly when its names are names and its parentheses
      nest no deeper than the parser follows. */
  lemma ReadsBackExactly(node: When)
    ensures Parse(Encode(node)) == Some(node) <==> ValidNames(node) && Depth(node) <= MAX_WHEN_EXPRESSION_DEPTH
  {
    if ValidNames(node) {
      ParsesIfShallow(node);
    } else {
      var tokens := Tokens(Encode(node));
      TokensAreValid(Encode(node));
      if tokens.Some? {
        DisjunctionIsValid(tokens.value, 0);
      }
    }
  }

  // ----- Stored rules -----

  function TrimStart(text: string): string {
    if text != "" && IsSpace(text[0]) then TrimStart(text[1..]) else text
  }

  function TrimEnd(text: string): string {
    if text != "" && IsSpace(text[|text| - 1]) then TrimEnd(text[..|text| - 1]) else text
  }

  /** The expression of a rule that holds this text: it is trimmed, and refused if it is then empty or
      too long. */
  function StoredWhen(text: string): Option<When> {
    var trimmed := TrimEnd(TrimStart(text));
    if 1 <= |trimmed| <= MAX_KEYBINDING_WHEN_LENGTH then Parse(trimmed) else None
  }

  /** Printed expressions have nothing to trim. */
  lemma PrintedIsTrimmed(node: When)
    requires ValidNames(node)
    ensures Encode(node) != "" && TrimEnd(TrimStart(Encode(node))) == Encode(node)
  {
    EncodedEnds(node);
    var text := Encode(node);
    IsNoSpace(text[0]);
    IsNoSpace(text[|text| - 1]);
    NothingToTrim(text);
  }

  lemma NothingToTrim(text: string)
    requires text != "" && !IsSpace(text[0]) && !IsSpace(text[|text| - 1])
    ensures TrimEnd(TrimStart(text)) == text
  {
  }

  lemma EncodedEnds(node: When)
    requires ValidNames(node)
    ensures var text := Encode(node);
      && text != "" && (text[0] == '!' || text[0] == '(' || ContinuesName(text[0]))
      && (text[|text| - 1] == ')' || ContinuesName(text[|text| - 1]))
  {
    match node
    case Identifier(name) => assert ContinuesName(name[|name| - 1]);
    case Not(inner) => Enclosed("!(", Encode(inner), ")");
    case And(left, right) => Enclosed("(", Encode(left) + " && " + Encode(right), ")");
    case Or(left, right) => Enclosed("(", Encode(left) + " || " + Encode(right), ")");
  }

  lemma Enclosed(start: string, inside: string, end: string)
    requires start != "" && end != ""
    ensures (start + inside + end)[0] == start[0] && (start + inside + end)[|start| + |inside| + |end| - 1] == end[|end| - 1]
  {
  }

  lemma IsNoSpace(c: char)
    requires c == '!' || c == '(' || c == ')' || ContinuesName(c)
    ensures !IsSpace(c)
  {
  }

  lemma ParsedNamesAreValid(text: string)
    ensures Parse(text).Some? ==> ValidNames(Parse(text).value)
  {
    TokensAreValid(text);
    if Tokens(text).Some? {
      DisjunctionIsValid(Tokens(text).value, 0);
    }
  }

  /** A printed expression can be stored in a rule and read back from it exactly when its names are
      names, its parentheses nest no deeper than the parser follows, and its text is not too long. */
  lemma StoredReadsBackExactly(node: When)
    ensures StoredWhen(Encode(node)) == Some(node) <==>
      ValidNames(node) && Depth(node) <= MAX_WHEN_EXPRESSION_DEPTH && |Encode(node)| <= MAX_KEYBINDING_WHEN_LENGTH
  {
    if ValidNames(node) {
      PrintedIsTrimmed(node);
      ParsesIfShallow(node);
    } else {
      ParsedNamesAreValid(TrimEnd(TrimStart(Encode(node))));
    }
  }

  // ----- An expression that parses but does not survive printing -----

  /** `a&&a&&...&&a` with `n` operators, and what it means. */
  function Chain(n: nat): string {
    if n == 0 then "a" else Chain(n - 1) + "&&a"
  }

  function ChainNode(n: nat): When {
    if n == 0 then Identifier("a") else And(ChainNode(n - 1), Identifier("a"))
  }

  function ChainTokens(n: nat, rest: seq<Token>): seq<Token> {
    if n == 0 then [Name("a")] + rest else ChainTokens(n - 1, [Ampersands] + ([Name("a")] + rest))
  }

  lemma ChainTail(rest: string, tokens: seq<Token>)
    requires EndsName(rest) && Tokens(rest) == Some(tokens)
    ensures EndsName("&&" + ("a" + rest))
    ensures Tokens("&&" + ("a" + rest)) == Some([Ampersands] + ([Name("a")] + tokens))
  {
    NameToken("a", rest);
    BareOperatorToken("&&", Ampersands, "a" + rest);
    assert ("&&" + ("a" + rest))[0] == '&';
  }

  lemma ChainSplits(n: nat, rest: string)
    ensures Chain(n + 1) + rest == Chain(n) + ("&&" + ("a" + rest))
  {
    assert "&&a" + rest == "&&" + ("a" + rest);
    assert Chain(n + 1) + rest == Chain(n) + ("&&a" + rest);
  }

  lemma ChainStep(n: nat, rest: string, tokens: seq<Token>) returns (tail: string)
    requires EndsName(rest) && Tokens(rest) == Some(tokens)
    ensures EndsName(tail) && Tokens(tail) == Some([Ampersands] + ([Name("a")] + tokens))
    ensures Chain(n + 1) + rest == Chain(n) + tail
  {
    tail := "&&" + ("a" + rest);
    ChainTail(rest, tokens);
    ChainSplits(n, rest);
  }

  lemma ChainBase(rest: string, tokens: seq<Token>)
    requires EndsName(rest) && Tokens(rest) == Some(tokens)
    ensures Tokens(Chain(0) + rest) == Some(ChainTokens(0, tokens))
  {
    NameToken("a", rest);
  }

  lemma {:induction false} ChainIsTokenized(n: nat, rest: string, tokens: seq<Token>)
    requires EndsName(rest) && Tokens(rest) == Some(tokens)
    ensures Tokens(Chain(n) + rest) == Some(ChainTokens(n, tokens))
  {
    if n == 0 {
      ChainBase(rest, tokens);
    } else {
      var tail := ChainStep(n - 1, rest, tokens);
      ChainIsTokenized(n - 1, tail, [Ampersands] + ([Name("a")] + tokens));
    }
  }

  lemma {:induction false} ChainIsConjunction(n: nat, rest: seq<Token>)
    ensures Conjunction(ChainTokens(n, rest), 0) == MoreConjuncts(ChainNode(n), rest, 0)
  {
    var last := [Name("a")] + rest;
    Cons(Name("a"), rest);
    assert Unary(last, 0, 0) == Some((Identifier("a"), rest));
    if n > 0 {
      ChainIsConjunction(n - 1, [Ampersands] + last);
      Cons(Ampersands, last);
    }
  }

  lemma {:induction false} ChainDepth(n: nat)
    ensures Depth(ChainNode(n)) == n && ValidNames(ChainNode(n)) && |Encode(ChainNode(n))| == 7 * n + 1
  {
    if n > 0 {
      ChainDepth(n - 1);
    }
  }

  lemma {:induction false} ChainEnds(n: nat)
    ensures |Chain(n)| == 3 * n + 1 && Chain(n)[0] == 'a' && Chain(n)[3 * n] == 'a'
  {
    if n > 0 {
      ChainEnds(n - 1);
    }
  }

  /** A flat chain of any length parses, but the parser leans it to the left and the printer then nests
      one parenthesis per operator: past 64 operators the printed text does not parse. */
  lemma LongChainsAreLost(n: nat)
    ensures Parse(Chain(n)) == Some(ChainNode(n))
    ensures Parse(Encode(ChainNode(n))) == if n <= MAX_WHEN_EXPRESSION_DEPTH then Some(ChainNode(n)) else None
  {
    assert Chain(n) + "" == Chain(n);
    ChainIsTokenized(n, "", []);
    ChainIsConjunction(n, []);
    DisjunctionStops(ChainTokens(n, []), 0);
    ChainDepth(n);
    ParsesIfShallow(ChainNode(n));
  }

  /** A rule can hold a chain of up to 85 operators, but its printed form fits a rule only up to 36. */
  lemma StoredChainsAreLost(n: nat)
    ensures StoredWhen(Chain(n)) == if n <= 85 then Some(ChainNode(n)) else None
    ensures StoredWhen(Encode(ChainNode(n))) == if n <= 36 then Some(ChainNode(n)) else None
  {
    ChainEnds(n);
    NothingToTrim(Chain(n));
    LongChainsAreLost(n);
    ChainDepth(n);
    PrintedIsTrimmed(ChainNode(n));
  }

  /** The depth limit binds within the length limit too: negations cost three characters each. */
  lemma {:induction false} DeepNegationsAreLost(n: nat)
    ensures var node := Negated(n, Identifier("a"));
      && |Encode(node)| == 3 * n + 1
      && StoredWhen(Encode(node)) == if n <= MAX_WHEN_EXPRESSION_DEPTH then Some(node) else None
  {
    NegatedShape(n, Identifier("a"));
    var node := Negated(n, Identifier("a"));
    PrintedIsTrimmed(node);
    ParsesIfShallow(node);
  }

  lemma {:induction false} NegatedShape(n: nat, node: When)
    requires ValidNames(node)
    ensures var negated := Negated(n, node);
      ValidNames(negated) && Depth(negated) == n + Depth(node) && |Encode(negated)| == 3 * n + |Encode(node)|
  {
    if n > 0 {
      NegatedShape(n - 1, Not(node));
    }
  }
}
