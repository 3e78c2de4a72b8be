/** The language of `when` expressions, given by a grammar of its own: a text parses exactly if it is laid out
    as the tokens of a derivation within the parser's limits, and means what the derivation means. */
module WhenGrammar {
  import opened Prelude
  import opened WhenExpressions

  // ----- Derivations -----

  /** `Choice = Joint | Choice "||" Joint`: both operators lean to the left, and conjunctions bind tighter. */
  datatype Choice = OneJoint(joint: Joint) | OrElse(front: Choice, joint: Joint)

  datatype Joint = OneFactor(factor: Factor) | AndAlso(front: Joint, factor: Factor)

  /** Any number of negations of an atom. */
  datatype Factor = Factor(nots: nat, atom: Atom)

  datatype Atom = Named(name: string) | Grouped(choice: Choice)

  function Bangs(nots: nat): seq<Token> {
    if nots == 0 then [] else [Bang] + Bangs(nots - 1)
  }

  function ChoiceTokens(choice: Choice): seq<Token> {
    match choice
    case OneJoint(joint) => JointTokens(joint)
    case OrElse(front, joint) => ChoiceTokens(front) + ([Bars] + JointTokens(joint))
  }

  function JointTokens(joint: Joint): seq<Token> {
    match joint
    case OneFactor(factor) => FactorTokens(factor)
    case AndAlso(front, factor) => JointTokens(front) + ([Ampersands] + FactorTokens(factor))
  }

  function FactorTokens(factor: Factor): seq<Token> {
    Bangs(factor.nots) + AtomTokens(factor.atom)
  }

  function AtomTokens(atom: Atom): seq<Token> {
    match atom
    case Named(name) => [Name(name)]
    case Grouped(choice) => [Open] + (ChoiceTokens(choice) + [Close])
  }

  function ChoiceNode(choice: Choice): When {
    match choice
    case OneJoint(joint) => JointNode(joint)
    case OrElse(front, joint) => Or(ChoiceNode(front), JointNode(joint))
  }

  function JointNode(joint: Joint): When {
    match joint
    case OneFactor(factor) => FactorNode(factor)
    case AndAlso(front, factor) => And(JointNode(front), FactorNode(factor))
  }

  function FactorNode(factor: Factor): When {
    Negated(factor.nots, AtomNode(factor.atom))
  }

  function AtomNode(atom: Atom): When {
    match atom
    case Named(name) => Identifier(name)
    case Grouped(choice) => ChoiceNode(choice)
  }

  /** At most 64 parentheses around anything, and at most 64 negations in a row. */
  predicate ChoiceFits(choice: Choice, depth: nat) {
    match choice
    case OneJoint(joint) => JointFits(joint, depth)
    case OrElse(front, joint) => ChoiceFits(front, depth) && JointFits(joint, depth)
  }

  predicate JointFits(joint: Joint, depth: nat) {
    match joint
    case OneFactor(factor) => FactorFits(factor, depth)
    case AndAlso(front, factor) => JointFits(front, depth) && FactorFits(factor, depth)
  }

  predicate FactorFits(factor: Factor, depth: nat) {
    factor.nots <= 64 && AtomFits(factor.atom, depth)
  }

  predicate AtomFits(atom: Atom, depth: nat) {
    depth <= 64 && (atom.Grouped? ==> ChoiceFits(atom.choice, depth + 1))
  }

  // ----- The parser reads every derivation -----

  lemma Reassociate(a: seq<Token>, b: seq<Token>, c: seq<Token>)
    ensures a + b + c == a + (b + c)
  {
  }

  lemma {:induction false} AtomReads(atom: Atom, rest: seq<Token>, depth: nat)
    ensures Primary(AtomTokens(atom) + rest, depth) == IfFits(AtomFits(atom, depth), AtomNode(atom), rest)
    decreases atom, 0
  {
    if atom.Grouped? {
      var inside := ChoiceTokens(atom.choice) + ([Close] + rest);
      Reassociate([Open], ChoiceTokens(atom.choice) + [Close], rest);
      Reassociate(ChoiceTokens(atom.choice), [Close], rest);
      Cons(Open, inside);
      Cons(Close, rest);
      ChoiceReads(atom.choice, [Close] + rest, depth + 1);
    } else {
      Cons(Name(atom.name), rest);
    }
  }

  lemma {:induction false} NegationsRead(nots: nat, rest: seq<Token>, depth: nat, before: nat)
    requires rest != [] && rest[0] != Bang && before <= 64
    ensures Unary(Bangs(nots) + rest, depth, before) == if before + nots <= 64 then Unary(rest, depth, before + nots) else None
  {
    if nots == 0 {
      assert Bangs(0) + rest == rest;
    } else {
      Reassociate([Bang], Bangs(nots - 1), rest);
      Cons(Bang, Bangs(nots - 1) + rest);
      if before < 64 {
        NegationsRead(nots - 1, rest, depth, before + 1);
      }
    }
  }

  lemma {:induction false} FactorReads(factor: Factor, rest: seq<Token>, depth: nat)
    ensures Unary(FactorTokens(factor) + rest, depth, 0) == IfFits(FactorFits(factor, depth), FactorNode(factor), rest)
    decreases factor, 1
  {
    Reassociate(Bangs(factor.nots), AtomTokens(factor.atom), rest);
    NegationsRead(factor.nots, AtomTokens(factor.atom) + rest, depth, 0);
    AtomReads(factor.atom, rest, depth);
  }

  lemma {:induction false} JointReads(joint: Joint, rest: seq<Token>, depth: nat)
    ensures Conjunction(JointTokens(joint) + rest, depth)
         == if JointFits(joint, depth) then MoreConjuncts(JointNode(joint), rest, depth) else None
    decreases joint, 2
  {
    match joint
    case OneFactor(factor) => FactorReads(factor, rest, depth);
    case AndAlso(front, factor) =>
      var after := FactorTokens(factor) + rest;
      Reassociate(JointTokens(front), [Ampersands] + FactorTokens(factor), rest);
      Reassociate([Ampersands], FactorTokens(factor), rest);
      JointReads(front, [Ampersands] + after, depth);
      Cons(Ampersands, after);
      FactorReads(factor, rest, depth);
  }

  lemma {:induction false} ChoiceReads(choice: Choice, rest: seq<Token>, depth: nat)
    requires rest == [] || rest[0] != Ampersands
    ensures Disjunction(ChoiceTokens(choice) + rest, depth)
         == if ChoiceFits(choice, depth) then MoreDisjuncts(ChoiceNode(choice), rest, depth) else None
    decreases choice, 3
  {
    match choice
    case OneJoint(joint) => JointReads(joint, rest, depth);
    case OrElse(front, joint) =>
      var after := JointTokens(joint) + rest;
      Reassociate(ChoiceTokens(front), [Bars] + JointTokens(joint), rest);
      Reassociate([Bars], JointTokens(joint), rest);
      ChoiceReads(front, [Bars] + after, depth);
      Cons(Bars, after);
      JointReads(joint, rest, depth);
  }

  // ----- What the parser reads has a derivation -----

  lemma {:induction false} PrimaryDerived(tokens: seq<Token>, depth: nat) returns (atom: Atom)
    requires Primary(tokens, depth).Some?
    ensures AtomFits(atom, depth) && AtomNode(atom) == Primary(tokens, depth).value.0
    ensures tokens == AtomTokens(atom) + Primary(tokens, depth).value.1
    decreases |tokens|, 0
  {
    match tokens[0] {
      case Name(name) => atom := Named(name);
      case Open =>
        var choice := DisjunctionDerived(tokens[1..], depth + 1);
        atom := Grouped(choice);
      case _ => assert false;
    }
  }

  lemma {:induction false} UnaryDerived(tokens: seq<Token>, depth: nat, nots: nat) returns (more: nat, atom: Atom)
    requires Unary(tokens, depth, nots).Some? && nots <= 64
    ensures nots + more <= 64 && AtomFits(atom, depth) && Negated(nots + more, AtomNode(atom)) == Unary(tokens, depth, nots).value.0
    ensures tokens == Bangs(more) + (AtomTokens(atom) + Unary(tokens, depth, nots).value.1)
    decreases |tokens|, 1
  {
    if tokens != [] && tokens[0] == Bang {
      more, atom := UnaryDerived(tokens[1..], depth, nots + 1);
      more := more + 1;
      Reassociate([Bang], Bangs(more - 1), AtomTokens(atom) + Unary(tokens, depth, nots).value.1);
      assert tokens == [Bang] + tokens[1..];
    } else {
      more := 0;
      atom := PrimaryDerived(tokens, depth);
      assert Bangs(0) + tokens == tokens;
    }
  }

  lemma {:induction false} FactorDerived(tokens: seq<Token>, depth: nat) returns (factor: Factor)
    requires Unary(tokens, depth, 0).Some?
    ensures FactorFits(factor, depth) && FactorNode(factor) == Unary(tokens, depth, 0).value.0
    ensures tokens == FactorTokens(factor) + Unary(tokens, depth, 0).value.1
    decreases |tokens|, 2
  {
    var nots, atom := UnaryDerived(tokens, depth, 0);
    factor := Factor(nots, atom);
    Reassociate(Bangs(nots), AtomTokens(atom), Unary(tokens, depth, 0).value.1);
  }

  lemma {:induction false} MoreConjunctsDerived(left: Joint, tokens: seq<Token>, depth: nat) returns (joint: Joint)
    requires JointFits(left, depth) && MoreConjuncts(JointNode(left), tokens, depth).Some?
    ensures JointFits(joint, depth) && JointNode(joint) == MoreConjuncts(JointNode(left), tokens, depth).value.0
    ensures JointTokens(left) + tokens == JointTokens(joint) + MoreConjuncts(JointNode(left), tokens, depth).value.1
    decreases |tokens|, 0
  {
    joint := left;
    if tokens != [] && tokens[0] == Ampersands {
      var factor := FactorDerived(tokens[1..], depth);
      var rest := Unary(tokens[1..], depth, 0).value.1;
      joint := MoreConjunctsDerived(AndAlso(left, factor), rest, depth);
      assert tokens == [Ampersands] + tokens[1..];
      Reassociate([Ampersands], FactorTokens(factor), rest);
      Reassociate(JointTokens(left), [Ampersands] + FactorTokens(factor), rest);
    }
  }

  lemma {:induction false} ConjunctionDerived(tokens: seq<Token>, depth: nat) returns (joint: Joint)
    requires Conjunction(tokens, depth).Some?
    ensures JointFits(joint, depth) && JointNode(joint) == Conjunction(tokens, depth).value.0
    ensures tokens == JointTokens(joint) + Conjunction(tokens, depth).value.1
    decreases |tokens|, 3
  {
    var factor := FactorDerived(tokens, depth);
    joint := MoreConjunctsDerived(OneFactor(factor), Unary(tokens, depth, 0).value.1, depth);
  }

  lemma {:induction false} MoreDisjunctsDerived(left: Choice, tokens: seq<Token>, depth: nat) returns (choice: Choice)
    requires ChoiceFits(left, depth) && MoreDisjuncts(ChoiceNode(left), tokens, depth).Some?
    ensures ChoiceFits(choice, depth) && ChoiceNode(choice) == MoreDisjuncts(ChoiceNode(left), tokens, depth).value.0
    ensures ChoiceTokens(left) + tokens == ChoiceTokens(choice) + MoreDisjuncts(ChoiceNode(left), tokens, depth).value.1
    decreases |tokens|, 0
  {
    choice := left;
    if tokens != [] && tokens[0] == Bars {
      var joint := ConjunctionDerived(tokens[1..], depth);
      var rest := Conjunction(tokens[1..], depth).value.1;
      choice := MoreDisjunctsDerived(OrElse(left, joint), rest, depth);
      assert tokens == [Bars] + tokens[1..];
      Reassociate([Bars], JointTokens(joint), rest);
      Reassociate(ChoiceTokens(left), [Bars] + JointTokens(joint), rest);
    }
  }

  lemma {:induction false} DisjunctionDerived(tokens: seq<Token>, depth: nat) returns (choice: Choice)
    requires Disjunction(tokens, depth).Some?
    ensures ChoiceFits(choice, depth) && ChoiceNode(choice) == Disjunction(tokens, depth).value.0
    ensures tokens == ChoiceTokens(choice) + Disjunction(tokens, depth).value.1
    decreases |tokens|, 4
  {
    var joint := ConjunctionDerived(tokens, depth);
    choice := MoreDisjunctsDerived(OneJoint(joint), Conjunction(tokens, depth).value.1, depth);
  }

  ghost predicate Derives(tokens: seq<Token>, node: When) {
    exists choice :: ChoiceTokens(choice) == tokens && ChoiceNode(choice) == node && ChoiceFits(choice, 0)
  }

  /** The parser is the grammar: it reads a whole list of tokens as an expression exactly if the tokens have a
      derivation within the limits that means this expression. */
  lemma ParsesDerivationsExactly(tokens: seq<Token>, node: When)
    ensures Disjunction(tokens, 0) == Some((node, [])) <==> Derives(tokens, node)
  {
    if Disjunction(tokens, 0) == Some((node, [])) {
      var choice := DisjunctionDerived(tokens, 0);
      assert ChoiceTokens(choice) + [] == ChoiceTokens(choice);
    }
    if Derives(tokens, node) {
      var choice :| ChoiceTokens(choice) == tokens && ChoiceNode(choice) == node && ChoiceFits(choice, 0);
      ChoiceReads(choice, [], 0);
      assert tokens + [] == tokens;
    }
  }

  /** So a list of tokens has at most one meaning. */
  lemma MeaningIsUnique(tokens: seq<Token>, a: When, b: When)
    requires Derives(tokens, a) && Derives(tokens, b)
    ensures a == b
  {
    ParsesDerivationsExactly(tokens, a);
    ParsesDerivationsExactly(tokens, b);
  }

  // ----- Layout -----

  /** A token and the white space before it. */
  datatype Piece = Piece(gap: string, token: Token)

  function TokenText(token: Token): string {
    match token
    case Name(value) => value
    case Bang => "!"
    case Ampersands => "&&"
    case Bars => "||"
    case Open => "("
    case Close => ")"
  }

  function LayoutText(pieces: seq<Piece>, tail: string): string {
    if pieces == [] then tail else pieces[0].gap + (TokenText(pieces[0].token) + LayoutText(pieces[1..], tail))
  }

  function PieceTokens(pieces: seq<Piece>): seq<Token> {
    if pieces == [] then [] else [pieces[0].token] + PieceTokens(pieces[1..])
  }

  predicate AllSpace(text: string) {
    forall c <- text :: IsSpace(c)
  }

  /** Gaps are white space, names are names, and two names in a row have white space between them. */
  predicate IsLayout(pieces: seq<Piece>, tail: string) {
    if pieces == [] then AllSpace(tail)
    else
      && AllSpace(pieces[0].gap) && (pieces[0].token.Name? ==> ValidName(pieces[0].token.value))
      && (pieces[0].token.Name? && |pieces| > 1 && pieces[1].token.Name? ==> pieces[1].gap != "")
      && IsLayout(pieces[1..], tail)
  }

  lemma {:induction false} SpacesSkipped(gap: string, rest: string)
    requires AllSpace(gap)
    ensures Tokens(gap + rest) == Tokens(rest)
  {
    if gap == "" {
      assert gap + rest == rest;
    } else {
      assert gap[0] in gap;
      assert (gap + rest)[1..] == gap[1..] + rest;
      assert forall c <- gap[1..] :: c in gap;
      SpacesSkipped(gap[1..], rest);
    }
  }

  /** A layout does not go on with a name, unless its first piece is one without a gap. */
  lemma LayoutEndsName(pieces: seq<Piece>, tail: string)
    requires IsLayout(pieces, tail) && (pieces != [] && pieces[0].token.Name? ==> pieces[0].gap != "")
    ensures EndsName(LayoutText(pieces, tail))
  {
    if pieces == [] {
      assert tail != "" ==> tail[0] in tail;
    } else if pieces[0].gap != "" {
      assert pieces[0].gap[0] in pieces[0].gap;
    }
  }

  lemma TokenReads(token: Token, rest: string)
    requires Tokens(rest).Some? && (token.Name? ==> ValidName(token.value) && EndsName(rest))
    ensures Tokens(TokenText(token) + rest) == Some([token] + Tokens(rest).value)
  {
    match token
    case Name(value) => NameToken(value, rest);
    case Bang => OneToken('!', Bang, rest);
    case Ampersands => BareOperatorToken("&&", Ampersands, rest);
    case Bars => BareOperatorToken("||", Bars, rest);
    case Open => OneToken('(', Open, rest);
    case Close => OneToken(')', Close, rest);
  }

  lemma {:induction false} LayoutReads(pieces: seq<Piece>, tail: string)
    requires IsLayout(pieces, tail)
    ensures Tokens(LayoutText(pieces, tail)) == Some(PieceTokens(pieces))
  {
    if pieces == [] {
      assert tail + "" == tail;
      SpacesSkipped(tail, "");
    } else {
      var rest := LayoutText(pieces[1..], tail);
      LayoutReads(pieces[1..], tail);
      if pieces[0].token.Name? {
        LayoutEndsName(pieces[1..], tail);
      }
      TokenReads(pieces[0].token, rest);
      SpacesSkipped(pieces[0].gap, TokenText(pieces[0].token) + rest);
    }
  }

  lemma {:induction false} NameRunStops(text: string)
    ensures EndsName(text[NameRun(text)..])
  {
    if text != "" && ContinuesName(text[0]) {
      NameRunStops(text[1..]);
      assert text[NameRun(text)..] == text[1..][NameRun(text[1..])..];
    }
  }

  /** The token a text begins with is laid out there. */
  lemma NextIsLaidOut(text: string)
    requires text != "" && NextToken(text).Some?
    ensures var (token, length) := NextToken(text).value;
      && text == TokenText(token) + text[length..]
      && (token.Name? ==> ValidName(token.value) && EndsName(text[length..]))
  {
    var (token, length) := NextToken(text).value;
    assert text == text[..length] + text[length..];
    if token.Name? {
      NameRunContinues(text);
      NameRunStops(text);
      assert text[..length][0] == text[0];
    }
  }

  lemma SpaceBefore(c: char, pieces: seq<Piece>, tail: string) returns (pieces': seq<Piece>, tail': string)
    requires IsSpace(c) && IsLayout(pieces, tail)
    ensures IsLayout(pieces', tail') && LayoutText(pieces', tail') == [c] + LayoutText(pieces, tail) && PieceTokens(pieces') == PieceTokens(pieces)
  {
    pieces', tail' := pieces, tail;
    if pieces == [] {
      tail' := [c] + tail;
    } else {
      pieces' := [Piece([c] + pieces[0].gap, pieces[0].token)] + pieces[1..];
      assert pieces'[1..] == pieces[1..];
      assert [c] + pieces[0].gap + (TokenText(pieces[0].token) + LayoutText(pieces[1..], tail))
          == [c] + (pieces[0].gap + (TokenText(pieces[0].token) + LayoutText(pieces[1..], tail)));
    }
  }

  lemma {:induction false} TokensAreLaidOut(text: string) returns (pieces: seq<Piece>, tail: string)
    requires Tokens(text).Some?
    ensures IsLayout(pieces, tail) && LayoutText(pieces, tail) == text && PieceTokens(pieces) == Tokens(text).value
    decreases |text|
  {
    pieces, tail := [], "";
    if text != "" {
      if IsSpace(text[0]) {
        pieces, tail := TokensAreLaidOut(text[1..]);
        pieces, tail := SpaceBefore(text[0], pieces, tail);
        assert text == [text[0]] + text[1..];
      } else {
        var (token, length) := NextToken(text).value;
        NextIsLaidOut(text);
        pieces, tail := TokensAreLaidOut(text[length..]);
        pieces := [Piece("", token)] + pieces;
        assert "" + (TokenText(token) + text[length..]) == text;
      }
    }
  }

  ghost predicate LaysOut(text: string, tokens: seq<Token>) {
    exists pieces, tail :: IsLayout(pieces, tail) && LayoutText(pieces, tail) == text && PieceTokens(pieces) == tokens
  }

  /** The tokenizer reads a text as a list of tokens exactly if the text lays them out: with any white space
      before, between and after them, and some between two names. */
  lemma TokenizesLayoutsExactly(text: string, tokens: seq<Token>)
    ensures Tokens(text) == Some(tokens) <==> LaysOut(text, tokens)
  {
    if Tokens(text) == Some(tokens) {
      var pieces, tail := TokensAreLaidOut(text);
    }
    if LaysOut(text, tokens) {
      var pieces, tail :| IsLayout(pieces, tail) && LayoutText(pieces, tail) == text && PieceTokens(pieces) == tokens;
      LayoutReads(pieces, tail);
    }
  }

  /** Together: a text parses to an expression exactly if it lays out the tokens of a derivation, within the
      limits, that means it. */
  lemma ParsesExactly(text: string, node: When)
    ensures Parse(text) == Some(node) <==> exists tokens :: LaysOut(text, tokens) && Derives(tokens, node)
  {
    if Parse(text) == Some(node) {
      TokenizesLayoutsExactly(text, Tokens(text).value);
      ParsesDerivationsExactly(Tokens(text).value, node);
    }
    if exists tokens :: LaysOut(text, tokens) && Derives(tokens, node) {
      var tokens :| LaysOut(text, tokens) && Derives(tokens, node);
      TokenizesLayoutsExactly(text, tokens);
      ParsesDerivationsExactly(tokens, node);
    }
  }

  // ----- In a rule -----

  lemma {:induction false} GapIsTrimmed(gap: string, text: string)
    requires AllSpace(gap) && text != "" && !IsSpace(text[0])
    ensures TrimStart(gap + text) == text
  {
    if gap == "" {
      assert gap + text == text;
    } else {
      assert gap[0] in gap && forall c <- gap[1..] :: c in gap;
      assert (gap + text)[1..] == gap[1..] + text;
      GapIsTrimmed(gap[1..], text);
    }
  }

  lemma {:induction false} TailIsTrimmed(text: string, tail: string)
    requires AllSpace(tail) && text != "" && !IsSpace(text[|text| - 1])
    ensures TrimEnd(text + tail) == text
  {
    if tail == "" {
      assert text + tail == text;
    } else {
      var n := |tail| - 1;
      assert tail[n] in tail && forall c <- tail[..n] :: c in tail;
      assert (text + tail)[..|text + tail| - 1] == text + tail[..n];
      TailIsTrimmed(text, tail[..n]);
    }
  }

  /** White space around the text of a rule's condition does not count against its length: what is left between
      parses if it is no longer than 256 characters. */
  lemma StoredWithinLimit(gap: string, text: string, tail: string)
    requires AllSpace(gap) && AllSpace(tail) && text != "" && !IsSpace(text[0]) && !IsSpace(text[|text| - 1])
    ensures StoredWhen(gap + (text + tail)) == if |text| <= 256 then Parse(text) else None
  {
    assert (text + tail)[0] == text[0];
    GapIsTrimmed(gap, text + tail);
    TailIsTrimmed(text, tail);
  }

  /** A condition of white space alone is refused. */
  lemma {:induction false} BlankIsRefused(gap: string)
    requires AllSpace(gap)
    ensures StoredWhen(gap) == None
  {
    if gap != "" {
      assert gap[0] in gap && forall c <- gap[1..] :: c in gap;
      BlankIsRefused(gap[1..]);
    }
  }
}
