/** Model of source/monkey/token.c and source/monkey/token.h: token types, their display texts,
    the keyword table and identifier lookup. */
module Tokens {
  import opened Strings

  /** Every token type the lexer, the keyword table or the parser refers to. The first fourteen are
      the ones listed in token.h; the others are used by token.c and parser.c without being declared there. */
  datatype TokenType =
    | Illegal | EndOfFile | Ident | Int | Assign | Plus | Comma | Semicolon
    | LParen | RParen | LBrace | RBrace | Function | Let
    | Minus | Bang | Asterisk | Slash | Lt | Gt | Eq | NotEq
    | If | Else | True | False | Return

  datatype Token = Token(kind: TokenType, literal: string)

  /** TokenTypeText: the display text of a token type. The texts of the first fourteen come from
      token.h; the others have none in the source and are given their operator or keyword spelling. */
  function TokenTypeText(t: TokenType): string
  {
    match t
    case Illegal => "ILLEGAL"
    case EndOfFile => "EOF"
    case Ident => "IDENT"
    case Int => "INT"
    case Assign => "="
    case Plus => "+"
    case Comma => ","
    case Semicolon => ";"
    case LParen => "("
    case RParen => ")"
    case LBrace => "{"
    case RBrace => "}"
    case Function => "FUNCTION"
    case Let => "LET"
    case Minus => "-"
    case Bang => "!"
    case Asterisk => "*"
    case Slash => "/"
    case Lt => "<"
    case Gt => ">"
    case Eq => "=="
    case NotEq => "!="
    case If => "IF"
    case Else => "ELSE"
    case True => "TRUE"
    case False => "FALSE"
    case Return => "RETURN"
  }

  /** Different token types have different texts, so an error message names the type unambiguously. */
  lemma TokenTypeTextInjective(a: TokenType, b: TokenType)
    requires TokenTypeText(a) == TokenTypeText(b)
    ensures a == b
  {
  }

  const KeywordCount: nat := 7

  /** The keyword table filled in by fillKeywords, in its order. */
  const Keywords: seq<(string, TokenType)> := [
    ("else", Else),
    ("false", False),
    ("fn", Function),
    ("if", If),
    ("let", Let),
    ("return", Return),
    ("true", True)
  ]

  /** The hash table that results from inserting `table`'s entries in order (a later entry for the
      same text would replace an earlier one). */
  function TableMap(table: seq<(string, TokenType)>): map<string, TokenType>
  {
    if table == [] then map[]
    else TableMap(table[..|table| - 1])[table[|table| - 1].0 := table[|table| - 1].1]
  }

  /** The keyword texts are pairwise distinct. */
  lemma KeywordTextsDistinct()
    ensures |Keywords| == KeywordCount
    ensures forall i, j | 0 <= i < j < |Keywords| :: Keywords[i].0 != Keywords[j].0
  {
  }

  /** When no text repeats, every entry of the table is found in the map with its own type, and
      nothing else is: the lookup is a function of the table. */
  lemma {:induction false} TableMapOfDistinct(table: seq<(string, TokenType)>)
    requires forall i, j | 0 <= i < j < |table| :: table[i].0 != table[j].0
    ensures forall i | 0 <= i < |table| :: table[i].0 in TableMap(table) && TableMap(table)[table[i].0] == table[i].1
    ensures forall s | s in TableMap(table) :: exists i | 0 <= i < |table| :: table[i].0 == s
  {
    if table != [] {
      var init := table[..|table| - 1];
      TableMapOfDistinct(init);
      forall s | s in TableMap(table)
        ensures exists i | 0 <= i < |table| :: table[i].0 == s
      {
        if s != table[|table| - 1].0 {
          assert s in TableMap(init);
          var i :| 0 <= i < |init| && init[i].0 == s;
          assert table[i].0 == s;
        }
      }
    }
  }

  /** The keyword hash table after fillKeywords. */
  const KeywordTable: map<string, TokenType> := TableMap(Keywords)

  /** fillKeywords: inserts the seven keywords into an empty table, one after another. */
  method FillKeywords() returns (keywords: map<string, TokenType>)
    ensures keywords == KeywordTable
    ensures forall i | 0 <= i < |Keywords| :: Keywords[i].0 in keywords && keywords[Keywords[i].0] == Keywords[i].1
  {
    keywords := map[];
    var i := 0;
    while i < KeywordCount
      invariant i <= KeywordCount
      invariant keywords == TableMap(Keywords[..i])
    {
      assert Keywords[..i + 1][..i] == Keywords[..i];
      keywords := keywords[Keywords[i].0 := Keywords[i].1];
      i := i + 1;
    }
    assert Keywords[..KeywordCount] == Keywords;
    KeywordTextsDistinct();
    TableMapOfDistinct(Keywords);
  }

  /** The token types the keyword table maps to. */
  const KeywordKinds: set<TokenType> := {Else, False, Function, If, Let, Return, True}

  lemma KeywordTableKinds()
    ensures forall w | w in KeywordTable :: KeywordTable[w] in KeywordKinds
  {
    KeywordTextsDistinct();
    TableMapOfDistinct(Keywords);
    forall w | w in KeywordTable
      ensures KeywordTable[w] in KeywordKinds
    {
      var i :| 0 <= i < |Keywords| && Keywords[i].0 == w;
    }
  }

  /** LookupIdent: the keyword type of `identifier`, or IDENT when it is not a keyword. */
  function LookupIdent(identifier: string): (r: TokenType)
    ensures r == Ident || r in KeywordKinds
  {
    KeywordTableKinds();
    if identifier in KeywordTable then KeywordTable[identifier] else Ident
  }

  /** Exactly the seven keyword texts map to their keyword types; every other word is an identifier. */
  lemma LookupIdentKeywords(identifier: string)
    ensures (exists i | 0 <= i < |Keywords| :: Keywords[i].0 == identifier) <==> LookupIdent(identifier) != Ident
    ensures forall i | 0 <= i < |Keywords| :: LookupIdent(Keywords[i].0) == Keywords[i].1
  {
    KeywordTextsDistinct();
    TableMapOfDistinct(Keywords);
  }

  /** The spelled-out table, as the lexer tests rely on it. */
  lemma LookupIdentExamples()
    ensures LookupIdent("fn") == Function && LookupIdent("let") == Let && LookupIdent("if") == If
    ensures LookupIdent("else") == Else && LookupIdent("return") == Return
    ensures LookupIdent("true") == True && LookupIdent("false") == False
  {
    assert Keywords[0].0 == "else" && Keywords[1].0 == "false" && Keywords[2].0 == "fn" && Keywords[3].0 == "if";
    assert Keywords[4].0 == "let" && Keywords[5].0 == "return" && Keywords[6].0 == "true";
    LookupIdentKeywords("");
  }

  /** Keyword matching is exact: a different spelling or case is an identifier. */
  lemma LookupIdentNonKeywords()
    ensures LookupIdent("five") == Ident && LookupIdent("Let") == Ident && LookupIdent("") == Ident
  {
    forall w | w in {"five", "Let", ""}
      ensures LookupIdent(w) == Ident
    {
      forall i | 0 <= i < |Keywords|
        ensures Keywords[i].0 != w
      {
      }
      LookupIdentKeywords(w);
    }
  }

  /** CopyToken: the same type and a duplicate of the literal. */
  function CopyToken(t: Token): (r: Token)
    ensures r.kind == t.kind
    ensures '\0' !in t.literal ==> r == t
  {
    Token(t.kind, Strdup(t.literal))
  }
}
