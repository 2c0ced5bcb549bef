/**
 * Token categories and the three lexeme tables of src/token.ts.
 *
 * Each table is an ordered list of (lexeme, category) pairs, in the order the
 * source declares its object keys; membership and lookup are defined once, over
 * any such list.
 */
module Tokens {
  import opened Optional

  /** The closed set of token categories (the `TokenType` union). */
  datatype TokenType =
    | ASSIGN | PLUS | MINUS | BANG | ASTERIX | SLASH | LT | GT | COMMA | SEMICOLON
    | LPAREN | RPAREN | LBRACE | RBRACE
    | EQ | NOT_EQ
    | FUNCTION | LET | TRUE | FALSE | IF | ELSE | RETURN
    | ILLEGAL | INT | IDENT | EOF
  {
    /** The category as the string the source uses for it. */
    function Name(): string {
      match this
      case ASSIGN => "ASSIGN"
      case PLUS => "PLUS"
      case MINUS => "MINUS"
      case BANG => "BANG"
      case ASTERIX => "ASTERIX"
      case SLASH => "SLASH"
      case LT => "LT"
      case GT => "GT"
      case COMMA => "COMMA"
      case SEMICOLON => "SEMICOLON"
      case LPAREN => "LPAREN"
      case RPAREN => "RPAREN"
      case LBRACE => "LBRACE"
      case RBRACE => "RBRACE"
      case EQ => "EQ"
      case NOT_EQ => "NOT_EQ"
      case FUNCTION => "FUNCTION"
      case LET => "LET"
      case TRUE => "TRUE"
      case FALSE => "FALSE"
      case IF => "IF"
      case ELSE => "ELSE"
      case RETURN => "RETURN"
      case ILLEGAL => "ILLEGAL"
      case INT => "INT"
      case IDENT => "IDENT"
      case EOF => "EOF"
    }
  }

  /** A token: its category and the text it was read from. */
  datatype Token = Token(tokenType: TokenType, literal: string)

  /** A lexeme table: (lexeme, category) pairs in declaration order. */
  type Table = seq<(string, TokenType)>

  const SingleCharTokens: Table := [
    ("=", ASSIGN), ("+", PLUS), ("-", MINUS), ("!", BANG), ("*", ASTERIX),
    ("/", SLASH), ("<", LT), (">", GT), (",", COMMA), (";", SEMICOLON),
    ("(", LPAREN), (")", RPAREN), ("{", LBRACE), ("}", RBRACE)
  ]

  const DoubleCharTokens: Table := [("==", EQ), ("!=", NOT_EQ)]

  const Keywords: Table := [
    ("fn", FUNCTION), ("let", LET), ("true", TRUE), ("false", FALSE),
    ("if", IF), ("else", ELSE), ("return", RETURN)
  ]

  /** The keys of a table, in order (`Object.keys`). */
  function Keys<V>(table: seq<(string, V)>): (ks: seq<string>)
    ensures |ks| == |table|
    ensures forall i :: 0 <= i < |table| ==> ks[i] == table[i].0
  {
    seq(|table|, i requires 0 <= i < |table| => table[i].0)
  }

  /** The values of a table, in order (`Object.values`). */
  function Values<V>(table: seq<(string, V)>): (vs: seq<V>)
    ensures |vs| == |table|
    ensures forall i :: 0 <= i < |table| ==> vs[i] == table[i].1
  {
    seq(|table|, i requires 0 <= i < |table| => table[i].1)
  }

  /** No element occurs twice. */
  predicate Distinct<T(==)>(s: seq<T>) {
    forall i, j :: 0 <= i < j < |s| ==> s[i] != s[j]
  }

  /** Indexing a table object by a key: the value of the first pair with that key. */
  function Lookup<V>(table: seq<(string, V)>, key: string): (r: Option<V>)
    ensures r.Some? <==> key in Keys(table)
    ensures r.Some? ==> (key, r.value) in table
  {
    if |table| == 0 then None
    else if table[0].0 == key then Some(table[0].1)
    else
      var r := Lookup(table[1..], key);
      assert key in Keys(table) ==> key in Keys(table[1..]) by {
        if key in Keys(table) {
          var i :| 0 <= i < |table| && Keys(table)[i] == key;
          assert Keys(table[1..])[i - 1] == key;
        }
      }
      assert key in Keys(table[1..]) ==> key in Keys(table) by {
        if key in Keys(table[1..]) {
          var i :| 0 <= i < |table| - 1 && Keys(table[1..])[i] == key;
          assert Keys(table)[i + 1] == key;
        }
      }
      r
  }

  /** The keys of the single-character table, spelled out. */
  lemma SingleCharKeys()
    ensures Keys(SingleCharTokens) == ["=", "+", "-", "!", "*", "/", "<", ">", ",", ";", "(", ")", "{", "}"]
  {
  }

  /** The values of the single-character table, spelled out. */
  lemma SingleCharValues()
    ensures Values(SingleCharTokens) == [ASSIGN, PLUS, MINUS, BANG, ASTERIX, SLASH, LT, GT, COMMA, SEMICOLON,
                                         LPAREN, RPAREN, LBRACE, RBRACE]
  {
  }

  /** The keys and values of the double-character table, spelled out. */
  lemma DoubleCharContents()
    ensures Keys(DoubleCharTokens) == ["==", "!="]
    ensures Values(DoubleCharTokens) == [EQ, NOT_EQ]
  {
  }

  /** The keys and values of the keyword table, spelled out. */
  lemma KeywordContents()
    ensures Keys(Keywords) == ["fn", "let", "true", "false", "if", "else", "return"]
    ensures Values(Keywords) == [FUNCTION, LET, TRUE, FALSE, IF, ELSE, RETURN]
  {
  }

  /** In a table whose keys are distinct, looking up the i-th key gives the i-th value. */
  lemma {:induction false} LookupDistinct<V>(table: seq<(string, V)>, i: nat)
    requires Distinct(Keys(table))
    requires i < |table|
    ensures Lookup(table, table[i].0) == Some(table[i].1)
    decreases i
  {
    if i > 0 {
      assert Keys(table)[0] != Keys(table)[i];
      var rest := table[1..];
      forall a, b | 0 <= a < b < |rest|
        ensures Keys(rest)[a] != Keys(rest)[b]
      {
        assert Keys(rest)[a] == Keys(table)[a + 1] && Keys(rest)[b] == Keys(table)[b + 1];
      }
      assert rest[i - 1] == table[i];
      LookupDistinct(rest, i - 1);
    }
  }

  /** A found value is one of the table's values. */
  lemma LookupInValues<V>(table: seq<(string, V)>, key: string)
    ensures Lookup(table, key).Some? ==> Lookup(table, key).value in Values(table)
  {
    if Lookup(table, key).Some? {
      var j :| 0 <= j < |table| && table[j] == (key, Lookup(table, key).value);
      assert Values(table)[j] == table[j].1;
    }
  }

  /** The generic categories, which no table produces. */
  predicate IsGeneric(t: TokenType) {
    t == ILLEGAL || t == INT || t == IDENT || t == EOF
  }

  /** The three tables never produce one of the generic categories ILLEGAL, INT, IDENT or EOF. */
  lemma TablesNameNoGenericCategory(key: string)
    ensures Lookup(SingleCharTokens, key).Some? ==> !IsGeneric(Lookup(SingleCharTokens, key).value)
    ensures Lookup(DoubleCharTokens, key).Some? ==> !IsGeneric(Lookup(DoubleCharTokens, key).value)
    ensures Lookup(Keywords, key).Some? ==> !IsGeneric(Lookup(Keywords, key).value)
  {
    NoGenericValues();
    LookupInValues(SingleCharTokens, key);
    LookupInValues(DoubleCharTokens, key);
    LookupInValues(Keywords, key);
  }

  lemma NoGenericValues()
    ensures forall t :: t in Values(SingleCharTokens) ==> !IsGeneric(t)
    ensures forall t :: t in Values(DoubleCharTokens) ==> !IsGeneric(t)
    ensures forall t :: t in Values(Keywords) ==> !IsGeneric(t)
  {
    SingleCharValues();
    DoubleCharContents();
    KeywordContents();
  }

  /** `isSingleCharToken`: membership in the keys of the single-character table. */
  predicate IsSingleCharToken(s: string)
    ensures IsSingleCharToken(s) ==> |s| == 1
  {
    SingleCharKeys();
    s in Keys(SingleCharTokens)
  }

  /** `isDoubleCharToken`: membership in the keys of the double-character table. */
  predicate IsDoubleCharToken(s: string)
    ensures IsDoubleCharToken(s) ==> |s| == 2 && IsSingleCharToken(s[..1])
  {
    DoubleCharContents();
    SingleCharKeys();
    assert "=="[..1] == "=" && "!="[..1] == "!";
    s in Keys(DoubleCharTokens)
  }

  /** `isKeyword`: membership in the keys of the keyword table. */
  predicate IsKeyword(s: string)
    ensures IsKeyword(s) <==> s in {"fn", "let", "true", "false", "if", "else", "return"}
  {
    KeywordContents();
    s in Keys(Keywords)
  }

  /** `lookupIdentifier`: the keyword's category, or nothing for a non-keyword. */
  function LookupIdentifier(s: string): (r: Option<TokenType>)
    ensures r.Some? <==> IsKeyword(s)
    ensures r.Some? ==> (s, r.value) in Keywords
  {
    if IsKeyword(s) then Some(Lookup(Keywords, s).value) else None
  }

  /** A keyword's category is the one the keyword table pairs it with, and no other. */
  lemma LookupIdentifierExact(s: string, t: TokenType)
    ensures LookupIdentifier(s) == Some(t) <==> (s, t) in Keywords
  {
    if (s, t) in Keywords {
      KeywordKeysDistinct();
      LookupFindsPair(Keywords, s, t);
    }
  }

  lemma KeywordKeysDistinct()
    ensures Distinct(Keys(Keywords))
  {
    KeywordContents();
  }

  /** In a table whose keys are distinct, every pair is what looking up its key finds. */
  lemma LookupFindsPair<V>(table: seq<(string, V)>, key: string, v: V)
    requires Distinct(Keys(table)) && (key, v) in table
    ensures Lookup(table, key) == Some(v)
  {
    var i :| 0 <= i < |table| && table[i] == (key, v);
    LookupDistinct(table, i);
  }

  /** Reads a category back from its name; the inverse of `Name`. */
  function FromName(s: string): Option<TokenType> {
    if |s| == 0 then None
    else match s[0]
    case 'A' =>
      if s == "ASSIGN" then Some(ASSIGN)
      else if s == "ASTERIX" then Some(ASTERIX)
      else None
    case 'B' =>
      if s == "BANG" then Some(BANG)
      else None
    case 'C' =>
      if s == "COMMA" then Some(COMMA)
      else None
    case 'E' =>
      if s == "EQ" then Some(EQ)
      else if s == "ELSE" then Some(ELSE)
      else if s == "EOF" then Some(EOF)
      else None
    case 'F' =>
      if s == "FUNCTION" then Some(FUNCTION)
      else if s == "FALSE" then Some(FALSE)
      else None
    case 'G' =>
      if s == "GT" then Some(GT)
      else None
    case 'I' =>
      if s == "IF" then Some(IF)
      else if s == "ILLEGAL" then Some(ILLEGAL)
      else if s == "INT" then Some(INT)
      else if s == "IDENT" then Some(IDENT)
      else None
    case 'L' =>
      if s == "LT" then Some(LT)
      else if s == "LPAREN" then Some(LPAREN)
      else if s == "LBRACE" then Some(LBRACE)
      else if s == "LET" then Some(LET)
      else None
    case 'M' =>
      if s == "MINUS" then Some(MINUS)
      else None
    case 'N' =>
      if s == "NOT_EQ" then Some(NOT_EQ)
      else None
    case 'P' =>
      if s == "PLUS" then Some(PLUS)
      else None
    case 'R' =>
      if s == "RPAREN" then Some(RPAREN)
      else if s == "RBRACE" then Some(RBRACE)
      else if s == "RETURN" then Some(RETURN)
      else None
    case 'S' =>
      if s == "SLASH" then Some(SLASH)
      else if s == "SEMICOLON" then Some(SEMICOLON)
      else None
    case 'T' =>
      if s == "TRUE" then Some(TRUE)
      else None
    case _ => None
  }

  /** Every name reads back as its own category. */
  lemma NameRoundTrip(t: TokenType)
    ensures FromName(t.Name()) == Some(t)
  {
  }

  /** The 27 category names are pairwise distinct, and none of them is "ASTERISK". */
  lemma NamesDistinct(a: TokenType, b: TokenType)
    ensures a.Name() == b.Name() ==> a == b
    ensures a.Name() != "ASTERISK"
  {
    NameRoundTrip(a);
    NameRoundTrip(b);
  }

  /** The single-character table: 14 one-character lexemes naming 14 distinct categories. */
  lemma SingleCharTable()
    ensures |SingleCharTokens| == 14
    ensures Distinct(Keys(SingleCharTokens))
    ensures Distinct(Values(SingleCharTokens))
    ensures forall k :: k in Keys(SingleCharTokens) ==> |k| == 1
  {
    SingleCharKeysDistinct();
    SingleCharValuesDistinct();
    SingleCharKeys();
  }

  lemma SingleCharKeysDistinct()
    ensures Distinct(Keys(SingleCharTokens))
  {
    SingleCharKeys();
  }

  lemma SingleCharValuesDistinct()
    ensures Distinct(Values(SingleCharTokens))
  {
    SingleCharValues();
  }

  /** `*` is read as ASTERIX; there is no ASTERISK category. */
  lemma AsteriskIsAsterix()
    ensures Lookup(SingleCharTokens, "*") == Some(ASTERIX)
  {
    SingleCharTable();
    LookupDistinct(SingleCharTokens, 4);
  }

  /** The double-character table: exactly `==` and `!=`, each starting with a single-character key. */
  lemma DoubleCharTable()
    ensures Keys(DoubleCharTokens) == ["==", "!="]
    ensures Lookup(DoubleCharTokens, "==") == Some(EQ)
    ensures Lookup(DoubleCharTokens, "!=") == Some(NOT_EQ)
    ensures forall k :: k in Keys(DoubleCharTokens) ==> IsSingleCharToken(k[..1])
  {
    DoubleCharContents();
    assert IsDoubleCharToken("==") && IsDoubleCharToken("!=");
  }

  /** The keyword table: seven keywords naming seven distinct categories. */
  lemma KeywordTable()
    ensures Keys(Keywords) == ["fn", "let", "true", "false", "if", "else", "return"]
    ensures Values(Keywords) == [FUNCTION, LET, TRUE, FALSE, IF, ELSE, RETURN]
    ensures Distinct(Values(Keywords))
  {
    KeywordContents();
  }

  /** No lexeme appears in two tables. */
  lemma KeysDisjoint()
    ensures forall k :: k in Keys(SingleCharTokens) ==> k !in Keys(DoubleCharTokens) && k !in Keys(Keywords)
    ensures forall k :: k in Keys(DoubleCharTokens) ==> k !in Keys(Keywords)
  {
    SingleCharKeys();
    DoubleCharContents();
    KeywordContents();
  }

  /** No category is the value of two tables. */
  lemma ValuesDisjoint()
    ensures forall t :: t in Values(SingleCharTokens) ==> t !in Values(DoubleCharTokens) && t !in Values(Keywords)
    ensures forall t :: t in Values(DoubleCharTokens) ==> t !in Values(Keywords)
  {
    SingleCharValues();
    DoubleCharContents();
    KeywordContents();
  }
}
