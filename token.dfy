/**
 * Tokens produced by the lexer: the token kinds, the kind-to-name table and
 * the token record with its getters.
 */
module Tokens {
  import opened Wrappers
  import opened Int32

  /** The token kinds, in declaration order (the order fixes their ordinals). */
  datatype TokenType =
    | INTEGER | FLOAT | BOOLEAN | STRING
    | PLUS | MINUS | MULTIPLY | DIVIDE | MODULO | NEGATE
    | EXPONENTIATE
    | AND | OR | NOT | BITAND | BITOR | BITXOR | BITNOT | LEFTSHIFT | RIGHTSHIFT
    | LESSTHAN | LESSTHANEQUAL | GREATERTHAN | GREATERTHANEQUAL | EQUALS | NOTEQUALS
    | INTTOFLOAT | FLOATTOINT
    | SUM | MEAN | MIN | MAX
    | LEFTPARENTHESIS | RIGHTPARENTHESIS | LEFTBRACKET | RIGHTBRACKET | HASHTAG | COMMA
    | NEWLINE | SEMICOLON | COLON | VARIABLE | IF | ELSE | END
    | FOR | IN | DOTDOT
    | ASSIGNMENT

  const KindCount: nat := 49

  /** `static_cast<int>(type)`: the position of the kind in the declaration. */
  function Ordinal(t: TokenType): (n: nat)
    ensures n < KindCount
  {
    match t
    case INTEGER => 0 case FLOAT => 1 case BOOLEAN => 2 case STRING => 3
    case PLUS => 4 case MINUS => 5 case MULTIPLY => 6 case DIVIDE => 7
    case MODULO => 8 case NEGATE => 9 case EXPONENTIATE => 10
    case AND => 11 case OR => 12 case NOT => 13 case BITAND => 14
    case BITOR => 15 case BITXOR => 16 case BITNOT => 17 case LEFTSHIFT => 18
    case RIGHTSHIFT => 19 case LESSTHAN => 20 case LESSTHANEQUAL => 21
    case GREATERTHAN => 22 case GREATERTHANEQUAL => 23 case EQUALS => 24
    case NOTEQUALS => 25 case INTTOFLOAT => 26 case FLOATTOINT => 27
    case SUM => 28 case MEAN => 29 case MIN => 30 case MAX => 31
    case LEFTPARENTHESIS => 32 case RIGHTPARENTHESIS => 33
    case LEFTBRACKET => 34 case RIGHTBRACKET => 35 case HASHTAG => 36
    case COMMA => 37 case NEWLINE => 38 case SEMICOLON => 39 case COLON => 40
    case VARIABLE => 41 case IF => 42 case ELSE => 43 case END => 44
    case FOR => 45 case IN => 46 case DOTDOT => 47 case ASSIGNMENT => 48
  }

  /** The name of every kind, indexed by ordinal, seven kinds to a row. */
  const KindNames: seq<string> :=
    ["INTEGER", "FLOAT", "BOOLEAN", "STRING", "PLUS", "MINUS", "MULTIPLY"]
    + ["DIVIDE", "MODULO", "NEGATE", "EXPONENTIATE", "AND", "OR", "NOT"]
    + ["BITAND", "BITOR", "BITXOR", "BITNOT", "LEFTSHIFT", "RIGHTSHIFT", "LESSTHAN"]
    + ["LESSTHANEQUAL", "GREATERTHAN", "GREATERTHANEQUAL", "EQUALS", "NOTEQUALS", "INTTOFLOAT", "FLOATTOINT"]
    + ["SUM", "MEAN", "MIN", "MAX", "LEFTPARENTHESIS", "RIGHTPARENTHESIS", "LEFTBRACKET"]
    + ["RIGHTBRACKET", "HASHTAG", "COMMA", "NEWLINE", "SEMICOLON", "COLON", "VARIABLE"]
    + ["IF", "ELSE", "END", "FOR", "IN", "DOTDOT", "ASSIGNMENT"]

  /** The ordinal of the kind whose name has length `n` and the given first
      and last letters: no two of the 49 names agree on all three. */
  function OrdinalOfSignature(n: nat, first: char, last: char): Option<nat> {
    if n == 2 then
      if (first, last) == ('O', 'R') then Some(12)  // OR
      else if (first, last) == ('I', 'F') then Some(42)  // IF
      else if (first, last) == ('I', 'N') then Some(46)  // IN
      else None
    else if n == 3 then
      if (first, last) == ('A', 'D') then Some(11)  // AND
      else if (first, last) == ('N', 'T') then Some(13)  // NOT
      else if (first, last) == ('S', 'M') then Some(28)  // SUM
      else if (first, last) == ('M', 'N') then Some(30)  // MIN
      else if (first, last) == ('M', 'X') then Some(31)  // MAX
      else if (first, last) == ('E', 'D') then Some(44)  // END
      else if (first, last) == ('F', 'R') then Some(45)  // FOR
      else None
    else if n == 4 then
      if (first, last) == ('P', 'S') then Some(4)  // PLUS
      else if (first, last) == ('M', 'N') then Some(29)  // MEAN
      else if (first, last) == ('E', 'E') then Some(43)  // ELSE
      else None
    else if n == 5 then
      if (first, last) == ('F', 'T') then Some(1)  // FLOAT
      else if (first, last) == ('M', 'S') then Some(5)  // MINUS
      else if (first, last) == ('B', 'R') then Some(15)  // BITOR
      else if (first, last) == ('C', 'A') then Some(37)  // COMMA
      else if (first, last) == ('C', 'N') then Some(40)  // COLON
      else None
    else if n == 6 then
      if (first, last) == ('S', 'G') then Some(3)  // STRING
      else if (first, last) == ('D', 'E') then Some(7)  // DIVIDE
      else if (first, last) == ('M', 'O') then Some(8)  // MODULO
      else if (first, last) == ('N', 'E') then Some(9)  // NEGATE
      else if (first, last) == ('B', 'D') then Some(14)  // BITAND
      else if (first, last) == ('B', 'R') then Some(16)  // BITXOR
      else if (first, last) == ('B', 'T') then Some(17)  // BITNOT
      else if (first, last) == ('E', 'S') then Some(24)  // EQUALS
      else if (first, last) == ('D', 'T') then Some(47)  // DOTDOT
      else None
    else if n == 7 then
      if (first, last) == ('I', 'R') then Some(0)  // INTEGER
      else if (first, last) == ('B', 'N') then Some(2)  // BOOLEAN
      else if (first, last) == ('H', 'G') then Some(36)  // HASHTAG
      else if (first, last) == ('N', 'E') then Some(38)  // NEWLINE
      else None
    else if n == 8 then
      if (first, last) == ('M', 'Y') then Some(6)  // MULTIPLY
      else if (first, last) == ('L', 'N') then Some(20)  // LESSTHAN
      else if (first, last) == ('V', 'E') then Some(41)  // VARIABLE
      else None
    else if n == 9 then
      if (first, last) == ('L', 'T') then Some(18)  // LEFTSHIFT
      else if (first, last) == ('N', 'S') then Some(25)  // NOTEQUALS
      else if (first, last) == ('S', 'N') then Some(39)  // SEMICOLON
      else None
    else if n == 10 then
      if (first, last) == ('R', 'T') then Some(19)  // RIGHTSHIFT
      else if (first, last) == ('I', 'T') then Some(26)  // INTTOFLOAT
      else if (first, last) == ('F', 'T') then Some(27)  // FLOATTOINT
      else if (first, last) == ('A', 'T') then Some(48)  // ASSIGNMENT
      else None
    else if n == 11 then
      if (first, last) == ('G', 'N') then Some(22)  // GREATERTHAN
      else if (first, last) == ('L', 'T') then Some(34)  // LEFTBRACKET
      else None
    else if n == 12 then
      if (first, last) == ('E', 'E') then Some(10)  // EXPONENTIATE
      else if (first, last) == ('R', 'T') then Some(35)  // RIGHTBRACKET
      else None
    else if n == 13 then
      if (first, last) == ('L', 'L') then Some(21)  // LESSTHANEQUAL
      else None
    else if n == 15 then
      if (first, last) == ('L', 'S') then Some(32)  // LEFTPARENTHESIS
      else None
    else if n == 16 then
      if (first, last) == ('G', 'L') then Some(23)  // GREATERTHANEQUAL
      else if (first, last) == ('R', 'S') then Some(33)  // RIGHTPARENTHESIS
      else None
    else None
  }

  /** For each of the 49 names, the ordinal of its kind, read off the
      name's length and its first and last letters. */
  function NameOrdinal(name: string): Option<nat> {
    if |name| == 0 then None
    else OrdinalOfSignature(|name|, name[0], name[|name| - 1])
  }

  /** The `k`-th name reads back as `k`; the lemmas below check seven
      names each. */
  ghost predicate NameSigned(k: nat)
    requires k < |KindNames|
  {
    NameOrdinal(KindNames[k]) == Some(k)
  }

  lemma SignedNames0To6(k: nat)
    requires 0 <= k < 7
    ensures NameSigned(k)
  {
    if k == 0 { }
    else if k == 1 { }
    else if k == 2 { }
    else if k == 3 { }
    else if k == 4 { }
    else if k == 5 { } else { assert k == 6; }
  }

  lemma SignedNames7To13(k: nat)
    requires 7 <= k < 14
    ensures NameSigned(k)
  {
    if k == 7 { }
    else if k == 8 { }
    else if k == 9 { }
    else if k == 10 { }
    else if k == 11 { }
    else if k == 12 { } else { assert k == 13; }
  }

  lemma SignedNames14To20(k: nat)
    requires 14 <= k < 21
    ensures NameSigned(k)
  {
    if k == 14 { }
    else if k == 15 { }
    else if k == 16 { }
    else if k == 17 { }
    else if k == 18 { }
    else if k == 19 { } else { assert k == 20; }
  }

  lemma SignedNames21To27(k: nat)
    requires 21 <= k < 28
    ensures NameSigned(k)
  {
    if k == 21 { }
    else if k == 22 { }
    else if k == 23 { }
    else if k == 24 { }
    else if k == 25 { }
    else if k == 26 { } else { assert k == 27; }
  }

  lemma SignedNames28To34(k: nat)
    requires 28 <= k < 35
    ensures NameSigned(k)
  {
    if k == 28 { }
    else if k == 29 { }
    else if k == 30 { }
    else if k == 31 { }
    else if k == 32 { }
    else if k == 33 { } else { assert k == 34; }
  }

  lemma SignedNames35To41(k: nat)
    requires 35 <= k < 42
    ensures NameSigned(k)
  {
    if k == 35 { }
    else if k == 36 { }
    else if k == 37 { }
    else if k == 38 { }
    else if k == 39 { }
    else if k == 40 { } else { assert k == 41; }
  }

  lemma SignedNames42To48(k: nat)
    requires 42 <= k < 49
    ensures NameSigned(k)
  {
    if k == 42 { }
    else if k == 43 { }
    else if k == 44 { }
    else if k == 45 { }
    else if k == 46 { }
    else if k == 47 { } else { assert k == 48; }
  }

  /** Every entry of the table reads back as its own ordinal. */
  lemma NameOrdinalOfEntry(k: nat)
    requires k < KindCount
    ensures |KindNames| == KindCount && NameOrdinal(KindNames[k]) == Some(k)
  {
    if k < 7 { SignedNames0To6(k); }
    else if k < 14 { SignedNames7To13(k); }
    else if k < 21 { SignedNames14To20(k); }
    else if k < 28 { SignedNames21To27(k); }
    else if k < 35 { SignedNames28To34(k); }
    else if k < 42 { SignedNames35To41(k); }
    else { SignedNames42To48(k); }
  }

  /** `token_type_strings` as the header declares it: the names of the 38
      kinds from INTEGER to COMMA, in order, and then "VARIABLE", which is
      all.  So the entry at NEWLINE's ordinal names the wrong kind, and the
      kinds after NEWLINE index past its end. */
  const TokenTypeStringsAsWritten: seq<string> := KindNames[..38] + ["VARIABLE"]

  /** `getTypeString` as written: a lookup in the 39-entry table, defined
      only for the kinds whose ordinal lies inside it. */
  function TypeStringAsWritten(t: TokenType): string
    requires Ordinal(t) < |TokenTypeStringsAsWritten|
  {
    TokenTypeStringsAsWritten[Ordinal(t)]
  }

  /** The evidently intended `getTypeString`: the kind's own name, which
      names no other kind. */
  function TypeString(t: TokenType): (r: string)
    ensures NameOrdinal(r) == Some(Ordinal(t))
  {
    NameOrdinalOfEntry(Ordinal(t));
    KindNames[Ordinal(t)]
  }

  /** The kind at an ordinal: the inverse of `Ordinal`. */
  function KindAt(n: nat): (t: TokenType)
    requires n < KindCount
  {
    if n < 7 then
      match n
      case 0 => INTEGER case 1 => FLOAT case 2 => BOOLEAN case 3 => STRING
      case 4 => PLUS case 5 => MINUS case _ => MULTIPLY
    else if n < 14 then
      match n
      case 7 => DIVIDE case 8 => MODULO case 9 => NEGATE case 10 => EXPONENTIATE
      case 11 => AND case 12 => OR case _ => NOT
    else if n < 21 then
      match n
      case 14 => BITAND case 15 => BITOR case 16 => BITXOR case 17 => BITNOT
      case 18 => LEFTSHIFT case 19 => RIGHTSHIFT case _ => LESSTHAN
    else if n < 28 then
      match n
      case 21 => LESSTHANEQUAL case 22 => GREATERTHAN case 23 => GREATERTHANEQUAL case 24 => EQUALS
      case 25 => NOTEQUALS case 26 => INTTOFLOAT case _ => FLOATTOINT
    else if n < 35 then
      match n
      case 28 => SUM case 29 => MEAN case 30 => MIN case 31 => MAX
      case 32 => LEFTPARENTHESIS case 33 => RIGHTPARENTHESIS case _ => LEFTBRACKET
    else if n < 42 then
      match n
      case 35 => RIGHTBRACKET case 36 => HASHTAG case 37 => COMMA case 38 => NEWLINE
      case 39 => SEMICOLON case 40 => COLON case _ => VARIABLE
    else
      match n
      case 42 => IF case 43 => ELSE case 44 => END case 45 => FOR
      case 46 => IN case 47 => DOTDOT case _ => ASSIGNMENT
  }

  /** Distinct kinds have distinct ordinals. */
  lemma OrdinalInjective(t: TokenType, u: TokenType)
    ensures Ordinal(t) == Ordinal(u) ==> t == u
  {
    KindAtOrdinal(t);
    KindAtOrdinal(u);
  }

  lemma KindAtOrdinal(t: TokenType)
    ensures KindAt(Ordinal(t)) == t
  {
    match t
    case INTEGER =>
    case FLOAT =>
    case BOOLEAN =>
    case STRING =>
    case PLUS =>
    case MINUS =>
    case MULTIPLY =>
    case DIVIDE =>
    case MODULO =>
    case NEGATE =>
    case EXPONENTIATE =>
    case AND =>
    case OR =>
    case NOT =>
    case BITAND =>
    case BITOR =>
    case BITXOR =>
    case BITNOT =>
    case LEFTSHIFT =>
    case RIGHTSHIFT =>
    case LESSTHAN =>
    case LESSTHANEQUAL =>
    case GREATERTHAN =>
    case GREATERTHANEQUAL =>
    case EQUALS =>
    case NOTEQUALS =>
    case INTTOFLOAT =>
    case FLOATTOINT =>
    case SUM =>
    case MEAN =>
    case MIN =>
    case MAX =>
    case LEFTPARENTHESIS =>
    case RIGHTPARENTHESIS =>
    case LEFTBRACKET =>
    case RIGHTBRACKET =>
    case HASHTAG =>
    case COMMA =>
    case NEWLINE =>
    case SEMICOLON =>
    case COLON =>
    case VARIABLE =>
    case IF =>
    case ELSE =>
    case END =>
    case FOR =>
    case IN =>
    case DOTDOT =>
    case ASSIGNMENT =>
  }

  /** One name per kind: the name of a kind determines the kind. */
  lemma TypeStringInjective(t: TokenType, u: TokenType)
    ensures TypeString(t) == TypeString(u) <==> t == u
  {
    OrdinalInjective(t, u);
  }

  /** The as-written table agrees with the kind names up to COMMA ... */
  lemma AsWrittenAgreesBeforeNewline(t: TokenType)
    requires Ordinal(t) < Ordinal(NEWLINE)
    ensures TypeStringAsWritten(t) == TypeString(t)
  {
    AsWrittenPrefix(Ordinal(t));
  }

  lemma AsWrittenPrefix(k: nat)
    requires k < 38
    ensures |KindNames| == KindCount && TokenTypeStringsAsWritten[k] == KindNames[k]
  {
  }

  /** ... but names NEWLINE "VARIABLE". */
  lemma AsWrittenMisnamesNewline()
    ensures TypeStringAsWritten(NEWLINE) == "VARIABLE" != TypeString(NEWLINE)
  {
    AsWrittenNewlineEntry();
    NewlineIsNotVariable();
  }

  lemma AsWrittenNewlineEntry()
    ensures TypeStringAsWritten(NEWLINE) == "VARIABLE"
  {
  }

  lemma NewlineIsNotVariable()
    ensures TypeString(NEWLINE) != "VARIABLE"
  {
    assert NameOrdinal("VARIABLE") == Some(41);
  }

  /** As written, `getTypeString` is defined for exactly 39 of the 49 kinds:
      VARIABLE and every later kind index past the table. */
  lemma AsWrittenDomain(t: TokenType)
    ensures Ordinal(t) < |TokenTypeStringsAsWritten| <==> Ordinal(t) <= Ordinal(NEWLINE)
  {
  }

  /** A token: its source text, its kind, and the source positions the lexer
      records for it. */
  datatype Token = Token(text: string, tokenType: TokenType, startIndex: int, endIndex: int)
  {
    function GetText(): string {
      text
    }

    function GetType(): TokenType {
      tokenType
    }

    function GetStartIndex(): int {
      startIndex
    }

    function GetEndIndex(): int {
      endIndex
    }

    function GetTypeString(): string {
      TypeString(tokenType)
    }

    /** `operator<<`: the text written for a token, as a string. */
    function Describe(): string {
      "[Text: " + GetText() + "\tType: " + GetTypeString()
      + "\tStart Index: " + IntToString(GetStartIndex())
      + "\tEnd Index: " + IntToString(GetEndIndex()) + "]\n"
    }
  }

  /** Proof step for `DescribeDeterminesToken`: the printed form regrouped
      into its four tab-separated fields. */
  lemma DescribeFields(tok: Token)
    ensures tok.Describe() == ("[Text: " + tok.text) + "\t" + ("Type: " + TypeString(tok.tokenType))
                              + "\t" + ("Start Index: " + IntToString(tok.startIndex))
                              + "\t" + ("End Index: " + IntToString(tok.endIndex) + "]\n")
  {
    assert "\tType: " == "\t" + "Type: ";
    assert "\tStart Index: " == "\t" + "Start Index: ";
    assert "\tEnd Index: " == "\t" + "End Index: ";
    RegroupFields("[Text: ", tok.text, "\t", "Type: ", TypeString(tok.tokenType),
                  "Start Index: ", IntToString(tok.startIndex),
                  "End Index: ", IntToString(tok.endIndex), "]\n");
  }

  lemma RegroupFields(p1: string, a: string, tab: string, p2: string, b: string,
                      p3: string, c: string, p4: string, d: string, q: string)
    ensures p1 + a + (tab + p2) + b + (tab + p3) + c + (tab + p4) + d + q
         == (p1 + a) + tab + (p2 + b) + tab + (p3 + c) + tab + (p4 + d + q)
  {
  }

  /** A tab-free first field is fixed by where the first tab sits. */
  lemma SplitAtFirstTab(x1: string, y1: string, x2: string, y2: string)
    requires '\t' !in x1 && '\t' !in x2
    requires x1 + "\t" + y1 == x2 + "\t" + y2
    ensures x1 == x2 && y1 == y2
  {
    var s := x1 + "\t" + y1;
    if |x1| < |x2| {
      TabAfter(x1, y1, x2, y2);
      assert false;
    } else if |x2| < |x1| {
      TabAfter(x2, y2, x1, y1);
      assert false;
    }
    assert x1 == s[..|x1|] && x2 == (x2 + "\t" + y2)[..|x2|];
    assert y1 == s[|x1| + 1..] && y2 == (x2 + "\t" + y2)[|x2| + 1..];
  }

  /** A tab-free last field is fixed by where the last tab sits. */
  lemma SplitAtLastTab(x1: string, y1: string, x2: string, y2: string)
    requires '\t' !in y1 && '\t' !in y2
    requires x1 + "\t" + y1 == x2 + "\t" + y2
    ensures x1 == x2 && y1 == y2
  {
    var s := x1 + "\t" + y1;
    if |y1| < |y2| {
      TabBefore(x1, y1, x2, y2);
      assert false;
    } else if |y2| < |y1| {
      TabBefore(x2, y2, x1, y1);
      assert false;
    }
    assert x1 == s[..|x1|] && x2 == (x2 + "\t" + y2)[..|x2|];
    assert y1 == s[|x1| + 1..] && y2 == (x2 + "\t" + y2)[|x2| + 1..];
  }

  /** A first field shorter than another puts its tab inside the other. */
  lemma TabAfter(x1: string, y1: string, x2: string, y2: string)
    requires |x1| < |x2|
    ensures (x1 + "\t" + y1)[|x1|] == '\t'
    ensures (x2 + "\t" + y2)[|x1|] == x2[|x1|]
  {
  }

  /** A last field shorter than another puts its tab inside the other. */
  lemma TabBefore(x1: string, y1: string, x2: string, y2: string)
    requires |y1| < |y2| && |x1| + |y1| == |x2| + |y2|
    ensures (x1 + "\t" + y1)[|x1|] == '\t'
    ensures (x2 + "\t" + y2)[|x1|] == y2[|x1| - |x2| - 1]
  {
  }

  /** Equal strings with equal prefixes have equal rests. */
  lemma CancelPrefix(p: string, x: string, y: string)
    requires p + x == p + y
    ensures x == y
  {
    assert x == (p + x)[|p|..];
    assert y == (p + y)[|p|..];
  }

  /** Equal strings with equal suffixes have equal beginnings. */
  lemma CancelSuffix(x: string, y: string, q: string)
    requires x + q == y + q
    ensures x == y
  {
    assert x == (x + q)[..|x|];
    assert y == (y + q)[..|y|];
  }

  /** The printed form of a token whose text has no tab determines the
      token: its text, its kind and both of its indices can be read back. */
  lemma DescribeDeterminesToken(t1: Token, t2: Token)
    requires '\t' !in t1.text && '\t' !in t2.text
    ensures t1.Describe() == t2.Describe() <==> t1 == t2
  {
    if t1.Describe() == t2.Describe() {
      DescribeFields(t1);
      DescribeFields(t2);
      var a1, a2 := "[Text: " + t1.text, "[Text: " + t2.text;
      var b1, b2 := "Type: " + TypeString(t1.tokenType), "Type: " + TypeString(t2.tokenType);
      var c1, c2 := "Start Index: " + IntToString(t1.startIndex), "Start Index: " + IntToString(t2.startIndex);
      var d1, d2 := "End Index: " + IntToString(t1.endIndex) + "]\n", "End Index: " + IntToString(t2.endIndex) + "]\n";
      NoTabInPrinted(t1.startIndex);
      NoTabInPrinted(t2.startIndex);
      NoTabInPrinted(t1.endIndex);
      NoTabInPrinted(t2.endIndex);
      assert '\t' !in c1 && '\t' !in c2 && '\t' !in d1 && '\t' !in d2;
      assert '\t' !in a1 && '\t' !in a2;
      SplitAtLastTab(a1 + "\t" + b1 + "\t" + c1, d1, a2 + "\t" + b2 + "\t" + c2, d2);
      SplitAtLastTab(a1 + "\t" + b1, c1, a2 + "\t" + b2, c2);
      SplitAtFirstTab(a1, b1, a2, b2);
      CancelPrefix("[Text: ", t1.text, t2.text);
      CancelPrefix("Type: ", TypeString(t1.tokenType), TypeString(t2.tokenType));
      TypeStringInjective(t1.tokenType, t2.tokenType);
      CancelPrefix("Start Index: ", IntToString(t1.startIndex), IntToString(t2.startIndex));
      IntToStringInjective(t1.startIndex, t2.startIndex);
      CancelSuffix("End Index: " + IntToString(t1.endIndex), "End Index: " + IntToString(t2.endIndex), "]\n");
      CancelPrefix("End Index: ", IntToString(t1.endIndex), IntToString(t2.endIndex));
      IntToStringInjective(t1.endIndex, t2.endIndex);
    }
  }

  lemma NoTabInPrinted(x: int)
    ensures '\t' !in IntToString(x)
  {
    var s := IntToString(x);
    forall k | 0 <= k < |s| ensures s[k] != '\t' {
      if x < 0 && k > 0 {
        assert s[k] == NatToString(-x)[k - 1];
      }
    }
  }

  /** Every getter returns what the token was constructed with. */
  lemma GettersReturnConstructorArguments(text: string, t: TokenType, s: int, e: int)
    ensures Token(text, t, s, e).GetText() == text
    ensures Token(text, t, s, e).GetType() == t
    ensures Token(text, t, s, e).GetStartIndex() == s
    ensures Token(text, t, s, e).GetEndIndex() == e
    ensures Token(text, t, s, e).GetTypeString() == TypeString(t)
  {
  }
}
