/**
 * Token kinds and tokens of the language front end (`Scanner.TokenType` and
 * `Scanner.Token`). The constructor names are the Java enum constants.
 */
module Tokens {

  import opened Wrappers

  datatype TokenType =
    | EOF | ID | COMMA | INT | LPAREN | RPAREN | LSQUARE | RSQUARE | LCURLY | RCURLY
    | STRING | CHOICE | MINUS | ASTERISK | DIVIDE | ASSIGN | PLUS | SEQUENCE
    | IF | ELSE | LANGLE | RANGLE | AT | LINKIN | LINKOUT | IN | OUT | EQUAL
    | AND | OR | PARALLEL | NOT | COLON | OP_OW | OP_RR | OP_N | OP_SR
    | LOCATIONS | OPERATIONS | VARIABLES | MAIN | DEFINE
    | MAJOR_OR_EQUAL | MINOR_OR_EQUAL | NOT_EQUAL | LINKS | NULL_PROCESS
    | WHILE | SLEEP | VAR_TYPE_VARIANT | VAR_TYPE_INT | VAR_TYPE_STRING | CSET
    | PERSISTENT | NOT_PERSISTENT | CONCURRENT | SEQUENTIAL | STATE | EXECUTION
    | THROW | INSTALL_FAULT_HANDLER | INSTALL_COMPENSATION | SCOPE | COMPENSATE
    | ERROR
      /** Layout token of the newer scanner that the parser is written against;
          the scanner modelled here never produces it. */
    | NEWLINE

  /** A token: its kind and its text (empty for kinds with a fixed spelling). */
  datatype Token = Token(ttype: TokenType, content: string)
  {
    predicate IsEOF() { ttype == EOF }
    predicate Is(t: TokenType) { ttype == t }
    predicate IsNot(t: TokenType) { ttype != t }
  }

  /** `new Token(type)`: the constructor that leaves the content empty. */
  function Simple(t: TokenType): Token
  {
    Token(t, "")
  }

  /** The scanner's keyword table: the kind a complete identifier text maps to, if any. */
  function Keyword(w: string): (r: Option<TokenType>)
    ensures r.Some? ==> r.value != ID && r.value != NEWLINE && r.value != EOF
  {
    if w == "OneWay" then Some(OP_OW)
    else if w == "RequestResponse" then Some(OP_RR)
    else if w == "Notification" then Some(OP_N)
    else if w == "SolicitResponse" then Some(OP_SR)
    else if w == "linkIn" then Some(LINKIN)
    else if w == "linkOut" then Some(LINKOUT)
    else if w == "if" then Some(IF)
    else if w == "else" then Some(ELSE)
    else if w == "in" then Some(IN)
    else if w == "out" then Some(OUT)
    else if w == "and" then Some(AND)
    else if w == "or" then Some(OR)
    else if w == "locations" then Some(LOCATIONS)
    else if w == "operations" then Some(OPERATIONS)
    else if w == "variables" then Some(VARIABLES)
    else if w == "main" then Some(MAIN)
    else if w == "define" then Some(DEFINE)
    else if w == "links" then Some(LINKS)
    else if w == "nullProcess" then Some(NULL_PROCESS)
    else if w == "while" then Some(WHILE)
    else if w == "sleep" then Some(SLEEP)
    else if w == "int" then Some(VAR_TYPE_INT)
    else if w == "string" then Some(VAR_TYPE_STRING)
    else if w == "variant" then Some(VAR_TYPE_VARIANT)
    else if w == "cset" then Some(CSET)
    else if w == "persistent" then Some(PERSISTENT)
    else if w == "not_persistent" then Some(NOT_PERSISTENT)
    else if w == "concurrent" then Some(CONCURRENT)
    else if w == "sequential" then Some(SEQUENTIAL)
    else if w == "state" then Some(STATE)
    else if w == "execution" then Some(EXECUTION)
    else if w == "installFH" then Some(INSTALL_FAULT_HANDLER)
    else if w == "installComp" then Some(INSTALL_COMPENSATION)
    else if w == "throw" then Some(THROW)
    else if w == "scope" then Some(SCOPE)
    else if w == "comp" then Some(COMPENSATE)
    else None
  }

  /** What the identifier state emits for the accumulated text `w`. */
  function KeywordOrId(w: string): (r: Token)
    ensures r.ttype != NEWLINE && r.ttype != EOF
  {
    match Keyword(w)
    case Some(k) => Simple(k)
    case None => Token(ID, w)
  }
}
