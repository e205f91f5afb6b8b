/** The tokenizer of the expression language: `PeekChar` and
    `ParseExprToken`.  `Lex` specifies the token read from a position of
    the input; the methods read it into a dynamic buffer. */
module Tokens {
  import opened Errors
  import opened Chars
  import opened Values
  import opened DynBuf
  import opened Tables

  /** A token read from the input and the position just after it (blanks
      after an identifier included). */
  datatype Token = Token(text: string, next: nat)

  /** The first position at or after `i` that is not a blank (`isempty`). */
  function SkipBlanks(cfg: Config, s: string, i: nat): (j: nat)
    requires i <= |s|
    ensures i <= j <= |s|
    ensures At(s, j) == NUL || !cfg.isBlank(At(s, j))
    decreases |s| - i
  {
    if At(s, i) != NUL && cfg.isBlank(At(s, i)) then SkipBlanks(cfg, s, i + 1) else i
  }

  /** The characters that form a token on their own: `,` `]` `+` `-` `*`
      `/` `(` `)` `%`. */
  predicate SingleChar(c: char) {
    c == ',' || c == ']' || c == '+' || c == '-' || c == '*' || c == '/' ||
    c == '(' || c == ')' || c == '%'
  }

  /** The characters that continue an identifier or a literal. */
  predicate IdTail(cfg: Config, c: char) {
    IsId(c) || c == ':' || c == '.' || c == cfg.timeSep
  }

  /** The character a backslash escape stands for. */
  function Escape(c: char): (r: char)
    ensures c != NUL ==> r != NUL
  {
    match c
    case 'a' => '\U{7}'
    case 'b' => '\U{8}'
    case 'f' => '\U{C}'
    case 'n' => '\n'
    case 'r' => '\r'
    case 't' => '\t'
    case 'v' => '\U{B}'
    case _ => c
  }

  /** The end of the identifier run starting at `i`. */
  function IdEnd(cfg: Config, s: string, i: nat): (e: nat)
    requires i <= |s|
    ensures i <= e <= |s|
    ensures !IdTail(cfg, At(s, e))
    decreases |s| - i
  {
    if IdTail(cfg, At(s, i)) then IdEnd(cfg, s, i + 1) else i
  }

  /** The rest of a double-quoted string from `i`, `acc` holding what has
      been read: escapes are replaced, the closing quote ends the token,
      and the end of the input inside the string, or right after an
      escape, is E_MISS_QUOTE. */
  function QuotedString(s: string, i: nat, acc: string): (r: Result<Token>)
    requires i <= |s|
    ensures r.Ok? ==> i < r.value.next <= |s| && |r.value.text| > |acc|
    ensures r.Ok? ==> r.value.text[..|acc|] == acc && r.value.text[|r.value.text| - 1] == '"'
    ensures r.Err? ==> r.error == MissQuote
    decreases |s| - i
  {
    if At(s, i) == NUL then Err(MissQuote)
    else if s[i] == '\\' then
      if At(s, i + 1) == NUL || At(s, i + 2) == NUL then Err(MissQuote)
      else QuotedString(s, i + 2, acc + [Escape(s[i + 1])])
    else if s[i] == '"' then Ok(Token(acc + ['"'], i + 1))
    else QuotedString(s, i + 1, acc + [s[i]])
  }

  /** The rest of a single-quoted date from `i`: everything up to and
      including the closing quote; the end of the input first is
      E_MISS_QUOTE. */
  function QuotedDate(s: string, i: nat, acc: string): (r: Result<Token>)
    requires i <= |s|
    ensures r.Ok? ==> i < r.value.next <= |s| && |r.value.text| > |acc|
    ensures r.Ok? ==> r.value.text[..|acc|] == acc && r.value.text[|r.value.text| - 1] == '\''
    ensures r.Err? ==> r.error == MissQuote
    decreases |s| - i
  {
    if At(s, i) == NUL then Err(MissQuote)
    else if s[i] == '\'' then Ok(Token(acc + ['\''], i + 1))
    else QuotedDate(s, i + 1, acc + [s[i]])
  }

  /** The token `ParseExprToken` reads from position `i`.  The empty token
      means the end of the input. */
  function Lex(cfg: Config, s: string, i: nat): (r: Result<Token>)
    requires i <= |s|
    ensures r.Ok? ==> i <= r.value.next <= |s|
    ensures r.Ok? && r.value.text != [] ==> i < r.value.next
    ensures r.Ok? && r.value.text != [] && r.value.text[0] == '"' ==> |r.value.text| >= 2
    ensures r.Err? ==> r.error == MissQuote || r.error == IllegalChar
    ensures r.Ok? && |r.value.text| == 1 && SingleChar(r.value.text[0]) ==>
      0 < r.value.next <= |s| && s[r.value.next - 1] == r.value.text[0]
    ensures r.Ok? && r.value.text != [] && SingleChar(r.value.text[0]) ==> |r.value.text| == 1
    ensures r.Ok? ==> (r.value.text == [] <==> At(s, SkipBlanks(cfg, s, i)) == NUL)
    ensures r.Ok? && r.value.text == [] ==> At(s, r.value.next) == NUL
  {
    LexAt(cfg, s, SkipBlanks(cfg, s, i))
  }

  /** The token that starts at `j`, a position that is not a blank. */
  function LexAt(cfg: Config, s: string, j: nat): (r: Result<Token>)
    requires j <= |s|
    ensures r.Ok? ==> j <= r.value.next <= |s|
    ensures r.Ok? && r.value.text != [] ==> j < r.value.next
    ensures r.Ok? && r.value.text != [] && r.value.text[0] == '"' ==> |r.value.text| >= 2
    ensures r.Err? ==> r.error == MissQuote || r.error == IllegalChar
    ensures r.Ok? && |r.value.text| == 1 && SingleChar(r.value.text[0]) ==>
      0 < r.value.next <= |s| && s[r.value.next - 1] == r.value.text[0]
    ensures r.Ok? && r.value.text != [] && SingleChar(r.value.text[0]) ==> |r.value.text| == 1
    ensures r.Ok? ==> (r.value.text == [] <==> At(s, j) == NUL)
    ensures r.Ok? && r.value.text == [] ==> At(s, r.value.next) == NUL
  {
    if At(s, j) == NUL then Ok(Token([], j))
    else if OperatorStart(s[j]) then Ok(OperatorToken(s, j))
    else LiteralToken(cfg, s, j)
  }

  /** The characters the `switch` of `ParseExprToken` handles. */
  predicate OperatorStart(c: char) {
    SingleChar(c) || c == '&' || c == '|' || c == '=' || c == '!' || c == '>' || c == '<'
  }

  /** An operator or punctuation token: one character, or two for `&&`,
      `||`, `==`, `!=`, `>=` and `<=`. */
  function OperatorToken(s: string, j: nat): (t: Token)
    requires j < |s| && OperatorStart(s[j])
    ensures j < t.next <= |s| && 1 <= |t.text| <= 2 && t.text[0] == s[j]
    ensures |t.text| == 1 ==> t.next == j + 1
    ensures SingleChar(s[j]) ==> |t.text| == 1
  {
    var c := s[j];
    if SingleChar(c) then Token([c], j + 1)
    else if c == '&' || c == '|' || c == '=' then
      if At(s, j + 1) == c then Token([c, c], j + 2) else Token([c], j + 1)
    else
      if At(s, j + 1) == '=' then Token([c, '='], j + 2) else Token([c], j + 1)
  }

  /** A string, a date, or an identifier, constant or function name. */
  function LiteralToken(cfg: Config, s: string, j: nat): (r: Result<Token>)
    requires j < |s| && s[j] != NUL && !OperatorStart(s[j])
    ensures r.Ok? ==> j < r.value.next <= |s| && r.value.text != [] && !SingleChar(r.value.text[0])
    ensures r.Ok? && r.value.text[0] == '"' ==> |r.value.text| >= 2
    ensures r.Err? ==> r.error == MissQuote || r.error == IllegalChar
  {
    var c := s[j];
    if c == '"' then QuotedString(s, j + 1, ['"'])
    else if c == '\'' then QuotedDate(s, j + 1, ['\''])
    else if !IsId(c) && c != '$' then Err(IllegalChar)
    else
      var e := IdEnd(cfg, s, j + 1);
      var w := SkipBlanks(cfg, s, e);
      assert s[j..e][0] == c;
      if At(s, w) == '(' then Ok(Token(s[j..e] + ['('], w + 1)) else Ok(Token(s[j..e], w))
  }

  /** One step of `QuotedString`: an escape. */
  lemma QuotedEscape(s: string, k: nat, acc: string)
    requires k < |s| && s[k] == '\\'
    ensures At(s, k + 1) == NUL || At(s, k + 2) == NUL ==> QuotedString(s, k, acc) == Err(MissQuote)
    ensures At(s, k + 1) != NUL && At(s, k + 2) != NUL ==>
      QuotedString(s, k, acc) == QuotedString(s, k + 2, acc + [Escape(s[k + 1])])
  {
  }

  /** One step of `QuotedString`: a plain character or the closing quote. */
  lemma QuotedPlain(s: string, k: nat, acc: string)
    requires k < |s| && s[k] != '\\' && s[k] != NUL
    ensures s[k] == '"' ==> QuotedString(s, k, acc) == Ok(Token(acc + ['"'], k + 1))
    ensures s[k] != '"' ==> QuotedString(s, k, acc) == QuotedString(s, k + 1, acc + [s[k]])
  {
  }

  /** One step of `QuotedDate`. */
  lemma QuotedDateStep(s: string, k: nat, acc: string)
    requires k < |s| && s[k] != NUL
    ensures s[k] == '\'' ==> QuotedDate(s, k, acc) == Ok(Token(acc + ['\''], k + 1))
    ensures s[k] != '\'' ==> QuotedDate(s, k, acc) == QuotedDate(s, k + 1, acc + [s[k]])
  {
  }

  /** `PeekChar`: the next character that is not a blank, NUL at the end. */
  method PeekChar(cfg: Config, s: string, i: nat) returns (c: char)
    requires i <= |s|
    ensures c == At(s, SkipBlanks(cfg, s, i))
  {
    var t := i;
    while At(s, t) != NUL && cfg.isBlank(At(s, t))
      invariant i <= t <= |s| && SkipBlanks(cfg, s, t) == SkipBlanks(cfg, s, i)
      decreases |s| - t
    {
      t := t + 1;
    }
    c := At(s, t);
  }

  /** The blank-skipping loop of `ParseExprToken`. */
  method SkipBlankRun(cfg: Config, s: string, i: nat) returns (j: nat)
    requires i <= |s|
    ensures j == SkipBlanks(cfg, s, i)
  {
    j := i;
    while At(s, j) != NUL && cfg.isBlank(At(s, j))
      invariant i <= j <= |s| && SkipBlanks(cfg, s, j) == SkipBlanks(cfg, s, i)
      decreases |s| - j
    {
      j := j + 1;
    }
  }

  /** What the methods promise about the buffer: a successful read leaves
      the token in it and returns the position after the token; a failure
      other than E_NO_MEM is the error `expected` gives. */
  ghost predicate ReadAs(expected: Result<Token>, r: Outcome, contents: string, next: nat) {
    (r == Pass ==> expected == Ok(Token(contents, next))) &&
    (r.Fail? && r.error != NoMem ==> expected == Err(r.error))
  }

  /** The string loop of `ParseExprToken`, from just after the opening
      quote. */
  method ReadQuotedString(buf: DynamicBuffer, s: string, i: nat) returns (r: Outcome, next: nat)
    requires buf.Valid() && 0 < i <= |s| && At(s, i) != NUL
    modifies buf.Repr
    ensures buf.Valid() && fresh(buf.Repr - old(buf.Repr))
    ensures ReadAs(QuotedString(s, i, old(buf.Contents())), r, buf.Contents(), next)
  {
    ghost var spec := QuotedString(s, i, buf.Contents());
    var k := i;
    var c := '"';
    while At(s, k) != NUL
      invariant buf.Valid() && fresh(buf.Repr - old(buf.Repr))
      invariant i <= k <= |s|
      invariant QuotedString(s, k, buf.Contents()) == spec
      invariant c == '"' ==> At(s, k) != NUL
      decreases |s| - k
    {
      ghost var acc := buf.Contents();
      if s[k] == '\\' {
        QuotedEscape(s, k, acc);
        k := k + 1;
        if At(s, k) == NUL {
          buf.Free();
          return Fail(MissQuote), k;
        }
        var rr := buf.Putc(Escape(s[k]));
        k := k + 1;
        if rr != Pass {
          buf.Free();
          return Fail(NoMem), k;
        }
        if At(s, k) == NUL {
          buf.Free();
          return Fail(MissQuote), k;
        }
        continue;
      }
      QuotedPlain(s, k, acc);
      c := s[k];
      k := k + 1;
      var rr := buf.Putc(c);
      if rr != Pass {
        buf.Free();
        return Fail(NoMem), k;
      }
      if c == '"' {
        break;
      }
    }
    if c == '"' {
      return Pass, k;
    }
    buf.Free();
    return Fail(MissQuote), k;
  }

  /** The date loop of `ParseExprToken`, from just after the opening
      quote. */
  method ReadQuotedDate(buf: DynamicBuffer, s: string, i: nat) returns (r: Outcome, next: nat)
    requires buf.Valid() && 0 < i <= |s| && At(s, i) != NUL
    modifies buf.Repr
    ensures buf.Valid() && fresh(buf.Repr - old(buf.Repr))
    ensures ReadAs(QuotedDate(s, i, old(buf.Contents())), r, buf.Contents(), next)
  {
    ghost var spec := QuotedDate(s, i, buf.Contents());
    var k := i;
    var c := '\'';
    while At(s, k) != NUL
      invariant buf.Valid() && fresh(buf.Repr - old(buf.Repr))
      invariant i <= k <= |s|
      invariant QuotedDate(s, k, buf.Contents()) == spec
      invariant c == '\'' ==> At(s, k) != NUL
      decreases |s| - k
    {
      QuotedDateStep(s, k, buf.Contents());
      c := s[k];
      k := k + 1;
      var rr := buf.Putc(c);
      if rr != Pass {
        buf.Free();
        return Fail(NoMem), k;
      }
      if c == '\'' {
        break;
      }
    }
    if c == '\'' {
      return Pass, k;
    }
    buf.Free();
    return Fail(MissQuote), k;
  }

  /** The identifier part of `ParseExprToken`: the run of identifier
      characters after the first one, the blanks after it, and a `(` that
      makes the token a function call. */
  method ReadIdentifier(buf: DynamicBuffer, cfg: Config, s: string, j: nat) returns (r: Outcome, next: nat)
    requires buf.Valid() && j < |s| && buf.Contents() == [s[j]]
    modifies buf.Repr
    ensures buf.Valid() && fresh(buf.Repr - old(buf.Repr))
    ensures r == Pass ==> (var e := IdEnd(cfg, s, j + 1); var w := SkipBlanks(cfg, s, e);
      if At(s, w) == '(' then buf.Contents() == s[j..e] + ['('] && next == w + 1
      else buf.Contents() == s[j..e] && next == w)
    ensures r != Pass ==> r == Fail(NoMem)
  {
    var k := j + 1;
    while IdTail(cfg, At(s, k))
      invariant buf.Valid() && fresh(buf.Repr - old(buf.Repr))
      invariant j < k <= |s| && IdEnd(cfg, s, k) == IdEnd(cfg, s, j + 1)
      invariant buf.Contents() == s[j..k]
      decreases |s| - k
    {
      var rr := buf.Putc(s[k]);
      if rr != Pass {
        buf.Free();
        return Fail(NoMem), k;
      }
      assert s[j..k + 1] == s[j..k] + [s[k]];
      k := k + 1;
    }
    k := SkipBlankRun(cfg, s, k);
    if At(s, k) == '(' {
      var rr := buf.Putc('(');
      if rr != Pass {
        buf.Free();
        return Fail(NoMem), k;
      }
      k := k + 1;
    }
    return Pass, k;
  }

  /** The `switch` of `ParseExprToken`: the operator character is already
      in the buffer, and a second character may join it. */
  method ReadOperator(buf: DynamicBuffer, s: string, j: nat) returns (r: Outcome, next: nat)
    requires buf.Valid() && j < |s| && OperatorStart(s[j]) && buf.Contents() == [s[j]]
    modifies buf.Repr
    ensures buf.Valid() && fresh(buf.Repr - old(buf.Repr))
    ensures r == Pass && OperatorToken(s, j) == Token(buf.Contents(), next)
  {
    var c := s[j];
    var k := j + 1;
    if SingleChar(c) {
      return Pass, k;
    }
    if c == '&' || c == '|' || c == '=' {
      if At(s, k) == c {
        var rr := buf.Putc(c);
        if rr != Pass {
          // a second character always fits in the static area
          assert false;
        }
        k := k + 1;
      }
      return Pass, k;
    }
    if At(s, k) == '=' {
      var rr := buf.Putc('=');
      if rr != Pass {
        // a second character always fits in the static area
        assert false;
      }
      k := k + 1;
    }
    return Pass, k;
  }

  /** The rest of `ParseExprToken`: strings, dates and identifiers, the
      first character already in the buffer. */
  method ReadLiteral(buf: DynamicBuffer, cfg: Config, s: string, j: nat) returns (r: Outcome, next: nat)
    requires buf.Valid() && j < |s| && s[j] != NUL && !OperatorStart(s[j]) && buf.Contents() == [s[j]]
    modifies buf.Repr
    ensures buf.Valid() && fresh(buf.Repr - old(buf.Repr))
    ensures ReadAs(LiteralToken(cfg, s, j), r, buf.Contents(), next)
  {
    var c := s[j];
    var k := j + 1;
    if c == '"' {
      if At(s, k) == NUL {
        return Fail(MissQuote), k;
      }
      r, next := ReadQuotedString(buf, s, k);
      return;
    }
    if c == '\'' {
      if At(s, k) == NUL {
        return Fail(MissQuote), k;
      }
      r, next := ReadQuotedDate(buf, s, k);
      return;
    }
    if !IsId(c) && c != '$' {
      return Fail(IllegalChar), k;
    }
    r, next := ReadIdentifier(buf, cfg, s, j);
  }

  /** `ParseExprToken`: reads the token at position `i` into the buffer and
      returns the position after it.  Apart from E_NO_MEM, the outcome is
      the one `Lex` specifies. */
  method ParseExprToken(buf: DynamicBuffer, cfg: Config, s: string, i: nat) returns (r: Outcome, next: nat)
    requires buf.Valid() && i <= |s|
    modifies buf.Repr
    ensures buf.Valid() && fresh(buf.Repr - old(buf.Repr))
    ensures ReadAs(Lex(cfg, s, i), r, buf.Contents(), next)
  {
    buf.Free();
    var k := SkipBlankRun(cfg, s, i);
    if At(s, k) == NUL {
      return Pass, k;
    }
    var c := s[k];
    k := k + 1;
    var rr := buf.Putc(c);
    if rr != Pass {
      // the first character always fits in the freed buffer
      assert false;
    }
    assert buf.Contents() == [c];
    assert Lex(cfg, s, i) == LexAt(cfg, s, k - 1);
    if OperatorStart(c) {
      r, next := ReadOperator(buf, s, k - 1);
      return;
    }
    assert LexAt(cfg, s, k - 1) == LiteralToken(cfg, s, k - 1);
    r, next := ReadLiteral(buf, cfg, s, k - 1);
  }
  /** The spelling of an operator token: one operator character, or a
      doubled `&`, `|`, `=`, or `!`, `>`, `<` followed by `=`. */
  predicate OperatorSpelling(name: string) {
    (|name| == 1 && OperatorStart(name[0])) ||
    (|name| == 2 && (name[0] == '&' || name[0] == '|' || name[0] == '=') && name[1] == name[0]) ||
    (|name| == 2 && (name[0] == '!' || name[0] == '>' || name[0] == '<') && name[1] == '=')
  }

  /** An operator spelling, alone or before a blank, reads back as itself. */
  lemma OperatorSpellingLex(cfg: Config, name: string, rest: string)
    requires OperatorSpelling(name) && !cfg.isBlank(name[0])
    requires rest == [] || (cfg.isBlank(rest[0]) && !OperatorStart(rest[0]))
    ensures Lex(cfg, name + rest, 0) == Ok(Token(name, |name|))
  {
    var s := name + rest;
    assert s[0] == name[0];
    assert At(s, |name|) == NUL || cfg.isBlank(At(s, |name|));
    if |name| == 2 {
      assert At(s, 1) == name[1];
      assert [name[0], name[1]] == name;
    } else {
      assert [name[0]] == name;
    }
  }

  /** Every binary operator of `BinOp`, written alone or before a blank,
      reads back as the token with its own name. */
  lemma BinaryOperatorsLex(cfg: Config, o: Operator, rest: string)
    requires o in BinOps && !cfg.isBlank(o.name[0])
    requires rest == [] || (cfg.isBlank(rest[0]) && !OperatorStart(rest[0]))
    ensures Lex(cfg, o.name + rest, 0) == Ok(Token(o.name, |o.name|))
  {
    BinOpSpelling(o);
    OperatorSpellingLex(cfg, o.name, rest);
  }

  lemma BinOpSpelling(o: Operator)
    requires o in BinOps
    ensures OperatorSpelling(o.name)
  {
    var k :| 0 <= k < |BinOps| && BinOps[k] == o;
    if k < 7 {
      assert OperatorSpelling(BinOps[k].name) by {
        assert BinOps[k].name in {"!=", "%", "&&", "*", "+", "-", "/"};
      }
    } else {
      assert OperatorSpelling(BinOps[k].name) by {
        assert BinOps[k].name in {"<", "<=", "==", ">", ">=", "||"};
      }
    }
  }

  /** Every unary operator of `UnOp`, written before a value that does not
      start with `=`, reads back as the token with its own name. */
  lemma UnaryOperatorsLex(cfg: Config, o: Operator, rest: string)
    requires o in UnOps && !cfg.isBlank(o.name[0])
    requires rest == [] || rest[0] != '='
    ensures Lex(cfg, o.name + rest, 0) == Ok(Token(o.name, 1))
  {
    var s := o.name + rest;
    assert |o.name| == 1;
    assert At(s, 1) == At(rest, 0);
  }

  /** A string without quotes, backslashes or NULs, between double quotes,
      reads as the whole quoted text. */
  lemma {:induction false} PlainStringLex(s: string, i: nat, acc: string, x: string)
    requires i + |x| < |s| && s[i..i + |x|] == x && s[i + |x|] == '"'
    requires forall k :: 0 <= k < |x| ==> x[k] != '"' && x[k] != '\\' && x[k] != NUL
    ensures QuotedString(s, i, acc) == Ok(Token(acc + x + ['"'], i + |x| + 1))
    decreases |x|
  {
    if x == [] {
      QuotedPlain(s, i, acc);
      assert acc + x == acc;
    } else {
      assert s[i] == x[0];
      QuotedPlain(s, i, acc);
      assert s[i + 1..i + 1 + |x[1..]|] == x[1..];
      PlainStringLex(s, i + 1, acc + [x[0]], x[1..]);
      assert acc + [x[0]] + x[1..] == acc + x;
    }
  }

  /** A double-quoted string without escapes is read as one token. */
  lemma QuotedStringToken(cfg: Config, x: string, rest: string)
    requires !cfg.isBlank('"')
    requires forall k :: 0 <= k < |x| ==> x[k] != '"' && x[k] != '\\' && x[k] != NUL
    ensures Lex(cfg, ['"'] + x + ['"'] + rest, 0) == Ok(Token(['"'] + x + ['"'], |x| + 2))
  {
    var s := ['"'] + x + ['"'] + rest;
    assert s[1..1 + |x|] == x;
    assert s[1 + |x|] == '"';
    PlainStringLex(s, 1, ['"'], x);
  }

  /** Without a closing quote, or with a backslash last, a string is
      E_MISS_QUOTE. */
  lemma {:induction false} UnterminatedString(s: string, i: nat, acc: string)
    requires i <= |s| && NulFree(s)
    requires forall k :: i <= k < |s| ==> s[k] != '"'
    ensures QuotedString(s, i, acc) == Err(MissQuote)
    decreases |s| - i
  {
    if i < |s| {
      if s[i] == '\\' {
        if At(s, i + 1) != NUL && At(s, i + 2) != NUL {
          UnterminatedString(s, i + 2, acc + [Escape(s[i + 1])]);
        }
      } else {
        UnterminatedString(s, i + 1, acc + [s[i]]);
      }
    }
  }

  /** The run of identifier characters ends where the first other
      character is. */
  lemma {:induction false} IdEndAt(cfg: Config, s: string, i: nat, e: nat)
    requires i <= e <= |s| && !IdTail(cfg, At(s, e))
    requires forall k :: i <= k < e ==> IdTail(cfg, s[k])
    ensures IdEnd(cfg, s, i) == e
    decreases e - i
  {
    if i < e {
      IdEndAt(cfg, s, i + 1, e);
    }
  }

  /** A name followed by `(` is read as a function-call token, the name
      with the parenthesis; a name followed by anything else that is
      neither blank nor part of a name is read as itself. */
  lemma IdentifierToken(cfg: Config, name: string, rest: string)
    requires |name| > 0 && (IsId(name[0]) || name[0] == '$') && !cfg.isBlank(name[0])
    requires forall k :: 0 < k < |name| ==> IdTail(cfg, name[k])
    requires rest == [] || (!IdTail(cfg, rest[0]) && !cfg.isBlank(rest[0]) && rest[0] != NUL)
    ensures rest != [] && rest[0] == '(' ==> Lex(cfg, name + rest, 0) == Ok(Token(name + "(", |name| + 1))
    ensures (rest == [] || rest[0] != '(') ==> Lex(cfg, name + rest, 0) == Ok(Token(name, |name|))
  {
    var s := name + rest;
    assert s[0] == name[0];
    assert IsId(name[0]) ==> !OperatorStart(name[0]);
    assert At(s, |name|) == At(rest, 0);
    IdEndAt(cfg, s, 1, |name|);
    assert s[0..|name|] == name;
  }
}
