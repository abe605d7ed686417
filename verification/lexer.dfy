/**
 * The tokenizer (src/lexer.c, src/lexer.h): a per-byte state machine over a
 * TokenizerContext that turns chunks of the input stream into classified
 * tokens.
 *
 * `StepChar` states what one byte does to the context, `RunChars` what a
 * chunk does and `RunChunks`/`LexOutcome` what the whole stream does. The
 * class `Tokenizer` keeps the context's fields, with the pending-token buffer
 * as a 64-byte array, and its methods are proved to follow those functions.
 */
module Lexer {
  import opened KasmTypes
  import opened Classifier

  // ---------------------------------------------------------------------------
  // The context as a value

  /** The tokenizer context: the pending token (the first tokenBufferLength
      bytes of the buffer), the line, the column, the column at which the
      pending token started, the comment flag, the emitted tokens and the
      token that failed to classify, if any. */
  datatype LexState = LexState(
    pending: seq<char>,
    line: nat,
    position: nat,
    tokenPosition: nat,
    inComment: bool,
    tokens: seq<Token>,
    errToken: Option<Token>)

  /** A zero-initialised context appending to `tokens`. */
  function Start(tokens: seq<Token>): LexState
  {
    LexState([], 0, 0, 0, false, tokens, None)
  }

  /** A byte with no case of its own in the switch of tokenize_buffer. */
  predicate IsPlain(c: char)
  {
    c != ';' && c != '\t' && c != ' ' && c != '\n' && c != ','
  }

  /** parse_token: classify the pending token and append it, or record it as
      the error token and leave the buffer as it is. */
  function Flush(s: LexState): (LexState, LexerResult)
    requires |s.pending| > 0
  {
    var token := Token(Unknown, s.pending, s.line, s.tokenPosition);
    match ParseTokenType(s.pending)
    case None => (s.(errToken := Some(token)), TokenUnknown)
    case Some(k) => (s.(tokens := s.tokens + [token.(kind := k)], pending := []), LexOk)
  }

  /** The end-of-line token at the current line and column, then column 0 of
      the next line. */
  function EndLine(s: LexState): (LexState, LexerResult)
  {
    (s.(tokens := s.tokens + [EolToken(s.line, s.position)],
        line := s.line + 1, position := 0, tokenPosition := 0), LexOk)
  }

  /** The comma token at the current column; the next token starts after it. */
  function AppendComma(s: LexState): (LexState, LexerResult)
  {
    (s.(tokens := s.tokens + [CommaToken(s.line, s.position)],
        tokenPosition := s.position + 1, position := s.position + 1), LexOk)
  }

  /** ';': start a comment, then flush the pending token. */
  function OnSemicolon(s: LexState): (LexState, LexerResult)
  {
    var s1 := s.(inComment := true);
    if |s1.pending| == 0 then (s1, LexOk) else Flush(s1)
  }

  /** ' ' and '\t': flush the pending token and step past the blank. */
  function OnBlank(s: LexState): (LexState, LexerResult)
  {
    if |s.pending| == 0 then (s, LexOk)
    else
      var f := Flush(s);
      if f.1 != LexOk then f
      else (f.0.(position := f.0.position + 1, tokenPosition := f.0.position + 1), LexOk)
  }

  /** '\n': end a comment or flush the pending token, then end the line. A
      failing flush lands in a shadowing local, so lexing goes on without an
      end of line. */
  function OnNewline(s: LexState): (LexState, LexerResult)
  {
    if s.inComment then EndLine(s.(inComment := false))
    else if |s.pending| == 0 then EndLine(s)
    else
      var f := Flush(s);
      if f.1 != LexOk then (f.0, LexOk) else EndLine(f.0)
  }

  /** ',': flush the pending token, then emit the comma, inside a comment too. */
  function OnComma(s: LexState): (LexState, LexerResult)
  {
    if |s.pending| == 0 then AppendComma(s)
    else
      var f := Flush(s);
      if f.1 != LexOk then f else AppendComma(f.0)
  }

  /** Any other byte: dropped inside a comment, else appended to the pending
      token unless that would leave no room for the terminating NUL. */
  function OnOther(s: LexState, c: char): (LexState, LexerResult)
  {
    if s.inComment then (s, LexOk)
    else if |s.pending| + 1 >= TOKEN_BUFFER_SIZE then (s, TokenOverflow)
    else (s.(pending := s.pending + [c], position := s.position + 1), LexOk)
  }

  /** One iteration of the loop of tokenize_buffer on byte `c`. */
  function StepChar(s: LexState, c: char): (LexState, LexerResult)
  {
    if c == ';' then OnSemicolon(s)
    else if c == '\t' || c == ' ' then OnBlank(s)
    else if c == '\n' then OnNewline(s)
    else if c == ',' then OnComma(s)
    else OnOther(s, c)
  }

  /** tokenize_buffer: the bytes in order, stopping at the first failure. */
  function RunChars(s: LexState, cs: seq<char>): (LexState, LexerResult)
    decreases |cs|
  {
    if cs == [] then (s, LexOk)
    else
      var p := StepChar(s, cs[0]);
      if p.1 != LexOk then p else RunChars(p.0, cs[1..])
  }

  /** The bytes of a chunk tokenize_buffer sees: the read count is stored in a
      uint8_t, so only the first |chunk| mod 256 bytes. */
  function Processed(chunk: seq<char>): seq<char>
  {
    chunk[..|chunk| % 256]
  }

  /** The loop of lex over the chunks the stream delivers, with one context
      kept across chunks, stopping at the first failure. */
  function RunChunks(s: LexState, chunks: seq<seq<char>>): (LexState, LexerResult)
    decreases |chunks|
  {
    if chunks == [] then (s, LexOk)
    else
      var p := RunChars(s, Processed(chunks[0]));
      if p.1 != LexOk then p else RunChunks(p.0, chunks[1..])
  }

  /** lex: the result and the token list after the stream delivered the
      non-empty reads `chunks` and then ended, with a read error when `readError`. A token still pending
      at the end is not emitted. */
  function LexOutcome(tokens: seq<Token>, chunks: seq<seq<char>>, readError: bool): (LexerResult, seq<Token>)
  {
    var p := RunChunks(Start(tokens), chunks);
    if p.1 != LexOk then (p.1, p.0.tokens)
    else if readError then (StreamError, p.0.tokens)
    else (LexOk, p.0.tokens)
  }

  // ---------------------------------------------------------------------------
  // The context as an object

  class Tokenizer {
    const tokenBuffer: array<char>
    var tokenBufferLength: nat
    var line: nat
    var position: nat
    var tokenPosition: nat
    var inComment: bool
    var tokens: seq<Token>
    var errToken: Option<Token>

    /** The buffer holds at most 63 bytes and is zero beyond them. */
    ghost predicate Valid()
      reads this, tokenBuffer
    {
      && tokenBuffer.Length == TOKEN_BUFFER_SIZE
      && tokenBufferLength < TOKEN_BUFFER_SIZE
      && forall i :: tokenBufferLength <= i < TOKEN_BUFFER_SIZE ==> tokenBuffer[i] == '\0'
    }

    ghost function State(): LexState
      reads this, tokenBuffer
      requires Valid()
    {
      LexState(tokenBuffer[..tokenBufferLength], line, position, tokenPosition, inComment, tokens, errToken)
    }

    /** `TokenizerContext context = { 0 }` with the caller's token list. */
    constructor (tokens: seq<Token>)
      ensures Valid() && fresh(tokenBuffer)
      ensures State() == Start(tokens)
    {
      tokenBuffer := new char[TOKEN_BUFFER_SIZE](_ => '\0');
      tokenBufferLength := 0;
      line, position, tokenPosition := 0, 0, 0;
      inComment := false;
      this.tokens := tokens;
      errToken := None;
    }

    /** parse_token */
    method ParseToken() returns (r: LexerResult)
      requires Valid() && tokenBufferLength > 0
      modifies this, tokenBuffer
      ensures Valid()
      ensures (State(), r) == Flush(old(State()))
    {
      var text := tokenBuffer[..tokenBufferLength];
      var token := Token(Unknown, text, line, tokenPosition);
      var kind := ParseTokenType(text);
      if kind.None? {
        errToken := Some(token);
        return TokenUnknown;
      }
      tokens := tokens + [token.(kind := kind.value)];
      forall i | 0 <= i < tokenBuffer.Length {
        tokenBuffer[i] := '\0';
      }
      tokenBufferLength := 0;
      r := LexOk;
    }

    /** The body of the loop of tokenize_buffer for byte `c`: the switch. */
    method TokenizeChar(c: char) returns (r: LexerResult)
      requires Valid()
      modifies this, tokenBuffer
      ensures Valid()
      ensures (State(), r) == StepChar(old(State()), c)
    {
      if c == ';' {
        r := HandleSemicolon();
      } else if c == '\t' || c == ' ' {
        r := HandleBlank();
      } else if c == '\n' {
        r := HandleNewline();
      } else if c == ',' {
        r := HandleComma();
      } else {
        r := HandleOther(c);
      }
    }

    method HandleSemicolon() returns (r: LexerResult)
      requires Valid()
      modifies this, tokenBuffer
      ensures Valid()
      ensures (State(), r) == OnSemicolon(old(State()))
    {
      inComment := true;
      if tokenBufferLength == 0 {
        return LexOk;
      }
      r := ParseToken();
    }

    method HandleBlank() returns (r: LexerResult)
      requires Valid()
      modifies this, tokenBuffer
      ensures Valid()
      ensures (State(), r) == OnBlank(old(State()))
    {
      if tokenBufferLength == 0 {
        return LexOk;
      }
      r := ParseToken();
      if r != LexOk {
        return;
      }
      StepPastBlank();
    }

    /** The tail of the blank case: the column, and the start of the next
        token, move past the blank. */
    method StepPastBlank()
      requires Valid()
      modifies this
      ensures Valid()
      ensures State() == old(State()).(position := old(position) + 1, tokenPosition := old(position) + 1)
    {
      position := position + 1;
      tokenPosition := position;
    }

    method HandleNewline() returns (r: LexerResult)
      requires Valid()
      modifies this, tokenBuffer
      ensures Valid()
      ensures (State(), r) == OnNewline(old(State()))
    {
      r := LexOk;
      if inComment {
        inComment := false;
      } else if tokenBufferLength > 0 {
        var flushed := ParseToken();
        if flushed != LexOk {
          return;
        }
      }
      AppendEol();
    }

    /** The tail of the newline case: the EOL token, then the next line. */
    method AppendEol()
      requires Valid()
      modifies this
      ensures Valid()
      ensures (State(), LexOk) == EndLine(old(State()))
    {
      tokens := tokens + [EolToken(line, position)];
      line := line + 1;
      position := 0;
      tokenPosition := 0;
    }

    method HandleComma() returns (r: LexerResult)
      requires Valid()
      modifies this, tokenBuffer
      ensures Valid()
      ensures (State(), r) == OnComma(old(State()))
    {
      r := LexOk;
      if tokenBufferLength > 0 {
        r := ParseToken();
        if r != LexOk {
          return;
        }
      }
      AppendCommaToken();
    }

    /** The tail of the comma case: the comma token, then the column after it. */
    method AppendCommaToken()
      requires Valid()
      modifies this
      ensures Valid()
      ensures (State(), LexOk) == AppendComma(old(State()))
    {
      tokens := tokens + [CommaToken(line, position)];
      tokenPosition := position + 1;
      position := position + 1;
    }

    method HandleOther(c: char) returns (r: LexerResult)
      requires Valid()
      modifies this, tokenBuffer
      ensures Valid()
      ensures (State(), r) == OnOther(old(State()), c)
    {
      if inComment {
        return LexOk;
      }
      if tokenBufferLength + 1 >= TOKEN_BUFFER_SIZE {
        return TokenOverflow;
      }
      tokenBuffer[tokenBufferLength] := c;
      tokenBufferLength := tokenBufferLength + 1;
      position := position + 1;
      assert tokenBuffer[..tokenBufferLength] == old(tokenBuffer[..tokenBufferLength]) + [c];
      r := LexOk;
    }

    /** tokenize_buffer */
    method TokenizeBuffer(chunk: seq<char>) returns (r: LexerResult)
      requires Valid()
      modifies this, tokenBuffer
      ensures Valid()
      ensures (State(), r) == RunChars(old(State()), chunk)
    {
      var i := 0;
      while i < |chunk|
        invariant 0 <= i <= |chunk| && Valid()
        invariant RunChars(old(State()), chunk[..i]) == (State(), LexOk)
      {
        r := TokenizeChar(chunk[i]);
        RunCharsSnoc(old(State()), chunk[..i], chunk[i]);
        assert chunk[..i + 1] == chunk[..i] + [chunk[i]];
        if r != LexOk {
          RunCharsStops(old(State()), chunk[..i + 1], chunk[i + 1..]);
          assert chunk[..i + 1] + chunk[i + 1..] == chunk;
          return;
        }
        i := i + 1;
      }
      assert chunk[..i] == chunk;
      r := LexOk;
    }
  }

  /** lex: `chunks` are the successive reads of the stream before the read
      loop ends, which it does at the first read that delivers no byte, so
      none of them is empty; `readError` is whether the loop ended on a
      stream error. */
  method Lex(chunks: seq<seq<char>>, readError: bool, tokens: seq<Token>) returns (r: LexerResult, lexed: seq<Token>)
    requires forall k :: 0 <= k < |chunks| ==> |chunks[k]| > 0
    ensures (r, lexed) == LexOutcome(tokens, chunks, readError)
  {
    var context := new Tokenizer(tokens);
    var k := 0;
    while k < |chunks|
      invariant 0 <= k <= |chunks| && context.Valid()
      invariant RunChunks(Start(tokens), chunks[..k]) == (context.State(), LexOk)
    {
      var chunk := chunks[k];
      r := context.TokenizeBuffer(chunk[..|chunk| % 256]);
      RunChunksAppend(Start(tokens), chunks[..k], [chunk]);
      assert chunks[..k + 1] == chunks[..k] + [chunk];
      if r != LexOk {
        RunChunksAppend(Start(tokens), chunks[..k + 1], chunks[k + 1..]);
        assert chunks[..k + 1] + chunks[k + 1..] == chunks;
        return r, context.tokens;
      }
      k := k + 1;
    }
    assert chunks[..k] == chunks;
    if readError {
      return StreamError, context.tokens;
    }
    return LexOk, context.tokens;
  }

  // ---------------------------------------------------------------------------
  // Properties

  /** One more byte after a run that succeeded is one more step. */
  lemma RunCharsSnoc(s: LexState, cs: seq<char>, c: char)
    ensures RunChars(s, cs).1 == LexOk ==> RunChars(s, cs + [c]) == StepChar(RunChars(s, cs).0, c)
  {
    RunCharsAppend(s, cs, [c]);
    var p := RunChars(s, cs);
    assert RunChars(p.0, [c]) == StepChar(p.0, c);
  }

  /** A run that failed ignores the bytes after it. */
  lemma RunCharsStops(s: LexState, cs: seq<char>, rest: seq<char>)
    requires RunChars(s, cs).1 != LexOk
    ensures RunChars(s, cs + rest) == RunChars(s, cs)
  {
    RunCharsAppend(s, cs, rest);
  }

  /** Running two pieces in a row is running the first and, unless it failed,
      the second from where it stopped: the first failure ends the run. */
  lemma {:induction false} RunCharsAppend(s: LexState, a: seq<char>, b: seq<char>)
    ensures RunChars(s, a + b) ==
      (var p := RunChars(s, a); if p.1 != LexOk then p else RunChars(p.0, b))
    decreases |a|
  {
    if a == [] {
      assert a + b == b;
    } else {
      assert (a + b)[0] == a[0];
      assert (a + b)[1..] == a[1..] + b;
      var p := StepChar(s, a[0]);
      if p.1 == LexOk {
        RunCharsAppend(p.0, a[1..], b);
      }
    }
  }

  lemma {:induction false} RunChunksAppend(s: LexState, a: seq<seq<char>>, b: seq<seq<char>>)
    ensures RunChunks(s, a + b) ==
      (var p := RunChunks(s, a); if p.1 != LexOk then p else RunChunks(p.0, b))
    decreases |a|
  {
    if a == [] {
      assert a + b == b;
    } else {
      assert (a + b)[0] == a[0];
      assert (a + b)[1..] == a[1..] + b;
      var p := RunChars(s, Processed(a[0]));
      if p.1 == LexOk {
        RunChunksAppend(p.0, a[1..], b);
      }
    }
  }

  /** A successful flush appends exactly one token, classified, carrying the
      line, the token's starting column and its text, and empties the buffer;
      an unclassifiable one reports TOKEN_UNKNOWN, records the error token and
      leaves the buffer and the list as they were. */
  lemma FlushSpec(s: LexState)
    requires |s.pending| > 0
    ensures var (s', r) := Flush(s);
      && (r == LexOk || r == TokenUnknown)
      && (r == LexOk <==> ParseTokenType(s.pending).Some?)
      && s'.line == s.line && s'.position == s.position && s'.tokenPosition == s.tokenPosition
      && s'.inComment == s.inComment
      && (r == LexOk ==>
            && |s'.tokens| == |s.tokens| + 1 && s'.tokens[..|s.tokens|] == s.tokens
            && s'.tokens[|s.tokens|] == Token(ParseTokenType(s.pending).value, s.pending, s.line, s.tokenPosition)
            && s'.pending == [] && s'.errToken == s.errToken)
      && (r == TokenUnknown ==>
            && s'.tokens == s.tokens && s'.pending == s.pending
            && s'.errToken == Some(Token(Unknown, s.pending, s.line, s.tokenPosition)))
  {
    var r := ParseTokenType(s.pending);
    if r.Some? {
      assert (s.tokens + [Token(r.value, s.pending, s.line, s.tokenPosition)])[..|s.tokens|] == s.tokens;
    }
  }

  /** Appending a byte to a buffer that already holds 63 bytes overflows and
      changes nothing, so a pending token never exceeds 63 bytes. */
  lemma PendingNeverExceeds63(s: LexState, c: char)
    requires |s.pending| < TOKEN_BUFFER_SIZE
    ensures |StepChar(s, c).0.pending| < TOKEN_BUFFER_SIZE
    ensures IsPlain(c) && !s.inComment ==>
      (StepChar(s, c).1 == TokenOverflow <==> |s.pending| == TOKEN_BUFFER_SIZE - 1)
    ensures StepChar(s, c).1 == TokenOverflow ==> StepChar(s, c).0 == s
  {
    if |s.pending| > 0 {
      FlushSpec(s);
      FlushSpec(s.(inComment := true));
    }
  }

  /** A blank with nothing pending changes nothing. Otherwise it flushes the
      pending token, then advances the column and starts the next token there;
      the blank itself is never emitted. */
  lemma BlankSeparates(s: LexState, c: char)
    requires c == ' ' || c == '\t'
    ensures s.pending == [] ==> StepChar(s, c) == (s, LexOk)
    ensures s.pending != [] && ParseTokenType(s.pending).Some? ==>
      var (s', r) := StepChar(s, c);
      && r == LexOk && s'.pending == [] && s'.line == s.line
      && s'.tokens == s.tokens + [Token(ParseTokenType(s.pending).value, s.pending, s.line, s.tokenPosition)]
      && s'.position == s.position + 1 && s'.tokenPosition == s'.position
    ensures s.pending != [] && ParseTokenType(s.pending).None? ==>
      StepChar(s, c) == Flush(s) && StepChar(s, c).1 == TokenUnknown
  {
  }

  /** A newline emits one end-of-line token at the current line and column,
      after the flushed pending token if there is one, then moves to column 0
      of the next line and ends any comment. */
  lemma NewlineEndsLine(s: LexState)
    requires s.inComment || s.pending == [] || ParseTokenType(s.pending).Some?
    ensures var (s', r) := StepChar(s, '\n');
      && r == LexOk
      && s'.tokens == (if !s.inComment && s.pending != [] then Flush(s).0.tokens else s.tokens)
                      + [EolToken(s.line, s.position)]
      && s'.line == s.line + 1 && s'.position == 0 && s'.tokenPosition == 0
      && !s'.inComment
  {
  }

  /** A newline whose pending token does not classify loses the failure: the
      result is OK, no end-of-line token is emitted, the line does not advance
      and the token stays pending. */
  lemma NewlineLosesFlushFailure(s: LexState)
    requires !s.inComment && s.pending != [] && ParseTokenType(s.pending).None?
    ensures var (s', r) := StepChar(s, '\n');
      && r == LexOk && s'.tokens == s.tokens && s'.line == s.line
      && s'.position == s.position && s'.pending == s.pending
      && s'.errToken == Some(Token(Unknown, s.pending, s.line, s.tokenPosition))
  {
  }

  /** ';' starts a comment after flushing the pending token; inside a comment
      plain bytes are dropped, but a comma is still emitted. */
  lemma CommentsDropPlainBytesOnly(s: LexState, c: char)
    ensures StepChar(s, ';').0.inComment
    ensures s.pending == [] ==> StepChar(s, ';') == (s.(inComment := true), LexOk)
    ensures s.pending != [] ==> StepChar(s, ';') == Flush(s.(inComment := true))
    ensures s.inComment && IsPlain(c) ==> StepChar(s, c) == (s, LexOk)
    ensures s.inComment && s.pending == [] ==>
      StepChar(s, ',') == (s.(tokens := s.tokens + [CommaToken(s.line, s.position)],
                              position := s.position + 1, tokenPosition := s.position + 1), LexOk)
  {
  }

  /** Every token in the list classifies to its own kind, is 1 to 63 bytes
      long, and the pending token fits the buffer. */
  ghost predicate WellFormed(s: LexState)
  {
    && |s.pending| < TOKEN_BUFFER_SIZE
    && forall i :: 0 <= i < |s.tokens| ==>
         && 0 < |s.tokens[i].text| < TOKEN_BUFFER_SIZE
         && ParseTokenType(s.tokens[i].text) == Some(s.tokens[i].kind)
  }

  lemma AppendKeepsWellFormed(s: LexState, t: Token)
    requires WellFormed(s)
    requires 0 < |t.text| < TOKEN_BUFFER_SIZE && ParseTokenType(t.text) == Some(t.kind)
    ensures WellFormed(s.(tokens := s.tokens + [t]))
    ensures s.tokens <= s.tokens + [t]
  {
  }

  lemma FlushKeepsWellFormed(s: LexState)
    requires WellFormed(s) && |s.pending| > 0
    ensures WellFormed(Flush(s).0)
    ensures s.tokens <= Flush(s).0.tokens
  {
    var k := ParseTokenType(s.pending);
    if k.Some? {
      AppendKeepsWellFormed(s.(pending := []), Token(k.value, s.pending, s.line, s.tokenPosition));
    }
  }

  lemma EndLineKeepsWellFormed(s: LexState)
    requires WellFormed(s)
    ensures WellFormed(EndLine(s).0)
    ensures s.tokens <= EndLine(s).0.tokens
  {
    CreatedTokensReclassify(s.line, s.position);
    AppendKeepsWellFormed(s, EolToken(s.line, s.position));
  }

  lemma AppendCommaKeepsWellFormed(s: LexState)
    requires WellFormed(s)
    ensures WellFormed(AppendComma(s).0)
    ensures s.tokens <= AppendComma(s).0.tokens
  {
    CreatedTokensReclassify(s.line, s.position);
    AppendKeepsWellFormed(s, CommaToken(s.line, s.position));
  }

  lemma StepKeepsWellFormed(s: LexState, c: char)
    requires WellFormed(s)
    ensures WellFormed(StepChar(s, c).0)
    ensures s.tokens <= StepChar(s, c).0.tokens
  {
    if c == ';' {
      if |s.pending| > 0 {
        FlushKeepsWellFormed(s.(inComment := true));
      }
    } else if c == '\t' || c == ' ' {
      if |s.pending| > 0 {
        FlushKeepsWellFormed(s);
      }
    } else if c == '\n' {
      if s.inComment {
        EndLineKeepsWellFormed(s.(inComment := false));
      } else if |s.pending| == 0 {
        EndLineKeepsWellFormed(s);
      } else {
        FlushKeepsWellFormed(s);
        EndLineKeepsWellFormed(Flush(s).0);
      }
    } else if c == ',' {
      if |s.pending| == 0 {
        AppendCommaKeepsWellFormed(s);
      } else {
        FlushKeepsWellFormed(s);
        AppendCommaKeepsWellFormed(Flush(s).0);
      }
    }
  }

  /** Tokenizing keeps every emitted token classified, never shrinks the list
      and never lets the pending token outgrow the buffer. */
  lemma {:induction false} RunKeepsWellFormed(s: LexState, cs: seq<char>)
    requires WellFormed(s)
    ensures WellFormed(RunChars(s, cs).0)
    ensures s.tokens <= RunChars(s, cs).0.tokens
    decreases |cs|
  {
    if cs != [] {
      StepKeepsWellFormed(s, cs[0]);
      var p := StepChar(s, cs[0]);
      if p.1 == LexOk {
        RunKeepsWellFormed(p.0, cs[1..]);
      }
    }
  }

  lemma {:induction false} ChunksKeepWellFormed(s: LexState, chunks: seq<seq<char>>)
    requires WellFormed(s)
    ensures WellFormed(RunChunks(s, chunks).0)
    ensures s.tokens <= RunChunks(s, chunks).0.tokens
    decreases |chunks|
  {
    if chunks != [] {
      RunKeepsWellFormed(s, Processed(chunks[0]));
      var p := RunChars(s, Processed(chunks[0]));
      if p.1 == LexOk {
        ChunksKeepWellFormed(p.0, chunks[1..]);
      }
    }
  }

  /** Every token lex produces from an empty list has a kind other than
      UNKNOWN that its own text classifies to, and is 1 to 63 bytes long. */
  lemma LexedTokensAreClassified(chunks: seq<seq<char>>, readError: bool)
    ensures var lexed := LexOutcome([], chunks, readError).1;
      forall i :: 0 <= i < |lexed| ==>
        && 0 < |lexed[i].text| < TOKEN_BUFFER_SIZE
        && lexed[i].kind != Unknown
        && ParseTokenType(lexed[i].text) == Some(lexed[i].kind)
  {
    ChunksKeepWellFormed(Start([]), chunks);
  }

  /** A read of exactly 256 bytes is processed as an empty chunk. */
  lemma ChunkOf256IsSkipped(s: LexState, chunk: seq<char>)
    requires |chunk| == 256
    ensures RunChunks(s, [chunk]) == (s, LexOk)
  {
    assert Processed(chunk) == [];
  }

  /** Outside a comment, ordinary bytes accumulate in the pending token, one
      column each, as long as the buffer keeps room for the NUL. */
  lemma {:induction false} PlainBytesAccumulate(s: LexState, w: seq<char>)
    requires !s.inComment && |s.pending| + |w| < TOKEN_BUFFER_SIZE
    requires forall k :: 0 <= k < |w| ==> IsPlain(w[k])
    ensures RunChars(s, w) == (s.(pending := s.pending + w, position := s.position + |w|), LexOk)
    decreases |w|
  {
    if w == [] {
      assert s.pending + w == s.pending;
    } else {
      var s1 := s.(pending := s.pending + [w[0]], position := s.position + 1);
      assert StepChar(s, w[0]) == (s1, LexOk);
      PlainBytesAccumulate(s1, w[1..]);
      assert s.pending + [w[0]] + w[1..] == s.pending + w;
    }
  }

  lemma SingleChunk(s: LexState, chunk: seq<char>)
    ensures RunChunks(s, [chunk]) == RunChars(s, Processed(chunk))
  {
    assert [chunk][1..] == [];
  }

  /** A token still pending when the stream ends is never emitted: an input
      that is one word without a final newline yields no token at all. */
  lemma LastTokenIsDropped(w: seq<char>)
    requires 0 < |w| < TOKEN_BUFFER_SIZE
    requires forall k :: 0 <= k < |w| ==> IsAsciiLetter(w[k])
    ensures LexOutcome([], [w], false) == (LexOk, [])
  {
    assert Processed(w) == w;
    assert forall k :: 0 <= k < |w| ==> IsPlain(w[k]);
    PlainBytesAccumulate(Start([]), w);
    SingleChunk(Start([]), w);
  }

  /** A newline after a pending token that classifies emits it and the end
      of line. */
  lemma NewlineAfterWord(s: LexState, k: TokenKind)
    requires !s.inComment && |s.pending| > 0 && ParseTokenType(s.pending) == Some(k)
    ensures RunChars(s, ['\n']) ==
      EndLine(s.(tokens := s.tokens + [Token(k, s.pending, s.line, s.tokenPosition)], pending := []))
  {
    assert ['\n'][1..] == [];
  }

  /** With the newline, the same word yields the instruction at column 0 and
      the end of line at column |w|. */
  lemma NewlineEmitsLastToken(w: seq<char>)
    requires 0 < |w| < TOKEN_BUFFER_SIZE
    requires forall k :: 0 <= k < |w| ==> IsAsciiLetter(w[k])
    ensures LexOutcome([], [w + ['\n']], false) == (LexOk, [Token(Instruction, w, 0, 0), EolToken(0, |w|)])
  {
    var s := Start([]);
    var s1 := s.(pending := w, position := |w|);
    assert Processed(w + ['\n']) == w + ['\n'];
    assert forall k :: 0 <= k < |w| ==> IsPlain(w[k]);
    PlainBytesAccumulate(s, w);
    RunCharsAppend(s, w, ['\n']);
    SingleChunk(s, w + ['\n']);
    InstructionIffLetters(w);
    NewlineAfterWord(s1, Instruction);
    var tok := Token(Instruction, w, 0, 0);
    var p := RunChars(s, w + ['\n']);
    assert s.pending + w == w;
    assert RunChars(s, w) == (s1, LexOk);
    assert p == RunChars(s1, ['\n']);
    assert s1.tokens + [tok] == [tok];
    assert p == EndLine(s1.(tokens := [tok], pending := []));
    assert p.1 == LexOk && p.0.tokens == [tok, EolToken(0, |w|)];
    assert RunChunks(s, [w + ['\n']]) == p;
  }
}
