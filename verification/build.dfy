/**
 * The build driver (kasm_build in src/libkasm.c) and the BuildContext it
 * reports through (src/libkasm.h).
 *
 * Opening the input file and reading it are parameters: `fileOpened` says whether
 * fopen succeeded, `chunks` are the successive reads and `readError` whether
 * the stream ended on an error.
 */
module Build {
  import opened KasmTypes
  import Lexer

  /** The switch of kasm_build over a failed tokenizer result code. */
  function LexerFailure(code: nat): (r: BuildResult)
    requires code != LexOk.Code()
    ensures r != Success
  {
    if code == TokenOverflow.Code() then BufferOverflow
    else if code == TokenUnknown.Code() then SyntaxError
    else if code == LexAllocFailed.Code() then BuildAllocFailed
    else if code == StreamError.Code() then FileError
    else UnknownError
  }

  /** Every failure lex can report keeps its own build result, none of them
      the catch-all UNKNOWN_ERROR, which only codes outside LexerResult get. */
  lemma LexerFailuresStayDistinct(a: LexerResult, b: LexerResult, code: nat)
    requires a != LexOk && b != LexOk
    ensures LexerFailure(a.Code()) == LexerFailure(b.Code()) ==> a == b
    ensures LexerFailure(a.Code()) != UnknownError
    ensures code > StreamError.Code() ==> LexerFailure(code) == UnknownError
  {
  }

  /** The ferror check kasm_build makes after a successful lex can never fire:
      lex has already turned a stream error into STREAM_ERROR. */
  lemma StreamErrorCaughtByLex(tokens: seq<Token>, chunks: seq<seq<char>>)
    ensures Lexer.LexOutcome(tokens, chunks, true).0 != LexOk
  {
  }

  class BuildContext {
    var target: BuildTarget
    var buildState: BuildState
    var assemblerResult: BuildResult
    var tokenizerResult: LexerResult
    var tokens: seq<Token>
    var actions: seq<Action>
    var labels: seq<Label>

    /** A zero-initialised context for `target`. */
    constructor (target: BuildTarget)
      ensures this.target == target && buildState == LoadFile
      ensures assemblerResult == Success && tokenizerResult == LexOk
      ensures tokens == [] && actions == [] && labels == []
    {
      this.target := target;
      buildState := LoadFile;
      assemblerResult := Success;
      tokenizerResult := LexOk;
      tokens := [];
      actions := [];
      labels := [];
    }

    /** kasm_build: returns 1 on failure with the stage reached in buildState
        and the cause in assemblerResult, and 0 once the tokens are lexed. The
        lexed tokens live in a local list that is freed, so the context's
        token list is left alone. `chunks` are the non-empty reads of the
        opened file, as for lex. */
    method KasmBuild(fileOpened: bool, chunks: seq<seq<char>>, readError: bool) returns (r: nat)
      requires forall k :: 0 <= k < |chunks| ==> |chunks[k]| > 0
      modifies this
      ensures target == old(target) && tokens == old(tokens)
      ensures actions == old(actions) && labels == old(labels)
      ensures !fileOpened ==>
        && r == 1 && buildState == LoadFile && assemblerResult == FileError
        && tokenizerResult == old(tokenizerResult)
      ensures fileOpened ==> tokenizerResult == Lexer.LexOutcome([], chunks, readError).0
      ensures fileOpened && tokenizerResult != LexOk ==>
        r == 1 && buildState == Tokenize && assemblerResult == LexerFailure(tokenizerResult.Code())
      ensures fileOpened && tokenizerResult == LexOk ==>
        r == 0 && buildState == Finalize && assemblerResult == old(assemblerResult)
    {
      buildState := LoadFile;
      if !fileOpened {
        assemblerResult := FileError;
        return 1;
      }
      buildState := AllocTokens;
      buildState := Tokenize;
      var lexed;
      tokenizerResult, lexed := Lexer.Lex(chunks, readError, []);
      if tokenizerResult != LexOk {
        assemblerResult := LexerFailure(tokenizerResult.Code());
        return 1;
      }
      buildState := Finalize;
      r := 0;
    }
  }
}
