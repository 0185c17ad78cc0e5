/**
 * The cloud-function argument layer of src/app/argParser.cpp: `tokeniseArgs` splits
 * a comma-delimited string into an array of tokens, and `parseAndValidateArgs`
 * checks the token count and range-checks each number argument.
 *
 * The int32 the source returns (a count, or a negative RET_VAL_* code whose numeric
 * value lives in a header that is not part of this model) is the datatype `RetVal`.
 */
module ArgParser {
  import opened Prelude
  import Colours

  const DELIMITER: char := ','

  /** tokeniseArgs counts tokens in a `uint8_t`, so the count wraps at 256. */
  const COUNT_LIMIT: int := U8_LIMIT

  datatype ArgError = TooManyArgs | TooFewArgs | InvalidArg

  /** A non-negative count (or 0 for success), or one of the negative error codes. */
  datatype RetVal = Count(n: nat) | Fail(error: ArgError)

  datatype ArgType = Number | ColourArg

  /** How one argument is checked; `min` and `max` matter for numbers only. */
  datatype ArgInfo = ArgInfo(argType: ArgType, min: int, max: int)

  /** A command's argument schema: `info[i]` describes argument `i`, for `i < length`. */
  datatype ArgConfig = ArgConfig(info: seq<ArgInfo>, length: nat)

  // ---------------------------------------------------------------------------
  // Splitting on the delimiter

  /** `s.find(delimiter)`: the index of the first comma, or `|s|` when there is none. */
  function FindDelimiter(s: string): (i: nat)
    ensures i <= |s|
  {
    if s == [] || s[0] == DELIMITER then 0 else 1 + FindDelimiter(s[1..])
  }

  /** The index found holds the first comma: none before it, and a comma at it unless it is `|s|`. */
  lemma {:induction false} FindDelimiterIsFirst(s: string)
    ensures DELIMITER !in s[..FindDelimiter(s)]
    ensures FindDelimiter(s) < |s| ==> s[FindDelimiter(s)] == DELIMITER
  {
    if s != [] && s[0] != DELIMITER {
      FindDelimiterIsFirst(s[1..]);
      assert s[..FindDelimiter(s)] == [s[0]] + s[1..][..FindDelimiter(s[1..])];
    }
  }

  /** The comma-separated pieces of `s`, in order: one more piece than there are commas. */
  function Split(s: string): (pieces: seq<string>)
    ensures |pieces| >= 1
    decreases |s|
  {
    var i := FindDelimiter(s);
    if i == |s| then [s] else [s[..i]] + Split(s[i + 1..])
  }

  /** No piece contains the delimiter. */
  lemma {:induction false} SplitPiecesCommaFree(s: string)
    ensures forall k :: 0 <= k < |Split(s)| ==> DELIMITER !in Split(s)[k]
    decreases |s|
  {
    var i := FindDelimiter(s);
    FindDelimiterIsFirst(s);
    if i < |s| {
      SplitPiecesCommaFree(s[i + 1..]);
    }
  }

  /** The pieces glued back together with a comma between neighbours. */
  function Join(pieces: seq<string>): string
    requires |pieces| >= 1
  {
    if |pieces| == 1 then pieces[0] else pieces[0] + [DELIMITER] + Join(pieces[1..])
  }

  /** Round trip: joining the pieces of a string gives the string back. */
  lemma {:induction false} JoinSplit(s: string)
    ensures Join(Split(s)) == s
    decreases |s|
  {
    var i := FindDelimiter(s);
    FindDelimiterIsFirst(s);
    if i < |s| {
      JoinSplit(s[i + 1..]);
      assert s == s[..i] + [DELIMITER] + s[i + 1..];
    }
  }

  /** Round trip: comma-free pieces survive being joined and split again. */
  lemma {:induction false} SplitJoin(pieces: seq<string>)
    requires |pieces| >= 1
    requires forall k :: 0 <= k < |pieces| ==> DELIMITER !in pieces[k]
    ensures Split(Join(pieces)) == pieces
  {
    var s := Join(pieces);
    FindDelimiterOfPiece(pieces[0], if |pieces| == 1 then [] else [DELIMITER] + Join(pieces[1..]));
    if |pieces| > 1 {
      var rest := Join(pieces[1..]);
      assert s == pieces[0] + ([DELIMITER] + rest);
      assert s[|pieces[0]| + 1..] == rest;
      assert s[..|pieces[0]|] == pieces[0];
      SplitJoin(pieces[1..]);
    } else {
      assert s == pieces[0] + [];
    }
  }

  /** Where a comma-free piece is followed by `tail`, the first comma is where the tail starts (if it has one). */
  lemma {:induction false} FindDelimiterOfPiece(piece: string, tail: string)
    requires DELIMITER !in piece
    requires tail == [] || tail[0] == DELIMITER
    ensures FindDelimiter(piece + tail) == |piece|
  {
    if piece != [] {
      assert piece[0] in piece;
      assert (piece + tail)[1..] == piece[1..] + tail;
      assert forall c :: c in piece[1..] ==> c in piece;
      FindDelimiterOfPiece(piece[1..], tail);
    }
  }

  /** Splitting at the first comma: the first piece, then the pieces of the rest. */
  lemma {:induction false} SplitAtFirst(s: string)
    requires FindDelimiter(s) < |s|
    ensures Split(s) == [s[..FindDelimiter(s)]] + Split(s[FindDelimiter(s) + 1..])
  {
  }

  /** A string splits into a single piece exactly when it holds no comma. */
  lemma {:induction false} SplitSingle(s: string)
    ensures |Split(s)| == 1 <==> FindDelimiter(s) == |s|
    ensures |Split(s)| == 1 ==> Split(s)[0] == s
    ensures |Split(s)| > 1 ==> s != []
  {
  }

  /** `n` commas in a row split into `n + 1` empty pieces. */
  lemma {:induction false} SplitCommas(n: nat)
    ensures Split(seq(n, _ => DELIMITER)) == seq(n + 1, _ => "")
  {
    var s := seq(n, _ => DELIMITER);
    if n > 0 {
      assert FindDelimiter(s) == 0;
      assert s[1..] == seq(n - 1, _ => DELIMITER);
      SplitCommas(n - 1);
      assert [s[..0]] + seq(n, _ => "") == seq(n + 1, _ => "");
    } else {
      assert FindDelimiter(s) == 0 == |s|;
    }
  }

  // ---------------------------------------------------------------------------
  // tokeniseArgs

  /** `++argCount` on the `uint8_t` counter: it wraps from 255 to 0. */
  function Increment(count: u8): (r: u8)
    ensures count < COUNT_LIMIT - 1 ==> r == count + 1
    ensures count == COUNT_LIMIT - 1 ==> r == 0
  {
    (count + 1) % COUNT_LIMIT
  }

  /**
   * How many tokens the loop of tokeniseArgs may take before it insists the rest is
   * empty: `argLimit`, except that the first token is always taken, even for a limit of 0.
   */
  function LoopLimit(argLimit: nat): (m: nat)
    ensures m >= 1 && m >= argLimit && m <= argLimit + 1
  {
    if argLimit == 0 then 1 else argLimit
  }

  /**
   * What tokeniseArgs returns, stated on the pieces of `args`: too many when more
   * than `LoopLimit` commas precede non-empty text; too few when fewer than
   * `argLimit` pieces end with an empty one; otherwise the number of pieces, as
   * the `uint8_t` counter holds it.
   */
  function TokeniseResult(args: string, argLimit: nat): (r: RetVal)
    ensures r != Fail(InvalidArg)
    ensures r.Count? ==> |Split(args)| <= LoopLimit(argLimit) + 1 && r.n == |Split(args)| % COUNT_LIMIT
  {
    var pieces := Split(args);
    var commas := |pieces| - 1;
    var m := LoopLimit(argLimit);
    if commas > m || (commas == m && pieces[commas] != "") then Fail(TooManyArgs)
    else if commas < argLimit && pieces[commas] == "" then Fail(TooFewArgs)
    else Count(|pieces| % COUNT_LIMIT)
  }

  /** How many leading slots of `output` tokeniseArgs writes: the token array is `output[..WrittenSlots]`. */
  function WrittenSlots(args: string, argLimit: nat): (w: nat)
    ensures w <= |Split(args)|
    ensures w <= LoopLimit(argLimit) + 1
  {
    var pieces := Split(args);
    var r := TokeniseResult(args, argLimit);
    if r == Fail(TooManyArgs) then LoopLimit(argLimit)
    else if r.Fail? then |pieces| - 1
    else |pieces|
  }

  /**
   * tokeniseArgs. It erases the text up to each comma from the front of `s`, storing
   * each piece in `output`, and stores the text after the last comma in the end.
   * `output` must hold every slot the call writes; that is the documented `argLimit`
   * slots except for the inputs OverrunInputs describes (see TrailingCommaOverrun).
   */
  method TokeniseArgs(output: array<string>, args: string, argLimit: u32) returns (r: RetVal)
    requires argLimit < COUNT_LIMIT
    requires output.Length >= WrittenSlots(args, argLimit)
    modifies output
    ensures r == TokeniseResult(args, argLimit)
    ensures output[..WrittenSlots(args, argLimit)] == Split(args)[..WrittenSlots(args, argLimit)]
    ensures output[WrittenSlots(args, argLimit)..] == old(output[WrittenSlots(args, argLimit)..])
  {
    var s := args;
    var argCount: u8 := 0;
    var pos := FindDelimiter(s);
    while pos < |s|
      invariant Tokenising(args, argLimit, argCount, s, output[..], old(output[..]))
      invariant pos == FindDelimiter(s)
      decreases |s|
    {
      ghost var before := output[..];
      LoopStep(args, argLimit, argCount, s, before, old(output[..]));
      output[argCount] := s[..pos];
      assert output[..] == before[argCount := s[..pos]];
      argCount := Increment(argCount);
      s := s[pos + 1..];

      if argCount >= argLimit && s != [] {
        return Fail(TooManyArgs);
      }
      pos := FindDelimiter(s);
    }

    ghost var before := output[..];
    LoopExit(args, argLimit, argCount, s, before, old(output[..]));
    if argCount < argLimit && s == [] {
      return Fail(TooFewArgs);
    }

    output[argCount] := s;
    assert output[..] == before[argCount := s];
    argCount := Increment(argCount);
    return Count(argCount);
  }

  /**
   * What the loop of tokeniseArgs keeps: the first `count` pieces of `args` are
   * stored in `out`, `s` is the text holding the pieces after them, the loop has
   * not passed its limit, and every other slot still holds what `orig` held.
   * `out` has room for every slot the call writes.
   */
  ghost predicate Tokenising(args: string, argLimit: nat, count: nat, s: string, out: seq<string>, orig: seq<string>)
  {
    && |out| == |orig| >= WrittenSlots(args, argLimit)
    && count <= LoopLimit(argLimit) && count < |Split(args)| && count <= |out|
    && Split(s) == Split(args)[count..]
    && (count == LoopLimit(argLimit) ==> s == [])
    && out[..count] == Split(args)[..count]
    && out[count..] == orig[count..]
  }

  /** `out` holds the tokens tokeniseArgs writes and, beyond them, what `orig` held. */
  ghost predicate StoredTokens(args: string, argLimit: nat, out: seq<string>, orig: seq<string>)
  {
    && |out| == |orig| >= WrittenSlots(args, argLimit)
    && out[..WrittenSlots(args, argLimit)] == Split(args)[..WrittenSlots(args, argLimit)]
    && out[WrittenSlots(args, argLimit)..] == orig[WrittenSlots(args, argLimit)..]
  }

  /**
   * One iteration of the loop of tokeniseArgs stores the next piece in a slot the
   * call is counted as writing; then either the loop goes on, or too many
   * arguments remain and the slots written so far are the whole of its output.
   */
  lemma {:induction false} LoopStep(args: string, argLimit: nat, count: nat, s: string, out: seq<string>, orig: seq<string>)
    requires argLimit < COUNT_LIMIT && Tokenising(args, argLimit, count, s, out, orig)
    requires FindDelimiter(s) < |s|
    ensures count < |out| && count + 1 < COUNT_LIMIT
    ensures var next := s[FindDelimiter(s) + 1..];
      var stored := out[count := s[..FindDelimiter(s)]];
      if count + 1 >= argLimit && next != [] then
        && TokeniseResult(args, argLimit) == Fail(TooManyArgs)
        && StoredTokens(args, argLimit, stored, orig)
      else
        Tokenising(args, argLimit, count + 1, next, stored, orig)
  {
    var i := FindDelimiter(s);
    var next := s[i + 1..];
    var stored := out[count := s[..i]];
    NextPiece(args, argLimit, count, s);
    StoreNext(Split(args), count, out, orig);
    if count + 1 >= argLimit && next != [] {
      TooManyExit(args, argLimit, count + 1, next);
    }
  }

  /** The loop of tokeniseArgs has run out of commas: the text left is the last piece and the closed form decides the outcome. */
  lemma {:induction false} LoopExit(args: string, argLimit: nat, count: nat, s: string, out: seq<string>, orig: seq<string>)
    requires Tokenising(args, argLimit, count, s, out, orig)
    requires FindDelimiter(s) == |s|
    ensures TokeniseResult(args, argLimit) == if count < argLimit && s == [] then Fail(TooFewArgs) else Count((count + 1) % COUNT_LIMIT)
    ensures count < argLimit && s == [] ==> StoredTokens(args, argLimit, out, orig)
    ensures !(count < argLimit && s == []) ==> count < |out| && StoredTokens(args, argLimit, out[count := s], orig)
  {
    LastPiece(args, argLimit, count, s);
    if !(count < argLimit && s == []) {
      StoreNext(Split(args), count, out, orig);
    }
  }

  /** Storing item `count` of `items` in slot `count` extends the stored prefix by one and leaves the slots after it alone. */
  lemma {:induction false} StoreNext<T>(items: seq<T>, count: nat, out: seq<T>, orig: seq<T>)
    requires count < |items| && count < |out| == |orig|
    requires out[..count] == items[..count] && out[count..] == orig[count..]
    ensures out[count := items[count]][..count + 1] == items[..count + 1]
    ensures out[count := items[count]][count + 1..] == orig[count + 1..]
  {
    assert out[count := items[count]][..count + 1] == out[..count] + [items[count]];
  }

  /** One piece further along: the text before the first comma is the next piece, stored in a slot the call writes. */
  lemma {:induction false} NextPiece(args: string, argLimit: nat, count: nat, s: string)
    requires argLimit < COUNT_LIMIT && count <= LoopLimit(argLimit) && count < |Split(args)| && Split(s) == Split(args)[count..]
    requires count == LoopLimit(argLimit) ==> s == []
    requires FindDelimiter(s) < |s|
    ensures s[..FindDelimiter(s)] == Split(args)[count]
    ensures count + 1 < |Split(args)| && Split(s[FindDelimiter(s) + 1..]) == Split(args)[count + 1..]
    ensures count + 1 < COUNT_LIMIT && count < WrittenSlots(args, argLimit)
  {
    SplitAtFirst(s);
    MoreSlotsThan(args, argLimit, count);
  }

  /** Any count below the loop limit with a piece after it lies below the number of slots written. */
  lemma {:induction false} MoreSlotsThan(args: string, argLimit: nat, count: nat)
    requires count < LoopLimit(argLimit) && count + 1 < |Split(args)|
    ensures count < WrittenSlots(args, argLimit)
  {
  }

  /** The loop of tokeniseArgs stops early, with too many arguments, once it holds `count` tokens and text remains. */
  lemma {:induction false} TooManyExit(args: string, argLimit: nat, count: nat, s: string)
    requires count >= argLimit && 1 <= count <= LoopLimit(argLimit)
    requires count <= |Split(args)| && Split(s) == Split(args)[count..]
    requires s != []
    ensures TokeniseResult(args, argLimit) == Fail(TooManyArgs)
    ensures WrittenSlots(args, argLimit) == count
  {
    SplitSingle(s);
  }

  /** When no comma is left, the remaining text is the last piece and the closed form decides the outcome. */
  lemma {:induction false} LastPiece(args: string, argLimit: nat, count: nat, s: string)
    requires count <= LoopLimit(argLimit) && count < |Split(args)|
    requires Split(s) == Split(args)[count..]
    requires count == LoopLimit(argLimit) ==> s == []
    requires FindDelimiter(s) == |s|
    ensures |Split(args)| == count + 1 && Split(args)[count] == s
    ensures TokeniseResult(args, argLimit) == if count < argLimit && s == [] then Fail(TooFewArgs) else Count((count + 1) % COUNT_LIMIT)
    ensures WrittenSlots(args, argLimit) == if count < argLimit && s == [] then count else count + 1
  {
    SplitSingle(s);
  }

  /**
   * The documented size of `output`, `argLimit`, is one slot short: `argLimit`
   * commas (the last one trailing) make tokeniseArgs write `argLimit + 1` slots
   * and return `argLimit + 1` (wrapped to a byte).
   */
  lemma {:induction false} TrailingCommaOverrun(argLimit: nat)
    requires 0 < argLimit < COUNT_LIMIT
    ensures var args := seq(argLimit, _ => DELIMITER);
      && TokeniseResult(args, argLimit) == Count((argLimit + 1) % COUNT_LIMIT)
      && WrittenSlots(args, argLimit) == argLimit + 1
  {
    SplitCommas(argLimit);
  }

  /**
   * For a positive limit the documented `argLimit` slots suffice for every input
   * except one shape: exactly `argLimit` commas with nothing after the last, which
   * makes tokeniseArgs write slot `argLimit`. A limit of 0 is overrun by every input.
   */
  lemma {:induction false} OverrunInputs(args: string, argLimit: nat)
    ensures argLimit > 0 ==>
      (WrittenSlots(args, argLimit) > argLimit <==> |Split(args)| == argLimit + 1 && Split(args)[argLimit] == "")
    ensures argLimit == 0 ==> WrittenSlots(args, argLimit) > argLimit
  {
  }

  /** Empty input has too few arguments for any positive limit. */
  lemma {:induction false} EmptyInputTooFew(argLimit: nat)
    requires argLimit > 0
    ensures TokeniseResult("", argLimit) == Fail(TooFewArgs)
  {
    assert Split("") == [""];
  }

  /**
   * With exactly `argLimit` pieces the tokeniser succeeds unless the last piece is
   * empty, and then the tokens joined with commas are the input.
   */
  lemma {:induction false} ExactCountAccepted(args: string, argLimit: nat)
    requires 0 < argLimit < COUNT_LIMIT && |Split(args)| == argLimit
    ensures TokeniseResult(args, argLimit) == Count(argLimit) <==> Split(args)[argLimit - 1] != ""
    ensures TokeniseResult(args, argLimit) != Count(argLimit) ==> TokeniseResult(args, argLimit) == Fail(TooFewArgs)
    ensures Join(Split(args)) == args
  {
    JoinSplit(args);
  }

  /** The last piece is empty exactly when the string is empty or ends with a comma. */
  lemma {:induction false} LastPieceEmpty(s: string)
    ensures Split(s)[|Split(s)| - 1] == "" <==> s == [] || s[|s| - 1] == DELIMITER
    decreases |s|
  {
    var i := FindDelimiter(s);
    FindDelimiterIsFirst(s);
    if i == |s| {
      assert s != [] ==> s[|s| - 1] in s[..i];
    } else {
      var rest := s[i + 1..];
      LastPieceEmpty(rest);
      assert rest != [] ==> rest[|rest| - 1] == s[|s| - 1];
    }
  }

  /** Input ending in a comma (or empty) with no more pieces than the limit has too few arguments. */
  lemma {:induction false} TrailingCommaTooFew(args: string, argLimit: nat)
    requires args == [] || args[|args| - 1] == DELIMITER
    requires |Split(args)| <= argLimit
    ensures TokeniseResult(args, argLimit) == Fail(TooFewArgs)
  {
    LastPieceEmpty(args);
  }

  /** More pieces than the limit allows are refused, except one extra empty piece after a trailing comma. */
  lemma {:induction false} TooManyPieces(args: string, argLimit: nat)
    requires argLimit > 0 && |Split(args)| > argLimit
    ensures TokeniseResult(args, argLimit) == Fail(TooManyArgs)
        <==> |Split(args)| > argLimit + 1 || Split(args)[argLimit] != ""
  {
  }

  // ---------------------------------------------------------------------------
  // parseAndValidateArgs

  /**
   * Whether one token passes its check: a number must convert and lie in
   * `[min, max]`; a colour is "checked" by constructing a Colour, which never throws,
   * so a colour token always passes.
   */
  predicate ArgAccepted(info: ArgInfo, arg: string, strToInt: string -> Option<int>)
  {
    match info.argType
    case Number => strToInt(arg).Some? && info.min <= strToInt(arg).value <= info.max
    case ColourArg => true
  }

  /** What parseAndValidateArgs returns, given `strToInt` (a conversion returning None on failure). */
  function ValidationResult(config: ArgConfig, args: string, strToInt: string -> Option<int>): (r: RetVal)
    requires config.length <= |config.info| && config.length < COUNT_LIMIT
    ensures r.Count? ==> r.n == 0
  {
    match TokeniseResult(args, config.length)
    case Fail(e) => Fail(e)
    case Count(n) =>
      if n != config.length then Fail(TooFewArgs)
      else if forall i :: 0 <= i < config.length ==> ArgAccepted(config.info[i], Split(args)[i], strToInt) then Count(0)
      else Fail(InvalidArg)
  }

  /**
   * parseAndValidateArgs. It tokenises into a local array and checks each token in
   * order, returning at the first failure. It has no `modifies` clause: as in the
   * source, it never writes `output`.
   */
  method ParseAndValidateArgs(output: array<string>, config: ArgConfig, args: string, strToInt: string -> Option<int>)
    returns (r: RetVal)
    requires config.length <= |config.info| && config.length < COUNT_LIMIT
    ensures TokeniseResult(args, config.length).Fail? ==> r == TokeniseResult(args, config.length)
    ensures TokeniseResult(args, config.length).Count? && TokeniseResult(args, config.length).n != config.length
      ==> r == Fail(TooFewArgs)
    ensures r == Count(0) <==> (TokeniseResult(args, config.length) == Count(config.length)
      && forall i :: 0 <= i < config.length ==> ArgAccepted(config.info[i], Split(args)[i], strToInt))
    ensures r == ValidationResult(config, args, strToInt)
  {
    // The source sizes this array at config.length; tokeniseArgs can write one slot more.
    var tokenisedArgs := new string[LoopLimit(config.length) + 1];
    var argCount := TokeniseArgs(tokenisedArgs, args, config.length);

    if argCount.Fail? {
      return argCount;
    }

    if argCount.n != config.length {
      return Fail(TooFewArgs);
    }

    assert WrittenSlots(args, config.length) == config.length == |Split(args)|;
    for i := 0 to config.length
      invariant forall k :: 0 <= k < i ==> ArgAccepted(config.info[k], Split(args)[k], strToInt)
    {
      var arg := tokenisedArgs[i];
      assert arg == Split(args)[i];
      var info := config.info[i];
      if info.argType == Number {
        var value := strToInt(arg);
        if value.None? || value.value < info.min || value.value > info.max {
          return Fail(InvalidArg);
        }
      } else {
        var col := Colours.Parse(arg);  // constructing the colour is the whole check
      }
    }

    return Count(0);
  }

  /** A tokeniser error is returned unchanged, and a wrong token count is reported as too few. */
  lemma ValidationPropagatesCountErrors(config: ArgConfig, args: string, strToInt: string -> Option<int>)
    requires config.length <= |config.info| && config.length < COUNT_LIMIT
    ensures TokeniseResult(args, config.length).Fail? ==> ValidationResult(config, args, strToInt) == TokeniseResult(args, config.length)
    ensures |Split(args)| != config.length && TokeniseResult(args, config.length).Count?
      ==> ValidationResult(config, args, strToInt) == Fail(TooFewArgs)
  {
  }

  /**
   * A colour argument is never rejected: whatever text stands in a colour position,
   * even a malformed colour, only the number arguments can cause InvalidArg.
   */
  lemma {:induction false} ColourArgumentNeverRejected(config: ArgConfig, args: string, strToInt: string -> Option<int>)
    requires config.length <= |config.info| && config.length < COUNT_LIMIT
    requires forall i :: 0 <= i < config.length ==> config.info[i].argType == ColourArg
    requires TokeniseResult(args, config.length) == Count(config.length)
    ensures ValidationResult(config, args, strToInt) == Count(0)
  {
    forall i | 0 <= i < config.length
      ensures ArgAccepted(config.info[i], Split(args)[i], strToInt)
    {
      assert config.info[i].argType == ColourArg;
    }
  }

  /**
   * A correctly counted input is invalid as soon as one number argument fails to
   * convert or lies outside its `[min, max]`, whatever the other arguments hold.
   */
  lemma {:induction false} NumberArgumentRejected(config: ArgConfig, args: string, strToInt: string -> Option<int>, i: nat)
    requires config.length <= |config.info| && config.length < COUNT_LIMIT
    requires TokeniseResult(args, config.length) == Count(config.length)
    requires i < config.length && i < |Split(args)| && config.info[i].argType == Number
    requires var value := strToInt(Split(args)[i]);
      value.None? || value.value < config.info[i].min || value.value > config.info[i].max
    ensures ValidationResult(config, args, strToInt) == Fail(InvalidArg)
  {
    assert !ArgAccepted(config.info[i], Split(args)[i], strToInt);
  }

  /** The schema of the blink command: period, duty cycle and two colours. */
  const BLINK_CONFIG := ArgConfig([ArgInfo(Number, 100, 2147483647), ArgInfo(Number, 10, 90),
                                   ArgInfo(ColourArg, 0, 0), ArgInfo(ColourArg, 0, 0)], 4)

  /**
   * The blink schema takes four fields: up to four comma-free fields (the last one
   * non-empty) tokenise to their own count, more are too many, and any count other
   * than four fails validation whatever the fields say.
   */
  lemma {:induction false} BlinkFieldCounts(fields: seq<string>, strToInt: string -> Option<int>)
    requires |fields| >= 1 && fields[|fields| - 1] != ""
    requires forall k :: 0 <= k < |fields| ==> DELIMITER !in fields[k]
    ensures |fields| <= 4 ==> TokeniseResult(Join(fields), BLINK_CONFIG.length) == Count(|fields|)
    ensures |fields| > 4 ==> TokeniseResult(Join(fields), BLINK_CONFIG.length) == Fail(TooManyArgs)
    ensures |fields| < 4 ==> ValidationResult(BLINK_CONFIG, Join(fields), strToInt) == Fail(TooFewArgs)
    ensures |fields| > 4 ==> ValidationResult(BLINK_CONFIG, Join(fields), strToInt) == Fail(TooManyArgs)
  {
    SplitJoin(fields);
    assert BLINK_CONFIG.length == 4;
    assert |fields| <= 4 ==> |fields| % COUNT_LIMIT == |fields|;
  }
}
