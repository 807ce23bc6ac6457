/**
 * The argument parser of the party command: a lexer that splits the text
 * after the command word into four kinds of token, and `Args::parse`,
 * which folds the tokens into keyword arguments, positional arguments and
 * short-flag counts.
 *
 * The lexer is generated by the `logos` crate from four regular
 * expressions; here it is a function that takes the longest match at each
 * position and, when a bare word also matches a flag pattern of the same
 * length, classifies it as the flag.
 */
module Command {
  import opened Types

  datatype Token =
    | Flags(chars: string)    // "-abc": the letters after the dash
    | ArgStr(text: string)    // a quoted string without its quotes, or a bare word
    | LongFlag(name: string)  // "--name": the letters after the two dashes
    | Error                   // text no pattern matches: an unterminated quote

  datatype Args = Args(kwargs: map<string, string>, args: seq<string>, flags: map<char, nat>)

  datatype Parsed = Ok(value: Args) | Err

  const NoArgs := Args(map[], [], map[])

  predicate IsSpace(c: char) {
    c == '\n' || c == '\t' || c == ' ' || c == '\r'
  }

  predicate IsLetter(c: char) {
    'a' <= c <= 'z' || 'A' <= c <= 'Z'
  }

  predicate AllLetters(s: string) {
    forall i :: 0 <= i < |s| ==> IsLetter(s[i])
  }

  /** A character a bare word may hold: anything but white space and the quote. */
  predicate InWord(c: char) {
    !IsSpace(c) && c != '"'
  }

  /** The length of the longest prefix of `s` made of word characters. */
  function WordLength(s: string): (n: nat)
    ensures n <= |s|
    ensures forall i :: 0 <= i < n ==> InWord(s[i])
    ensures n < |s| ==> !InWord(s[n])
  {
    if s == [] || !InWord(s[0]) then 0 else 1 + WordLength(s[1..])
  }

  /** The index of the first quote in `s`, or `|s|` when there is none. */
  function QuoteEnd(s: string): (n: nat)
    ensures n <= |s|
    ensures forall i :: 0 <= i < n ==> s[i] != '"'
    ensures n < |s| ==> s[n] == '"'
  {
    if s == [] || s[0] == '"' then 0 else 1 + QuoteEnd(s[1..])
  }

  /**
   * The token for a whole bare word: "--" and letters is a long flag, "-"
   * and letters is a group of short flags, anything else is an argument.
   */
  function Classify(w: string): (t: Token)
    ensures t.LongFlag? <==> |w| >= 3 && w[0] == '-' && w[1] == '-' && AllLetters(w[2..])
    ensures t.Flags? <==> |w| >= 2 && w[0] == '-' && AllLetters(w[1..])
    ensures t.LongFlag? ==> w == "--" + t.name
    ensures t.Flags? ==> w == "-" + t.chars
    ensures t.ArgStr? ==> t.text == w
    ensures t != Error
  {
    if |w| >= 3 && w[0] == '-' && w[1] == '-' && AllLetters(w[2..]) then LongFlag(w[2..])
    else if |w| >= 2 && w[0] == '-' && AllLetters(w[1..]) then Flags(w[1..])
    else ArgStr(w)
  }

  /**
   * The token stream of `s`. White space separates tokens and is skipped;
   * a quote starts an argument that runs to the next quote; a quote with no
   * partner is an error, after which lexing resumes at the next character.
   */
  function Lex(s: string): (toks: seq<Token>)
    ensures Error in toks ==> '"' in s
    decreases |s|
  {
    if s == [] then []
    else if IsSpace(s[0]) then Lex(s[1..])
    else if s[0] == '"' then
      var n := QuoteEnd(s[1..]);
      if n < |s| - 1 then [ArgStr(s[1..n + 1])] + Lex(s[n + 2..])
      else [Error] + Lex(s[1..])
    else
      var n := WordLength(s);
      assert n >= 1;
      [Classify(s[..n])] + Lex(s[n..])
  }

  /** The count of a flag so far (`entry(c).or_insert(0)`). */
  function FlagCount(flags: map<char, nat>, c: char): nat {
    if c in flags then flags[c] else 0
  }

  /** The flag map after each character of `cs` is counted once more. */
  function CountFlags(flags: map<char, nat>, cs: string): map<char, nat>
    decreases |cs|
  {
    if cs == [] then flags
    else CountFlags(flags[cs[0] := FlagCount(flags, cs[0]) + 1], cs[1..])
  }

  /**
   * The outcome of parsing the tokens `toks` on top of what `acc` already
   * holds: short flags are counted, an argument is appended, a long flag
   * takes the argument after it as its value, and anything else fails.
   */
  function ParseFrom(toks: seq<Token>, acc: Args): (r: Parsed)
    ensures Error in toks ==> r == Err
    ensures r.Ok? ==> acc.kwargs.Keys <= r.value.kwargs.Keys
    decreases |toks|
  {
    if toks == [] then Ok(acc)
    else match toks[0]
      case Flags(cs) => ParseFrom(toks[1..], acc.(flags := CountFlags(acc.flags, cs)))
      case ArgStr(a) => ParseFrom(toks[1..], acc.(args := acc.args + [a]))
      case LongFlag(f) =>
        if |toks| > 1 && toks[1].ArgStr? then ParseFrom(toks[2..], acc.(kwargs := acc.kwargs[f := toks[1].text]))
        else Err
      case Error => Err
  }

  /** `Args::parse`: the lexer's tokens, taken one at a time. */
  method Parse(s: string) returns (r: Parsed)
    ensures r == ParseFrom(Lex(s), NoArgs)
  {
    var toks := Lex(s);
    var flags: map<char, nat> := map[];
    var args: seq<string> := [];
    var kwargs: map<string, string> := map[];
    var i := 0;
    while i < |toks|
      invariant 0 <= i <= |toks|
      invariant ParseFrom(toks[i..], Args(kwargs, args, flags)) == ParseFrom(toks, NoArgs)
      decreases |toks| - i
    {
      assert toks[i..][1..] == toks[i + 1..];
      match toks[i]
      case Flags(chars) =>
        ghost var before := flags;
        var j := 0;
        while j < |chars|
          invariant 0 <= j <= |chars|
          invariant CountFlags(flags, chars[j..]) == CountFlags(before, chars)
        {
          assert chars[j..][1..] == chars[j + 1..];
          flags := flags[chars[j] := FlagCount(flags, chars[j]) + 1];
          j := j + 1;
        }
        i := i + 1;
      case ArgStr(a) =>
        args := args + [a];
        i := i + 1;
      case LongFlag(f) =>
        if i + 1 < |toks| && toks[i + 1].ArgStr? {
          assert toks[i..][2..] == toks[i + 2..];
          kwargs := kwargs[f := toks[i + 1].text];
          i := i + 2;
        } else {
          return Err;
        }
      case Error =>
        return Err;
    }
    return Ok(Args(kwargs, args, flags));
  }

  /** No error token, and every long flag is directly followed by an argument. */
  predicate WellFormed(toks: seq<Token>) {
    (forall i :: 0 <= i < |toks| ==> toks[i] != Error)
    && (forall i :: 0 <= i < |toks| && toks[i].LongFlag? ==> i + 1 < |toks| && toks[i + 1].ArgStr?)
  }

  /** Dropping a first token that is neither an error nor a long flag keeps well-formedness as it was. */
  lemma WellFormedTail(toks: seq<Token>, k: nat)
    requires 0 < k <= |toks|
    requires forall i :: 0 <= i < k ==> toks[i] != Error && !toks[i].LongFlag?
    ensures WellFormed(toks) <==> WellFormed(toks[k..])
  {
    if WellFormed(toks[k..]) {
      forall i | 0 <= i < |toks| && toks[i].LongFlag?
        ensures i + 1 < |toks| && toks[i + 1].ArgStr?
      {
        assert toks[k..][i - k] == toks[i];
      }
      forall i | 0 <= i < |toks|
        ensures toks[i] != Error
      {
        if i >= k {
          assert toks[k..][i - k] == toks[i];
        }
      }
    }
  }

  /** Parsing succeeds exactly on well-formed token streams. */
  lemma {:induction false} ParseOkIffWellFormed(toks: seq<Token>, acc: Args)
    ensures ParseFrom(toks, acc).Ok? <==> WellFormed(toks)
    decreases |toks|
  {
    if toks != [] {
      match toks[0]
      case Flags(cs) =>
        WellFormedTail(toks, 1);
        ParseOkIffWellFormed(toks[1..], acc.(flags := CountFlags(acc.flags, cs)));
      case ArgStr(a) =>
        WellFormedTail(toks, 1);
        ParseOkIffWellFormed(toks[1..], acc.(args := acc.args + [a]));
      case LongFlag(f) =>
        if |toks| > 1 && toks[1].ArgStr? {
          var rest := toks[2..];
          ParseOkIffWellFormed(rest, acc.(kwargs := acc.kwargs[f := toks[1].text]));
          if WellFormed(rest) {
            forall i | 0 <= i < |toks| && toks[i].LongFlag?
              ensures i + 1 < |toks| && toks[i + 1].ArgStr?
            {
              if i >= 2 {
                assert rest[i - 2] == toks[i];
              }
            }
            forall i | 0 <= i < |toks|
              ensures toks[i] != Error
            {
              if i >= 2 {
                assert rest[i - 2] == toks[i];
              }
            }
          }
          if WellFormed(toks) {
            forall i | 0 <= i < |rest| && rest[i].LongFlag?
              ensures i + 1 < |rest| && rest[i + 1].ArgStr?
            {
              assert rest[i] == toks[i + 2];
            }
            forall i | 0 <= i < |rest|
              ensures rest[i] != Error
            {
              assert rest[i] == toks[i + 2];
            }
          }
        } else {
          assert !WellFormed(toks);
        }
      case Error =>
        assert !WellFormed(toks);
    }
  }

  /** Counting `cs` adds, for each character, the number of times it occurs in `cs`. */
  lemma {:induction false} CountFlagsCounts(flags: map<char, nat>, cs: string)
    ensures forall c :: FlagCount(CountFlags(flags, cs), c) == FlagCount(flags, c) + multiset(cs)[c]
    decreases |cs|
  {
    if cs != [] {
      CountFlagsCounts(flags[cs[0] := FlagCount(flags, cs[0]) + 1], cs[1..]);
      assert cs == [cs[0]] + cs[1..];
      assert multiset(cs) == multiset{cs[0]} + multiset(cs[1..]);
    }
  }

  /** The letters of all short-flag tokens, in order. */
  function FlagLetters(toks: seq<Token>): string
    decreases |toks|
  {
    if toks == [] then []
    else (if toks[0].Flags? then toks[0].chars else []) + FlagLetters(toks[1..])
  }

  /** Every short flag counts the times its letter appears across all flag groups. */
  lemma {:induction false} ParseCountsFlags(toks: seq<Token>, acc: Args)
    requires ParseFrom(toks, acc).Ok?
    ensures forall c :: FlagCount(ParseFrom(toks, acc).value.flags, c) == FlagCount(acc.flags, c) + multiset(FlagLetters(toks))[c]
    decreases |toks|
  {
    if toks != [] {
      match toks[0]
      case Flags(cs) =>
        var next := acc.(flags := CountFlags(acc.flags, cs));
        ParseCountsFlags(toks[1..], next);
        CountFlagsCounts(acc.flags, cs);
        assert multiset(FlagLetters(toks)) == multiset(cs) + multiset(FlagLetters(toks[1..]));
      case ArgStr(a) =>
        ParseCountsFlags(toks[1..], acc.(args := acc.args + [a]));
      case LongFlag(f) =>
        ParseCountsFlags(toks[2..], acc.(kwargs := acc.kwargs[f := toks[1].text]));
        assert FlagLetters(toks) == FlagLetters(toks[1..]) == FlagLetters(toks[2..]);
    }
  }

  /**
   * The arguments of `toks` that are positional: every argument token
   * except one that directly follows a long flag (`afterLong` says whether
   * the token before `toks` was a long flag).
   */
  function Positionals(toks: seq<Token>, afterLong: bool): seq<string>
    decreases |toks|
  {
    if toks == [] then []
    else (if toks[0].ArgStr? && !afterLong then [toks[0].text] else []) + Positionals(toks[1..], toks[0].LongFlag?)
  }

  /** The positional arguments are the argument tokens not taken by a long flag, in order. */
  lemma {:induction false} ParseCollectsPositionals(toks: seq<Token>, acc: Args)
    requires ParseFrom(toks, acc).Ok?
    ensures ParseFrom(toks, acc).value.args == acc.args + Positionals(toks, false)
    decreases |toks|
  {
    if toks != [] {
      match toks[0]
      case Flags(cs) =>
        var next := acc.(flags := CountFlags(acc.flags, cs));
        ParseCollectsPositionals(toks[1..], next);
      case ArgStr(a) =>
        var next := acc.(args := acc.args + [a]);
        ParseCollectsPositionals(toks[1..], next);
        assert Positionals(toks, false) == [a] + Positionals(toks[1..], false);
        assert acc.args + [a] + Positionals(toks[1..], false) == acc.args + ([a] + Positionals(toks[1..], false));
      case LongFlag(f) =>
        var next := acc.(kwargs := acc.kwargs[f := toks[1].text]);
        ParseCollectsPositionals(toks[2..], next);
        assert toks[1..][1..] == toks[2..];
        assert Positionals(toks[1..], true) == Positionals(toks[2..], false);
        assert Positionals(toks, false) == Positionals(toks[2..], false);
    }
  }

  /** The value following the last `--f` in `toks`, if any. */
  function LastValue(toks: seq<Token>, f: string): Option<string>
    decreases |toks|
  {
    if toks == [] then None
    else
      var later := LastValue(toks[1..], f);
      if later.Some? then later
      else if toks[0] == LongFlag(f) && |toks| > 1 && toks[1].ArgStr? then Some(toks[1].text)
      else None
  }

  function Lookup(m: map<string, string>, k: string): Option<string> {
    if k in m then Some(m[k]) else None
  }

  /**
   * A keyword given several times keeps the value of its last occurrence;
   * a keyword never given keeps what `acc` had.
   */
  lemma {:induction false} ParseKeepsLastKeyword(toks: seq<Token>, acc: Args)
    requires ParseFrom(toks, acc).Ok?
    ensures forall f :: Lookup(ParseFrom(toks, acc).value.kwargs, f) ==
                        if LastValue(toks, f).Some? then LastValue(toks, f) else Lookup(acc.kwargs, f)
    decreases |toks|
  {
    if toks != [] {
      match toks[0]
      case Flags(cs) =>
        ParseKeepsLastKeyword(toks[1..], acc.(flags := CountFlags(acc.flags, cs)));
      case ArgStr(a) =>
        ParseKeepsLastKeyword(toks[1..], acc.(args := acc.args + [a]));
      case LongFlag(g) =>
        ParseKeepsLastKeyword(toks[2..], acc.(kwargs := acc.kwargs[g := toks[1].text]));
        assert toks[1..][1..] == toks[2..];
    }
  }

  /** The number of quote characters in `s`. */
  function Quotes(s: string): nat {
    multiset(s)['"']
  }

  lemma QuotesSplit(a: string, b: string)
    ensures Quotes(a + b) == Quotes(a) + Quotes(b)
  {
    assert multiset(a + b) == multiset(a) + multiset(b);
  }

  lemma NoQuotes(s: string)
    requires forall i :: 0 <= i < |s| ==> s[i] != '"'
    ensures Quotes(s) == 0
  {
    assert '"' !in s;
  }

  /** Lex unfolded at a leading white-space character. */
  lemma LexSpace(s: string)
    requires s != [] && IsSpace(s[0])
    ensures Lex(s) == Lex(s[1..])
  {
  }

  /** Lex unfolded at a quote with a partner `n + 1` characters later. */
  lemma LexQuoted(s: string, n: nat)
    requires s != [] && s[0] == '"' && n == QuoteEnd(s[1..]) && n < |s| - 1
    ensures Lex(s) == [ArgStr(s[1..n + 1])] + Lex(s[n + 2..])
  {
    assert !IsSpace(s[0]);
  }

  /** Lex unfolded at a quote without a partner. */
  lemma LexUnpaired(s: string)
    requires s != [] && s[0] == '"' && QuoteEnd(s[1..]) >= |s| - 1
    ensures Lex(s) == [Error] + Lex(s[1..])
  {
  }

  /** Lex unfolded at a bare word of length `n`. */
  lemma LexWord(s: string, n: nat)
    requires s != [] && InWord(s[0]) && n == WordLength(s)
    ensures Lex(s) == [Classify(s[..n])] + Lex(s[n..])
  {
  }

  /** An odd number of quotes leaves one without a partner, which lexes to an error. */
  lemma {:induction false} UnbalancedQuoteLexesError(s: string)
    requires Quotes(s) % 2 == 1
    ensures Error in Lex(s)
    decreases |s|
  {
    assert s == [s[0]] + s[1..];
    QuotesSplit([s[0]], s[1..]);
    if IsSpace(s[0]) {
      LexSpace(s);
      UnbalancedQuoteLexesError(s[1..]);
    } else if s[0] == '"' {
      var n := QuoteEnd(s[1..]);
      if n < |s| - 1 {
        QuotedPairRest(s, n);
        LexQuoted(s, n);
        UnbalancedQuoteLexesError(s[n + 2..]);
      } else {
        LexUnpaired(s);
      }
    } else {
      var n := WordLength(s);
      WordRest(s, n);
      LexWord(s, n);
      UnbalancedQuoteLexesError(s[n..]);
    }
  }

  /** A quoted argument holds two quotes: its own. */
  lemma QuotedPairRest(s: string, n: nat)
    requires s != [] && s[0] == '"' && n == QuoteEnd(s[1..]) && n < |s| - 1
    ensures Quotes(s) == Quotes(s[n + 2..]) + 2
    ensures Quotes(s[n + 2..]) % 2 == Quotes(s) % 2
  {
    assert s == ([s[0]] + s[1..n + 1] + [s[n + 1]]) + s[n + 2..];
    QuotesSplit([s[0]] + s[1..n + 1] + [s[n + 1]], s[n + 2..]);
    QuotesSplit([s[0]] + s[1..n + 1], [s[n + 1]]);
    QuotesSplit([s[0]], s[1..n + 1]);
    NoQuotes(s[1..n + 1]);
  }

  /** A bare word holds no quote. */
  lemma WordRest(s: string, n: nat)
    requires n == WordLength(s)
    ensures Quotes(s) == Quotes(s[n..])
  {
    assert s == s[..n] + s[n..];
    QuotesSplit(s[..n], s[n..]);
    NoQuotes(s[..n]);
  }

  /** A command with an unpaired quote is rejected. */
  lemma UnbalancedQuoteFails(s: string)
    requires Quotes(s) % 2 == 1
    ensures ParseFrom(Lex(s), NoArgs) == Err
  {
    UnbalancedQuoteLexesError(s);
    ParseOkIffWellFormed(Lex(s), NoArgs);
  }

  /** The closing quote after quote-free text is found right after it. */
  lemma {:induction false} QuoteEndAfter(t: string)
    requires forall i :: 0 <= i < |t| ==> t[i] != '"'
    ensures QuoteEnd(t + ['"']) == |t|
    decreases |t|
  {
    if t != [] {
      assert (t + ['"'])[1..] == t[1..] + ['"'];
      QuoteEndAfter(t[1..]);
    }
  }

  /**
   * Quoting round-trips: any text without a quote, spaces and dashes
   * included, comes back as the single positional argument.
   */
  lemma QuotedArgument(t: string)
    requires forall i :: 0 <= i < |t| ==> t[i] != '"'
    ensures Lex(['"'] + t + ['"']) == [ArgStr(t)]
    ensures ParseFrom(Lex(['"'] + t + ['"']), NoArgs) == Ok(Args(map[], [t], map[]))
  {
    QuotedLex(['"'] + t + ['"'], t);
    SingleArgument(t);
  }

  lemma QuotedLex(s: string, t: string)
    requires forall i :: 0 <= i < |t| ==> t[i] != '"'
    requires s == ['"'] + t + ['"']
    ensures Lex(s) == [ArgStr(t)]
  {
    assert s[1..] == t + ['"'];
    QuoteEndAfter(t);
    var n := |t|;
    assert s[1..n + 1] == t;
    assert s[n + 2..] == [];
    LexQuoted(s, n);
  }

  lemma SingleArgument(t: string)
    ensures ParseFrom([ArgStr(t)], NoArgs) == Ok(Args(map[], [t], map[]))
  {
    assert [ArgStr(t)][1..] == [];
  }

  /** White space yields no token, so the tokens run out exactly when the text is blank. */
  lemma {:induction false} LexEmptyIffBlank(s: string)
    ensures Lex(s) == [] <==> forall i :: 0 <= i < |s| ==> IsSpace(s[i])
  {
    if forall i :: 0 <= i < |s| ==> IsSpace(s[i]) {
      BlankParsesEmpty(s);
    } else if Lex(s) == [] {
      LexEmptyOnlyWhenBlank(s);
      assert false;
    }
  }

  lemma {:induction false} LexEmptyOnlyWhenBlank(s: string)
    requires Lex(s) == []
    ensures forall i :: 0 <= i < |s| ==> IsSpace(s[i])
    decreases |s|
  {
    if s != [] {
      assert IsSpace(s[0]);
      LexEmptyOnlyWhenBlank(s[1..]);
      forall i | 1 <= i < |s|
        ensures IsSpace(s[i])
      {
        assert s[i] == s[1..][i - 1];
      }
    }
  }

  /** Text that is all white space parses to no arguments at all. */
  lemma {:induction false} BlankParsesEmpty(s: string)
    requires forall i :: 0 <= i < |s| ==> IsSpace(s[i])
    ensures Lex(s) == []
    ensures ParseFrom(Lex(s), NoArgs) == Ok(NoArgs)
    decreases |s|
  {
    if s != [] {
      BlankParsesEmpty(s[1..]);
    }
  }
}
