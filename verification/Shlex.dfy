/** Word splitting and quoting as Python's `shlex` module does it in POSIX mode:
    `shlex.split` (here `Tokenize`), `shlex.quote` (`Quote`) and `shlex.join`
    (`JoinArgs`). The command helper hands every command string to
    `shlex.split` and rebuilds command text with `shlex.join`. */
module Shlex {
  import opened Wrappers
  import PyText

  /** The characters `shlex` separates words with. */
  predicate IsShellSpace(c: char) {
    c == ' ' || c == '\t' || c == '\r' || c == '\n'
  }

  /** The quote and escape characters of POSIX mode. */
  predicate IsShellSpecial(c: char) {
    c == '\'' || c == '"' || c == '\\'
  }

  /** Text the lexer reads as plain words separated by whitespace. */
  predicate IsPlainText(s: string) {
    forall k :: 0 <= k < |s| ==> !IsShellSpecial(s[k])
  }

  /** Text that is one plain word: no whitespace, quotes or backslashes. */
  predicate IsPlainWord(w: string) {
    forall k :: 0 <= k < |w| ==> !IsShellSpace(w[k]) && !IsShellSpecial(w[k])
  }

  predicate AllShellSpace(s: string) {
    forall k :: 0 <= k < |s| ==> IsShellSpace(s[k])
  }

  /** The two `ValueError`s `shlex.split` raises. */
  datatype LexError = NoClosingQuotation | NoEscapedCharacter

  /** Where the lexer stands between two characters. */
  datatype LexMode =
    | Between         // no word in progress
    | InWord          // in the unquoted part of a word
    | InSingle        // after an opening '
    | InDouble        // after an opening "
    | EscapeInWord    // after a backslash outside quotes
    | EscapeInDouble  // after a backslash inside "..."

  /** Reads `s` in `mode`, with `cur` the word in progress and `acc` the words
      finished so far. A word ends at whitespace or at the end of the text, and
      it is always emitted, even when empty: the lexer only reaches `InWord`
      with an empty word by closing a quote, and a quoted empty word counts. */
  function Lex(s: string, mode: LexMode, cur: string, acc: seq<string>): Result<seq<string>, LexError>
    decreases |s|
  {
    if s == [] then
      match mode
      case Between => Ok(acc)
      case InWord => Ok(acc + [cur])
      case InSingle => Err(NoClosingQuotation)
      case InDouble => Err(NoClosingQuotation)
      case EscapeInWord => Err(NoEscapedCharacter)
      case EscapeInDouble => Err(NoEscapedCharacter)
    else
      var c, rest := s[0], s[1..];
      match mode
      case Between =>
        if IsShellSpace(c) then Lex(rest, Between, "", acc)
        else if c == '\\' then Lex(rest, EscapeInWord, "", acc)
        else if c == '\'' then Lex(rest, InSingle, "", acc)
        else if c == '"' then Lex(rest, InDouble, "", acc)
        else Lex(rest, InWord, [c], acc)
      case InWord =>
        if IsShellSpace(c) then Lex(rest, Between, "", acc + [cur])
        else if c == '\'' then Lex(rest, InSingle, cur, acc)
        else if c == '"' then Lex(rest, InDouble, cur, acc)
        else if c == '\\' then Lex(rest, EscapeInWord, cur, acc)
        else Lex(rest, InWord, cur + [c], acc)
      case InSingle =>
        if c == '\'' then Lex(rest, InWord, cur, acc)
        else Lex(rest, InSingle, cur + [c], acc)
      case InDouble =>
        if c == '"' then Lex(rest, InWord, cur, acc)
        else if c == '\\' then Lex(rest, EscapeInDouble, cur, acc)
        else Lex(rest, InDouble, cur + [c], acc)
      case EscapeInWord =>
        Lex(rest, InWord, cur + [c], acc)
      case EscapeInDouble =>
        // inside double quotes a backslash only escapes `"` and itself
        if c == '"' || c == '\\' then Lex(rest, InDouble, cur + [c], acc)
        else Lex(rest, InDouble, cur + ['\\', c], acc)
  }

  /** A non-empty word free of whitespace. */
  predicate IsSolidWord(w: string) {
    w != [] && forall k :: 0 <= k < |w| ==> !IsShellSpace(w[k])
  }

  /** Reading plain text never fails, and every word it yields is non-empty and
      free of whitespace, provided the words already collected are. */
  lemma {:induction false} LexPlain(s: string, mode: LexMode, cur: string, acc: seq<string>)
    requires IsPlainText(s)
    requires mode == Between || (mode == InWord && IsSolidWord(cur))
    requires forall i :: 0 <= i < |acc| ==> IsSolidWord(acc[i])
    ensures Lex(s, mode, cur, acc).Ok?
    ensures forall i :: 0 <= i < |Lex(s, mode, cur, acc).value| ==> IsSolidWord(Lex(s, mode, cur, acc).value[i])
    decreases |s|
  {
    if s == [] {
      if mode == InWord {
        assert (acc + [cur])[|acc|] == cur;
      }
    } else {
      var c, rest := s[0], s[1..];
      assert IsPlainText(rest) by {
        forall k | 0 <= k < |rest| ensures !IsShellSpecial(rest[k]) {
          assert rest[k] == s[k + 1];
        }
      }
      assert !IsShellSpecial(c);
      if IsShellSpace(c) {
        if mode == InWord {
          LexPlain(rest, Between, "", acc + [cur]);
        } else {
          LexPlain(rest, Between, "", acc);
        }
      } else if mode == InWord {
        LexPlain(rest, InWord, cur + [c], acc);
      } else {
        LexPlain(rest, InWord, [c], acc);
      }
    }
  }

  /** `shlex.split(s)`. */
  function Tokenize(s: string): (r: Result<seq<string>, LexError>)
    ensures IsPlainText(s) ==> r.Ok?
    ensures IsPlainText(s) ==> forall i :: 0 <= i < |r.value| ==> IsSolidWord(r.value[i])
  {
    if IsPlainText(s) then LexPlain(s, Between, "", []); Lex(s, Between, "", [])
    else Lex(s, Between, "", [])
  }

  /** The characters `shlex.quote` leaves unquoted (its pattern is ASCII-only). */
  predicate IsSafe(c: char) {
    || ('a' <= c <= 'z') || ('A' <= c <= 'Z') || ('0' <= c <= '9')
    || c == '_' || c == '@' || c == '%' || c == '+' || c == '=' || c == ':'
    || c == ',' || c == '.' || c == '/' || c == '-'
  }

  predicate AllSafe(a: string) {
    forall k :: 0 <= k < |a| ==> IsSafe(a[k])
  }

  /** `a.replace("'", "'\"'\"'")`: each single quote closes the quoted text,
      appears inside double quotes, and reopens the quoted text. */
  function EscapeSingleQuotes(a: string): (e: string)
    ensures forall k :: 0 <= k < |e| ==> e[k] in a || e[k] == '\'' || e[k] == '"'
  {
    if a == [] then ""
    else
      var head := if a[0] == '\'' then "'\"'\"'" else [a[0]];
      var tail := EscapeSingleQuotes(a[1..]);
      assert forall k :: 0 <= k < |tail| ==> tail[k] in a || tail[k] == '\'' || tail[k] == '"' by {
        forall k | 0 <= k < |tail| && tail[k] in a[1..] ensures tail[k] in a {
          var j :| 0 <= j < |a[1..]| && a[1..][j] == tail[k];
          assert a[j + 1] == tail[k];
        }
      }
      head + tail
  }

  /** `shlex.quote(a)`: the empty word becomes `''`, a word of safe characters
      stays as it is, anything else is wrapped in single quotes. */
  function Quote(a: string): (q: string)
    ensures q != []
    ensures forall k :: 0 <= k < |q| ==> q[k] in a || q[k] == '\'' || q[k] == '"'
  {
    if a == [] then "''"
    else if AllSafe(a) then a
    else "'" + EscapeSingleQuotes(a) + "'"
  }

  function QuoteAll(args: seq<string>): (qs: seq<string>)
    ensures |qs| == |args|
    ensures forall i :: 0 <= i < |args| ==> qs[i] == Quote(args[i])
  {
    if args == [] then [] else [Quote(args[0])] + QuoteAll(args[1..])
  }

  /** `shlex.join(args)`: the quoted words separated by single spaces. */
  function JoinArgs(args: seq<string>): string {
    PyText.JoinWith(QuoteAll(args), " ")
  }

  /** A plain word inside a word is taken over character for character. */
  lemma {:induction false} LexPlainWord(w: string, t: string, cur: string, acc: seq<string>)
    requires IsPlainWord(w)
    ensures Lex(w + t, InWord, cur, acc) == Lex(t, InWord, cur + w, acc)
    decreases |w|
  {
    if w == [] {
      assert w + t == t && cur + w == cur;
    } else {
      var u := w + t;
      assert u[0] == w[0] && u[1..] == w[1..] + t;
      assert IsPlainWord(w[1..]) by {
        forall k | 0 <= k < |w[1..]| ensures !IsShellSpace(w[1..][k]) && !IsShellSpecial(w[1..][k]) {
          assert w[1..][k] == w[k + 1];
        }
      }
      assert !IsShellSpace(w[0]) && !IsShellSpecial(w[0]);
      LexPlainWord(w[1..], t, cur + [w[0]], acc);
      assert cur + [w[0]] + w[1..] == cur + w;
    }
  }

  /** Inside single quotes, the five characters `'"'"'` that stand for one
      single quote add exactly that quote to the word and reopen the quotes. */
  lemma LexEscapedQuote(rest: string, cur: string, acc: seq<string>)
    ensures Lex("'\"'\"'" + rest, InSingle, cur, acc) == Lex(rest, InSingle, cur + "'", acc)
  {
    var u := "'\"'\"'" + rest;
    var c := cur + "'";
    assert u[0] == '\'' && u[1..] == "\"'\"'" + rest;
    assert u[1..][0] == '"' && u[1..][1..] == "'\"'" + rest;
    assert u[2..][0] == '\'' && u[2..][1..] == "\"'" + rest;
    assert u[3..][0] == '"' && u[3..][1..] == "'" + rest;
    assert u[4..][0] == '\'' && u[4..][1..] == rest;
    assert u[1..][1..] == u[2..] && u[2..][1..] == u[3..] && u[3..][1..] == u[4..];
    calc {
      Lex(u, InSingle, cur, acc);
      Lex(u[1..], InWord, cur, acc);
      Lex(u[2..], InDouble, cur, acc);
      Lex(u[3..], InDouble, c, acc);
      Lex(u[4..], InWord, c, acc);
      Lex(rest, InSingle, c, acc);
    }
  }

  /** Inside single quotes, a character other than `'` is taken as it is. */
  lemma LexSingleChar(c: char, rest: string, cur: string, acc: seq<string>)
    requires c != '\''
    ensures Lex([c] + rest, InSingle, cur, acc) == Lex(rest, InSingle, cur + [c], acc)
  {
    assert ([c] + rest)[1..] == rest;
  }

  /** A `'` closes single quotes and continues the word. */
  lemma LexSingleClose(t: string, cur: string, acc: seq<string>)
    ensures Lex("'" + t, InSingle, cur, acc) == Lex(t, InWord, cur, acc)
  {
    assert ("'" + t)[1..] == t;
  }

  /** Inside single quotes, the escaped text of `a` followed by the closing
      quote reads back as `a`. */
  lemma {:induction false} LexSingleBody(a: string, t: string, cur: string, acc: seq<string>)
    ensures Lex(EscapeSingleQuotes(a) + "'" + t, InSingle, cur, acc) == Lex(t, InWord, cur + a, acc)
    decreases |a|
  {
    if a == [] {
      assert EscapeSingleQuotes(a) + "'" + t == "'" + t;
      LexSingleClose(t, cur, acc);
      assert cur + a == cur;
    } else {
      var rest := EscapeSingleQuotes(a[1..]) + "'" + t;
      LexSingleBody(a[1..], t, cur + [a[0]], acc);
      assert cur + [a[0]] + a[1..] == cur + a;
      if a[0] == '\'' {
        assert EscapeSingleQuotes(a) + "'" + t == "'\"'\"'" + rest;
        LexEscapedQuote(rest, cur, acc);
        assert cur + "'" == cur + [a[0]];
      } else {
        assert EscapeSingleQuotes(a) + "'" + t == [a[0]] + rest;
        LexSingleChar(a[0], rest, cur, acc);
      }
    }
  }

  /** Starting between words, a quoted word reads back as the word, which is
      still in progress afterwards. */
  lemma LexQuote(a: string, t: string, acc: seq<string>)
    ensures Lex(Quote(a) + t, Between, "", acc) == Lex(t, InWord, a, acc)
  {
    if a == [] {
      LexQuoteEmpty(t, acc);
    } else if AllSafe(a) {
      LexQuoteSafe(a, t, acc);
    } else {
      LexQuoteUnsafe(a, t, acc);
    }
  }

  lemma LexQuoteEmpty(t: string, acc: seq<string>)
    ensures Lex("''" + t, Between, "", acc) == Lex(t, InWord, "", acc)
  {
    var u := "''" + t;
    assert u[0] == '\'' && u[1..] == "'" + t;
    assert u[1..][0] == '\'' && u[1..][1..] == t;
  }

  lemma LexQuoteSafe(a: string, t: string, acc: seq<string>)
    requires a != [] && AllSafe(a)
    ensures Lex(a + t, Between, "", acc) == Lex(t, InWord, a, acc)
  {
    var u := a + t;
    assert u[0] == a[0] && u[1..] == a[1..] + t;
    assert IsPlainWord(a[1..]) by {
      forall k | 0 <= k < |a[1..]| ensures !IsShellSpace(a[1..][k]) && !IsShellSpecial(a[1..][k]) {
        assert IsSafe(a[k + 1]);
      }
    }
    assert IsSafe(a[0]);
    assert Lex(u, Between, "", acc) == Lex(u[1..], InWord, [a[0]], acc);
    LexPlainWord(a[1..], t, [a[0]], acc);
    assert [a[0]] + a[1..] == a;
  }

  lemma LexQuoteUnsafe(a: string, t: string, acc: seq<string>)
    ensures Lex("'" + EscapeSingleQuotes(a) + "'" + t, Between, "", acc) == Lex(t, InWord, a, acc)
  {
    var u := "'" + EscapeSingleQuotes(a) + "'" + t;
    assert u[0] == '\'' && u[1..] == EscapeSingleQuotes(a) + "'" + t;
    LexSingleBody(a, t, "", acc);
    assert "" + a == a;
  }

  /** Whitespace between words is skipped. */
  lemma {:induction false} LexSpaces(u: string, t: string, acc: seq<string>)
    requires AllShellSpace(u)
    ensures Lex(u + t, Between, "", acc) == Lex(t, Between, "", acc)
    decreases |u|
  {
    if u != [] {
      var v := u + t;
      assert v[0] == u[0] && v[1..] == u[1..] + t;
      assert AllShellSpace(u[1..]) by {
        forall k | 0 <= k < |u[1..]| ensures IsShellSpace(u[1..][k]) {
          assert u[1..][k] == u[k + 1];
        }
      }
      assert IsShellSpace(u[0]);
      LexSpaces(u[1..], t, acc);
    } else {
      assert u + t == t;
    }
  }

  /** A word in progress followed only by whitespace is the last word. */
  lemma LexEndWord(t: string, a: string, acc: seq<string>)
    requires AllShellSpace(t)
    ensures Lex(t, InWord, a, acc) == Ok(acc + [a])
  {
    if t != [] {
      assert IsShellSpace(t[0]);
      assert AllShellSpace(t[1..]) by {
        forall k | 0 <= k < |t[1..]| ensures IsShellSpace(t[1..][k]) {
          assert t[1..][k] == t[k + 1];
        }
      }
      LexSpaces(t[1..], "", acc + [a]);
      assert t[1..] + "" == t[1..];
    }
  }

  /** Reading `shlex.join(args)`, then only whitespace, yields exactly `args`. */
  lemma {:induction false} LexJoinArgs(args: seq<string>, t: string, acc: seq<string>)
    requires AllShellSpace(t)
    ensures Lex(JoinArgs(args) + t, Between, "", acc) == Ok(acc + args)
    decreases |args|
  {
    if |args| == 0 {
      LexJoinNone(t, acc);
      assert args == [] && acc + args == acc;
    } else if |args| == 1 {
      LexJoinOne(args[0], t, acc);
      assert [args[0]] == args;
    } else {
      var acc' := acc + [args[0]];
      assert acc' + args[1..] == acc + args by {
        assert args == [args[0]] + args[1..];
      }
      LexJoinStep(args, t, acc);
      LexJoinArgs(args[1..], t, acc');
    }
  }

  lemma LexJoinNone(t: string, acc: seq<string>)
    requires AllShellSpace(t)
    ensures Lex(JoinArgs([]) + t, Between, "", acc) == Ok(acc)
  {
    assert JoinArgs([]) + t == t + "";
    LexSpaces(t, "", acc);
  }

  lemma LexJoinOne(a: string, t: string, acc: seq<string>)
    requires AllShellSpace(t)
    ensures Lex(JoinArgs([a]) + t, Between, "", acc) == Ok(acc + [a])
  {
    assert QuoteAll([a]) == [Quote(a)];
    assert JoinArgs([a]) == Quote(a);
    LexQuote(a, t, acc);
    LexEndWord(t, a, acc);
  }

  /** The first argument of `shlex.join` is read as one whole word. */
  lemma LexJoinStep(args: seq<string>, t: string, acc: seq<string>)
    requires |args| >= 2
    ensures Lex(JoinArgs(args) + t, Between, "", acc)
         == Lex(JoinArgs(args[1..]) + t, Between, "", acc + [args[0]])
  {
    var tail := JoinArgs(args[1..]) + t;
    JoinArgsCons(args);
    assert JoinArgs(args) + t == Quote(args[0]) + (" " + tail);
    LexQuote(args[0], " " + tail, acc);
    LexWordThenSpace(tail, args[0], acc);
  }

  /** `shlex.join` of two or more arguments, unfolded once. */
  lemma JoinArgsCons(args: seq<string>)
    requires |args| >= 2
    ensures JoinArgs(args) == Quote(args[0]) + " " + JoinArgs(args[1..])
  {
    var qs := QuoteAll(args);
    assert qs[1..] == QuoteAll(args[1..]);
    PyText.JoinCons(qs, " ");
  }

  /** A space ends the word in progress. */
  lemma LexWordThenSpace(t: string, a: string, acc: seq<string>)
    ensures Lex(" " + t, InWord, a, acc) == Lex(t, Between, "", acc + [a])
  {
    var u := " " + t;
    assert u[0] == ' ' && u[1..] == t;
  }

  /** `shlex.split(shlex.join(args)) == args`, also when the joined text is
      surrounded by whitespace. */
  lemma TokenizeJoinArgs(u: string, args: seq<string>, v: string)
    requires AllShellSpace(u) && AllShellSpace(v)
    ensures Tokenize(u + JoinArgs(args) + v) == Ok(args)
  {
    assert u + JoinArgs(args) + v == u + (JoinArgs(args) + v);
    LexSpaces(u, JoinArgs(args) + v, []);
    LexJoinArgs(args, v, []);
    assert [] + args == args;
  }

  /** `shlex.join` only adds spaces and quote characters to the arguments. */
  lemma {:induction false} JoinArgsChars(args: seq<string>, c: char)
    requires c != ' ' && c != '\'' && c != '"'
    requires forall i :: 0 <= i < |args| ==> c !in args[i]
    ensures c !in JoinArgs(args)
    decreases |args|
  {
    if |args| >= 2 {
      JoinArgsCons(args);
      JoinArgsChars(args[1..], c);
      assert c !in Quote(args[0]);
    } else if |args| == 1 {
      assert c !in Quote(args[0]);
    }
  }
}
