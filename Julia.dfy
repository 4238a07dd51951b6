/** The interpreter's error reporting: the reports written to the error stream, how each is
    rendered as text, and the collector that stands for the two process-wide sticky flags and
    the error stream. */
module Julia {
  import opened Wrappers
  import opened Tokens

  // ---------------------------------------------------------------------------------------
  // Decimal text of a Java int (Java's string concatenation); line numbers only.

  predicate IsDigit(c: char) { '0' <= c <= '9' }

  function DigitChar(d: nat): char
    requires d < 10
  {
    "0123456789"[d]
  }

  function DigitValue(c: char): nat
    requires IsDigit(c)
  {
    (c as int - '0' as int) as nat
  }

  function NatToString(n: nat): (s: string)
    ensures s != [] && forall i :: 0 <= i < |s| ==> IsDigit(s[i])
  {
    if n < 10 then [DigitChar(n)] else NatToString(n / 10) + [DigitChar(n % 10)]
  }

  /** Java's decimal text of an int: a minus sign exactly for a negative number, then digits. */
  function IntToString(n: int): (s: string)
    ensures s != [] && (s[0] == '-' <==> n < 0)
    ensures forall i :: (if n < 0 then 1 else 0) <= i < |s| ==> IsDigit(s[i])
  {
    if n < 0 then "-" + NatToString(-n) else NatToString(n)
  }

  /** The number a run of decimal digits denotes. */
  function DigitsValue(d: string): nat
    requires forall i :: 0 <= i < |d| ==> IsDigit(d[i])
  {
    if d == [] then 0 else 10 * DigitsValue(d[..|d| - 1]) + DigitValue(d[|d| - 1])
  }

  /** The length of the run of digits at the start of `s`. */
  function DigitRun(s: string): (k: nat)
    ensures k <= |s|
    ensures forall i :: 0 <= i < k ==> IsDigit(s[i])
    ensures k < |s| ==> !IsDigit(s[k])
  {
    if s != [] && IsDigit(s[0]) then 1 + DigitRun(s[1..]) else 0
  }

  // ---------------------------------------------------------------------------------------
  // The diagnostics and their text.

  /** One write to the error stream: a syntax error (`report`) or a runtime error
      (`runtimeError`). Each is printed with `println`, so its text is followed by a newline. */
  datatype Diagnostic =
    | SyntaxError(line: int, where: string, message: string)
    | RuntimeFailure(message: string, line: int)

  /** `report`: the line written to the error stream for a syntax error. */
  function ReportText(line: int, where: string, message: string): string
  {
    "[line " + IntToString(line) + "] Error" + where + ": " + message
  }

  /** `runtimeError`: the message, then the line on a line of its own. */
  function RuntimeErrorText(message: string, line: int): string
  {
    message + "\n[line " + IntToString(line) + "]"
  }

  /** The text printed for a diagnostic. */
  function Text(d: Diagnostic): string
  {
    match d
    case SyntaxError(line, where, message) => ReportText(line, where, message)
    case RuntimeFailure(message, line) => RuntimeErrorText(message, line)
  }

  /** Where a syntax error at `token` is said to be. */
  function Where(token: Token): string
  {
    if token.kind == Eof then " at end" else " at '" + token.lexeme + "'"
  }

  /** `error(Token, String)`. */
  function TokenError(token: Token, message: string): Diagnostic
  {
    SyntaxError(token.line, Where(token), message)
  }

  /** `error(int, String)`: no location beyond the line. */
  function LineError(line: int, message: string): Diagnostic
  {
    SyntaxError(line, "", message)
  }

  // ---------------------------------------------------------------------------------------
  // Reading a line number back from a diagnostic.

  /** The bracketed line number at the start of `s` ("[line 12]..."), if there is one. */
  function LineOf(s: string): Option<int>
  {
    if |s| < 6 || s[..6] != "[line " then None else SignedNumber(s[6..])
  }

  /** An optionally negative number followed by ']'. */
  function SignedNumber(t: string): Option<int>
  {
    if t != [] && t[0] == '-' then
      match BracketedNumber(t[1..])
      case Some(n) => Some(-(n as int))
      case None => None
    else
      match BracketedNumber(t)
      case Some(n) => Some(n as int)
      case None => None
  }

  /** A non-empty run of digits followed by ']'. */
  function BracketedNumber(t: string): Option<nat>
  {
    var k := DigitRun(t);
    if 0 < k < |t| && t[k] == ']' then Some(DigitsValue(t[..k])) else None
  }

  lemma {:induction false} DigitsValueOfNatToString(n: nat)
    ensures DigitsValue(NatToString(n)) == n
  {
    var s := NatToString(n);
    if n >= 10 {
      DigitsValueOfNatToString(n / 10);
      assert s[..|s| - 1] == NatToString(n / 10);
    }
  }

  lemma {:induction false} DigitRunOfDigits(d: string, rest: string)
    requires forall i :: 0 <= i < |d| ==> IsDigit(d[i])
    requires rest != [] && !IsDigit(rest[0])
    ensures DigitRun(d + rest) == |d|
  {
    if d != [] {
      assert (d + rest)[1..] == d[1..] + rest;
      DigitRunOfDigits(d[1..], rest);
    }
  }

  lemma BracketedNatToString(n: nat, tail: string)
    requires tail != [] && tail[0] == ']'
    ensures BracketedNumber(NatToString(n) + tail) == Some(n)
  {
    var d := NatToString(n);
    DigitRunOfDigits(d, tail);
    assert (d + tail)[..|d|] == d;
    DigitsValueOfNatToString(n);
  }

  lemma SignedIntToString(line: int, tail: string)
    requires tail != [] && tail[0] == ']'
    ensures SignedNumber(IntToString(line) + tail) == Some(line)
  {
    if line < 0 {
      var u := NatToString(-line) + tail;
      assert IntToString(line) + tail == "-" + u;
      assert ("-" + u)[1..] == u;
      BracketedNatToString(-line, tail);
    } else {
      var d := NatToString(line);
      assert (d + tail)[0] == d[0];
      BracketedNatToString(line, tail);
    }
  }

  /** The line number in "[line N]..." reads back as N, for every int N (negative ones too). */
  lemma LineOfLineMarker(line: int, rest: string)
    ensures LineOf("[line " + IntToString(line) + "]" + rest) == Some(line)
  {
    var tail := "]" + rest;
    var t := IntToString(line) + tail;
    assert "[line " + IntToString(line) + "]" + rest == "[line " + t;
    assert ("[line " + t)[6..] == t;
    SignedIntToString(line, tail);
  }

  /** A syntax-error line starts with its line number, which can be read back. */
  lemma LineOfReport(line: int, where: string, message: string)
    ensures LineOf(Text(SyntaxError(line, where, message))) == Some(line)
  {
    var rest := " Error" + where + ": " + message;
    assert ReportText(line, where, message) == "[line " + IntToString(line) + "]" + rest;
    LineOfLineMarker(line, rest);
  }

  /** A runtime-error text is the message, a line break, and a line marker that reads back. */
  lemma RuntimeErrorTextParts(message: string, line: int)
    ensures var s := Text(RuntimeFailure(message, line));
      s[..|message|] == message && s[|message|] == '\n' && LineOf(s[|message| + 1..]) == Some(line)
  {
    var s := RuntimeErrorText(message, line);
    assert s[|message| + 1..] == "[line " + IntToString(line) + "]" + "";
    LineOfLineMarker(line, "");
  }

  /** The location is " at end" exactly for the EOF token; any other token is quoted. */
  lemma WhereAtEnd(token: Token)
    ensures Where(token) == " at end" <==> token.kind == Eof
    ensures token.kind != Eof ==> Where(token) == " at '" + token.lexeme + "'"
  {
    if token.kind != Eof {
      assert Where(token)[4] == '\'';
      assert " at end"[4] == 'e';
    }
  }

  // ---------------------------------------------------------------------------------------
  // The collector: Java's static `hadError` / `hadRuntimeError` and the error stream.

  /** One collector is shared by the scanner, the parser and the interpreter of a run. `log` holds
      what was written to the error stream, in order; both flags only ever go from false to true. */
  class Diagnostics {
    var log: seq<Diagnostic>
    var hadError: bool
    var hadRuntimeError: bool

    constructor ()
      ensures log == [] && !hadError && !hadRuntimeError
    {
      log := [];
      hadError := false;
      hadRuntimeError := false;
    }

    method Report(line: int, where: string, message: string)
      modifies this
      ensures log == old(log) + [SyntaxError(line, where, message)]
      ensures hadError && hadRuntimeError == old(hadRuntimeError)
    {
      log := log + [SyntaxError(line, where, message)];
      hadError := true;
    }

    method ErrorAtLine(line: int, message: string)
      modifies this
      ensures log == old(log) + [LineError(line, message)]
      ensures hadError && hadRuntimeError == old(hadRuntimeError)
    {
      Report(line, "", message);
    }

    method ErrorAtToken(token: Token, message: string)
      modifies this
      ensures log == old(log) + [TokenError(token, message)]
      ensures hadError && hadRuntimeError == old(hadRuntimeError)
    {
      if token.kind == Eof {
        Report(token.line, " at end", message);
      } else {
        Report(token.line, " at '" + token.lexeme + "'", message);
      }
    }

    /** The runtime error's message and the line of its token are the two things Java reads
        from the `RuntimeError` object, whose class is not part of this model. */
    method RuntimeError(message: string, line: int)
      modifies this
      ensures log == old(log) + [RuntimeFailure(message, line)]
      ensures hadRuntimeError && hadError == old(hadError)
    {
      log := log + [RuntimeFailure(message, line)];
      hadRuntimeError := true;
    }
  }
}
