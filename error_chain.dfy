/** The report of the causes of a top-level error: a header, then one line
    per cause, numbered only when there are at least two. The output stream is
    modelled as the sequence of lines written to it. */
module ErrorChain {
  import opened Options

  /** An error and the error it was caused by, if any. */
  datatype Error = Error(message: string, source: Option<Error>)

  /** The messages of an error and all its causes, outermost first. */
  function Chain(e: Error): (r: seq<string>)
    ensures |r| >= 1 && r[0] == e.message
    ensures e.source.Some? <==> |r| >= 2
    ensures e.source.Some? ==> r[1..] == Chain(e.source.value)
    decreases e
  {
    [e.message] + match e.source case None => [] case Some(s) => Chain(s)
  }

  const Header: string := "\nCaused by:"

  /** Six spaces: the indent of a lone cause, as wide as a numbered prefix. */
  const Indent: string := "      "

  function Digit(d: nat): (c: char)
    requires d < 10
    ensures '0' <= c <= '9'
  {
    ('0' as int + d) as char
  }

  /** The decimal text of `n`, most significant digit first. */
  function Decimal(n: nat): (s: string)
    ensures 1 <= |s|
    ensures forall i :: 0 <= i < |s| ==> '0' <= s[i] <= '9'
    decreases n
  {
    if n < 10 then [Digit(n)] else Decimal(n / 10) + [Digit(n % 10)]
  }

  /** The number a string of decimal digits denotes. */
  function ParseDecimal(s: string): nat
    requires forall i :: 0 <= i < |s| ==> '0' <= s[i] <= '9'
    decreases |s|
  {
    if s == [] then 0 else ParseDecimal(s[..|s| - 1]) * 10 + (s[|s| - 1] as int - '0' as int)
  }

  /** Right alignment in a field of `width`: spaces on the left, and a text
      that is already wide enough is kept whole. */
  function PadLeft(s: string, width: nat): (r: string)
    ensures |r| == if |s| < width then width else |s|
    ensures r[|r| - |s|..] == s
    ensures forall i :: 0 <= i < |r| - |s| ==> r[i] == ' '
  {
    if |s| < width then seq(width - |s|, _ => ' ') + s else s
  }

  /** Drops the leading spaces of a string. */
  function TrimStart(s: string): (r: string)
    ensures |r| <= |s| && r == s[|s| - |r|..]
    ensures r != [] ==> r[0] != ' '
  {
    if s != [] && s[0] == ' ' then TrimStart(s[1..]) else s
  }

  /** The line for cause `i`: its number right-aligned in four columns and a
      colon when the causes are numbered, the six-space indent otherwise. */
  function CauseLine(i: nat, cause: string, numbered: bool): (r: string)
    ensures |r| >= 6 + |cause| && r[|r| - |cause|..] == cause
    ensures !numbered ==> r[..6] == Indent
    ensures numbered ==> r[|r| - |cause| - 2..|r| - |cause|] == ": " && r[0] != ':'
  {
    if numbered then PadLeft(Decimal(i), 4) + ": " + cause else Indent + cause
  }

  /** Writes the causes of `err` as the entry point does after printing the
      error itself: nothing when there is no cause, otherwise the header and
      one line per cause in chain order, numbered from 0 exactly when there
      are two causes or more. */
  method PrintErrorChain(err: Error) returns (lines: seq<string>)
    ensures lines == [] <==> |Chain(err)| < 2
    ensures |Chain(err)| >= 2 ==> |lines| == |Chain(err)| && lines[0] == Header
    ensures forall k :: 1 <= k < |lines| ==>
      lines[k] == CauseLine(k - 1, Chain(err)[k], |Chain(err)| >= 3)
  {
    lines := [];
    if err.source.Some? {
      var cause := err.source.value;
      var isMultiple := cause.source.Some?;
      lines := lines + [Header];
      var causes := Chain(err)[1..];
      assert causes == Chain(cause);
      assert isMultiple <==> |Chain(err)| >= 3;
      var i := 0;
      while i < |causes|
        invariant 0 <= i <= |causes|
        invariant |lines| == i + 1 && lines[0] == Header
        invariant forall k :: 1 <= k <= i ==> lines[k] == CauseLine(k - 1, causes[k - 1], isMultiple)
      {
        var line;
        if isMultiple {
          line := PadLeft(Decimal(i), 4) + ": " + causes[i];
        } else {
          line := Indent + causes[i];
        }
        assert line == CauseLine(i, causes[i], isMultiple);
        lines := lines + [line];
        i := i + 1;
      }
      assert forall k :: 1 <= k < |lines| ==> causes[k - 1] == Chain(err)[k];
    }
  }

  // ---------------------------------------------------------------------------
  // Properties of the cause lines

  function Pow10(k: nat): (r: nat)
    ensures r >= 1
  {
    if k == 0 then 1 else 10 * Pow10(k - 1)
  }

  /** A number below 10^w has at most w digits. */
  lemma {:induction false} DecimalWidth(n: nat, w: nat)
    requires 1 <= w && n < Pow10(w)
    ensures |Decimal(n)| <= w
  {
    if n >= 10 {
      assert w >= 2;
      assert n / 10 < Pow10(w - 1);
      DecimalWidth(n / 10, w - 1);
    }
  }

  /** Reading the decimal text back gives the number. */
  lemma {:induction false} DecimalRoundTrip(n: nat)
    ensures ParseDecimal(Decimal(n)) == n
    decreases n
  {
    var s := Decimal(n);
    if n >= 10 {
      assert s[..|s| - 1] == Decimal(n / 10);
      DecimalRoundTrip(n / 10);
    } else {
      assert s[..|s| - 1] == [];
    }
  }

  /** Both layouts put the message at column 6, below 10000 causes. */
  lemma CauseLineMessageColumn(i: nat, cause: string, numbered: bool)
    requires i < 10000
    ensures |CauseLine(i, cause, numbered)| == 6 + |cause|
    ensures CauseLine(i, cause, numbered)[6..] == cause
  {
    if numbered {
      DecimalWidth(i, 4);
      var p := PadLeft(Decimal(i), 4);
      assert |p| == 4;
      assert CauseLine(i, cause, numbered) == (p + ": ") + cause;
    }
  }

  /** A numbered line shows its cause index, right-aligned before the colon. */
  lemma CauseLineNumber(i: nat, cause: string)
    requires i < 10000
    ensures var line := CauseLine(i, cause, true);
      line[4..6] == ": " && ParseDecimal(TrimStart(line[..4])) == i
  {
    DecimalWidth(i, 4);
    var d := Decimal(i);
    var p := PadLeft(d, 4);
    var line := CauseLine(i, cause, true);
    assert line == p + ": " + cause;
    assert line[..4] == p;
    TrimPadded(d, 4);
    DecimalRoundTrip(i);
  }

  /** Trimming leading spaces off a text that does not start with one gives
      the text back. */
  lemma {:induction false} TrimSpaces(n: nat, s: string)
    requires s != [] && s[0] != ' '
    ensures TrimStart(seq(n, _ => ' ') + s) == s
    decreases n
  {
    var t := seq(n, _ => ' ') + s;
    if n == 0 {
      assert t == s;
    } else {
      assert t[0] == ' ';
      assert t[1..] == seq(n - 1, _ => ' ') + s;
      TrimSpaces(n - 1, s);
    }
  }

  /** Trimming the padding of a text that does not start with a space gives
      the text back. */
  lemma TrimPadded(s: string, width: nat)
    requires s != [] && s[0] != ' '
    ensures TrimStart(PadLeft(s, width)) == s
  {
    if |s| < width {
      TrimSpaces(width - |s|, s);
    } else {
      TrimSpaces(0, s);
      assert seq(0, _ => ' ') + s == s;
    }
  }
}
