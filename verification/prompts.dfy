/** The two free-text prompts of a purchase: "continue buying? (s/n)" and
    "payment method (1: debit, 2: credit)". Both compare the trimmed answer
    against a one-character code. */
module Prompts {

  /** The characters Python's `str.strip()` removes by default (`str.isspace`). */
  predicate IsSpace(ch: char)
  {
    || ('\t' <= ch <= '\r')
    || ('\U{1C}' <= ch <= '\U{1F}')
    || ch == ' '
    || ch == '\U{85}'
    || ch == '\U{A0}'
    || ch == '\U{1680}'
    || ('\U{2000}' <= ch <= '\U{200A}')
    || ch == '\U{2028}' || ch == '\U{2029}'
    || ch == '\U{202F}' || ch == '\U{205F}' || ch == '\U{3000}'
  }

  ghost predicate AllSpace(s: string)
  {
    forall i :: 0 <= i < |s| ==> IsSpace(s[i])
  }

  /** Drops leading whitespace: the result is a suffix of `s`, everything dropped
      is whitespace, and the result does not start with whitespace. */
  function TrimLeft(s: string): (r: string)
    ensures |r| <= |s| && r == s[|s| - |r|..]
    ensures AllSpace(s[..|s| - |r|])
    ensures |r| > 0 ==> !IsSpace(r[0])
    decreases |s|
  {
    if |s| > 0 && IsSpace(s[0]) then TrimLeft(s[1..]) else s
  }

  /** Drops trailing whitespace: the result is a prefix of `s`, everything dropped
      is whitespace, and the result does not end with whitespace. */
  function TrimRight(s: string): (r: string)
    ensures |r| <= |s| && r == s[..|r|]
    ensures AllSpace(s[|r|..])
    ensures |r| > 0 ==> !IsSpace(r[|r| - 1])
    decreases |s|
  {
    if |s| > 0 && IsSpace(s[|s| - 1]) then TrimRight(s[..|s| - 1]) else s
  }

  /** Python's `str.strip()` with no argument: the result neither starts nor
      ends with whitespace, and it is empty exactly when `s` is blank. */
  function Strip(s: string): (r: string)
    ensures |r| <= |s|
    ensures |r| > 0 ==> !IsSpace(r[0]) && !IsSpace(r[|r| - 1])
    ensures r == [] <==> AllSpace(s)
  {
    BlankIffStripEmpty(s);
    TrimRight(TrimLeft(s))
  }

  /** The continue prompt: the session goes on only when the answer, stripped
      and lower-cased, is "s". Lower-casing maps exactly "S" and "s" to "s". A
      blank answer never continues. */
  predicate WantsMore(answer: string): (r: bool)
    ensures AllSpace(answer) ==> !r
  {
    var t := Strip(answer);
    t == "s" || t == "S"
  }

  /** The payment prompt: the stripped answer "2" selects credit; every other
      answer, recognised or not, is debit. A blank answer is debit. */
  predicate PaysByCredit(answer: string): (r: bool)
    ensures AllSpace(answer) ==> !r
  {
    Strip(answer) == "2"
  }

  /** `Strip` removes only whitespace ends: its result is a contiguous slice of
      the answer with nothing but whitespace before and after it. */
  lemma StripIsSlice(s: string)
    ensures exists i :: 0 <= i <= |s| - |Strip(s)| && Strip(s) == s[i..i + |Strip(s)|]
                        && AllSpace(s[..i]) && AllSpace(s[i + |Strip(s)|..])
  {
    var u := TrimLeft(s);
    var k := |s| - |u|;
    var r := TrimRight(u);
    assert s[k..k + |r|] == r;
    assert s[k + |r|..] == u[|r|..];
  }

  /** `TrimRight(TrimLeft(s))` is empty exactly when `s` is blank. */
  lemma BlankIffStripEmpty(s: string)
    ensures TrimRight(TrimLeft(s)) == [] <==> AllSpace(s)
  {
    var t := TrimLeft(s);
    if TrimRight(t) == [] {
      assert AllSpace(t[0..]);
      assert |t| == 0;
      assert s[..|s|] == s;
    }
  }

  /** Leading whitespace does not change what `TrimLeft` keeps. */
  lemma {:induction false} TrimLeftPadding(pad: string, s: string)
    requires AllSpace(pad)
    ensures TrimLeft(pad + s) == TrimLeft(s)
    decreases |pad|
  {
    if |pad| > 0 {
      assert (pad + s)[1..] == pad[1..] + s;
      TrimLeftPadding(pad[1..], s);
    } else {
      assert pad + s == s;
    }
  }

  /** Trailing whitespace does not change what `TrimRight` keeps. */
  lemma {:induction false} TrimRightPadding(s: string, pad: string)
    requires AllSpace(pad)
    ensures TrimRight(s + pad) == TrimRight(s)
    decreases |pad|
  {
    if |pad| > 0 {
      var n := |pad| - 1;
      assert (s + pad)[..|s| + n] == s + pad[..n];
      TrimRightPadding(s, pad[..n]);
    } else {
      assert s + pad == s;
    }
  }

  /** `TrimLeft` of a string that has some non-space character is unaffected by
      trailing padding. */
  lemma {:induction false} TrimLeftKeepsTail(s: string, pad: string)
    requires exists i :: 0 <= i < |s| && !IsSpace(s[i])
    ensures TrimLeft(s + pad) == TrimLeft(s) + pad
    decreases |s|
  {
    if IsSpace(s[0]) {
      assert (s + pad)[1..] == s[1..] + pad;
      var i :| 0 <= i < |s| && !IsSpace(s[i]);
      assert i > 0 && !IsSpace(s[1..][i - 1]);
      TrimLeftKeepsTail(s[1..], pad);
    }
  }

  /** Whitespace around an answer never changes how it is read: `Strip` ignores
      padding on both sides. */
  lemma StripPadding(left: string, s: string, right: string)
    requires AllSpace(left) && AllSpace(right)
    ensures Strip(left + s + right) == Strip(s)
  {
    calc {
      Strip(left + s + right);
      { assert left + s + right == left + (s + right); }
      TrimRight(TrimLeft(left + (s + right)));
      { TrimLeftPadding(left, s + right); }
      Strip(s + right);
      { StripTrailing(s, right); }
      Strip(s);
    }
  }

  /** Trailing whitespace never changes the stripped answer. */
  lemma StripTrailing(s: string, pad: string)
    requires AllSpace(pad)
    ensures Strip(s + pad) == Strip(s)
  {
    if exists i :: 0 <= i < |s| && !IsSpace(s[i]) {
      TrimLeftKeepsTail(s, pad);
      TrimRightPadding(TrimLeft(s), pad);
    } else {
      AllSpaceConcat(s, pad);
      BlankTrimLeft(s + pad);
      BlankTrimLeft(s);
    }
  }

  /** Whitespace followed by whitespace is whitespace. */
  lemma AllSpaceConcat(a: string, b: string)
    requires AllSpace(a) && AllSpace(b)
    ensures AllSpace(a + b)
  {
    var s := a + b;
    forall i | 0 <= i < |s|
      ensures IsSpace(s[i])
    {
      if i < |a| {
        assert s[i] == a[i];
      } else {
        assert s[i] == b[i - |a|];
      }
    }
  }

  /** `TrimLeft` removes a blank string entirely. */
  lemma BlankTrimLeft(s: string)
    requires AllSpace(s)
    ensures TrimLeft(s) == []
  {
  }

  /** A single non-space character, padded on both sides, strips to itself. */
  lemma StripPaddedChar(left: string, ch: char, right: string)
    requires AllSpace(left) && AllSpace(right)
    requires !IsSpace(ch)
    ensures Strip(left + [ch] + right) == [ch]
  {
    StripPadding(left, [ch], right);
    assert TrimLeft([ch]) == [ch];
  }

  /** A blank answer strips to nothing. */
  lemma StripBlank(left: string, right: string)
    requires AllSpace(left) && AllSpace(right)
    ensures Strip(left + right) == []
  {
    AllSpaceConcat(left, right);
    BlankTrimLeft(left + right);
    assert TrimRight([]) == [];
  }

  /** An answer strips to the single character `ch` exactly when it is `ch`,
      not itself whitespace, with whitespace on either side. */
  lemma StrippedToChar(answer: string, ch: char)
    ensures Strip(answer) == [ch] <==>
            !IsSpace(ch) && exists left, right :: AllSpace(left) && AllSpace(right) && answer == left + [ch] + right
  {
    if Strip(answer) == [ch] {
      var u := TrimLeft(answer);
      var k := |answer| - |u|;
      var left := answer[..k];
      var right := answer[k + 1..];
      assert u[0] == ch;
      assert right == u[1..];
      assert answer == left + [ch] + right;
      assert AllSpace(left) && AllSpace(right);
    }
    if !IsSpace(ch) && exists left, right :: AllSpace(left) && AllSpace(right) && answer == left + [ch] + right {
      var left, right :| AllSpace(left) && AllSpace(right) && answer == left + [ch] + right;
      StripPaddedChar(left, ch, right);
    }
  }

  /** The continue prompt continues exactly on "s" or "S" padded with whitespace. */
  lemma WantsMoreShape(answer: string)
    ensures WantsMore(answer) <==>
            exists left, right :: AllSpace(left) && AllSpace(right) &&
              (answer == left + "s" + right || answer == left + "S" + right)
  {
    StrippedToChar(answer, 's');
    StrippedToChar(answer, 'S');
    assert "s" == ['s'] && "S" == ['S'];
  }

  /** The payment prompt selects credit exactly on "2" padded with whitespace. */
  lemma PaysByCreditShape(answer: string)
    ensures PaysByCredit(answer) <==>
            exists left, right :: AllSpace(left) && AllSpace(right) && answer == left + "2" + right
  {
    StrippedToChar(answer, '2');
    assert "2" == ['2'];
  }

  /** How a padded one-character answer is read at both prompts. */
  lemma PaddedAnswer(left: string, ch: char, right: string)
    requires AllSpace(left) && AllSpace(right)
    requires !IsSpace(ch)
    ensures WantsMore(left + [ch] + right) <==> ch == 's' || ch == 'S'
    ensures PaysByCredit(left + [ch] + right) <==> ch == '2'
  {
    StripPaddedChar(left, ch, right);
  }

  /** The continue prompt accepts "s" in either case with any surrounding
      whitespace, and reads "n" or a blank answer as stop. */
  lemma ContinueAnswers(left: string, right: string)
    requires AllSpace(left) && AllSpace(right)
    ensures WantsMore(left + "s" + right) && WantsMore(left + "S" + right)
    ensures !WantsMore(left + "n" + right)
    ensures !WantsMore(left + right)
  {
    PaddedAnswer(left, 's', right);
    PaddedAnswer(left, 'S', right);
    PaddedAnswer(left, 'n', right);
    StripBlank(left, right);
  }

  /** The payment prompt reads a padded "2" as credit and "1" as debit. */
  lemma PaymentAnswers(left: string, right: string)
    requires AllSpace(left) && AllSpace(right)
    ensures PaysByCredit(left + "2" + right)
    ensures !PaysByCredit(left + "1" + right)
  {
    PaddedAnswer(left, '2', right);
    PaddedAnswer(left, '1', right);
  }
}
