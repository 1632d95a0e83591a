/**
 * The yes/no answer rules of the interactive setup (main.go:236-242,
 * 245-251, 274-281, 299-304): an answer is trimmed of surrounding white space
 * and lower-cased, then compared with "n"/"no" or "y"/"yes".
 *
 * White space is the set the platform's Unicode space test accepts.
 * Lower-casing is modelled for ASCII letters only: the only other characters
 * whose lower case is an ASCII letter lower-case to 'i' or 'k', neither of
 * which occurs in the four accepted words, so the comparisons are unaffected.
 */
module Answers {
  import opened Wrappers

  /** The Unicode white space characters (the platform's space test). */
  predicate IsSpace(c: char)
  {
    || c == '\t' || c == '\n' || c == '\U{000B}' || c == '\U{000C}' || c == '\r' || c == ' '
    || c == '\U{0085}' || c == '\U{00A0}' || c == '\U{1680}'
    || ('\U{2000}' <= c <= '\U{200A}')
    || c == '\U{2028}' || c == '\U{2029}' || c == '\U{202F}' || c == '\U{205F}' || c == '\U{3000}'
  }

  /** Every character of `s` is white space. */
  predicate AllSpace(s: string)
  {
    forall k :: 0 <= k < |s| ==> IsSpace(s[k])
  }

  /** `s` neither starts nor ends with white space. */
  predicate IsTrimmed(s: string)
  {
    s == "" || (!IsSpace(s[0]) && !IsSpace(s[|s| - 1]))
  }

  function TrimLeft(s: string): string
  {
    if s != [] && IsSpace(s[0]) then TrimLeft(s[1..]) else s
  }

  function TrimRight(s: string): string
  {
    if s != [] && IsSpace(s[|s| - 1]) then TrimRight(s[..|s| - 1]) else s
  }

  /** strings.TrimSpace */
  function TrimSpace(s: string): string
  {
    TrimRight(TrimLeft(s))
  }

  function LowerChar(c: char): char
  {
    if 'A' <= c <= 'Z' then (c as int + 32) as char else c
  }

  /** strings.ToLower, for ASCII letters. */
  function ToLower(s: string): string
  {
    seq(|s|, k requires 0 <= k < |s| => LowerChar(s[k]))
  }

  /** The form an answer is compared in. */
  function Normalize(answer: string): string
  {
    ToLower(TrimSpace(answer))
  }

  /** An explicit "no". */
  predicate IsNo(answer: string)
  {
    Normalize(answer) == "n" || Normalize(answer) == "no"
  }

  /** An explicit "yes". */
  predicate IsYes(answer: string)
  {
    Normalize(answer) == "y" || Normalize(answer) == "yes"
  }

  /**
   * A question whose default is yes (translate, download existing videos,
   * launch now): `line` is the answer read, None when input has ended.
   */
  function DefaultYes(line: Option<string>): bool
  {
    !(line.Some? && IsNo(line.value))
  }

  /** The question whose default is no (add another playlist). */
  function DefaultNo(line: Option<string>): bool
  {
    line.Some? && IsYes(line.value)
  }

  /** `word` spells the lower-case ASCII word `target` in any mix of cases. */
  predicate EqualsIgnoringCase(word: string, target: string)
  {
    |word| == |target| &&
    forall k :: 0 <= k < |word| ==> word[k] == target[k] || word[k] as int == target[k] as int - 32
  }

  // ---------------------------------------------------------------------
  // Trimming removes exactly the surrounding white space

  lemma {:induction false} TrimLeftIsSuffix(s: string)
    ensures |TrimLeft(s)| <= |s| && TrimLeft(s) == s[|s| - |TrimLeft(s)|..]
    ensures AllSpace(s[..|s| - |TrimLeft(s)|])
    ensures TrimLeft(s) == "" || !IsSpace(TrimLeft(s)[0])
  {
    if s != [] && IsSpace(s[0]) {
      TrimLeftIsSuffix(s[1..]);
      var n := |s| - |TrimLeft(s)|;
      assert s[..n] == [s[0]] + s[1..][..n - 1];
    }
  }

  lemma {:induction false} TrimRightIsPrefix(s: string)
    ensures |TrimRight(s)| <= |s| && TrimRight(s) == s[..|TrimRight(s)|]
    ensures AllSpace(s[|TrimRight(s)|..])
    ensures TrimRight(s) == "" || !IsSpace(TrimRight(s)[|TrimRight(s)| - 1])
  {
    if s != [] && IsSpace(s[|s| - 1]) {
      var shorter := s[..|s| - 1];
      TrimRightIsPrefix(shorter);
      var n := |TrimRight(s)|;
      assert s[n..] == shorter[n..] + [s[|s| - 1]];
    }
  }

  lemma {:induction false} TrimRightKeepsStart(s: string)
    requires s == "" || !IsSpace(s[0])
    ensures TrimRight(s) == "" || TrimRight(s)[0] == s[0]
  {
    if s != [] && IsSpace(s[|s| - 1]) {
      TrimRightKeepsStart(s[..|s| - 1]);
    }
  }

  /** The trimmed text neither starts nor ends with white space. */
  lemma TrimSpaceIsTrimmed(s: string)
    ensures IsTrimmed(TrimSpace(s))
  {
    var left := TrimLeft(s);
    TrimLeftIsSuffix(s);
    TrimRightIsPrefix(left);
    TrimRightKeepsStart(left);
  }

  /** TrimSpace cuts `s` into leading white space, the trimmed text and trailing white space. */
  lemma TrimSpaceSplits(s: string)
    ensures var t, lead := TrimSpace(s), |s| - |TrimLeft(s)|;
      0 <= lead && lead + |t| <= |s| && t == s[lead..lead + |t|] &&
      AllSpace(s[..lead]) && AllSpace(s[lead + |t|..])
  {
    var left := TrimLeft(s);
    TrimLeftIsSuffix(s);
    TrimRightIsPrefix(left);
    var t := TrimRight(left);
    var lead := |s| - |left|;
    assert left == s[lead..];
    assert left[..|t|] == s[lead..lead + |t|];
    assert left[|t|..] == s[lead + |t|..];
  }

  lemma {:induction false} TrimLeftPadded(pre: string, s: string)
    requires AllSpace(pre)
    ensures TrimLeft(pre + s) == TrimLeft(s)
  {
    if pre != [] {
      assert (pre + s)[1..] == pre[1..] + s;
      TrimLeftPadded(pre[1..], s);
    } else {
      assert pre + s == s;
    }
  }

  lemma {:induction false} TrimRightPadded(s: string, post: string)
    requires AllSpace(post)
    ensures TrimRight(s + post) == TrimRight(s)
  {
    if post != [] {
      assert (s + post)[..|s + post| - 1] == s + post[..|post| - 1];
      TrimRightPadded(s, post[..|post| - 1]);
    } else {
      assert s + post == s;
    }
  }

  lemma {:induction false} TrimLeftAppend(s: string, post: string)
    ensures TrimLeft(s + post) == TrimLeft(s) + post || (AllSpace(s) && TrimLeft(s + post) == TrimLeft(post))
  {
    if s != [] {
      assert (s + post)[1..] == s[1..] + post;
      if IsSpace(s[0]) {
        TrimLeftAppend(s[1..], post);
      }
    } else {
      assert s + post == post;
    }
  }

  /** White space added around an answer is ignored. */
  lemma PaddingIgnored(pre: string, s: string, post: string)
    requires AllSpace(pre) && AllSpace(post)
    ensures TrimSpace(pre + s + post) == TrimSpace(s)
  {
    assert pre + s + post == pre + (s + post);
    TrimLeftPadded(pre, s + post);
    TrimLeftAppend(s, post);
    if TrimLeft(s + post) == TrimLeft(s) + post {
      TrimRightPadded(TrimLeft(s), post);
    } else {
      TrimLeftIsSuffix(s);
      TrimLeftIsSuffix(post);
      TrimRightPadded(TrimLeft(s), TrimLeft(post));
      assert TrimLeft(post) == "";
      assert TrimLeft(s) == "";
    }
  }

  // ---------------------------------------------------------------------
  // What counts as yes and no

  lemma LowerCharTo(c: char, t: char)
    requires 'a' <= t <= 'z'
    ensures LowerChar(c) == t <==> c == t || c as int == t as int - 32
  {
  }

  /** Lower-casing equals a lower-case word exactly when the text spells it in any mix of cases. */
  lemma ToLowerEquals(word: string, target: string)
    requires forall k :: 0 <= k < |target| ==> 'a' <= target[k] <= 'z'
    ensures ToLower(word) == target <==> EqualsIgnoringCase(word, target)
  {
    if |word| == |target| {
      forall k | 0 <= k < |word| ensures LowerChar(word[k]) == target[k] <==> word[k] == target[k] || word[k] as int == target[k] as int - 32 {
        LowerCharTo(word[k], target[k]);
      }
      if EqualsIgnoringCase(word, target) {
        assert ToLower(word) == target;
      }
    }
  }

  /** An answer means no exactly when, once trimmed, it spells "n" or "no" in any case. */
  lemma IsNoCharacterized(answer: string)
    ensures IsNo(answer) <==>
      EqualsIgnoringCase(TrimSpace(answer), "n") || EqualsIgnoringCase(TrimSpace(answer), "no")
  {
    ToLowerEquals(TrimSpace(answer), "n");
    ToLowerEquals(TrimSpace(answer), "no");
  }

  /** An answer means yes exactly when, once trimmed, it spells "y" or "yes" in any case. */
  lemma IsYesCharacterized(answer: string)
    ensures IsYes(answer) <==>
      EqualsIgnoringCase(TrimSpace(answer), "y") || EqualsIgnoringCase(TrimSpace(answer), "yes")
  {
    ToLowerEquals(TrimSpace(answer), "y");
    ToLowerEquals(TrimSpace(answer), "yes");
  }

  /** No answer is both a yes and a no, so a default-no question never continues on a "no". */
  lemma YesAndNoExclusive(answer: string)
    ensures !(IsYes(answer) && IsNo(answer))
    ensures DefaultNo(Some(answer)) ==> DefaultYes(Some(answer))
  {
  }

  /** A missing or empty answer keeps yes for default-yes questions and no for the other. */
  lemma DefaultsOnMissing()
    ensures DefaultYes(None) && DefaultYes(Some(""))
    ensures !DefaultNo(None) && !DefaultNo(Some(""))
  {
    assert TrimSpace("") == "";
  }

  /**
   * Every answer other than the accepted words keeps the default: one that,
   * trimmed, spells neither "n" nor "no" keeps yes, and one that spells
   * neither "y" nor "yes" keeps no.
   */
  lemma OtherWordsKeepDefaults(answer: string)
    ensures !EqualsIgnoringCase(TrimSpace(answer), "n") && !EqualsIgnoringCase(TrimSpace(answer), "no") ==>
      DefaultYes(Some(answer))
    ensures !EqualsIgnoringCase(TrimSpace(answer), "y") && !EqualsIgnoringCase(TrimSpace(answer), "yes") ==>
      !DefaultNo(Some(answer))
  {
    IsNoCharacterized(answer);
    IsYesCharacterized(answer);
  }

  /** Only the exact words count: "nope", "0" and "yeah" are neither a no nor a yes. */
  lemma OtherWordsExamples()
    ensures DefaultYes(Some("nope")) && DefaultYes(Some("0")) && !DefaultNo(Some("yeah"))
  {
    assert TrimSpace("nope") == "nope";
    assert TrimSpace("0") == "0";
    assert TrimSpace("yeah") == "yeah";
    assert ToLower("nope") == "nope";
    assert ToLower("yeah") == "yeah";
  }

  /** Case and surrounding white space, a carriage return included, do not matter. */
  lemma CaseAndSpaceIgnored()
    ensures !DefaultYes(Some(" No\r")) && DefaultNo(Some("\tYES "))
  {
    assert TrimSpace(" No\r") == "No" by {
      assert TrimLeft(" No\r") == "No\r";
      assert TrimRight("No\r") == "No";
    }
    assert TrimSpace("\tYES ") == "YES" by {
      assert TrimLeft("\tYES ") == "YES ";
      assert TrimRight("YES ") == "YES";
    }
    assert ToLower("No") == "no";
    assert ToLower("YES") == "yes";
  }
}
