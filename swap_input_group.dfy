/**
 * The amount filter and the two change handlers of one swap input group
 * (client/src/components/CurrencySelect/SwapInputGroup.tsx).
 */
module SwapInputGroup {
  import opened Wrappers

  /** `\d` in a JavaScript regular expression: an ASCII digit. */
  predicate IsDigit(c: char) {
    '0' <= c <= '9'
  }

  predicate AllDigits(s: string) {
    forall i :: 0 <= i < |s| ==> IsDigit(s[i])
  }

  /**
   * `/^\d*\.?\d*$/.test(s)`, read off the pattern: s splits at some k into
   * a run of digits, then either nothing or a '.' followed by a run of digits.
   */
  predicate AcceptsAmount(s: string) {
    exists k :: 0 <= k <= |s| && AllDigits(s[..k]) && (k == |s| || (s[k] == '.' && AllDigits(s[k + 1..])))
  }

  /** The number of '.' characters in s. */
  function DotCount(s: string): (count: nat) {
    if s == [] then 0 else (if s[0] == '.' then 1 else 0) + DotCount(s[1..])
  }

  /** Every character is an ASCII digit or '.'. */
  predicate DigitsAndDots(s: string) {
    forall i :: 0 <= i < |s| ==> IsDigit(s[i]) || s[i] == '.'
  }

  lemma {:induction false} AllDigitsIff(s: string)
    ensures AllDigits(s) <==> DigitsAndDots(s) && DotCount(s) == 0
  {
    if s != [] {
      AllDigitsIff(s[1..]);
      assert AllDigits(s) <==> IsDigit(s[0]) && AllDigits(s[1..]) by {
        if IsDigit(s[0]) && AllDigits(s[1..]) {
          forall i | 0 <= i < |s| ensures IsDigit(s[i]) {
            if i > 0 { assert s[i] == s[1..][i - 1]; }
          }
        }
      }
      assert DigitsAndDots(s) <==> (IsDigit(s[0]) || s[0] == '.') && DigitsAndDots(s[1..]) by {
        if (IsDigit(s[0]) || s[0] == '.') && DigitsAndDots(s[1..]) {
          forall i | 0 <= i < |s| ensures IsDigit(s[i]) || s[i] == '.' {
            if i > 0 { assert s[i] == s[1..][i - 1]; }
          }
        }
      }
    }
  }

  /** How the pattern reads a non-empty string: a digit then an accepted rest, or '.' then digits. */
  lemma AcceptsAmountCons(s: string)
    requires s != []
    ensures AcceptsAmount(s) <==> (IsDigit(s[0]) && AcceptsAmount(s[1..])) || (s[0] == '.' && AllDigits(s[1..]))
  {
    var t := s[1..];
    if AcceptsAmount(s) {
      var k :| 0 <= k <= |s| && AllDigits(s[..k]) && (k == |s| || (s[k] == '.' && AllDigits(s[k + 1..])));
      if k == 0 {
        assert s[k + 1..] == t;
      } else {
        assert IsDigit(s[..k][0]);
        var u := t[..k - 1];
        assert AllDigits(u) by {
          forall i | 0 <= i < |u| ensures IsDigit(u[i]) {
            assert u[i] == s[..k][i + 1];
          }
        }
        if k < |s| {
          assert t[k - 1] == s[k];
          assert t[k..] == s[k + 1..];
        }
        assert AcceptsAmount(t);
      }
    }
    if IsDigit(s[0]) && AcceptsAmount(t) {
      var k :| 0 <= k <= |t| && AllDigits(t[..k]) && (k == |t| || (t[k] == '.' && AllDigits(t[k + 1..])));
      var u := s[..k + 1];
      assert AllDigits(u) by {
        forall i | 0 <= i < |u| ensures IsDigit(u[i]) {
          if i > 0 { assert u[i] == t[..k][i - 1]; }
        }
      }
      if k < |t| {
        assert s[k + 1] == t[k];
        assert s[k + 2..] == t[k + 1..];
      }
    }
    if s[0] == '.' && AllDigits(t) {
      assert AllDigits(s[..0]);
      assert s[1..] == t;
    }
  }

  /** The pattern accepts exactly the strings of digits and dots with at most one dot. */
  lemma {:induction false} AcceptsAmountIff(s: string)
    ensures AcceptsAmount(s) <==> DigitsAndDots(s) && DotCount(s) <= 1
  {
    if s == [] {
      assert AllDigits(s[..0]);
    } else {
      var t := s[1..];
      AcceptsAmountCons(s);
      AcceptsAmountIff(t);
      AllDigitsIff(t);
      assert DigitsAndDots(s) <==> (IsDigit(s[0]) || s[0] == '.') && DigitsAndDots(t) by {
        if (IsDigit(s[0]) || s[0] == '.') && DigitsAndDots(t) {
          forall i | 0 <= i < |s| ensures IsDigit(s[i]) || s[i] == '.' {
            if i > 0 { assert s[i] == t[i - 1]; }
          }
        }
      }
    }
  }

  /** Every prefix of an accepted string is accepted: typing can always be undone by deleting from the end. */
  lemma AcceptsAmountPrefixClosed(s: string, j: nat)
    requires AcceptsAmount(s) && j <= |s|
    ensures AcceptsAmount(s[..j])
  {
    var k :| 0 <= k <= |s| && AllDigits(s[..k]) && (k == |s| || (s[k] == '.' && AllDigits(s[k + 1..])));
    var p := s[..j];
    if j <= k {
      assert p[..j] == s[..k][..j];
      assert AllDigits(p[..j]) by {
        forall i | 0 <= i < j ensures IsDigit(p[..j][i]) {
          assert p[..j][i] == s[..k][i];
        }
      }
    } else {
      assert p[..k] == s[..k];
      assert p[k] == s[k];
      var u := p[k + 1..];
      assert AllDigits(u) by {
        forall i | 0 <= i < |u| ensures IsDigit(u[i]) {
          assert u[i] == s[k + 1..][i];
        }
      }
    }
  }

  /** The pattern on the inputs the interface is meant to allow and to refuse. */
  lemma AcceptsAmountExamples()
    ensures AcceptsAmount("") && AcceptsAmount(".") && AcceptsAmount("12.") && AcceptsAmount(".5")
    ensures !AcceptsAmount("1.2.3") && !AcceptsAmount("1a")
  {
    assert AllDigits(""[..0]);
    assert AllDigits("."[..0]) && AllDigits("."[1..]);
    assert "12."[..2] == "12" && "12."[3..] == "";
    assert AllDigits("12."[..2]) && AllDigits("12."[3..]);
    assert ".5"[..0] == "" && ".5"[1..] == "5";
    assert AllDigits(".5"[..0]) && AllDigits(".5"[1..]);
    AcceptsAmountIff("1.2.3");
    assert DotCount("1.2.3") == 2 by {
      assert "1.2.3"[1..] == ".2.3" && ".2.3"[1..] == "2.3";
      assert "2.3"[1..] == ".3" && ".3"[1..] == "3" && "3"[1..] == "";
    }
    AcceptsAmountIff("1a");
    assert !IsDigit("1a"[1]) && "1a"[1] != '.';
  }

  /**
   * One input group: the amount and currency slots its parent hands it through
   * `amount`/`setAmount` and `currency`/`setCurrency`.
   */
  class InputGroup {
    var amount: string
    var currency: string

    constructor (currency: string)
      ensures this.currency == currency && amount == ""
    {
      this.currency := currency;
      amount := "";
    }

    /**
     * `onInputChange`: an accepted keystroke stores the typed string and passes
     * the same string to `recalculate`, returned here as `recalculate`; a
     * refused one changes nothing and calls nothing (None).
     */
    method OnInputChange(value: string) returns (recalculate: Option<string>)
      modifies this
      ensures AcceptsAmount(value) ==> amount == value && recalculate == Some(value)
      ensures !AcceptsAmount(value) ==> amount == old(amount) && recalculate == None
      ensures currency == old(currency)
    {
      if AcceptsAmount(value) {
        amount := value;
        recalculate := Some(value);
      } else {
        recalculate := None;
      }
    }

    /** `onCurrencyChange`: sets the currency only; the amount stays and nothing is recalculated. */
    method OnCurrencyChange(newCurrency: string)
      modifies this
      ensures currency == newCurrency && amount == old(amount)
    {
      currency := newCurrency;
    }
  }
}
