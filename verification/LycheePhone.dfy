/** Phone normalisation of the webhook. */
module LycheePhone {
  import opened Common
  import opened Text

  predicate Digits(s: string) { forall c :: c in s ==> IsDigit(c) }

  predicate IsPunctuation(c: char) {
    IsSpace(c) || c == '(' || c == ')' || c == '+' || c == '-'
  }

  function Strip(s: string): string {
    if s == [] then [] else (if IsPunctuation(s[0]) then [] else [s[0]]) + Strip(s[1..])
  }

  /** An Israeli local mobile number. */
  predicate IsLocal(s: string) { |s| == 10 && Digits(s) && s[0] == '0' && s[1] == '5' }

  predicate IsInternational(s: string) { 8 <= |s| <= 15 && Digits(s) && s[0] != '0' }

  function Phone(value: string): Option<string> {
    var stripped := Strip(value);
    var digits := if IsLocal(stripped) then "972" + stripped[1..] else stripped;
    if IsInternational(digits) then Some(digits) else None
  }

  lemma {:induction false} StripKeepsDigits(s: string)
    requires Digits(s)
    ensures Strip(s) == s
  {
    if s != [] {
      StripKeepsDigits(s[1..]);
      assert s[0] in s && !IsPunctuation(s[0]);
      assert s == [s[0]] + s[1..];
    }
  }

  /** Exactly the spellings of a number: its digits with any punctuation, or, for a mobile
      number under 972 5, the local form with the leading 0. */
  lemma PhoneExactly(value: string, number: string)
    ensures Phone(value) == Some(number) <==>
              && IsInternational(number)
              && (Strip(value) == number || (|number| == 12 && number[..4] == "9725"
                                             && Strip(value) == "0" + number[3..]))
  {
    var stripped := Strip(value);
    if IsLocal(stripped) {
      var full := "972" + stripped[1..];
      assert full[..4] == "9725" && stripped == "0" + full[3..];
      assert Digits(full) by {
        forall i | 0 <= i < |full| ensures IsDigit(full[i]) { assert full[i] in stripped || i < 3; }
      }
    }
    if IsInternational(number) && |number| == 12 && number[..4] == "9725" && stripped == "0" + number[3..] {
      assert stripped[1] == number[..4][3];
      assert Digits(stripped) by {
        forall i | 0 <= i < |stripped| ensures IsDigit(stripped[i]) { assert i == 0 || stripped[i] in number; }
      }
      assert "972" + stripped[1..] == number by {
        assert number[0] == number[..4][0] && number[1] == number[..4][1] && number[2] == number[..4][2];
      }
    }
  }

  /** Normalising a normalised number changes nothing. */
  lemma PhoneIsStable(value: string, number: string)
    requires Phone(value) == Some(number)
    ensures Phone(number) == Some(number)
  {
    PhoneExactly(value, number);
    StripKeepsDigits(number);
    PhoneExactly(number, number);
  }
}
